/** Exactly which payloads the canonical text fails: those with nodes too deep, and those with tied keys. */
module CanonicalLimits {
  import opened Prelude
  import opened CanonicalJson
  import opened CanonicalEquality

  lemma {:induction false} EqualToItself(v: Json)
    requires Valid(v)
    ensures Equal(v, v)
  {
    if v.Arr? {
      forall i | 0 <= i < |v.items| ensures Equal(v.items[i], v.items[i]) {
        EqualToItself(v.items[i]);
      }
    } else if v.Obj? {
      forall i, j | 0 <= i < |v.members| && 0 <= j < |v.members| && v.members[i].key == v.members[j].key
        ensures Equal(v.members[i].value, v.members[j].value)
      {
        assert i == j;
        EqualToItself(v.members[i].value);
      }
    }
  }

  // ---- deep nodes -----------------------------------------------------------------------

  /** An unequal value with the same canonical value: it differs from v only below the depth limit. */
  ghost predicate DeepTwin(v: Json, w: Json, depth: nat, le: Order)
  {
    Valid(w) && Canon(v, depth, le) == Canon(w, depth, le) && !Equal(v, w)
  }

  lemma {:induction false} AnyTwin(v: Json, depth: nat, le: Order) returns (w: Json)
    requires Valid(v) && depth > MAX_DEPTH
    ensures DeepTwin(v, w, depth, le)
  {
    w := if Scalar(v) == Null then Bool(true) else Null;
  }

  lemma {:induction false} DeepTwinExists(v: Json, depth: nat, le: Order) returns (w: Json)
    requires Valid(v) && !Within(v, MAX_DEPTH - depth)
    ensures DeepTwin(v, w, depth, le)
    decreases v, 1
  {
    if depth > MAX_DEPTH {
      w := AnyTwin(v, depth, le);
    } else if v.Arr? {
      w := DeepItemTwin(v, depth, le);
    } else {
      w := DeepMemberTwin(v, depth, le);
    }
  }

  lemma {:induction false} DeepItemTwin(v: Json, depth: nat, le: Order) returns (w: Json)
    requires Valid(v) && !Within(v, MAX_DEPTH - depth) && depth <= MAX_DEPTH && v.Arr?
    ensures DeepTwin(v, w, depth, le)
    decreases v, 0
  {
    var i :| 0 <= i < |v.items| && !Within(v.items[i], MAX_DEPTH - depth - 1);
    var x := DeepTwinExists(v.items[i], depth + 1, le);
    w := Arr(v.items[i := x]);
    ItemReplaced(v, i, x, depth, le);
  }

  lemma {:induction false} DeepMemberTwin(v: Json, depth: nat, le: Order) returns (w: Json)
    requires Valid(v) && !Within(v, MAX_DEPTH - depth) && depth <= MAX_DEPTH && v.Obj?
    ensures DeepTwin(v, w, depth, le)
    decreases v, 0
  {
    var i :| 0 <= i < |v.members| && !Within(v.members[i].value, MAX_DEPTH - depth - 1);
    var x := DeepTwinExists(v.members[i].value, depth + 1, le);
    w := Obj(v.members[i := Member(v.members[i].key, x)]);
    MemberReplaced(v, i, x, depth, le);
  }

  lemma {:induction false} ItemReplaced(v: Json, i: nat, x: Json, depth: nat, le: Order)
    requires v.Arr? && i < |v.items| && depth <= MAX_DEPTH && Valid(v) && DeepTwin(v.items[i], x, depth + 1, le)
    ensures DeepTwin(v, Arr(v.items[i := x]), depth, le)
  {
    var w := Arr(v.items[i := x]);
    assert !Equal(v.items[i], w.items[i]);
    assert Canon(v, depth, le).items == Canon(w, depth, le).items;
  }

  lemma {:induction false} MemberReplaced(v: Json, i: nat, x: Json, depth: nat, le: Order)
    requires v.Obj? && i < |v.members| && depth <= MAX_DEPTH && Valid(v) && DeepTwin(v.members[i].value, x, depth + 1, le)
    ensures DeepTwin(v, Obj(v.members[i := Member(v.members[i].key, x)]), depth, le)
  {
    var b := v.members[i := Member(v.members[i].key, x)];
    KeysKept(v.members, i, x);
    assert v.members[i].key == b[i].key && !Equal(v.members[i].value, b[i].value);
    SortAlike(v.members, b, depth + 1, le);
    assert Canon(v, depth, le).members == Canon(Obj(b), depth, le).members;
  }

  /** Lists with the same keys and the same canonical values in the same places. */
  ghost predicate Alike(a: seq<Member>, b: seq<Member>, depth: nat, le: Order)
  {
    Parallel(a, b) && forall k :: 0 <= k < |a| ==> Canon(a[k].value, depth, le) == Canon(b[k].value, depth, le)
  }

  lemma {:induction false} InsertAlike(a: seq<Member>, b: seq<Member>, m: Member, n: Member, depth: nat, le: Order)
    requires Alike(a, b, depth, le) && m.key == n.key && Canon(m.value, depth, le) == Canon(n.value, depth, le)
    ensures Alike(Insert(a, m, le), Insert(b, n, le), depth, le)
  {
    if a != [] && !le(a[|a| - 1].key, m.key) {
      InsertAlike(a[..|a| - 1], b[..|b| - 1], m, n, depth, le);
    }
  }

  /** The sort looks at keys only. */
  lemma {:induction false} SortAlike(a: seq<Member>, b: seq<Member>, depth: nat, le: Order)
    requires Alike(a, b, depth, le)
    ensures Alike(Sort(a, le), Sort(b, le), depth, le)
  {
    if a == [] {
    } else {
      SortAlike(a[..|a| - 1], b[..|b| - 1], depth, le);
      InsertAlike(Sort(a[..|a| - 1], le), Sort(b[..|b| - 1], le), a[|a| - 1], b[|b| - 1], depth, le);
    }
  }

  /** Lists with the same keys in the same places. */
  ghost predicate Parallel(a: seq<Member>, b: seq<Member>)
  {
    |a| == |b| && forall k :: 0 <= k < |a| ==> a[k].key == b[k].key
  }

  lemma ParallelSameKeys(a: seq<Member>, b: seq<Member>)
    requires Parallel(a, b)
    ensures SameKeys(a, b)
  {
    forall k | 0 <= k < |a| ensures HasKey(b, a[k].key) {
      assert b[k].key == a[k].key;
    }
    forall k | 0 <= k < |b| ensures HasKey(a, b[k].key) {
      assert a[k].key == b[k].key;
    }
  }

  lemma KeysKept(a: seq<Member>, i: nat, x: Json)
    requires i < |a|
    ensures Parallel(a, a[i := Member(a[i].key, x)])
  {
  }

  /** Another payload that has the text of v. */
  ghost predicate Collides(v: Json, w: Json, le: Order)
  {
    Valid(w) && !Equal(v, w) && StableStringify(w, 0, le) == StableStringify(v, 0, le)
  }

  lemma DeepCollides(v: Json, le: Order) returns (w: Json)
    requires Valid(v) && !Within(v, MAX_DEPTH)
    ensures Collides(v, w, le)
  {
    w := DeepTwinExists(v, 0, le);
    PrintsAlikeIffCanon(v, w, le);
  }

  lemma ShallowCollidesNot(v: Json, w: Json, le: Order)
    requires Valid(v) && Within(v, MAX_DEPTH)
    ensures !Collides(v, w, le)
  {
    if Valid(w) && StableStringify(w, 0, le) == StableStringify(v, 0, le) {
      PrintedAlikeIsSame(v, w, le);
      ShallowSameIsEqual(v, w, 0);
    }
  }

  /**
   * Whatever the order of keys is, another payload has the text of
   * this one exactly when some node of it lies too deep.
   */
  lemma CollidesIffDeep(v: Json, le: Order)
    requires Valid(v)
    ensures (exists w :: Collides(v, w, le)) <==> !Within(v, 10)
  {
    if Within(v, MAX_DEPTH) {
      forall w ensures !Collides(v, w, le) {
        ShallowCollidesNot(v, w, le);
      }
    } else {
      var w := DeepCollides(v, le);
    }
  }

  // ---- tied keys ------------------------------------------------------------------------

  /** Key x stands before key y. */
  ghost predicate Before(members: seq<Member>, x: string, y: string)
  {
    exists p, q :: 0 <= p < q < |members| && members[p].key == x && members[q].key == y
  }

  /** Insertion keeps what stands before what. */
  lemma {:induction false} InsertKeepsBefore(sorted: seq<Member>, m: Member, x: string, y: string, le: Order)
    requires Before(sorted, x, y)
    ensures Before(Insert(sorted, m, le), x, y)
  {
    var last, init := sorted[|sorted| - 1], sorted[..|sorted| - 1];
    var r := Insert(sorted, m, le);
    var p, q :| 0 <= p < q < |sorted| && sorted[p].key == x && sorted[q].key == y;
    if le(last.key, m.key) {
      assert r[p] == sorted[p] && r[q] == sorted[q];
    } else if q < |init| {
      assert init[p] == sorted[p] && init[q] == sorted[q];
      InsertKeepsBefore(init, m, x, y, le);
      var r' := Insert(init, m, le);
      var p', q' :| 0 <= p' < q' < |r'| && r'[p'].key == x && r'[q'].key == y;
      assert r[p'] == r'[p'] && r[q'] == r'[q'];
    } else {
      var r' := Insert(init, m, le);
      assert init[p] in r';
      var p' :| 0 <= p' < |r'| && r'[p'] == init[p];
      assert r[p'] == r'[p'] && r[|r'|] == last;
    }
  }

  /** A member goes behind every key that does not sort after it. */
  lemma {:induction false} InsertGoesBehind(sorted: seq<Member>, m: Member, x: string, le: Order)
    requires HasKey(sorted, x) && le(x, m.key)
    ensures Before(Insert(sorted, m, le), x, m.key)
  {
    var last, init := sorted[|sorted| - 1], sorted[..|sorted| - 1];
    var r := Insert(sorted, m, le);
    var p :| 0 <= p < |sorted| && sorted[p].key == x;
    if le(last.key, m.key) {
      assert r[p] == sorted[p] && r[|sorted|] == m;
    } else {
      assert p < |init| && init[p] == sorted[p];
      InsertGoesBehind(init, m, x, le);
      var r' := Insert(init, m, le);
      var p', q' :| 0 <= p' < q' < |r'| && r'[p'].key == x && r'[q'].key == m.key;
      assert r[p'] == r'[p'] && r[q'] == r'[q'];
    }
  }

  /** The sort is stable: keys that need not change places do not. */
  lemma {:induction false} SortKeepsBefore(members: seq<Member>, x: string, y: string, le: Order)
    requires Before(members, x, y) && le(x, y)
    ensures Before(Sort(members, le), x, y)
  {
    var last, init := members[|members| - 1], members[..|members| - 1];
    var p, q :| 0 <= p < q < |members| && members[p].key == x && members[q].key == y;
    assert init[p] == members[p];
    if q < |init| {
      assert init[q] == members[q];
      SortKeepsBefore(init, x, y, le);
      InsertKeepsBefore(Sort(init, le), last, x, y, le);
    } else {
      assert init[p] in Sort(init, le);
      var k :| 0 <= k < |init| && Sort(init, le)[k] == init[p];
      InsertGoesBehind(Sort(init, le), last, x, le);
    }
  }

  function Swapped(members: seq<Member>, i: nat, j: nat): seq<Member>
    requires i < |members| && j < |members|
  {
    members[i := members[j]][j := members[i]]
  }

  /** A reordering of v that has another canonical value. */
  ghost predicate Reordered(v: Json, w: Json, depth: nat, le: Order)
  {
    Valid(w) && Equal(v, w) && Canon(v, depth, le) != Canon(w, depth, le)
  }

  /** Two tied keys in each other's place stay there. */
  lemma {:induction false} SwapShows(v: Json, i: nat, j: nat, depth: nat, le: Order)
    requires v.Obj? && Valid(v) && depth <= MAX_DEPTH && i < j < |v.members|
    requires le(v.members[i].key, v.members[j].key) && le(v.members[j].key, v.members[i].key)
    ensures Reordered(v, Obj(Swapped(v.members, i, j)), depth, le)
  {
    var a, b := v.members, Swapped(v.members, i, j);
    var x, y := a[i].key, a[j].key;
    SwapIsEqual(v, i, j);
    assert b[i].key == y && b[j].key == x;
    assert Before(a, x, y) && Before(b, y, x);
    SortKeepsBefore(a, x, y, le);
    SortKeepsBefore(b, y, x, le);
    SortDistinct(a, le);
    if Canon(v, depth, le) == Canon(Obj(b), depth, le) {
      CanonKeys(a, depth, le);
      CanonKeys(b, depth, le);
      OneWayOnly(Sort(a, le), Sort(b, le), x, y);
    }
  }

  lemma CanonKeys(a: seq<Member>, depth: nat, le: Order)
    requires depth <= MAX_DEPTH
    ensures Keys(Canon(Obj(a), depth, le).members) == Keys(Sort(a, le))
  {
  }

  lemma OneWayOnly(a: seq<Member>, b: seq<Member>, x: string, y: string)
    requires DistinctKeys(a) && Before(a, x, y) && Before(b, y, x)
    ensures Keys(a) != Keys(b)
  {
    var p, q :| 0 <= p < q < |a| && a[p].key == x && a[q].key == y;
    var p', q' :| 0 <= p' < q' < |b| && b[p'].key == y && b[q'].key == x;
    assert Keys(a)[p] == x && Keys(a)[q] == y && Keys(b)[p'] == y && Keys(b)[q'] == x;
    assert forall k, l :: 0 <= k < l < |Keys(a)| ==> Keys(a)[k] != Keys(a)[l];
  }

  /** Where a member is after the swap. */
  function Place(k: nat, i: nat, j: nat): nat { if k == i then j else if k == j then i else k }

  lemma SwappedAt(a: seq<Member>, i: nat, j: nat, k: nat)
    requires i < |a| && j < |a| && k < |a|
    ensures Swapped(a, i, j)[Place(k, i, j)] == a[k] && Swapped(a, i, j)[k] == a[Place(k, i, j)]
  {
  }

  lemma SwapKeepsKeys(a: seq<Member>, i: nat, j: nat)
    requires i < |a| && j < |a| && DistinctKeys(a)
    ensures SameKeys(a, Swapped(a, i, j)) && DistinctKeys(Swapped(a, i, j))
  {
    var b := Swapped(a, i, j);
    forall k | 0 <= k < |a| ensures HasKey(b, a[k].key) {
      SwappedAt(a, i, j, k);
    }
    forall k | 0 <= k < |a| ensures HasKey(a, b[k].key) {
      SwappedAt(a, i, j, k);
    }
    forall k, l | 0 <= k < l < |b| ensures b[k].key != b[l].key {
      SwappedAt(a, i, j, k);
      SwappedAt(a, i, j, l);
      assert Place(k, i, j) != Place(l, i, j);
    }
  }

  lemma {:induction false} SwapIsEqual(v: Json, i: nat, j: nat)
    requires v.Obj? && Valid(v) && i < j < |v.members|
    ensures Valid(Obj(Swapped(v.members, i, j))) && Equal(v, Obj(Swapped(v.members, i, j)))
  {
    var a, b := v.members, Swapped(v.members, i, j);
    SwapKeepsKeys(a, i, j);
    forall l | 0 <= l < |b| ensures Valid(b[l].value) {
      SwappedAt(a, i, j, l);
    }
    forall k, l | 0 <= k < |a| && 0 <= l < |b| && a[k].key == b[l].key ensures Equal(a[k].value, b[l].value) {
      SwappedAt(a, i, j, l);
      assert k == Place(l, i, j);
      EqualToItself(a[k].value);
    }
  }

  /** A payload with tied keys in a printed object can be reordered so that it prints differently. */
  lemma {:induction false} ReorderingExists(v: Json, depth: nat, le: Order) returns (w: Json)
    requires Valid(v) && !Separated(v, depth, le)
    ensures Reordered(v, w, depth, le)
    decreases v
  {
    if v.Arr? {
      var i :| 0 <= i < |v.items| && !Separated(v.items[i], depth + 1, le);
      var x := ReorderingExists(v.items[i], depth + 1, le);
      w := Arr(v.items[i := x]);
      ItemReordered(v, i, x, depth, le);
    } else if !TellsApart(v.members, le) {
      var i, j :| 0 <= i < j < |v.members| && le(v.members[i].key, v.members[j].key) && le(v.members[j].key, v.members[i].key);
      w := Obj(Swapped(v.members, i, j));
      SwapShows(v, i, j, depth, le);
    } else {
      var i :| 0 <= i < |v.members| && !Separated(v.members[i].value, depth + 1, le);
      var x := ReorderingExists(v.members[i].value, depth + 1, le);
      w := Obj(v.members[i := Member(v.members[i].key, x)]);
      MemberReordered(v, i, x, depth, le);
    }
  }

  lemma {:induction false} ItemReordered(v: Json, i: nat, x: Json, depth: nat, le: Order)
    requires v.Arr? && i < |v.items| && depth <= MAX_DEPTH && Valid(v) && Reordered(v.items[i], x, depth + 1, le)
    ensures Reordered(v, Arr(v.items[i := x]), depth, le)
  {
    var w := Arr(v.items[i := x]);
    forall k | 0 <= k < |v.items| && k != i ensures Equal(v.items[k], w.items[k]) {
      EqualToItself(v.items[k]);
    }
    assert Canon(v, depth, le).items[i] != Canon(w, depth, le).items[i];
  }

  lemma {:induction false} MemberReordered(v: Json, i: nat, x: Json, depth: nat, le: Order)
    requires v.Obj? && i < |v.members| && depth <= MAX_DEPTH && Valid(v) && Reordered(v.members[i].value, x, depth + 1, le)
    ensures Reordered(v, Obj(v.members[i := Member(v.members[i].key, x)]), depth, le)
  {
    MemberEqual(v, i, x);
    MemberShows(v.members, i, x, depth, le);
  }

  lemma {:induction false} MemberEqual(v: Json, i: nat, x: Json)
    requires v.Obj? && i < |v.members| && Valid(v) && Valid(x) && Equal(v.members[i].value, x)
    ensures var w := Obj(v.members[i := Member(v.members[i].key, x)]); Valid(w) && Equal(v, w)
  {
    var b := v.members[i := Member(v.members[i].key, x)];
    KeysKept(v.members, i, x);
    ParallelSameKeys(v.members, b);
    forall k, l | 0 <= k < |b| && 0 <= l < |b| && v.members[k].key == b[l].key ensures Equal(v.members[k].value, b[l].value) {
      assert k == l;
      if k != i {
        EqualToItself(v.members[k].value);
      }
    }
  }

  lemma {:induction false} MemberShows(a: seq<Member>, i: nat, x: Json, depth: nat, le: Order)
    requires i < |a| && depth <= MAX_DEPTH && DistinctKeys(a) && Canon(a[i].value, depth + 1, le) != Canon(x, depth + 1, le)
    ensures Canon(Obj(a), depth, le) != Canon(Obj(a[i := Member(a[i].key, x)]), depth, le)
  {
    if Canon(Obj(a), depth, le) == Canon(Obj(a[i := Member(a[i].key, x)]), depth, le) {
      SameCanonSameValue(a, i, x, depth, le);
    }
  }

  lemma {:induction false} SameCanonSameValue(a: seq<Member>, i: nat, x: Json, depth: nat, le: Order)
    requires i < |a| && depth <= MAX_DEPTH && DistinctKeys(a)
    requires Canon(Obj(a), depth, le) == Canon(Obj(a[i := Member(a[i].key, x)]), depth, le)
    ensures Canon(a[i].value, depth + 1, le) == Canon(x, depth + 1, le)
  {
    var b := a[i := Member(a[i].key, x)];
    var j := Partner(a, b, depth, i, le);
    assert b[j].key == a[j].key;
    assert j == i;
  }

  /** Equal payloads have the same keys, so what tells those of one apart tells those of the other. */
  lemma {:induction false} EqualIsSeparated(v: Json, w: Json, depth: nat, le: Order)
    requires Valid(w) && Equal(v, w) && Separated(v, depth, le)
    ensures Separated(w, depth, le)
    decreases v
  {
    if depth <= MAX_DEPTH {
      if w.Arr? {
        forall i | 0 <= i < |w.items| ensures Separated(w.items[i], depth + 1, le) {
          EqualIsSeparated(v.items[i], w.items[i], depth + 1, le);
        }
      } else if w.Obj? {
        forall i | 0 <= i < |w.members| ensures Separated(w.members[i].value, depth + 1, le) {
          assert HasKey(v.members, w.members[i].key);
          var k :| 0 <= k < |v.members| && v.members[k].key == w.members[i].key;
          EqualIsSeparated(v.members[k].value, w.members[i].value, depth + 1, le);
        }
        forall i, j | 0 <= i < j < |w.members|
          ensures !le(w.members[i].key, w.members[j].key) || !le(w.members[j].key, w.members[i].key)
        {
          assert HasKey(v.members, w.members[i].key) && HasKey(v.members, w.members[j].key);
          var k :| 0 <= k < |v.members| && v.members[k].key == w.members[i].key;
          var l :| 0 <= l < |v.members| && v.members[l].key == w.members[j].key;
          assert k != l;
        }
      }
    }
  }

  /** A reordering of v that has another text. */
  ghost predicate Shows(v: Json, w: Json, le: Order)
  {
    Valid(w) && Equal(v, w) && StableStringify(w, 0, le) != StableStringify(v, 0, le)
  }

  lemma TiedShows(v: Json, le: Order) returns (w: Json)
    requires Valid(v) && !Separated(v, 0, le)
    ensures Shows(v, w, le)
  {
    w := ReorderingExists(v, 0, le);
    PrintsAlikeIffCanon(v, w, le);
  }

  lemma SeparatedShowsNot(v: Json, w: Json, le: Order)
    requires Valid(v) && IsOrder(le) && Separated(v, 0, le)
    ensures !Shows(v, w, le)
  {
    if Valid(w) && Equal(v, w) {
      EqualIsSeparated(v, w, 0, le);
      EqualIsSame(v, w, 0);
      PrintsAlikeIffSame(v, w, le);
    }
  }

  /**
   * Some reordering of a payload prints differently exactly when a
   * printed object of it has two keys that the order ties.
   */
  lemma ReorderingShowsIffTied(v: Json, le: Order)
    requires Valid(v) && IsOrder(le)
    ensures (exists w :: Shows(v, w, le)) <==> !Separated(v, 0, le)
  {
    if Separated(v, 0, le) {
      forall w ensures !Shows(v, w, le) {
        SeparatedShowsNot(v, w, le);
      }
    } else {
      var w := TiedShows(v, le);
    }
  }

  // ---- an example of each -----------------------------------------------------------------

  function Nested(v: Json, n: nat): Json { if n == 0 then v else Arr([Nested(v, n - 1)]) }

  ghost predicate CanonAlike(v: Json, w: Json, depth: nat, le: Order) { Canon(v, depth, le) == Canon(w, depth, le) }

  lemma {:induction false} ArrCanon(a: Json, b: Json, depth: nat, le: Order)
    ensures CanonAlike(Arr([a]), Arr([b]), depth, le) <==> depth > MAX_DEPTH || CanonAlike(a, b, depth + 1, le)
  {
    if depth <= MAX_DEPTH {
      assert Canon(Arr([a]), depth, le).items == [Canon(a, depth + 1, le)];
      assert Canon(Arr([b]), depth, le).items == [Canon(b, depth + 1, le)];
    }
  }

  lemma {:induction false} NestedCanon(v: Json, w: Json, n: nat, depth: nat, le: Order)
    requires forall d: nat :: CanonAlike(v, w, d, le) <==> d > MAX_DEPTH
    ensures CanonAlike(Nested(v, n), Nested(w, n), depth, le) <==> depth + n > MAX_DEPTH
    decreases n
  {
    if n == 0 {
    } else {
      NestedCanon(v, w, n - 1, depth + 1, le);
      ArrCanon(Nested(v, n - 1), Nested(w, n - 1), depth, le);
    }
  }

  lemma {:induction false} NestedOk(v: Json, n: nat)
    requires Valid(v)
    ensures Valid(Nested(v, n))
  {
    if n == 0 {
    } else {
      NestedOk(v, n - 1);
    }
  }

  /** null and true inside n arrays have the same text exactly when they lie too deep. */
  lemma DeepNodesCollide(n: nat, le: Order)
    ensures StableStringify(Nested(Null, n), 0, le) == StableStringify(Nested(Bool(true), n), 0, le) <==> n > 10
  {
    NestedOk(Null, n);
    NestedOk(Bool(true), n);
    PrintsAlikeIffCanon(Nested(Null, n), Nested(Bool(true), n), le);
    NestedCanon(Null, Bool(true), n, 0, le);
  }

  function Pair(a: string, b: string): Json { Obj([Member(a, Null), Member(b, Null)]) }

  lemma PairOk(a: string, b: string, le: Order)
    requires a != b
    ensures Valid(Pair(a, b)) && Pair(b, a) == Obj(Swapped(Pair(a, b).members, 0, 1))
    ensures Separated(Pair(a, b), 0, le) <==> !(le(a, b) && le(b, a))
  {
    var m := Pair(a, b).members;
    assert m[0].key == a && m[1].key == b;
  }

  /** An object of two keys and its reordering print alike exactly when the order does not tie the keys. */
  lemma TiedKeysKeepOrder(a: string, b: string, le: Order)
    requires IsOrder(le) && a != b
    ensures Equal(Pair(a, b), Pair(b, a))
    ensures StableStringify(Pair(a, b), 0, le) == StableStringify(Pair(b, a), 0, le) <==> !(le(a, b) && le(b, a))
  {
    var v, w := Pair(a, b), Pair(b, a);
    PairOk(a, b, le);
    SwapIsEqual(v, 0, 1);
    if le(a, b) && le(b, a) {
      SwapShows(v, 0, 1, 0, le);
      PrintsAlikeIffCanon(v, w, le);
    } else {
      SeparatedShowsNot(v, w, le);
    }
  }
}
