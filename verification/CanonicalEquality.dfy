/** When two payloads have the same canonical text. */
module CanonicalEquality {
  import opened Prelude
  import opened CanonicalJson

  ghost predicate DistinctKeys(members: seq<Member>)
  {
    forall i, j :: 0 <= i < j < |members| ==> members[i].key != members[j].key
  }

  /** A JSON tree: numbers spelled as numbers, no key twice in one object. */
  ghost predicate Valid(v: Json)
  {
    match v
    case Num(text) => IsNumberText(text)
    case Arr(items) => forall i :: 0 <= i < |items| ==> Valid(items[i])
    case Obj(members) => DistinctKeys(members) && forall i :: 0 <= i < |members| ==> Valid(members[i].value)
    case _ => true
  }

  /** The order tells the different keys of one object apart. */
  ghost predicate TellsApart(members: seq<Member>, le: Order)
  {
    forall i, j :: 0 <= i < j < |members| ==> !le(members[i].key, members[j].key) || !le(members[j].key, members[i].key)
  }

  /** It does so in every object that is printed. */
  ghost predicate Separated(v: Json, depth: nat, le: Order)
    decreases v
  {
    depth <= 10 ==>
      match v
      case Arr(items) => forall i :: 0 <= i < |items| ==> Separated(items[i], depth + 1, le)
      case Obj(members) =>
        TellsApart(members, le) && forall i :: 0 <= i < |members| ==> Separated(members[i].value, depth + 1, le)
      case _ => true
  }

  predicate HasKey(members: seq<Member>, key: string) { exists i :: 0 <= i < |members| && members[i].key == key }

  ghost predicate SameKeys(a: seq<Member>, b: seq<Member>)
  {
    (forall i :: 0 <= i < |a| ==> HasKey(b, a[i].key)) && (forall j :: 0 <= j < |b| ==> HasKey(a, b[j].key))
  }

  /** Equal up to the order of keys, scalars as JSON has them. */
  ghost predicate Equal(v: Json, w: Json)
  {
    match (v, w)
    case (Arr(a), Arr(b)) => |a| == |b| && forall i :: 0 <= i < |a| ==> Equal(a[i], b[i])
    case (Obj(a), Obj(b)) =>
      SameKeys(a, b) && forall i, j :: 0 <= i < |a| && 0 <= j < |b| && a[i].key == b[j].key ==> Equal(a[i].value, b[j].value)
    case _ => Scalar(v) == Scalar(w)
  }

  /** Equal up to the order of keys and to what lies deeper than the printer goes. */
  ghost predicate Same(v: Json, w: Json, depth: nat)
    decreases v
  {
    depth <= 10 ==>
      match (v, w)
      case (Arr(a), Arr(b)) => |a| == |b| && forall i :: 0 <= i < |a| ==> Same(a[i], b[i], depth + 1)
      case (Obj(a), Obj(b)) =>
        SameKeys(a, b) && forall i, j :: 0 <= i < |a| && 0 <= j < |b| && a[i].key == b[j].key ==> Same(a[i].value, b[j].value, depth + 1)
      case _ => Scalar(v) == Scalar(w)
  }

  // ---- sorting --------------------------------------------------------------------

  ghost predicate Ascending(members: seq<Member>, le: Order)
  {
    forall i, j :: 0 <= i < j < |members| ==> le(members[i].key, members[j].key)
  }

  lemma {:induction false} InsertAscending(sorted: seq<Member>, m: Member, le: Order)
    requires IsOrder(le) && Ascending(sorted, le)
    ensures Ascending(Insert(sorted, m, le), le)
  {
    if sorted != [] && !le(sorted[|sorted| - 1].key, m.key) {
      var before := sorted[..|sorted| - 1];
      InsertAscending(before, m, le);
      var r := Insert(before, m, le);
      forall i | 0 <= i < |r| ensures le(r[i].key, sorted[|sorted| - 1].key) {
        assert r[i] in before || r[i] == m;
      }
    }
  }

  lemma {:induction false} SortAscending(members: seq<Member>, le: Order)
    requires IsOrder(le)
    ensures Ascending(Sort(members, le), le)
  {
    if members == [] {
    } else {
      SortAscending(members[..|members| - 1], le);
      InsertAscending(Sort(members[..|members| - 1], le), members[|members| - 1], le);
    }
  }

  lemma {:induction false} InsertDistinct(sorted: seq<Member>, m: Member, le: Order)
    requires DistinctKeys(sorted) && !HasKey(sorted, m.key)
    ensures DistinctKeys(Insert(sorted, m, le))
  {
    if sorted != [] && !le(sorted[|sorted| - 1].key, m.key) {
      var before, last := sorted[..|sorted| - 1], sorted[|sorted| - 1];
      assert HasKey(before, m.key) ==> HasKey(sorted, m.key);
      InsertDistinct(before, m, le);
      var r := Insert(before, m, le);
      forall i | 0 <= i < |r| ensures r[i].key != last.key {
        assert r[i] in before || r[i] == m;
      }
    }
  }

  lemma {:induction false} SortDistinct(members: seq<Member>, le: Order)
    requires DistinctKeys(members)
    ensures DistinctKeys(Sort(members, le))
  {
    if members == [] {
    } else {
      var before, m := members[..|members| - 1], members[|members| - 1];
      SortDistinct(before, le);
      var sorted := Sort(before, le);
      forall i | 0 <= i < |sorted| ensures sorted[i].key != m.key {
        assert sorted[i] in before;
      }
      InsertDistinct(sorted, m, le);
    }
  }

  function Keys(members: seq<Member>): seq<string>
  {
    seq(|members|, i requires 0 <= i < |members| => members[i].key)
  }

  ghost predicate Strict(keys: seq<string>, le: Order)
  {
    forall i, j :: 0 <= i < j < |keys| ==> le(keys[i], keys[j]) && !le(keys[j], keys[i])
  }

  /** A set of keys has one strictly ascending arrangement. */
  lemma {:induction false} OneArrangement(a: seq<string>, b: seq<string>, le: Order)
    requires IsOrder(le) && Strict(a, le) && Strict(b, le) && forall k :: k in a <==> k in b
    ensures a == b
  {
    assert (a != [] ==> a[0] in b) && (b != [] ==> b[0] in a);
    if a != [] && b != [] {
      var x, y := a[|a| - 1], b[|b| - 1];
      assert x in b && y in a;
      assert x == y;
      var a', b' := a[..|a| - 1], b[..|b| - 1];
      assert a == a' + [x] && b == b' + [x];
      assert x !in a' && x !in b';
      forall k ensures k in a' <==> k in b' {
        assert k in a <==> k in b;
      }
      OneArrangement(a', b', le);
    }
  }

  lemma SortStrict(members: seq<Member>, le: Order)
    requires IsOrder(le) && DistinctKeys(members) && TellsApart(members, le)
    ensures Strict(Keys(Sort(members, le)), le)
  {
    SortAscending(members, le);
    SortDistinct(members, le);
    var sorted := Sort(members, le);
    forall i, j | 0 <= i < j < |sorted| ensures le(sorted[i].key, sorted[j].key) && !le(sorted[j].key, sorted[i].key) {
      assert sorted[i] in members && sorted[j] in members;
      var k :| 0 <= k < |members| && members[k] == sorted[i];
      var l :| 0 <= l < |members| && members[l] == sorted[j];
      assert k != l;
    }
  }

  lemma SameKeysSortAlike(a: seq<Member>, b: seq<Member>, le: Order)
    requires IsOrder(le) && DistinctKeys(a) && DistinctKeys(b) && TellsApart(a, le) && TellsApart(b, le) && SameKeys(a, b)
    ensures Keys(Sort(a, le)) == Keys(Sort(b, le))
  {
    SortStrict(a, le);
    SortStrict(b, le);
    forall k ensures k in Keys(Sort(a, le)) <==> k in Keys(Sort(b, le)) {
      KeysOfSort(a, k, le);
      KeysOfSort(b, k, le);
    }
    OneArrangement(Keys(Sort(a, le)), Keys(Sort(b, le)), le);
  }

  lemma KeysOfSort(members: seq<Member>, key: string, le: Order)
    ensures key in Keys(Sort(members, le)) <==> HasKey(members, key)
  {
    var sorted := Sort(members, le);
    if key in Keys(sorted) {
      var i :| 0 <= i < |sorted| && Keys(sorted)[i] == key;
      assert sorted[i] in members;
    }
    if HasKey(members, key) {
      var i :| 0 <= i < |members| && members[i].key == key;
      assert members[i] in sorted;
      var j :| 0 <= j < |sorted| && sorted[j] == members[i];
      assert Keys(sorted)[j] == key;
    }
  }

  // ---- canonical values ---------------------------------------------------------------

  /** Equal canonical values come from equal payloads, whatever the order of keys is. */
  lemma {:induction false} CanonIsFaithful(v: Json, w: Json, depth: nat, le: Order)
    requires Valid(v) && Valid(w) && Canon(v, depth, le) == Canon(w, depth, le)
    ensures Same(v, w, depth)
    decreases v, 1
  {
    if depth > MAX_DEPTH {
    } else if v.Arr? && w.Arr? {
      ItemsAreFaithful(v, w, depth, le);
    } else if v.Obj? && w.Obj? {
      ObjectsAreFaithful(v, w, depth, le);
    }
  }

  lemma {:induction false} ItemsAreFaithful(v: Json, w: Json, depth: nat, le: Order)
    requires Valid(v) && Valid(w) && Canon(v, depth, le) == Canon(w, depth, le) && v.Arr? && w.Arr? && depth <= MAX_DEPTH
    ensures Same(v, w, depth)
    decreases v, 0
  {
    var a, b := Canon(v, depth, le).items, Canon(w, depth, le).items;
    assert |v.items| == |a| == |b| == |w.items|;
    forall i | 0 <= i < |v.items| ensures Same(v.items[i], w.items[i], depth + 1) {
      assert a[i] == b[i];
      CanonIsFaithful(v.items[i], w.items[i], depth + 1, le);
    }
  }

  lemma {:induction false} ObjectsAreFaithful(v: Json, w: Json, depth: nat, le: Order)
    requires Valid(v) && Valid(w) && Canon(v, depth, le) == Canon(w, depth, le) && v.Obj? && w.Obj? && depth <= MAX_DEPTH
    ensures Same(v, w, depth)
    decreases v, 0
  {
    MembersAreFaithful(v.members, w.members, depth, le);
    MembersAreFaithful(w.members, v.members, depth, le);
    forall i, j | 0 <= i < |v.members| && 0 <= j < |w.members| && v.members[i].key == w.members[j].key
      ensures Same(v.members[i].value, w.members[j].value, depth + 1)
    {
      var k := Partner(v.members, w.members, depth, i, le);
      CanonIsFaithful(v.members[i].value, w.members[j].value, depth + 1, le);
    }
  }

  /** Objects with the same canonical value: each member has a partner with its key. */
  lemma Partner(a: seq<Member>, b: seq<Member>, depth: nat, i: nat, le: Order) returns (j: nat)
    requires depth <= MAX_DEPTH && Canon(Obj(a), depth, le) == Canon(Obj(b), depth, le) && i < |a|
    ensures j < |b| && b[j].key == a[i].key && Canon(b[j].value, depth + 1, le) == Canon(a[i].value, depth + 1, le)
  {
    var sa, sb := Sort(a, le), Sort(b, le);
    assert a[i] in sa;
    var k :| 0 <= k < |sa| && sa[k] == a[i];
    assert Canon(Obj(a), depth, le).members[k] == Canon(Obj(b), depth, le).members[k];
    assert sb[k] in b;
    j :| 0 <= j < |b| && b[j] == sb[k];
  }

  lemma MembersAreFaithful(a: seq<Member>, b: seq<Member>, depth: nat, le: Order)
    requires depth <= MAX_DEPTH && Canon(Obj(a), depth, le) == Canon(Obj(b), depth, le)
    ensures forall i :: 0 <= i < |a| ==> HasKey(b, a[i].key)
  {
    forall i | 0 <= i < |a| ensures HasKey(b, a[i].key) {
      var j := Partner(a, b, depth, i, le);
    }
  }

  /** Equal payloads have equal canonical values, if the order tells their keys apart. */
  lemma {:induction false} CanonForgetsOrder(v: Json, w: Json, depth: nat, le: Order)
    requires Valid(v) && Valid(w) && IsOrder(le) && Separated(v, depth, le) && Separated(w, depth, le) && Same(v, w, depth)
    ensures Canon(v, depth, le) == Canon(w, depth, le)
    decreases v, 2
  {
    if depth <= MAX_DEPTH {
      if v.Arr? && w.Arr? {
        forall i | 0 <= i < |v.items| ensures Canon(v.items[i], depth + 1, le) == Canon(w.items[i], depth + 1, le) {
          CanonForgetsOrder(v.items[i], w.items[i], depth + 1, le);
        }
        assert Canon(v, depth, le).items == Canon(w, depth, le).items;
      } else if v.Obj? && w.Obj? {
        MembersForgetOrder(v, w, depth, le);
      }
    }
  }

  lemma {:induction false} MembersForgetOrder(v: Json, w: Json, depth: nat, le: Order)
    requires Valid(v) && Valid(w) && IsOrder(le) && Separated(v, depth, le) && Separated(w, depth, le) && Same(v, w, depth)
    requires v.Obj? && w.Obj? && depth <= MAX_DEPTH
    ensures Canon(v, depth, le) == Canon(w, depth, le)
    decreases v, 1
  {
    var a, b := Sort(v.members, le), Sort(w.members, le);
    SameKeysSortAlike(v.members, w.members, le);
    assert |a| == |Keys(a)| == |Keys(b)| == |b|;
    forall i | 0 <= i < |a| ensures a[i].key == b[i].key && Canon(a[i].value, depth + 1, le) == Canon(b[i].value, depth + 1, le) {
      assert Keys(a)[i] == Keys(b)[i];
      assert a[i] in v.members && b[i] in w.members;
      var k :| 0 <= k < |v.members| && v.members[k] == a[i];
      var l :| 0 <= l < |w.members| && w.members[l] == b[i];
      MemberForgetsOrder(v, w, k, l, depth, le);
    }
    assert Canon(v, depth, le).members == Canon(w, depth, le).members;
  }

  lemma {:induction false} MemberForgetsOrder(v: Json, w: Json, k: nat, l: nat, depth: nat, le: Order)
    requires Valid(v) && Valid(w) && IsOrder(le) && Separated(v, depth, le) && Separated(w, depth, le) && Same(v, w, depth)
    requires v.Obj? && w.Obj? && depth <= MAX_DEPTH && k < |v.members| && l < |w.members| && v.members[k].key == w.members[l].key
    ensures Canon(v.members[k].value, depth + 1, le) == Canon(w.members[l].value, depth + 1, le)
    decreases v, 0
  {
    SameMembers(v, w, k, l, depth, le);
    var x, y := v.members[k].value, w.members[l].value;
    CanonForgetsOrder(x, y, depth + 1, le);
  }

  lemma {:induction false} SameMembers(v: Json, w: Json, k: nat, l: nat, depth: nat, le: Order)
    requires Valid(v) && Valid(w) && Separated(v, depth, le) && Separated(w, depth, le) && Same(v, w, depth)
    requires v.Obj? && w.Obj? && depth <= MAX_DEPTH && k < |v.members| && l < |w.members| && v.members[k].key == w.members[l].key
    ensures var x, y := v.members[k].value, w.members[l].value;
      && Valid(x) && Valid(y) && Same(x, y, depth + 1) && Separated(x, depth + 1, le) && Separated(y, depth + 1, le)
  {
  }

  // ---- the printer -----------------------------------------------------------------------

  lemma {:induction false} CanonIsJson(v: Json, depth: nat, le: Order)
    requires Valid(v)
    ensures IsJson(Canon(v, depth, le))
    decreases v
  {
    if depth <= MAX_DEPTH {
      if v.Arr? {
        forall i | 0 <= i < |v.items| ensures IsJson(Canon(v.items[i], depth + 1, le)) {
          CanonIsJson(v.items[i], depth + 1, le);
        }
      } else if v.Obj? {
        var sorted := Sort(v.members, le);
        forall i | 0 <= i < |sorted| ensures IsJson(Canon(sorted[i].value, depth + 1, le)) {
          assert sorted[i] in v.members;
          CanonIsJson(sorted[i].value, depth + 1, le);
        }
      }
    }
  }

  /** Parsing what was printed gives the canonical value. */
  lemma ParsePrinted(v: Json, le: Order)
    requires Valid(v)
    ensures ParseValue(StableStringify(v, 0, le)) == Some((Canon(v, 0, le), ""))
  {
    CanonIsJson(v, 0, le);
    PrintsCanon(v, 0, le);
    ParseText(Canon(v, 0, le), "");
    assert Text(Canon(v, 0, le)) + "" == Text(Canon(v, 0, le));
  }

  /** Two payloads print alike exactly when their canonical values are the same. */
  lemma PrintsAlikeIffCanon(v: Json, w: Json, le: Order)
    requires Valid(v) && Valid(w)
    ensures StableStringify(v, 0, le) == StableStringify(w, 0, le) <==> Canon(v, 0, le) == Canon(w, 0, le)
  {
    ParsePrinted(v, le);
    ParsePrinted(w, le);
    PrintsCanon(v, 0, le);
    PrintsCanon(w, 0, le);
  }

  /**
   * Payloads that print alike are equal up to key order and to
   * what lies too deep: for any order of keys at all.
   */
  lemma PrintedAlikeIsSame(v: Json, w: Json, le: Order)
    requires Valid(v) && Valid(w) && StableStringify(v, 0, le) == StableStringify(w, 0, le)
    ensures Same(v, w, 0)
  {
    PrintsAlikeIffCanon(v, w, le);
    CanonIsFaithful(v, w, 0, le);
  }

  /** The converse too, if the order tells the keys of one object apart. */
  lemma PrintsAlikeIffSame(v: Json, w: Json, le: Order)
    requires Valid(v) && Valid(w) && IsOrder(le) && Separated(v, 0, le) && Separated(w, 0, le)
    ensures StableStringify(v, 0, le) == StableStringify(w, 0, le) <==> Same(v, w, 0)
  {
    PrintsAlikeIffCanon(v, w, le);
    if Same(v, w, 0) {
      CanonForgetsOrder(v, w, 0, le);
    } else if Canon(v, 0, le) == Canon(w, 0, le) {
      CanonIsFaithful(v, w, 0, le);
    }
  }

  /** All nodes lie at this depth or less. */
  ghost predicate Within(v: Json, levels: int)
    decreases v
  {
    levels >= 0 &&
    match v
    case Arr(items) => forall i :: 0 <= i < |items| ==> Within(items[i], levels - 1)
    case Obj(members) => forall i :: 0 <= i < |members| ==> Within(members[i].value, levels - 1)
    case _ => true
  }

  lemma {:induction false} EqualIsSame(v: Json, w: Json, depth: nat)
    requires Equal(v, w)
    ensures Same(v, w, depth)
    decreases v
  {
    if v.Arr? && w.Arr? {
      forall i | 0 <= i < |v.items| ensures Same(v.items[i], w.items[i], depth + 1) {
        EqualIsSame(v.items[i], w.items[i], depth + 1);
      }
    } else if v.Obj? && w.Obj? {
      forall i, j | 0 <= i < |v.members| && 0 <= j < |w.members| && v.members[i].key == w.members[j].key
        ensures Same(v.members[i].value, w.members[j].value, depth + 1)
      {
        EqualIsSame(v.members[i].value, w.members[j].value, depth + 1);
      }
    }
  }

  /** Nothing of a shallow payload is left out of the comparison. */
  lemma {:induction false} ShallowSameIsEqual(v: Json, w: Json, depth: nat)
    requires Within(v, MAX_DEPTH - depth) && Same(v, w, depth)
    ensures Equal(v, w)
    decreases v
  {
    if v.Arr? && w.Arr? {
      forall i | 0 <= i < |v.items| ensures Equal(v.items[i], w.items[i]) {
        ShallowSameIsEqual(v.items[i], w.items[i], depth + 1);
      }
    } else if v.Obj? && w.Obj? {
      forall i, j | 0 <= i < |v.members| && 0 <= j < |w.members| && v.members[i].key == w.members[j].key
        ensures Equal(v.members[i].value, w.members[j].value)
      {
        ShallowSameIsEqual(v.members[i].value, w.members[j].value, depth + 1);
      }
    }
  }

  /** A payload without deep nodes prints like another exactly when they are equal up to the order of keys. */
  lemma PrintsAlikeIffEqual(v: Json, w: Json, le: Order)
    requires Valid(v) && Valid(w) && IsOrder(le) && Separated(v, 0, le) && Separated(w, 0, le) && Within(v, 10)
    ensures StableStringify(v, 0, le) == StableStringify(w, 0, le) <==> Equal(v, w)
  {
    PrintsAlikeIffSame(v, w, le);
    if Same(v, w, 0) {
      ShallowSameIsEqual(v, w, 0);
    } else if Equal(v, w) {
      EqualIsSame(v, w, 0);
    }
  }
}
