/**
 * Validation of a request body before its signature is computed: a traversal
 * with an explicit stack and budgets for depth and nodes.
 */
module BodyValidator {

  /**
   * A value handed in as a body; Other is anything JSON has no form
   * for: functions, dates, buffers, undefined inside a value.
   */
  datatype Value =
    | Undefined
    | Null
    | Str(s: string)
    | Bool(b: bool)
    | Number(finite: bool)
    | Other
    | Array(items: seq<Value>)
    | Object(entries: seq<Entry>)

  datatype Entry = Entry(key: string, value: Value)

  datatype Step = Index(i: nat) | Key(k: string)

  /** Where a value stands, from the body down. */
  type Path = seq<Step>

  datatype Reason = TooLarge | NonFinite | NotJson | TooDeep | ForbiddenKey

  datatype Verdict = Accepted | Rejected(reason: Reason, at: Path)

  const MAX_DEPTH: nat := 20
  const MAX_NODES: nat := 10000
  const FORBIDDEN_KEYS: set<string> := {"__proto__", "constructor", "prototype"}

  // ---- what is accepted -----------------------------------------------------------------

  /** JSON-safe, no forbidden key, no container at depth 20. */
  predicate Good(v: Value, depth: nat)
  {
    match v
    case Undefined => false
    case Other => false
    case Number(finite) => finite
    case Array(items) => depth < 20 && forall i :: 0 <= i < |items| ==> Good(items[i], depth + 1)
    case Object(entries) =>
      depth < 20 && forall i :: 0 <= i < |entries| ==> !Forbidden(entries[i].key) && Good(entries[i].value, depth + 1)
    case _ => true
  }

  predicate Forbidden(key: string) { key == "__proto__" || key == "constructor" || key == "prototype" }

  function ChildCount(v: Value): nat
  {
    match v
    case Array(items) => |items|
    case Object(entries) => |entries|
    case _ => 0
  }

  function Child(v: Value, i: nat): Value
    requires i < ChildCount(v)
  {
    if v.Array? then v.items[i] else v.entries[i].value
  }

  function StepTo(v: Value, i: nat): Step
    requires i < ChildCount(v)
  {
    if v.Array? then Index(i) else Key(v.entries[i].key)
  }

  function Nodes(v: Value): nat
    decreases v, ChildCount(v) + 1
  {
    1 + NodesBelow(v, ChildCount(v))
  }

  /** The nodes of the first n children. */
  function NodesBelow(v: Value, n: nat): nat
    requires n <= ChildCount(v)
    decreases v, n
  {
    if n == 0 then 0
    else NodesBelow(v, n - 1) + if v.Array? then Nodes(v.items[n - 1]) else Nodes(v.entries[n - 1].value)
  }

  // ---- the order in which it is checked -----------------------------------------------------

  /** Done with so many nodes counted, or stopped. */
  datatype Outcome = Done(nodes: nat) | Stopped(reason: Reason, at: Path)

  /** The first forbidden key, if any. */
  function FirstForbidden(entries: seq<Entry>): (n: nat)
    ensures n <= |entries|
    ensures n < |entries| ==> entries[n].key in FORBIDDEN_KEYS
    ensures forall i :: 0 <= i < n ==> entries[i].key !in FORBIDDEN_KEYS
  {
    if entries == [] || entries[0].key in FORBIDDEN_KEYS then 0 else 1 + FirstForbidden(entries[1..])
  }

  /** A value, then its children from the last to the first. */
  function Check(v: Value, depth: nat, at: Path, nodes: nat): Outcome
    decreases v, ChildCount(v) + 1
  {
    if nodes + 1 > MAX_NODES then Stopped(TooLarge, [])
    else
      match v
      case Number(finite) => if finite then Done(nodes + 1) else Stopped(NonFinite, at)
      case Undefined => Stopped(NotJson, at)
      case Other => Stopped(NotJson, at)
      case Array(items) =>
        if depth >= MAX_DEPTH then Stopped(TooDeep, at) else CheckChildren(v, |items|, depth, at, nodes + 1)
      case Object(entries) =>
        if depth >= MAX_DEPTH then Stopped(TooDeep, at)
        else if FirstForbidden(entries) < |entries| then Stopped(ForbiddenKey, at + [Key(entries[FirstForbidden(entries)].key)])
        else CheckChildren(v, |entries|, depth, at, nodes + 1)
      case _ => Done(nodes + 1)
  }

  function CheckChildren(v: Value, n: nat, depth: nat, at: Path, nodes: nat): Outcome
    requires n <= ChildCount(v)
    decreases v, n
  {
    if n == 0 then Done(nodes)
    else
      var o := if v.Array? then Check(v.items[n - 1], depth + 1, at + [Index(n - 1)], nodes)
               else Check(v.entries[n - 1].value, depth + 1, at + [Key(v.entries[n - 1].key)], nodes);
      if o.Stopped? then o else CheckChildren(v, n - 1, depth, at, o.nodes)
  }

  /**
   * A check that goes through has counted every node; it goes
   * through exactly for good values within the budget.
   */
  lemma {:induction false} CheckDecides(v: Value, depth: nat, at: Path, nodes: nat)
    ensures var o := Check(v, depth, at, nodes);
      (o.Done? <==> Good(v, depth) && nodes + Nodes(v) <= 10000) && (o.Done? ==> o.nodes == nodes + Nodes(v))
    decreases v, ChildCount(v) + 1
  {
    if nodes < MAX_NODES && depth < MAX_DEPTH && (v.Array? || v.Object?) {
      ChildrenDecide(v, ChildCount(v), depth, at, nodes + 1);
      GoodByChildren(v, depth);
    }
  }

  lemma {:induction false} GoodByChildren(v: Value, depth: nat)
    requires (v.Array? || v.Object?) && depth < MAX_DEPTH
    ensures Good(v, depth) <==>
      GoodChildren(v, ChildCount(v), depth) && (v.Object? ==> FirstForbidden(v.entries) == |v.entries|)
  {
    if GoodChildren(v, ChildCount(v), depth) {
      forall i | 0 <= i < ChildCount(v) ensures Good(if v.Array? then v.items[i] else v.entries[i].value, depth + 1) {
        assert Good(Child(v, i), depth + 1);
      }
    }
    if Good(v, depth) {
      forall i | 0 <= i < ChildCount(v) ensures Good(Child(v, i), depth + 1) {
      }
    }
  }

  predicate GoodChildren(v: Value, n: nat, depth: nat)
    requires n <= ChildCount(v)
  {
    forall i :: 0 <= i < n ==> Good(Child(v, i), depth + 1)
  }

  lemma {:induction false} ChildrenDecide(v: Value, n: nat, depth: nat, at: Path, nodes: nat)
    requires n <= ChildCount(v) && nodes <= MAX_NODES
    ensures var o := CheckChildren(v, n, depth, at, nodes);
      && (o.Done? <==> GoodChildren(v, n, depth) && nodes + NodesBelow(v, n) <= MAX_NODES)
      && (o.Done? ==> o.nodes == nodes + NodesBelow(v, n))
    decreases v, n
  {
    if n == 0 {
    } else {
      var child, childAt := Child(v, n - 1), at + [StepTo(v, n - 1)];
      CheckDecides(child, depth + 1, childAt, nodes);
      var o := Check(child, depth + 1, childAt, nodes);
      if o.Done? {
        ChildrenDecide(v, n - 1, depth, at, o.nodes);
      }
    }
  }

  /** The node at the end of a path. */
  predicate Reaches(v: Value, path: Path, node: Value)
  {
    if path == [] then v == node
    else
      match path[0]
      case Index(i) => v.Array? && i < |v.items| && Reaches(v.items[i], path[1..], node)
      case Key(k) => v.Object? && exists j :: 0 <= j < |v.entries| && v.entries[j].key == k && Reaches(v.entries[j].value, path[1..], node)
  }

  /** A node that is at fault for this reason. */
  predicate AtFault(node: Value, depth: nat, reason: Reason)
  {
    match reason
    case TooLarge => false
    case NonFinite => node == Number(false)
    case NotJson => node.Undefined? || node.Other?
    case TooDeep => (node.Array? || node.Object?) && depth >= 20
    case ForbiddenKey => node.Object?
  }

  /** A node with this fault, and the place reported for it, behind `at`. */
  predicate Faulty(v: Value, depth: nat, at: Path, reason: Reason, reported: Path, path: Path, node: Value)
  {
    && Reaches(v, path, node) && AtFault(node, depth + |path|, reason)
    && if reason.ForbiddenKey? then ReportsKey(node, at + path, reported) else reported == at + path
  }

  predicate ReportsKey(node: Value, at: Path, reported: Path)
    requires node.Object?
  {
    exists j :: 0 <= j < |node.entries| && Forbidden(node.entries[j].key) && reported == at + [Key(node.entries[j].key)]
  }

  ghost predicate Justified(v: Value, depth: nat, at: Path, reason: Reason, reported: Path)
  {
    exists path: Path, node :: Faulty(v, depth, at, reason, reported, path, node)
  }

  /** A rejection tells the truth: the fault it names is at the place it names. */
  lemma {:induction false} RejectionIsJustified(v: Value, depth: nat, at: Path, nodes: nat)
    ensures var o := Check(v, depth, at, nodes);
      o.Stopped? ==>
        if o.reason.TooLarge? then nodes + Nodes(v) > 10000 else Justified(v, depth, at, o.reason, o.at)
    decreases v, ChildCount(v) + 1
  {
    var o := Check(v, depth, at, nodes);
    if o.Stopped? && !o.reason.TooLarge? {
      if (v.Array? || v.Object?) && depth < MAX_DEPTH && !(v.Object? && FirstForbidden(v.entries) < |v.entries|) {
        ChildRejection(v, ChildCount(v), depth, at, nodes + 1);
      } else {
        assert at + [] == at;
        assert Faulty(v, depth, at, o.reason, o.at, [], v);
      }
    }
    CheckDecides(v, depth, at, nodes);
    if o.Stopped? && o.reason.TooLarge? {
      TooLargeIsTrue(v, depth, at, nodes);
    }
  }

  lemma {:induction false} ChildRejection(v: Value, n: nat, depth: nat, at: Path, nodes: nat)
    requires n <= ChildCount(v)
    ensures var o := CheckChildren(v, n, depth, at, nodes);
      o.Stopped? && !o.reason.TooLarge? ==> Justified(v, depth, at, o.reason, o.at)
    decreases v, n
  {
    if n == 0 {
    } else {
      var o := Check(Child(v, n - 1), depth + 1, at + [StepTo(v, n - 1)], nodes);
      if o.Done? {
        ChildRejection(v, n - 1, depth, at, o.nodes);
      } else if !o.reason.TooLarge? {
        RejectionIsJustified(Child(v, n - 1), depth + 1, at + [StepTo(v, n - 1)], nodes);
        Below(v, n - 1, depth, at, o.reason, o.at);
      }
    }
  }

  /** What is justified for a child is justified for its parent. */
  lemma {:induction false} Below(v: Value, i: nat, depth: nat, at: Path, reason: Reason, reported: Path)
    requires i < ChildCount(v) && Justified(Child(v, i), depth + 1, at + [StepTo(v, i)], reason, reported)
    ensures Justified(v, depth, at, reason, reported)
  {
    var path: Path, node :| Faulty(Child(v, i), depth + 1, at + [StepTo(v, i)], reason, reported, path, node);
    var longer := [StepTo(v, i)] + path;
    ReachesFurther(v, i, path, node);
    assert at + longer == at + [StepTo(v, i)] + path;
    assert depth + |longer| == depth + 1 + |path|;
    assert Faulty(v, depth, at, reason, reported, longer, node);
  }

  lemma {:induction false} ReachesFurther(v: Value, i: nat, path: Path, node: Value)
    requires i < ChildCount(v) && Reaches(Child(v, i), path, node)
    ensures Reaches(v, [StepTo(v, i)] + path, node)
  {
    var longer := [StepTo(v, i)] + path;
    assert longer[0] == StepTo(v, i) && longer[1..] == path;
  }

  lemma {:induction false} TooLargeIsTrue(v: Value, depth: nat, at: Path, nodes: nat)
    ensures Check(v, depth, at, nodes).Stopped? && Check(v, depth, at, nodes).reason.TooLarge? ==> nodes + Nodes(v) > MAX_NODES
    decreases v, ChildCount(v) + 1
  {
    if nodes < MAX_NODES {
      TooLargeBelow(v, ChildCount(v), depth, at, nodes + 1);
    }
  }

  lemma {:induction false} TooLargeBelow(v: Value, n: nat, depth: nat, at: Path, nodes: nat)
    requires n <= ChildCount(v)
    ensures var o := CheckChildren(v, n, depth, at, nodes);
      o.Stopped? && o.reason.TooLarge? ==> nodes + NodesBelow(v, n) > MAX_NODES
    decreases v, n
  {
    if n == 0 {
    } else {
      var child, childAt := Child(v, n - 1), at + [StepTo(v, n - 1)];
      TooLargeIsTrue(child, depth + 1, childAt, nodes);
      CheckDecides(child, depth + 1, childAt, nodes);
      var o := Check(child, depth + 1, childAt, nodes);
      if o.Done? {
        TooLargeBelow(v, n - 1, depth, at, o.nodes);
      }
    }
  }

  /**
   * A container's own fault is reported before any below it:
   * its depth, or the first forbidden key of an object.
   */
  lemma {:induction false} OwnFaultFirst(v: Value, depth: nat, at: Path, nodes: nat)
    requires nodes < 10000 && (v.Array? || v.Object?)
    ensures depth >= 20 ==> Check(v, depth, at, nodes) == Stopped(TooDeep, at)
    ensures depth < 20 && v.Object? ==>
      forall k :: 0 <= k < |v.entries| && Forbidden(v.entries[k].key) && (forall j :: 0 <= j < k ==> !Forbidden(v.entries[j].key)) ==>
        Check(v, depth, at, nodes) == Stopped(ForbiddenKey, at + [Key(v.entries[k].key)])
  {
  }

  /**
   * Of several children at fault the last is reported: the verdict is that of a
   * rejected child if all behind it are good, with their nodes counted.
   */
  lemma {:induction false} LastFaultFirst(v: Value, i: nat, depth: nat, at: Path, nodes: nat, before: nat)
    requires depth < 20 && i < ChildCount(v) && (v.Object? ==> forall j :: 0 <= j < |v.entries| ==> !Forbidden(v.entries[j].key))
    requires forall j :: i < j < ChildCount(v) ==> Good(Child(v, j), depth + 1)
    requires before + NodesBelow(v, i + 1) == nodes + 1 + NodesBelow(v, ChildCount(v)) && before <= 10000
    ensures var o := Check(Child(v, i), depth + 1, at + [StepTo(v, i)], before);
      o.Stopped? ==> Check(v, depth, at, nodes) == o
  {
    NodesGrow(v, i + 1, ChildCount(v));
    LaterChildrenPass(v, i, ChildCount(v), depth, at, nodes + 1, before);
  }

  lemma {:induction false} NodesGrow(v: Value, m: nat, n: nat)
    requires m <= n <= ChildCount(v)
    ensures NodesBelow(v, m) <= NodesBelow(v, n)
    decreases n
  {
    if m < n {
      NodesGrow(v, m, n - 1);
    }
  }

  lemma {:induction false} LaterChildrenPass(v: Value, i: nat, n: nat, depth: nat, at: Path, nodes: nat, before: nat)
    requires i < n <= ChildCount(v) && forall j :: i < j < n ==> Good(Child(v, j), depth + 1)
    requires before + NodesBelow(v, i + 1) == nodes + NodesBelow(v, n) && before <= 10000
    ensures var o := Check(Child(v, i), depth + 1, at + [StepTo(v, i)], before);
      o.Stopped? ==> CheckChildren(v, n, depth, at, nodes) == o
    decreases n
  {
    if i + 1 < n {
      NodesGrow(v, i + 1, n - 1);
      CheckDecides(Child(v, n - 1), depth + 1, at + [StepTo(v, n - 1)], nodes);
      LaterChildrenPass(v, i, n - 1, depth, at, nodes + Nodes(Child(v, n - 1)), before);
    }
  }

  // ---- the explicit stack ------------------------------------------------------------------

  datatype Frame = Frame(value: Value, depth: nat, at: Path)

  /** What is left to do: the top frame first. */
  function CheckStack(stack: seq<Frame>, nodes: nat): Outcome
  {
    if stack == [] then Done(nodes)
    else
      var top := stack[|stack| - 1];
      var o := Check(top.value, top.depth, top.at, nodes);
      if o.Stopped? then o else CheckStack(stack[..|stack| - 1], o.nodes)
  }

  /** The frames of the first n children. */
  function ChildFrames(v: Value, n: nat, depth: nat, at: Path): seq<Frame>
    requires n <= ChildCount(v)
  {
    seq(n, i requires 0 <= i < n =>
      Frame(Child(v, i), depth + 1, at + [StepTo(v, i)]))
  }

  /** Children on the stack are checked before what lies below them. */
  lemma {:induction false} ChildrenOnStack(stack: seq<Frame>, v: Value, n: nat, depth: nat, at: Path, nodes: nat)
    requires n <= ChildCount(v)
    ensures var o := CheckChildren(v, n, depth, at, nodes);
      CheckStack(stack + ChildFrames(v, n, depth, at), nodes) == if o.Stopped? then o else CheckStack(stack, o.nodes)
    decreases n
  {
    var frames := ChildFrames(v, n, depth, at);
    if n == 0 {
      assert stack + frames == stack;
    } else {
      assert (stack + frames)[..|stack + frames| - 1] == stack + ChildFrames(v, n - 1, depth, at);
      var top := frames[n - 1];
      var o := Check(top.value, top.depth, top.at, nodes);
      if o.Done? {
        ChildrenOnStack(stack, v, n - 1, depth, at, o.nodes);
      }
    }
  }

  function ToVerdict(o: Outcome): Verdict { if o.Done? then Accepted else Rejected(o.reason, o.at) }

  /** Accepts exactly the bodies that are absent, or good and within the node budget. */
  method ValidateSignatureBody(body: Value) returns (verdict: Verdict)
    ensures verdict == if body.Undefined? then Accepted else ToVerdict(Check(body, 0, [], 0))
    ensures verdict.Accepted? <==> body.Undefined? || (Good(body, 0) && Nodes(body) <= 10000)
  {
    CheckDecides(body, 0, [], 0);
    if body.Undefined? {
      return Accepted;
    }
    verdict := Traverse(body);
  }

  /** The loop over the stack reaches the verdict of the recursive check. */
  method Traverse(body: Value) returns (verdict: Verdict)
    ensures verdict == ToVerdict(Check(body, 0, [], 0))
  {
    var stack := [Frame(body, 0, [])];
    var nodes := 0;
    assert stack[..0] == [];
    while stack != []
      invariant nodes <= MAX_NODES
      invariant CheckStack(stack, nodes) == Check(body, 0, [], 0)
      decreases MAX_NODES + 1 - nodes
    {
      var top, below := stack[|stack| - 1], stack[..|stack| - 1];
      var value, depth, at := top.value, top.depth, top.at;
      nodes := nodes + 1;
      if nodes > MAX_NODES {
        return Rejected(TooLarge, []);
      }
      match value {
        case Null => stack := below;
        case Str(_) => stack := below;
        case Bool(_) => stack := below;
        case Number(finite) =>
          if !finite {
            return Rejected(NonFinite, at);
          }
          stack := below;
        case Undefined => return Rejected(NotJson, at);
        case Other => return Rejected(NotJson, at);
        case Array(items) =>
          if depth >= MAX_DEPTH {
            return Rejected(TooDeep, at);
          }
          stack := PushItems(below, value, depth, at);
          ChildrenOnStack(below, value, |items|, depth, at, nodes);
        case Object(entries) =>
          if depth >= MAX_DEPTH {
            return Rejected(TooDeep, at);
          }
          var forbidden;
          stack, forbidden := PushEntries(below, value, depth, at);
          if forbidden < |entries| {
            return Rejected(ForbiddenKey, at + [Key(entries[forbidden].key)]);
          }
          ChildrenOnStack(below, value, |entries|, depth, at, nodes);
      }
    }
    verdict := Accepted;
  }

  method PushItems(below: seq<Frame>, v: Value, depth: nat, at: Path) returns (stack: seq<Frame>)
    requires v.Array?
    ensures stack == below + ChildFrames(v, |v.items|, depth, at)
  {
    stack := below;
    var i := 0;
    while i < |v.items|
      invariant 0 <= i <= |v.items| && stack == below + ChildFrames(v, i, depth, at)
    {
      stack := stack + [Frame(v.items[i], depth + 1, at + [Index(i)])];
      i := i + 1;
    }
  }

  /** Stops at the first forbidden key. */
  method PushEntries(below: seq<Frame>, v: Value, depth: nat, at: Path) returns (stack: seq<Frame>, forbidden: nat)
    requires v.Object?
    ensures forbidden == FirstForbidden(v.entries)
    ensures forbidden == |v.entries| ==> stack == below + ChildFrames(v, |v.entries|, depth, at)
  {
    stack, forbidden := below, 0;
    while forbidden < |v.entries|
      invariant 0 <= forbidden <= |v.entries| && stack == below + ChildFrames(v, forbidden, depth, at)
      invariant forall i :: 0 <= i < forbidden ==> v.entries[i].key !in FORBIDDEN_KEYS
    {
      if v.entries[forbidden].key in FORBIDDEN_KEYS {
        return;
      }
      stack := stack + [Frame(v.entries[forbidden].value, depth + 1, at + [Key(v.entries[forbidden].key)])];
      forbidden := forbidden + 1;
    }
  }
}
