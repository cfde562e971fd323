/**
 The tree of running nodes of crates/events/src/tree.rs. Each operation is a function from the
 tree to the tree it leaves, the events it emits and its result; the class does the same to its
 fields and pushes the events to its outbox.
 */
module Tree {
  import opened Wrappers
  import opened Events
  import opened Outbox

  datatype Misuse =
    | NotOpen(id: nat)
    | ChildrenOpen(id: nat, child: nat)
    | DuplicateKey(parent: nat, key: string)

  datatype Start = Start(key: string, kind: Kind, planned: seq<string>, shielded: bool)

  datatype Ending = Ending(status: Status, cancellation: Cancellation, finding: Option<Finding>,
                           result: Option<NodeResult>, exitCode: nat)

  datatype Open = Open(parent: nat, planned: seq<string>, used: set<string>, children: nat,
                       bytes: Option<Progress>, builds: Option<Progress>)

  datatype TreeState = TreeState(next: nat, open: seq<Option<Open>>)

  /** What an operation leaves behind, emits and returns. */
  datatype Done<T> = Done(state: TreeState, events: seq<Event>, result: Result<T, Misuse>)

  function Get(t: TreeState, id: nat): Option<Open> {
    if id < |t.open| then t.open[id] else None
  }

  predicate IsOpen(t: TreeState, id: nat) { Get(t, id).Some? }

  ghost function Children(t: TreeState, id: nat): set<nat> {
    set c: nat | c < |t.open| && t.open[c].Some? && t.open[c].value.parent == id
  }

  /** Every open node but the root has an open parent with a lower id that counts it. */
  ghost predicate ValidNode(t: TreeState, id: nat)
    requires IsOpen(t, id)
  {
    var o := t.open[id].value;
    id >= ROOT && o.parent < id &&
    (if id == ROOT then o.parent == 0 else IsOpen(t, o.parent)) &&
    o.children == |Children(t, id)|
  }

  ghost predicate ValidTree(t: TreeState) {
    |t.open| == t.next && t.next > ROOT && forall id :: IsOpen(t, id) ==> ValidNode(t, id)
  }

  // ---------------------------------------------------------------------------
  // Starting

  function OpenNode(t: TreeState, parent: nat, start: Start): Done<nat>
    requires |t.open| <= t.next
  {
    var id := t.next;
    var counted := if IsOpen(t, parent) then
                     t.open[parent := Some(t.open[parent].value.(children := t.open[parent].value.children + 1))]
                   else t.open;
    var grown := counted + seq(id - |t.open|, _ => None);
    Done(TreeState(id + 1, grown + [Some(Open(parent, start.planned, {}, 0, None, None))]),
         [NodeStarted(id, parent, start.key, start.planned, start.shielded, start.kind)],
         Success(id))
  }

  /** `Tree::new`: the root is the first node. */
  function NewTree(start: Start): Done<nat> { OpenNode(TreeState(ROOT, []), 0, start) }

  function Claim(t: TreeState, parent: nat, key: string): Result<TreeState, Misuse> {
    if !IsOpen(t, parent) then Failure(NotOpen(parent))
    else
      var o := t.open[parent].value;
      if key in o.used then Failure(DuplicateKey(parent, key))
      else Success(t.(open := t.open[parent := Some(o.(used := o.used + {key}))]))
  }

  function StartNode(t: TreeState, parent: nat, start: Start): Done<nat>
    requires |t.open| <= t.next
  {
    match Claim(t, parent, start.key)
    case Failure(misuse) => Done(t, [], Failure(misuse))
    case Success(claimed) => OpenNode(claimed, parent, start)
  }

  function ReportNotRun(t: TreeState, parent: nat, key: string, reason: Reason, blocker: string): Done<()> {
    match Claim(t, parent, key)
    case Failure(misuse) => Done(t, [], Failure(misuse))
    case Success(claimed) => Done(claimed, [NotRun(parent, key, reason, blocker)], Success(()))
  }

  // ---------------------------------------------------------------------------
  // Reporting

  /** A gauge is reported when its value changes, everything else always. */
  function Changed(o: Open, progress: Progress): (Open, bool) {
    match progress
    case Bytes(_, _) => (o.(bytes := Some(progress)), o.bytes != Some(progress))
    case Builds(_, _) => (o.(builds := Some(progress)), o.builds != Some(progress))
    case _ => (o, true)
  }

  function ReportProgress(t: TreeState, id: nat, progress: Progress): Done<()> {
    if !IsOpen(t, id) then Done(t, [], Failure(NotOpen(id)))
    else
      var (o, changed) := Changed(t.open[id].value, progress);
      Done(t.(open := t.open[id := Some(o)]),
           if changed then [NodeProgress(id, Some(progress))] else [],
           Success(()))
  }

  function Warn(t: TreeState, id: nat, finding: Finding): Done<()> {
    if !IsOpen(t, id) then Done(t, [], Failure(NotOpen(id)))
    else Done(t, [Diagnostic(finding.(node := id, severity := Warned))], Success(()))
  }

  // ---------------------------------------------------------------------------
  // Finishing

  /** The first open child of `id` from index `from` on, or the length of the table. */
  function FirstChild(t: TreeState, id: nat, from: nat): (child: nat)
    requires from <= |t.open|
    ensures from <= child <= |t.open|
    ensures child < |t.open| ==> t.open[child].Some? && t.open[child].value.parent == id
    ensures forall c :: from <= c < child ==> !(t.open[c].Some? && t.open[c].value.parent == id)
    decreases |t.open| - from
  {
    if from == |t.open| || (t.open[from].Some? && t.open[from].value.parent == id) then from
    else FirstChild(t, id, from + 1)
  }

  function Unreached(planned: seq<string>, used: set<string>): seq<string> {
    if planned == [] then []
    else (if planned[0] in used then [] else [planned[0]]) + Unreached(planned[1..], used)
  }

  function NotReachedEvents(id: nat, keys: seq<string>): seq<Event> {
    if keys == [] then [] else [NotRun(id, keys[0], NotReached, "")] + NotReachedEvents(id, keys[1..])
  }

  function FinishedEvent(id: nat, ending: Ending): Event {
    NodeFinished(id, ending.status, ending.cancellation, ending.exitCode, ending.finding, ending.result)
  }

  function CloseNode(t: TreeState, id: nat): TreeState
    requires IsOpen(t, id)
  {
    var parent := t.open[id].value.parent;
    var closed := t.open[id := None];
    if parent < |closed| && closed[parent].Some? then
      var p := closed[parent].value;
      t.(open := closed[parent := Some(p.(children := if p.children > 0 then p.children - 1 else 0))])
    else t.(open := closed)
  }

  function FinishNode(t: TreeState, id: nat, ending: Ending): Done<()> {
    if !IsOpen(t, id) then Done(t, [], Failure(NotOpen(id)))
    else
      var o := t.open[id].value;
      if o.children > 0 then Done(t, [], Failure(ChildrenOpen(id, FirstChild(t, id, 0))))
      else
        Done(CloseNode(t, id),
             NotReachedEvents(id, Unreached(o.planned, o.used)) + [FinishedEvent(id, ending)],
             Success(()))
  }

  // ---------------------------------------------------------------------------
  // Abandoning

  function Abandoned(cause: Option<Cancellation>): Ending {
    match cause
    case Some(c) => Ending(Cancelled, c, None, None, 0)
    case None => Ending(Failed, UnspecifiedCause, None, None, 0)
  }

  /** `id` is `ancestor` or open below it. The parents of open nodes have lower ids. */
  predicate DescendsFrom(t: TreeState, id: nat, ancestor: nat) {
    id == ancestor ||
    (IsOpen(t, id) && t.open[id].value.parent < id && DescendsFrom(t, t.open[id].value.parent, ancestor))
  }

  /** The open nodes below `n` that descend from `ancestor`, highest first. */
  function Subtree(t: TreeState, ancestor: nat, n: nat): seq<nat> {
    if n == 0 then []
    else (if IsOpen(t, n - 1) && DescendsFrom(t, n - 1, ancestor) then [n - 1] else []) + Subtree(t, ancestor, n - 1)
  }

  function FinishAll(t: TreeState, ids: seq<nat>, ending: Ending): Done<()>
    decreases |ids|
  {
    if ids == [] then Done(t, [], Success(()))
    else
      var first := FinishNode(t, ids[0], ending);
      if first.result.Failure? then first
      else
        var rest := FinishAll(first.state, ids[1..], ending);
        Done(rest.state, first.events + rest.events, rest.result)
  }

  function Abandon(t: TreeState, id: nat, cause: Option<Cancellation>): Done<()> {
    var ids := Subtree(t, id, |t.open|);
    if ids == [] then Done(t, [], Failure(NotOpen(id))) else FinishAll(t, ids, Abandoned(cause))
  }

  function Drop(t: TreeState, cause: Option<Cancellation>): Done<()> {
    if IsOpen(t, ROOT) then Abandon(t, ROOT, cause) else Done(t, [], Success(()))
  }

  // ---------------------------------------------------------------------------
  // Validity is kept

  lemma SameParentsSameChildren(t: TreeState, u: TreeState, id: nat)
    requires |t.open| == |u.open|
    requires forall c :: 0 <= c < |t.open| ==> (t.open[c].Some? <==> u.open[c].Some?)
    requires forall c :: 0 <= c < |t.open| && t.open[c].Some? ==> t.open[c].value.parent == u.open[c].value.parent
    ensures Children(t, id) == Children(u, id)
  {}

  /** Changing what a node knows of its keys and gauges changes nothing else. */
  lemma EditKeepsValid(t: TreeState, id: nat, o: Open)
    requires ValidTree(t) && IsOpen(t, id)
    requires o.parent == t.open[id].value.parent && o.children == t.open[id].value.children
    ensures ValidTree(t.(open := t.open[id := Some(o)]))
  {
    var u := t.(open := t.open[id := Some(o)]);
    forall c: nat | IsOpen(u, c)
      ensures ValidNode(u, c)
    {
      assert ValidNode(t, c);
      SameParentsSameChildren(t, u, c);
    }
  }

  lemma OpenKeepsValid(t: TreeState, parent: nat, start: Start)
    requires ValidTree(t) && IsOpen(t, parent)
    ensures ValidTree(OpenNode(t, parent, start).state)
  {
    var u := OpenNode(t, parent, start).state;
    OpenAddsChild(t, parent, start);
    NoChildrenYet(t, t.next);
    forall c: nat | IsOpen(u, c)
      ensures ValidNode(u, c)
    {
      if c != t.next {
        assert ValidNode(t, c);
      }
    }
  }

  lemma OpenedTable(t: TreeState, parent: nat, start: Start)
    requires ValidTree(t) && IsOpen(t, parent)
    ensures var u := OpenNode(t, parent, start).state;
      u.next == |u.open| == t.next + 1 &&
      u.open[t.next] == Some(Open(parent, start.planned, {}, 0, None, None)) &&
      u.open[parent] == Some(t.open[parent].value.(children := t.open[parent].value.children + 1)) &&
      forall c: nat :: c < t.next && c != parent ==> u.open[c] == t.open[c]
  {}

  lemma OpenAddsChild(t: TreeState, parent: nat, start: Start)
    requires ValidTree(t) && IsOpen(t, parent)
    ensures var u := OpenNode(t, parent, start).state;
      (forall c: nat :: IsOpen(u, c) <==> IsOpen(t, c) || c == t.next) &&
      forall id: nat :: Children(u, id) == if id == parent then Children(t, id) + {t.next} else Children(t, id)
  {
    OpenedTable(t, parent, start);
    ChildAdded(t, OpenNode(t, parent, start).state, parent);
  }

  lemma ChildAdded(t: TreeState, u: TreeState, parent: nat)
    requires |t.open| == t.next && u.next == |u.open| == t.next + 1 && IsOpen(t, parent) && IsOpen(u, parent)
    requires u.open[t.next].Some? && u.open[t.next].value.parent == parent
    requires u.open[parent].value.parent == t.open[parent].value.parent
    requires forall c: nat :: c < t.next && c != parent ==> u.open[c] == t.open[c]
    ensures forall c: nat :: IsOpen(u, c) <==> IsOpen(t, c) || c == t.next
    ensures forall id: nat :: Children(u, id) == if id == parent then Children(t, id) + {t.next} else Children(t, id)
  {
    forall id: nat
      ensures Children(u, id) == if id == parent then Children(t, id) + {t.next} else Children(t, id)
    {
      assert forall c: nat :: c in Children(u, id) <==> c in Children(t, id) || (c == t.next && id == parent);
    }
  }

  lemma NoChildrenYet(t: TreeState, id: nat)
    requires ValidTree(t) && id >= t.next
    ensures Children(t, id) == {}
  {
    forall c: nat | IsOpen(t, c)
      ensures c !in Children(t, id)
    {
      assert ValidNode(t, c);
    }
  }

  lemma NewTreeIsValid(start: Start)
    ensures ValidTree(NewTree(start).state)
  {
    var t := NewTree(start).state;
    assert t.open == [None, Some(Open(0, start.planned, {}, 0, None, None))];
    forall id: nat | IsOpen(t, id)
      ensures ValidNode(t, id)
    {
      assert Children(t, ROOT) == {};
    }
  }

  lemma CloseKeepsValid(t: TreeState, id: nat)
    requires ValidTree(t) && IsOpen(t, id) && t.open[id].value.children == 0
    ensures ValidTree(CloseNode(t, id))
    ensures var parent := t.open[id].value.parent;
      parent != id && (IsOpen(t, parent) ==> t.open[parent].value.children > 0)
  {
    var u, parent := CloseNode(t, id), t.open[id].value.parent;
    assert ValidNode(t, id) && Children(t, id) == {};
    assert id in Children(t, parent);
    if IsOpen(t, parent) {
      assert ValidNode(t, parent);
    }
    forall c: nat | IsOpen(u, c)
      ensures ValidNode(u, c)
    {
      assert IsOpen(t, c) && ValidNode(t, c);
      assert c !in Children(t, id);
      if c == parent {
        assert Children(u, c) == Children(t, c) - {id};
      } else {
        assert Children(u, c) == Children(t, c);
      }
    }
  }

  /** `expect("a counted child is open")` in `finish` cannot fire. */
  lemma CountedChildIsOpen(t: TreeState, id: nat)
    requires ValidTree(t) && IsOpen(t, id)
    ensures t.open[id].value.children > 0 <==> FirstChild(t, id, 0) < |t.open|
  {
    assert ValidNode(t, id);
    var child := FirstChild(t, id, 0);
    if child < |t.open| {
      assert child in Children(t, id);
    } else {
      assert Children(t, id) == {};
    }
  }

  lemma ClaimKeepsValid(t: TreeState, parent: nat, key: string)
    requires ValidTree(t) && Claim(t, parent, key).Success?
    ensures ValidTree(Claim(t, parent, key).value)
  {
    EditKeepsValid(t, parent, t.open[parent].value.(used := t.open[parent].value.used + {key}));
  }

  predicate Highest(ids: seq<nat>) { forall i, j :: 0 <= i < j < |ids| ==> ids[i] > ids[j] }

  /** The rest of a subtree once its highest node is closed. */
  ghost predicate Closable(t: TreeState, ids: seq<nat>) {
    Highest(ids) &&
    (forall x: nat :: x in ids ==> IsOpen(t, x)) &&
    (forall x: nat, c: nat :: x in ids && c in Children(t, x) ==> c in ids)
  }

  lemma FirstClosable(t: TreeState, ids: seq<nat>)
    requires ValidTree(t) && Closable(t, ids) && ids != []
    ensures IsOpen(t, ids[0]) && t.open[ids[0]].value.children == 0
  {
    assert ValidNode(t, ids[0]);
    forall c: nat | IsOpen(t, c)
      ensures c !in Children(t, ids[0])
    {
      assert ValidNode(t, c);
      assert c in ids ==> c <= ids[0];
    }
    assert Children(t, ids[0]) == {};
  }

  lemma ClosedStaysOpen(t: TreeState, id: nat)
    requires ValidTree(t) && IsOpen(t, id)
    ensures forall x: nat :: IsOpen(CloseNode(t, id), x) <==> IsOpen(t, x) && x != id
    ensures forall x: nat :: IsOpen(t, x) && x != id ==> CloseNode(t, id).open[x].value.parent == t.open[x].value.parent
    ensures forall x: nat :: Children(CloseNode(t, id), x) == Children(t, x) - {id}
  {}

  lemma RestClosable(t: TreeState, ids: seq<nat>)
    requires ValidTree(t) && Closable(t, ids) && ids != []
    ensures IsOpen(t, ids[0]) && t.open[ids[0]].value.children == 0
    ensures ValidTree(CloseNode(t, ids[0])) && Closable(CloseNode(t, ids[0]), ids[1..])
  {
    FirstClosable(t, ids);
    CloseKeepsValid(t, ids[0]);
    ClosedStaysOpen(t, ids[0]);
    InRest(ids);
  }

  lemma InRest(ids: seq<nat>)
    requires Highest(ids) && ids != []
    ensures Highest(ids[1..]) && forall x :: x in ids[1..] <==> x in ids && x != ids[0]
  {
    assert ids == [ids[0]] + ids[1..];
  }

  lemma {:induction false} FinishAllSucceeds(t: TreeState, ids: seq<nat>, ending: Ending)
    requires ValidTree(t) && Closable(t, ids)
    ensures ValidTree(FinishAll(t, ids, ending).state) && FinishAll(t, ids, ending).result == Success(())
    decreases |ids|
  {
    if ids != [] {
      RestClosable(t, ids);
      FinishAllSucceeds(CloseNode(t, ids[0]), ids[1..], ending);
    }
  }

  lemma {:induction false} SubtreeHolds(t: TreeState, ancestor: nat, n: nat, x: nat)
    ensures x in Subtree(t, ancestor, n) <==> x < n && IsOpen(t, x) && DescendsFrom(t, x, ancestor)
  {
    if n > 0 {
      SubtreeHolds(t, ancestor, n - 1, x);
    }
  }

  lemma {:induction false} SubtreeIsHighest(t: TreeState, ancestor: nat, n: nat)
    ensures Highest(Subtree(t, ancestor, n)) && AllBelow(Subtree(t, ancestor, n), n)
  {
    if n > 0 {
      SubtreeIsHighest(t, ancestor, n - 1);
      HighestFirst(n - 1, Subtree(t, ancestor, n - 1));
      NothingFirst(Subtree(t, ancestor, n - 1));
    }
  }

  predicate AllBelow(ids: seq<nat>, n: nat) { forall i :: 0 <= i < |ids| ==> ids[i] < n }

  lemma NothingFirst(ids: seq<nat>)
    ensures [] + ids == ids
  {}

  lemma SubtreeHas(t: TreeState, ancestor: nat, n: nat)
    ensures forall x: nat :: x in Subtree(t, ancestor, n) <==> x < n && IsOpen(t, x) && DescendsFrom(t, x, ancestor)
    ensures Highest(Subtree(t, ancestor, n))
  {
    SubtreeIsHighest(t, ancestor, n);
    forall x: nat
      ensures x in Subtree(t, ancestor, n) <==> x < n && IsOpen(t, x) && DescendsFrom(t, x, ancestor)
    {
      SubtreeHolds(t, ancestor, n, x);
    }
  }

  lemma HighestFirst(first: nat, rest: seq<nat>)
    requires Highest(rest) && AllBelow(rest, first)
    ensures Highest([first] + rest) && AllBelow([first] + rest, first + 1)
  {
    var ids := [first] + rest;
    assert forall i :: 0 < i < |ids| ==> ids[i] == rest[i - 1];
  }

  lemma SubtreeIsClosable(t: TreeState, ancestor: nat)
    requires ValidTree(t)
    ensures Closable(t, Subtree(t, ancestor, |t.open|))
  {
    var ids := Subtree(t, ancestor, |t.open|);
    SubtreeHas(t, ancestor, |t.open|);
    forall x: nat, c: nat | x in ids && c in Children(t, x)
      ensures c in ids
    {
      assert ValidNode(t, c);
    }
  }

  /** No `expect` in `abandon` can fire: it only fails, and then emits nothing, where nothing is open. */
  lemma AbandonSucceeds(t: TreeState, id: nat, cause: Option<Cancellation>)
    requires ValidTree(t)
    ensures ValidTree(Abandon(t, id, cause).state)
    ensures Abandon(t, id, cause).result == if Subtree(t, id, |t.open|) == [] then Failure(NotOpen(id)) else Success(())
    ensures IsOpen(t, id) ==> Abandon(t, id, cause).result.Success?
  {
    SubtreeIsClosable(t, id);
    SubtreeHas(t, id, |t.open|);
    FinishAllSucceeds(t, Subtree(t, id, |t.open|), Abandoned(cause));
    if IsOpen(t, id) {
      assert id in Subtree(t, id, |t.open|);
    }
  }

  // ---------------------------------------------------------------------------
  // The tree as an object

  function PushAll(q: Queue, events: seq<Event>): Queue
    decreases |events|
  {
    if events == [] then q else PushAll(PushEvent(q, events[0]), events[1..])
  }

  lemma {:induction false} PushAllJoins(q: Queue, a: seq<Event>, b: seq<Event>)
    ensures PushAll(q, a + b) == PushAll(PushAll(q, a), b)
    decreases |a|
  {
    if a == [] {
      assert a + b == b;
    } else {
      assert (a + b)[1..] == a[1..] + b;
      PushAllJoins(PushEvent(q, a[0]), a[1..], b);
    }
  }

  /** `rest` is left to do of `all`, of which `emitted` was emitted. */
  ghost predicate Remains(rest: Done<()>, emitted: seq<Event>, all: Done<()>) {
    rest.state == all.state && emitted + rest.events == all.events
  }

  lemma FirstRemains(t: TreeState, ids: seq<nat>, ending: Ending, emitted: seq<Event>, all: Done<()>)
    requires ids != [] && FinishNode(t, ids[0], ending).result.Success?
    requires Remains(FinishAll(t, ids, ending), emitted, all)
    ensures var step := FinishNode(t, ids[0], ending);
      Remains(FinishAll(step.state, ids[1..], ending), emitted + step.events, all)
  {
    var step := FinishNode(t, ids[0], ending);
    var rest := FinishAll(step.state, ids[1..], ending);
    assert emitted + (step.events + rest.events) == emitted + step.events + rest.events;
  }

  class Tree {
    const outbox: Outbox
    var next: nat
    var open: seq<Option<Open>>

    ghost function Now(): TreeState
      reads this
    {
      TreeState(next, open)
    }

    ghost predicate Valid()
      reads this, outbox
    {
      outbox.Valid() && ValidTree(Now())
    }

    /** This operation has been done and its events pushed to the outbox that was `before`. */
    ghost predicate Did<T>(before: Queue, done: Done<T>, result: Result<T, Misuse>)
      reads this, outbox
    {
      Valid() && Now() == done.state && result == done.result && outbox.Now() == PushAll(before, done.events)
    }

    constructor (outbox: Outbox, start: Start)
      requires outbox.Valid()
      modifies outbox
      ensures this.outbox == outbox && Valid()
      ensures Now() == NewTree(start).state && outbox.Now() == PushAll(old(outbox.Now()), NewTree(start).events)
    {
      this.outbox := outbox;
      next := ROOT;
      open := [];
      new;
      NewTreeIsValid(start);
      var id := OpenChild(0, start);
    }

    method OpenChild(parent: nat, start: Start) returns (id: nat)
      requires outbox.Valid() && |open| <= next
      requires ValidTree(OpenNode(Now(), parent, start).state)
      modifies this, outbox
      ensures Did(old(outbox.Now()), OpenNode(old(Now()), parent, start), Success(id))
    {
      id := next;
      next := next + 1;
      ghost var known := |open|;
      if parent < |open| && open[parent].Some? {
        var p := open[parent].value;
        open := open[parent := Some(p.(children := p.children + 1))];
      }
      outbox.Push(NodeStarted(id, parent, start.key, start.planned, start.shielded, start.kind));
      while |open| < id
        invariant known <= |open| <= id
        invariant next == id + 1 && outbox.Valid()
        invariant outbox.Now() == PushAll(old(outbox.Now()), OpenNode(old(Now()), parent, start).events)
        invariant open + seq(id - |open|, _ => None) + [Some(Open(parent, start.planned, {}, 0, None, None))]
               == OpenNode(old(Now()), parent, start).state.open
      {
        open := open + [None];
      }
      assert open + seq(0, _ => None) == open;
      open := open + [Some(Open(parent, start.planned, {}, 0, None, None))];
      assert Now() == OpenNode(old(Now()), parent, start).state;
    }

    method ClaimKey(parent: nat, key: string) returns (r: Result<(), Misuse>)
      requires ValidTree(Now())
      modifies this
      ensures match Claim(old(Now()), parent, key)
              case Failure(misuse) => r == Failure(misuse) && Now() == old(Now())
              case Success(claimed) => r == Success(()) && Now() == claimed && ValidTree(claimed)
    {
      if !(parent < |open| && open[parent].Some?) {
        return Failure(NotOpen(parent));
      }
      var o := open[parent].value;
      if key in o.used {
        return Failure(DuplicateKey(parent, key));
      }
      ClaimKeepsValid(Now(), parent, key);
      open := open[parent := Some(o.(used := o.used + {key}))];
      return Success(());
    }

    method StartChild(parent: nat, start: Start) returns (r: Result<nat, Misuse>)
      requires Valid()
      modifies this, outbox
      ensures Did(old(outbox.Now()), StartNode(old(Now()), parent, start), r)
    {
      var _ :- ClaimKey(parent, start.key);
      OpenKeepsValid(Now(), parent, start);
      var id := OpenChild(parent, start);
      return Success(id);
    }

    method NotRunChild(parent: nat, key: string, reason: Reason) returns (r: Result<(), Misuse>)
      requires Valid()
      modifies this, outbox
      ensures Did(old(outbox.Now()), ReportNotRun(old(Now()), parent, key, reason, ""), r)
    {
      var _ :- ClaimKey(parent, key);
      outbox.Push(NotRun(parent, key, reason, ""));
      return Success(());
    }

    method BlockedChild(parent: nat, key: string, blocker: string) returns (r: Result<(), Misuse>)
      requires Valid()
      modifies this, outbox
      ensures Did(old(outbox.Now()), ReportNotRun(old(Now()), parent, key, Blocked, blocker), r)
    {
      var _ :- ClaimKey(parent, key);
      outbox.Push(NotRun(parent, key, Blocked, blocker));
      return Success(());
    }

    method Report(id: nat, progress: Progress) returns (r: Result<(), Misuse>)
      requires Valid()
      modifies this, outbox
      ensures Did(old(outbox.Now()), ReportProgress(old(Now()), id, progress), r)
    {
      if !(id < |open| && open[id].Some?) {
        return Failure(NotOpen(id));
      }
      var o := open[id].value;
      var changed := true;
      if progress.Bytes? {
        changed := o.bytes != Some(progress);
        o := o.(bytes := Some(progress));
      } else if progress.Builds? {
        changed := o.builds != Some(progress);
        o := o.(builds := Some(progress));
      }
      EditKeepsValid(Now(), id, o);
      open := open[id := Some(o)];
      if changed {
        outbox.Push(NodeProgress(id, Some(progress)));
      }
      return Success(());
    }

    method WarnOf(id: nat, finding: Finding) returns (r: Result<(), Misuse>)
      requires Valid()
      modifies this, outbox
      ensures Did(old(outbox.Now()), Warn(old(Now()), id, finding), r)
    {
      if !(id < |open| && open[id].Some?) {
        return Failure(NotOpen(id));
      }
      outbox.Push(Diagnostic(finding.(node := id, severity := Warned)));
      return Success(());
    }

    method Finish(id: nat, ending: Ending) returns (r: Result<(), Misuse>)
      requires Valid()
      modifies this, outbox
      ensures Did(old(outbox.Now()), FinishNode(old(Now()), id, ending), r)
    {
      if !(id < |open| && open[id].Some?) {
        return Failure(NotOpen(id));
      }
      var o := open[id].value;
      if o.children > 0 {
        CountedChildIsOpen(Now(), id);
        var child := 0;
        while !(open[child].Some? && open[child].value.parent == id)
          invariant child <= FirstChild(Now(), id, 0) < |open|
          invariant FirstChild(Now(), id, child) == FirstChild(Now(), id, 0)
          decreases |open| - child
        {
          child := child + 1;
        }
        return Failure(ChildrenOpen(id, child));
      }
      CloseKeepsValid(Now(), id);
      ghost var closed := CloseNode(Now(), id);
      open := open[id := None];
      if o.parent < |open| && open[o.parent].Some? {
        var p := open[o.parent].value;
        open := open[o.parent := Some(p.(children := p.children - 1))];
      }
      assert Now() == closed;
      ReportUnreached(id, o);
      PushAllJoins(old(outbox.Now()), NotReachedEvents(id, Unreached(o.planned, o.used)), [FinishedEvent(id, ending)]);
      outbox.Push(FinishedEvent(id, ending));
      return Success(());
    }

    method ReportUnreached(id: nat, o: Open)
      requires outbox.Valid()
      modifies outbox
      ensures outbox.Valid()
      ensures outbox.Now() == PushAll(old(outbox.Now()), NotReachedEvents(id, Unreached(o.planned, o.used)))
    {
      for i := 0 to |o.planned|
        invariant outbox.Valid()
        invariant PushAll(outbox.Now(), NotReachedEvents(id, Unreached(o.planned[i..], o.used)))
               == PushAll(old(outbox.Now()), NotReachedEvents(id, Unreached(o.planned, o.used)))
      {
        assert o.planned[i..][1..] == o.planned[i + 1..];
        ghost var rest := Unreached(o.planned[i + 1..], o.used);
        if o.planned[i] !in o.used {
          assert ([o.planned[i]] + rest)[1..] == rest;
          assert ([NotRun(id, o.planned[i], NotReached, "")] + NotReachedEvents(id, rest))[1..] == NotReachedEvents(id, rest);
          outbox.Push(NotRun(id, o.planned[i], NotReached, ""));
        } else {
          assert [] + rest == rest;
        }
      }
      assert o.planned[|o.planned|..] == [];
    }

    /** Walks up from `id`; the parents of open nodes have lower ids. */
    method Descends(id: nat, ancestor: nat) returns (r: bool)
      requires ValidTree(Now())
      ensures r == DescendsFrom(Now(), id, ancestor)
    {
      var node: nat := id;
      while true
        invariant DescendsFrom(Now(), node, ancestor) == DescendsFrom(Now(), id, ancestor)
        decreases node
      {
        if node == ancestor {
          return true;
        }
        if !(node < |open| && open[node].Some?) {
          return false;
        }
        assert ValidNode(Now(), node);
        node := open[node].value.parent;
      }
    }

    /** Collects the open nodes of the subtree, highest first, and finishes each. */
    method AbandonNode(id: nat, cause: Option<Cancellation>) returns (r: Result<(), Misuse>)
      requires Valid()
      modifies this, outbox
      ensures Did(old(outbox.Now()), Abandon(old(Now()), id, cause), r)
    {
      var ids := Below(id);
      if ids == [] {
        return Failure(NotOpen(id));
      }
      SubtreeIsClosable(Now(), id);
      FinishAllSucceeds(Now(), ids, Abandoned(cause));
      FinishEach(ids, Abandoned(cause));
      return Success(());
    }

    method Below(id: nat) returns (ids: seq<nat>)
      requires ValidTree(Now())
      ensures ids == Subtree(Now(), id, |open|)
    {
      ids := [];
      for node := 0 to |open|
        invariant ids == Subtree(Now(), id, node)
      {
        assert [] + ids == ids;
        if open[node].Some? {
          var below := Descends(node, id);
          if below {
            ids := [node] + ids;
          }
        }
      }
    }

    method FinishEach(ids: seq<nat>, ending: Ending)
      requires Valid() && Closable(Now(), ids)
      modifies this, outbox
      ensures Did(old(outbox.Now()), FinishAll(old(Now()), ids, ending), Success(()))
    {
      FinishAllSucceeds(Now(), ids, ending);
      ghost var all := FinishAll(Now(), ids, ending);
      ghost var emitted: seq<Event> := [];
      assert ids[0..] == ids && emitted + all.events == all.events;
      for i := 0 to |ids|
        invariant Valid() && Closable(Now(), ids[i..])
        invariant outbox.Now() == PushAll(old(outbox.Now()), emitted)
        invariant Remains(FinishAll(Now(), ids[i..], ending), emitted, all)
      {
        ghost var before := Now();
        assert ids[i..][1..] == ids[i + 1..] && ids[i..][0] == ids[i];
        RestClosable(Now(), ids[i..]);
        ghost var step := FinishNode(Now(), ids[i], ending);
        var done := Finish(ids[i], ending);
        assert done.Success?;
        PushAllJoins(old(outbox.Now()), emitted, step.events);
        FirstRemains(before, ids[i..], ending, emitted, all);
        emitted := emitted + step.events;
      }
      assert ids[|ids|..] == [];
      assert emitted + [] == emitted;
    }

    /** What dropping the tree does. */
    method Close(cause: Option<Cancellation>)
      requires Valid()
      modifies this, outbox
      ensures Valid() && Now() == Drop(old(Now()), cause).state
      ensures outbox.Now() == PushAll(old(outbox.Now()), Drop(old(Now()), cause).events)
    {
      if ROOT < |open| && open[ROOT].Some? {
        var _ := AbandonNode(ROOT, cause);
      }
    }
  }
}
