/**
 Every operation of the tree emits lawful events, provided its caller does its own duties.

 `TreeTracks` relates the tree to the events emitted so far, and `OpStep` is the simulation: the
 events of an accepted operation are lawful exactly when its `Duty` is done, and the relation holds again.
 */
module Simulation {
  import opened Wrappers
  import opened Events
  import opened Validate
  import opened Laws
  import opened Tree

  // ---------------------------------------------------------------------------
  // Runs of events

  /** `e` may be delivered after `es`: it is lawful and the root has not finished. */
  ghost predicate Allowed(es: seq<Event>, e: Event) { !HasFinished(es, ROOT) && Lawful(es, e) }

  ghost predicate AllowedFrom(es: seq<Event>, more: seq<Event>)
    decreases |more|
  {
    more == [] || (Allowed(es, more[0]) && AllowedFrom(es + [more[0]], more[1..]))
  }

  lemma {:induction false} AllowedJoins(es: seq<Event>, a: seq<Event>, b: seq<Event>)
    ensures AllowedFrom(es, a + b) <==> AllowedFrom(es, a) && AllowedFrom(es + a, b)
    decreases |a|
  {
    if a == [] {
      assert a + b == b && es + a == es;
    } else {
      assert (a + b)[1..] == a[1..] + b && (a + b)[0] == a[0];
      assert es + [a[0]] + a[1..] == es + a;
      AllowedJoins(es + [a[0]], a[1..], b);
    }
  }

  lemma AllowedOne(es: seq<Event>, e: Event)
    ensures AllowedFrom(es, [e]) <==> Allowed(es, e)
  {
    assert [e][1..] == [];
  }

  // ---------------------------------------------------------------------------
  // What the tree remembers is what has happened

  ghost predicate NodeTracks(o: Open, es: seq<Event>, id: nat) {
    (forall key :: key in o.used <==> KeyTaken(es, id, key)) &&
    (forall start :: start in es && Starts(start, id) ==> start.parent == o.parent && start.planned == o.planned)
  }

  ghost predicate TreeTracks(t: TreeState, es: seq<Event>) {
    ValidTree(t) && Rooted(es) &&
    (forall id: nat :: HasStarted(es, id) <==> ROOT <= id < t.next) &&
    (forall id: nat :: IsOpen(t, id) <==> Runs(es, id)) &&
    (forall id: nat :: IsOpen(t, id) ==> NodeTracks(t.open[id].value, es, id))
  }

  /** Once the root is closed nothing is open. */
  lemma {:induction false} RootClosesLast(t: TreeState, id: nat)
    requires ValidTree(t) && IsOpen(t, id)
    ensures IsOpen(t, ROOT)
    decreases id
  {
    assert ValidNode(t, id);
    if id != ROOT {
      RootClosesLast(t, t.open[id].value.parent);
    }
  }

  lemma OpenMeansRunning(t: TreeState, es: seq<Event>, id: nat)
    requires TreeTracks(t, es) && IsOpen(t, id)
    ensures es != [] && Runs(es, id) && Runs(es, ROOT) && id != 0
  {
    RootClosesLast(t, id);
  }

  lemma ChildrenRun(t: TreeState, es: seq<Event>, id: nat)
    requires TreeTracks(t, es)
    ensures forall child: nat :: child in Children(t, id) <==> ChildRuns(es, id, child)
  {
    forall child: nat
      ensures child in Children(t, id) <==> ChildRuns(es, id, child)
    {
      if child in Children(t, id) {
        assert IsOpen(t, child) && Runs(es, child);
        var start :| start in es && Starts(start, child);
        assert StartsUnder(start, child, id);
      }
      if ChildRuns(es, id, child) {
        var start :| start in es && StartsUnder(start, child, id);
        assert Starts(start, child) && IsOpen(t, child);
      }
    }
  }

  // ---------------------------------------------------------------------------
  // Starting

  lemma RootIsAllowed(start: Start)
    ensures var d := NewTree(start);
      d.events == [NodeStarted(ROOT, 0, start.key, start.planned, start.shielded, start.kind)] &&
      (AllowedFrom([], d.events) <==> start.kind.Command?) && TreeTracks(d.state, d.events)
  {
    var e := NewTree(start).events[0];
    AllowedOne([], e);
    assert [] + [e] == [e];
    RootTracks(start, e);
  }

  lemma RootTracks(start: Start, e: Event)
    requires e == NodeStarted(ROOT, 0, start.key, start.planned, start.shielded, start.kind)
    ensures TreeTracks(NewTree(start).state, [e])
  {
    NewTreeIsValid(start);
    After([], e);
    assert [] + [e] == [e];
    assert NewTree(start).state.open == [None, Some(Open(0, start.planned, {}, 0, None, None))];
  }

  lemma StartIsAllowed(t: TreeState, es: seq<Event>, parent: nat, start: Start)
    requires TreeTracks(t, es) && StartNode(t, parent, start).result.Success?
    ensures var d := StartNode(t, parent, start);
      AllowedFrom(es, d.events) <==> (start.kind.Rollback? ==> FinishedStep(es, start.kind.undoes, parent))
  {
    OpenMeansRunning(t, es, parent);
    AllowedOne(es, StartNode(t, parent, start).events[0]);
  }

  lemma StartedNodeTracks(t: TreeState, es: seq<Event>, parent: nat, start: Start, id: nat)
    requires TreeTracks(t, es) && StartNode(t, parent, start).result.Success?
    requires IsOpen(StartNode(t, parent, start).state, id)
    ensures var d := StartNode(t, parent, start); NodeTracks(d.state.open[id].value, es + d.events, id)
  {
    var claimed := Claim(t, parent, start.key).value;
    var e := StartNode(t, parent, start).events[0];
    ClaimKeepsValid(t, parent, start.key);
    OpenedTable(claimed, parent, start);
    After(es, e);
    if id == t.next {
      NothingBeforeStart(es, id);
    } else {
      assert NodeTracks(t.open[id].value, es, id);
    }
  }

  lemma StartedTable(t: TreeState, es: seq<Event>, parent: nat, start: Start)
    requires TreeTracks(t, es) && StartNode(t, parent, start).result.Success?
    ensures var u := StartNode(t, parent, start).state;
      ValidTree(u) && u.next == t.next + 1 && forall id: nat :: IsOpen(u, id) <==> IsOpen(t, id) || id == t.next
  {
    var claimed := Claim(t, parent, start.key).value;
    ClaimKeepsValid(t, parent, start.key);
    OpenKeepsValid(claimed, parent, start);
    OpenAddsChild(claimed, parent, start);
    assert forall id: nat :: IsOpen(claimed, id) <==> IsOpen(t, id);
  }

  lemma StartTracks(t: TreeState, es: seq<Event>, parent: nat, start: Start)
    requires TreeTracks(t, es) && StartNode(t, parent, start).result.Success?
    requires AllowedFrom(es, StartNode(t, parent, start).events)
    ensures var d := StartNode(t, parent, start); TreeTracks(d.state, es + d.events)
  {
    var u, e := StartNode(t, parent, start).state, StartNode(t, parent, start).events[0];
    StartedTable(t, es, parent, start);
    StartedRuns(t, es, e);
    forall id: nat | IsOpen(u, id)
      ensures NodeTracks(u.open[id].value, es + [e], id)
    {
      StartedNodeTracks(t, es, parent, start, id);
    }
  }

  lemma StartedRuns(t: TreeState, es: seq<Event>, e: Event)
    requires TreeTracks(t, es) && e.NodeStarted? && e.id == t.next && Lawful(es, e)
    ensures Rooted(es + [e])
    ensures forall id: nat :: HasStarted(es + [e], id) <==> ROOT <= id <= t.next
    ensures forall id: nat :: Runs(es + [e], id) <==> IsOpen(t, id) || id == t.next
  {
    RootedAfter(es, e);
    StartedAfter(es, e);
    NothingBeforeStart(es, t.next);
  }

  // ---------------------------------------------------------------------------
  // Steps that do not run

  lemma NotRunIsAllowed(t: TreeState, es: seq<Event>, parent: nat, key: string, reason: Reason, blocker: string)
    requires TreeTracks(t, es) && Claim(t, parent, key).Success?
    ensures Allowed(es, NotRun(parent, key, reason, blocker))
       <==> reason != UnspecifiedReason && (reason == Blocked <==> blocker != "")
  {
    OpenMeansRunning(t, es, parent);
  }

  lemma NothingMovesAfter(es: seq<Event>, e: Event)
    requires e.NotRun?
    ensures forall id :: HasStarted(es + [e], id) <==> HasStarted(es, id)
    ensures forall id :: Runs(es + [e], id) <==> Runs(es, id)
  {
    StartedAfter(es, e);
  }

  lemma NotRunTracks(t: TreeState, es: seq<Event>, parent: nat, key: string, reason: Reason, blocker: string)
    requires TreeTracks(t, es) && Claim(t, parent, key).Success?
    requires Allowed(es, NotRun(parent, key, reason, blocker))
    ensures TreeTracks(Claim(t, parent, key).value, es + [NotRun(parent, key, reason, blocker)])
  {
    var u, e := Claim(t, parent, key).value, NotRun(parent, key, reason, blocker);
    ClaimKeepsValid(t, parent, key);
    RootedAfter(es, e);
    NothingMovesAfter(es, e);
    forall id: nat | IsOpen(u, id)
      ensures NodeTracks(u.open[id].value, es + [e], id)
    {
      NotRunNodeTracks(t, es, e, id);
    }
  }

  lemma NotRunNodeTracks(t: TreeState, es: seq<Event>, e: Event, id: nat)
    requires TreeTracks(t, es) && e.NotRun? && Claim(t, e.parent, e.key).Success? && IsOpen(t, id)
    ensures NodeTracks(Claim(t, e.parent, e.key).value.open[id].value, es + [e], id)
  {
    assert NodeTracks(t.open[id].value, es, id);
    TakenAfter(es, e);
    InAppended(es, e);
  }

  // ---------------------------------------------------------------------------
  // Progress and warnings

  ghost predicate SameButGauges(t: TreeState, u: TreeState) {
    t.next == u.next && |t.open| == |u.open| &&
    forall id: nat :: id < |t.open| ==>
      (IsOpen(t, id) <==> IsOpen(u, id)) &&
      (IsOpen(t, id) ==> var o, p := t.open[id].value, u.open[id].value;
        o.parent == p.parent && o.planned == p.planned && o.used == p.used)
  }

  lemma SilentTracks(t: TreeState, es: seq<Event>, u: TreeState, e: Event)
    requires TreeTracks(t, es) && SameButGauges(t, u) && ValidTree(u)
    requires (e.NodeProgress? || e.Diagnostic?) && Lawful(es, e)
    ensures TreeTracks(u, es + [e])
  {
    RootedAfter(es, e);
    After(es, e);
    forall id: nat | IsOpen(u, id)
      ensures NodeTracks(u.open[id].value, es + [e], id)
    {
      assert NodeTracks(t.open[id].value, es, id);
    }
  }

  lemma QuietTracks(t: TreeState, es: seq<Event>, u: TreeState)
    requires TreeTracks(t, es) && SameButGauges(t, u) && ValidTree(u)
    ensures TreeTracks(u, es)
  {
    forall id: nat | IsOpen(u, id)
      ensures NodeTracks(u.open[id].value, es, id)
    {
      assert NodeTracks(t.open[id].value, es, id);
    }
  }

  lemma ProgressStep(t: TreeState, es: seq<Event>, id: nat, progress: Progress)
    requires TreeTracks(t, es) && IsOpen(t, id)
    ensures var d := ReportProgress(t, id, progress);
      AllowedFrom(es, d.events) && TreeTracks(d.state, es + d.events)
  {
    var d := ReportProgress(t, id, progress);
    OpenMeansRunning(t, es, id);
    EditKeepsValid(t, id, Changed(t.open[id].value, progress).0);
    if d.events == [] {
      QuietTracks(t, es, d.state);
      assert es + [] == es;
    } else {
      AllowedOne(es, d.events[0]);
      SilentTracks(t, es, d.state, d.events[0]);
    }
  }

  lemma WarnStep(t: TreeState, es: seq<Event>, id: nat, finding: Finding)
    requires TreeTracks(t, es) && IsOpen(t, id)
    ensures var d := Warn(t, id, finding);
      AllowedFrom(es, d.events) && TreeTracks(d.state, es + d.events)
  {
    OpenMeansRunning(t, es, id);
    AllowedOne(es, Warn(t, id, finding).events[0]);
    SilentTracks(t, es, t, Warn(t, id, finding).events[0]);
  }

  // ---------------------------------------------------------------------------
  // Finishing

  predicate Distinct(keys: seq<string>) { forall i, j :: 0 <= i < j < |keys| ==> keys[i] != keys[j] }

  /** The tree once the node has used the keys too. */
  function Use(t: TreeState, id: nat, keys: seq<string>): TreeState
    requires IsOpen(t, id)
  {
    var o := t.open[id].value;
    t.(open := t.open[id := Some(o.(used := o.used + set key | key in keys))])
  }

  lemma {:induction false} UnreachedMeans(planned: seq<string>, used: set<string>)
    ensures forall key :: key in Unreached(planned, used) <==> key in planned && key !in used
  {
    if planned != [] {
      UnreachedMeans(planned[1..], used);
      assert planned == [planned[0]] + planned[1..];
    }
  }

  lemma DistinctRest(keys: seq<string>)
    requires keys != []
    ensures Distinct(keys) <==> keys[0] !in keys[1..] && Distinct(keys[1..])
  {
    assert keys == [keys[0]] + keys[1..];
    if keys[0] !in keys[1..] && Distinct(keys[1..]) {
      forall i, j | 0 <= i < j < |keys|
        ensures keys[i] != keys[j]
      {
        assert keys[j] == keys[1..][j - 1];
        if i > 0 {
          assert keys[i] == keys[1..][i - 1];
        }
      }
    }
  }

  lemma TwiceIsNotAllowed(es: seq<Event>, id: nat, keys: seq<string>, key: string)
    requires key in keys && KeyTaken(es, id, key)
    ensures !AllowedFrom(es, NotReachedEvents(id, keys))
    decreases |keys|
  {
    var e := NotRun(id, keys[0], NotReached, "");
    assert NotReachedEvents(id, keys)[1..] == NotReachedEvents(id, keys[1..]);
    if keys[0] != key {
      assert keys == [keys[0]] + keys[1..];
      After(es, e);
      TwiceIsNotAllowed(es + [e], id, keys[1..], key);
    }
  }

  lemma FirstUnreached(t: TreeState, es: seq<Event>, id: nat, key: string)
    requires TreeTracks(t, es) && IsOpen(t, id) && key !in t.open[id].value.used
    ensures Allowed(es, NotRun(id, key, NotReached, "")) && Claim(t, id, key).Success?
    ensures TreeTracks(Claim(t, id, key).value, es + [NotRun(id, key, NotReached, "")])
    ensures KeyTaken(es + [NotRun(id, key, NotReached, "")], id, key)
  {
    NotRunIsAllowed(t, es, id, key, NotReached, "");
    NotRunTracks(t, es, id, key, NotReached, "");
    TakenAfter(es, NotRun(id, key, NotReached, ""));
  }

  lemma NotReachedRest(es: seq<Event>, id: nat, keys: seq<string>)
    requires keys != []
    ensures var e := NotRun(id, keys[0], NotReached, "");
      (AllowedFrom(es, NotReachedEvents(id, keys)) <==>
        Allowed(es, e) && AllowedFrom(es + [e], NotReachedEvents(id, keys[1..]))) &&
      es + [e] + NotReachedEvents(id, keys[1..]) == es + NotReachedEvents(id, keys)
  {
    assert NotReachedEvents(id, keys)[1..] == NotReachedEvents(id, keys[1..]);
  }

  /** Reporting the unreached keys is lawful exactly when no key was planned twice. */
  lemma {:induction false} UnreachedStep(t: TreeState, es: seq<Event>, id: nat, keys: seq<string>)
    requires TreeTracks(t, es) && IsOpen(t, id)
    requires forall key :: key in keys ==> key !in t.open[id].value.used
    ensures AllowedFrom(es, NotReachedEvents(id, keys)) <==> Distinct(keys)
    ensures Distinct(keys) ==> TreeTracks(Use(t, id, keys), es + NotReachedEvents(id, keys))
    decreases |keys|
  {
    if keys == [] {
      assert es + [] == es;
      UseNothing(t, id);
    } else {
      var e, rest := NotRun(id, keys[0], NotReached, ""), keys[1..];
      NotReachedRest(es, id, keys);
      FirstUnreached(t, es, id, keys[0]);
      DistinctRest(keys);
      if keys[0] in rest {
        TwiceIsNotAllowed(es + [e], id, rest, keys[0]);
      } else {
        UnreachedStep(Claim(t, id, keys[0]).value, es + [e], id, rest);
        UseFirst(t, id, keys);
      }
    }
  }

  lemma UseNothing(t: TreeState, id: nat)
    requires IsOpen(t, id)
    ensures Use(t, id, []) == t
  {
    var used := t.open[id].value.used;
    var none: seq<string> := [];
    assert used + (set key | key in none) == used;
  }

  lemma UseFirst(t: TreeState, id: nat, keys: seq<string>)
    requires IsOpen(t, id) && keys != [] && Claim(t, id, keys[0]).Success?
    ensures Use(Claim(t, id, keys[0]).value, id, keys[1..]) == Use(t, id, keys)
  {
    assert keys == [keys[0]] + keys[1..];
    var used := t.open[id].value.used;
    assert used + {keys[0]} + (set key | key in keys[1..]) == used + set key | key in keys;
  }

  /** The result, if any, is one for the kind of node. */
  ghost predicate Fits(es: seq<Event>, id: nat, result: Option<NodeResult>) {
    result.Some? ==> forall start :: start in es && Starts(start, id) ==> Accepts(ShapeOf(start.kind), result.value)
  }

  ghost predicate GoodEnding(es: seq<Event>, id: nat, ending: Ending) {
    ending.status != UnspecifiedStatus &&
    (ending.status == Cancelled <==> ending.cancellation != UnspecifiedCause) &&
    (id != ROOT ==> ending.exitCode == 0) &&
    Fits(es, id, ending.result)
  }

  lemma FinishedIsAllowed(t: TreeState, es: seq<Event>, id: nat, ending: Ending)
    requires TreeTracks(t, es) && IsOpen(t, id) && t.open[id].value.children == 0
    requires forall key :: key in t.open[id].value.planned ==> key in t.open[id].value.used
    ensures Allowed(es, FinishedEvent(id, ending)) <==> GoodEnding(es, id, ending)
  {
    OpenMeansRunning(t, es, id);
    ChildrenRun(t, es, id);
    assert ValidNode(t, id) && Children(t, id) == {};
    assert NodeTracks(t.open[id].value, es, id);
    assert (forall start :: start in es && Starts(start, id) ==> Answers(es, start, FinishedEvent(id, ending)))
      <==> Fits(es, id, ending.result);
  }

  lemma FinishedTracks(t: TreeState, es: seq<Event>, id: nat, ending: Ending)
    requires TreeTracks(t, es) && IsOpen(t, id) && t.open[id].value.children == 0
    requires Allowed(es, FinishedEvent(id, ending))
    ensures TreeTracks(CloseNode(t, id), es + [FinishedEvent(id, ending)])
  {
    var u, e := CloseNode(t, id), FinishedEvent(id, ending);
    CloseKeepsValid(t, id);
    ClosedStaysOpen(t, id);
    RootedAfter(es, e);
    After(es, e);
    forall x: nat | IsOpen(u, x)
      ensures NodeTracks(u.open[x].value, es + [e], x)
    {
      assert NodeTracks(t.open[x].value, es, x);
    }
  }

  lemma ClosedForgetsUse(t: TreeState, id: nat, keys: seq<string>)
    requires ValidTree(t) && IsOpen(t, id)
    ensures CloseNode(Use(t, id, keys), id) == CloseNode(t, id)
  {
    assert ValidNode(t, id);
    assert Use(t, id, keys).open[id := None] == t.open[id := None];
  }

  lemma {:induction false} SilentStarts(es: seq<Event>, id: nat, keys: seq<string>)
    ensures forall e: Event :: e.NodeStarted? ==> (e in es + NotReachedEvents(id, keys) <==> e in es)
    decreases |keys|
  {
    if keys == [] {
      assert es + [] == es;
    } else {
      var e := NotRun(id, keys[0], NotReached, "");
      SilentStarts(es + [e], id, keys[1..]);
      assert es + [e] + NotReachedEvents(id, keys[1..]) == es + NotReachedEvents(id, keys);
    }
  }

  ghost predicate FinishDuty(t: TreeState, es: seq<Event>, id: nat, ending: Ending)
    requires IsOpen(t, id)
  {
    Distinct(Unreached(t.open[id].value.planned, t.open[id].value.used)) && GoodEnding(es, id, ending)
  }

  lemma FinishStep(t: TreeState, es: seq<Event>, id: nat, ending: Ending)
    requires TreeTracks(t, es) && FinishNode(t, id, ending).result.Success?
    ensures var d := FinishNode(t, id, ending);
      (AllowedFrom(es, d.events) <==> FinishDuty(t, es, id, ending)) &&
      (AllowedFrom(es, d.events) ==> TreeTracks(d.state, es + d.events))
  {
    var o := t.open[id].value;
    var keys := Unreached(o.planned, o.used);
    var reports, e := NotReachedEvents(id, keys), FinishedEvent(id, ending);
    UnreachedMeans(o.planned, o.used);
    UnreachedStep(t, es, id, keys);
    AllowedJoins(es, reports, [e]);
    AllowedOne(es + reports, e);
    if Distinct(keys) {
      var u := Use(t, id, keys);
      FinishedIsAllowed(u, es + reports, id, ending);
      SilentStarts(es, id, keys);
      if Allowed(es + reports, e) {
        FinishedTracks(u, es + reports, id, ending);
        ClosedForgetsUse(t, id, keys);
        assert es + reports + [e] == es + (reports + [e]);
      }
    }
  }

  // ---------------------------------------------------------------------------
  // Abandoning

  ghost predicate Orderly(t: TreeState, id: nat)
    requires IsOpen(t, id)
  {
    Distinct(Unreached(t.open[id].value.planned, t.open[id].value.used))
  }

  predicate GoodCause(cause: Option<Cancellation>) { cause != Some(UnspecifiedCause) }

  lemma AbandonedIsGood(es: seq<Event>, id: nat, cause: Option<Cancellation>)
    ensures GoodEnding(es, id, Abandoned(cause)) <==> GoodCause(cause)
  {}

  lemma ClosedStaysOrderly(t: TreeState, id: nat, x: nat)
    requires ValidTree(t) && IsOpen(t, id) && IsOpen(t, x) && x != id
    ensures IsOpen(CloseNode(t, id), x) && (Orderly(t, x) <==> Orderly(CloseNode(t, id), x))
  {}

  ghost predicate AllOrderly(t: TreeState, ids: seq<nat>) { forall x: nat :: x in ids && IsOpen(t, x) ==> Orderly(t, x) }

  lemma OrderlyRest(t: TreeState, ids: seq<nat>)
    requires ValidTree(t) && Closable(t, ids) && ids != []
    ensures AllOrderly(t, ids) <==> Orderly(t, ids[0]) && AllOrderly(CloseNode(t, ids[0]), ids[1..])
  {
    var u := CloseNode(t, ids[0]);
    InRest(ids);
    forall x: nat | x in ids[1..]
      ensures IsOpen(t, x) && IsOpen(u, x) && (Orderly(t, x) <==> Orderly(u, x))
    {
      ClosedStaysOrderly(t, ids[0], x);
    }
  }

  lemma FirstOfAll(t: TreeState, es: seq<Event>, ids: seq<nat>, cause: Option<Cancellation>)
    requires TreeTracks(t, es) && Closable(t, ids) && ids != []
    ensures IsOpen(t, ids[0]) && t.open[ids[0]].value.children == 0
    ensures var d := FinishNode(t, ids[0], Abandoned(cause));
      d.result.Success? && d.state == CloseNode(t, ids[0]) && Closable(d.state, ids[1..]) &&
      (AllowedFrom(es, d.events) <==> GoodCause(cause) && Orderly(t, ids[0])) &&
      (AllowedFrom(es, d.events) ==> TreeTracks(d.state, es + d.events))
  {
    RestClosable(t, ids);
    FinishStep(t, es, ids[0], Abandoned(cause));
    AbandonedIsGood(es, ids[0], cause);
  }

  lemma {:induction false} FinishAllStep(t: TreeState, es: seq<Event>, ids: seq<nat>, cause: Option<Cancellation>)
    requires TreeTracks(t, es) && Closable(t, ids) && ids != []
    ensures var d := FinishAll(t, ids, Abandoned(cause));
      (AllowedFrom(es, d.events) <==> GoodCause(cause) && AllOrderly(t, ids)) &&
      (AllowedFrom(es, d.events) ==> TreeTracks(d.state, es + d.events))
    decreases |ids|
  {
    FirstOfAll(t, es, ids, cause);
    OrderlyRest(t, ids);
    var d := FinishNode(t, ids[0], Abandoned(cause));
    var more := FinishAll(d.state, ids[1..], Abandoned(cause));
    AllowedJoins(es, d.events, more.events);
    assert es + d.events + more.events == es + (d.events + more.events);
    if ids[1..] == [] {
      assert d.events + more.events == d.events;
    } else if AllowedFrom(es, d.events) {
      FinishAllStep(d.state, es + d.events, ids[1..], cause);
    }
  }

  lemma AbandonStep(t: TreeState, es: seq<Event>, id: nat, cause: Option<Cancellation>)
    requires TreeTracks(t, es) && Abandon(t, id, cause).result.Success?
    ensures var d := Abandon(t, id, cause);
      (AllowedFrom(es, d.events) <==> AbandonDuty(t, id, cause)) &&
      (AllowedFrom(es, d.events) ==> TreeTracks(d.state, es + d.events))
  {
    SubtreeIsClosable(t, id);
    SubtreeHas(t, id, |t.open|);
    FinishAllStep(t, es, Subtree(t, id, |t.open|), cause);
    assert AllOrderly(t, Subtree(t, id, |t.open|)) <==>
           forall x: nat :: IsOpen(t, x) && DescendsFrom(t, x, id) ==> Orderly(t, x);
  }

  ghost predicate AbandonDuty(t: TreeState, id: nat, cause: Option<Cancellation>) {
    GoodCause(cause) && forall x: nat :: IsOpen(t, x) && DescendsFrom(t, x, id) ==> Orderly(t, x)
  }

  // ---------------------------------------------------------------------------
  // Any operation

  datatype Op =
    | StartOp(parent: nat, start: Start)
    | NotRunOp(parent: nat, key: string, reason: Reason)
    | BlockedOp(parent: nat, key: string, blocker: string)
    | ProgressOp(id: nat, progress: Progress)
    | WarnOp(id: nat, finding: Finding)
    | FinishOp(id: nat, ending: Ending)
    | AbandonOp(id: nat, cause: Option<Cancellation>)
    | DropOp(cause: Option<Cancellation>)

  datatype Outcome = Outcome(state: TreeState, events: seq<Event>, accepted: bool)

  function Of<T>(d: Done<T>): Outcome { Outcome(d.state, d.events, d.result.Success?) }

  function Effect(t: TreeState, op: Op): Outcome
    requires ValidTree(t)
  {
    match op
    case StartOp(parent, start) => Of(StartNode(t, parent, start))
    case NotRunOp(parent, key, reason) => Of(ReportNotRun(t, parent, key, reason, ""))
    case BlockedOp(parent, key, blocker) => Of(ReportNotRun(t, parent, key, Blocked, blocker))
    case ProgressOp(id, progress) => Of(ReportProgress(t, id, progress))
    case WarnOp(id, finding) => Of(Warn(t, id, finding))
    case FinishOp(id, ending) => Of(FinishNode(t, id, ending))
    case AbandonOp(id, cause) => Of(Abandon(t, id, cause))
    case DropOp(cause) => Of(Drop(t, cause))
  }

  /** What the tree leaves to its caller. */
  ghost predicate Duty(t: TreeState, es: seq<Event>, op: Op)
    requires ValidTree(t) && Effect(t, op).accepted
  {
    match op
    case StartOp(parent, start) => start.kind.Rollback? ==> FinishedStep(es, start.kind.undoes, parent)
    case NotRunOp(_, _, reason) => reason != UnspecifiedReason && reason != Blocked
    case BlockedOp(_, _, blocker) => blocker != ""
    case ProgressOp(_, _) => true
    case WarnOp(_, _) => true
    case FinishOp(id, ending) => FinishDuty(t, es, id, ending)
    case AbandonOp(id, cause) => AbandonDuty(t, id, cause)
    case DropOp(cause) => IsOpen(t, ROOT) ==> AbandonDuty(t, ROOT, cause)
  }

  /** An operation that is refused emits nothing and changes nothing. */
  lemma RefusedDoesNothing(t: TreeState, op: Op)
    requires ValidTree(t) && !Effect(t, op).accepted
    ensures Effect(t, op).state == t && Effect(t, op).events == []
  {
    if op.AbandonOp? {
      AbandonSucceeds(t, op.id, op.cause);
    } else if op.DropOp? {
      AbandonSucceeds(t, ROOT, op.cause);
    }
  }

  /** The invariant of the tree holds after every operation, whatever the caller does. */
  lemma EffectKeepsValid(t: TreeState, op: Op)
    requires ValidTree(t)
    ensures ValidTree(Effect(t, op).state)
  {
    if Effect(t, op).accepted {
      match op
      case StartOp(parent, start) =>
        ClaimKeepsValid(t, parent, start.key);
        OpenKeepsValid(Claim(t, parent, start.key).value, parent, start);
      case NotRunOp(parent, key, _) => ClaimKeepsValid(t, parent, key);
      case BlockedOp(parent, key, _) => ClaimKeepsValid(t, parent, key);
      case ProgressOp(id, progress) => EditKeepsValid(t, id, Changed(t.open[id].value, progress).0);
      case WarnOp(_, _) =>
      case FinishOp(id, _) => CloseKeepsValid(t, id);
      case AbandonOp(id, cause) => AbandonSucceeds(t, id, cause);
      case DropOp(cause) => AbandonSucceeds(t, ROOT, cause);
    } else {
      RefusedDoesNothing(t, op);
    }
  }

  /** An operation keeps to the protocol exactly when it is refused or its caller has done its duty. */
  lemma OpStep(t: TreeState, es: seq<Event>, op: Op)
    requires TreeTracks(t, es)
    ensures var d := Effect(t, op);
      (AllowedFrom(es, d.events) <==> (d.accepted ==> Duty(t, es, op))) &&
      (AllowedFrom(es, d.events) ==> TreeTracks(d.state, es + d.events))
  {
    if Effect(t, op).accepted {
      match op
      case StartOp(parent, start) =>
        StartIsAllowed(t, es, parent, start);
        if AllowedFrom(es, StartNode(t, parent, start).events) {
          StartTracks(t, es, parent, start);
        }
      case NotRunOp(parent, key, reason) => ReportStep(t, es, parent, key, reason, "");
      case BlockedOp(parent, key, blocker) => ReportStep(t, es, parent, key, Blocked, blocker);
      case ProgressOp(id, progress) => ProgressStep(t, es, id, progress);
      case WarnOp(id, finding) => WarnStep(t, es, id, finding);
      case FinishOp(id, ending) => FinishStep(t, es, id, ending);
      case AbandonOp(id, cause) => AbandonStep(t, es, id, cause);
      case DropOp(cause) => DropStep(t, es, cause);
    } else {
      RefusedDoesNothing(t, op);
      assert es + [] == es;
    }
  }

  lemma ReportStep(t: TreeState, es: seq<Event>, parent: nat, key: string, reason: Reason, blocker: string)
    requires TreeTracks(t, es) && Claim(t, parent, key).Success?
    ensures var d := ReportNotRun(t, parent, key, reason, blocker);
      (AllowedFrom(es, d.events) <==> reason != UnspecifiedReason && (reason == Blocked <==> blocker != "")) &&
      (AllowedFrom(es, d.events) ==> TreeTracks(d.state, es + d.events))
  {
    var e := NotRun(parent, key, reason, blocker);
    NotRunIsAllowed(t, es, parent, key, reason, blocker);
    AllowedOne(es, e);
    if Allowed(es, e) {
      NotRunTracks(t, es, parent, key, reason, blocker);
    }
  }

  lemma DropStep(t: TreeState, es: seq<Event>, cause: Option<Cancellation>)
    requires TreeTracks(t, es)
    ensures var d := Drop(t, cause);
      (AllowedFrom(es, d.events) <==> (IsOpen(t, ROOT) ==> AbandonDuty(t, ROOT, cause))) &&
      (AllowedFrom(es, d.events) ==> TreeTracks(d.state, es + d.events))
  {
    if IsOpen(t, ROOT) {
      AbandonSucceeds(t, ROOT, cause);
      AbandonStep(t, es, ROOT, cause);
    } else {
      assert es + [] == es;
    }
  }

  // ---------------------------------------------------------------------------
  // Dropping closes everything

  lemma FinishAllGoesOn(t: TreeState, ids: seq<nat>, ending: Ending)
    requires ValidTree(t) && Closable(t, ids) && ids != []
    ensures IsOpen(t, ids[0]) && t.open[ids[0]].value.children == 0
    ensures ValidTree(CloseNode(t, ids[0])) && Closable(CloseNode(t, ids[0]), ids[1..])
    ensures FinishAll(t, ids, ending).state == FinishAll(CloseNode(t, ids[0]), ids[1..], ending).state
  {
    RestClosable(t, ids);
  }

  lemma {:induction false} FinishAllCloses(t: TreeState, ids: seq<nat>, ending: Ending, x: nat)
    requires ValidTree(t) && Closable(t, ids)
    ensures IsOpen(FinishAll(t, ids, ending).state, x) <==> IsOpen(t, x) && x !in ids
    decreases |ids|
  {
    if ids != [] {
      FinishAllGoesOn(t, ids, ending);
      ClosesOne(t, ids[0], x);
      var u := CloseNode(t, ids[0]);
      FinishAllCloses(u, ids[1..], ending, x);
      assert x in ids <==> x == ids[0] || x in ids[1..];
    }
  }

  lemma ClosesOne(t: TreeState, id: nat, x: nat)
    requires ValidTree(t) && IsOpen(t, id)
    ensures IsOpen(CloseNode(t, id), x) <==> IsOpen(t, x) && x != id
  {}

  /** Abandoning closes exactly the open nodes of the subtree. */
  lemma AbandonCloses(t: TreeState, id: nat, cause: Option<Cancellation>)
    requires ValidTree(t)
    ensures forall x: nat :: IsOpen(Abandon(t, id, cause).state, x) <==> IsOpen(t, x) && !DescendsFrom(t, x, id)
  {
    var ids := Subtree(t, id, |t.open|);
    SubtreeIsClosable(t, id);
    SubtreeHas(t, id, |t.open|);
    forall x: nat
      ensures IsOpen(FinishAll(t, ids, Abandoned(cause)).state, x) <==> IsOpen(t, x) && x !in ids
    {
      FinishAllCloses(t, ids, Abandoned(cause), x);
    }
  }

  /** After the drop no node is open. */
  lemma DropClosesAll(t: TreeState, cause: Option<Cancellation>, x: nat)
    requires ValidTree(t)
    ensures !IsOpen(Drop(t, cause).state, x)
  {
    EffectKeepsValid(t, DropOp(cause));
    var u := Drop(t, cause).state;
    if IsOpen(u, x) {
      RootClosesLast(u, x);
      if IsOpen(t, ROOT) {
        AbandonCloses(t, ROOT, cause);
        assert DescendsFrom(t, ROOT, ROOT);
        assert false;
      }
    }
  }
}
