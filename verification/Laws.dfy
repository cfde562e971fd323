/**
 Which streams of events are lawful, said of the events alone, and the proof that the checker of
 crates/events/src/validate.rs accepts exactly these.
 */
module Laws {
  import opened Wrappers
  import opened Events
  import opened Validate

  // ---------------------------------------------------------------------------
  // What has happened

  predicate Starts(e: Event, id: nat) { e.NodeStarted? && e.id == id }

  predicate StartsUnder(e: Event, id: nat, parent: nat) { Starts(e, id) && e.parent == parent }

  predicate StartsStep(e: Event, id: nat, parent: nat) { StartsUnder(e, id, parent) && e.kind.Step? }

  predicate Finishes(e: Event, id: nat) { e.NodeFinished? && e.id == id }

  predicate Takes(e: Event, parent: nat, key: string) {
    (e.NodeStarted? && e.parent == parent && e.key == key) || (e.NotRun? && e.parent == parent && e.key == key)
  }

  ghost predicate HasStarted(es: seq<Event>, id: nat) { exists e :: e in es && Starts(e, id) }

  ghost predicate HasFinished(es: seq<Event>, id: nat) { exists e :: e in es && Finishes(e, id) }

  ghost predicate Runs(es: seq<Event>, id: nat) { HasStarted(es, id) && !HasFinished(es, id) }

  ghost predicate KeyTaken(es: seq<Event>, parent: nat, key: string) { exists e :: e in es && Takes(e, parent, key) }

  ghost predicate StartedUnder(es: seq<Event>, id: nat, parent: nat) { exists e :: e in es && StartsUnder(e, id, parent) }

  ghost predicate ChildRuns(es: seq<Event>, parent: nat, child: nat) {
    StartedUnder(es, child, parent) && !HasFinished(es, child)
  }

  ghost predicate FinishedStep(es: seq<Event>, id: nat, parent: nat) {
    HasFinished(es, id) && exists e :: e in es && StartsStep(e, id, parent)
  }

  // ---------------------------------------------------------------------------
  // The law of each event

  ghost predicate LawfulStart(es: seq<Event>, e: Event)
    requires e.NodeStarted?
  {
    if es == [] then IsRootStart(e)
    else
      e.id != 0 && !HasStarted(es, e.id) && Runs(es, e.parent) && !KeyTaken(es, e.parent, e.key) &&
      (e.kind.Rollback? ==> FinishedStep(es, e.kind.undoes, e.parent))
  }

  /** What the start of a node asks of its finish: its planned keys and the kind of its result. */
  ghost predicate Answers(es: seq<Event>, start: Event, e: Event)
    requires start.NodeStarted? && e.NodeFinished?
  {
    (forall key :: key in start.planned ==> KeyTaken(es, e.id, key)) &&
    (e.result.Some? ==> Accepts(ShapeOf(start.kind), e.result.value))
  }

  ghost predicate LawfulFinish(es: seq<Event>, e: Event)
    requires e.NodeFinished?
  {
    Runs(es, e.id) &&
    (forall child :: !ChildRuns(es, e.id, child)) &&
    (forall start :: start in es && Starts(start, e.id) ==> Answers(es, start, e)) &&
    e.status != UnspecifiedStatus &&
    (e.status == Cancelled <==> e.cancellation != UnspecifiedCause) &&
    (e.id != ROOT ==> e.exitCode == 0)
  }

  /** `e` may come after the events `es`. */
  ghost predicate Lawful(es: seq<Event>, e: Event) {
    match e
    case NodeStarted(_, _, _, _, _, _) => LawfulStart(es, e)
    case NodeFinished(_, _, _, _, _, _) => LawfulFinish(es, e)
    case NotRun(parent, key, reason, blockedBy) =>
      Runs(es, parent) && !KeyTaken(es, parent, key) &&
      reason != UnspecifiedReason && (reason == Blocked <==> blockedBy != "")
    case NodeProgress(id, _) => Runs(es, id)
    case Diagnostic(found) => Runs(es, found.node)
  }

  ghost predicate LawfulHere(es: seq<Event>, i: nat)
    requires i < |es|
  {
    Lawful(es[..i], es[i])
  }

  ghost predicate LawfulEvents(es: seq<Event>) {
    forall i :: 0 <= i < |es| ==> LawfulHere(es, i)
  }

  function EventsOf(envelopes: seq<Envelope>): seq<Event> {
    if envelopes == [] then []
    else
      var n := |envelopes| - 1;
      EventsOf(envelopes[..n]) + if envelopes[n].event.Some? then [envelopes[n].event.value] else []
  }

  /** Envelope `i` is numbered in turn, of the same request, lawful, and not after the root's end. */
  ghost predicate LawfulAt(envelopes: seq<Envelope>, i: nat)
    requires i < |envelopes|
  {
    var e, before := envelopes[i], EventsOf(envelopes[..i]);
    e.number == i + 1 && e.request == envelopes[0].request &&
    !HasFinished(before, ROOT) &&
    (e.event.Some? ==> Lawful(before, e.event.value))
  }

  ghost predicate LawfulStream(envelopes: seq<Envelope>) {
    (forall i :: 0 <= i < |envelopes| ==> LawfulAt(envelopes, i)) &&
    HasFinished(EventsOf(envelopes), ROOT)
  }

  // ---------------------------------------------------------------------------
  // What the checker remembers is what has happened

  ghost predicate Remembers(r: Record, es: seq<Event>, id: nat) {
    (r.finished <==> HasFinished(es, id)) &&
    (forall key :: key in r.keys <==> KeyTaken(es, id, key)) &&
    (forall child :: child in r.openChildren <==> ChildRuns(es, id, child)) &&
    (forall e :: e in es && Starts(e, id) ==>
       r.parent == e.parent && r.shape == ShapeOf(e.kind) && r.planned == e.planned)
  }

  /** Events only name nodes that have started, the root first of all. */
  ghost predicate Rooted(es: seq<Event>) {
    !HasStarted(es, 0) &&
    (es != [] ==> HasStarted(es, ROOT)) &&
    (forall e :: e in es ==> NamesStarted(es, e))
  }

  ghost predicate NamesStarted(es: seq<Event>, e: Event) {
    match e
    case NodeStarted(id, parent, _, _, _, _) =>
      HasStarted(es, id) && if id == ROOT then parent == 0 else HasStarted(es, parent)
    case NodeFinished(id, _, _, _, _, _) => HasStarted(es, id)
    case NotRun(parent, _, _, _) => HasStarted(es, parent)
    case NodeProgress(id, _) => HasStarted(es, id)
    case Diagnostic(found) => HasStarted(es, found.node)
  }

  ghost predicate NodesTrack(nodes: map<nat, Record>, es: seq<Event>) {
    (forall id :: id in nodes <==> HasStarted(es, id)) &&
    (forall id :: id in nodes ==> Remembers(nodes[id], es, id))
  }

  ghost predicate Tracks(s: State, es: seq<Event>) {
    ValidState(s) && NodesTrack(s.nodes, es) && Rooted(es) && (s.rootFinished <==> HasFinished(es, ROOT))
  }

  lemma InAppended(es: seq<Event>, e: Event)
    ensures forall x :: x in es + [e] <==> x in es || x == e
  {}

  lemma StartedAfter(es: seq<Event>, e: Event)
    ensures forall id :: HasStarted(es + [e], id) <==> HasStarted(es, id) || Starts(e, id)
    ensures forall id :: HasFinished(es + [e], id) <==> HasFinished(es, id) || Finishes(e, id)
  {
    InAppended(es, e);
    assert e in es + [e];
    forall id
      ensures HasStarted(es + [e], id) <==> HasStarted(es, id) || Starts(e, id)
      ensures HasFinished(es + [e], id) <==> HasFinished(es, id) || Finishes(e, id)
    {
      if HasStarted(es, id) {
        var x :| x in es && Starts(x, id);
        assert x in es + [e];
      }
      if HasFinished(es, id) {
        var x :| x in es && Finishes(x, id);
        assert x in es + [e];
      }
    }
  }

  lemma TakenAfter(es: seq<Event>, e: Event)
    ensures forall id, key :: KeyTaken(es + [e], id, key) <==> KeyTaken(es, id, key) || Takes(e, id, key)
  {
    InAppended(es, e);
    assert e in es + [e];
    forall id, key
      ensures KeyTaken(es + [e], id, key) <==> KeyTaken(es, id, key) || Takes(e, id, key)
    {
      if KeyTaken(es, id, key) {
        var x :| x in es && Takes(x, id, key);
        assert x in es + [e];
      }
    }
  }

  lemma StartedUnderAfter(es: seq<Event>, e: Event)
    ensures forall id, parent :: StartedUnder(es + [e], id, parent) <==> StartedUnder(es, id, parent) || StartsUnder(e, id, parent)
  {
    InAppended(es, e);
    assert e in es + [e];
    forall id, parent
      ensures StartedUnder(es + [e], id, parent) <==> StartedUnder(es, id, parent) || StartsUnder(e, id, parent)
    {
      if StartedUnder(es, id, parent) {
        var x :| x in es && StartsUnder(x, id, parent);
        assert x in es + [e];
      }
    }
  }

  lemma After(es: seq<Event>, e: Event)
    ensures forall id :: HasStarted(es + [e], id) <==> HasStarted(es, id) || Starts(e, id)
    ensures forall id :: HasFinished(es + [e], id) <==> HasFinished(es, id) || Finishes(e, id)
    ensures forall id, key :: KeyTaken(es + [e], id, key) <==> KeyTaken(es, id, key) || Takes(e, id, key)
    ensures forall id, parent :: StartedUnder(es + [e], id, parent) <==> StartedUnder(es, id, parent) || StartsUnder(e, id, parent)
    ensures forall x :: x in es + [e] <==> x in es || x == e
  {
    StartedAfter(es, e);
    TakenAfter(es, e);
    StartedUnderAfter(es, e);
    InAppended(es, e);
  }

  // ---------------------------------------------------------------------------
  // One event

  /** The checker's answer to an event, with its special case for the first one. */
  ghost function Handle(s: State, e: Event): Stepped
    requires ValidState(s)
  {
    if |s.nodes| == 0 && !IsRootStart(e) then Stepped(s, Some(FirstNotRoot(s.nextSeq))) else OnEvent(s, e)
  }

  lemma FinishedSiblings(nodes: map<nat, Record>, es: seq<Event>, undoes: nat, parent: nat)
    requires NodesTrack(nodes, es)
    ensures IsFinishedSibling(nodes, undoes, parent) <==> FinishedStep(es, undoes, parent)
  {
    if IsFinishedSibling(nodes, undoes, parent) {
      assert HasStarted(es, undoes) && Remembers(nodes[undoes], es, undoes);
      var e :| e in es && Starts(e, undoes);
      assert StartsStep(e, undoes, parent);
    }
    if FinishedStep(es, undoes, parent) {
      var e :| e in es && StartsStep(e, undoes, parent);
      assert Starts(e, undoes);
      assert undoes in nodes && Remembers(nodes[undoes], es, undoes);
    }
  }

  lemma {:induction false} MissingMeans(planned: seq<string>, keys: set<string>)
    ensures FirstMissing(planned, keys) == None <==> forall key :: key in planned ==> key in keys
  {
    if planned != [] {
      MissingMeans(planned[1..], keys);
      assert planned == [planned[0]] + planned[1..];
    }
  }

  lemma FinishIsLawful(s: State, es: seq<Event>, e: Event)
    requires Tracks(s, es) && e.NodeFinished?
    ensures Finished(s, e).violation == None <==> LawfulFinish(es, e)
  {
    if e.id in s.nodes {
      var r := s.nodes[e.id];
      assert Remembers(r, es, e.id);
      MissingMeans(r.planned, r.keys);
      assert r.openChildren == {} <==> forall child :: !ChildRuns(es, e.id, child);
      AnswersMean(r, es, e);
    }
  }

  lemma AnswersMean(r: Record, es: seq<Event>, e: Event)
    requires e.NodeFinished? && Remembers(r, es, e.id) && HasStarted(es, e.id)
    ensures (forall start :: start in es && Starts(start, e.id) ==> Answers(es, start, e)) <==>
            (forall key :: key in r.planned ==> key in r.keys) && (e.result.Some? ==> Accepts(r.shape, e.result.value))
  {
    var start :| start in es && Starts(start, e.id);
    forall x | x in es && Starts(x, e.id)
      ensures Answers(es, x, e) <==> Answers(es, start, e)
    {
      assert x.planned == r.planned == start.planned && ShapeOf(x.kind) == r.shape == ShapeOf(start.kind);
    }
    assert Answers(es, start, e) <==>
           (forall key :: key in r.planned ==> key in r.keys) && (e.result.Some? ==> Accepts(r.shape, e.result.value));
  }

  lemma NodesBegin(s: State, es: seq<Event>)
    requires Tracks(s, es)
    ensures |s.nodes| == 0 <==> es == []
  {
    if es == [] {
      assert s.nodes == map[];
    } else {
      assert ROOT in s.nodes;
    }
  }

  lemma AdoptKeepsSiblings(s: State, e: Event)
    requires e.NodeStarted? && e.parent in s.nodes && e.kind.Rollback?
    ensures IsFinishedSibling(Adopt(s, e).nodes, e.kind.undoes, e.parent)
       <==> IsFinishedSibling(s.nodes, e.kind.undoes, e.parent)
  {}

  lemma StartIsLawful(s: State, es: seq<Event>, e: Event)
    requires Tracks(s, es) && e.NodeStarted?
    ensures Handle(s, e).violation == None <==> LawfulStart(es, e)
  {
    NodesBegin(s, es);
    if es != [] && e.parent in s.nodes {
      assert Remembers(s.nodes[e.parent], es, e.parent);
      if e.kind.Rollback? {
        FinishedSiblings(s.nodes, es, e.kind.undoes, e.parent);
        AdoptKeepsSiblings(s, e);
      }
    }
  }

  lemma HandleIsLawful(s: State, es: seq<Event>, e: Event)
    requires Tracks(s, es)
    ensures Handle(s, e).violation == None <==> Lawful(es, e)
  {
    NodesBegin(s, es);
    match e
    case NodeStarted(_, _, _, _, _, _) => StartIsLawful(s, es, e);
    case NodeFinished(_, _, _, _, _, _) => FinishIsLawful(s, es, e);
    case NotRun(parent, _, _, _) =>
      if parent in s.nodes {
        assert Remembers(s.nodes[parent], es, parent);
      }
    case NodeProgress(id, _) =>
      if id in s.nodes {
        assert Remembers(s.nodes[id], es, id);
      }
    case Diagnostic(found) =>
      if found.node in s.nodes {
        assert Remembers(s.nodes[found.node], es, found.node);
      }
  }

  lemma RootedAfter(es: seq<Event>, e: Event)
    requires Rooted(es) && Lawful(es, e)
    ensures Rooted(es + [e])
  {
    After(es, e);
    forall x | x in es + [e]
      ensures NamesStarted(es + [e], x)
    {
      if x in es {
        assert NamesStarted(es, x);
      }
    }
  }

  /** Nothing is known of a node before it starts. */
  lemma NothingBeforeStart(es: seq<Event>, id: nat)
    requires Rooted(es) && !HasStarted(es, id) && id != 0
    ensures !HasFinished(es, id)
    ensures forall key :: !KeyTaken(es, id, key)
    ensures forall child :: !StartedUnder(es, child, id)
  {
    forall e | e in es
      ensures !Finishes(e, id) && (forall key :: !Takes(e, id, key)) && (forall child :: !StartsUnder(e, child, id))
    {
      assert NamesStarted(es, e);
    }
  }

  lemma NewRecordRemembers(es: seq<Event>, e: Event, entry: nat)
    requires Rooted(es) && e.NodeStarted? && !HasStarted(es, e.id) && e.id != 0 && e.parent != e.id
    ensures Remembers(NewRecord(e, entry), es + [e], e.id)
  {
    After(es, e);
    NothingBeforeStart(es, e.id);
  }

  lemma OldRecordRemembers(r: Record, es: seq<Event>, e: Event, id: nat)
    requires Remembers(r, es, id) && !Starts(e, id) && !Finishes(e, id)
    requires forall key :: !Takes(e, id, key)
    requires e.NodeFinished? ==> !ChildRuns(es, id, e.id)
    ensures Remembers(r, es + [e], id)
  {
    After(es, e);
    forall child
      ensures ChildRuns(es + [e], id, child) <==> ChildRuns(es, id, child)
    {
      if StartsUnder(e, child, id) {
        assert Takes(e, id, e.key);
      }
    }
  }

  lemma ParentRemembers(r: Record, es: seq<Event>, e: Event)
    requires e.NodeStarted? && Remembers(r, es, e.parent) && e.parent != e.id && !HasFinished(es, e.id)
    ensures Remembers(r.(keys := r.keys + {e.key}, openChildren := r.openChildren + {e.id}), es + [e], e.parent)
  {
    After(es, e);
  }

  /** The nodes once the parent of a new node knows of it. */
  function Adopted(nodes: map<nat, Record>, e: Event): map<nat, Record>
    requires e.NodeStarted?
  {
    if e.parent !in nodes then nodes
    else
      var p := nodes[e.parent];
      nodes[e.parent := p.(keys := p.keys + {e.key}, openChildren := p.openChildren + {e.id})]
  }

  lemma AdoptedRemembers(nodes: map<nat, Record>, es: seq<Event>, e: Event, id: nat)
    requires NodesTrack(nodes, es) && Rooted(es) && e.NodeStarted? && LawfulStart(es, e) && id in nodes
    ensures Remembers(Adopted(nodes, e)[id], es + [e], id)
  {
    NothingBeforeStart(es, e.id);
    if id == e.parent {
      ParentRemembers(nodes[id], es, e);
    } else {
      OldRecordRemembers(nodes[id], es, e, id);
    }
  }

  lemma StartIsTracked(nodes: map<nat, Record>, es: seq<Event>, e: Event, entry: nat)
    requires NodesTrack(nodes, es) && Rooted(es) && e.NodeStarted? && LawfulStart(es, e)
    ensures NodesTrack(Adopted(nodes, e)[e.id := NewRecord(e, entry)], es + [e])
  {
    StartAddsNode(nodes, es, e, entry);
    var t := Adopted(nodes, e)[e.id := NewRecord(e, entry)];
    forall id | id in t
      ensures Remembers(t[id], es + [e], id)
    {
      StartedRecord(nodes, es, e, entry, id);
    }
  }

  lemma StartAddsNode(nodes: map<nat, Record>, es: seq<Event>, e: Event, entry: nat)
    requires (forall id :: id in nodes <==> HasStarted(es, id)) && e.NodeStarted?
    ensures forall id :: id in Adopted(nodes, e)[e.id := NewRecord(e, entry)] <==> HasStarted(es + [e], id)
  {
    StartedAfter(es, e);
    assert Adopted(nodes, e).Keys == nodes.Keys;
  }

  lemma StartedRecord(nodes: map<nat, Record>, es: seq<Event>, e: Event, entry: nat, id: nat)
    requires NodesTrack(nodes, es) && Rooted(es) && e.NodeStarted? && LawfulStart(es, e)
    requires id in nodes || id == e.id
    ensures Remembers(Adopted(nodes, e)[e.id := NewRecord(e, entry)][id], es + [e], id)
  {
    if id == e.id {
      NewRecordRemembers(es, e, entry);
    } else {
      AdoptedRemembers(nodes, es, e, id);
    }
  }

  /** What remains of a record when `e` finishes its node or, `r` being the record of `e`, one of its children. */
  function AfterFinish(mine: Record, id: nat, r: Record, e: Event): Record
    requires e.NodeFinished?
  {
    mine.(finished := mine.finished || id == e.id,
          openChildren := if id == r.parent then mine.openChildren - {e.id} else mine.openChildren)
  }

  lemma FinishRemembers(mine: Record, r: Record, es: seq<Event>, e: Event, id: nat)
    requires e.NodeFinished? && Remembers(mine, es, id) && Remembers(r, es, e.id)
    ensures Remembers(AfterFinish(mine, id, r, e), es + [e], id)
  {
    After(es, e);
    if ChildRuns(es, id, e.id) {
      var start :| start in es && StartsUnder(start, e.id, id);
      assert Starts(start, e.id);
    }
  }

  lemma ClosedRecord(s: State, e: Event, id: nat)
    requires ValidState(s) && e.NodeFinished? && e.id in s.nodes && id in s.nodes
    ensures Close(s, e.id, e.status).nodes[id] == AfterFinish(s.nodes[id], id, s.nodes[e.id], e)
  {}

  lemma FinishIsTracked(s: State, es: seq<Event>, e: Event)
    requires Tracks(s, es) && e.NodeFinished? && e.id in s.nodes
    ensures NodesTrack(Close(s, e.id, e.status).nodes, es + [e])
  {
    After(es, e);
    var t, r := Close(s, e.id, e.status).nodes, s.nodes[e.id];
    assert t.Keys == s.nodes.Keys;
    forall id | id in t
      ensures Remembers(t[id], es + [e], id)
    {
      FinishRemembers(s.nodes[id], r, es, e, id);
      ClosedRecord(s, e, id);
    }
  }

  lemma ReportIsTracked(nodes: map<nat, Record>, es: seq<Event>, e: Event)
    requires NodesTrack(nodes, es) && e.NotRun? && e.parent in nodes
    ensures var p := nodes[e.parent]; NodesTrack(nodes[e.parent := p.(keys := p.keys + {e.key})], es + [e])
  {
    After(es, e);
    forall id | id in nodes
      ensures id != e.parent ==> Remembers(nodes[id], es + [e], id)
      ensures id == e.parent ==> Remembers(nodes[id].(keys := nodes[id].keys + {e.key}), es + [e], id)
    {
      if id != e.parent {
        OldRecordRemembers(nodes[id], es, e, id);
      }
    }
  }

  lemma SilentIsTracked(nodes: map<nat, Record>, es: seq<Event>, e: Event)
    requires NodesTrack(nodes, es) && (e.NodeProgress? || e.Diagnostic?)
    ensures NodesTrack(nodes, es + [e])
  {
    After(es, e);
    forall id | id in nodes
      ensures Remembers(nodes[id], es + [e], id)
    {
      OldRecordRemembers(nodes[id], es, e, id);
    }
  }

  lemma StartKeepsTrack(s: State, es: seq<Event>, e: Event)
    requires Tracks(s, es) && e.NodeStarted? && LawfulStart(es, e) && Handle(s, e).violation == None
    ensures Tracks(Handle(s, e).state, es + [e])
  {
    NodesBegin(s, es);
    OnEventStaysValid(s, e);
    RootedAfter(es, e);
    After(es, e);
    StartedNodes(s, e);
    StartIsTracked(s.nodes, es, e, |s.entries|);
  }

  lemma StartedNodes(s: State, e: Event)
    requires ValidState(s) && e.NodeStarted? && Handle(s, e).violation == None && 0 !in s.nodes
    ensures Handle(s, e).state.nodes
         == Adopted(s.nodes, e)[e.id := NewRecord(e, |s.entries|)]
    ensures Handle(s, e).state.rootFinished == s.rootFinished
  {}

  lemma FinishKeepsTrack(s: State, es: seq<Event>, e: Event)
    requires Tracks(s, es) && e.NodeFinished? && LawfulFinish(es, e) && Finished(s, e).violation == None
    ensures Tracks(Finished(s, e).state, es + [e])
  {
    FinishIsTracked(s, es, e);
    FinishedState(s, e);
    OnEventStaysValid(s, e);
    RootedAfter(es, e);
    StartedAfter(es, e);
  }

  lemma FinishedState(s: State, e: Event)
    requires ValidState(s) && e.NodeFinished? && Finished(s, e).violation == None
    ensures e.id in s.nodes && Finished(s, e).state == OnEvent(s, e).state == Close(s, e.id, e.status)
    ensures Finished(s, e).state.rootFinished == (s.rootFinished || e.id == ROOT)
  {}

  lemma ReportKeepsTrack(s: State, es: seq<Event>, e: Event)
    requires Tracks(s, es) && e.NotRun? && Lawful(es, e) && Reported(s, e).violation == None
    ensures Tracks(Reported(s, e).state, es + [e])
  {
    RootedAfter(es, e);
    After(es, e);
    ReportIsTracked(s.nodes, es, e);
  }

  /** The checker accepts an event exactly when it is lawful, and goes on remembering what happened. */
  lemma EventStep(s: State, es: seq<Event>, e: Event)
    requires Tracks(s, es)
    ensures Handle(s, e).violation == None <==> Lawful(es, e)
    ensures Lawful(es, e) ==> Tracks(Handle(s, e).state, es + [e])
  {
    HandleIsLawful(s, es, e);
    if Lawful(es, e) {
      if e.NodeStarted? {
        StartKeepsTrack(s, es, e);
      } else if e.NodeFinished? {
        FinishKeepsTrack(s, es, e);
      } else if e.NotRun? {
        ReportKeepsTrack(s, es, e);
      } else {
        RootedAfter(es, e);
        After(es, e);
        SilentIsTracked(s.nodes, es, e);
      }
    }
  }

  // ---------------------------------------------------------------------------
  // The whole stream

  /** The checker after the first `k` envelopes of a stream. */
  ghost predicate Reached(s: State, envelopes: seq<Envelope>, k: nat)
    requires k <= |envelopes|
  {
    Tracks(s, EventsOf(envelopes[..k])) && s.nextSeq == k + 1 &&
    s.request == if k == 0 then None else Some(envelopes[0].request)
  }

  lemma EnvelopeStep(s: State, envelopes: seq<Envelope>, k: nat)
    requires k < |envelopes| && Reached(s, envelopes, k)
    ensures PushEnvelope(s, envelopes[k]).violation == None <==> LawfulAt(envelopes, k)
    ensures LawfulAt(envelopes, k) ==> Reached(PushEnvelope(s, envelopes[k]).state, envelopes, k + 1)
  {
    var e, es := envelopes[k], EventsOf(envelopes[..k]);
    assert envelopes[..k + 1][..k] == envelopes[..k];
    var t := s.(nextSeq := k + 2, request := Some(e.request));
    assert Tracks(t, es);
    if e.event.Some? {
      EventStep(t, es, e.event.value);
      OnEventKeepsCounting(t, e.event.value);
    } else {
      assert es + [] == es;
    }
  }

  lemma OnEventKeepsCounting(s: State, e: Event)
    requires ValidState(s)
    ensures var t := OnEvent(s, e).state; t.nextSeq == s.nextSeq && t.request == s.request
  {}

  lemma {:induction false} RestOfStream(s: State, envelopes: seq<Envelope>, k: nat)
    requires k <= |envelopes| && Reached(s, envelopes, k)
    ensures var r := Run(s, envelopes[k..]);
      (r.violation == None && r.state.rootFinished) <==>
      (forall i :: k <= i < |envelopes| ==> LawfulAt(envelopes, i)) && HasFinished(EventsOf(envelopes), ROOT)
    decreases |envelopes| - k
  {
    if k == |envelopes| {
      assert envelopes[..k] == envelopes;
    } else {
      assert envelopes[k..][1..] == envelopes[k + 1..] && envelopes[k..][0] == envelopes[k];
      EnvelopeStep(s, envelopes, k);
      if LawfulAt(envelopes, k) {
        RestOfStream(PushEnvelope(s, envelopes[k]).state, envelopes, k + 1);
      }
    }
  }

  lemma NothingHappened()
    ensures Tracks(INITIAL, [])
  {}

  /** `validate` returns Ok exactly for the lawful streams. */
  lemma AcceptsExactlyTheLawful(envelopes: seq<Envelope>)
    ensures Verdicts(envelopes).Valid? <==> LawfulStream(envelopes)
  {
    NothingHappened();
    assert envelopes[..0] == [] && envelopes[0..] == envelopes;
    RestOfStream(INITIAL, envelopes, 0);
  }
}