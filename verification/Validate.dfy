/**
 The checker of a stream of events (crates/events/src/validate.rs) and what it accepts.

 `PushEnvelope` says what one envelope does to the checker, and `Validator` is the object that does it.
 Which streams pass is said, without the checker, in `Laws`.
 */
module Validate {
  import opened Wrappers
  import opened Events

  datatype Violation =
    | SeqGap(expected: nat, found: nat)
    | RequestChanged(number: nat)
    | FirstNotRoot(number: nat)
    | AfterRoot(number: nat)
    | ZeroId
    | DuplicateId(id: nat)
    | UnknownParent(id: nat, parent: nat)
    | ParentFinished(id: nat, parent: nat)
    | UnknownNode(id: nat)
    | FinishedTwice(id: nat)
    | ChildrenOpen(id: nat, child: nat)
    | DuplicateKey(parent: nat, key: string)
    | PlannedMissing(id: nat, key: string)
    | NotOpen(id: nat)
    | RollbackTarget(id: nat, undoes: nat)
    | StatusMissing(id: nat)
    | ReasonMissing(parent: nat, key: string)
    | BlockerMismatch(parent: nat, key: string)
    | CancellationMismatch(id: nat)
    | ResultMismatch(id: nat)
    | ExitCodeOnChild(id: nat)
    | Truncated(open: seq<nat>)

  datatype NodeOutcome = Running | FinishedAs(status: Status) | WasNotRun(reason: Reason)

  datatype Listed = Listed(id: Option<nat>, path: string, outcome: NodeOutcome)

  datatype Shape = CommandShape | StepShape | ProcessShape | InspectionShape | OtherShape

  function ShapeOf(kind: Kind): Shape {
    match kind
    case Command(_) => CommandShape
    case Step => StepShape
    case Process => ProcessShape
    case Inspection => InspectionShape
    case _ => OtherShape
  }

  predicate Accepts(shape: Shape, result: NodeResult) {
    match result
    case ProcessResult(_) => shape == ProcessShape
    case InspectionResult(_) => shape == InspectionShape
    case CommandResult(_) => shape == CommandShape
  }

  datatype Record = Record(parent: nat, entry: nat, shape: Shape, planned: seq<string>,
                           keys: set<string>, openChildren: set<nat>, finished: bool)

  datatype State = State(nextSeq: nat, request: Option<string>, nodes: map<nat, Record>,
                         entries: seq<Listed>, rootFinished: bool)

  const INITIAL := State(1, None, map[], [], false)

  ghost predicate ValidState(s: State) {
    forall id :: id in s.nodes ==> s.nodes[id].entry < |s.entries|
  }

  // ---------------------------------------------------------------------------
  // One envelope

  /** What a step leaves behind and the violation it found, if any. */
  datatype Stepped = Stepped(state: State, violation: Option<Violation>)

  predicate IsRootStart(e: Event) {
    e.NodeStarted? && e.id == ROOT && e.parent == 0 && e.kind.Command?
  }

  predicate IsLeast(m: nat, s: set<nat>) {
    m in s && forall x :: x in s ==> m <= x
  }

  ghost function Least(s: set<nat>): (m: nat)
    requires s != {}
    ensures IsLeast(m, s)
  {
    LeastExists(s);
    var m :| IsLeast(m, s);
    m
  }

  lemma LeastExists(s: set<nat>)
    requires s != {}
    ensures exists m :: IsLeast(m, s)
  {
    var m := FindLeast(s);
  }

  lemma {:induction false} FindLeast(s: set<nat>) returns (m: nat)
    requires s != {}
    ensures IsLeast(m, s)
  {
    var first :| first in s;
    var rest := s - {first};
    assert forall x :: x in s ==> x == first || x in rest;
    m := first;
    if rest != {} {
      var other := FindLeast(rest);
      m := if first <= other then first else other;
    }
  }

  /** The members of a set in increasing order. */
  ghost function Sorted(s: set<nat>): (r: seq<nat>)
    decreases |s|
  {
    if s == {} then [] else [Least(s)] + Sorted(s - {Least(s)})
  }

  lemma {:induction false} SortedIncreases(s: set<nat>)
    ensures forall x :: x in Sorted(s) <==> x in s
    ensures forall i, j :: 0 <= i < j < |Sorted(s)| ==> Sorted(s)[i] < Sorted(s)[j]
    decreases |s|
  {
    if s != {} {
      var m, rest := Least(s), s - {Least(s)};
      SortedIncreases(rest);
      assert Sorted(s) == [m] + Sorted(rest);
      forall i, j | 0 <= i < j < |Sorted(s)|
        ensures Sorted(s)[i] < Sorted(s)[j]
      {
        assert Sorted(s)[j] in Sorted(rest);
      }
    }
  }

  function FirstMissing(planned: seq<string>, keys: set<string>): Option<string> {
    if planned == [] then None
    else if planned[0] !in keys then Some(planned[0])
    else FirstMissing(planned[1..], keys)
  }

  predicate IsFinishedSibling(nodes: map<nat, Record>, undoes: nat, parent: nat) {
    undoes in nodes && nodes[undoes].shape == StepShape && nodes[undoes].finished && nodes[undoes].parent == parent
  }

  function NewRecord(e: Event, entry: nat): Record
    requires e.NodeStarted?
  {
    Record(e.parent, entry, ShapeOf(e.kind), e.planned, {}, {}, false)
  }

  /** A node starts below `parent`, which keeps its key and that it is open. */
  function Adopt(s: State, e: Event): State
    requires e.NodeStarted? && e.parent in s.nodes
  {
    var p := s.nodes[e.parent];
    s.(nodes := s.nodes[e.parent := p.(keys := p.keys + {e.key}, openChildren := p.openChildren + {e.id})])
  }

  function Enter(s: State, e: Event, path: string): Stepped
    requires e.NodeStarted?
  {
    if e.kind.Rollback? && !IsFinishedSibling(s.nodes, e.kind.undoes, e.parent) then
      Stepped(s, Some(RollbackTarget(e.id, e.kind.undoes)))
    else
      Stepped(s.(entries := s.entries + [Listed(Some(e.id), path, Running)],
                 nodes := s.nodes[e.id := NewRecord(e, |s.entries|)]), None)
  }

  ghost function Started(s: State, e: Event): Stepped
    requires e.NodeStarted? && ValidState(s)
  {
    if e.id == 0 then Stepped(s, Some(ZeroId))
    else if e.id in s.nodes then Stepped(s, Some(DuplicateId(e.id)))
    else if e.id == ROOT && e.parent == 0 then Enter(s, e, e.key)
    else if e.parent !in s.nodes then Stepped(s, Some(UnknownParent(e.id, e.parent)))
    else if s.nodes[e.parent].finished then Stepped(s, Some(ParentFinished(e.id, e.parent)))
    else if e.key in s.nodes[e.parent].keys then Stepped(s, Some(DuplicateKey(e.parent, e.key)))
    else Enter(Adopt(s, e), e, s.entries[s.nodes[e.parent].entry].path + "/" + e.key)
  }

  function Close(s: State, id: nat, status: Status): State
    requires id in s.nodes && s.nodes[id].entry < |s.entries|
  {
    var r := s.nodes[id];
    var nodes := s.nodes[id := r.(finished := true)];
    State(s.nextSeq, s.request,
          if r.parent in nodes then
            nodes[r.parent := nodes[r.parent].(openChildren := nodes[r.parent].openChildren - {id})]
          else nodes,
          s.entries[r.entry := s.entries[r.entry].(outcome := FinishedAs(status))],
          s.rootFinished || id == ROOT)
  }

  ghost function Finished(s: State, e: Event): Stepped
    requires e.NodeFinished? && ValidState(s)
  {
    if e.id !in s.nodes then Stepped(s, Some(UnknownNode(e.id)))
    else
      var r := s.nodes[e.id];
      if r.finished then Stepped(s, Some(FinishedTwice(e.id)))
      else if r.openChildren != {} then Stepped(s, Some(ChildrenOpen(e.id, Least(r.openChildren))))
      else if FirstMissing(r.planned, r.keys).Some? then
        Stepped(s, Some(PlannedMissing(e.id, FirstMissing(r.planned, r.keys).value)))
      else if e.status == UnspecifiedStatus then Stepped(s, Some(StatusMissing(e.id)))
      else if (e.status == Cancelled) != (e.cancellation != UnspecifiedCause) then
        Stepped(s, Some(CancellationMismatch(e.id)))
      else if e.result.Some? && !Accepts(r.shape, e.result.value) then Stepped(s, Some(ResultMismatch(e.id)))
      else if e.id != ROOT && e.exitCode != 0 then Stepped(s, Some(ExitCodeOnChild(e.id)))
      else Stepped(Close(s, e.id, e.status), None)
  }

  function Reported(s: State, e: Event): Stepped
    requires e.NotRun?
    requires e.parent in s.nodes ==> s.nodes[e.parent].entry < |s.entries|
  {
    if e.parent !in s.nodes || s.nodes[e.parent].finished then Stepped(s, Some(NotOpen(e.parent)))
    else
      var p := s.nodes[e.parent];
      if e.key in p.keys then Stepped(s, Some(DuplicateKey(e.parent, e.key)))
      else
        var t := s.(nodes := s.nodes[e.parent := p.(keys := p.keys + {e.key})]);
        if e.reason == UnspecifiedReason then Stepped(t, Some(ReasonMissing(e.parent, e.key)))
        else if (e.reason == Blocked) == (e.blockedBy == "") then Stepped(t, Some(BlockerMismatch(e.parent, e.key)))
        else
          Stepped(t.(entries := t.entries + [Listed(None, s.entries[p.entry].path + "/" + e.key, WasNotRun(e.reason))]), None)
  }

  function Opened(s: State, id: nat): Stepped {
    Stepped(s, if id in s.nodes && !s.nodes[id].finished then None else Some(NotOpen(id)))
  }

  ghost function OnEvent(s: State, e: Event): Stepped
    requires ValidState(s)
  {
    match e
    case NodeStarted(_, _, _, _, _, _) => Started(s, e)
    case NodeFinished(_, _, _, _, _, _) => Finished(s, e)
    case NotRun(_, _, _, _) => Reported(s, e)
    case NodeProgress(id, _) => Opened(s, id)
    case Diagnostic(found) => Opened(s, found.node)
  }

  ghost function PushEnvelope(s: State, e: Envelope): Stepped
    requires ValidState(s)
  {
    if e.number != s.nextSeq then Stepped(s, Some(SeqGap(s.nextSeq, e.number)))
    else
      var counted := s.(nextSeq := s.nextSeq + 1);
      if s.request.Some? && s.request.value != e.request then Stepped(counted, Some(RequestChanged(e.number)))
      else
        var t := counted.(request := Some(e.request));
        if s.rootFinished then Stepped(t, Some(AfterRoot(e.number)))
        else if e.event.None? then Stepped(t, None)
        else if |s.nodes| == 0 && !IsRootStart(e.event.value) then Stepped(t, Some(FirstNotRoot(e.number)))
        else OnEvent(t, e.event.value)
  }

  lemma OnEventStaysValid(s: State, e: Event)
    requires ValidState(s)
    ensures ValidState(OnEvent(s, e).state)
  {}

  lemma PushStaysValid(s: State, e: Envelope)
    requires ValidState(s)
    ensures ValidState(PushEnvelope(s, e).state)
  {}

  ghost function Unfinished(s: State): set<nat> {
    set id | id in s.nodes && !s.nodes[id].finished
  }

  /** A whole stream, up to its first violation. */
  ghost function Run(s: State, envelopes: seq<Envelope>): (r: Stepped)
    requires ValidState(s)
    ensures ValidState(r.state)
    decreases |envelopes|
  {
    if envelopes == [] then Stepped(s, None)
    else
      var r := PushEnvelope(s, envelopes[0]);
      PushStaysValid(s, envelopes[0]);
      if r.violation.Some? then r else Run(r.state, envelopes[1..])
  }

  datatype Verdict = Valid(entries: seq<Listed>) | Invalid(violation: Violation)

  /** `validate`: no violation, and the root has finished at the end. */
  ghost function Verdicts(envelopes: seq<Envelope>): Verdict {
    var r := Run(INITIAL, envelopes);
    if r.violation.Some? then Invalid(r.violation.value)
    else if !r.state.rootFinished then Invalid(Truncated(Sorted(Unfinished(r.state))))
    else Valid(r.state.entries)
  }

  // ---------------------------------------------------------------------------
  // The checker as an object

  method LeastOf(s: set<nat>) returns (m: nat)
    requires s != {}
    ensures m == Least(s)
  {
    m :| m in s;
    var rest := s - {m};
    while rest != {}
      invariant rest <= s && m in s
      invariant forall x :: x in s ==> x in rest || m <= x
      decreases rest
    {
      var x :| x in rest;
      if x < m {
        m := x;
      }
      rest := rest - {x};
    }
  }

  method SortedSet(s: set<nat>) returns (r: seq<nat>)
    ensures r == Sorted(s)
  {
    r := [];
    var rest := s;
    while rest != {}
      invariant r + Sorted(rest) == Sorted(s)
      decreases rest
    {
      var m := LeastOf(rest);
      assert r + ([m] + Sorted(rest - {m})) == r + [m] + Sorted(rest - {m});
      r := r + [m];
      rest := rest - {m};
    }
  }

  class Validator {
    var nextSeq: nat
    var request: Option<string>
    var nodes: map<nat, Record>
    var entries: seq<Listed>
    var rootFinished: bool

    ghost function Now(): State
      reads this
    {
      State(nextSeq, request, nodes, entries, rootFinished)
    }

    ghost predicate Valid()
      reads this
    {
      ValidState(Now())
    }

    constructor ()
      ensures Valid() && Now() == INITIAL
    {
      nextSeq, request, nodes, entries, rootFinished := 1, None, map[], [], false;
    }

    method Push(envelope: Envelope) returns (violation: Option<Violation>)
      requires Valid()
      modifies this
      ensures Valid()
      ensures Stepped(Now(), violation) == PushEnvelope(old(Now()), envelope)
    {
      PushStaysValid(Now(), envelope);
      var number := envelope.number;
      if number != nextSeq {
        return Some(SeqGap(nextSeq, number));
      }
      nextSeq := nextSeq + 1;
      match request {
        case None => request := Some(envelope.request);
        case Some(r) =>
          if r != envelope.request {
            return Some(RequestChanged(number));
          }
      }
      if rootFinished {
        return Some(AfterRoot(number));
      }
      if envelope.event.None? {
        return None;
      }
      var event := envelope.event.value;
      if |nodes| == 0 && !IsRootStart(event) {
        return Some(FirstNotRoot(number));
      }
      violation := Handle(event);
    }

    method Handle(event: Event) returns (violation: Option<Violation>)
      requires Valid()
      modifies this
      ensures Valid()
      ensures Stepped(Now(), violation) == OnEvent(old(Now()), event)
    {
      OnEventStaysValid(Now(), event);
      match event
      case NodeStarted(_, _, _, _, _, _) => violation := Start(event);
      case NodeFinished(_, _, _, _, _, _) => violation := Finish(event);
      case NotRun(_, _, _, _) => violation := Report(event);
      case NodeProgress(id, _) => violation := CheckOpen(id);
      case Diagnostic(found) => violation := CheckOpen(found.node);
    }

    method Start(e: Event) returns (violation: Option<Violation>)
      requires Valid() && e.NodeStarted?
      modifies this
      ensures Stepped(Now(), violation) == Started(old(Now()), e)
    {
      if e.id == 0 {
        return Some(ZeroId);
      }
      if e.id in nodes {
        return Some(DuplicateId(e.id));
      }
      var path := e.key;
      if !(e.id == ROOT && e.parent == 0) {
        if e.parent !in nodes {
          return Some(UnknownParent(e.id, e.parent));
        }
        var parent := nodes[e.parent];
        if parent.finished {
          return Some(ParentFinished(e.id, e.parent));
        }
        if e.key in parent.keys {
          return Some(DuplicateKey(e.parent, e.key));
        }
        path := entries[parent.entry].path + "/" + e.key;
        nodes := nodes[e.parent := parent.(keys := parent.keys + {e.key}, openChildren := parent.openChildren + {e.id})];
      }
      if e.kind.Rollback? {
        var undoes := e.kind.undoes;
        var valid := undoes in nodes && nodes[undoes].shape == StepShape && nodes[undoes].finished
                     && nodes[undoes].parent == e.parent;
        if !valid {
          return Some(RollbackTarget(e.id, undoes));
        }
      }
      nodes := nodes[e.id := Record(e.parent, |entries|, ShapeOf(e.kind), e.planned, {}, {}, false)];
      entries := entries + [Listed(Some(e.id), path, Running)];
      return None;
    }

    method Finish(e: Event) returns (violation: Option<Violation>)
      requires Valid() && e.NodeFinished?
      modifies this
      ensures Stepped(Now(), violation) == Finished(old(Now()), e)
    {
      var id := e.id;
      if id !in nodes {
        return Some(UnknownNode(id));
      }
      var record := nodes[id];
      if record.finished {
        return Some(FinishedTwice(id));
      }
      if record.openChildren != {} {
        var child := LeastOf(record.openChildren);
        return Some(ChildrenOpen(id, child));
      }
      var missing := MissingKey(record);
      if missing.Some? {
        return Some(PlannedMissing(id, missing.value));
      }
      if e.status == UnspecifiedStatus {
        return Some(StatusMissing(id));
      }
      var cancelled, hasCause := e.status == Cancelled, e.cancellation != UnspecifiedCause;
      if cancelled != hasCause {
        return Some(CancellationMismatch(id));
      }
      if e.result.Some? && !Accepts(record.shape, e.result.value) {
        return Some(ResultMismatch(id));
      }
      if id != ROOT && e.exitCode != 0 {
        return Some(ExitCodeOnChild(id));
      }
      nodes := nodes[id := record.(finished := true)];
      if record.parent in nodes {
        var parent := nodes[record.parent];
        nodes := nodes[record.parent := parent.(openChildren := parent.openChildren - {id})];
      }
      entries := entries[record.entry := entries[record.entry].(outcome := FinishedAs(e.status))];
      if id == ROOT {
        rootFinished := true;
      }
      return None;
    }

    /** The first planned key that no child has taken. */
    method MissingKey(record: Record) returns (missing: Option<string>)
      ensures missing == FirstMissing(record.planned, record.keys)
    {
      for i := 0 to |record.planned|
        invariant FirstMissing(record.planned[i..], record.keys) == FirstMissing(record.planned, record.keys)
      {
        if record.planned[i] !in record.keys {
          return Some(record.planned[i]);
        }
        assert record.planned[i..][1..] == record.planned[i + 1..];
      }
      return None;
    }

    method Report(e: Event) returns (violation: Option<Violation>)
      requires Valid() && e.NotRun?
      modifies this
      ensures Stepped(Now(), violation) == Reported(old(Now()), e)
    {
      if e.parent !in nodes || nodes[e.parent].finished {
        return Some(NotOpen(e.parent));
      }
      var parent := nodes[e.parent];
      if e.key in parent.keys {
        return Some(DuplicateKey(e.parent, e.key));
      }
      nodes := nodes[e.parent := parent.(keys := parent.keys + {e.key})];
      if e.reason == UnspecifiedReason {
        return Some(ReasonMissing(e.parent, e.key));
      }
      if (e.reason == Blocked) == (e.blockedBy == "") {
        return Some(BlockerMismatch(e.parent, e.key));
      }
      entries := entries + [Listed(None, entries[parent.entry].path + "/" + e.key, WasNotRun(e.reason))];
      return None;
    }

    method CheckOpen(id: nat) returns (violation: Option<Violation>)
      ensures Stepped(Now(), violation) == Opened(Now(), id)
    {
      if id in nodes && !nodes[id].finished {
        return None;
      }
      return Some(NotOpen(id));
    }

    method End() returns (verdict: Verdict)
      ensures verdict == if rootFinished then Verdict.Valid(entries) else Invalid(Truncated(Sorted(Unfinished(Now()))))
    {
      if !rootFinished {
        var open := set id | id in nodes && !nodes[id].finished;
        var sorted := SortedSet(open);
        assert open == Unfinished(Now());
        return Invalid(Truncated(sorted));
      }
      return Verdict.Valid(entries);
    }
  }

  method ValidateStream(envelopes: seq<Envelope>) returns (verdict: Verdict)
    ensures verdict == Verdicts(envelopes)
  {
    var validator := new Validator();
    for i := 0 to |envelopes|
      invariant fresh(validator) && validator.Valid()
      invariant Run(INITIAL, envelopes) == Run(validator.Now(), envelopes[i..])
    {
      assert envelopes[i..][1..] == envelopes[i + 1..];
      var violation := validator.Push(envelopes[i]);
      if violation.Some? {
        return Invalid(violation.value);
      }
    }
    assert envelopes[|envelopes|..] == [];
    verdict := validator.End();
  }
}
