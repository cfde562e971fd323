/**
 The audit entries of crates/daemon/src/journal.rs: for every finished step and action, the step
 it belongs to. The lookups walk a map of the nodes seen so far; that they end, and what they
 find, follows from the stream being one the checker accepts.
 */
module Journal {
  import opened Wrappers
  import opened Events
  import opened Validate
  import opened Laws
  import opened Forest

  datatype Role = AsStep(key: string) | AsRollback(undoes: nat) | AsAction(operation: string, subject: string) | AsOther

  datatype Place = Place(parent: nat, role: Role)

  /** An entry by its fields that depend on the node; the wording is not part of the model. */
  datatype Audit =
    | StepAudit(key: string, status: Status, step: Option<string>)
    | ActionAudit(operation: string, subject: string, status: Status, undo: bool, step: Option<string>)
    | WarningAudit(message: string)

  function RoleOf(start: Event): Role
    requires start.NodeStarted?
  {
    match start.kind
    case Step => AsStep(start.key)
    case Rollback(undoes) => AsRollback(undoes)
    case Action(operation, subject) => AsAction(operation, subject)
    case _ => AsOther
  }

  // ---------------------------------------------------------------------------
  // Looking up

  /** `rank` orders the nodes: parents and undone steps come first. */
  ghost predicate Ranked(nodes: map<nat, Place>, rank: map<nat, nat>) {
    forall id :: id in nodes ==> RankedNode(nodes, rank, id)
  }

  ghost predicate RankedNode(nodes: map<nat, Place>, rank: map<nat, nat>, id: nat)
    requires id in nodes
  {
    id in rank &&
    (nodes[id].parent in nodes ==> nodes[id].parent in rank && rank[nodes[id].parent] < rank[id]) &&
    (nodes[id].role.AsRollback? && nodes[id].role.undoes in nodes ==>
      nodes[id].role.undoes in rank && rank[nodes[id].role.undoes] < rank[id])
  }

  ghost function Height(nodes: map<nat, Place>, rank: map<nat, nat>, id: nat): nat
    requires Ranked(nodes, rank)
  {
    if id in nodes then
      assert RankedNode(nodes, rank, id);
      rank[id] + 1
    else 0
  }

  /** `undoing`: some ancestor, or the node itself, is a rollback. */
  predicate Undoing(nodes: map<nat, Place>, ghost rank: map<nat, nat>, id: nat)
    requires Ranked(nodes, rank)
    decreases Height(nodes, rank, id)
  {
    id in nodes &&
    (assert RankedNode(nodes, rank, id);
     nodes[id].role.AsRollback? || Undoing(nodes, rank, nodes[id].parent))
  }

  /** `step_of`: the first ancestor that is a step, or a rollback whose undone step is found. */
  function StepOf(nodes: map<nat, Place>, ghost rank: map<nat, nat>, id: nat): Option<string>
    requires Ranked(nodes, rank)
    decreases Height(nodes, rank, id)
  {
    if id !in nodes then None
    else
      assert RankedNode(nodes, rank, id);
      match nodes[id].role
      case AsStep(key) => Some(key)
      case AsRollback(undoes) =>
        var step := StepOf(nodes, rank, undoes);
        if step.Some? then step else StepOf(nodes, rank, nodes[id].parent)
      case _ => StepOf(nodes, rank, nodes[id].parent)
  }

  // ---------------------------------------------------------------------------
  // The nodes of a lawful stream

  function NodesOf(es: seq<Event>): map<nat, Place> {
    if es == [] then map[]
    else
      var n := |es| - 1;
      if es[n].NodeStarted? then NodesOf(es[..n])[es[n].id := Place(es[n].parent, RoleOf(es[n]))] else NodesOf(es[..n])
  }

  ghost function RankOf(es: seq<Event>): map<nat, nat> {
    map id | id in NodesOf(es) :: StartedAt(es, id)
  }

  predicate StartsAs(e: Event, id: nat, place: Place) { Starts(e, id) && place == Place(e.parent, RoleOf(e)) }

  ghost predicate HasStartedAs(es: seq<Event>, id: nat, place: Place) { exists e :: e in es && StartsAs(e, id, place) }

  lemma {:induction false} NodesAreStarts(es: seq<Event>, k: nat)
    requires k <= |es|
    ensures forall id :: id in NodesOf(es[..k]) <==> HasStarted(es[..k], id)
    ensures forall id :: id in NodesOf(es[..k]) ==> HasStartedAs(es[..k], id, NodesOf(es[..k])[id])
  {
    if k > 0 {
      OneMoreEvent(es, k - 1);
      NodesAreStarts(es, k - 1);
      var front, e := es[..k - 1], es[k - 1];
      assert es[..k][..k - 1] == front;
      StartedAfter(front, e);
      forall id | id in NodesOf(es[..k])
        ensures HasStartedAs(es[..k], id, NodesOf(es[..k])[id])
      {
        if e.NodeStarted? && e.id == id {
          assert e in es[..k] && StartsAs(e, id, NodesOf(es[..k])[id]);
        } else {
          assert HasStartedAs(front, id, NodesOf(front)[id]);
          var x :| x in front && StartsAs(x, id, NodesOf(front)[id]);
          assert x in es[..k];
        }
      }
    }
  }

  lemma NodeIsItsStart(es: seq<Event>, id: nat) returns (e: Event)
    requires id in NodesOf(es)
    ensures e in es && StartsAs(e, id, NodesOf(es)[id])
  {
    assert es[..|es|] == es;
    NodesAreStarts(es, |es|);
    assert HasStartedAs(es, id, NodesOf(es)[id]);
    e :| e in es && StartsAs(e, id, NodesOf(es)[id]);
  }

  lemma StartIsItsNode(es: seq<Event>, e: Event)
    requires LawfulEvents(es) && e in es && e.NodeStarted?
    ensures e.id in NodesOf(es) && NodesOf(es)[e.id] == Place(e.parent, RoleOf(e))
  {
    assert es[..|es|] == es;
    NodesAreStarts(es, |es|);
    assert Starts(e, e.id);
    var x := NodeIsItsStart(es, e.id);
    TheStart(es, e, e.id);
    TheStart(es, x, e.id);
  }

  /** On a lawful stream the lookups end: parents and undone steps started earlier. */
  lemma LawfulIsRanked(es: seq<Event>)
    requires LawfulEvents(es)
    ensures Ranked(NodesOf(es), RankOf(es))
  {
    var nodes := NodesOf(es);
    forall id | id in nodes
      ensures RankedNode(nodes, RankOf(es), id)
    {
      var e := NodeIsItsStart(es, id);
      if id == ROOT {
        RootHasNoParent(es, e);
        NoNodeZero(es);
      } else {
        ParentsStartEarlier(es, e);
      }
      if e.kind.Rollback? {
        UndoneStartsEarlier(es, e);
      }
    }
  }

  lemma NoNodeZero(es: seq<Event>)
    requires LawfulEvents(es)
    ensures 0 !in NodesOf(es)
  {
    LawfulIsRooted(es);
    assert es[..|es|] == es;
    NodesAreStarts(es, |es|);
  }

  ghost function StepIn(es: seq<Event>, id: nat): Option<string>
    requires LawfulEvents(es)
  {
    LawfulIsRanked(es);
    StepOf(NodesOf(es), RankOf(es), id)
  }

  ghost predicate UndoingIn(es: seq<Event>, id: nat)
    requires LawfulEvents(es)
  {
    LawfulIsRanked(es);
    Undoing(NodesOf(es), RankOf(es), id)
  }

  // ---------------------------------------------------------------------------
  // What the lookups find

  ghost predicate IsStep(es: seq<Event>, id: nat, key: string) {
    exists e :: e in es && Starts(e, id) && e.kind.Step? && e.key == key
  }

  ghost predicate IsRollback(es: seq<Event>, id: nat, undoes: nat) {
    exists e :: e in es && Starts(e, id) && e.kind == Rollback(undoes)
  }

  /** A node that neither is a step nor undoes one. */
  ghost predicate IsPlain(es: seq<Event>, id: nat) {
    exists e :: e in es && Starts(e, id) && !e.kind.Step? && !e.kind.Rollback?
  }

  /** From a node to an ancestor. */
  ghost predicate IsLine(es: seq<Event>, line: seq<nat>) {
    line != [] && forall i :: 0 <= i < |line| - 1 ==> StartedUnder(es, line[i], line[i + 1])
  }

  /** From a node to its nearest ancestor, or itself, that may be no plain node. */
  ghost predicate IsPlainLine(es: seq<Event>, line: seq<nat>) {
    IsLine(es, line) && forall i :: 0 <= i < |line| - 1 ==> IsPlain(es, line[i])
  }

  /** A step names itself; a rollback is named by the step it undoes. */
  ghost predicate IsNamed(es: seq<Event>, id: nat, key: string) {
    IsStep(es, id, key) || exists undoes :: IsRollback(es, id, undoes) && IsStep(es, undoes, key)
  }

  /** The nearest enclosing step, or inside a rollback the step that is undone. */
  ghost predicate Belongs(es: seq<Event>, id: nat, key: string) {
    exists line :: IsPlainLine(es, line) && line[0] == id && IsNamed(es, line[|line| - 1], key)
  }

  lemma StepNames(es: seq<Event>, id: nat, key: string)
    requires LawfulEvents(es) && IsStep(es, id, key)
    ensures StepIn(es, id) == Some(key)
  {
    LawfulIsRanked(es);
    var e :| e in es && Starts(e, id) && e.kind.Step? && e.key == key;
    StartIsItsNode(es, e);
  }

  lemma RollbackNames(es: seq<Event>, id: nat, undoes: nat)
    requires LawfulEvents(es) && IsRollback(es, id, undoes)
    ensures StepIn(es, id) == StepIn(es, undoes) && StepIn(es, undoes).Some?
    ensures IsStep(es, undoes, StepIn(es, undoes).value)
  {
    LawfulIsRanked(es);
    var e :| e in es && Starts(e, id) && e.kind == Rollback(undoes);
    StartIsItsNode(es, e);
    UndoneStartsEarlier(es, e);
    var s := es[StartedAt(es, undoes)];
    assert s in es && IsStep(es, undoes, s.key);
    StepNames(es, undoes, s.key);
  }

  lemma PlainNames(es: seq<Event>, id: nat, parent: nat)
    requires LawfulEvents(es) && IsPlain(es, id) && StartedUnder(es, id, parent)
    ensures StepIn(es, id) == StepIn(es, parent)
  {
    LawfulIsRanked(es);
    var e :| e in es && Starts(e, id) && !e.kind.Step? && !e.kind.Rollback?;
    var x :| x in es && StartsUnder(x, id, parent);
    TheStart(es, e, id);
    TheStart(es, x, id);
    StartIsItsNode(es, e);
  }

  lemma NamedIsFound(es: seq<Event>, id: nat, key: string)
    requires LawfulEvents(es) && IsNamed(es, id, key)
    ensures StepIn(es, id) == Some(key)
  {
    if IsStep(es, id, key) {
      StepNames(es, id, key);
    } else {
      var undoes :| IsRollback(es, id, undoes) && IsStep(es, undoes, key);
      RollbackNames(es, id, undoes);
      StepNames(es, undoes, key);
    }
  }

  lemma {:induction false} LineIsFound(es: seq<Event>, line: seq<nat>, key: string)
    requires LawfulEvents(es) && IsPlainLine(es, line) && IsNamed(es, line[|line| - 1], key)
    ensures StepIn(es, line[0]) == Some(key)
    decreases |line|
  {
    if |line| == 1 {
      NamedIsFound(es, line[0], key);
    } else {
      assert StartedUnder(es, line[0], line[0 + 1]) && IsPlain(es, line[0]);
      RestOfLine(es, line);
      LineIsFound(es, line[1..], key);
      PlainNames(es, line[0], line[1]);
    }
  }

  lemma RestOfLine(es: seq<Event>, line: seq<nat>)
    requires IsLine(es, line) && |line| > 1
    ensures IsLine(es, line[1..]) && (IsPlainLine(es, line) ==> IsPlainLine(es, line[1..]))
  {
    var rest := line[1..];
    forall i | 0 <= i < |rest| - 1
      ensures StartedUnder(es, rest[i], rest[i + 1]) && (IsPlainLine(es, line) ==> IsPlain(es, rest[i]))
    {
      assert StartedUnder(es, line[i + 1], line[i + 1 + 1]);
      assert rest[i] == line[i + 1] && rest[i + 1] == line[i + 2];
    }
  }

  lemma LongerLine(es: seq<Event>, id: nat, line: seq<nat>)
    requires IsLine(es, line) && StartedUnder(es, id, line[0])
    ensures IsLine(es, [id] + line)
    ensures IsPlain(es, id) && IsPlainLine(es, line) ==> IsPlainLine(es, [id] + line)
  {
    var longer := [id] + line;
    forall i | 0 <= i < |longer| - 1
      ensures StartedUnder(es, longer[i], longer[i + 1])
      ensures IsPlain(es, id) && IsPlainLine(es, line) ==> IsPlain(es, longer[i])
    {
      if i > 0 {
        assert longer[i] == line[i - 1] && longer[i + 1] == line[i - 1 + 1];
        assert StartedUnder(es, line[i - 1], line[i - 1 + 1]);
      }
    }
  }

  lemma {:induction false} FoundIsOnALine(es: seq<Event>, id: nat) returns (line: seq<nat>)
    requires LawfulEvents(es) && StepIn(es, id).Some?
    ensures IsPlainLine(es, line) && line[0] == id && IsNamed(es, line[|line| - 1], StepIn(es, id).value)
    decreases if id in NodesOf(es) then StartedAt(es, id) + 1 else 0
  {
    LawfulIsRanked(es);
    var e := NodeIsItsStart(es, id);
    assert RankedNode(NodesOf(es), RankOf(es), id);
    if e.kind.Step? {
      line := [id];
      assert IsStep(es, id, e.key);
    } else if e.kind.Rollback? {
      line := [id];
      assert IsRollback(es, id, e.kind.undoes);
      RollbackNames(es, id, e.kind.undoes);
    } else {
      assert IsPlain(es, id) && StartsUnder(e, id, e.parent);
      PlainNames(es, id, e.parent);
      line := FoundIsOnALine(es, e.parent);
      LongerLine(es, id, line);
      line := [id] + line;
    }
  }

  /** `step_of` finds the nearest enclosing step, or inside a rollback the step being undone. */
  lemma StepOfMeans(es: seq<Event>, id: nat, key: string)
    requires LawfulEvents(es)
    ensures StepIn(es, id) == Some(key) <==> Belongs(es, id, key)
  {
    if StepIn(es, id) == Some(key) {
      var line := FoundIsOnALine(es, id);
    }
    if Belongs(es, id, key) {
      var line :| IsPlainLine(es, line) && line[0] == id && IsNamed(es, line[|line| - 1], key);
      LineIsFound(es, line, key);
    }
  }

  ghost predicate InsideRollback(es: seq<Event>, id: nat) {
    exists line :: IsLine(es, line) && line[0] == id && RollsBack(es, line[|line| - 1])
  }

  ghost predicate RollsBack(es: seq<Event>, id: nat) { exists e :: e in es && Starts(e, id) && e.kind.Rollback? }

  lemma {:induction false} LineIsUndoing(es: seq<Event>, line: seq<nat>)
    requires LawfulEvents(es) && IsLine(es, line) && RollsBack(es, line[|line| - 1])
    ensures UndoingIn(es, line[0])
    decreases |line|
  {
    LawfulIsRanked(es);
    if |line| == 1 {
      var e :| e in es && Starts(e, line[0]) && e.kind.Rollback?;
      StartIsItsNode(es, e);
    } else {
      assert StartedUnder(es, line[0], line[0 + 1]);
      RestOfLine(es, line);
      LineIsUndoing(es, line[1..]);
      var e :| e in es && StartsUnder(e, line[0], line[1]);
      StartIsItsNode(es, e);
    }
  }

  lemma {:induction false} UndoingIsOnALine(es: seq<Event>, id: nat) returns (line: seq<nat>)
    requires LawfulEvents(es) && UndoingIn(es, id)
    ensures IsLine(es, line) && line[0] == id && RollsBack(es, line[|line| - 1])
    decreases if id in NodesOf(es) then StartedAt(es, id) + 1 else 0
  {
    LawfulIsRanked(es);
    var e := NodeIsItsStart(es, id);
    assert RankedNode(NodesOf(es), RankOf(es), id);
    if e.kind.Rollback? {
      line := [id];
    } else {
      line := UndoingIsOnALine(es, e.parent);
      assert StartsUnder(e, id, e.parent);
      LongerLine(es, id, line);
      line := [id] + line;
    }
  }

  /** `undoing` holds exactly inside a rollback, however deep. */
  lemma UndoingMeans(es: seq<Event>, id: nat)
    requires LawfulEvents(es)
    ensures UndoingIn(es, id) <==> InsideRollback(es, id)
  {
    if UndoingIn(es, id) {
      var line := UndoingIsOnALine(es, id);
    }
    if InsideRollback(es, id) {
      var line :| IsLine(es, line) && line[0] == id && RollsBack(es, line[|line| - 1]);
      LineIsUndoing(es, line);
    }
  }

  // ---------------------------------------------------------------------------
  // The entries

  /** The last command that started says whether anything is done at all. */
  function DryRun(es: seq<Event>): bool {
    if es == [] then false
    else
      var n := |es| - 1;
      if es[n].NodeStarted? && es[n].kind.Command? then es[n].kind.dryRun else DryRun(es[..n])
  }

  /** The entries that an event adds to the journal of `es`. */
  ghost function AuditOf(es: seq<Event>, e: Event): seq<Audit>
    requires LawfulEvents(es)
  {
    if e.NodeFinished? && !DryRun(es) && e.id in NodesOf(es) then
      match NodesOf(es)[e.id].role
      case AsStep(key) => [StepAudit(key, e.status, StepIn(es, e.id))]
      case AsAction(operation, subject) =>
        [ActionAudit(operation, subject, e.status, UndoingIn(es, NodesOf(es)[e.id].parent), StepIn(es, e.id))]
      case _ => []
    else if e.Diagnostic? && e.found.severity == Warned then [WarningAudit(e.found.message)]
    else []
  }

  /** The entry of a finished step or action names the step it belongs to, and whether it undoes one. */
  lemma AuditMeans(es: seq<Event>, start: Event, e: Event)
    requires LawfulEvents(es) && e.NodeFinished? && start in es && Starts(start, e.id) && !DryRun(es)
    ensures start.kind.Step? ==> AuditOf(es, e) == [StepAudit(start.key, e.status, Some(start.key))]
    ensures start.kind.Action? ==>
      |AuditOf(es, e)| == 1 && AuditOf(es, e)[0].ActionAudit? &&
      (AuditOf(es, e)[0].undo <==> InsideRollback(es, start.parent)) &&
      forall key :: AuditOf(es, e)[0].step == Some(key) <==> Belongs(es, e.id, key)
    ensures !start.kind.Step? && !start.kind.Action? ==> AuditOf(es, e) == []
  {
    StartIsItsNode(es, start);
    if start.kind.Step? {
      StepNames(es, e.id, start.key);
    } else if start.kind.Action? {
      UndoingMeans(es, start.parent);
      forall key
        ensures StepIn(es, e.id) == Some(key) <==> Belongs(es, e.id, key)
      {
        StepOfMeans(es, e.id, key);
      }
    }
  }

  class Steps {
    var dryRun: bool
    var nodes: map<nat, Place>
    ghost var seen: seq<Event>

    ghost predicate Valid()
      reads this
    {
      LawfulEvents(seen) && nodes == NodesOf(seen) && dryRun == DryRun(seen)
    }

    constructor ()
      ensures Valid() && seen == []
    {
      dryRun, nodes, seen := false, map[], [];
    }

    /** The entries of one event of a stream that the checker accepts. */
    method Entries(event: Event) returns (entries: seq<Audit>)
      requires Valid() && Lawful(seen, event)
      modifies this
      ensures Valid() && seen == old(seen) + [event]
      ensures entries == AuditOf(old(seen), event)
    {
      LawfulIsRanked(seen);
      LawfulWithOneMore(seen, event);
      ghost var rank := RankOf(seen);
      assert (seen + [event])[..|seen|] == seen;
      entries := [];
      if event.NodeStarted? {
        if event.kind.Command? {
          dryRun := event.kind.dryRun;
        }
        nodes := nodes[event.id := Place(event.parent, RoleOf(event))];
      } else if event.NodeFinished? {
        if !dryRun && event.id in nodes {
          var place := nodes[event.id];
          var step := StepOf(nodes, rank, event.id);
          if place.role.AsStep? {
            entries := [StepAudit(place.role.key, event.status, step)];
          } else if place.role.AsAction? {
            var undo := Undoing(nodes, rank, place.parent);
            entries := [ActionAudit(place.role.operation, place.role.subject, event.status, undo, step)];
          }
        }
      } else if event.Diagnostic? && event.found.severity == Warned {
        entries := [WarningAudit(event.found.message)];
      }
      seen := seen + [event];
    }
  }
}
