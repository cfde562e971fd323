/**
 What a lawful stream of events amounts to: its nodes form a tree in which parents start before
 their children and finish after them, and a stream that ends with the root leaves nothing open
 and no planned key without an account.
 */
module Forest {
  import opened Wrappers
  import opened Events
  import opened Validate
  import opened Laws

  lemma LawfulPrefix(es: seq<Event>, k: nat)
    requires LawfulEvents(es) && k <= |es|
    ensures LawfulEvents(es[..k])
  {
    forall i | 0 <= i < k
      ensures LawfulHere(es[..k], i)
    {
      assert LawfulHere(es, i) && es[..k][..i] == es[..i];
    }
  }

  lemma OneMoreEvent(es: seq<Event>, k: nat)
    requires k < |es|
    ensures es[..k + 1] == es[..k] + [es[k]]
  {}

  lemma LawfulInTurn(es: seq<Event>, k: nat)
    requires LawfulEvents(es) && k < |es|
    ensures Lawful(es[..k], es[k])
  {
    assert LawfulHere(es, k);
  }

  lemma {:induction false} RootedSoFar(es: seq<Event>, k: nat)
    requires LawfulEvents(es) && k <= |es|
    ensures Rooted(es[..k])
  {
    if k > 0 {
      OneMoreEvent(es, k - 1);
      LawfulInTurn(es, k - 1);
      RootedSoFar(es, k - 1);
      RootedAfter(es[..k - 1], es[k - 1]);
    }
  }

  lemma LawfulIsRooted(es: seq<Event>)
    requires LawfulEvents(es)
    ensures Rooted(es)
  {
    RootedSoFar(es, |es|);
    assert es[..|es|] == es;
  }

  // ---------------------------------------------------------------------------
  // When a node started

  /** The index of the last start of a node, or the length when it never started. */
  function StartedAt(es: seq<Event>, id: nat): (k: nat)
    ensures k <= |es|
    ensures k < |es| ==> Starts(es[k], id)
    ensures forall j :: k < j < |es| ==> !Starts(es[j], id)
  {
    StartedBefore(es, |es|, id)
  }

  function StartedBefore(es: seq<Event>, n: nat, id: nat): (k: nat)
    requires n <= |es|
    ensures k < n || k == |es|
    ensures k < n ==> Starts(es[k], id)
    ensures forall j :: 0 <= j < n && (k == |es| || k < j) ==> !Starts(es[j], id)
  {
    if n == 0 then |es| else if Starts(es[n - 1], id) then n - 1 else StartedBefore(es, n - 1, id)
  }

  lemma StartsOnce(es: seq<Event>, i: nat, j: nat, id: nat)
    requires LawfulEvents(es) && i < |es| && j < |es| && Starts(es[i], id) && Starts(es[j], id)
    ensures i == j
  {
    if i < j {
      NoSecondStart(es, i, j, id);
    } else if j < i {
      NoSecondStart(es, j, i, id);
    }
  }

  lemma NoSecondStart(es: seq<Event>, i: nat, j: nat, id: nat)
    requires LawfulEvents(es) && i < j < |es| && Starts(es[i], id)
    ensures !Starts(es[j], id)
  {
    assert es[..j][i] == es[i] && es[i] in es[..j];
    LawfulInTurn(es, j);
  }

  /** The one event that starts a node. */
  lemma TheStart(es: seq<Event>, e: Event, id: nat)
    requires LawfulEvents(es) && e in es && Starts(e, id)
    ensures StartedAt(es, id) < |es| && es[StartedAt(es, id)] == e
  {
    var i :| 0 <= i < |es| && es[i] == e;
    StartsOnce(es, i, StartedAt(es, id), id);
  }

  /** Every node but the root starts under a node that started before it. */
  lemma ParentsStartEarlier(es: seq<Event>, e: Event)
    requires LawfulEvents(es) && e in es && e.NodeStarted? && e.id != ROOT
    ensures e.parent != 0 && StartedAt(es, e.parent) < StartedAt(es, e.id) < |es|
  {
    TheStart(es, e, e.id);
    var k := StartedAt(es, e.id);
    LawfulPrefix(es, k);
    LawfulIsRooted(es[..k]);
    LawfulInTurn(es, k);
    assert HasStarted(es[..k], e.parent);
    var p :| p in es[..k] && Starts(p, e.parent);
    TheStart(es, p, e.parent);
    var j :| 0 <= j < k && es[..k][j] == p;
    StartsOnce(es, j, StartedAt(es, e.parent), e.parent);
  }

  /** A rollback starts after the step that it undoes. */
  lemma UndoneStartsEarlier(es: seq<Event>, e: Event)
    requires LawfulEvents(es) && e in es && e.NodeStarted? && e.kind.Rollback?
    ensures StartedAt(es, e.kind.undoes) < StartedAt(es, e.id) < |es|
    ensures StartsStep(es[StartedAt(es, e.kind.undoes)], e.kind.undoes, e.parent)
  {
    TheStart(es, e, e.id);
    var k := StartedAt(es, e.id);
    LawfulInTurn(es, k);
    var s :| s in es[..k] && StartsStep(s, e.kind.undoes, e.parent);
    TheStart(es, s, e.kind.undoes);
    var j :| 0 <= j < k && es[..k][j] == s;
    StartsOnce(es, j, StartedAt(es, e.kind.undoes), e.kind.undoes);
  }

  lemma RootHasNoParent(es: seq<Event>, e: Event)
    requires LawfulEvents(es) && e in es && Starts(e, ROOT)
    ensures e.parent == 0
  {
    LawfulIsRooted(es);
    assert NamesStarted(es, e);
  }

  // ---------------------------------------------------------------------------
  // Parents finish last

  ghost predicate RunsUnderRunning(es: seq<Event>, id: nat) {
    exists e :: e in es && Starts(e, id) && Runs(es, e.parent)
  }

  lemma {:induction false} ParentsRunSoFar(es: seq<Event>, k: nat, id: nat)
    requires LawfulEvents(es) && k <= |es| && Runs(es[..k], id) && id != ROOT
    ensures RunsUnderRunning(es[..k], id)
  {
    if k > 0 {
      OneMoreEvent(es, k - 1);
      LawfulInTurn(es, k - 1);
      RootedSoFar(es, k - 1);
      if Runs(es[..k - 1], id) {
        ParentsRunSoFar(es, k - 1, id);
      }
      ParentsRunNext(es[..k - 1], es[k - 1], id);
    }
  }

  lemma ParentsRunNext(front: seq<Event>, e: Event, id: nat)
    requires Rooted(front) && Lawful(front, e) && Runs(front + [e], id) && id != ROOT
    requires Runs(front, id) ==> RunsUnderRunning(front, id)
    ensures RunsUnderRunning(front + [e], id)
  {
    StartedAfter(front, e);
    if Starts(e, id) {
      NewRunsUnderRunning(front, e);
    } else {
      OldRunsUnderRunning(front, e, id);
    }
  }

  /** Whatever runs, runs under a running parent. */
  lemma ParentsRun(es: seq<Event>, id: nat)
    requires LawfulEvents(es) && Runs(es, id) && id != ROOT
    ensures RunsUnderRunning(es, id)
  {
    assert es[..|es|] == es;
    ParentsRunSoFar(es, |es|, id);
  }

  lemma NewRunsUnderRunning(front: seq<Event>, e: Event)
    requires Rooted(front) && Lawful(front, e) && e.NodeStarted? && e.id != ROOT
    ensures RunsUnderRunning(front + [e], e.id)
  {
    StartedAfter(front, e);
    assert e in front + [e] && Starts(e, e.id);
  }

  lemma OldRunsUnderRunning(front: seq<Event>, e: Event, id: nat)
    requires RunsUnderRunning(front, id) && Lawful(front, e) && Runs(front + [e], id)
    ensures RunsUnderRunning(front + [e], id)
  {
    StartedAfter(front, e);
    var s :| s in front && Starts(s, id) && Runs(front, s.parent);
    RunningChildKeepsParent(front, e, s);
    assert s in front + [e];
  }

  lemma RunningChildKeepsParent(es: seq<Event>, e: Event, start: Event)
    requires Lawful(es, e) && start in es && start.NodeStarted? && !HasFinished(es, start.id)
    ensures !Finishes(e, start.parent)
  {
    assert StartsUnder(start, start.id, start.parent);
    assert ChildRuns(es, start.parent, start.id);
  }

  lemma {:induction false} RootRunsLongest(es: seq<Event>, id: nat)
    requires LawfulEvents(es) && Runs(es, id)
    ensures Runs(es, ROOT)
    decreases StartedAt(es, id)
  {
    if id != ROOT {
      ParentsRun(es, id);
      var e :| e in es && Starts(e, id) && Runs(es, e.parent);
      ParentsStartEarlier(es, e);
      RootRunsLongest(es, e.parent);
    }
  }

  /** Once the root has finished, so has every node that ever started. */
  lemma EndedMeansAllFinished(es: seq<Event>, id: nat)
    requires LawfulEvents(es) && HasFinished(es, ROOT) && HasStarted(es, id)
    ensures HasFinished(es, id)
  {
    if Runs(es, id) {
      RootRunsLongest(es, id);
    }
  }

  /** And every key that was planned was taken. */
  lemma EndedMeansAllPlannedTaken(es: seq<Event>, start: Event, key: string)
    requires LawfulEvents(es) && HasFinished(es, ROOT) && start in es && start.NodeStarted? && key in start.planned
    ensures KeyTaken(es, start.id, key)
  {
    assert Starts(start, start.id);
    EndedMeansAllFinished(es, start.id);
    var f :| f in es && Finishes(f, start.id);
    var k :| 0 <= k < |es| && es[k] == f;
    LawfulInTurn(es, k);
    assert HasStarted(es[..k], start.id);
    var s :| s in es[..k] && Starts(s, start.id);
    TheStart(es, s, start.id);
    TheStart(es, start, start.id);
    assert Answers(es[..k], s, f);
    var t :| t in es[..k] && Takes(t, start.id, key);
    assert t in es;
  }

  /** Taken once: no key of a node is started or reported twice. */
  lemma TakenOnce(es: seq<Event>, i: nat, j: nat, id: nat, key: string)
    requires LawfulEvents(es) && i < j < |es| && Takes(es[i], id, key) && id != 0
    ensures !Takes(es[j], id, key)
  {
    assert es[..j][i] == es[i] && es[i] in es[..j];
    assert KeyTaken(es[..j], id, key);
    LawfulInTurn(es, j);
  }

  /** Finished once, and nothing is reported of a node afterwards. */
  lemma SilentOnceFinished(es: seq<Event>, i: nat, j: nat, id: nat)
    requires LawfulEvents(es) && i < j < |es| && Finishes(es[i], id)
    ensures !Finishes(es[j], id) && !(es[j].NodeProgress? && es[j].id == id)
    ensures !(es[j].NodeStarted? && (es[j].id == id || es[j].parent == id)) && !(es[j].NotRun? && es[j].parent == id)
  {
    assert es[..j][i] == es[i] && es[i] in es[..j];
    assert HasFinished(es[..j], id);
    LawfulInTurn(es, j);
    LawfulInTurn(es, i);
    LawfulPrefix(es, i);
    LawfulIsRooted(es[..i]);
    var s :| s in es[..i] && Starts(s, id);
    assert s in es[..j];
  }

  // ---------------------------------------------------------------------------
  // Accepted streams

  lemma LawfulWithOneMore(es: seq<Event>, e: Event)
    requires LawfulEvents(es) && Lawful(es, e)
    ensures LawfulEvents(es + [e])
  {
    forall i | 0 <= i < |es + [e]|
      ensures LawfulHere(es + [e], i)
    {
      assert (es + [e])[..i] == if i < |es| then es[..i] else es;
      assert i < |es| ==> LawfulHere(es, i);
    }
  }

  lemma {:induction false} LawfulSoFar(envelopes: seq<Envelope>, k: nat)
    requires LawfulStream(envelopes) && k <= |envelopes|
    ensures LawfulEvents(EventsOf(envelopes[..k]))
  {
    if k > 0 {
      LawfulSoFar(envelopes, k - 1);
      assert envelopes[..k][..k - 1] == envelopes[..k - 1];
      assert LawfulAt(envelopes, k - 1);
      var before, e := EventsOf(envelopes[..k - 1]), envelopes[k - 1].event;
      if e.Some? {
        LawfulWithOneMore(before, e.value);
      } else {
        assert before + [] == before;
      }
    }
  }

  lemma AcceptedIsLawful(envelopes: seq<Envelope>)
    requires Verdicts(envelopes).Valid?
    ensures LawfulEvents(EventsOf(envelopes)) && HasFinished(EventsOf(envelopes), ROOT)
  {
    AcceptsExactlyTheLawful(envelopes);
    LawfulSoFar(envelopes, |envelopes|);
    assert envelopes[..|envelopes|] == envelopes;
  }

  /** An accepted stream leaves no node open and no planned key without an account. */
  lemma AcceptedLeavesNothingOpen(envelopes: seq<Envelope>, start: Event)
    requires Verdicts(envelopes).Valid? && start in EventsOf(envelopes) && start.NodeStarted?
    ensures HasFinished(EventsOf(envelopes), start.id)
    ensures forall key | key in start.planned :: KeyTaken(EventsOf(envelopes), start.id, key)
  {
    AcceptedIsLawful(envelopes);
    assert Starts(start, start.id);
    EndedMeansAllFinished(EventsOf(envelopes), start.id);
    forall key | key in start.planned
      ensures KeyTaken(EventsOf(envelopes), start.id, key)
    {
      EndedMeansAllPlannedTaken(EventsOf(envelopes), start, key);
    }
  }
}
