/**
 What arrives: the outbox between the tree and the checker. `Thins` says which events a run of
 pushes and pops may leave out, and `RunsAreValid` is the whole protocol: any operations on a tree,
 with their events pushed one by one and taken out again at any moments in between, deliver a stream
 that the checker accepts exactly when the callers of the tree did their duties.
 */
module Delivery {
  import opened Wrappers
  import opened Events
  import opened Validate
  import opened Laws
  import opened Outbox
  import opened Tree
  import opened Simulation

  // ---------------------------------------------------------------------------
  // What may be left out

  ghost predicate Later(es: seq<Event>, slot: Slot) { exists e :: e in es && SlotOf(e) == Some(slot) }

  /** `kept` is `pushed` in order without some gauges, each of which a later gauge of its slot replaces. */
  ghost predicate Thins(pushed: seq<Event>, kept: seq<Event>)
    decreases |pushed|
  {
    if pushed == [] then kept == []
    else
      (kept != [] && kept[0] == pushed[0] && Thins(pushed[1..], kept[1..])) ||
      (IsGauge(pushed[0]) && Later(pushed[1..], SlotOf(pushed[0]).value) && Thins(pushed[1..], kept))
  }

  lemma WithoutFirst(es: seq<Event>, slot: Slot)
    requires es != []
    ensures Without(es, slot) == (if SlotOf(es[0]) == Some(slot) then [] else [es[0]]) + Without(es[1..], slot)
  {
    assert es == [es[0]] + es[1..];
    WithoutJoins([es[0]], es[1..], slot);
    WithoutOne(es[0], slot);
  }

  lemma ReplaceFirst(es: seq<Event>, e: Event)
    requires es != []
    ensures Replace(es, e)
         == (if IsGauge(e) && SlotOf(es[0]) == SlotOf(e) then [] else [es[0]]) + Replace(es[1..], e)
  {
    if IsGauge(e) {
      WithoutFirst(es, SlotOf(e).value);
    } else {
      assert es == [es[0]] + es[1..];
    }
  }

  lemma LaterStays(es: seq<Event>, e: Event, slot: Slot)
    requires Later(es, slot) || SlotOf(e) == Some(slot)
    ensures Later(es + [e], slot)
  {
    if Later(es, slot) {
      var x :| x in es && SlotOf(x) == Some(slot);
      assert x in es + [e];
    } else {
      assert e in es + [e];
    }
  }

  lemma KeepFirst(first: Event, pushed: seq<Event>, kept: seq<Event>)
    requires Thins(pushed, kept)
    ensures Thins([first] + pushed, [first] + kept)
  {
    assert ([first] + pushed)[1..] == pushed && ([first] + kept)[1..] == kept;
  }

  lemma DropFirst(first: Event, pushed: seq<Event>, kept: seq<Event>)
    requires Thins(pushed, kept) && IsGauge(first) && Later(pushed, SlotOf(first).value)
    ensures Thins([first] + pushed, kept)
  {
    assert ([first] + pushed)[1..] == pushed;
  }

  /** A push to the simple queue behind what was already delivered. */
  lemma {:induction false} PushThins(pushed: seq<Event>, given: seq<Event>, waiting: seq<Event>, e: Event)
    requires Thins(pushed, given + waiting)
    ensures Thins(pushed + [e], given + Replace(waiting, e))
    decreases |pushed|
  {
    var kept := given + waiting;
    if pushed == [] {
      assert given == [] && waiting == [];
      assert pushed + [e] == [e] + [] && given + Replace(waiting, e) == [e] + [];
      KeepFirst(e, [], []);
    } else {
      var rest := pushed[1..];
      assert pushed + [e] == [pushed[0]] + (rest + [e]);
      if kept != [] && kept[0] == pushed[0] && Thins(rest, kept[1..]) {
        PushAfterKept(pushed, given, waiting, e);
      } else {
        PushThins(rest, given, waiting, e);
        LaterStays(rest, e, SlotOf(pushed[0]).value);
        DropFirst(pushed[0], rest + [e], given + Replace(waiting, e));
      }
    }
  }

  lemma {:induction false} PushAfterKept(pushed: seq<Event>, given: seq<Event>, waiting: seq<Event>, e: Event)
    requires pushed != [] && given + waiting != [] && (given + waiting)[0] == pushed[0]
    requires Thins(pushed[1..], (given + waiting)[1..])
    ensures Thins([pushed[0]] + (pushed[1..] + [e]), given + Replace(waiting, e))
    decreases |pushed|, 0
  {
    var first, rest := pushed[0], pushed[1..];
    if given != [] {
      assert (given + waiting)[1..] == given[1..] + waiting;
      PushThins(rest, given[1..], waiting, e);
      KeepFirst(first, rest + [e], given[1..] + Replace(waiting, e));
      assert [first] + (given[1..] + Replace(waiting, e)) == given + Replace(waiting, e);
    } else {
      assert given + waiting == waiting && [] + waiting[1..] == waiting[1..];
      PushThins(rest, [], waiting[1..], e);
      var after := Replace(waiting[1..], e);
      assert [] + after == after && given + Replace(waiting, e) == Replace(waiting, e);
      ReplaceFirst(waiting, e);
      if IsGauge(e) && SlotOf(first) == SlotOf(e) {
        LaterStays(rest, e, SlotOf(e).value);
        DropFirst(first, rest + [e], after);
      } else {
        KeepFirst(first, rest + [e], after);
      }
    }
  }

  /** Pushing any events to the outbox leaves out only gauges that newer ones replace. */
  lemma {:induction false} PushAllThins(pushed: seq<Event>, given: seq<Event>, q: Queue, events: seq<Event>)
    requires ValidQueue(q) && Thins(pushed, given + Live(q))
    ensures var r := PushAll(q, events);
      ValidQueue(r) && Thins(pushed + events, given + Live(r)) && r.delivered == q.delivered
    decreases |events|
  {
    if events == [] {
      assert pushed + events == pushed;
    } else {
      PushRefines(q, events[0]);
      PushThins(pushed, given, Live(q), events[0]);
      PushAllThins(pushed + [events[0]], given, PushEvent(q, events[0]), events[1..]);
      assert pushed + [events[0]] + events[1..] == pushed + events;
    }
  }

  // ---------------------------------------------------------------------------
  // Everything but gauges arrives, and the last gauge of each slot too

  function NonGauges(es: seq<Event>): seq<Event> {
    if es == [] then [] else (if IsGauge(es[0]) then [] else [es[0]]) + NonGauges(es[1..])
  }

  /** Every other event is delivered exactly once, in the order of the pushes. */
  lemma {:induction false} OthersArriveInOrder(pushed: seq<Event>, kept: seq<Event>)
    requires Thins(pushed, kept)
    ensures NonGauges(kept) == NonGauges(pushed)
    decreases |pushed|
  {
    if pushed != [] {
      if kept != [] && kept[0] == pushed[0] && Thins(pushed[1..], kept[1..]) {
        OthersArriveInOrder(pushed[1..], kept[1..]);
      } else {
        OthersArriveInOrder(pushed[1..], kept);
      }
    }
  }

  function LastOf(es: seq<Event>, slot: Slot): Option<Event> {
    if es == [] then None
    else
      var rest := LastOf(es[1..], slot);
      if rest.Some? then rest else if SlotOf(es[0]) == Some(slot) then Some(es[0]) else None
  }

  lemma {:induction false} LastIsLater(es: seq<Event>, slot: Slot)
    ensures LastOf(es, slot).Some? <==> Later(es, slot)
  {
    if es != [] {
      LastIsLater(es[1..], slot);
      assert es == [es[0]] + es[1..];
    }
  }

  /** What arrives before an event other than a gauge ends with the gauge that was last pushed before it. */
  lemma {:induction false} LastGaugeArrives(before: seq<Event>, e: Event, after: seq<Event>, kept: seq<Event>, slot: Slot)
    returns (first: seq<Event>, rest: seq<Event>)
    requires Thins(before + [e] + after, kept) && !IsGauge(e) && !Later(after, slot)
    ensures kept == first + [e] + rest
    ensures NonGauges(first) == NonGauges(before) && Thins(after, rest)
    ensures LastOf(first, slot) == LastOf(before, slot)
    decreases |before|
  {
    var all := before + [e] + after;
    if before == [] {
      assert all[1..] == after;
      first, rest := [], kept[1..];
      assert kept == [] + [e] + rest;
    } else {
      assert all[1..] == before[1..] + [e] + after && all[0] == before[0];
      if kept != [] && kept[0] == all[0] && Thins(all[1..], kept[1..]) {
        first, rest := LastGaugeArrives(before[1..], e, after, kept[1..], slot);
        first := [kept[0]] + first;
        assert first[1..] + [e] + rest == kept[1..];
        assert kept == first + [e] + rest;
      } else {
        first, rest := LastGaugeArrives(before[1..], e, after, kept, slot);
        if SlotOf(before[0]) == Some(slot) {
          LaterIsBefore(before[1..], e, after, slot);
          LastIsLater(before[1..], slot);
        }
      }
    }
  }

  lemma LaterIsBefore(before: seq<Event>, e: Event, after: seq<Event>, slot: Slot)
    requires Later(before + [e] + after, slot) && !IsGauge(e) && !Later(after, slot)
    ensures Later(before, slot)
  {
    var x :| x in before + [e] + after && SlotOf(x) == Some(slot);
    assert x in before;
  }

  // ---------------------------------------------------------------------------
  // Gauges do not matter to the law

  ghost predicate SameButGauge(a: seq<Event>, b: seq<Event>) {
    a != [] && b != [] && forall e: Event :: !IsGauge(e) ==> (e in a <==> e in b)
  }

  lemma SameHistory(a: seq<Event>, b: seq<Event>)
    requires SameButGauge(a, b)
    ensures forall id :: HasStarted(a, id) <==> HasStarted(b, id)
    ensures forall id :: HasFinished(a, id) <==> HasFinished(b, id)
    ensures forall id, key :: KeyTaken(a, id, key) <==> KeyTaken(b, id, key)
    ensures forall id, parent :: StartedUnder(a, id, parent) <==> StartedUnder(b, id, parent)
    ensures forall id, parent :: FinishedStep(a, id, parent) <==> FinishedStep(b, id, parent)
  {}

  lemma SameFinishLaw(a: seq<Event>, b: seq<Event>, e: Event)
    requires SameButGauge(a, b) && e.NodeFinished? && LawfulFinish(a, e)
    ensures LawfulFinish(b, e)
  {
    SameHistory(a, b);
    forall child
      ensures !ChildRuns(b, e.id, child)
    {
      assert !ChildRuns(a, e.id, child);
    }
    forall start | start in b && Starts(start, e.id)
      ensures Answers(b, start, e)
    {
      assert start in a && Answers(a, start, e);
    }
  }

  lemma SameLaw(a: seq<Event>, b: seq<Event>, e: Event)
    requires SameButGauge(a, b)
    ensures Allowed(a, e) <==> Allowed(b, e)
  {
    SameHistory(a, b);
    if e.NodeFinished? {
      if LawfulFinish(a, e) {
        SameFinishLaw(a, b, e);
      } else if LawfulFinish(b, e) {
        SameFinishLaw(b, a, e);
        assert false;
      }
    }
  }

  /** Every event but the gauges is allowed. */
  ghost predicate CoreAllowed(es: seq<Event>, more: seq<Event>)
    decreases |more|
  {
    more == [] || ((IsGauge(more[0]) || Allowed(es, more[0])) && CoreAllowed(es + [more[0]], more[1..]))
  }

  lemma {:induction false} AllowedIsCore(es: seq<Event>, more: seq<Event>)
    ensures AllowedFrom(es, more) ==> CoreAllowed(es, more)
    ensures (forall e :: e in more ==> !IsGauge(e)) && CoreAllowed(es, more) ==> AllowedFrom(es, more)
    decreases |more|
  {
    if more != [] {
      AllowedIsCore(es + [more[0]], more[1..]);
      assert more == [more[0]] + more[1..];
    }
  }

  lemma {:induction false} CoreJoins(es: seq<Event>, a: seq<Event>, b: seq<Event>)
    ensures CoreAllowed(es, a + b) <==> CoreAllowed(es, a) && CoreAllowed(es + a, b)
    decreases |a|
  {
    if a == [] {
      assert a + b == b && es + a == es;
    } else {
      assert (a + b)[1..] == a[1..] + b && (a + b)[0] == a[0];
      assert es + [a[0]] + a[1..] == es + a;
      CoreJoins(es + [a[0]], a[1..], b);
    }
  }

  lemma {:induction false} ThinningKeepsTheLaw(a: seq<Event>, pushed: seq<Event>, b: seq<Event>, kept: seq<Event>)
    requires SameButGauge(a, b) && Thins(pushed, kept)
    ensures AllowedFrom(a, pushed) ==> AllowedFrom(b, kept)
    ensures CoreAllowed(a, pushed) <==> CoreAllowed(b, kept)
    decreases |pushed|
  {
    if pushed != [] {
      var e := pushed[0];
      assert SameButGauge(a + [e], b + [e]);
      SameLaw(a, b, e);
      if kept != [] && kept[0] == e && Thins(pushed[1..], kept[1..]) {
        ThinningKeepsTheLaw(a + [e], pushed[1..], b + [e], kept[1..]);
      } else {
        assert SameButGauge(a + [e], b);
        ThinningKeepsTheLaw(a + [e], pushed[1..], b, kept);
      }
    }
  }

  // ---------------------------------------------------------------------------
  // Streams of numbered envelopes

  function Numbered(request: string, es: seq<Event>): seq<Envelope> {
    seq(|es|, i requires 0 <= i < |es| => Envelope(i + 1, request, Some(es[i])))
  }

  lemma {:induction false} EventsOfNumbered(request: string, es: seq<Event>)
    ensures EventsOf(Numbered(request, es)) == es
  {
    if es != [] {
      var n := |es| - 1;
      assert Numbered(request, es)[..n] == Numbered(request, es[..n]);
      EventsOfNumbered(request, es[..n]);
      assert es == es[..n] + [es[n]];
    } else {
      assert Numbered(request, es) == [];
    }
  }

  ghost predicate AllowedAt(es: seq<Event>, i: nat)
    requires i < |es|
  {
    Allowed(es[..i], es[i])
  }

  lemma AllowedFirst(es: seq<Event>, e: Event, more: seq<Event>)
    ensures AllowedFrom(es, [e] + more) <==> Allowed(es, e) && AllowedFrom(es + [e], more)
  {
    assert ([e] + more)[1..] == more;
  }

  lemma {:induction false} AllowedEach(es: seq<Event>, k: nat)
    requires k <= |es|
    ensures AllowedFrom(es[..k], es[k..]) <==> forall i :: k <= i < |es| ==> AllowedAt(es, i)
    decreases |es| - k
  {
    if k < |es| {
      assert es[k..] == [es[k]] + es[k + 1..] && es[..k] + [es[k]] == es[..k + 1];
      AllowedFirst(es[..k], es[k], es[k + 1..]);
      assert AllowedAt(es, k) <==> Allowed(es[..k], es[k]);
      AllowedEach(es, k + 1);
    }
  }

  lemma NumberedLawfulAt(request: string, es: seq<Event>, i: nat)
    requires i < |es|
    ensures LawfulAt(Numbered(request, es), i) <==> AllowedAt(es, i)
  {
    assert Numbered(request, es)[..i] == Numbered(request, es[..i]);
    EventsOfNumbered(request, es[..i]);
  }

  lemma NumberedIsLawful(request: string, es: seq<Event>)
    ensures LawfulStream(Numbered(request, es)) <==> AllowedFrom([], es) && HasFinished(es, ROOT)
  {
    EventsOfNumbered(request, es);
    AllowedEach(es, 0);
    assert es[..0] == [] && es[0..] == es;
    forall i | 0 <= i < |es|
      ensures LawfulAt(Numbered(request, es), i) <==> AllowedAt(es, i)
    {
      NumberedLawfulAt(request, es, i);
    }
  }

  // ---------------------------------------------------------------------------
  // Whole runs

  /** An operation on the tree, or one event on its way: into the outbox or out of it. */
  datatype Action = Perform(op: Op) | PushNext | Deliver

  /**
   A tree, the events of its operations that are still to be pushed, its outbox, and what was pushed
   and delivered so far. The lock of the tree lets an operation begin only once the events of the one
   before are pushed; here it may begin any time.
   */
  datatype System = System(tree: TreeState, waiting: seq<Event>, queue: Queue, pushed: seq<Event>, delivered: seq<Envelope>)

  ghost predicate ValidSystem(s: System, request: string) {
    ValidTree(s.tree) && ValidQueue(s.queue) &&
    s.delivered == Numbered(request, EventsOf(s.delivered)) && s.queue.delivered == |s.delivered| &&
    Thins(s.pushed, EventsOf(s.delivered) + Live(s.queue))
  }

  /** All events of the operations so far. */
  ghost function Emissions(s: System): seq<Event> { s.pushed + s.waiting }

  ghost function Begin(start: Start): System {
    System(NewTree(start).state, NewTree(start).events, EMPTY, [], [])
  }

  ghost function Act(s: System, action: Action, request: string): (r: System)
    requires ValidSystem(s, request)
    ensures ValidSystem(r, request)
  {
    match action
    case Perform(op) =>
      EffectKeepsValid(s.tree, op);
      s.(tree := Effect(s.tree, op).state, waiting := s.waiting + Effect(s.tree, op).events)
    case PushNext =>
      if s.waiting == [] then s
      else
        PushKeepsValid(s, request);
        Pushed(s)
    case Deliver =>
      var (q, e) := PopEvent(s.queue);
      PopKeepsValid(s, request);
      if e.None? then s.(queue := q) else s.(queue := q, delivered := s.delivered + [Envelope(q.delivered, request, e)])
  }

  ghost function Pushed(s: System): System
    requires s.waiting != []
  {
    s.(waiting := s.waiting[1..], queue := PushEvent(s.queue, s.waiting[0]), pushed := s.pushed + [s.waiting[0]])
  }

  lemma PushKeepsValid(s: System, request: string)
    requires ValidSystem(s, request) && s.waiting != []
    ensures ValidSystem(Pushed(s), request)
  {
    PushRefines(s.queue, s.waiting[0]);
    PushThins(s.pushed, EventsOf(s.delivered), Live(s.queue), s.waiting[0]);
  }

  lemma PopKeepsValid(s: System, request: string)
    requires ValidSystem(s, request)
    ensures var (q, e) := PopEvent(s.queue);
      if e.None? then ValidSystem(s.(queue := q), request) && Live(s.queue) == []
      else ValidSystem(s.(queue := q, delivered := s.delivered + [Envelope(q.delivered, request, e)]), request)
           && |Live(q)| < |Live(s.queue)|
  {
    PopRefines(s.queue);
    var (q, e) := PopEvent(s.queue);
    if e.Some? {
      var given, waiting := EventsOf(s.delivered), Live(s.queue);
      var delivered := s.delivered + [Envelope(q.delivered, request, e)];
      assert delivered[..|s.delivered|] == s.delivered;
      assert EventsOf(delivered) == given + [e.value];
      assert |given| == |s.delivered|;
      assert Numbered(request, given + [e.value]) == Numbered(request, given) + [Envelope(|given| + 1, request, e)];
      assert waiting == [e.value] + waiting[1..];
      assert given + [e.value] + waiting[1..] == given + waiting;
    }
  }

  ghost function Play(s: System, actions: seq<Action>, request: string): (r: System)
    requires ValidSystem(s, request)
    ensures ValidSystem(r, request)
    decreases |actions|
  {
    if actions == [] then s else Play(Act(s, actions[0], request), actions[1..], request)
  }

  /** Every operation that is accepted is one its caller may ask for. */
  ghost predicate Dutiful(s: System, actions: seq<Action>, request: string)
    requires ValidSystem(s, request)
    decreases |actions|
  {
    actions == [] ||
    (Allows(s, actions[0]) && Dutiful(Act(s, actions[0], request), actions[1..], request))
  }

  ghost predicate Allows(s: System, action: Action)
    requires ValidTree(s.tree)
  {
    action.Perform? && Effect(s.tree, action.op).accepted ==> Duty(s.tree, Emissions(s), action.op)
  }

  lemma BeginIsValid(start: Start, request: string)
    ensures ValidSystem(Begin(start), request)
  {
    NewTreeIsValid(start);
    assert Live(EMPTY) == [] && EventsOf([]) == [] && Numbered(request, []) == [];
  }

  function EmittedBy(t: TreeState, action: Action): seq<Event>
    requires ValidTree(t)
  {
    if action.Perform? then Effect(t, action.op).events else []
  }

  ghost function Emitted(s: System, actions: seq<Action>, request: string): seq<Event>
    requires ValidSystem(s, request)
    decreases |actions|
  {
    if actions == [] then []
    else EmittedBy(s.tree, actions[0]) + Emitted(Act(s, actions[0], request), actions[1..], request)
  }

  lemma Regroup(a: seq<Event>, b: seq<Event>, c: seq<Event>)
    ensures a + b + c == a + (b + c)
  {}

  lemma ActEmits(s: System, action: Action, request: string)
    requires ValidSystem(s, request)
    ensures Emissions(Act(s, action, request)) == Emissions(s) + EmittedBy(s.tree, action)
  {
    match action
    case Perform(op) => Regroup(s.pushed, s.waiting, Effect(s.tree, op).events);
    case PushNext =>
      if s.waiting != [] {
        assert s.waiting == [s.waiting[0]] + s.waiting[1..];
        Regroup(s.pushed, [s.waiting[0]], s.waiting[1..]);
      }
    case Deliver =>
  }

  lemma {:induction false} EmittedIsAll(s: System, actions: seq<Action>, request: string)
    requires ValidSystem(s, request)
    ensures Emissions(Play(s, actions, request)) == Emissions(s) + Emitted(s, actions, request)
    decreases |actions|
  {
    if actions != [] {
      var t := Act(s, actions[0], request);
      EmittedIsAll(t, actions[1..], request);
      ActEmits(s, actions[0], request);
      Regroup(Emissions(s), EmittedBy(s.tree, actions[0]), Emitted(t, actions[1..], request));
    }
  }

  /** Only reports of progress emit gauges, and only of open nodes. */
  lemma GaugesAreOfOpen(t: TreeState, op: Op, e: Event)
    requires ValidTree(t) && e in Effect(t, op).events && IsGauge(e)
    ensures op.ProgressOp? && IsOpen(t, SlotOf(e).value.id)
  {
    match op
    case StartOp(_, _) =>
    case NotRunOp(_, _, _) =>
    case BlockedOp(_, _, _) =>
    case ProgressOp(_, _) =>
    case WarnOp(_, _) =>
    case FinishOp(id, ending) => FinishHasNoGauge(t, id, ending);
    case AbandonOp(id, cause) => FinishAllHasNoGauge(t, Subtree(t, id, |t.open|), Abandoned(cause));
    case DropOp(cause) => FinishAllHasNoGauge(t, Subtree(t, ROOT, |t.open|), Abandoned(cause));
  }

  /** An operation that neglects its duty emits no gauges. */
  lemma NeglectIsNoGauge(t: TreeState, es: seq<Event>, op: Op)
    requires TreeTracks(t, es) && !AllowedFrom(es, Effect(t, op).events)
    ensures forall e :: e in Effect(t, op).events ==> !IsGauge(e)
  {
    OpStep(t, es, op);
    forall e | e in Effect(t, op).events
      ensures !IsGauge(e)
    {
      if IsGauge(e) {
        GaugesAreOfOpen(t, op, e);
      }
    }
  }

  lemma {:induction false} ReportsAreNoGauges(id: nat, keys: seq<string>)
    ensures forall e :: e in NotReachedEvents(id, keys) ==> !IsGauge(e)
  {
    if keys != [] {
      ReportsAreNoGauges(id, keys[1..]);
    }
  }

  lemma FinishHasNoGauge(t: TreeState, id: nat, ending: Ending)
    ensures forall e :: e in FinishNode(t, id, ending).events ==> !IsGauge(e)
  {
    if IsOpen(t, id) {
      ReportsAreNoGauges(id, Unreached(t.open[id].value.planned, t.open[id].value.used));
    }
  }

  lemma {:induction false} FinishAllHasNoGauge(t: TreeState, ids: seq<nat>, ending: Ending)
    ensures forall e :: e in FinishAll(t, ids, ending).events ==> !IsGauge(e)
    decreases |ids|
  {
    if ids != [] {
      FinishHasNoGauge(t, ids[0], ending);
      FinishAllHasNoGauge(FinishNode(t, ids[0], ending).state, ids[1..], ending);
    }
  }

  /** Whatever is emitted is lawful exactly when every caller does its duty, and the tree goes on tracking it. */
  lemma {:induction false} DutyIsLaw(s: System, actions: seq<Action>, request: string)
    requires ValidSystem(s, request) && TreeTracks(s.tree, Emissions(s))
    ensures CoreAllowed(Emissions(s), Emitted(s, actions, request)) <==> Dutiful(s, actions, request)
    ensures Dutiful(s, actions, request) ==>
      AllowedFrom(Emissions(s), Emitted(s, actions, request)) &&
      TreeTracks(Play(s, actions, request).tree, Emissions(s) + Emitted(s, actions, request))
    decreases |actions|
  {
    if actions == [] {
      assert Emissions(s) + [] == Emissions(s);
    } else {
      var t := Act(s, actions[0], request);
      var now := EmittedBy(s.tree, actions[0]);
      var rest := Emitted(t, actions[1..], request);
      FirstIsLaw(s, actions[0], request);
      CoreJoins(Emissions(s), now, rest);
      AllowedJoins(Emissions(s), now, rest);
      Regroup(Emissions(s), now, rest);
      if AllowedFrom(Emissions(s), now) {
        DutyIsLaw(t, actions[1..], request);
      }
    }
  }

  lemma FirstIsLaw(s: System, action: Action, request: string)
    requires ValidSystem(s, request) && TreeTracks(s.tree, Emissions(s))
    ensures var now := EmittedBy(s.tree, action);
      (CoreAllowed(Emissions(s), now) <==> AllowedFrom(Emissions(s), now)) &&
      (AllowedFrom(Emissions(s), now) <==> Allows(s, action)) &&
      Emissions(Act(s, action, request)) == Emissions(s) + now &&
      (AllowedFrom(Emissions(s), now) ==> TreeTracks(Act(s, action, request).tree, Emissions(s) + now))
  {
    ActEmits(s, action, request);
    if action.Perform? {
      var now := Effect(s.tree, action.op).events;
      OpStep(s.tree, Emissions(s), action.op);
      AllowedIsCore(Emissions(s), now);
      if !AllowedFrom(Emissions(s), now) {
        NeglectIsNoGauge(s.tree, Emissions(s), action.op);
      }
    } else {
      assert Emissions(s) + [] == Emissions(s);
    }
  }

  /** The law for what was pushed and for what of it arrives is the same. */
  lemma ArrivalsKeepTheLaw(pushed: seq<Event>, kept: seq<Event>)
    requires Thins(pushed, kept) && pushed != [] && !IsGauge(pushed[0])
    ensures AllowedFrom([], pushed) ==> AllowedFrom([], kept)
    ensures CoreAllowed([], pushed) <==> CoreAllowed([], kept)
    ensures HasFinished(pushed, ROOT) <==> HasFinished(kept, ROOT)
  {
    var e := pushed[0];
    assert [] + [e] == [e] && SameButGauge([e], [e]);
    ThinningKeepsTheLaw([e], pushed[1..], [e], kept[1..]);
    ThinsSame(pushed, kept);
    SameHistory(pushed, kept);
  }

  lemma {:induction false} ThinsSame(pushed: seq<Event>, kept: seq<Event>)
    requires Thins(pushed, kept)
    ensures forall e: Event :: !IsGauge(e) ==> (e in pushed <==> e in kept)
    decreases |pushed|
  {
    if pushed != [] {
      assert pushed == [pushed[0]] + pushed[1..];
      if kept != [] && kept[0] == pushed[0] && Thins(pushed[1..], kept[1..]) {
        ThinsSame(pushed[1..], kept[1..]);
        assert kept == [kept[0]] + kept[1..];
      } else {
        ThinsSame(pushed[1..], kept);
      }
    }
  }

  ghost function Run(start: Start, actions: seq<Action>, request: string): (r: System)
    ensures ValidSystem(r, request)
  {
    BeginIsValid(start, request);
    Play(Begin(start), actions, request)
  }

  ghost predicate DutifulRun(start: Start, actions: seq<Action>, request: string) {
    BeginIsValid(start, request);
    start.kind.Command? && Dutiful(Begin(start), actions, request)
  }

  /** All that was emitted is delivered. */
  predicate IsEmptied(s: System) { s.waiting == [] && Live(s.queue) == [] }

  /** What was emitted over a run is lawful exactly for a dutiful run, and then the root has finished once it is closed. */
  lemma PushedIsLawful(start: Start, actions: seq<Action>, request: string)
    ensures var all := Emissions(Run(start, actions, request));
      all != [] && all[0].NodeStarted? &&
      (CoreAllowed([], all) <==> DutifulRun(start, actions, request)) &&
      (DutifulRun(start, actions, request) ==>
        AllowedFrom([], all) && (HasFinished(all, ROOT) <==> !IsOpen(Run(start, actions, request).tree, ROOT)))
  {
    BeginIsValid(start, request);
    RootIsAllowed(start);
    var s := Begin(start);
    var first, more := NewTree(start).events, Emitted(s, actions, request);
    assert Emissions(s) == first;
    EmittedIsAll(s, actions, request);
    DutyIsLaw(s, actions, request);
    AllowedJoins([], first, more);
    CoreJoins([], first, more);
    AllowedIsCore([], first);
    assert [] + first == first;
  }

  /** The checker accepts what a run delivers exactly when the callers did their duties and the root is closed. */
  lemma RunsAreValid(start: Start, actions: seq<Action>, request: string)
    requires IsEmptied(Run(start, actions, request))
    ensures Verdicts(Run(start, actions, request).delivered).Valid?
       <==> DutifulRun(start, actions, request) && !IsOpen(Run(start, actions, request).tree, ROOT)
  {
    var end := Run(start, actions, request);
    var pushed, kept := end.pushed, EventsOf(end.delivered);
    assert kept + Live(end.queue) == kept && Emissions(end) == pushed;
    PushedIsLawful(start, actions, request);
    ArrivalsKeepTheLaw(pushed, kept);
    AllowedIsCore([], kept);
    NumberedIsLawful(request, kept);
    AcceptsExactlyTheLawful(end.delivered);
  }

  /** Wherever a run is, the drop of the tree, the pushes that are left and enough deliveries end it. */
  lemma EveryRunCanEnd(s: System, cause: Option<Cancellation>, request: string) returns (more: seq<Action>)
    requires ValidSystem(s, request)
    ensures IsEmptied(Play(s, more, request)) && !IsOpen(Play(s, more, request).tree, ROOT)
  {
    var dropped := Act(s, Perform(DropOp(cause)), request);
    DropClosesAll(s.tree, cause, ROOT);
    var rest := Emptied(dropped, request);
    more := [Perform(DropOp(cause))] + rest;
    assert more[1..] == rest;
  }

  lemma {:induction false} Emptied(s: System, request: string) returns (more: seq<Action>)
    requires ValidSystem(s, request)
    ensures Play(s, more, request).tree == s.tree && IsEmptied(Play(s, more, request))
    decreases |s.waiting|, |Live(s.queue)|
  {
    if IsEmptied(s) {
      more := [];
    } else {
      var action := if s.waiting != [] then PushNext else Deliver;
      PopRefines(s.queue);
      PopKeepsValid(s, request);
      var rest := Emptied(Act(s, action, request), request);
      more := [action] + rest;
      assert more[1..] == rest;
    }
  }

  // ---------------------------------------------------------------------------
  // No gauge behind the finish of its node

  predicate NoGaugeOf(es: seq<Event>, id: nat) { forall e | e in es :: IsGauge(e) ==> SlotOf(e).value.id != id }

  /** A node that finished is closed, and no gauge of it follows. */
  ghost predicate EndedBy(t: TreeState, es: seq<Event>, i: nat)
    requires i < |es|
  {
    es[i].NodeFinished? ==> es[i].id < |t.open| && !IsOpen(t, es[i].id) && NoGaugeOf(es[i + 1..], es[i].id)
  }

  ghost predicate AllEnded(t: TreeState, es: seq<Event>) { forall i :: 0 <= i < |es| ==> EndedBy(t, es, i) }

  /** No node that was there opens again. */
  ghost predicate OpensOnlyNew(t: TreeState, u: TreeState) {
    |t.open| <= |u.open| && forall id: nat :: id < |t.open| && IsOpen(u, id) ==> IsOpen(t, id)
  }

  lemma {:induction false} FinishAllOpensNothing(t: TreeState, ids: seq<nat>, ending: Ending)
    ensures OpensOnlyNew(t, FinishAll(t, ids, ending).state)
    decreases |ids|
  {
    if ids != [] {
      FinishAllOpensNothing(FinishNode(t, ids[0], ending).state, ids[1..], ending);
    }
  }

  lemma StartOpensNew(t: TreeState, parent: nat, start: Start)
    requires ValidTree(t)
    ensures OpensOnlyNew(t, StartNode(t, parent, start).state)
  {
    if Claim(t, parent, start.key).Success? {
      ClaimKeepsValid(t, parent, start.key);
      OpenedTable(Claim(t, parent, start.key).value, parent, start);
    }
  }

  lemma NothingOpensAgain(t: TreeState, op: Op)
    requires ValidTree(t)
    ensures OpensOnlyNew(t, Effect(t, op).state)
  {
    match op
    case StartOp(parent, start) => StartOpensNew(t, parent, start);
    case NotRunOp(_, _, _) =>
    case BlockedOp(_, _, _) =>
    case ProgressOp(_, _) =>
    case WarnOp(_, _) =>
    case FinishOp(_, _) =>
    case AbandonOp(id, cause) => FinishAllOpensNothing(t, Subtree(t, id, |t.open|), Abandoned(cause));
    case DropOp(cause) => FinishAllOpensNothing(t, Subtree(t, ROOT, |t.open|), Abandoned(cause));
  }

  lemma {:induction false} ReportsFinishNothing(id: nat, keys: seq<string>)
    ensures forall e :: e in NotReachedEvents(id, keys) ==> !e.NodeFinished?
  {
    if keys != [] {
      ReportsFinishNothing(id, keys[1..]);
    }
  }

  lemma FinishCloses(t: TreeState, id: nat, ending: Ending, e: Event)
    requires e in FinishNode(t, id, ending).events && e.NodeFinished?
    ensures e.id < |t.open| && !IsOpen(FinishNode(t, id, ending).state, e.id)
  {
    ReportsFinishNothing(id, Unreached(t.open[id].value.planned, t.open[id].value.used));
  }

  lemma {:induction false} FinishAllClosesFinished(t: TreeState, ids: seq<nat>, ending: Ending, e: Event)
    requires e in FinishAll(t, ids, ending).events && e.NodeFinished?
    ensures e.id < |t.open| && !IsOpen(FinishAll(t, ids, ending).state, e.id)
    decreases |ids|
  {
    var first := FinishNode(t, ids[0], ending);
    if e in first.events {
      FinishCloses(t, ids[0], ending, e);
      FinishAllOpensNothing(first.state, ids[1..], ending);
    } else {
      FinishAllClosesFinished(first.state, ids[1..], ending, e);
    }
  }

  /** Who is said to have finished is closed. */
  lemma FinishedIsClosed(t: TreeState, op: Op, e: Event)
    requires ValidTree(t) && e in Effect(t, op).events && e.NodeFinished?
    ensures e.id < |Effect(t, op).state.open| && !IsOpen(Effect(t, op).state, e.id)
  {
    NothingOpensAgain(t, op);
    match op
    case StartOp(_, _) =>
    case NotRunOp(_, _, _) =>
    case BlockedOp(_, _, _) =>
    case ProgressOp(_, _) =>
    case WarnOp(_, _) =>
    case FinishOp(id, ending) => FinishCloses(t, id, ending, e);
    case AbandonOp(id, cause) => FinishAllClosesFinished(t, Subtree(t, id, |t.open|), Abandoned(cause), e);
    case DropOp(cause) => FinishAllClosesFinished(t, Subtree(t, ROOT, |t.open|), Abandoned(cause), e);
  }

  lemma NoGaugeJoins(a: seq<Event>, b: seq<Event>, id: nat)
    requires NoGaugeOf(a, id) && NoGaugeOf(b, id)
    ensures NoGaugeOf(a + b, id)
  {}

  /** A gauge of a finished node is never emitted, whatever the callers do. */
  lemma OldStaysEnded(t: TreeState, es: seq<Event>, op: Op, i: nat)
    requires ValidTree(t) && i < |es| && EndedBy(t, es, i)
    ensures EndedBy(Effect(t, op).state, es + Effect(t, op).events, i)
  {
    if es[i].NodeFinished? {
      var now, id := Effect(t, op).events, es[i].id;
      NothingOpensAgain(t, op);
      forall e | e in now && IsGauge(e)
        ensures SlotOf(e).value.id != id
      {
        GaugesAreOfOpen(t, op, e);
      }
      NoGaugeJoins(es[i + 1..], now, id);
      assert (es + now)[i + 1..] == es[i + 1..] + now;
    }
  }

  lemma NewIsEnded(t: TreeState, es: seq<Event>, op: Op, i: nat)
    requires ValidTree(t) && i < |Effect(t, op).events|
    ensures EndedBy(Effect(t, op).state, es + Effect(t, op).events, |es| + i)
  {
    var now := Effect(t, op).events;
    if now[i].NodeFinished? {
      FinishedIsClosed(t, op, now[i]);
      forall e | e in now
        ensures !IsGauge(e)
      {
        if IsGauge(e) {
          GaugesAreOfOpen(t, op, e);
        }
      }
      assert (es + now)[|es| + i + 1..] == now[i + 1..];
    }
  }

  lemma OpKeepsEnded(t: TreeState, es: seq<Event>, op: Op)
    requires ValidTree(t) && AllEnded(t, es)
    ensures AllEnded(Effect(t, op).state, es + Effect(t, op).events)
  {
    forall i | 0 <= i < |es + Effect(t, op).events|
      ensures EndedBy(Effect(t, op).state, es + Effect(t, op).events, i)
    {
      if i < |es| {
        OldStaysEnded(t, es, op, i);
      } else {
        NewIsEnded(t, es, op, i - |es|);
      }
    }
  }

  lemma {:induction false} RunKeepsEnded(s: System, actions: seq<Action>, request: string)
    requires ValidSystem(s, request) && AllEnded(s.tree, Emissions(s))
    ensures var r := Play(s, actions, request); AllEnded(r.tree, Emissions(r))
    decreases |actions|
  {
    if actions != [] {
      ActEmits(s, actions[0], request);
      if actions[0].Perform? {
        OpKeepsEnded(s.tree, Emissions(s), actions[0].op);
      } else {
        assert Emissions(s) + [] == Emissions(s);
      }
      RunKeepsEnded(Act(s, actions[0], request), actions[1..], request);
    }
  }

  /** In no run a gauge is pushed behind the finish of its node. */
  lemma NoGaugeAfterFinish(start: Start, actions: seq<Action>, request: string, at: nat, slot: Slot)
    requires at < |Run(start, actions, request).pushed| && Finishes(Run(start, actions, request).pushed[at], slot.id)
    ensures !Later(Run(start, actions, request).pushed[at + 1..], slot)
  {
    BeginIsValid(start, request);
    RunKeepsEnded(Begin(start), actions, request);
    var end := Run(start, actions, request);
    var all := Emissions(end);
    assert all[at] == end.pushed[at] && EndedBy(end.tree, all, at);
    forall e | e in end.pushed[at + 1..]
      ensures SlotOf(e) != Some(slot)
    {
      assert all[at + 1..] == end.pushed[at + 1..] + end.waiting;
      assert e in all[at + 1..];
    }
  }

  lemma {:induction false} KeptWerePushed(pushed: seq<Event>, kept: seq<Event>, slot: Slot)
    requires Thins(pushed, kept) && !Later(pushed, slot)
    ensures !Later(kept, slot)
    decreases |pushed|
  {
    if pushed != [] {
      assert pushed == [pushed[0]] + pushed[1..];
      assert forall e :: e in pushed[1..] ==> e in pushed;
      if kept != [] && kept[0] == pushed[0] && Thins(pushed[1..], kept[1..]) {
        KeptWerePushed(pushed[1..], kept[1..], slot);
        assert kept == [kept[0]] + kept[1..];
      } else {
        KeptWerePushed(pushed[1..], kept, slot);
      }
    }
  }

  /**
   The last value that a node reported of a gauge arrives, as such, before its finish: so it stands in
   what is delivered and what still waits, at any moment from the push of the finish on.
   */
  lemma LastGaugeBeforeFinish(start: Start, actions: seq<Action>, request: string, at: nat, slot: Slot)
    returns (first: seq<Event>, rest: seq<Event>)
    requires at < |Run(start, actions, request).pushed| && Finishes(Run(start, actions, request).pushed[at], slot.id)
    ensures var end := Run(start, actions, request);
      EventsOf(end.delivered) + Live(end.queue) == first + [end.pushed[at]] + rest &&
      LastOf(first, slot) == LastOf(end.pushed[..at], slot) && LastOf(rest, slot) == None &&
      NonGauges(first) == NonGauges(end.pushed[..at])
  {
    var end := Run(start, actions, request);
    var pushed, kept := end.pushed, EventsOf(end.delivered) + Live(end.queue);
    var before, e, after := pushed[..at], pushed[at], pushed[at + 1..];
    assert pushed == before + [e] + after;
    NoGaugeAfterFinish(start, actions, request, at, slot);
    first, rest := LastGaugeArrives(before, e, after, kept, slot);
    KeptWerePushed(after, rest, slot);
    LastIsLater(rest, slot);
  }
}
