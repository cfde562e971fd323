/**
 The outbox of crates/events/src/outbox.rs: a queue in which a gauge that was not yet delivered
 gives way to a newer one of the same node and kind. Positions of events that gave way are kept
 as tombstones; `Live` is the queue without them.
 */
module Outbox {
  import opened Wrappers
  import opened Events

  datatype Gauge = BytesGauge | BuildsGauge

  datatype Slot = Slot(id: nat, gauge: Gauge)

  function SlotOf(e: Event): Option<Slot> {
    match e
    case NodeProgress(id, Some(Bytes(_, _))) => Some(Slot(id, BytesGauge))
    case NodeProgress(id, Some(Builds(_, _))) => Some(Slot(id, BuildsGauge))
    case _ => None
  }

  predicate IsGauge(e: Event) { SlotOf(e).Some? }

  /** `head` is the position of the first item, `delivered` the number given last. */
  datatype Queue = Queue(head: nat, delivered: nat, items: seq<Event>, pending: map<Slot, nat>, superseded: set<nat>)

  const EMPTY := Queue(0, 0, [], map[], {})

  ghost predicate PendingIsLive(q: Queue, slot: Slot)
    requires slot in q.pending
  {
    var at := q.pending[slot];
    q.head <= at < q.head + |q.items| && SlotOf(q.items[at - q.head]) == Some(slot) && at !in q.superseded
  }

  ghost predicate LiveIsPending(q: Queue, i: nat)
    requires i < |q.items|
  {
    var slot := SlotOf(q.items[i]);
    slot.Some? && q.head + i !in q.superseded ==> slot.value in q.pending && q.pending[slot.value] == q.head + i
  }

  ghost predicate TombstoneIsGauge(q: Queue, at: nat) {
    q.head <= at < q.head + |q.items| && IsGauge(q.items[at - q.head])
  }

  ghost predicate ValidQueue(q: Queue) {
    (forall slot :: slot in q.pending ==> PendingIsLive(q, slot)) &&
    (forall i :: 0 <= i < |q.items| ==> LiveIsPending(q, i)) &&
    (forall at :: at in q.superseded ==> TombstoneIsGauge(q, at))
  }

  function PushEvent(q: Queue, e: Event): Queue {
    var position := q.head + |q.items|;
    var slot := SlotOf(e);
    if slot.None? then q.(items := q.items + [e])
    else
      q.(items := q.items + [e],
         pending := q.pending[slot.value := position],
         superseded := q.superseded + Outdated(q, slot.value))
  }

  /** `next`: skips tombstones up to the first event to deliver. */
  function PopEvent(q: Queue): (r: (Queue, Option<Event>))
    decreases |q.items|
  {
    if q.items == [] then (q, None)
    else
      var e := q.items[0];
      var rest := q.(head := q.head + 1, items := q.items[1..]);
      if q.head in q.superseded then PopEvent(rest.(superseded := q.superseded - {q.head}))
      else
        var slot := SlotOf(e);
        (rest.(delivered := q.delivered + 1,
               pending := if slot.Some? && slot.value in q.pending && q.pending[slot.value] == q.head
                          then q.pending - {slot.value} else q.pending),
         Some(e))
  }

  // ---------------------------------------------------------------------------
  // The simple queue behind it

  function LiveFrom(items: seq<Event>, head: nat, superseded: set<nat>): seq<Event> {
    if items == [] then []
    else (if head in superseded then [] else [items[0]]) + LiveFrom(items[1..], head + 1, superseded)
  }

  function Live(q: Queue): seq<Event> { LiveFrom(q.items, q.head, q.superseded) }

  function Without(es: seq<Event>, slot: Slot): seq<Event> {
    if es == [] then []
    else
      var n := |es| - 1;
      Without(es[..n], slot) + if SlotOf(es[n]) == Some(slot) then [] else [es[n]]
  }

  /** A new gauge takes the old one out and goes to the end like every other event. */
  function Replace(es: seq<Event>, e: Event): seq<Event> {
    (if IsGauge(e) then Without(es, SlotOf(e).value) else es) + [e]
  }

  lemma {:induction false} LiveOfMore(items: seq<Event>, e: Event, head: nat, superseded: set<nat>)
    ensures LiveFrom(items + [e], head, superseded)
         == LiveFrom(items, head, superseded) + if head + |items| in superseded then [] else [e]
  {
    if items != [] {
      assert (items + [e])[1..] == items[1..] + [e];
      LiveOfMore(items[1..], e, head + 1, superseded);
    }
  }

  lemma {:induction false} WithoutJoins(a: seq<Event>, b: seq<Event>, slot: Slot)
    ensures Without(a + b, slot) == Without(a, slot) + Without(b, slot)
  {
    if b == [] {
      assert a + b == a;
    } else {
      var n := |b| - 1;
      assert (a + b)[..|a| + n] == a + b[..n];
      WithoutJoins(a, b[..n], slot);
    }
  }

  /** The positions from `head` on that are live and hold the slot are those in `more`. */
  ghost predicate Marks(items: seq<Event>, head: nat, superseded: set<nat>, slot: Slot, more: set<nat>) {
    forall i :: 0 <= i < |items| ==>
      (head + i !in superseded ==> (head + i in more <==> SlotOf(items[i]) == Some(slot)))
  }

  lemma {:induction false} LiveWithTombstone(items: seq<Event>, head: nat, superseded: set<nat>, slot: Slot, more: set<nat>)
    requires Marks(items, head, superseded, slot, more)
    ensures LiveFrom(items, head, superseded + more) == Without(LiveFrom(items, head, superseded), slot)
  {
    if items != [] {
      var now := if head in superseded then [] else [items[0]];
      MarksRest(items, head, superseded, slot, more);
      LiveWithTombstone(items[1..], head + 1, superseded, slot, more);
      WithoutJoins(now, LiveFrom(items[1..], head + 1, superseded), slot);
      assert head + 0 == head;
      WithoutOne(items[0], slot);
    }
  }

  lemma WithoutOne(e: Event, slot: Slot)
    ensures Without([e], slot) == if SlotOf(e) == Some(slot) then [] else [e]
  {}

  lemma MarksRest(items: seq<Event>, head: nat, superseded: set<nat>, slot: Slot, more: set<nat>)
    requires Marks(items, head, superseded, slot, more) && items != []
    ensures Marks(items[1..], head + 1, superseded, slot, more)
    ensures head !in superseded ==> (head in more <==> SlotOf(items[0]) == Some(slot))
  {
    assert head + 0 == head;
    forall i | 0 <= i < |items[1..]|
      ensures head + 1 + i !in superseded ==> (head + 1 + i in more <==> SlotOf(items[1..][i]) == Some(slot))
    {
      assert items[1..][i] == items[i + 1] && head + (i + 1) == head + 1 + i;
    }
  }

  lemma {:induction false} LiveIgnoresFuture(items: seq<Event>, head: nat, superseded: set<nat>, at: nat)
    requires at < head
    ensures LiveFrom(items, head, superseded - {at}) == LiveFrom(items, head, superseded)
  {
    if items != [] {
      LiveIgnoresFuture(items[1..], head + 1, superseded, at);
    }
  }

  /** Pushing is pushing to the simple queue. */
  lemma PushRefines(q: Queue, e: Event)
    requires ValidQueue(q)
    ensures ValidQueue(PushEvent(q, e))
    ensures Live(PushEvent(q, e)) == Replace(Live(q), e)
  {
    PushStaysValid(q, e);
    LiveOfMore(q.items, e, q.head, PushEvent(q, e).superseded);
    if IsGauge(e) {
      var slot := SlotOf(e).value;
      var more := Outdated(q, slot);
      OutdatedIsMarked(q, slot);
      LiveWithTombstone(q.items, q.head, q.superseded, slot, more);
    }
  }

  /** The position that a new gauge takes the place of. */
  function Outdated(q: Queue, slot: Slot): set<nat> {
    if slot in q.pending then {q.pending[slot]} else {}
  }

  lemma OutdatedIsMarked(q: Queue, slot: Slot)
    requires ValidQueue(q)
    ensures Marks(q.items, q.head, q.superseded, slot, Outdated(q, slot))
  {
    forall i | 0 <= i < |q.items|
      ensures q.head + i !in q.superseded ==> (q.head + i in Outdated(q, slot) <==> SlotOf(q.items[i]) == Some(slot))
    {
      assert LiveIsPending(q, i);
      if slot in q.pending {
        assert PendingIsLive(q, slot);
      }
    }
  }

  lemma PushStaysValid(q: Queue, e: Event)
    requires ValidQueue(q)
    ensures ValidQueue(PushEvent(q, e))
    ensures q.head + |q.items| !in PushEvent(q, e).superseded
  {
    var r := PushEvent(q, e);
    forall at | at in r.superseded
      ensures TombstoneIsGauge(r, at)
    {
      if at in q.superseded {
        assert TombstoneIsGauge(q, at);
      } else {
        assert PendingIsLive(q, SlotOf(e).value);
      }
    }
    forall slot | slot in r.pending
      ensures PendingIsLive(r, slot)
    {
      if SlotOf(e) != Some(slot) {
        assert PendingIsLive(q, slot);
        if IsGauge(e) && SlotOf(e).value in q.pending {
          assert PendingIsLive(q, SlotOf(e).value);
        }
      }
    }
    forall i | 0 <= i < |r.items|
      ensures LiveIsPending(r, i)
    {
      if i < |q.items| {
        assert LiveIsPending(q, i);
      }
    }
  }

  /** Popping is popping from the simple queue; the number delivered last goes up by one. */
  lemma {:induction false} PopRefines(q: Queue)
    requires ValidQueue(q)
    ensures var (r, popped) := PopEvent(q);
      ValidQueue(r) &&
      if Live(q) == [] then popped == None && r.items == [] && Live(r) == [] && r.delivered == q.delivered
      else popped == Some(Live(q)[0]) && Live(r) == Live(q)[1..] && r.delivered == q.delivered + 1
    decreases |q.items|
  {
    if q.items != [] {
      var rest := q.(head := q.head + 1, items := q.items[1..]);
      if q.head in q.superseded {
        var skipped := rest.(superseded := q.superseded - {q.head});
        SkipStaysValid(q);
        LiveIgnoresFuture(q.items[1..], q.head + 1, q.superseded, q.head);
        PopRefines(skipped);
      } else {
        TakeStaysValid(q);
      }
    }
  }

  lemma SkipStaysValid(q: Queue)
    requires ValidQueue(q) && q.items != [] && q.head in q.superseded
    ensures ValidQueue(q.(head := q.head + 1, items := q.items[1..], superseded := q.superseded - {q.head}))
  {
    var r := q.(head := q.head + 1, items := q.items[1..], superseded := q.superseded - {q.head});
    RestStaysValid(q, r);
  }

  lemma TakeStaysValid(q: Queue)
    requires ValidQueue(q) && q.items != [] && q.head !in q.superseded
    ensures ValidQueue(PopEvent(q).0)
  {
    var r := PopEvent(q).0;
    assert LiveIsPending(q, 0);
    RestStaysValid(q, r);
  }

  lemma RestStaysValid(q: Queue, r: Queue)
    requires ValidQueue(q) && q.items != []
    requires r.head == q.head + 1 && r.items == q.items[1..] && r.superseded == q.superseded - {q.head}
    requires forall slot :: slot in r.pending <==> slot in q.pending && q.pending[slot] != q.head
    requires forall slot :: slot in r.pending ==> r.pending[slot] == q.pending[slot]
    ensures ValidQueue(r)
  {
    forall slot | slot in r.pending
      ensures PendingIsLive(r, slot)
    {
      assert PendingIsLive(q, slot);
    }
    forall i | 0 <= i < |r.items|
      ensures LiveIsPending(r, i)
    {
      assert LiveIsPending(q, i + 1);
    }
    forall at | at in r.superseded
      ensures TombstoneIsGauge(r, at)
    {
      assert TombstoneIsGauge(q, at);
    }
  }

  // ---------------------------------------------------------------------------
  // The outbox as an object

  class Outbox {
    const request: string
    var head: nat
    var number: nat
    var items: seq<Event>
    var pending: map<Slot, nat>
    var superseded: set<nat>

    ghost function Now(): Queue
      reads this
    {
      Queue(head, number, items, pending, superseded)
    }

    ghost predicate Valid()
      reads this
    {
      ValidQueue(Now())
    }

    constructor (request: string)
      ensures this.request == request && Valid() && Now() == EMPTY
    {
      this.request := request;
      head, number, items, pending, superseded := 0, 0, [], map[], {};
    }

    method Push(event: Event)
      requires Valid()
      modifies this
      ensures Valid() && Now() == PushEvent(old(Now()), event)
      ensures Live(Now()) == Replace(old(Live(Now())), event)
    {
      PushRefines(Now(), event);
      assert superseded + {} == superseded;
      var position := head + |items|;
      var slot := SlotOf(event);
      if slot.Some? {
        if slot.value in pending {
          superseded := superseded + {pending[slot.value]};
        }
        pending := pending[slot.value := position];
      }
      items := items + [event];
    }

    /** The next event, numbered and with the request. */
    method Pop() returns (envelope: Option<Envelope>)
      requires Valid()
      modifies this
      ensures Valid() && Now() == PopEvent(old(Now())).0
      ensures if old(Live(Now())) == [] then envelope == None && Live(Now()) == [] && number == old(number)
              else envelope == Some(Envelope(old(number) + 1, request, Some(old(Live(Now()))[0])))
                   && Live(Now()) == old(Live(Now()))[1..] && number == old(number) + 1
    {
      PopRefines(Now());
      while |items| > 0
        invariant PopEvent(Now()) == PopEvent(old(Now())) && number == old(number)
        decreases |items|
      {
        var event := items[0];
        items := items[1..];
        var position := head;
        head := head + 1;
        if superseded != {} && position in superseded {
          superseded := superseded - {position};
          continue;
        }
        var slot := SlotOf(event);
        if slot.Some? && slot.value in pending && pending[slot.value] == position {
          pending := pending - {slot.value};
        }
        number := number + 1;
        return Some(Envelope(number, request, Some(event)));
      }
      return None;
    }

    method Drain() returns (drained: seq<Envelope>)
      requires Valid()
      modifies this
      ensures Valid() && Live(Now()) == []
      ensures |drained| == |old(Live(Now()))| && number == old(number) + |drained|
      ensures forall i :: 0 <= i < |drained| ==>
        drained[i] == Envelope(old(number) + i + 1, request, Some(old(Live(Now()))[i]))
    {
      drained := [];
      while true
        invariant Valid() && |drained| <= |old(Live(Now()))| && number == old(number) + |drained|
        invariant Live(Now()) == old(Live(Now()))[|drained|..]
        invariant forall i :: 0 <= i < |drained| ==>
          drained[i] == Envelope(old(number) + i + 1, request, Some(old(Live(Now()))[i]))
        decreases |Live(Now())|
      {
        var envelope := Pop();
        if envelope.None? {
          return;
        }
        drained := drained + [envelope.value];
      }
    }
  }
}
