/**
 The counters that nix reports (crates/nixlog/src/lib.rs). The log keeps running sums and changes
 them in constant time; the reference is a ledger of every activity that was started, with its last
 report. `Valid` ties the two together: no saturating subtraction ever clamps, and the live sums are
 those of the ledger and what was lost, the last reports of activities that were started again while
 they ran. `SumsAreExact` says when nothing is lost, `StartedAgainIsNeverSettled` that the lost stays.
 */
module NixLog {
  import opened Wrappers

  datatype Slot = Transfer | Downloads | Builds

  datatype Record =
    | Start(id: nat, slot: Option<Slot>)
    | Stop(id: nat)
    | Report(id: nat, done: nat, running: nat)
    | Other

  datatype Activity = Activity(slot: Slot, done: nat, running: nat)

  datatype Totals = Totals(finishedDone: nat, liveDone: nat, liveRunning: nat)

  datatype Plan = Plan(builds: Option<nat>, fetches: Option<nat>, downloadBytes: Option<nat>)

  datatype BuildProgress = BuildProgress(buildsDone: nat, buildsExpected: nat, buildsRunning: nat,
                                         downloadsDone: nat, downloadsExpected: nat, downloadsRunning: nat,
                                         bytesDone: nat, bytesExpected: nat)

  function Index(slot: Slot): nat {
    match slot
    case Transfer => 0
    case Downloads => 1
    case Builds => 2
  }

  function SaturatingSub(a: nat, b: nat): nat { if a < b then 0 else a - b }

  // ---------------------------------------------------------------------------
  // The ledger

  /** An activity with its last report, and whether it was stopped. */
  datatype Entry = Entry(id: nat, activity: Activity, stopped: bool)

  predicate Runs(e: Entry, id: nat) { e.id == id && !e.stopped }

  /** The index of the running activity with this id, or the length when there is none. */
  function Running(ledger: seq<Entry>, id: nat): (i: nat)
    ensures i <= |ledger| && (i < |ledger| ==> Runs(ledger[i], id))
    ensures i == |ledger| ==> forall j :: 0 <= j < |ledger| ==> !Runs(ledger[j], id)
  {
    if ledger == [] then 0
    else
      var n := |ledger| - 1;
      var i := Running(ledger[..n], id);
      if i < n then i else if Runs(ledger[n], id) then n else n + 1
  }

  /** A running activity is started again: the map of the log holds the new one in its place. */
  predicate Restarts(ledger: seq<Entry>, r: Record) {
    r.Start? && r.slot.Some? && Running(ledger, r.id) < |ledger|
  }

  /** What a record does to the ledger. */
  function Enter(ledger: seq<Entry>, r: Record): seq<Entry> {
    match r
    case Start(id, slot) =>
      if slot.None? then ledger
      else if Restarts(ledger, r) then ledger[Running(ledger, id) := Entry(id, Activity(slot.value, 0, 0), false)]
      else ledger + [Entry(id, Activity(slot.value, 0, 0), false)]
    case Stop(id) =>
      var i := Running(ledger, id);
      if i < |ledger| then ledger[i := ledger[i].(stopped := true)] else ledger
    case Report(id, done, running) =>
      var i := Running(ledger, id);
      if i < |ledger| then ledger[i := ledger[i].(activity := Activity(ledger[i].activity.slot, done, running))] else ledger
    case Other => ledger
  }

  /** The reports that the map forgot, slot by slot. */
  datatype Lost = Lost(done: nat, running: nat)

  const NOTHING_LOST: seq<Lost> := [Lost(0, 0), Lost(0, 0), Lost(0, 0)]

  function Loses(ledger: seq<Entry>, lost: seq<Lost>, r: Record): (after: seq<Lost>)
    requires |lost| == 3
    ensures |after| == 3
  {
    if !Restarts(ledger, r) then lost
    else
      var a := ledger[Running(ledger, r.id)].activity;
      var before := lost[Index(a.slot)];
      lost[Index(a.slot) := Lost(before.done + a.done, before.running + a.running)]
  }

  datatype Sum = FinishedDone | LiveDone | LiveRunning

  function Share(e: Entry, slot: Slot, sum: Sum): nat {
    if e.activity.slot != slot then 0
    else
      match sum
      case FinishedDone => if e.stopped then e.activity.done else 0
      case LiveDone => if e.stopped then 0 else e.activity.done
      case LiveRunning => if e.stopped then 0 else e.activity.running
  }

  function Total(ledger: seq<Entry>, slot: Slot, sum: Sum): nat {
    if ledger == [] then 0
    else Total(ledger[..|ledger| - 1], slot, sum) + Share(ledger[|ledger| - 1], slot, sum)
  }

  lemma {:induction false} TotalOfMore(ledger: seq<Entry>, e: Entry, slot: Slot, sum: Sum)
    ensures Total(ledger + [e], slot, sum) == Total(ledger, slot, sum) + Share(e, slot, sum)
  {
    assert (ledger + [e])[..|ledger|] == ledger;
  }

  lemma {:induction false} TotalOfChanged(ledger: seq<Entry>, i: nat, e: Entry, slot: Slot, sum: Sum)
    requires i < |ledger|
    ensures Total(ledger[i := e], slot, sum) + Share(ledger[i], slot, sum) == Total(ledger, slot, sum) + Share(e, slot, sum)
    ensures Total(ledger, slot, sum) >= Share(ledger[i], slot, sum)
  {
    var n := |ledger| - 1;
    if i < n {
      assert ledger[i := e][..n] == ledger[..n][i := e];
      TotalOfChanged(ledger[..n], i, e, slot, sum);
    } else {
      assert ledger[i := e][..n] == ledger[..n];
    }
  }

  // ---------------------------------------------------------------------------
  // The sums

  datatype State = State(live: map<nat, Activity>, totals: seq<Totals>)

  /** What a record does to the log. */
  function Apply(s: State, r: Record): State
    requires |s.totals| == 3
  {
    match r
    case Start(id, slot) => if slot.None? then s else s.(live := s.live[id := Activity(slot.value, 0, 0)])
    case Stop(id) =>
      if id !in s.live then s
      else
        var a := s.live[id];
        var sums := s.totals[Index(a.slot)];
        State(s.live - {id},
              s.totals[Index(a.slot) := Totals(sums.finishedDone + a.done, SaturatingSub(sums.liveDone, a.done),
                                               SaturatingSub(sums.liveRunning, a.running))])
    case Report(id, done, running) =>
      if id !in s.live then s
      else
        var a := s.live[id];
        var sums := s.totals[Index(a.slot)];
        State(s.live[id := Activity(a.slot, done, running)],
              s.totals[Index(a.slot) := Totals(sums.finishedDone, SaturatingSub(sums.liveDone, a.done) + done,
                                               SaturatingSub(sums.liveRunning, a.running) + running)])
    case Other => s
  }

  ghost predicate LiveTracks(live: map<nat, Activity>, ledger: seq<Entry>) {
    (forall id :: id in live <==> Running(ledger, id) < |ledger|) &&
    (forall i :: 0 <= i < |ledger| && !ledger[i].stopped ==>
      Running(ledger, ledger[i].id) == i && ledger[i].id in live && live[ledger[i].id] == ledger[i].activity)
  }

  ghost predicate SumsTrack(totals: Totals, ledger: seq<Entry>, slot: Slot, lost: Lost) {
    totals.finishedDone == Total(ledger, slot, FinishedDone) && totals.liveDone == Total(ledger, slot, LiveDone) + lost.done &&
    totals.liveRunning == Total(ledger, slot, LiveRunning) + lost.running
  }

  ghost predicate AllSumsTrack(totals: seq<Totals>, ledger: seq<Entry>, lost: seq<Lost>) {
    |totals| == 3 && |lost| == 3 && forall slot :: SumsTrack(totals[Index(slot)], ledger, slot, lost[Index(slot)])
  }

  ghost predicate Tracks(s: State, ledger: seq<Entry>, lost: seq<Lost>) {
    LiveTracks(s.live, ledger) && AllSumsTrack(s.totals, ledger, lost)
  }

  lemma {:induction false} RunningIs(ledger: seq<Entry>, id: nat, i: nat)
    requires i < |ledger| && Runs(ledger[i], id) && forall j :: 0 <= j < |ledger| && j != i ==> !Runs(ledger[j], id)
    ensures Running(ledger, id) == i
  {}

  lemma LiveAfterStart(live: map<nat, Activity>, ledger: seq<Entry>, id: nat, slot: Slot)
    requires LiveTracks(live, ledger) && Running(ledger, id) == |ledger|
    ensures LiveTracks(live[id := Activity(slot, 0, 0)], ledger + [Entry(id, Activity(slot, 0, 0), false)])
  {
    var more := ledger + [Entry(id, Activity(slot, 0, 0), false)];
    RunningIs(more, id, |ledger|);
    forall other | other != id
      ensures Running(more, other) == if Running(ledger, other) < |ledger| then Running(ledger, other) else |more|
    {
      assert more[..|ledger|] == ledger;
    }
  }

  lemma StoppedRunning(ledger: seq<Entry>, live: map<nat, Activity>, id: nat)
    requires LiveTracks(live, ledger) && Running(ledger, id) < |ledger|
    ensures forall other :: Running(Enter(ledger, Stop(id)), other) == if other == id then |ledger| else Running(ledger, other)
  {
    var i, after := Running(ledger, id), Enter(ledger, Stop(id));
    forall other
      ensures Running(after, other) == if other == id then |ledger| else Running(ledger, other)
    {
      SameRunning(ledger, after, other, i);
    }
  }

  lemma LiveAfterStop(live: map<nat, Activity>, ledger: seq<Entry>, id: nat)
    requires LiveTracks(live, ledger) && Running(ledger, id) < |ledger|
    ensures LiveTracks(live - {id}, Enter(ledger, Stop(id)))
  {
    var i, after := Running(ledger, id), Enter(ledger, Stop(id));
    StoppedRunning(ledger, live, id);
    forall j | 0 <= j < |after| && !after[j].stopped
      ensures Running(after, after[j].id) == j && after[j].id in live - {id} && live[after[j].id] == after[j].activity
    {
      assert j != i && after[j] == ledger[j];
    }
  }

  lemma SameRunning(ledger: seq<Entry>, after: seq<Entry>, other: nat, i: nat)
    requires i < |ledger| == |after| && forall j :: 0 <= j < |ledger| && j != i ==> after[j] == ledger[j]
    requires !ledger[i].stopped && after[i].id == ledger[i].id
    requires forall j :: 0 <= j < |ledger| && !ledger[j].stopped ==> Running(ledger, ledger[j].id) == j
    ensures Running(after, other)
         == if other == ledger[i].id && after[i].stopped then |ledger| else Running(ledger, other)
  {
    var k := Running(after, other);
    var was := Running(ledger, other);
    if k < |after| {
      if k != i {
        assert Runs(ledger[k], other);
      }
      RunningIs(after, other, k);
    }
  }

  lemma LiveAfterReport(live: map<nat, Activity>, ledger: seq<Entry>, id: nat, done: nat, running: nat)
    requires LiveTracks(live, ledger) && Running(ledger, id) < |ledger|
    ensures LiveTracks(live[id := Activity(live[id].slot, done, running)], Enter(ledger, Report(id, done, running)))
  {
    var i := Running(ledger, id);
    EntryReplaced(live, ledger, i, ledger[i].(activity := Activity(ledger[i].activity.slot, done, running)));
  }

  lemma LiveAfterRestart(live: map<nat, Activity>, ledger: seq<Entry>, id: nat, slot: Slot)
    requires LiveTracks(live, ledger) && Running(ledger, id) < |ledger|
    ensures LiveTracks(live[id := Activity(slot, 0, 0)], Enter(ledger, Start(id, Some(slot))))
  {
    var i := Running(ledger, id);
    EntryReplaced(live, ledger, i, Entry(id, Activity(slot, 0, 0), false));
  }

  /** The running activity with an id has another entry. */
  lemma EntryReplaced(live: map<nat, Activity>, ledger: seq<Entry>, i: nat, e: Entry)
    requires LiveTracks(live, ledger) && i < |ledger| && !ledger[i].stopped && e.id == ledger[i].id && !e.stopped
    ensures LiveTracks(live[e.id := e.activity], ledger[i := e])
  {
    var after := ledger[i := e];
    forall other
      ensures Running(after, other) == Running(ledger, other)
    {
      SameRunning(ledger, after, other, i);
    }
  }

  lemma SumsAfter(totals: Totals, ledger: seq<Entry>, i: nat, e: Entry, slot: Slot, lost: Lost)
    requires i < |ledger| && SumsTrack(totals, ledger, slot, lost)
    ensures totals.finishedDone >= Share(ledger[i], slot, FinishedDone)
    ensures totals.liveDone >= Share(ledger[i], slot, LiveDone) && totals.liveRunning >= Share(ledger[i], slot, LiveRunning)
    ensures SumsTrack(Totals(totals.finishedDone - Share(ledger[i], slot, FinishedDone) + Share(e, slot, FinishedDone),
                             totals.liveDone - Share(ledger[i], slot, LiveDone) + Share(e, slot, LiveDone),
                             totals.liveRunning - Share(ledger[i], slot, LiveRunning) + Share(e, slot, LiveRunning)),
                      ledger[i := e], slot, lost)
  {
    TotalOfChanged(ledger, i, e, slot, FinishedDone);
    TotalOfChanged(ledger, i, e, slot, LiveDone);
    TotalOfChanged(ledger, i, e, slot, LiveRunning);
  }

  /** A new entry adds nothing yet. */
  lemma AllSumsOfMore(totals: seq<Totals>, ledger: seq<Entry>, lost: seq<Lost>, e: Entry)
    requires AllSumsTrack(totals, ledger, lost)
    requires !e.stopped && e.activity.done == 0 && e.activity.running == 0
    ensures AllSumsTrack(totals, ledger + [e], lost)
  {
    forall slot: Slot
      ensures SumsTrack(totals[Index(slot)], ledger + [e], slot, lost[Index(slot)])
    {
      TotalOfMore(ledger, e, slot, FinishedDone);
      TotalOfMore(ledger, e, slot, LiveDone);
      TotalOfMore(ledger, e, slot, LiveRunning);
    }
  }

  /** All sums once an entry changed: those of its slot by the difference, the others not. */
  lemma AllSumsAfter(totals: seq<Totals>, ledger: seq<Entry>, lost: seq<Lost>, i: nat, e: Entry, sums: Totals)
    requires i < |ledger| && AllSumsTrack(totals, ledger, lost)
    requires !ledger[i].stopped && e.activity.slot == ledger[i].activity.slot
    requires var now, a := totals[Index(e.activity.slot)], ledger[i].activity;
      sums == if e.stopped then Totals(now.finishedDone + e.activity.done, SaturatingSub(now.liveDone, a.done),
                                       SaturatingSub(now.liveRunning, a.running))
              else Totals(now.finishedDone, SaturatingSub(now.liveDone, a.done) + e.activity.done,
                          SaturatingSub(now.liveRunning, a.running) + e.activity.running)
    requires e.stopped ==> e.activity == ledger[i].activity
    ensures totals[Index(e.activity.slot)].liveDone >= ledger[i].activity.done
    ensures totals[Index(e.activity.slot)].liveRunning >= ledger[i].activity.running
    ensures AllSumsTrack(totals[Index(e.activity.slot) := sums], ledger[i := e], lost)
  {
    forall slot: Slot
      ensures SumsTrack(totals[Index(e.activity.slot) := sums][Index(slot)], ledger[i := e], slot, lost[Index(slot)])
      ensures slot == e.activity.slot ==>
        totals[Index(slot)].liveDone >= ledger[i].activity.done && totals[Index(slot)].liveRunning >= ledger[i].activity.running
    {
      SumsAfter(totals[Index(slot)], ledger, i, e, slot, lost[Index(slot)]);
    }
  }

  /** The sums stay as they are when an activity is started again, so its last report is lost to them. */
  lemma AllSumsAfterRestart(totals: seq<Totals>, ledger: seq<Entry>, lost: seq<Lost>, r: Record)
    requires AllSumsTrack(totals, ledger, lost) && Restarts(ledger, r)
    ensures AllSumsTrack(totals, Enter(ledger, r), Loses(ledger, lost, r))
  {
    var i, e := Running(ledger, r.id), Entry(r.id, Activity(r.slot.value, 0, 0), false);
    forall slot: Slot
      ensures SumsTrack(totals[Index(slot)], Enter(ledger, r), slot, Loses(ledger, lost, r)[Index(slot)])
    {
      TotalOfChanged(ledger, i, e, slot, FinishedDone);
      TotalOfChanged(ledger, i, e, slot, LiveDone);
      TotalOfChanged(ledger, i, e, slot, LiveRunning);
    }
  }

  /** The live sums hold the activity's own share, so taking it away does not clamp. */
  predicate HoldsShare(s: State, a: Activity) {
    |s.totals| == 3 && s.totals[Index(a.slot)].liveDone >= a.done && s.totals[Index(a.slot)].liveRunning >= a.running
  }

  lemma StartStep(s: State, ledger: seq<Entry>, lost: seq<Lost>, id: nat, slot: Slot)
    requires |lost| == 3 && Tracks(s, ledger, lost)
    ensures var r := Start(id, Some(slot)); Tracks(Apply(s, r), Enter(ledger, r), Loses(ledger, lost, r))
  {
    if Restarts(ledger, Start(id, Some(slot))) {
      LiveAfterRestart(s.live, ledger, id, slot);
      AllSumsAfterRestart(s.totals, ledger, lost, Start(id, Some(slot)));
    } else {
      LiveAfterStart(s.live, ledger, id, slot);
      AllSumsOfMore(s.totals, ledger, lost, Entry(id, Activity(slot, 0, 0), false));
    }
  }

  lemma StopStep(s: State, ledger: seq<Entry>, lost: seq<Lost>, id: nat)
    requires |lost| == 3 && Tracks(s, ledger, lost)
    ensures Tracks(Apply(s, Stop(id)), Enter(ledger, Stop(id)), lost)
    ensures id in s.live ==> HoldsShare(s, s.live[id])
  {
    if id in s.live {
      var i, a := Running(ledger, id), s.live[id];
      LiveAfterStop(s.live, ledger, id);
      AllSumsAfter(s.totals, ledger, lost, i, ledger[i].(stopped := true), Apply(s, Stop(id)).totals[Index(a.slot)]);
    }
  }

  lemma ReportStep(s: State, ledger: seq<Entry>, lost: seq<Lost>, id: nat, done: nat, running: nat)
    requires |lost| == 3 && Tracks(s, ledger, lost)
    ensures var r := Report(id, done, running); Tracks(Apply(s, r), Enter(ledger, r), lost)
    ensures id in s.live ==> HoldsShare(s, s.live[id])
  {
    if id in s.live {
      var i, a := Running(ledger, id), s.live[id];
      LiveAfterReport(s.live, ledger, id, done, running);
      AllSumsAfter(s.totals, ledger, lost, i, ledger[i].(activity := Activity(a.slot, done, running)),
                   Apply(s, Report(id, done, running)).totals[Index(a.slot)]);
    }
  }

  /** What was done of a slot: the last reports of all activities of the ledger, and those that were lost. */
  function Done(ledger: seq<Entry>, lost: seq<Lost>, slot: Slot): nat
    requires |lost| == 3
  {
    Total(ledger, slot, FinishedDone) + Total(ledger, slot, LiveDone) + lost[Index(slot)].done
  }

  function StillRunning(ledger: seq<Entry>, lost: seq<Lost>, slot: Slot): nat
    requires |lost| == 3
  {
    Total(ledger, slot, LiveRunning) + lost[Index(slot)].running
  }

  /** What is shown is what the ledger adds up to and what was lost, against the plan or what was done beyond it. */
  function Shown(ledger: seq<Entry>, lost: seq<Lost>, plan: Plan): BuildProgress
    requires |lost| == 3
  {
    var builds, downloads, bytes := Done(ledger, lost, Builds), Done(ledger, lost, Downloads), Done(ledger, lost, Transfer);
    BuildProgress(builds, AtLeast(plan.builds, builds), StillRunning(ledger, lost, Builds),
                  downloads, AtLeast(plan.fetches, downloads), StillRunning(ledger, lost, Downloads),
                  bytes, AtLeast(plan.downloadBytes, bytes))
  }

  function AtLeast(planned: Option<nat>, done: nat): nat {
    match planned
    case None => 0
    case Some(n) => if n > done then n else done
  }

  // ---------------------------------------------------------------------------
  // The log as an object

  class NixLog {
    var live: map<nat, Activity>
    var totals: seq<Totals>
    var plan: Plan
    ghost var ledger: seq<Entry>
    ghost var lost: seq<Lost>

    ghost predicate Valid()
      reads this
    {
      |lost| == 3 && Tracks(State(live, totals), ledger, lost)
    }

    constructor ()
      ensures Valid() && ledger == [] && lost == NOTHING_LOST && plan == Plan(None, None, None)
    {
      live, totals, ledger := map[], [Totals(0, 0, 0), Totals(0, 0, 0), Totals(0, 0, 0)], [];
      lost := NOTHING_LOST;
      plan := Plan(None, None, None);
    }

    method Observe(r: Record)
      requires Valid()
      modifies this
      ensures Valid() && ledger == Enter(old(ledger), r) && lost == Loses(old(ledger), old(lost), r) && plan == old(plan)
      ensures State(live, totals) == Apply(old(State(live, totals)), r)
    {
      match r
      case Start(id, slot) =>
        if slot.Some? {
          StartActivity(id, slot.value);
        }
      case Stop(id) => StopActivity(id);
      case Report(id, done, running) => ReportProgress(id, done, running);
      case Other =>
    }

    /** The map forgets an activity that runs under the same id; the sums do not. */
    method StartActivity(id: nat, slot: Slot)
      requires Valid()
      modifies this
      ensures var r := Start(id, Some(slot));
        Valid() && ledger == Enter(old(ledger), r) && lost == Loses(old(ledger), old(lost), r) && plan == old(plan) &&
        State(live, totals) == Apply(old(State(live, totals)), r)
    {
      StartStep(State(live, totals), ledger, lost, id, slot);
      live := live[id := Activity(slot, 0, 0)];
      lost := Loses(ledger, lost, Start(id, Some(slot)));
      ledger := Enter(ledger, Start(id, Some(slot)));
    }

    /** The subtractions never clamp: the sums hold the activity's own share. */
    method StopActivity(id: nat)
      requires Valid()
      modifies this
      ensures Valid() && ledger == Enter(old(ledger), Stop(id)) && lost == old(lost) && plan == old(plan)
      ensures State(live, totals) == Apply(old(State(live, totals)), Stop(id))
      ensures id in old(live) ==> HoldsShare(old(State(live, totals)), old(live)[id])
    {
      StopStep(State(live, totals), ledger, lost, id);
      ledger := Enter(ledger, Stop(id));
      if id !in live {
        return;
      }
      var activity := live[id];
      var sums := totals[Index(activity.slot)];
      live := live - {id};
      totals := totals[Index(activity.slot) := Totals(sums.finishedDone + activity.done,
                                                      SaturatingSub(sums.liveDone, activity.done),
                                                      SaturatingSub(sums.liveRunning, activity.running))];
    }

    method ReportProgress(id: nat, done: nat, running: nat)
      requires Valid()
      modifies this
      ensures Valid() && ledger == Enter(old(ledger), Report(id, done, running)) && lost == old(lost) && plan == old(plan)
      ensures State(live, totals) == Apply(old(State(live, totals)), Report(id, done, running))
      ensures id in old(live) ==> HoldsShare(old(State(live, totals)), old(live)[id])
    {
      ReportStep(State(live, totals), ledger, lost, id, done, running);
      ledger := Enter(ledger, Report(id, done, running));
      if id !in live {
        return;
      }
      var activity := live[id];
      var sums := totals[Index(activity.slot)];
      totals := totals[Index(activity.slot) := Totals(sums.finishedDone,
                                                      SaturatingSub(sums.liveDone, activity.done) + done,
                                                      SaturatingSub(sums.liveRunning, activity.running) + running)];
      live := live[id := Activity(activity.slot, done, running)];
    }

    method Snapshot() returns (shown: BuildProgress)
      requires Valid()
      ensures shown == Shown(ledger, lost, plan)
    {
      var builds, downloads, bytes := totals[Index(Builds)], totals[Index(Downloads)], totals[Index(Transfer)];
      var buildsDone, downloadsDone := builds.finishedDone + builds.liveDone, downloads.finishedDone + downloads.liveDone;
      var bytesDone := bytes.finishedDone + bytes.liveDone;
      assert SumsTrack(builds, ledger, Builds, lost[Index(Builds)]);
      assert SumsTrack(downloads, ledger, Downloads, lost[Index(Downloads)]);
      assert SumsTrack(bytes, ledger, Transfer, lost[Index(Transfer)]);
      shown := BuildProgress(buildsDone, AtLeast(plan.builds, buildsDone), builds.liveRunning,
                             downloadsDone, AtLeast(plan.fetches, downloadsDone), downloads.liveRunning,
                             bytesDone, AtLeast(plan.downloadBytes, bytesDone));
    }
  }

  // ---------------------------------------------------------------------------
  // Any records, one after the other

  const NOTHING := State(map[], [Totals(0, 0, 0), Totals(0, 0, 0), Totals(0, 0, 0)])

  function Logged(records: seq<Record>): (s: State)
    ensures |s.totals| == 3
  {
    if records == [] then NOTHING else Apply(Logged(records[..|records| - 1]), records[|records| - 1])
  }

  function Entered(records: seq<Record>): seq<Entry> {
    if records == [] then [] else Enter(Entered(records[..|records| - 1]), records[|records| - 1])
  }

  function LostIn(records: seq<Record>): (lost: seq<Lost>)
    ensures |lost| == 3
  {
    if records == [] then NOTHING_LOST
    else Loses(Entered(records[..|records| - 1]), LostIn(records[..|records| - 1]), records[|records| - 1])
  }

  /** One record keeps the log in step with the ledger, whatever runs. */
  lemma RecordStep(s: State, ledger: seq<Entry>, lost: seq<Lost>, r: Record)
    requires |lost| == 3 && Tracks(s, ledger, lost)
    ensures Tracks(Apply(s, r), Enter(ledger, r), Loses(ledger, lost, r))
  {
    match r
    case Start(id, slot) =>
      if slot.Some? {
        StartStep(s, ledger, lost, id, slot.value);
      }
    case Stop(id) => StopStep(s, ledger, lost, id);
    case Report(id, done, running) => ReportStep(s, ledger, lost, id, done, running);
    case Other =>
  }

  /** After any records the sums are those of the ledger and what was lost. */
  lemma {:induction false} AnyRecordsTrack(records: seq<Record>)
    ensures Tracks(Logged(records), Entered(records), LostIn(records))
  {
    if records != [] {
      AnyRecordsTrack(records[..|records| - 1]);
      RecordStep(Logged(records[..|records| - 1]), Entered(records[..|records| - 1]), LostIn(records[..|records| - 1]),
                 records[|records| - 1]);
    }
  }

  /** Whoever is started again while it runs had reported nothing, or nothing but zeros at last. */
  predicate NothingIsLost(records: seq<Record>) {
    forall k :: 0 <= k < |records| ==> LosesNothing(Entered(records[..k]), records[k])
  }

  predicate LosesNothing(ledger: seq<Entry>, r: Record) {
    Restarts(ledger, r) ==> var a := ledger[Running(ledger, r.id)].activity; a.done == 0 && a.running == 0
  }

  lemma LosesExactly(ledger: seq<Entry>, lost: seq<Lost>, r: Record)
    requires |lost| == 3
    ensures Loses(ledger, lost, r) == NOTHING_LOST <==> lost == NOTHING_LOST && LosesNothing(ledger, r)
  {
    var after := Loses(ledger, lost, r);
    if Restarts(ledger, r) {
      var a := ledger[Running(ledger, r.id)].activity;
      assert after[Index(a.slot)] == Lost(lost[Index(a.slot)].done + a.done, lost[Index(a.slot)].running + a.running);
      if after == NOTHING_LOST {
        assert NOTHING_LOST[Index(a.slot)] == Lost(0, 0);
        assert lost[0] == NOTHING_LOST[0] && lost[1] == NOTHING_LOST[1] && lost[2] == NOTHING_LOST[2];
      }
    }
  }

  lemma {:induction false} LostExactly(records: seq<Record>)
    ensures LostIn(records) == NOTHING_LOST <==> NothingIsLost(records)
  {
    if records != [] {
      var n := |records| - 1;
      LostExactly(records[..n]);
      LosesExactly(Entered(records[..n]), LostIn(records[..n]), records[n]);
      LossSplits(records, n);
    }
  }

  lemma LossSplits(records: seq<Record>, n: nat)
    requires |records| == n + 1
    ensures NothingIsLost(records) <==> NothingIsLost(records[..n]) && LosesNothing(Entered(records[..n]), records[n])
  {
    forall k | 0 <= k < n
      ensures records[..n][..k] == records[..k] && records[..n][k] == records[k]
    {}
  }

  lemma ExactSums(totals: seq<Totals>, ledger: seq<Entry>, lost: seq<Lost>)
    requires AllSumsTrack(totals, ledger, lost)
    ensures AllSumsTrack(totals, ledger, NOTHING_LOST) <==> lost == NOTHING_LOST
  {
    if AllSumsTrack(totals, ledger, NOTHING_LOST) {
      forall slot: Slot
        ensures lost[Index(slot)] == Lost(0, 0)
      {
        assert SumsTrack(totals[Index(slot)], ledger, slot, NOTHING_LOST[Index(slot)]);
        assert SumsTrack(totals[Index(slot)], ledger, slot, lost[Index(slot)]);
      }
      assert lost[Index(Transfer)] == Lost(0, 0) && lost[Index(Downloads)] == Lost(0, 0) && lost[Index(Builds)] == Lost(0, 0);
      assert lost == NOTHING_LOST;
    }
  }

  /** All sums are those over the ledger exactly when nothing is lost. */
  lemma SumsAreExact(records: seq<Record>)
    ensures AllSumsTrack(Logged(records).totals, Entered(records), NOTHING_LOST) <==> NothingIsLost(records)
  {
    AnyRecordsTrack(records);
    LostExactly(records);
    ExactSums(Logged(records).totals, Entered(records), LostIn(records));
  }

  /** What is lost stays lost, whatever is logged later. */
  lemma {:induction false} LostForEver(records: seq<Record>, more: seq<Record>, slot: Slot)
    ensures LostIn(records + more)[Index(slot)].done >= LostIn(records)[Index(slot)].done
    ensures LostIn(records + more)[Index(slot)].running >= LostIn(records)[Index(slot)].running
    decreases |more|
  {
    if more == [] {
      assert records + more == records;
    } else {
      var n := |more| - 1;
      assert (records + more)[..|records| + n] == records + more[..n];
      LostForEver(records, more[..n], slot);
    }
  }

  lemma {:induction false} NothingRunsNothingLives(ledger: seq<Entry>, slot: Slot)
    requires forall i :: 0 <= i < |ledger| ==> ledger[i].stopped
    ensures Total(ledger, slot, LiveDone) == 0 && Total(ledger, slot, LiveRunning) == 0
  {
    if ledger != [] {
      NothingRunsNothingLives(ledger[..|ledger| - 1], slot);
    }
  }

  /** Once everything was stopped, what still counts as live is what was lost, of that and all earlier times. */
  lemma StartedAgainIsNeverSettled(records: seq<Record>, more: seq<Record>, slot: Slot)
    requires Logged(records + more).live == map[]
    ensures var totals, lost := Logged(records + more).totals[Index(slot)], LostIn(records)[Index(slot)];
      totals.liveDone >= lost.done && totals.liveRunning >= lost.running
    ensures var totals, lost := Logged(records + more).totals[Index(slot)], LostIn(records + more)[Index(slot)];
      totals.liveDone == lost.done && totals.liveRunning == lost.running
  {
    AnyRecordsTrack(records + more);
    LostForEver(records, more, slot);
    NothingRunsNothingLives(Entered(records + more), slot);
    assert SumsTrack(Logged(records + more).totals[Index(slot)], Entered(records + more), slot, LostIn(records + more)[Index(slot)]);
  }

  /** The smallest case: one activity, started again after a report, and then stopped. */
  lemma AnActivityStartedTwice()
    ensures var once := Apply(Apply(NOTHING, Start(1, Some(Builds))), Report(1, 5, 1));
      var last := Apply(Apply(once, Start(1, Some(Builds))), Stop(1));
      last.live == map[] && last.totals[Index(Builds)] == Totals(0, 5, 1)
  {
    var once := Apply(Apply(NOTHING, Start(1, Some(Builds))), Report(1, 5, 1));
    assert once.totals[2] == Totals(0, 5, 1);
    var again := Apply(once, Start(1, Some(Builds)));
    assert again.live == map[1 := Activity(Builds, 0, 0)];
    assert again.live - {1} == map[];
  }

  // ---------------------------------------------------------------------------
  // What a log shows over time

  /** What was done never goes down while no report takes back what was reported before. */
  predicate Grows(ledger: seq<Entry>, r: Record) {
    r.Report? && Running(ledger, r.id) < |ledger| ==> ledger[Running(ledger, r.id)].activity.done <= r.done
  }

  lemma DoneAfterChange(ledger: seq<Entry>, lost: seq<Lost>, i: nat, e: Entry, slot: Slot)
    requires i < |ledger| && |lost| == 3 && !ledger[i].stopped
    ensures Done(ledger[i := e], lost, slot) + (if ledger[i].activity.slot == slot then ledger[i].activity.done else 0)
         == Done(ledger, lost, slot) + (if e.activity.slot == slot then e.activity.done else 0)
  {
    TotalOfChanged(ledger, i, e, slot, FinishedDone);
    TotalOfChanged(ledger, i, e, slot, LiveDone);
  }

  lemma DoneNeverShrinks(ledger: seq<Entry>, lost: seq<Lost>, r: Record, slot: Slot)
    requires Grows(ledger, r) && |lost| == 3
    ensures Done(Enter(ledger, r), Loses(ledger, lost, r), slot) >= Done(ledger, lost, slot)
    ensures !r.Report? ==> Done(Enter(ledger, r), Loses(ledger, lost, r), slot) == Done(ledger, lost, slot)
  {
    match r
    case Start(id, s) =>
      if s.Some? {
        var e := Entry(id, Activity(s.value, 0, 0), false);
        if Restarts(ledger, r) {
          DoneAfterChange(ledger, lost, Running(ledger, id), e, slot);
        } else {
          TotalOfMore(ledger, e, slot, FinishedDone);
          TotalOfMore(ledger, e, slot, LiveDone);
        }
      }
    case Stop(id) =>
      var i := Running(ledger, id);
      if i < |ledger| {
        DoneAfterChange(ledger, lost, i, ledger[i].(stopped := true), slot);
      }
    case Report(id, done, running) =>
      var i := Running(ledger, id);
      if i < |ledger| {
        DoneAfterChange(ledger, lost, i, ledger[i].(activity := Activity(ledger[i].activity.slot, done, running)), slot);
      }
    case Other =>
  }
}
