/**
 The session with the agent that works on a user's own files (crates/home/src/lib.rs): `serve` on one
 side, the calls of `Agent` on the other, and a queue in each direction. The two sides take their
 steps in any order. `EveryRunIsTheSequentialOne` says that this never shows: no message comes out
 of turn, nobody waits for ever, and every call ends with what it would have done on its own.
 */
module Agent {
  import opened Wrappers
  import opened FileTree
  import opened FileActions
  import opened FileUndo
  import Commit

  datatype Question = Observing | AskingActive | AskingGeneration | AskingExists | AskingBuilt

  /** A call of the client; `agrees` is what it says to a prepared undo, `waits` how often the locks are taken. */
  datatype Call =
    | PerformCall(action: Action, agrees: bool)
    | CommitCall
    | AskCall(question: Question)
    | WaitCall(waits: nat)
    | AdoptCall(pending: seq<Path>)

  datatype Request =
    | Performing(action: Action) | Committing | Proceed | Refusing | Adopting(pending: seq<Path>)
    | Asking(question: Question) | WaitingFor(waits: nat)

  datatype Reply = Prepared | Done(result: Result<(), Failing>) | Answered(question: Question) | Waiting | Free

  /** What a call returns. */
  datatype Ending = Acted(result: Result<(), Failing>) | Told(question: Question) | Freed(waits: nat) | Sent

  datatype Client = Idle | Awaiting(call: Call, seen: nat)

  datatype Server = Listening | Preparing(action: Action) | Locked(waits: nat)

  datatype Session = Session(calls: seq<Call>, client: Client, server: Server, toServer: seq<Request>, toClient: seq<Reply>,
                             files: State, endings: seq<Ending>, broken: bool)

  // ---------------------------------------------------------------------------
  // The agent's own refusals

  /** Some node of the tree belongs to another user. */
  ghost predicate HoldsOther(node: Node, uid: nat) {
    node.owner.0 != uid || (node.Dir? && exists n :: n in node.entries && HoldsOther(node.entries[n], uid))
  }

  ghost predicate IsRefused(s: State, a: Action) {
    (a.SetAside? || a.Discard? || a.RemoveCreatedTree?) &&
    IsDir(s.root, a.path.dir) && a.path.name in EntriesAt(s.root, a.path.dir).value &&
    HoldsOther(EntriesAt(s.root, a.path.dir).value[a.path.name], s.running.0)
  }

  /**
   The source looks through trusted links for what it refuses. Where a link is on the way, setting aside
   and removing are in conflict with it in any case and change nothing.
   */
  lemma LinksOnTheWayConflict(s: State, a: Action, agrees: bool)
    requires a.SetAside? || a.RemoveCreatedTree?
    requires EntriesAt(s.root, a.path.dir) == Failure(Loop)
    ensures FileActions.Perform(s, a, agrees).state == s && FileActions.Perform(s, a, agrees).result == Failure(Conflict)
  {
    assert Located(s, a.path) == Failure(Conflict);
  }

  /** The action gets as far as announcing its undo. */
  predicate Announces(s: State, a: Action) { FileActions.Perform(s, a, false).result == Failure(NotPrepared) }

  /** An action that announces nothing is the same whatever the answer would have been. */
  lemma UnannouncedIsIndifferent(s: State, a: Action)
    requires !Announces(s, a)
    ensures FileActions.Perform(s, a, true) == FileActions.Perform(s, a, false)
  {}

  /** `Action::Commit`, which announces nothing and fails with the first path that it keeps. */
  function CommitOf(s: State): (State, Result<(), Failing>) {
    var (after, kept) := Commit.Committed(s.root, s.pending, s.running.0);
    (s.(root := after, pending := kept),
     match Commit.FirstKept(s.root, s.pending, s.running.0)
     case None => Success(())
     case Some((_, Unreachable(errno))) => Failure(if errno == Loop then Conflict else Io(errno))
     case Some((_, OwnedBy(_))) => Failure(Conflict))
  }

  // ---------------------------------------------------------------------------
  // One call after the other

  /** What a call does on its own. */
  ghost function Alone(files: State, call: Call): (State, Ending) {
    match call
    case PerformCall(action, agrees) =>
      if IsRefused(files, action) then (files, Acted(Failure(Conflict)))
      else
        var done := FileActions.Perform(files, action, agrees);
        (done.state, Acted(done.result))
    case CommitCall => (CommitOf(files).0, Acted(CommitOf(files).1))
    case AskCall(question) => (files, Told(question))
    case WaitCall(waits) => (files, Freed(waits))
    case AdoptCall(pending) => (files.(pending := files.pending + pending), Sent)
  }

  ghost function InTurn(files: State, calls: seq<Call>): (State, seq<Ending>)
    decreases |calls|
  {
    if calls == [] then (files, [])
    else
      var (after, ending) := Alone(files, calls[0]);
      var (last, endings) := InTurn(after, calls[1..]);
      (last, [ending] + endings)
  }

  // ---------------------------------------------------------------------------
  // The steps

  function RequestOf(call: Call): Request {
    match call
    case PerformCall(action, _) => Performing(action)
    case CommitCall => Committing
    case AskCall(question) => Asking(question)
    case WaitCall(waits) => WaitingFor(waits)
    case AdoptCall(pending) => Adopting(pending)
  }

  /** The call waits for the outcome of an action. */
  predicate Acts(call: Call) { call.PerformCall? || call.CommitCall? }

  predicate ClientCanStep(s: Session) {
    !s.broken && if s.client.Idle? then s.calls != [] else s.toClient != []
  }

  /** A call is sent, or a reply taken. */
  function ClientStep(s: Session): Session
    requires ClientCanStep(s)
  {
    match s.client
    case Idle =>
      var call := s.calls[0];
      var sent := s.(calls := s.calls[1..], toServer := s.toServer + [RequestOf(call)]);
      if call.AdoptCall? then sent.(endings := s.endings + [Sent]) else sent.(client := Awaiting(call, 0))
    case Awaiting(call, seen) =>
      var reply := s.toClient[0];
      var taken := s.(toClient := s.toClient[1..]);
      var ended := taken.(client := Idle);
      if call.PerformCall? && reply.Prepared? then
        taken.(toServer := s.toServer + [if call.agrees then Proceed else Refusing])
      else if Acts(call) && reply.Done? then ended.(endings := s.endings + [Acted(reply.result)])
      else if call.WaitCall? && reply.Waiting? then taken.(client := Awaiting(call, seen + 1))
      else if call.WaitCall? && reply.Free? then ended.(endings := s.endings + [Freed(seen)])
      else if call.AskCall? && reply == Answered(call.question) then ended.(endings := s.endings + [Told(reply.question)])
      else s.(broken := true)
  }

  predicate ServerCanStep(s: Session) {
    !s.broken && (s.server.Locked? || s.toServer != [])
  }

  /** A request is taken, or a wait for the locks goes on. */
  ghost function ServerStep(s: Session): Session
    requires ServerCanStep(s)
  {
    if s.server.Locked? then
      if s.server.waits > 0 then s.(server := Locked(s.server.waits - 1), toClient := s.toClient + [Waiting])
      else s.(server := Listening, toClient := s.toClient + [Free])
    else
      var request := s.toServer[0];
      var taken := s.(toServer := s.toServer[1..]);
      if s.server.Preparing? then
        if request.Proceed? || request.Refusing? then
          var done := FileActions.Perform(s.files, s.server.action, request.Proceed?);
          taken.(server := Listening, files := done.state, toClient := s.toClient + [Done(done.result)])
        else s.(broken := true)
      else
        match request
        case Adopting(pending) => taken.(files := s.files.(pending := s.files.pending + pending))
        case Asking(question) => taken.(toClient := s.toClient + [Answered(question)])
        case WaitingFor(waits) => taken.(server := Locked(waits))
        case Committing => taken.(files := CommitOf(s.files).0, toClient := s.toClient + [Done(CommitOf(s.files).1)])
        case Performing(action) =>
          if IsRefused(s.files, action) then taken.(toClient := s.toClient + [Done(Failure(Conflict))])
          else if Announces(s.files, action) then taken.(server := Preparing(action), toClient := s.toClient + [Prepared])
          else
            var done := FileActions.Perform(s.files, action, false);
            taken.(files := done.state, toClient := s.toClient + [Done(done.result)])
        case _ => s.(broken := true)
  }

  function Start(files: State, calls: seq<Call>): Session {
    Session(calls, Idle, Listening, [], [], files, [], false)
  }

  predicate IsOver(s: Session) { s.calls == [] && s.client.Idle? && s.toServer == [] }

  // ---------------------------------------------------------------------------
  // Where a session can be

  predicate OnlyAdopts(requests: seq<Request>) { forall r | r in requests :: r.Adopting? }

  ghost predicate AllWaiting(replies: seq<Reply>) { forall r | r in replies :: r.Waiting? }

  /** The request of the awaited call is still on its way, behind those that need no reply. */
  ghost predicate OnItsWay(s: Session) {
    s.client.Awaiting? && s.client.seen == 0 && !s.client.call.AdoptCall? && s.server.Listening? && s.toClient == [] &&
    s.toServer != [] && s.toServer[|s.toServer| - 1] == RequestOf(s.client.call) && OnlyAdopts(s.toServer[..|s.toServer| - 1])
  }

  /** The undo was announced, and the question or its answer is on its way. */
  ghost predicate BeingPrepared(s: Session) {
    s.client.Awaiting? && s.client.call.PerformCall? && s.server == Preparing(s.client.call.action) &&
    !IsRefused(s.files, s.client.call.action) && Announces(s.files, s.client.call.action) &&
    ((s.toServer == [] && s.toClient == [Prepared]) ||
     (s.toClient == [] && s.toServer == [if s.client.call.agrees then Proceed else Refusing]))
  }

  /** The last reply of the call is on its way. */
  ghost predicate BeingAnswered(s: Session) {
    s.client.Awaiting? && s.server.Listening? && s.toServer == [] &&
    ((Acts(s.client.call) && |s.toClient| == 1 && s.toClient[0].Done?) ||
     (s.client.call.AskCall? && s.toClient == [Answered(s.client.call.question)]))
  }

  /** The locks are waited for, or free with word of it on its way. */
  ghost predicate BeingWaited(s: Session) {
    s.client.Awaiting? && s.client.call.WaitCall? && s.toServer == [] &&
    ((s.server.Locked? && AllWaiting(s.toClient) && s.client.seen + |s.toClient| + s.server.waits == s.client.call.waits) ||
     (s.server.Listening? && s.toClient != [] && s.toClient[|s.toClient| - 1].Free? &&
      AllWaiting(s.toClient[..|s.toClient| - 1]) && s.client.seen + |s.toClient| - 1 == s.client.call.waits))
  }

  ghost predicate AtRest(s: Session) {
    s.client.Idle? && s.server.Listening? && s.toClient == [] && OnlyAdopts(s.toServer)
  }

  ghost predicate InOrder(s: Session) {
    !s.broken && (AtRest(s) || OnItsWay(s) || BeingPrepared(s) || BeingAnswered(s) || BeingWaited(s))
  }

  // ---------------------------------------------------------------------------
  // What a session comes to

  function Adopted(files: State, requests: seq<Request>): State
    decreases |requests|
  {
    if requests == [] then files
    else if requests[0].Adopting? then Adopted(files.(pending := files.pending + requests[0].pending), requests[1..])
    else Adopted(files, requests[1..])
  }

  /** The files and the endings in the end, one call done after the other from here. */
  ghost function Outcome(s: Session): (State, seq<Ending>)
    requires InOrder(s)
  {
    if s.client.Idle? then
      var (last, endings) := InTurn(Adopted(s.files, s.toServer), s.calls);
      (last, s.endings + endings)
    else
      var (after, ending) :=
        if BeingAnswered(s) then
          (s.files, if Acts(s.client.call) then Acted(s.toClient[0].result) else Told(s.client.call.question))
        else if BeingPrepared(s) || BeingWaited(s) then Alone(s.files, s.client.call)
        else Alone(Adopted(s.files, s.toServer[..|s.toServer| - 1]), s.client.call);
      var (last, endings) := InTurn(after, s.calls);
      (last, s.endings + ([ending] + endings))
  }

  lemma {:induction false} AdoptedMore(files: State, requests: seq<Request>, request: Request)
    ensures Adopted(files, requests + [request]) == Adopted(Adopted(files, requests), [request])
    decreases |requests|
  {
    if requests == [] {
      assert requests + [request] == [request];
    } else {
      assert (requests + [request])[1..] == requests[1..] + [request] && (requests + [request])[0] == requests[0];
      AdoptedMore(if requests[0].Adopting? then files.(pending := files.pending + requests[0].pending) else files,
                  requests[1..], request);
    }
  }

  lemma FirstInTurn(files: State, calls: seq<Call>)
    requires calls != []
    ensures InTurn(files, calls)
         == (InTurn(Alone(files, calls[0]).0, calls[1..]).0,
             [Alone(files, calls[0]).1] + InTurn(Alone(files, calls[0]).0, calls[1..]).1)
  {}

  lemma SendingAdopts(s: Session)
    requires InOrder(s) && s.client.Idle? && ClientCanStep(s) && s.calls[0].AdoptCall?
    ensures InOrder(ClientStep(s)) && Outcome(ClientStep(s)) == Outcome(s)
  {
    var t, call := ClientStep(s), s.calls[0];
    var files := Adopted(s.files, s.toServer);
    FirstInTurn(files, s.calls);
    AdoptedMore(s.files, s.toServer, Adopting(call.pending));
    assert [Adopting(call.pending)][1..] == [];
    assert AtRest(t);
    OneEndingMore(s.endings, Sent, InTurn(Alone(files, call).0, t.calls).1);
  }

  lemma OneEndingMore(endings: seq<Ending>, ending: Ending, more: seq<Ending>)
    ensures endings + ([ending] + more) == endings + [ending] + more
  {}

  lemma SendingOthers(s: Session)
    requires InOrder(s) && s.client.Idle? && ClientCanStep(s) && !s.calls[0].AdoptCall?
    ensures InOrder(ClientStep(s)) && Outcome(ClientStep(s)) == Outcome(s)
  {
    var t := ClientStep(s);
    assert t.toServer[..|t.toServer| - 1] == s.toServer;
    FirstInTurn(Adopted(s.files, s.toServer), s.calls);
    assert OnItsWay(t);
  }

  lemma EndedOutcome(s: Session, t: Session, ending: Ending)
    requires InOrder(s) && AtRest(t) && !t.broken && t.toServer == [] && t.calls == s.calls
    requires t.endings == s.endings + [ending]
    requires Outcome(s) == (InTurn(t.files, s.calls).0, s.endings + ([ending] + InTurn(t.files, s.calls).1))
    ensures Outcome(t) == Outcome(s)
  {
    assert s.endings + ([ending] + InTurn(t.files, s.calls).1) == t.endings + InTurn(t.files, s.calls).1;
  }

  /** The client takes a reply: it is one for its call. */
  lemma TakingStep(s: Session)
    requires InOrder(s) && s.client.Awaiting? && ClientCanStep(s)
    ensures InOrder(ClientStep(s)) && Outcome(ClientStep(s)) == Outcome(s)
  {
    var t := ClientStep(s);
    if BeingPrepared(s) {
      assert s.toClient[1..] == [] && [] + t.toServer == t.toServer;
      assert BeingPrepared(t);
    } else if BeingAnswered(s) {
      assert t.toClient == [];
      EndedOutcome(s, t, if Acts(s.client.call) then Acted(s.toClient[0].result) else Told(s.client.call.question));
    } else {
      assert BeingWaited(s);
      if |s.toClient| == 1 && s.server.Listening? {
        assert t.toClient == [];
        EndedOutcome(s, t, Freed(s.client.seen));
      } else {
        assert s.toClient[0].Waiting?;
        WaitingShrinks(s);
        assert BeingWaited(t);
      }
    }
  }

  lemma WaitingShrinks(s: Session)
    requires BeingWaited(s) && s.toClient != [] && (s.server.Locked? || |s.toClient| > 1)
    ensures s.toClient[0].Waiting?
    ensures s.server.Locked? ==> AllWaiting(s.toClient[1..])
    ensures s.server.Listening? ==> s.toClient[1..][|s.toClient| - 2].Free? && AllWaiting(s.toClient[1..][..|s.toClient| - 2])
  {
    if s.server.Listening? {
      assert s.toClient[1..][..|s.toClient| - 2] == s.toClient[..|s.toClient| - 1][1..];
      assert s.toClient[..|s.toClient| - 1][0] == s.toClient[0];
    }
  }

  /** The agent takes a request: it is one it may get now. */
  lemma ServingStep(s: Session)
    requires InOrder(s) && ServerCanStep(s)
    ensures InOrder(ServerStep(s)) && Outcome(ServerStep(s)) == Outcome(s)
  {
    var t := ServerStep(s);
    if BeingPrepared(s) {
      assert s.toServer[1..] == [];
      assert BeingAnswered(t);
    } else if BeingWaited(s) {
      if s.server.waits == 0 {
        assert t.toClient[..|t.toClient| - 1] == s.toClient;
      }
      assert BeingWaited(t);
    } else if s.toServer[0].Adopting? {
      AdoptingStep(s);
    } else {
      assert OnItsWay(s) && |s.toServer| == 1;
      AnsweringStep(s);
    }
  }

  lemma AdoptingStep(s: Session)
    requires InOrder(s) && ServerCanStep(s) && s.server.Listening? && s.toServer[0].Adopting?
    ensures InOrder(ServerStep(s)) && Outcome(ServerStep(s)) == Outcome(s)
  {
    var t := ServerStep(s);
    if s.client.Idle? {
      assert AtRest(t);
    } else {
      assert OnItsWay(s);
      var adopts := s.toServer[..|s.toServer| - 1];
      assert |s.toServer| > 1 && adopts[0] == s.toServer[0];
      assert t.toServer[..|t.toServer| - 1] == adopts[1..];
      assert OnItsWay(t);
    }
  }

  lemma AnsweringStep(s: Session)
    requires InOrder(s) && OnItsWay(s) && |s.toServer| == 1 && ServerCanStep(s)
    ensures InOrder(ServerStep(s)) && Outcome(ServerStep(s)) == Outcome(s)
  {
    var t, call := ServerStep(s), s.client.call;
    assert s.toServer[..0] == [] && t.toServer == [];
    match call
    case PerformCall(action, agrees) =>
      if !IsRefused(s.files, action) && Announces(s.files, action) {
        assert BeingPrepared(t);
      } else {
        if !IsRefused(s.files, action) {
          UnannouncedIsIndifferent(s.files, action);
        }
        assert BeingAnswered(t);
      }
    case CommitCall => assert BeingAnswered(t);
    case AskCall(_) => assert BeingAnswered(t);
    case WaitCall(_) => assert BeingWaited(t);
  }

  // ---------------------------------------------------------------------------
  // Whole runs

  /** One of the two sides takes a step. */
  ghost predicate Next(s: Session, t: Session) {
    (ClientCanStep(s) && t == ClientStep(s)) || (ServerCanStep(s) && t == ServerStep(s))
  }

  ghost predicate IsRun(run: seq<Session>, files: State, calls: seq<Call>) {
    run != [] && run[0] == Start(files, calls) && forall i :: 0 < i < |run| ==> Next(run[i - 1], run[i])
  }

  lemma NextKeepsOrder(s: Session, t: Session)
    requires InOrder(s) && Next(s, t)
    ensures InOrder(t) && Outcome(t) == Outcome(s)
  {
    if ClientCanStep(s) && t == ClientStep(s) {
      if s.client.Idle? {
        if s.calls[0].AdoptCall? {
          SendingAdopts(s);
        } else {
          SendingOthers(s);
        }
      } else {
        TakingStep(s);
      }
    } else {
      ServingStep(s);
    }
  }

  /** In every state that can be reached no message came out of turn, and the session comes to the sequential outcome. */
  lemma {:induction false} RunsStayInOrder(run: seq<Session>, files: State, calls: seq<Call>, k: nat)
    requires IsRun(run, files, calls) && k < |run|
    ensures InOrder(run[k]) && Outcome(run[k]) == InTurn(files, calls)
  {
    if k == 0 {
      assert AtRest(run[0]);
      assert [] + InTurn(files, calls).1 == InTurn(files, calls).1;
    } else {
      RunsStayInOrder(run, files, calls, k - 1);
      NextKeepsOrder(run[k - 1], run[k]);
    }
  }

  /** As long as the session is not over, one of the two can go on. */
  lemma NobodyWaitsForEver(s: Session)
    requires InOrder(s)
    ensures IsOver(s) || ClientCanStep(s) || ServerCanStep(s)
  {}

  function CallsCost(calls: seq<Call>): nat {
    if calls == [] then 0 else CallCost(calls[0]) + CallsCost(calls[1..])
  }

  /** More than the steps that a call can take. */
  function CallCost(call: Call): nat { if call.WaitCall? then 2 * call.waits + 8 else 8 }

  function RequestCost(request: Request): nat {
    match request
    case Performing(_) => 6
    case WaitingFor(waits) => 2 * waits + 4
    case Committing => 2
    case Asking(_) => 2
    case Adopting(_) => 1
    case Proceed => 2
    case Refusing => 2
  }

  function RequestsCost(requests: seq<Request>): nat {
    if requests == [] then 0 else RequestCost(requests[0]) + RequestsCost(requests[1..])
  }

  function RepliesCost(replies: seq<Reply>): nat {
    if replies == [] then 0 else (if replies[0].Prepared? then 3 else 1) + RepliesCost(replies[1..])
  }

  /** It goes down with every step. */
  function StepsLeft(s: Session): nat {
    CallsCost(s.calls) + RequestsCost(s.toServer) + RepliesCost(s.toClient) +
    if s.server.Locked? then 2 * s.server.waits + 2 else 0
  }

  lemma {:induction false} RequestsCostMore(requests: seq<Request>, request: Request)
    ensures RequestsCost(requests + [request]) == RequestsCost(requests) + RequestCost(request)
  {
    if requests == [] {
      assert [] + [request] == [request] && [request][1..] == [];
    } else {
      assert (requests + [request])[1..] == requests[1..] + [request];
      RequestsCostMore(requests[1..], request);
    }
  }

  lemma {:induction false} RepliesCostMore(replies: seq<Reply>, reply: Reply)
    ensures RepliesCost(replies + [reply]) == RepliesCost(replies) + if reply.Prepared? then 3 else 1
  {
    if replies == [] {
      assert [] + [reply] == [reply] && [reply][1..] == [];
    } else {
      assert (replies + [reply])[1..] == replies[1..] + [reply];
      RepliesCostMore(replies[1..], reply);
    }
  }

  lemma WhereItIs(s: Session)
    requires InOrder(s)
    ensures s.server.Preparing? ==> BeingPrepared(s)
    ensures s.server.Locked? ==> BeingWaited(s)
    ensures s.server.Listening? && s.toServer != [] ==> AtRest(s) || OnItsWay(s)
    ensures s.client.Awaiting? && s.toClient != [] ==> BeingPrepared(s) || BeingAnswered(s) || BeingWaited(s)
  {}

  lemma ClientStepCosts(s: Session)
    requires InOrder(s) && ClientCanStep(s)
    ensures StepsLeft(ClientStep(s)) < StepsLeft(s)
  {
    WhereItIs(s);
    if s.client.Idle? {
      RequestsCostMore(s.toServer, RequestOf(s.calls[0]));
    } else if BeingPrepared(s) {
      RequestsCostMore(s.toServer, if s.client.call.agrees then Proceed else Refusing);
    } else if BeingWaited(s) {
      assert s.toClient[0].Waiting? || s.toClient[0].Free?;
    }
  }

  lemma PreparingCosts(s: Session)
    requires BeingPrepared(s) && ServerCanStep(s)
    ensures StepsLeft(ServerStep(s)) < StepsLeft(s)
  {
    var done := FileActions.Perform(s.files, s.server.action, s.toServer[0].Proceed?);
    RepliesCostMore(s.toClient, Done(done.result));
  }

  lemma WaitingCosts(s: Session)
    requires s.server.Locked? && ServerCanStep(s)
    ensures StepsLeft(ServerStep(s)) < StepsLeft(s)
  {
    RepliesCostMore(s.toClient, if s.server.waits > 0 then Waiting else Free);
  }

  lemma ListeningCosts(s: Session)
    requires s.server.Listening? && ServerCanStep(s) && !s.toServer[0].Proceed? && !s.toServer[0].Refusing?
    ensures StepsLeft(ServerStep(s)) < StepsLeft(s)
  {
    match s.toServer[0]
    case Asking(question) => RepliesCostMore(s.toClient, Answered(question));
    case Committing => RepliesCostMore(s.toClient, Done(CommitOf(s.files).1));
    case Performing(action) =>
      RepliesCostMore(s.toClient, Prepared);
      RepliesCostMore(s.toClient, Done(Failure(Conflict)));
      RepliesCostMore(s.toClient, Done(FileActions.Perform(s.files, action, false).result));
    case Adopting(_) =>
    case WaitingFor(_) =>
  }

  lemma ServerStepCosts(s: Session)
    requires InOrder(s) && ServerCanStep(s)
    ensures StepsLeft(ServerStep(s)) < StepsLeft(s)
  {
    WhereItIs(s);
    if s.server.Locked? {
      WaitingCosts(s);
    } else if s.server.Preparing? {
      PreparingCosts(s);
    } else {
      FirstRequest(s);
      ListeningCosts(s);
    }
  }

  lemma FirstRequest(s: Session)
    requires (AtRest(s) || OnItsWay(s)) && s.toServer != []
    ensures !s.toServer[0].Proceed? && !s.toServer[0].Refusing?
  {
    if AtRest(s) {
      assert s.toServer[0] in s.toServer && s.toServer[0].Adopting?;
    } else if |s.toServer| > 1 {
      var adopts := s.toServer[..|s.toServer| - 1];
      assert adopts[0] in adopts && adopts[0].Adopting? && adopts[0] == s.toServer[0];
    } else {
      assert s.toServer[0] == RequestOf(s.client.call);
    }
  }

  /** Every step brings the session nearer to its end, so every run ends. */
  lemma StepsRunOut(s: Session, t: Session)
    requires InOrder(s) && Next(s, t)
    ensures StepsLeft(t) < StepsLeft(s)
  {
    if ClientCanStep(s) && t == ClientStep(s) {
      ClientStepCosts(s);
    } else {
      ServerStepCosts(s);
    }
  }

  lemma StartsWithAllSteps(run: seq<Session>, files: State, calls: seq<Call>)
    requires IsRun(run, files, calls)
    ensures StepsLeft(run[0]) <= CallsCost(calls)
  {}

  lemma {:induction false} RunsAreShort(run: seq<Session>, files: State, calls: seq<Call>, k: nat)
    requires IsRun(run, files, calls) && k < |run|
    ensures k + StepsLeft(run[k]) <= CallsCost(calls)
  {
    if k > 0 {
      RunsAreShort(run, files, calls, k - 1);
      RunsStayInOrder(run, files, calls, k - 1);
      assert Next(run[k - 1], run[k]);
      StepsRunOut(run[k - 1], run[k]);
    } else {
      StartsWithAllSteps(run, files, calls);
    }
  }

  /** Every run ends, and where it ends each call has its one ending, all as if done one after the other. */
  lemma EveryRunIsTheSequentialOne(run: seq<Session>, files: State, calls: seq<Call>)
    requires IsRun(run, files, calls)
    ensures |run| <= CallsCost(calls) + 1
    ensures forall i :: 0 <= i < |run| ==> !run[i].broken
    ensures var last := run[|run| - 1];
      (forall t: Session :: !Next(last, t)) ==>
        last.files == InTurn(files, calls).0 && last.endings == InTurn(files, calls).1
  {
    RunsAreShort(run, files, calls, |run| - 1);
    forall i | 0 <= i < |run|
      ensures !run[i].broken
    {
      RunsStayInOrder(run, files, calls, i);
    }
    var last := run[|run| - 1];
    RunsStayInOrder(run, files, calls, |run| - 1);
    NobodyWaitsForEver(last);
    if !ClientCanStep(last) && !ServerCanStep(last) {
      assert last.endings + [] == last.endings;
    } else if ClientCanStep(last) {
      assert Next(last, ClientStep(last));
    } else {
      assert Next(last, ServerStep(last));
    }
  }

  /** Each call has exactly one ending, of its own kind. */
  lemma {:induction false} EndingsAnswerTheCalls(files: State, calls: seq<Call>)
    ensures |InTurn(files, calls).1| == |calls|
    ensures forall i :: 0 <= i < |calls| ==> Ends(InTurn(files, calls).1[i], calls[i])
    decreases |calls|
  {
    if calls != [] {
      EndingsAnswerTheCalls(Alone(files, calls[0]).0, calls[1..]);
      FirstInTurn(files, calls);
    }
  }

  predicate Ends(ending: Ending, call: Call) {
    match call
    case PerformCall(_, _) => ending.Acted?
    case CommitCall => ending.Acted?
    case AskCall(question) => ending == Told(question)
    case WaitCall(waits) => ending == Freed(waits)
    case AdoptCall(_) => ending == Sent
  }

  /** The files change when a request is taken only if it is a `Proceed`, an adoption, a commit, or an undo of its own. */
  lemma NoChangeBeforeProceed(s: Session, t: Session)
    requires InOrder(s) && Next(s, t) && !SameDisk(t.files, s.files)
    ensures ServerCanStep(s) && t == ServerStep(s) && !s.server.Locked?
    ensures s.server.Preparing? ==> s.toServer == [Proceed] && s.client.call.agrees
    ensures s.server.Listening? ==>
      s.toServer[0].Adopting? || s.toServer[0].Committing? ||
      (s.toServer[0].Performing? && !IsForward(s.toServer[0].action))
  {
    if s.server.Preparing? {
      if s.toServer[0].Refusing? {
        FailureChangesNothing(s.files, s.server.action, false);
      }
    } else if s.toServer != [] && s.toServer[0].Performing? {
      var action := s.toServer[0].action;
      if FileActions.Perform(s.files, action, false).result.Failure? {
        FailureChangesNothing(s.files, action, false);
      } else {
        NothingVisibleUnprepared(s.files, action);
      }
    }
  }
}
