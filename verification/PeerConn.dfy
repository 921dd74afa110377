/** One peer connection, client/internal/peer/conn.go: the worker that runs Open, interleaved in every
    possible way with Close, remote offers and answers, and ICE callbacks. The sections of the code under
    the mutex and the hand-overs on its unbuffered channels are the steps. */
module PeerConn {

  datatype Status = Connected | Connecting | Disconnected

  /** The errors with which Open returns; it always returns one. */
  datatype OpenError = ClosedError | DisconnectedError | TimeoutError | OtherError

  datatype Agent = NoAgent | Created | Running

  /** Where the worker is in Open. It receives on a channel only when it waits at one of the two selects. */
  datatype Pc =
    | Idle
    | Recreating
    | Offering
    | ReachingConfirmation
    | AwaitingConfirmation
    | Answering
    | Confirmed
    | Gathering
    | Dialing
    | Proxying
    | ReachingEnd
    | AwaitingEnd
    | Cancelling(result: OpenError) // the deferred cancel of the connection's context
    | CleaningUp(result: OpenError) // the deferred cleanup

  /** The fields of Conn that change; `cancel` says whether notifyDisconnected is set. `closes` counts the
      calls of Close that returned nil, `closedOpens` the calls of Open that returned the closed error. `older`
      says whether an agent that ran and was never closed has been replaced by a later one: it can still call
      back. `crashed` records a call through a nil field. */
  datatype State = State(pc: Pc, agent: Agent, proxy: bool, cancel: bool, ctxDone: bool, status: Status,
                         closes: nat, closedOpens: nat, older: bool, crashed: bool)

  const NEW_CONN := State(Idle, NoAgent, false, false, false, Disconnected, 0, 0, false, false)

  datatype Action =
    | Open
    | ReCreateAgent(made: bool, ok: bool)
    | SendOffer(ok: bool)
    | Park                                    // the worker reaches a select
    | RemoteOffer | RemoteAnswer | Close      // calls by others
    | Timeout
    | SendAnswer(ok: bool)
    | SetConnecting
    | Gather(ok: bool)
    | Dial(ok: bool)
    | StartProxy(pairFound: bool, ok: bool)
    | IceDown                                 // the ICE callback, on Failed or Disconnected
    | OlderIceDown                            // the same callback, by an agent replaced without being closed
    | CancelDeferred
    | Cleanup(agentError: bool, proxyError: bool)

  /** The worker's steps happen where the worker is. Calls by others can come at any time, and the ICE
      callback of an agent while it runs and has not been closed. */
  predicate Enabled(s: State, a: Action) {
    match a
    case Open => s.pc.Idle?
    case ReCreateAgent(_, _) => s.pc.Recreating?
    case SendOffer(_) => s.pc.Offering?
    case Park => s.pc.ReachingConfirmation? || s.pc.ReachingEnd?
    case RemoteOffer => true
    case RemoteAnswer => true
    case Close => true
    case Timeout => s.pc.AwaitingConfirmation?
    case SendAnswer(_) => s.pc.Answering?
    case SetConnecting => s.pc.Confirmed?
    case Gather(_) => s.pc.Gathering?
    case Dial(_) => s.pc.Dialing?
    case StartProxy(_, _) => s.pc.Proxying?
    case IceDown => s.agent.Running?
    case OlderIceDown => s.older
    case CancelDeferred => s.pc.Cancelling?
    case Cleanup(_, _) => s.pc.CleaningUp?
  }

  /** A step that calls a method of the agent. */
  function UsingAgent(s: State, t: State): State {
    t.(crashed := s.crashed || s.agent.NoAgent?)
  }

  function CleanedUp(s: State, agentError: bool, proxyError: bool): State {
    if !s.agent.NoAgent? && agentError then s
    else if s.proxy && proxyError then s.(agent := NoAgent)
    else s.(agent := NoAgent, proxy := false, ctxDone := s.ctxDone || s.cancel, cancel := false, status := Disconnected)
  }

  /** The callback calls the cancel function that the connection holds at the time, whoever calls back. */
  function Notified(s: State): State {
    s.(ctxDone := true, crashed := s.crashed || !s.cancel,
       pc := if s.pc.AwaitingEnd? then Cancelling(DisconnectedError) else s.pc)
  }

  /** `Close`: the hand-over succeeds exactly when the worker waits at a select. */
  predicate CloseSucceeds(s: State) {
    s.pc.AwaitingConfirmation? || s.pc.AwaitingEnd?
  }

  function After(s: State, a: Action): State
    requires Enabled(s, a)
  {
    match a
    case Open => s.(pc := Recreating)
    case ReCreateAgent(made, ok) =>
      s.(agent := if made then Created else NoAgent, older := s.older || s.agent.Running?,
         pc := if made && ok then Offering else CleaningUp(OtherError))
    case SendOffer(ok) => UsingAgent(s, s.(pc := if ok then ReachingConfirmation else CleaningUp(OtherError)))
    case Park =>
      if s.pc.ReachingConfirmation? then s.(pc := AwaitingConfirmation)
      else s.(pc := if s.ctxDone then Cancelling(DisconnectedError) else AwaitingEnd, crashed := s.crashed || !s.proxy)
    case RemoteOffer => if s.pc.AwaitingConfirmation? then s.(pc := Answering) else s
    case RemoteAnswer => if s.pc.AwaitingConfirmation? then s.(pc := Confirmed) else s
    case Close =>
      if !CloseSucceeds(s) then s
      else s.(pc := if s.pc.AwaitingEnd? then Cancelling(ClosedError) else CleaningUp(ClosedError),
              closes := s.closes + 1)
    case Timeout => s.(pc := CleaningUp(TimeoutError))
    case SendAnswer(ok) => UsingAgent(s, s.(pc := if ok then Confirmed else CleaningUp(OtherError)))
    case SetConnecting => s.(status := Connecting, cancel := true, ctxDone := false, pc := Gathering)
    case Gather(ok) =>
      UsingAgent(s, s.(pc := if ok then Dialing else Cancelling(OtherError),
                       agent := if ok && !s.agent.NoAgent? then Running else s.agent))
    case Dial(ok) => UsingAgent(s, s.(pc := if ok then Proxying else Cancelling(OtherError)))
    case StartProxy(pairFound, ok) =>
      UsingAgent(s, if !pairFound then s.(pc := Cancelling(OtherError))
                    else if !ok then s.(proxy := true, pc := Cancelling(OtherError))
                    else s.(proxy := true, status := Connected, pc := ReachingEnd))
    case IceDown => Notified(s)
    case OlderIceDown => Notified(s)
    case CancelDeferred => s.(ctxDone := true, pc := CleaningUp(s.pc.result))
    case Cleanup(agentError, proxyError) =>
      CleanedUp(s, agentError, proxyError)
      .(pc := Idle, closedOpens := s.closedOpens + if s.pc.result == ClosedError then 1 else 0)
  }

  // ----- whole runs -----

  /** Any interleaving from a new connection: `states[i]` is the state before the i-th step. */
  ghost predicate IsRun(states: seq<State>, actions: seq<Action>) {
    && |states| == |actions| + 1
    && states[0] == NEW_CONN
    && forall i :: 0 <= i < |actions| ==> IsStep(states[i], actions[i], states[i + 1])
  }

  ghost predicate IsStep(s: State, a: Action, t: State) {
    Enabled(s, a) && t == After(s, a)
  }

  predicate HoldsAgent(pc: Pc) {
    pc.Offering? || pc.ReachingConfirmation? || pc.AwaitingConfirmation? || pc.Answering? || pc.Confirmed?
      || pc.Gathering? || AgentRuns(pc)
  }

  predicate AgentRuns(pc: Pc) {
    pc.Dialing? || pc.Proxying? || PastStartProxy(pc)
  }

  predicate PastStartProxy(pc: Pc) {
    pc.ReachingEnd? || pc.AwaitingEnd?
  }

  predicate Returning(pc: Pc) {
    pc.Cancelling? || pc.CleaningUp?
  }

  /** What every interleaving keeps, also when agents and proxies fail to close. */
  predicate Inv(s: State) {
    && (HoldsAgent(s.pc) ==> !s.agent.NoAgent?)
    && (AgentRuns(s.pc) ==> s.agent.Running?)
    && (s.agent.Running? || s.pc.Gathering? || s.pc.Cancelling? ==> s.cancel)
    && (PastStartProxy(s.pc) ==> s.proxy && s.status == Connected)
    && (s.pc.AwaitingEnd? ==> !s.ctxDone)
    && s.closes == s.closedOpens + if Returning(s.pc) && s.pc.result == ClosedError then 1 else 0
  }

  predicate Cleared(s: State) {
    s.agent.NoAgent? && !s.proxy && !s.cancel && s.status == Disconnected
  }

  /** Steps by which the worker goes from one place to the next, using what it holds. */
  predicate WorkersStep(a: Action) {
    !a.Open? && !a.ReCreateAgent? && !CallByOthers(a) && !a.Cleanup?
  }

  predicate CallByOthers(a: Action) {
    a.RemoteOffer? || a.RemoteAnswer? || a.Close? || a.IceDown? || a.OlderIceDown?
  }

  predicate BeforeContext(a: Action) {
    a.SendOffer? || a.Park? || a.Timeout? || a.SendAnswer? || a.SetConnecting?
  }

  lemma EarlyStepKeepsInv(s: State, a: Action)
    requires Inv(s) && Enabled(s, a) && BeforeContext(a)
    ensures Inv(After(s, a))
  {
  }

  lemma LateStepKeepsInv(s: State, a: Action)
    requires Inv(s) && Enabled(s, a) && WorkersStep(a) && !BeforeContext(a)
    ensures Inv(After(s, a))
  {
  }

  lemma WorkersStepKeepsInv(s: State, a: Action)
    requires Inv(s) && Enabled(s, a) && WorkersStep(a)
    ensures Inv(After(s, a))
  {
    hide Inv, Enabled, After;
    if BeforeContext(a) { EarlyStepKeepsInv(s, a); } else { LateStepKeepsInv(s, a); }
  }

  lemma CallKeepsInv(s: State, a: Action)
    requires Inv(s) && Enabled(s, a) && CallByOthers(a)
    ensures Inv(After(s, a))
  {
  }

  lemma BeginOrEndKeepsInv(s: State, a: Action)
    requires Inv(s) && Enabled(s, a) && (a.Open? || a.ReCreateAgent? || a.Cleanup?)
    ensures Inv(After(s, a))
  {
  }

  lemma StepKeepsInv(s: State, a: Action)
    requires Inv(s) && Enabled(s, a)
    ensures Inv(After(s, a))
  {
    hide Inv, Enabled, After;
    if WorkersStep(a) {
      WorkersStepKeepsInv(s, a);
    } else if CallByOthers(a) {
      CallKeepsInv(s, a);
    } else {
      BeginOrEndKeepsInv(s, a);
    }
  }

  lemma {:induction false} RunInv(states: seq<State>, actions: seq<Action>, n: nat)
    requires IsRun(states, actions) && n < |states|
    ensures Inv(states[n])
  {
    hide Enabled, After, Inv;
    if n == 0 {
      assert Inv(NEW_CONN) by { NewConnInv(); }
    } else {
      RunInv(states, actions, n - 1);
      assert IsStep(states[n - 1], actions[n - 1], states[n]);
      StepKeepsInv(states[n - 1], actions[n - 1]);
    }
  }

  lemma NewConnInv()
    ensures Inv(NEW_CONN)
  {
  }

  // ----- calls through nil -----

  /** An agent that was replaced without being closed reports, while no cancel function is set. */
  predicate CallsNil(s: State, a: Action) {
    a.OlderIceDown? && !s.cancel
  }

  lemma StepCrashesExactly(s: State, a: Action)
    requires Inv(s) && Enabled(s, a)
    ensures After(s, a).crashed <==> s.crashed || CallsNil(s, a)
  {
  }

  /** No interleaving calls through a nil agent, proxy or cancel function, but for one kind of step: the callback
      of an agent that the connection has replaced without closing it, at a moment with no cancel function. */
  lemma {:induction false} CrashesExactly(states: seq<State>, actions: seq<Action>, n: nat)
    requires IsRun(states, actions) && n < |states|
    ensures states[n].crashed <==> exists i :: 0 <= i < n && CallsNil(states[i], actions[i])
    ensures states[n].agent.Running? ==> states[n].cancel
  {
    hide Enabled, After, CallsNil;
    RunInv(states, actions, n);
    if n > 0 {
      CrashesExactly(states, actions, n - 1);
      RunInv(states, actions, n - 1);
      assert IsStep(states[n - 1], actions[n - 1], states[n]);
      StepCrashesExactly(states[n - 1], actions[n - 1]);
    }
  }

  predicate AgentCloseFails(s: State, a: Action) {
    a.Cleanup? && !s.agent.NoAgent? && a.agentError
  }

  /** No agent is left over from an earlier Open. */
  predicate NoneLeft(s: State) {
    !s.older && (s.pc.Idle? || s.pc.Recreating? ==> s.agent.NoAgent?)
  }

  lemma StepLeavesNone(s: State, a: Action)
    requires NoneLeft(s) && Enabled(s, a) && !AgentCloseFails(s, a)
    ensures NoneLeft(After(s, a))
  {
  }

  lemma {:induction false} RunLeavesNone(states: seq<State>, actions: seq<Action>, n: nat)
    requires IsRun(states, actions) && n < |states|
    requires forall i :: 0 <= i < n ==> !AgentCloseFails(states[i], actions[i])
    ensures NoneLeft(states[n])
  {
    hide Enabled, After, AgentCloseFails;
    if n > 0 {
      RunLeavesNone(states, actions, n - 1);
      assert IsStep(states[n - 1], actions[n - 1], states[n]);
      hide NoneLeft;
      StepLeavesNone(states[n - 1], actions[n - 1]);
    }
  }

  /** So nothing is called through nil as long as every agent closes. */
  lemma NeverCrashes(states: seq<State>, actions: seq<Action>, n: nat)
    requires IsRun(states, actions) && n < |states|
    requires forall i :: 0 <= i < n ==> !AgentCloseFails(states[i], actions[i])
    ensures !states[n].crashed
  {
    CrashesExactly(states, actions, n);
    forall i | 0 <= i < n ensures !CallsNil(states[i], actions[i]) {
      RunLeavesNone(states, actions, i);
      assert IsStep(states[i], actions[i], states[i + 1]);
    }
  }

  /** Every Close that returns nil matches exactly one Open that returns the closed error: at any moment as
      many have returned, but for the one whose Open is on its way out. */
  lemma ClosesMatchOpens(states: seq<State>, actions: seq<Action>, n: nat)
    requires IsRun(states, actions) && n < |states|
    ensures states[n].closes ==
      states[n].closedOpens + if Returning(states[n].pc) && states[n].pc.result == ClosedError then 1 else 0
  {
    RunInv(states, actions, n);
  }

  // ----- cleaning up -----

  predicate CloseFails(s: State, a: Action) {
    a.Cleanup? && ((!s.agent.NoAgent? && a.agentError) || (s.proxy && a.proxyError))
  }

  /** Cleanup clears the connection exactly when nothing it closes reports an error. It gives up at the first
      error: an agent that fails to close stays, and with it the proxy; a proxy that fails stays without the agent;
      and then status and cancel stay as they were. */
  lemma CleanupClearsExactly(s: State, a: Action)
    requires Enabled(s, a) && a.Cleanup?
    ensures Cleared(After(s, a)) <==> !CloseFails(s, a)
    ensures var t, agentFails := After(s, a), !s.agent.NoAgent? && a.agentError;
      && t.agent == (if agentFails then s.agent else NoAgent) && (t.proxy <==> s.proxy && (agentFails || a.proxyError))
      && (CloseFails(s, a) ==> t.status == s.status && t.cancel == s.cancel && t.ctxDone == s.ctxDone)
      && t.pc.Idle? && (t.closedOpens > s.closedOpens <==> s.pc.result == ClosedError)
  {
  }

  /** The last cleanup of the first `n` steps, if there was one, closed what there was to close. */
  ghost predicate LastCleanupOk(states: seq<State>, actions: seq<Action>, n: nat)
    requires |states| == |actions| + 1 && n <= |actions|
  {
    || n == 0
    || if actions[n - 1].Cleanup? then !CloseFails(states[n - 1], actions[n - 1])
       else LastCleanupOk(states, actions, n - 1)
  }

  lemma WorkIsNotIdle(s: State, a: Action)
    requires Enabled(s, a) && !a.Cleanup? && !CallByOthers(a)
    ensures !After(s, a).pc.Idle?
  {
  }

  lemma CallsClearNothing(s: State, a: Action)
    requires Enabled(s, a) && CallByOthers(a) && After(s, a).pc.Idle?
    ensures s.pc.Idle? && (Cleared(After(s, a)) <==> Cleared(s))
  {
  }

  lemma IdleStaysAs(s: State, a: Action)
    requires Enabled(s, a) && !a.Cleanup? && After(s, a).pc.Idle?
    ensures s.pc.Idle? && (Cleared(After(s, a)) <==> Cleared(s))
  {
    hide After, Enabled, Cleared;
    if CallByOthers(a) { CallsClearNothing(s, a); } else { WorkIsNotIdle(s, a); }
  }

  /** Outside Open the connection is Disconnected with agent, proxy and cancel cleared exactly when the last
      cleanup could close agent and proxy. */
  lemma {:induction false} OutsideOpenClearedExactly(states: seq<State>, actions: seq<Action>, n: nat)
    requires IsRun(states, actions) && n < |states| && states[n].pc.Idle?
    ensures Cleared(states[n]) <==> LastCleanupOk(states, actions, n)
  {
    if n > 0 {
      var s, a := states[n - 1], actions[n - 1];
      assert IsStep(s, a, states[n]);
      hide IsRun, After, Cleared, CloseFails;
      if a.Cleanup? {
        CleanupClearsExactly(s, a);
      } else {
        IdleStaysAs(s, a);
        OutsideOpenClearedExactly(states, actions, n - 1);
      }
    }
  }

  // ----- runs in which agents and proxies close without error -----

  predicate BeforeConnecting(pc: Pc) {
    pc.Idle? || pc.Recreating? || (HoldsAgent(pc) && !pc.Gathering? && !AgentRuns(pc))
  }

  predicate CleanInv(s: State) {
    && Inv(s)
    && (BeforeConnecting(s.pc) ==> s.status == Disconnected && !s.proxy && !s.cancel)
    && (s.pc.Idle? ==> s.agent.NoAgent?)
    && (s.status == Connected ==> !s.agent.NoAgent? && s.proxy && (PastStartProxy(s.pc) || Returning(s.pc)))
  }

  lemma WorkersStepKeepsClean(s: State, a: Action)
    requires CleanInv(s) && Enabled(s, a) && WorkersStep(a)
    ensures CleanInv(After(s, a))
  {
    hide Inv;
    StepKeepsInv(s, a);
    PlacesHold(s);
  }

  lemma PlacesHold(s: State)
    requires Inv(s)
    ensures HoldsAgent(s.pc) ==> !s.agent.NoAgent?
    ensures AgentRuns(s.pc) ==> s.agent.Running?
  {
  }

  lemma CallKeepsClean(s: State, a: Action)
    requires CleanInv(s) && Enabled(s, a) && CallByOthers(a)
    ensures CleanInv(After(s, a))
  {
    hide Inv;
    StepKeepsInv(s, a);
  }

  lemma BeginOrEndKeepsClean(s: State, a: Action)
    requires CleanInv(s) && Enabled(s, a) && (a.Open? || a.ReCreateAgent? || a.Cleanup?) && !CloseFails(s, a)
    ensures CleanInv(After(s, a))
  {
    hide Inv;
    StepKeepsInv(s, a);
  }

  lemma StepKeepsCleanInv(s: State, a: Action)
    requires CleanInv(s) && Enabled(s, a) && !CloseFails(s, a)
    ensures CleanInv(After(s, a))
  {
    hide CleanInv, Enabled, After, CloseFails;
    if WorkersStep(a) {
      WorkersStepKeepsClean(s, a);
    } else if CallByOthers(a) {
      CallKeepsClean(s, a);
    } else {
      BeginOrEndKeepsClean(s, a);
    }
  }

  lemma {:induction false} RunCleanInv(states: seq<State>, actions: seq<Action>, n: nat)
    requires IsRun(states, actions) && n < |states|
    requires forall i :: 0 <= i < n ==> !CloseFails(states[i], actions[i])
    ensures CleanInv(states[n])
  {
    hide Enabled, After, CleanInv, CloseFails;
    if n == 0 {
      assert CleanInv(NEW_CONN) by { NewConnCleanInv(); }
    } else {
      RunCleanInv(states, actions, n - 1);
      assert IsStep(states[n - 1], actions[n - 1], states[n]);
      StepKeepsCleanInv(states[n - 1], actions[n - 1]);
    }
  }

  lemma NewConnCleanInv()
    ensures CleanInv(NEW_CONN)
  {
  }

  /** The life of a connection whose agents and proxies close without error: it is Connected only with agent
      and proxy set and the worker past startProxy, and outside Open it is Disconnected and empty. */
  lemma Lifecycle(states: seq<State>, actions: seq<Action>, n: nat)
    requires IsRun(states, actions) && n < |states|
    requires forall i :: 0 <= i < n ==> !CloseFails(states[i], actions[i])
    ensures var s := states[n];
      && (s.status == Connected ==> !s.agent.NoAgent? && s.proxy && (PastStartProxy(s.pc) || Returning(s.pc)))
      && (PastStartProxy(s.pc) ==> s.status == Connected)
      && (s.pc.Idle? ==> Cleared(s))
  {
    RunCleanInv(states, actions, n);
  }

  // ----- a run in which the agent fails to close -----

  function At(pc: Pc, agent: Agent, proxy: bool, cancel: bool, ctxDone: bool, status: Status, closes: nat,
              closedOpens: nat): State
  {
    State(pc, agent, proxy, cancel, ctxDone, status, closes, closedOpens, false, false)
  }

  function StaleActions(): seq<Action> {
    [Open, ReCreateAgent(true, true), SendOffer(true), Park, RemoteAnswer, SetConnecting, Gather(true),
     Dial(true), StartProxy(true, true), Park, Close, CancelDeferred, Cleanup(true, false)]
  }

  function StaleStates(): seq<State> {
    [At(Idle, NoAgent, false, false, false, Disconnected, 0, 0),
     At(Recreating, NoAgent, false, false, false, Disconnected, 0, 0),
     At(Offering, Created, false, false, false, Disconnected, 0, 0),
     At(ReachingConfirmation, Created, false, false, false, Disconnected, 0, 0),
     At(AwaitingConfirmation, Created, false, false, false, Disconnected, 0, 0),
     At(Confirmed, Created, false, false, false, Disconnected, 0, 0),
     At(Gathering, Created, false, true, false, Connecting, 0, 0),
     At(Dialing, Running, false, true, false, Connecting, 0, 0),
     At(Proxying, Running, false, true, false, Connecting, 0, 0),
     At(ReachingEnd, Running, true, true, false, Connected, 0, 0),
     At(AwaitingEnd, Running, true, true, false, Connected, 0, 0),
     At(Cancelling(ClosedError), Running, true, true, false, Connected, 1, 0),
     At(CleaningUp(ClosedError), Running, true, true, true, Connected, 1, 0),
     At(Idle, Running, true, true, true, Connected, 1, 1)]
  }

  /** The connection is closed, its Open has returned the closed error, and it still says Connected. */
  lemma FailedCleanupLeavesConnected()
    ensures IsRun(StaleStates(), StaleActions())
    ensures var last := StaleStates()[|StaleActions()|];
      last.pc.Idle? && last.status == Connected && last.closedOpens == 1 && !Cleared(last)
  {
    var states, actions := StaleStates(), StaleActions();
    assert states[0] == NEW_CONN;
    forall i | 0 <= i < |actions| ensures IsStep(states[i], actions[i], states[i + 1]) {
      StaleStep(i);
    }
  }

  lemma StaleStep(i: nat)
    requires i < |StaleActions()|
    ensures IsStep(StaleStates()[i], StaleActions()[i], StaleStates()[i + 1])
  {
    var s, a := StaleStates()[i], StaleActions()[i];
    if i < 4 { assert i == 0 || i == 1 || i == 2 || i == 3; }
    else if i < 8 { assert i == 4 || i == 5 || i == 6 || i == 7; }
    else { assert i == 8 || i == 9 || i == 10 || i == 11 || i == 12; }
  }

  // ----- and in which it then calls back -----

  function LateActions(): seq<Action> {
    StaleActions() + [Open, ReCreateAgent(true, false), Cleanup(false, false), OlderIceDown]
  }

  function LateStates(): seq<State> {
    StaleStates()
    + [At(Recreating, Running, true, true, true, Connected, 1, 1),
       At(CleaningUp(OtherError), Created, true, true, true, Connected, 1, 1).(older := true),
       At(Idle, NoAgent, false, false, true, Disconnected, 1, 1).(older := true),
       At(Idle, NoAgent, false, false, true, Disconnected, 1, 1).(older := true, crashed := true)]
  }

  /** The agent whose close failed outlives a second Open, whose own agent is closed, and then reports. */
  lemma UnclosedAgentCallsNil()
    ensures IsRun(LateStates(), LateActions()) && LateStates()[|LateActions()|].crashed
  {
    FailedCleanupLeavesConnected();
    var states, actions := LateStates(), LateActions();
    forall i | 0 <= i < |actions| ensures IsStep(states[i], actions[i], states[i + 1]) {
      if i < |StaleActions()| {
        assert IsStep(StaleStates()[i], StaleActions()[i], StaleStates()[i + 1]);
      } else {
        LateStep(i);
      }
    }
  }

  lemma LateStep(i: nat)
    requires |StaleActions()| <= i < |LateActions()|
    ensures IsStep(LateStates()[i], LateActions()[i], LateStates()[i + 1])
  {
    assert i == 13 || i == 14 || i == 15 || i == 16;
  }
}
