/** What the worker of client/internal/peer/conn.go has done to get where it is: one Open is one of a few paths, and
    offers, answers and the reported status go with them. */
module ConnPaths {
  import opened PeerConn

  /** The steps of the first `n` that moved the worker since its Open began. */
  ghost function Path(states: seq<State>, actions: seq<Action>, n: nat): seq<Action>
    requires |states| == |actions| + 1 && n <= |actions|
  {
    if n == 0 then []
    else if actions[n - 1].Open? then [Open]
    else if states[n].pc == states[n - 1].pc then Path(states, actions, n - 1)
    else Path(states, actions, n - 1) + [actions[n - 1]]
  }

  /** An agent is made and the offer is sent. */
  const OFFERED := [Open, ReCreateAgent(true, true), SendOffer(true)]

  /** The other side has answered, or has made an offer itself, which has been answered. */
  predicate IsConfirmed(path: seq<Action>) {
    path == OFFERED + [Park, RemoteAnswer] || path == OFFERED + [Park, RemoteOffer, SendAnswer(true)]
  }

  /** A confirmed path and these steps. */
  predicate ConfirmedThen(path: seq<Action>, more: seq<Action>) {
    |path| >= |more| && path[|path| - |more|..] == more && IsConfirmed(path[..|path| - |more|])
  }

  const DIALED := [SetConnecting, Gather(true), Dial(true)]

  /** The ways by which Open ends once it has deferred the cancel of its context, and with which error. */
  predicate Ends(path: seq<Action>, result: OpenError) {
    || (result == OtherError
        && (ConfirmedThen(path, [SetConnecting, Gather(false)])
            || ConfirmedThen(path, [SetConnecting, Gather(true), Dial(false)])
            || ConfirmedThen(path, DIALED + [StartProxy(true, false)])
            || ConfirmedThen(path, DIALED + [StartProxy(false, true)])
            || ConfirmedThen(path, DIALED + [StartProxy(false, false)])))
    || (result == ClosedError && ConfirmedThen(path, DIALED + [StartProxy(true, true), Park, Close]))
    || (result == DisconnectedError
        && (ConfirmedThen(path, DIALED + [StartProxy(true, true), Park])
            || ConfirmedThen(path, DIALED + [StartProxy(true, true), Park, IceDown])
            || ConfirmedThen(path, DIALED + [StartProxy(true, true), Park, OlderIceDown])))
  }

  /** The ways by which it ends before. */
  predicate EndsEarly(path: seq<Action>, result: OpenError) {
    || (result == OtherError
        && ((exists made, ok :: !(made && ok) && path == [Open, ReCreateAgent(made, ok)])
            || path == [Open, ReCreateAgent(true, true), SendOffer(false)]
            || path == OFFERED + [Park, RemoteOffer, SendAnswer(false)]))
    || (result == TimeoutError && path == OFFERED + [Park, Timeout])
    || (result == ClosedError && path == OFFERED + [Park, Close])
  }

  /** The path by which the worker is at `pc`. */
  ghost predicate LeadsTo(path: seq<Action>, pc: Pc) {
    match pc
    case Idle => path == [] || path[|path| - 1].Cleanup?
    case Recreating => path == [Open]
    case Offering => path == OFFERED[..2]
    case ReachingConfirmation => path == OFFERED
    case AwaitingConfirmation => path == OFFERED + [Park]
    case Answering => path == OFFERED + [Park, RemoteOffer]
    case Confirmed => IsConfirmed(path)
    case Gathering => ConfirmedThen(path, DIALED[..1])
    case Dialing => ConfirmedThen(path, DIALED[..2])
    case Proxying => ConfirmedThen(path, DIALED)
    case ReachingEnd => ConfirmedThen(path, DIALED + [StartProxy(true, true)])
    case AwaitingEnd => ConfirmedThen(path, DIALED + [StartProxy(true, true), Park])
    case Cancelling(result) => Ends(path, result)
    case CleaningUp(result) =>
      || EndsEarly(path, result)
      || (path != [] && path[|path| - 1].CancelDeferred? && Ends(path[..|path| - 1], result))
  }

  lemma OneMore(path: seq<Action>, more: seq<Action>, a: Action)
    requires ConfirmedThen(path, more)
    ensures ConfirmedThen(path + [a], more + [a])
  {
    var longer := path + [a];
    var k := |path| - |more|;
    assert longer[..k] == path[..k] && longer[k..] == path[k..] + [a];
  }

  function Longer(path: seq<Action>, s: State, a: Action): seq<Action>
    requires Enabled(s, a)
  {
    if a.Open? then [Open] else if After(s, a).pc == s.pc then path else path + [a]
  }

  /** Calls by others move only a worker that waits. */
  lemma OthersMoveWaiting(s: State, a: Action)
    requires Enabled(s, a) && CallByOthers(a) && !CloseSucceeds(s)
    ensures After(s, a).pc == s.pc
  {
  }

  /** Where a call takes the worker that waits for its confirmation. */
  lemma ConfirmationTakes(s: State, a: Action)
    requires Enabled(s, a) && CallByOthers(a) && s.pc.AwaitingConfirmation?
    ensures After(s, a).pc ==
      if a.RemoteOffer? then Answering else if a.RemoteAnswer? then Confirmed
      else if a.Close? then CleaningUp(ClosedError) else AwaitingConfirmation
  {
  }

  lemma ConfirmationLeads(s: State, a: Action, path: seq<Action>)
    requires Enabled(s, a) && LeadsTo(path, s.pc) && CallByOthers(a) && s.pc.AwaitingConfirmation?
    ensures LeadsTo(Longer(path, s, a), After(s, a).pc)
  {
    hide Ends, After, ConfirmedThen;
    ConfirmationTakes(s, a);
    assert path + [a] == OFFERED + [Park, a];
  }

  lemma EndLeads(s: State, a: Action, path: seq<Action>)
    requires Enabled(s, a) && LeadsTo(path, s.pc) && CallByOthers(a) && s.pc.AwaitingEnd?
    ensures LeadsTo(Longer(path, s, a), After(s, a).pc)
  {
    hide ConfirmedThen, EndsEarly;
    Sequels(a);
    OneMore(path, DIALED + [StartProxy(true, true), Park], a);
  }

  lemma CallLeads(s: State, a: Action, path: seq<Action>)
    requires Enabled(s, a) && LeadsTo(path, s.pc) && CallByOthers(a)
    ensures LeadsTo(Longer(path, s, a), After(s, a).pc)
  {
    hide LeadsTo, Enabled, After;
    if s.pc.AwaitingConfirmation? {
      ConfirmationLeads(s, a, path);
    } else if s.pc.AwaitingEnd? {
      EndLeads(s, a, path);
    } else {
      OthersMoveWaiting(s, a);
    }
  }

  /** The worker's steps up to the confirmation. */
  predicate Early(a: Action) {
    a.Open? || a.ReCreateAgent? || a.SendOffer? || a.Timeout? || a.SendAnswer?
  }

  lemma EarlyStepLeads(s: State, a: Action, path: seq<Action>)
    requires Enabled(s, a) && LeadsTo(path, s.pc) && Early(a)
    ensures LeadsTo(Longer(path, s, a), After(s, a).pc)
  {
    hide LeadsTo, Enabled, After;
    if a.Timeout? || a.SendAnswer? { ConfirmingLeads(s, a, path); } else { OfferingLeads(s, a, path); }
  }

  lemma OfferingLeads(s: State, a: Action, path: seq<Action>)
    requires Enabled(s, a) && LeadsTo(path, s.pc) && (a.Open? || a.ReCreateAgent? || a.SendOffer?)
    ensures LeadsTo(Longer(path, s, a), After(s, a).pc)
  {
    hide Ends, ConfirmedThen, IsConfirmed;
  }

  lemma ConfirmingLeads(s: State, a: Action, path: seq<Action>)
    requires Enabled(s, a) && LeadsTo(path, s.pc) && (a.Timeout? || a.SendAnswer?)
    ensures LeadsTo(Longer(path, s, a), After(s, a).pc)
  {
    hide Ends, ConfirmedThen;
  }

  lemma ParkLeads(s: State, a: Action, path: seq<Action>)
    requires Enabled(s, a) && LeadsTo(path, s.pc) && a.Park?
    ensures LeadsTo(Longer(path, s, a), After(s, a).pc)
  {
    hide ConfirmedThen, EndsEarly;
    Sequels(a);
    if s.pc.ReachingEnd? { OneMore(path, DIALED + [StartProxy(true, true)], a); }
  }

  predicate Making(a: Action) {
    a.SetConnecting? || a.Gather? || a.Dial?
  }

  lemma MakingStepLeads(s: State, a: Action, path: seq<Action>)
    requires Enabled(s, a) && LeadsTo(path, s.pc) && Making(a)
    ensures LeadsTo(Longer(path, s, a), After(s, a).pc)
  {
    hide ConfirmedThen, IsConfirmed, EndsEarly;
    Sequels(a);
    match a
    case SetConnecting => ConfirmedIsThenNothing(path); OneMore(path, [], a);
    case Gather(_) => OneMore(path, DIALED[..1], a);
    case Dial(_) => OneMore(path, DIALED[..2], a);
  }

  lemma ProxyLeads(s: State, a: Action, path: seq<Action>)
    requires Enabled(s, a) && LeadsTo(path, s.pc) && a.StartProxy?
    ensures LeadsTo(Longer(path, s, a), After(s, a).pc)
  {
    hide ConfirmedThen, EndsEarly;
    OneMore(path, DIALED, a);
  }

  lemma StepLeads(s: State, a: Action, path: seq<Action>)
    requires Enabled(s, a) && LeadsTo(path, s.pc)
    ensures LeadsTo(Longer(path, s, a), After(s, a).pc)
  {
    hide LeadsTo, Enabled, After;
    if CallByOthers(a) {
      CallLeads(s, a, path);
    } else if Early(a) {
      EarlyStepLeads(s, a, path);
    } else if Making(a) {
      MakingStepLeads(s, a, path);
    } else if a.Park? {
      ParkLeads(s, a, path);
    } else if a.StartProxy? {
      ProxyLeads(s, a, path);
    } else {
      ReturningStepLeads(s, a, path);
    }
  }

  lemma ConfirmedIsThenNothing(path: seq<Action>)
    requires IsConfirmed(path)
    ensures ConfirmedThen(path, [])
  {
    assert path[..|path| - 0] == path;
  }

  /** The sequences that OneMore makes, as LeadsTo has them. */
  lemma Sequels(a: Action)
    ensures [] + [SetConnecting] == DIALED[..1] && DIALED[..1] + [Gather(true)] == DIALED[..2]
    ensures DIALED[..1] + [Gather(false)] == [SetConnecting, Gather(false)]
    ensures DIALED[..2] + [Dial(true)] == DIALED
    ensures DIALED[..2] + [Dial(false)] == [SetConnecting, Gather(true), Dial(false)]
    ensures var proxied := DIALED + [StartProxy(true, true)];
      && proxied + [Park] == DIALED + [StartProxy(true, true), Park]
      && DIALED + [StartProxy(true, true), Park] + [a] == DIALED + [StartProxy(true, true), Park, a]
  {
  }

  lemma ReturningStepLeads(s: State, a: Action, path: seq<Action>)
    requires Enabled(s, a) && LeadsTo(path, s.pc) && (a.CancelDeferred? || a.Cleanup?)
    ensures LeadsTo(Longer(path, s, a), After(s, a).pc)
  {
    hide Ends, EndsEarly;
    if After(s, a).pc != s.pc {
      assert (path + [a])[|path|] == a && (path + [a])[..|path|] == path;
    }
  }

  /** At every moment of every run, what the worker has done since its Open began is one of the paths that lead to
      where it is: no offer goes unanswered, no answer is sent unasked, and every error has its cause. */
  lemma {:induction false} PathsLead(states: seq<State>, actions: seq<Action>, n: nat)
    requires IsRun(states, actions) && n < |states|
    ensures LeadsTo(Path(states, actions, n), states[n].pc)
  {
    hide LeadsTo, Enabled, After;
    if n == 0 {
      NothingDone();
    } else {
      var s, a := states[n - 1], actions[n - 1];
      PathsLead(states, actions, n - 1);
      assert IsStep(s, a, states[n]);
      var path := Path(states, actions, n - 1);
      StepLeads(s, a, path);
      assert Path(states, actions, n) == Longer(path, s, a);
    }
  }

  lemma NothingDone()
    ensures LeadsTo([], NEW_CONN.pc)
  {
  }

  // ----- offers and answers -----

  /** How many offers of the other side the first `n` steps have accepted, and how many answers were sent. */
  ghost function OffersAccepted(states: seq<State>, actions: seq<Action>, n: nat): nat
    requires |states| == |actions| + 1 && n <= |actions|
  {
    if n == 0 then 0
    else OffersAccepted(states, actions, n - 1)
         + if actions[n - 1].RemoteOffer? && states[n - 1].pc.AwaitingConfirmation? then 1 else 0
  }

  function AnswersSent(actions: seq<Action>, n: nat): nat
    requires n <= |actions|
  {
    if n == 0 then 0 else AnswersSent(actions, n - 1) + if actions[n - 1].SendAnswer? then 1 else 0
  }

  lemma StepAnswers(s: State, a: Action)
    requires Enabled(s, a)
    ensures After(s, a).pc.Answering? <==>
      (a.RemoteOffer? && s.pc.AwaitingConfirmation?) || (s.pc.Answering? && !a.SendAnswer?)
    ensures a.SendAnswer? ==> s.pc.Answering?
  {
    hide CleanedUp;
  }

  /** Every accepted offer is answered before anything else, and nothing else is: the counts are the same but for
      the offer that the worker is about to answer. */
  lemma {:induction false} OffersAreAnswered(states: seq<State>, actions: seq<Action>, n: nat)
    requires IsRun(states, actions) && n < |states|
    ensures OffersAccepted(states, actions, n) == AnswersSent(actions, n) + if states[n].pc.Answering? then 1 else 0
  {
    hide Enabled, After;
    if n > 0 {
      OffersAreAnswered(states, actions, n - 1);
      assert IsStep(states[n - 1], actions[n - 1], states[n]);
      StepAnswers(states[n - 1], actions[n - 1]);
    }
  }

  /** The step at `i` is of the Open that runs at `n`. */
  ghost predicate SameOpen(actions: seq<Action>, i: nat, n: nat)
    requires n <= |actions|
  {
    i < n && forall j :: i < j < n ==> !actions[j].Open?
  }

  lemma {:induction false} PathStepHappened(states: seq<State>, actions: seq<Action>, n: nat, a: Action)
    returns (i: nat)
    requires |states| == |actions| + 1 && n < |states| && a in Path(states, actions, n)
    ensures SameOpen(actions, i, n) && actions[i] == a && (a.Open? || states[i + 1].pc != states[i].pc)
  {
    if actions[n - 1].Open? {
      i := n - 1;
    } else if states[n].pc != states[n - 1].pc && a == actions[n - 1] {
      i := n - 1;
    } else {
      i := PathStepHappened(states, actions, n - 1, a);
    }
  }

  /** Whenever a connection begins to be made, the offer has been sent since its Open began, and either an answer
      was accepted while the worker waited or an offer was and has been answered. */
  lemma ConnectingIsConfirmed(states: seq<State>, actions: seq<Action>, n: nat) returns (sent: nat, confirmed: nat)
    requires IsRun(states, actions) && n < |actions| && actions[n].SetConnecting?
    ensures SameOpen(actions, sent, n) && actions[sent] == SendOffer(true)
    ensures SameOpen(actions, confirmed, n)
    ensures || actions[confirmed] == SendAnswer(true)
            || (actions[confirmed] == RemoteAnswer && states[confirmed].pc.AwaitingConfirmation?)
  {
    hide After, Path;
    assert IsStep(states[n], actions[n], states[n + 1]);
    PathsLead(states, actions, n);
    var path := Path(states, actions, n);
    sent := PathStepHappened(states, actions, n, path[2]);
    confirmed := PathStepHappened(states, actions, n, path[|path| - 1]);
    if path[|path| - 1] == RemoteAnswer { OnlyWaitersConfirm(states, actions, confirmed); }
  }

  lemma OnlyWaitersConfirm(states: seq<State>, actions: seq<Action>, i: nat)
    requires IsRun(states, actions) && i < |actions| && actions[i] == RemoteAnswer && states[i + 1].pc != states[i].pc
    ensures states[i].pc.AwaitingConfirmation?
  {
    assert IsStep(states[i], actions[i], states[i + 1]);
  }

  // ----- what the connection says -----

  /** The status by the events alone: connecting, connected by a proxy that started, disconnected by a cleanup that
      closed what there was. */
  ghost function StatusBy(states: seq<State>, actions: seq<Action>, n: nat): Status
    requires |states| == |actions| + 1 && n <= |actions|
  {
    if n == 0 then Disconnected
    else if actions[n - 1].SetConnecting? then Connecting
    else if actions[n - 1] == StartProxy(true, true) then Connected
    else if actions[n - 1].Cleanup? && !CloseFails(states[n - 1], actions[n - 1]) then Disconnected
    else StatusBy(states, actions, n - 1)
  }

  /** A callback has reported since the context was last made; it is cancelled too when Open returns. */
  ghost predicate Interrupted(actions: seq<Action>, n: nat)
    requires n <= |actions|
  {
    n > 0 && !actions[n - 1].SetConnecting?
    && (actions[n - 1].IceDown? || actions[n - 1].OlderIceDown? || Interrupted(actions, n - 1))
  }

  predicate HasContext(pc: Pc) {
    pc.Gathering? || pc.Dialing? || pc.Proxying? || PastStartProxy(pc)
  }

  lemma StepStatus(s: State, a: Action)
    requires Enabled(s, a)
    ensures After(s, a).status ==
      if a.SetConnecting? then Connecting
      else if a == StartProxy(true, true) then Connected
      else if a.Cleanup? && !CloseFails(s, a) then Disconnected
      else s.status
  {
  }

  lemma StepContext(s: State, a: Action)
    requires Enabled(s, a)
    ensures HasContext(After(s, a).pc) ==>
      (After(s, a).ctxDone <==> !a.SetConnecting? && (a.IceDown? || a.OlderIceDown? || s.ctxDone))
    ensures HasContext(After(s, a).pc) && !a.SetConnecting? ==> HasContext(s.pc)
  {
    hide CleanedUp;
  }

  /** The status is what the events make it; and while a connection is being made or kept, its context is done
      exactly when a callback has reported since, so only then does the worker leave as disconnected. */
  lemma {:induction false} StatusFollowsEvents(states: seq<State>, actions: seq<Action>, n: nat)
    requires IsRun(states, actions) && n < |states|
    ensures states[n].status == StatusBy(states, actions, n)
    ensures HasContext(states[n].pc) ==> (states[n].ctxDone <==> Interrupted(actions, n))
  {
    hide Enabled, After, HasContext, CloseFails;
    if n == 0 {
      assert !HasContext(NEW_CONN.pc) by { NoContextYet(); }
    } else {
      StatusFollowsEvents(states, actions, n - 1);
      assert IsStep(states[n - 1], actions[n - 1], states[n]);
      StepStatus(states[n - 1], actions[n - 1]);
      StepContext(states[n - 1], actions[n - 1]);
    }
  }

  lemma NoContextYet()
    ensures !HasContext(NEW_CONN.pc)
  {
  }
}
