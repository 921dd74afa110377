/** The connection object of client/internal/peer/conn.go. Its methods are the sections of the code that run
    under the mutex and the calls that never wait; every one is a step of PeerConn. Open is the worker: it
    goes from section to section, and between any two of them others may call whatever they like. */
module ConnObject {
  import opened PeerConn
  import opened ConnPaths

  class Conn {
    var agent: Agent
    var proxy: bool
    var notifyDisconnected: bool
    var ctxDone: bool
    var status: Status
    // Where the worker is: others see it as whether somebody receives on the channels.
    var pc: Pc
    // Not a field of the code either: whether an agent was replaced without being closed, and may call back.
    var older: bool
    // The run so far.
    ghost var closes: nat
    ghost var closedOpens: nat
    ghost var states: seq<State>
    ghost var actions: seq<Action>

    constructor ()
      ensures Valid() && Current() == NEW_CONN && actions == []
    {
      agent, proxy, notifyDisconnected, ctxDone, status := NoAgent, false, false, false, Disconnected;
      pc, closes, closedOpens, older := Idle, 0, 0, false;
      states, actions := [NEW_CONN], [];
    }

    ghost function Current(): State
      reads this
    {
      State(pc, agent, proxy, notifyDisconnected, ctxDone, status, closes, closedOpens, older, false)
    }

    /** What has happened to the object is a run of PeerConn. */
    ghost predicate Valid()
      reads this
    {
      IsRun(states, actions) && states[|actions|] == Current()
    }

    /** The fields have just taken the step `a` from the last recorded state. */
    ghost method Record(a: Action)
      requires IsRun(states, actions) && IsStep(states[|actions|], a, Current())
      modifies this`states, this`actions
      ensures Valid() && actions == old(actions) + [a] && states == old(states) + [Current()]
    {
      hide Enabled, After;
      ghost var t := Current();
      Extended(states, actions, a, t);
      states, actions := states + [t], actions + [a];
    }

    lemma Holds()
      requires Valid()
      ensures Inv(Current())
    {
      RunInv(states, actions, |actions|);
    }

    method Begin()
      requires Valid() && pc.Idle?
      modifies this
      ensures Valid() && actions == old(actions) + [PeerConn.Open] && Current() == After(old(Current()), PeerConn.Open)
    {
      pc := Recreating;
      Record(PeerConn.Open);
    }

    method ReCreateAgent(newAgentFails: bool, handlersFail: bool) returns (ok: bool)
      requires Valid() && pc.Recreating?
      modifies this
      ensures var a := PeerConn.ReCreateAgent(!newAgentFails, ok);
        Valid() && actions == old(actions) + [a] && Current() == After(old(Current()), a)
      ensures ok <==> !newAgentFails && !handlersFail
      ensures pc == (if ok then Offering else CleaningUp(OtherError)) && closedOpens == old(closedOpens)
    {
      older := older || agent.Running?;
      agent := if newAgentFails then NoAgent else Created;
      ok := !newAgentFails && !handlersFail;
      pc := if ok then Offering else CleaningUp(OtherError);
      Record(PeerConn.ReCreateAgent(!newAgentFails, ok));
    }

    /** The steps that ask the agent for something under the mutex, and go on or give up. */
    method SendOffer(fails: bool) returns (ok: bool)
      requires Valid() && pc.Offering?
      modifies this
      ensures var a := PeerConn.SendOffer(ok);
        Valid() && actions == old(actions) + [a] && Current() == After(old(Current()), a)
      ensures pc == (if ok then ReachingConfirmation else CleaningUp(OtherError)) && closedOpens == old(closedOpens)
    {
      Holds();
      ok := !fails;
      pc := if ok then ReachingConfirmation else CleaningUp(OtherError);
      Record(PeerConn.SendOffer(ok));
    }

    method SendAnswer(fails: bool) returns (ok: bool)
      requires Valid() && pc.Answering?
      modifies this
      ensures var a := PeerConn.SendAnswer(ok);
        Valid() && actions == old(actions) + [a] && Current() == After(old(Current()), a)
      ensures pc == (if ok then Confirmed else CleaningUp(OtherError)) && closedOpens == old(closedOpens)
    {
      Holds();
      ok := !fails;
      pc := if ok then Confirmed else CleaningUp(OtherError);
      Record(PeerConn.SendAnswer(ok));
    }

    /** The worker reaches a select. At the second one the context may be done already. */
    method Park()
      requires Valid() && (pc.ReachingConfirmation? || pc.ReachingEnd?)
      modifies this
      ensures Valid() && actions == old(actions) + [PeerConn.Park] && Current() == After(old(Current()), PeerConn.Park)
      ensures old(pc).ReachingConfirmation? ==> pc == AwaitingConfirmation
      ensures closedOpens == old(closedOpens)
    {
      Holds();
      pc := if pc.ReachingConfirmation? then AwaitingConfirmation
            else if ctxDone then Cancelling(DisconnectedError) else AwaitingEnd;
      Record(PeerConn.Park);
    }

    // ----- calls by others -----

    /** A hand-over on an unbuffered channel succeeds exactly when the worker waits for it. */
    method OnRemoteOffer() returns (accepted: bool)
      requires Valid()
      modifies this
      ensures accepted <==> old(pc).AwaitingConfirmation?
      ensures Valid() && actions == old(actions) + [RemoteOffer] && Current() == After(old(Current()), RemoteOffer)
    {
      accepted := pc.AwaitingConfirmation?;
      if accepted {
        pc := Answering;
      }
      Record(RemoteOffer);
    }

    method OnRemoteAnswer() returns (accepted: bool)
      requires Valid()
      modifies this
      ensures accepted <==> old(pc).AwaitingConfirmation?
      ensures Valid() && actions == old(actions) + [RemoteAnswer] && Current() == After(old(Current()), RemoteAnswer)
    {
      accepted := pc.AwaitingConfirmation?;
      if accepted {
        pc := Confirmed;
      }
      Record(RemoteAnswer);
    }

    /** `Close`: nil, or the error of a connection that is not waiting to be closed. */
    method Close() returns (ok: bool)
      requires Valid()
      modifies this
      ensures ok <==> CloseSucceeds(old(Current()))
      ensures Valid() && actions == old(actions) + [PeerConn.Close]
      ensures Current() == After(old(Current()), PeerConn.Close)
    {
      ok := pc.AwaitingConfirmation? || pc.AwaitingEnd?;
      if ok {
        pc := if pc.AwaitingEnd? then Cancelling(ClosedError) else CleaningUp(ClosedError);
        closes := closes + 1;
      }
      Record(PeerConn.Close);
    }

    /** onICEConnectionStateChange of a running agent; the cancel function it calls is always set. */
    method OnIceDown()
      requires Valid() && agent.Running?
      modifies this
      ensures old(notifyDisconnected)
      ensures Valid() && actions == old(actions) + [IceDown] && Current() == After(old(Current()), IceDown)
    {
      Holds();
      ctxDone := true;
      if pc.AwaitingEnd? {
        pc := Cancelling(DisconnectedError);
      }
      Record(IceDown);
    }

    /** The same callback of an agent that was replaced without being closed. Without a cancel function the
        process would panic; that ends the run. */
    method OnOlderIceDown()
      requires Valid() && older && notifyDisconnected
      modifies this
      ensures Valid() && actions == old(actions) + [OlderIceDown] && Current() == After(old(Current()), OlderIceDown)
    {
      ctxDone := true;
      if pc.AwaitingEnd? {
        pc := Cancelling(DisconnectedError);
      }
      Record(OlderIceDown);
    }

    /** While the worker is not waiting at a select, others call what they like; nothing they call moves it. */
    method Interfere()
      requires Valid() && !CloseSucceeds(Current())
      modifies this
      ensures Valid() && old(actions) <= actions && Current() == old(Current()).(ctxDone := ctxDone)
    {
      hide IsRun;
      var calls :| 0 <= calls;
      for i := 0 to calls
        invariant Valid() && old(actions) <= actions && Current() == old(Current()).(ctxDone := ctxDone)
      {
        var which :| 0 <= which;
        if which == 0 {
          var _ := OnRemoteOffer();
        } else if which == 1 {
          var _ := OnRemoteAnswer();
        } else if which == 2 {
          var _ := Close();
        } else {
          IceCallback();
        }
      }
    }

    /** A callback by the agent or by one it replaced, if either can call. */
    method IceCallback()
      requires Valid() && !pc.AwaitingEnd?
      modifies this
      ensures Valid() && old(actions) <= actions && Current() == old(Current()).(ctxDone := ctxDone)
    {
      Holds();
      var byOlder: bool := *;
      if byOlder && older && notifyDisconnected {
        OnOlderIceDown();
      } else if agent.Running? {
        OnIceDown();
      }
    }

    // ----- the worker -----

    method SetConnecting()
      requires Valid() && pc.Confirmed?
      modifies this
      ensures Valid() && actions == old(actions) + [PeerConn.SetConnecting]
      ensures Current() == After(old(Current()), PeerConn.SetConnecting)
      ensures pc == Gathering && closedOpens == old(closedOpens)
    {
      status := Connecting;
      notifyDisconnected, ctxDone := true, false;
      pc := Gathering;
      Record(PeerConn.SetConnecting);
    }

    method GatherCandidates(fails: bool) returns (ok: bool)
      requires Valid() && pc.Gathering?
      modifies this
      ensures Valid() && actions == old(actions) + [Gather(ok)] && Current() == After(old(Current()), Gather(ok))
      ensures pc == (if ok then Dialing else Cancelling(OtherError)) && closedOpens == old(closedOpens)
    {
      Holds();
      ok := !fails;
      agent := if ok then Running else agent;
      pc := if ok then Dialing else Cancelling(OtherError);
      Record(Gather(ok));
    }

    method DialOrAccept(fails: bool) returns (ok: bool)
      requires Valid() && pc.Dialing?
      modifies this
      ensures Valid() && actions == old(actions) + [Dial(ok)] && Current() == After(old(Current()), Dial(ok))
      ensures pc == (if ok then Proxying else Cancelling(OtherError)) && closedOpens == old(closedOpens)
    {
      Holds();
      ok := !fails;
      pc := if ok then Proxying else Cancelling(OtherError);
      Record(Dial(ok));
    }

    method StartProxy(pairFound: bool, startFails: bool) returns (ok: bool)
      requires Valid() && pc.Proxying?
      modifies this
      ensures Valid() && actions == old(actions) + [PeerConn.StartProxy(pairFound, !startFails)]
      ensures Current() == After(old(Current()), PeerConn.StartProxy(pairFound, !startFails))
      ensures ok <==> pairFound && !startFails
      ensures pc == (if ok then ReachingEnd else Cancelling(OtherError)) && closedOpens == old(closedOpens)
    {
      Holds();
      if !pairFound {
        pc, ok := Cancelling(OtherError), false;
      } else {
        proxy := true;
        if startFails {
          pc, ok := Cancelling(OtherError), false;
        } else {
          status := Connected;
          pc, ok := ReachingEnd, true;
        }
      }
      Record(PeerConn.StartProxy(pairFound, !startFails));
    }

    method RunDeferredCancel()
      requires Valid() && pc.Cancelling?
      modifies this
      ensures Valid() && actions == old(actions) + [CancelDeferred]
      ensures Current() == After(old(Current()), CancelDeferred)
    {
      ctxDone := true;
      pc := CleaningUp(pc.result);
      Record(CancelDeferred);
    }

    /** `cleanup`. Every way out but the last leaves the status as it was. */
    method Cleanup(agentFails: bool, proxyFails: bool) returns (ok: bool)
      requires Valid() && pc.CleaningUp?
      modifies this
      ensures var a := PeerConn.Cleanup(agentFails, proxyFails);
        && Valid() && actions == old(actions) + [a] && Current() == After(old(Current()), a)
        && (ok <==> !CloseFails(old(Current()), a)) && states == old(states) + [Current()]
    {
      ghost var result := pc.result;
      ghost var a := PeerConn.Cleanup(agentFails, proxyFails);
      closedOpens := closedOpens + if result == ClosedError then 1 else 0;
      pc := Idle;
      ok := CloseAll(agentFails, proxyFails);
      Record(a);
    }

    /** The deferred cleanup, whose error nobody looks at. */
    method RunDeferredCleanup()
      requires Valid() && pc.CleaningUp?
      modifies this
      ensures Valid() && pc.Idle? && old(actions) < actions && actions[|actions| - 1].Cleanup?
      ensures LeadsTo(Path(states, actions, |actions| - 1), old(pc))
      ensures closedOpens == old(closedOpens) + if old(pc).result == ClosedError then 1 else 0
    {
      hide Path, LeadsTo;
      var agentFails: bool, proxyFails: bool := *, *;
      PathsLead(states, actions, |actions|);
      ghost var before, done := states, actions;
      var _ := Cleanup(agentFails, proxyFails);
      SamePath(before, done, states, actions);
    }

    method CloseAll(agentFails: bool, proxyFails: bool) returns (ok: bool)
      modifies this`agent, this`proxy, this`notifyDisconnected, this`ctxDone, this`status
      ensures Current() == CleanedUp(old(Current()), agentFails, proxyFails)
      ensures ok <==> !(old(agent) != NoAgent && agentFails) && !(old(proxy) && proxyFails)
    {
      if agent != NoAgent {
        if agentFails {
          return false;
        }
        agent := NoAgent;
      }
      if proxy {
        if proxyFails {
          return false;
        }
        proxy := false;
      }
      if notifyDisconnected {
        ctxDone := true;
        notifyDisconnected := false;
      }
      status := Disconnected;
      return true;
    }

    /** The first select: whatever comes first decides. */
    method AwaitConfirmation() returns (go: bool)
      requires Valid() && pc.AwaitingConfirmation?
      modifies this
      ensures Valid() && old(actions) <= actions && closedOpens == old(closedOpens)
      ensures if go then pc.Confirmed? else pc.CleaningUp?
    {
      hide IsRun;
      go := false;
      var first :| 0 <= first;
      if first == 0 {
        var _ := OnRemoteOffer();
        Interfere();
        var fails: bool := *;
        go := SendAnswer(fails);
      } else if first == 1 {
        var _ := OnRemoteAnswer();
        go := true;
      } else if first == 2 {
        var _ := Close();
      } else {
        TimeOut();
      }
    }

    method TimeOut()
      requires Valid() && pc.AwaitingConfirmation?
      modifies this
      ensures Valid() && actions == old(actions) + [Timeout] && Current() == After(old(Current()), Timeout)
    {
      pc := CleaningUp(TimeoutError);
      Record(Timeout);
    }

    /** Open up to its return: `true` when the cancel has been deferred. */
    method Connect() returns (deferred: bool)
      requires Valid() && pc.Recreating?
      modifies this
      ensures Valid() && old(actions) <= actions && closedOpens == old(closedOpens)
      ensures if deferred then pc.Cancelling? else pc.CleaningUp?
    {
      hide IsRun, After;
      var f0: bool, f1: bool, f2: bool := *, *, *;
      Interfere();
      var ok := ReCreateAgent(f0, f1);
      if !ok {
        return false;
      }
      Interfere();
      ok := SendOffer(f2);
      if !ok {
        return false;
      }
      Interfere();
      Park();
      ok := AwaitConfirmation();
      if !ok {
        return false;
      }
      Interfere();
      SetConnecting();
      Establish();
      return true;
    }

    /** From the gathering of candidates to the end of the connection. */
    method Establish()
      requires Valid() && pc.Gathering?
      modifies this
      ensures Valid() && old(actions) <= actions && closedOpens == old(closedOpens) && pc.Cancelling?
    {
      hide IsRun, After;
      var f0: bool, f1: bool, f2: bool, f3: bool := *, *, *, *;
      Interfere();
      var ok := GatherCandidates(f0);
      if !ok {
        return;
      }
      Interfere();
      ok := DialOrAccept(f1);
      if !ok {
        return;
      }
      Interfere();
      ok := StartProxy(f2, f3);
      if !ok {
        return;
      }
      Interfere();
      AwaitEnd();
    }

    /** The second select: closed by the upper layer, or disconnected from the remote peer. */
    method AwaitEnd()
      requires Valid() && pc.ReachingEnd?
      modifies this
      ensures Valid() && old(actions) <= actions && closedOpens == old(closedOpens) && pc.Cancelling?
    {
      hide IsRun;
      Park();
      if pc.AwaitingEnd? {
        Holds();
        var closed: bool, byOlder: bool := *, *;
        if closed {
          var _ := Close();
        } else if byOlder && older {
          OnOlderIceDown();
        } else {
          OnIceDown();
        }
      }
    }

    /** `Open`. It returns an error to which the path it has taken leads, up to its cleanup, and the closed error
        exactly when the run counts one more Open closed. */
    method Open() returns (result: OpenError)
      requires Valid() && pc.Idle?
      modifies this
      ensures Valid() && pc.Idle? && old(actions) < actions && actions[|actions| - 1].Cleanup?
      ensures LeadsTo(Path(states, actions, |actions| - 1), CleaningUp(result))
      ensures closedOpens == old(closedOpens) + if result == ClosedError then 1 else 0
    {
      hide IsRun, Path, LeadsTo;
      Begin();
      var deferred := Connect();
      result := pc.result;
      Interfere();
      if deferred {
        RunDeferredCancel();
        Interfere();
      }
      RunDeferredCleanup();
    }
  }

  lemma {:induction false} SamePathTo(states: seq<State>, actions: seq<Action>, states': seq<State>,
                                      actions': seq<Action>, n: nat)
    requires |states| == |actions| + 1 && |states'| == |actions'| + 1 && states <= states' && actions <= actions'
    requires n <= |actions|
    ensures Path(states', actions', n) == Path(states, actions, n)
  {
    if n > 0 { SamePathTo(states, actions, states', actions', n - 1); }
  }

  lemma SamePath(states: seq<State>, actions: seq<Action>, states': seq<State>, actions': seq<Action>)
    requires IsRun(states, actions) && IsRun(states', actions') && states <= states' && actions <= actions'
    ensures Path(states', actions', |actions|) == Path(states, actions, |actions|)
  {
    SamePathTo(states, actions, states', actions', |actions|);
  }

  lemma Extended(states: seq<State>, actions: seq<Action>, a: Action, t: State)
    requires IsRun(states, actions) && IsStep(states[|actions|], a, t)
    ensures IsRun(states + [t], actions + [a])
  {
    hide Enabled, After;
    var ss, aa := states + [t], actions + [a];
    forall i | 0 <= i < |aa| ensures IsStep(ss[i], aa[i], ss[i + 1]) {
      if i < |actions| { assert IsStep(states[i], actions[i], states[i + 1]); }
    }
  }
}
