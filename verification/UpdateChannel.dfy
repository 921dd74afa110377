/** The per-peer update channels of management/server/updatechannel.go, between the operations that send
    and the Sync stream that receives. */
module UpdateChannel {
  import Engine

  /** The buffer size that CreateChannel gives a channel. */
  const CAPACITY := 100

  /** What each channel has been sent. */
  type Logs = map<string, seq<Engine.NetMap>>

  /** `chan *UpdateMessage`. The ghost fields record what has gone in and what has come out. */
  class Channel {
    var queue: seq<Engine.NetMap>
    var closed: bool
    ghost var sent: seq<Engine.NetMap>
    ghost var received: seq<Engine.NetMap>

    ghost predicate Valid()
      reads this
    {
      sent == received + queue && |queue| <= CAPACITY
    }

    constructor ()
      ensures Valid() && !closed && queue == [] && sent == []
    {
      queue, closed, sent, received := [], false, [], [];
    }

    /** A send. On a full buffer it waits until the stream has taken a message out. */
    method Send(m: Engine.NetMap)
      requires Valid() && !closed
      modifies this
      ensures Valid() && !closed && sent == old(sent) + [m] && old(received) <= received
    {
      if |queue| == CAPACITY {
        var _, _ := Receive();
      }
      queue, sent := queue + [m], sent + [m];
    }

    method Close()
      requires Valid() && !closed
      modifies this`closed
      ensures Valid() && closed
    {
      closed := true;
    }

    /** A receive that does not have to wait: what was sent before the close still comes out, in order,
        and only then is the channel reported closed. */
    method Receive() returns (open: bool, m: Engine.NetMap)
      requires Valid() && (queue != [] || closed)
      modifies this
      ensures Valid() && closed == old(closed) && sent == old(sent)
      ensures open <==> old(received) != sent
      ensures if open then received == old(received) + [m] && received <= sent else received == old(received)
    {
      if queue == [] {
        return false, Engine.NetMap(0, [], true);
      }
      open, m := true, queue[0];
      queue, received := queue[1..], received + [m];
    }
  }

  /** What every channel has been sent, after one more message to `peer` if it has a channel. */
  function Push(sent: Logs, peer: string, m: Engine.NetMap): Logs {
    if peer in sent then sent[peer := sent[peer] + [m]] else sent
  }

  /** The same after a message to each of the peers in turn. */
  function PushAll(sent: Logs, peers: seq<string>, message: string -> Engine.NetMap): Logs {
    if peers == [] then sent
    else Push(PushAll(sent, peers[..|peers| - 1], message), peers[|peers| - 1], message(peers[|peers| - 1]))
  }

  /** Each of the peers has got exactly one more message, and nobody else any. */
  ghost predicate Told(before: Logs, after: Logs,
                       peers: set<string>, message: string -> Engine.NetMap) {
    && after.Keys == before.Keys
    && forall k :: k in before ==> after[k] == before[k] + if k in peers then [message(k)] else []
  }

  lemma {:induction false} PushAllTells(sent: Logs, peers: seq<string>, message: string -> Engine.NetMap)
    requires forall i, j :: 0 <= i < j < |peers| ==> peers[i] != peers[j]
    ensures Told(sent, PushAll(sent, peers, message), Engine.Elements(peers), message)
  {
    if peers == [] {
      assert Engine.Elements(peers) == {};
    } else {
      var init, last := peers[..|peers| - 1], peers[|peers| - 1];
      assert peers == init + [last];
      PushAllTells(sent, init, message);
      assert last !in init;
      assert Engine.Elements(peers) == Engine.Elements(init) + {last};
    }
  }

  class PeersUpdateManager {
    var peerChannels: map<string, Channel>

    constructor ()
      ensures Valid() && peerChannels == map[]
    {
      peerChannels := map[];
    }

    /** Registered channels are open and each belongs to one peer, so no send or close can hit a closed one. */
    ghost predicate Valid()
      reads this, peerChannels.Values
    {
      && (forall k :: k in peerChannels ==> peerChannels[k].Valid() && !peerChannels[k].closed)
      && Distinct()
    }

    ghost predicate Distinct()
      reads this
    {
      forall k, l :: k in peerChannels && l in peerChannels && k != l ==> peerChannels[k] != peerChannels[l]
    }

    ghost function Sent(): Logs
      reads this, peerChannels.Values
    {
      map k | k in peerChannels :: peerChannels[k].sent
    }

    /** A peer without a channel gets nothing: the message is dropped. */
    method SendUpdate(peer: string, update: Engine.NetMap)
      requires Valid()
      modifies peerChannels.Values
      ensures Valid() && peerChannels == old(peerChannels)
      ensures Sent() == Push(old(Sent()), peer, update)
    {
      if peer in peerChannels {
        peerChannels[peer].Send(update);
      }
    }

    method CloseChannel(peerKey: string)
      requires Valid()
      modifies this, peerChannels.Values
      ensures Valid() && peerChannels == old(peerChannels) - {peerKey}
      ensures Sent() == old(Sent()) - {peerKey}
      ensures peerKey in old(peerChannels) ==>
        old(peerChannels)[peerKey].closed && old(peerChannels)[peerKey].sent == old(Sent()[peerKey])
    {
      if peerKey in peerChannels {
        peerChannels[peerKey].Close();
        peerChannels := peerChannels - {peerKey};
      }
    }

    method CloseOld(peerKey: string)
      requires Valid()
      modifies peerChannels.Values
      ensures peerChannels == old(peerChannels) && Sent() == old(Sent()) && Distinct()
      ensures forall k :: k in peerChannels ==> peerChannels[k].Valid() && (peerChannels[k].closed <==> k == peerKey)
    {
      if peerKey in peerChannels {
        peerChannels[peerKey].Close();
      }
    }

    method Register(peerKey: string, channel: Channel)
      requires channel.Valid() && !channel.closed && channel.sent == [] && channel !in peerChannels.Values && Distinct()
      requires forall k :: k in peerChannels && k != peerKey ==> peerChannels[k].Valid() && !peerChannels[k].closed
      modifies this
      ensures Valid() && peerChannels == old(peerChannels)[peerKey := channel]
      ensures Sent() == old(Sent())[peerKey := []]
    {
      peerChannels := peerChannels[peerKey := channel];
    }

    /** A second stream of the same peer takes the first one's place; the first one ends. */
    method CreateChannel(peerKey: string) returns (channel: Channel)
      requires Valid()
      modifies this, peerChannels.Values
      ensures Valid() && fresh(channel) && peerChannels == old(peerChannels)[peerKey := channel]
      ensures Sent() == old(Sent())[peerKey := []]
      ensures peerKey in old(peerChannels) ==>
        old(peerChannels)[peerKey].closed && old(peerChannels)[peerKey].sent == old(Sent()[peerKey])
    {
      CloseOld(peerKey);
      channel := new Channel();
      Register(peerKey, channel);
    }
  }
}
