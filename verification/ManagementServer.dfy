/** What the service sends: the operations of management/server/{grpcserver,peer}.go that change accounts
    and then tell the connected peers. Every map they put on a channel is one that SyncProtocol lets its
    server send, so its theorems hold of this code. */
module ManagementServer {
  import opened IpAllocation
  import opened Model
  import opened StoreSpec
  import opened ManagerSpec
  import opened IndexAgreement
  import opened NetworkMap
  import opened FileStore
  import opened AccountRecords
  import opened NetworkMapLoops
  import opened AccountManager
  import opened UpdateChannel
  import opened HostRoutes
  import Engine
  import SyncProtocol

  // ----- maps on the wire -----

  function OnWire(p: Peer): Engine.RemotePeer {
    Engine.RemotePeer(p.key, HostRoute(p.ip))
  }

  function RemotePeers(peers: seq<Peer>): (r: seq<Engine.RemotePeer>) {
    seq(|peers|, i requires 0 <= i < |peers| => OnWire(peers[i]))
  }

  /** `toRemotePeerConfig`. */
  method ToRemotePeerConfig(peers: seq<Peer>) returns (remotePeers: seq<Engine.RemotePeer>)
    ensures remotePeers == RemotePeers(peers)
  {
    remotePeers := [];
    for i := 0 to |peers|
      invariant remotePeers == RemotePeers(peers[..i])
    {
      assert peers[..i + 1] == peers[..i] + [peers[i]];
      remotePeers := remotePeers + [OnWire(peers[i])];
    }
    assert peers[..|peers|] == peers;
  }

  /** Every entry reads back as the key and the address of its peer, in the order of the list. */
  lemma RemotePeersReadBack(peers: seq<Peer>)
    ensures |RemotePeers(peers)| == |peers|
    ensures forall i :: 0 <= i < |peers| ==>
      RemotePeers(peers)[i].key == peers[i].key
      && ParseCidr(RemotePeers(peers)[i].allowedIps) == Ok(IPNet(peers[i].ip, 32))
  {
    hide HostRoute, ParseCidr;
    forall i | 0 <= i < |peers|
      ensures ParseCidr(RemotePeers(peers)[i].allowedIps) == Ok(IPNet(peers[i].ip, 32))
    {
      HostRouteReadsBack(peers[i].ip);
    }
  }

  /** The peers are registered in the account under the addresses they are listed with. */
  ghost predicate Registered(s: StoreState, acc: string, peers: seq<Peer>)
    requires acc in s.accounts
  {
    forall i :: 0 <= i < |peers| ==>
      peers[i].key in s.accounts[acc].peers && s.accounts[acc].peers[peers[i].key].ip == peers[i].ip
  }

  lemma WireRoutes(s: StoreState, acc: string, peers: seq<Peer>, serial: nat)
    requires acc in s.accounts && Registered(s, acc, peers)
    ensures SyncProtocol.Routed(WireMap(peers, serial).peers, SyncProtocol.Addresses(s, acc))
  {
    hide HostRoute, ParseCidr, RemotePeers;
    RemotePeersReadBack(peers);
  }

  /** The network-map part of a sync response. */
  function WireMap(peers: seq<Peer>, serial: nat): Engine.NetMap {
    Engine.NetMap(serial, RemotePeers(peers), |peers| == 0)
  }

  lemma WireKeys(peers: seq<Peer>, serial: nat)
    ensures Engine.Keys(WireMap(peers, serial).peers) == KeysOf(peers) && Engine.Consistent(WireMap(peers, serial))
  {
    var wire := RemotePeers(peers);
    forall k | k in Engine.Keys(wire) ensures k in KeysOf(peers) {
      var i :| 0 <= i < |wire| && wire[i].key == k;
      assert peers[i] in peers;
    }
    forall k | k in KeysOf(peers) ensures k in Engine.Keys(wire) {
      var i :| 0 <= i < |peers| && peers[i].key == k;
      assert wire[i].key == k;
    }
  }

  /** The peers of a list with another key. */
  function OthersOf(peers: seq<Peer>, key: string): seq<Peer> {
    if peers == [] then []
    else
      var rest, last := OthersOf(peers[..|peers| - 1], key), peers[|peers| - 1];
      if last.key == key then rest else rest + [last]
  }

  lemma {:induction false} OthersRegistered(s: StoreState, acc: string, peers: seq<Peer>, key: string)
    requires acc in s.accounts && Registered(s, acc, peers)
    ensures Registered(s, acc, OthersOf(peers, key))
  {
    if peers != [] { OthersRegistered(s, acc, peers[..|peers| - 1], key); }
  }

  lemma {:induction false} OthersKeys(peers: seq<Peer>, key: string)
    ensures KeysOf(OthersOf(peers, key)) == KeysOf(peers) - {key}
  {
    if peers != [] {
      var init, last := peers[..|peers| - 1], peers[|peers| - 1];
      assert peers == init + [last];
      OthersKeys(init, key);
      OneMorePeer(init, last);
      OneMorePeer(OthersOf(init, key), last);
    }
  }

  /** The inner loop of both senders: `first` and then the peers of the list with another key. */
  method PeersToSend(first: seq<Peer>, peers: seq<Peer>, key: string) returns (list: seq<Peer>)
    ensures list == first + OthersOf(peers, key)
  {
    list := first;
    for i := 0 to |peers|
      invariant list == first + OthersOf(peers[..i], key)
    {
      assert peers[..i + 1][..i] == peers[..i];
      if peers[i].key != key {
        list := list + [peers[i]];
      }
    }
    assert peers[..|peers|] == peers;
  }

  function KeySeq(peers: seq<Peer>): seq<string> {
    seq(|peers|, i requires 0 <= i < |peers| => peers[i].key)
  }

  /** What the outer loop of both senders sends to the peer `key` of the list. */
  function Notice(first: seq<Peer>, peers: seq<Peer>, serial: nat): string -> Engine.NetMap {
    (key: string) => WireMap(first + OthersOf(peers, key), serial)
  }

  /** All of DeletePeer's maps: the empty one to the removed peer, the others of the list to each of the list. */
  function DeletionMaps(peers: seq<Peer>, gone: string, serial: nat): string -> Engine.NetMap {
    (key: string) => WireMap(if key == gone then [] else OthersOf(peers, key), serial)
  }

  // ----- the server -----

  class Server {
    const manager: Manager
    const updates: PeersUpdateManager

    constructor (manager: Manager, updates: PeersUpdateManager)
      ensures this.manager == manager && this.updates == updates
    {
      this.manager, this.updates := manager, updates;
    }

    ghost predicate Valid()
      reads manager, manager.store, manager.store.accounts.Values, updates, updates.peerChannels.Values
    {
      manager.Valid() && updates.Valid()
    }

    /** The outer loop of registerPeer and DeletePeer. */
    method NotifyEach(first: seq<Peer>, peers: seq<Peer>, serial: nat)
      requires updates.Valid()
      modifies updates.peerChannels.Values
      ensures updates.Valid() && updates.peerChannels == old(updates.peerChannels)
      ensures updates.Sent() == PushAll(old(updates.Sent()), KeySeq(peers), Notice(first, peers, serial))
    {
      hide PeersUpdateManager.Sent, PeersUpdateManager.Valid, OthersOf, OnWire;
      for i := 0 to |peers|
        invariant updates.Valid() && updates.peerChannels == old(updates.peerChannels)
        invariant updates.Sent() == PushAll(old(updates.Sent()), KeySeq(peers[..i]), Notice(first, peers, serial))
      {
        var list := PeersToSend(first, peers, peers[i].key);
        var update := ToRemotePeerConfig(list);
        updates.SendUpdate(peers[i].key, Engine.NetMap(serial, update, |update| == 0));
        assert KeySeq(peers[..i + 1])[..i] == KeySeq(peers[..i]);
      }
      assert peers[..|peers|] == peers;
    }

    /** The messages of DeletePeer: an empty map to the removed peer, one map of the others to each peer of
        the list; then the stream of the removed peer is ended. */
    method SendDeletion(key: string, peers: seq<Peer>, serial: nat)
      requires updates.Valid()
      modifies updates, updates.peerChannels.Values
      ensures updates.Valid()
      ensures var ended := Push(old(updates.Sent()), key, WireMap([], serial));
        var full := PushAll(ended, KeySeq(peers), Notice([], peers, serial));
        && updates.Sent() == full - {key}
        && (key in old(updates.peerChannels) ==>
             key in full && old(updates.peerChannels)[key].closed && old(updates.peerChannels)[key].sent == full[key])
    {
      hide PushAll, WireMap, PeersUpdateManager.Valid;
      updates.SendUpdate(key, WireMap([], serial));
      NotifyEach([], peers, serial);
      updates.CloseChannel(key);
    }

    /** What DeletePeer reads after the removal. */
    method Remaining(accountId: string) returns (peers: seq<Peer>, serial: nat, ghost keys: seq<string>)
      requires manager.Valid() && accountId in manager.State().accounts
      ensures var a := manager.State().accounts[accountId];
        && IsListing(keys, a.peers.Keys) && (forall k :: k in keys ==> k in a.peers)
        && peers == PeersInOrder(a.peers, keys) && serial == a.network.serial
    {
      hide IsListing, Account.WellFormed;
      SameKeys(manager.store.accounts);
      RecordIs(manager.store.accounts, accountId);
      var list: Result<seq<Peer>>;
      list, keys := manager.store.GetAccountPeers(accountId);
      peers, serial := list.value, manager.store.accounts[accountId].network.serial;
    }

    /** DeletePeer after the removal, in the state `t`. */
    method TellDeletion(accountId: string, key: string, ghost t: StoreState)
      returns (ghost notice: string -> Engine.NetMap)
      requires Valid() && t == manager.State() && accountId in t.accounts && key !in t.accounts[accountId].peers
      modifies updates, updates.peerChannels.Values
      ensures updates.Valid()
      ensures TellsDeletion(t, accountId, key, old(updates.Sent()), updates.Sent(), notice)
      ensures key in old(updates.peerChannels) ==>
        Ended(old(updates.peerChannels)[key], old(updates.Sent())[key] + [notice(key)])
    {
      hide IsListing, TellsDeletion, Account.WellFormed, PushAll, Push, DeletionMaps, WireMap, PeersInOrder;
      hide PeersUpdateManager.Valid, StoreState.WellFormed, KeySeq, Notice, Views;
      ghost var before := updates.Sent();
      var peers, serial, keys := Remaining(accountId);
      SendDeletion(key, peers, serial);
      notice := DeletionMaps(peers, key, serial);
      ghost var after := PushAll(Push(before, key, WireMap([], serial)), KeySeq(peers), Notice([], peers, serial));
      DeletionTells(t, accountId, key, keys, peers, before, after);
    }

    /** DeletePeer. */
    method DeletePeer(accountId: string, key: string)
      returns (r: Result<Peer>, ghost order: seq<string>, ghost notice: string -> Engine.NetMap)
      requires Valid()
      modifies manager.store, manager.store.accounts.Values, updates, updates.peerChannels.Values
      ensures Valid() && manager.store.accounts == old(manager.store.accounts)
      ensures accountId in old(manager.store.accounts) ==>
        IsListing(order, old(manager.State()).accounts[accountId].groups.Keys)
      ensures var o := ManagerSpec.DeletePeer(old(manager.State()), accountId, key, order);
        manager.State() == Apply(old(manager.State()), o.change) && r == o.result
      ensures r.Err? ==> updates.Sent() == old(updates.Sent())
      ensures r.Ok? ==> TellsDeletion(manager.State(), accountId, key, old(updates.Sent()), updates.Sent(), notice)
      ensures r.Ok? && key in old(updates.peerChannels) ==>
        Ended(old(updates.peerChannels)[key], old(updates.Sent())[key] + [notice(key)])
    {
      hide Apply, ManagerSpec.DeletePeer, IsListing, TellsDeletion, StoreState.WellFormed, DeletionMaps, Ended;
      hide PeersUpdateManager.Valid, Views;
      notice := DeletionMaps([], key, 0);
      ghost var s := manager.State();
      SameKeys(manager.store.accounts);
      r, order := manager.RemovePeer(accountId, key);
      if r.Err? {
        return;
      }
      ghost var t := manager.State();
      RemovedIsGone(s, accountId, key, order);
      notice := TellDeletion(accountId, key, t);
    }

    /** registerPeer after AddPeer: the map of the new peer is read, and each peer in it is sent its own map. */
    method FanOut(peer: Peer) returns (ok: bool, ghost told: seq<Peer>, ghost serial: nat)
      requires Valid() && IsStored(manager.State(), peer)
      modifies updates.peerChannels.Values
      ensures updates.Valid() && updates.peerChannels == old(updates.peerChannels)
      ensures updates.Sent() == PushAll(old(updates.Sent()), KeySeq(told), Notice([peer], told, serial))
      ensures if ok then TellsRegistration(old(manager.State()), peer, told, serial)
        else AccountOf(old(manager.State()), old(manager.State()).peerIdx, peer.key).Err? && told == []
    {
      hide IsMapFor, StoreState.WellFormed, PeersUpdateManager.Valid, PeersUpdateManager.Sent, Views;
      hide Notice, TellsRegistration, PushAll, KeySeq;
      ghost var t := manager.State();
      var networkMap := manager.GetNetworkMap(peer.key);
      if networkMap.Err? {
        NothingPushed(updates.Sent(), Notice([peer], [], 0));
        return false, [], 0;
      }
      told, serial := networkMap.value.peers, networkMap.value.network.serial;
      FanOutMapsAreNotices(t, AccountOf(t, t.peerIdx, peer.key).value, peer, networkMap.value);
      NotifyEach([peer], networkMap.value.peers, networkMap.value.network.serial);
      ok := true;
    }

    /** registerPeer, once it knows the setup key or the user. */
    method RegisterPeer(setupKey: string, userId: string, req: PeerRequest, now: int)
      returns (r: Result<Peer>, ghost ip: Addr, ghost gid: string, ghost told: seq<Peer>, ghost serial: nat)
      requires Valid()
      modifies manager.store, manager.store.accounts.Values, updates.peerChannels.Values
      ensures Valid() && AddPicks(old(manager.State()), setupKey, userId, now, ip, gid)
      ensures var o := ManagerSpec.AddPeer(old(manager.State()), setupKey, userId, req, now, ip, gid);
        manager.State() == Apply(old(manager.State()), o.change) && r == Reported(o.result)
      ensures r.Err? ==> updates.Sent() == old(updates.Sent())
      ensures r.Ok? ==> TellsRegistration(manager.State(), r.value, told, serial)
      ensures r.Ok? ==> updates.Sent() == PushAll(old(updates.Sent()), KeySeq(told), Notice([r.value], told, serial))
    {
      hide PushAll, KeySeq, Views, PeersUpdateManager.Sent, ManagerSpec.LocateForAdd;
      hide Apply, ManagerSpec.AddPeer, TellsRegistration, StoreState.WellFormed, PeersUpdateManager.Valid, Notice;
      hide AddPicks;
      ghost var s := manager.State();
      r, ip, gid := manager.AddPeer(setupKey, userId, req, now);
      if r.Err? {
        r := Err(if r.error == FailedPrecondition || r.error == OutOfRange then r.error else NotFound);
        return r, ip, gid, [], 0;
      }
      RegisteredIsFound(s, setupKey, userId, req, now, ip, gid);
      var ok: bool;
      ok, told, serial := FanOut(r.value);
    }

    /** Sync up to its loop: the first map, then the channel, then the peer is marked connected. An update
        between the first two reaches no channel. */
    method OpenStream(key: string, now: int)
      returns (r: Result<Engine.NetMap>, ghost gid: string)
      requires Valid()
      modifies manager.store.accounts.Values, updates, updates.peerChannels.Values
      ensures Valid() && HomePicks(old(manager.State()), key, gid)
      ensures r.Err? <==> PeerHome(old(manager.State()), key).Err?
      ensures r.Err? ==>
        r == Err(PermissionDenied) && manager.State() == old(manager.State()) && updates.Sent() == old(updates.Sent())
      ensures r.Ok? ==>
        OpensWith(old(manager.State()), key, r.value) && updates.Sent() == old(updates.Sent())[key := []]
      ensures r.Ok? && key in old(updates.peerChannels) ==>
        Ended(old(updates.peerChannels)[key], old(updates.Sent())[key])
      ensures r.Ok? ==>
        var o := ManagerSpec.MarkPeerConnected(old(manager.State()), key, true, now, gid);
        manager.State() == Apply(old(manager.State()), o.change)
    {
      hide Apply, ManagerSpec.MarkPeerConnected, StoreState.WellFormed, OpensWith, HomePicks, Views;
      hide PeersUpdateManager.Valid, PeersUpdateManager.Sent, PeerHome;
      r := FirstOfStream(key);
      if r.Err? {
        NoHomeNoPick(manager.State(), key);
        return r, "";
      }
      ghost var s := manager.State();
      var _ := updates.CreateChannel(key);
      assert manager.State() == s;
      ghost var sent := updates.Sent();
      var marked;
      marked, gid := manager.MarkPeerConnected(key, true, now);
      assert updates.Sent() == sent;
    }

    /** Sync when its client has gone: the channel is closed and the peer marked disconnected. Both go by the peer's
        key, so a channel that a newer stream of the peer has made by then is the one that is closed. */
    method CloseStream(key: string, now: int) returns (ghost gid: string)
      requires Valid()
      modifies manager.store.accounts.Values, updates, updates.peerChannels.Values
      ensures Valid() && HomePicks(old(manager.State()), key, gid)
      ensures updates.Sent() == old(updates.Sent()) - {key}
      ensures key in old(updates.peerChannels) ==>
        Ended(old(updates.peerChannels)[key], old(updates.Sent())[key])
      ensures var o := ManagerSpec.MarkPeerConnected(old(manager.State()), key, false, now, gid);
        manager.State() == Apply(old(manager.State()), o.change)
    {
      hide Apply, ManagerSpec.MarkPeerConnected, StoreState.WellFormed, HomePicks, Views;
      hide PeersUpdateManager.Valid, PeersUpdateManager.Sent;
      ghost var s := manager.State();
      updates.CloseChannel(key);
      assert manager.State() == s;
      ghost var sent := updates.Sent();
      var marked;
      marked, gid := manager.MarkPeerConnected(key, false, now);
      assert updates.Sent() == sent;
    }

    /** sendInitialSync, for a registered peer. */
    method FirstOfStream(key: string) returns (r: Result<Engine.NetMap>)
      requires Valid()
      ensures r.Err? <==> PeerHome(manager.State(), key).Err?
      ensures r.Err? ==> r == Err(PermissionDenied)
      ensures r.Ok? ==> OpensWith(manager.State(), key, r.value)
    {
      hide StoreState.WellFormed, IsMapFor, OpensWith, WireMap, PeersUpdateManager.Valid;
      var peer := manager.GetPeer(key);
      if peer.Err? {
        return Err(PermissionDenied);
      }
      var networkMap := manager.GetNetworkMap(key);
      FirstMap(manager.State(), key, networkMap.value);
      return Ok(WireMap(networkMap.value.peers, networkMap.value.network.serial));
    }
  }

  /** The codes registerPeer reports AddPeer's errors with. */
  function Reported(r: Result<Peer>): Result<Peer> {
    if r.Err? && r.error != FailedPrecondition && r.error != OutOfRange then Err(NotFound) else r
  }

  /** What registerPeer sends is what SyncProtocol expects: to each peer in the map of the new peer, the new
      peer and the rest of that map. */
  ghost predicate TellsRegistration(t: StoreState, peer: Peer, told: seq<Peer>, serial: nat) {
    var home := AccountOf(t, t.peerIdx, peer.key);
    && home.Ok?
    && KeysOf(told) == NetworkMapKeys(t, home.value, peer.key)
    && serial == t.accounts[home.value].network.serial
    && forall k :: k in KeysOf(told) ==>
         SyncProtocol.FanOutNotice(t, home.value, peer.key, SyncProtocol.Snapshot(k, Notice([peer], told, serial)(k)))
  }

  lemma FanOutMapsAreNotices(t: StoreState, acc: string, peer: Peer, m: PeerMap)
    requires AccountOf(t, t.peerIdx, peer.key) == Ok(acc) && IsMapFor(t, acc, peer.key, m) && IsStored(t, peer)
    ensures TellsRegistration(t, peer, m.peers, m.network.serial)
  {
    hide OthersOf, Engine.Consistent, Engine.Keys, NetworkMapKeys, RemotePeers, Registered;
    ListedAreRegistered(t, acc, peer.key, m);
    var notice := Notice([peer], m.peers, m.network.serial);
    forall k | k in KeysOf(m.peers)
      ensures SyncProtocol.FanOutNotice(t, acc, peer.key, SyncProtocol.Snapshot(k, notice(k)))
    {
      OthersKeys(m.peers, k);
      FirstAndOthers(peer, OthersOf(m.peers, k));
      WireKeys([peer] + OthersOf(m.peers, k), m.network.serial);
      OthersRegistered(t, acc, m.peers, k);
      FirstRegistered(t, acc, peer, OthersOf(m.peers, k));
      WireRoutes(t, acc, [peer] + OthersOf(m.peers, k), m.network.serial);
    }
  }

  /** The account that the index names for the peer has it just so. */
  ghost predicate IsStored(t: StoreState, peer: Peer) {
    var home := AccountOf(t, t.peerIdx, peer.key);
    home.Ok? ==> peer.key in t.accounts[home.value].peers && t.accounts[home.value].peers[peer.key] == peer
  }

  lemma FirstRegistered(s: StoreState, acc: string, peer: Peer, others: seq<Peer>)
    requires AccountOf(s, s.peerIdx, peer.key) == Ok(acc) && IsStored(s, peer) && Registered(s, acc, others)
    ensures Registered(s, acc, [peer] + others)
  {
  }

  lemma NothingPushed(sent: Logs, message: string -> Engine.NetMap)
    ensures PushAll(sent, KeySeq([]), message) == sent
  {
  }

  lemma FirstAndOthers(peer: Peer, others: seq<Peer>)
    ensures KeysOf([peer] + others) == {peer.key} + KeysOf(others)
  {
    var all := [peer] + others;
    assert forall q :: q in all <==> q == peer || q in others;
  }

  /** A peer just registered is found through the index. */
  lemma RegisteredIsFound(s: StoreState, setupKey: string, userId: string, req: PeerRequest, now: int, ip: Addr,
                          gid: string)
    requires AddPicks(s, setupKey, userId, now, ip, gid)
    requires ManagerSpec.AddPeer(s, setupKey, userId, req, now, ip, gid).result.Ok?
    ensures var o := ManagerSpec.AddPeer(s, setupKey, userId, req, now, ip, gid);
      var t := Apply(s, o.change); AccountOf(t, t.peerIdx, o.result.value.key).Ok? && IsStored(t, o.result.value)
  {
    hide Upper, FreeIps, IndexRules, LocateForAdd;
    var o := ManagerSpec.AddPeer(s, setupKey, userId, req, now, ip, gid);
    assert req.key in o.change.a.peers && o.change.a.peers[req.key].key == req.key;
    assert req.key in PeerNames(o.change.a);
  }

  /** The first map of a stream is what SyncProtocol expects: the peer's own view. */
  ghost predicate OpensWith(s: StoreState, key: string, first: Engine.NetMap) {
    var home := AccountOf(s, s.peerIdx, key);
    home.Ok? &&
    var serial := s.accounts[home.value].network.serial;
    && SyncProtocol.Carries(SyncProtocol.Snapshot(key, first), key, serial, NetworkMapKeys(s, home.value, key))
    && SyncProtocol.Routed(first.peers, SyncProtocol.Addresses(s, home.value))
  }

  lemma FirstMap(s: StoreState, key: string, m: PeerMap)
    requires AccountOf(s, s.peerIdx, key).Ok? && IsMapFor(s, AccountOf(s, s.peerIdx, key).value, key, m)
    ensures OpensWith(s, key, WireMap(m.peers, m.network.serial))
  {
    hide RemotePeers, NetworkMapKeys;
    WireKeys(m.peers, m.network.serial);
    ListedAreRegistered(s, AccountOf(s, s.peerIdx, key).value, key, m);
    WireRoutes(s, AccountOf(s, s.peerIdx, key).value, m.peers, m.network.serial);
  }

  lemma ListedAreRegistered(s: StoreState, acc: string, key: string, m: PeerMap)
    requires IsMapFor(s, acc, key, m)
    ensures Registered(s, acc, m.peers)
  {
    hide NetworkMapKeys, KeysOf;
    forall i | 0 <= i < |m.peers| ensures m.peers[i].key in s.accounts[acc].peers
      && s.accounts[acc].peers[m.peers[i].key].ip == m.peers[i].ip
    {
      assert m.peers[i] in m.peers;
    }
  }

  lemma NoHomeNoPick(s: StoreState, key: string)
    requires PeerHome(s, key).Err?
    ensures HomePicks(s, key, "")
  {
  }

  /** The channel has been closed, after all of `log` was sent on it. */
  ghost predicate Ended(channel: Channel, log: seq<Engine.NetMap>)
    reads channel
  {
    channel.closed && channel.sent == log
  }

  lemma RecordIs(records: map<string, Record>, id: string)
    requires id in records
    ensures id in Views(records) && Views(records)[id].peers == records[id].peers
    ensures Views(records)[id].network == records[id].network
  {
  }

  /** What DeletePeer sends is what SyncProtocol expects: to the removed peer the empty map, to each peer
      that stays all the others, under the serial of the state after the removal. */
  ghost predicate IsDeletionNotice(t: StoreState, acc: string, gone: string, notice: string -> Engine.NetMap) {
    && acc in t.accounts && gone !in t.accounts[acc].peers
    && SyncProtocol.DeletionNotice(t, acc, gone, SyncProtocol.Snapshot(gone, notice(gone)))
    && forall k :: k in t.accounts[acc].peers ==>
         SyncProtocol.DeletionNotice(t, acc, gone, SyncProtocol.Snapshot(k, notice(k)))
  }

  /** Of the channels but the removed peer's, those of the peers that stay have got exactly one message. */
  ghost predicate TellsDeletion(t: StoreState, acc: string, gone: string, before: Logs,
                                after: Logs, notice: string -> Engine.NetMap) {
    IsDeletionNotice(t, acc, gone, notice) && Told(before - {gone}, after, t.accounts[acc].peers.Keys, notice)
  }

  lemma RemovedIsGone(s: StoreState, acc: string, key: string, order: seq<string>)
    requires s.WellFormed() && (acc in s.accounts ==> IsListing(order, s.accounts[acc].groups.Keys))
    requires ManagerSpec.DeletePeer(s, acc, key, order).result.Ok?
    ensures var t := Apply(s, ManagerSpec.DeletePeer(s, acc, key, order).change);
      acc in t.accounts && key !in t.accounts[acc].peers
  {
    hide Account.WellFormed, CleanGroups, PointAll, IndexRules;
  }

  /** One message to each of a list without repetitions, after one to `key`, whose channel is then dropped. */
  lemma DeletionTells(t: StoreState, acc: string, key: string, order: seq<string>, peers: seq<Peer>,
                      before: Logs, after: Logs)
    requires t.WellFormed() && acc in t.accounts && key !in t.accounts[acc].peers
    requires IsListing(order, t.accounts[acc].peers.Keys) && forall k :: k in order ==> k in t.accounts[acc].peers
    requires PeersInOrder(t.accounts[acc].peers, order) == peers
    requires var serial := t.accounts[acc].network.serial;
      after == PushAll(Push(before, key, WireMap([], serial)), KeySeq(peers), Notice([], peers, serial))
    ensures var notice := DeletionMaps(peers, key, t.accounts[acc].network.serial);
      && TellsDeletion(t, acc, key, before, after - {key}, notice)
      && (key in before ==> key in after && after[key] == before[key] + [notice(key)])
  {
    hide Account.WellFormed, IsListing, PushAll, Told, IsDeletionNotice, WireMap, DeletionMaps, Push, PeersInOrder;
    hide KeysOf, KeySeq, Notice;
    var serial := t.accounts[acc].network.serial;
    var start := Push(before, key, WireMap([], serial));
    WellFormedParts(t.accounts[acc]);
    ListedOnce(order, t.accounts[acc].peers.Keys);
    OrderedKeys(t.accounts[acc].peers, order);
    PushAllTells(start, order, Notice([], peers, serial));
    ToldWithout(before, start, after, order, key, peers, serial);
    assert Registered(t, acc, peers);
    DeletionMapsAreNotices(t, acc, key, peers);
  }

  lemma OrderedKeys(peers: map<string, Peer>, order: seq<string>)
    requires IsListing(order, peers.Keys) && forall k :: k in order ==> k in peers
    requires forall k :: k in peers ==> peers[k].key == k
    ensures KeySeq(PeersInOrder(peers, order)) == order && KeysOf(PeersInOrder(peers, order)) == peers.Keys
    ensures Engine.Elements(order) == peers.Keys
    ensures forall p :: p in PeersInOrder(peers, order) ==> p.key in peers && peers[p.key] == p
  {
    var list := PeersInOrder(peers, order);
    forall k | k in peers ensures k in KeysOf(list) {
      var i :| 0 <= i < |order| && order[i] == k;
      assert list[i] in list;
    }
  }

  lemma ToldWithout(before: Logs, start: Logs, after: Logs,
                    order: seq<string>, key: string, peers: seq<Peer>, serial: nat)
    requires start == Push(before, key, WireMap([], serial)) && key !in order
    requires Told(start, after, Engine.Elements(order), Notice([], peers, serial))
    ensures Told(before - {key}, after - {key}, Engine.Elements(order), DeletionMaps(peers, key, serial))
    ensures key in before ==> key in after && after[key] == before[key] + [DeletionMaps(peers, key, serial)(key)]
  {
    hide WireMap, OthersOf;
    forall k | k != key ensures DeletionMaps(peers, key, serial)(k) == Notice([], peers, serial)(k) {
      assert [] + OthersOf(peers, k) == OthersOf(peers, k);
    }
  }

  lemma DeletionMapsAreNotices(t: StoreState, acc: string, gone: string, peers: seq<Peer>)
    requires acc in t.accounts && gone !in t.accounts[acc].peers && KeysOf(peers) == t.accounts[acc].peers.Keys
    requires Registered(t, acc, peers)
    ensures IsDeletionNotice(t, acc, gone, DeletionMaps(peers, gone, t.accounts[acc].network.serial))
  {
    var serial := t.accounts[acc].network.serial;
    var notice := DeletionMaps(peers, gone, serial);
    WireKeys([], serial);
    hide WireMap, OthersOf, KeysOf, Engine.Consistent, Engine.Keys, Registered;
    forall k | k in t.accounts[acc].peers
      ensures SyncProtocol.DeletionNotice(t, acc, gone, SyncProtocol.Snapshot(k, notice(k)))
    {
      OthersKeys(peers, k);
      WireKeys(OthersOf(peers, k), serial);
      OthersRegistered(t, acc, peers, k);
      WireRoutes(t, acc, OthersOf(peers, k), serial);
    }
  }
}
