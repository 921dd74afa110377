/** Addresses over whole runs: the peers of an account hold distinct usable addresses of its network,
    and AddPeer runs out of them exactly when the network's capacity is reached. */
module Addresses {
  import opened IpAllocation
  import opened Model
  import opened StoreSpec
  import opened ManagerSpec
  import opened Operations
  import opened OperationShapes
  import opened IndexAgreement

  ghost predicate DistinctIps(peers: map<string, Peer>) {
    forall k, l :: k in peers && l in peers && k != l ==> peers[k].ip != peers[l].ip
  }

  ghost predicate AddressesOk(a: Account) {
    a.network.net.Valid() && DistinctIps(a.peers) && TakenOk(a.network.net, a.TakenIps())
  }

  ghost predicate AllAddressesOk(s: StoreState) {
    forall id :: id in s.accounts ==> AddressesOk(s.accounts[id])
  }

  function IpsOf(peers: map<string, Peer>): set<Addr> {
    set k | k in peers :: peers[k].ip
  }

  lemma IpsWithout(peers: map<string, Peer>, k: string)
    requires DistinctIps(peers) && k in peers
    ensures IpsOf(peers) == IpsOf(peers - {k}) + {peers[k].ip} && peers[k].ip !in IpsOf(peers - {k})
  {
    forall v | v in IpsOf(peers) ensures v in IpsOf(peers - {k}) + {peers[k].ip} {
      var l :| l in peers && peers[l].ip == v;
      if l != k { assert l in peers - {k} && (peers - {k})[l].ip == v; }
    }
    forall v | v in IpsOf(peers - {k}) ensures v in IpsOf(peers) && v != peers[k].ip {
      var l :| l in peers - {k} && (peers - {k})[l].ip == v;
      assert l in peers && peers[l].ip == v;
    }
    assert peers[k].ip in IpsOf(peers);
  }

  lemma {:induction false} AsManyIpsAsPeers(peers: map<string, Peer>)
    requires DistinctIps(peers)
    ensures |IpsOf(peers)| == |peers|
    decreases |peers|
  {
    var ips := IpsOf(peers);
    if peers == map[] {
      assert ips == {};
    } else {
      var k :| k in peers;
      var rest := peers - {k};
      assert peers.Keys == rest.Keys + {k};
      AsManyIpsAsPeers(rest);
      IpsWithout(peers, k);
    }
  }

  /** The number of peers decides whether an address is left. */
  lemma FullExactlyAtCapacity(a: Account)
    requires AddressesOk(a)
    ensures FreeIps(a.network.net, a.TakenIps()) == [] <==> |a.peers| == Capacity(a.network.net)
    ensures |a.peers| <= Capacity(a.network.net)
  {
    AsManyIpsAsPeers(a.peers);
    assert IpsOf(a.peers) == a.TakenIps();
    AllocationFailsExactlyWhenFull(a.network.net, a.TakenIps());
  }

  lemma SamePeersSameAddresses(a: Account, b: Account)
    requires AddressesOk(a) && b.network.net == a.network.net && b.peers.Keys <= a.peers.Keys
    requires forall k :: k in b.peers ==> b.peers[k].ip == a.peers[k].ip
    ensures AddressesOk(b)
  {
    hide FreeIps;
    forall v | v in b.TakenIps() ensures v in a.TakenIps() {
      var k :| k in b.peers && b.peers[k].ip == v;
      assert k in a.peers && a.peers[k].ip == v;
    }
  }

  lemma NoPeersAddresses(a: Account)
    requires a.peers == map[] && a.network.net.Valid()
    ensures AddressesOk(a)
  {
    hide FreeIps;
    assert a.TakenIps() == {};
  }

  /** Registering a peer, also one that takes the place of an earlier registration of its key. */
  lemma NewPeerAddresses(a: Account, b: Account, p: Peer)
    requires AddressesOk(a) && b.network.net == a.network.net && b.peers == a.peers[p.key := p]
    requires p.ip in FreeIps(a.network.net, a.TakenIps())
    ensures AddressesOk(b)
  {
    hide FreeIps;
    AllocatingKeeps(a.network.net, a.TakenIps(), p.ip);
    assert b.TakenIps() <= a.TakenIps() + {p.ip} by {
      forall v | v in b.TakenIps() ensures v in a.TakenIps() + {p.ip} {
        var k :| k in b.peers && b.peers[k].ip == v;
        if k != p.key { assert k in a.peers && a.peers[k].ip == v; }
      }
    }
    forall k, l | k in b.peers && l in b.peers && k != l ensures b.peers[k].ip != b.peers[l].ip {
      if k == p.key { assert a.peers[l].ip in a.TakenIps(); }
      if l == p.key { assert a.peers[k].ip in a.TakenIps(); }
    }
  }

  ghost predicate ChangeAddressesOk(s: StoreState, c: Change) {
    !c.NoChange? ==> AddressesOk(c.a)
  }

  lemma AddPeerAddresses(s: StoreState, op: Op)
    requires s.WellFormed() && AllAddressesOk(s) && Enabled(s, op) && op.AddPeerOp?
    ensures ChangeAddressesOk(s, ChangeOf(s, op))
  {
    hide Account.WellFormed, Upper, FreeIps, AddressesOk;
    var home, c := LocateForAdd(s, op.setupKey, op.userId, op.now), ChangeOf(s, op);
    LocatedKey(s, op.setupKey, op.userId, op.now);
    if c != NoChange {
      NewPeerAddresses(s.accounts[home.value], c.a, c.a.peers[op.req.key]);
    }
  }

  /** A request that is not turned away for its key or user fails for want of an address exactly when the
      account has as many peers as the capacity of its network. */
  lemma AddPeerOutOfRangeExactly(s: StoreState, op: Op, id: string)
    requires AllAddressesOk(s) && Enabled(s, op) && op.AddPeerOp?
    requires LocateForAdd(s, op.setupKey, op.userId, op.now) == Ok(id)
    ensures id in s.accounts
    ensures AddPeer(s, op.setupKey, op.userId, op.req, op.now, op.ip, op.gid).result == Err(OutOfRange)
      <==> |s.accounts[id].peers| == Capacity(s.accounts[id].network.net)
  {
    hide Upper, FreeIps, Capacity, AddressesOk;
    LocatedKey(s, op.setupKey, op.userId, op.now);
    FullExactlyAtCapacity(s.accounts[id]);
  }

  lemma PeerOpsAddresses(s: StoreState, op: Op)
    requires Agree(s) && AllAddressesOk(s) && Enabled(s, op) && Disciplined(s, op)
    requires op.DeletePeerOp? || op.RenamePeerOp? || op.MarkPeerOp? || op.UpdateMetaOp?
    ensures ChangeAddressesOk(s, ChangeOf(s, op))
  {
    hide Account.WellFormed, Exact, AddressesOk, ChangeOf;
    var c := ChangeOf(s, op);
    if op.DeletePeerOp? { DeletePeerShape(s, op); } else { InPlaceOpShape(s, op); }
    if c != NoChange {
      SamePeersSameAddresses(s.accounts[c.a.id], c.a);
    }
  }

  lemma OtherOpsKeepPeers(s: StoreState, op: Op)
    requires s.WellFormed() && Enabled(s, op) && !op.RestartOp?
    requires !(op.AddPeerOp? || op.DeletePeerOp? || op.RenamePeerOp? || op.MarkPeerOp? || op.UpdateMetaOp?)
      && Disciplined(s, op)
    ensures KeepsPeers(s, ChangeOf(s, op))
  {
    hide Account.WellFormed, ChangeOf;
    if op.GetOrCreateOp? || op.ClaimsOp? || op.AddAccountOp? {
      AccountOpShape(s, op);
    } else if op.AddSetupKeyOp? || op.RevokeKeyOp? || op.RenameKeyOp? {
      KeyOpShape(s, op);
    } else {
      GroupOrRuleOpShape(s, op);
    }
  }

  ghost predicate KeepsPeers(s: StoreState, c: Change) {
    !c.NoChange? ==>
      if c.a.id in s.accounts then c.a.peers == s.accounts[c.a.id].peers && c.a.network == s.accounts[c.a.id].network
      else c.a.peers == map[] && c.a.network.net.Valid() && c.a.network.serial == 0
  }

  lemma {:induction false} BuildManagerAddresses(s: StoreState, saves: seq<string>, picks: map<string, AllPick>)
    requires s.WellFormed() && AllAddressesOk(s) && forall id :: id in saves ==> id in s.accounts && id in picks
    ensures AllAddressesOk(BuildManager(s, saves, picks))
    decreases saves
  {
    hide Account.WellFormed, BuildOne, AddressesOk;
    if saves != [] {
      var a, p := s.accounts[saves[0]], picks[saves[0]];
      SamePeersSameAddresses(a, AddAllGroup(a, p.groupId, p.ruleId, p.peers));
      BuildOneWellFormed(s, saves[0], p);
      BuildManagerAddresses(BuildOne(s, saves[0], p), saves[1..], picks);
    }
  }

  /** Every disciplined step keeps all addresses distinct and usable. */
  lemma StepAddresses(s: StoreState, op: Op)
    requires Agree(s) && AllAddressesOk(s) && Enabled(s, op) && Disciplined(s, op)
    ensures AllAddressesOk(Step(s, op))
  {
    hide Account.WellFormed, Exact, AddressesOk;
    if op.RestartOp? {
      hide RestoreFrom;
      BuildManagerAddresses(Restore(s.accounts, op.order), op.saves, op.picks);
    } else {
      var c := ChangeOf(s, op);
      if op.AddPeerOp? {
        AddPeerAddresses(s, op);
      } else if op.DeletePeerOp? || op.RenamePeerOp? || op.MarkPeerOp? || op.UpdateMetaOp? {
        PeerOpsAddresses(s, op);
      } else {
        OtherOpsKeepPeers(s, op);
        if !c.NoChange? {
          if c.a.id in s.accounts { SamePeersSameAddresses(s.accounts[c.a.id], c.a); } else { NoPeersAddresses(c.a); }
        }
      }
      hide ChangeOf;
      AddressesAfter(s, c);
    }
  }

  lemma AddressesAfter(s: StoreState, c: Change)
    requires AllAddressesOk(s) && ChangeAddressesOk(s, c)
    ensures AllAddressesOk(Apply(s, c))
  {
    hide AddressesOk;
  }
}
