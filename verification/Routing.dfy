/** The routes that peers are sent, over every run of the account manager: management/server/grpcserver.go. */
module Routing {
  import opened IpArithmetic
  import opened IpAllocation
  import opened Model
  import opened Operations
  import opened StoreSpec
  import opened IndexAgreement
  import opened HostRoutes
  import opened Answers
  import opened Runs
  import opened ManagementServer

  /** In any list of registered peers, as every map of a run carries one, two entries have the same route exactly
      when they are of the same peer, and each route reads back as the address the peer has. */
  lemma RoutesAreDistinct(states: seq<StoreState>, ops: seq<Op>, n: nat, acc: string, peers: seq<Peer>, i: nat, j: nat)
    requires IsRun(states, ops) && n < |states| && acc in states[n].accounts && Registered(states[n], acc, peers)
    requires i < |peers| && j < |peers|
    ensures var r := RemotePeers(peers);
      && |r| == |peers| && r[i].key in states[n].accounts[acc].peers
      && ParseCidr(r[i].allowedIps) == Ok(IPNet(states[n].accounts[acc].peers[r[i].key].ip, 32))
      && (r[i].allowedIps == r[j].allowedIps <==> r[i].key == r[j].key)
  {
    hide IsRun, Contains, ParseCidr, HostRoute;
    RemotePeersReadBack(peers);
    AddressesAreUniqueAndUsable(states, ops, n, acc, peers[i].key, peers[j].key);
  }

  lemma MaskedTwoOctets(s: seq<byte>, p: nat)
    requires |s| == 4 && 16 <= p
    ensures Mask(s, p)[..2] == s[..2] && Mask(s, 16) == s[..2] + [0, 0]
  {
    assert s[..3][..2] == s[..2];
    assert Mask(s[..2], 16) == s[..2] && Mask(s[..3], 16) == s[..2] + [0];
  }

  /** The interface address of a peer, of prefix 16 whatever its network, takes in every peer of its account as
      long as the network is no larger than the generated ones. */
  lemma InterfaceReachesAccount(states: seq<StoreState>, ops: seq<Op>, n: nat, acc: string, k: string, l: string)
    requires IsRun(states, ops) && n < |states| && acc in states[n].accounts
    requires k in states[n].accounts[acc].peers && l in states[n].accounts[acc].peers
    requires 16 <= states[n].accounts[acc].network.net.prefix
    ensures var peers := states[n].accounts[acc].peers; var own := ParseCidr(InterfaceAddress(peers[k].ip));
      own == Ok(IPNet(peers[k].ip, 16)) && Contains(own.value, AddrOctets(peers[l].ip))
  {
    hide IsRun, ParseCidr, InterfaceAddress;
    var a := states[n].accounts[acc];
    var net, x, y := a.network.net, AddrOctets(a.peers[k].ip), AddrOctets(a.peers[l].ip);
    InterfaceAddressReadsBack(a.peers[k].ip);
    AddressesAreUniqueAndUsable(states, ops, n, acc, k, l);
    AddressesAreUniqueAndUsable(states, ops, n, acc, l, k);
    MaskedTwoOctets(x, net.prefix);
    MaskedTwoOctets(y, net.prefix);
  }

  /** registerPeer answers with the peer as requested exactly when AddPeer does; it reports a known key that does not
      admit, and an account without a free address, as such, and everything else as not found. */
  lemma RegistrationIsReported(s: StoreState, op: Op, id: string)
    requires Agree(s) && Enabled(s, op) && op.AddPeerOp?
    ensures AddAnswer(s, op).Ok? ==> Reported(AddAnswer(s, op)) == AddAnswer(s, op)
    ensures (forall x :: !Admitted(s, op, x)) ==>
      Reported(AddAnswer(s, op)) ==
      Err(if Upper(op.setupKey) != "" && KeyKnown(s, Upper(op.setupKey)) then FailedPrecondition else NotFound)
    ensures Admitted(s, op, id) && AddAnswer(s, op).Err? ==>
      var a := s.accounts[id];
      Reported(AddAnswer(s, op)) == Err(if FreeIps(a.network.net, a.TakenIps()) == [] then OutOfRange else NotFound)
  {
    hide Agree, Admitted, AddAnswer, Step, Enabled, KeyKnown, FreeIps, Account.TakenIps, Upper, Entered;
    hide AsRequested, LacksAll;
    AddPeerAnswer(s, op, id);
  }
}
