/** The loops of GetNetworkMap, management/server/peer.go: from the rules found to groups, and from groups to
    a list of peers, proved to give the network map of the module NetworkMap. */
module NetworkMapLoops {
  import opened Model
  import opened StoreSpec
  import opened IndexAgreement
  import opened NetworkMap
  import opened FileStore

  /** `NetworkMap`: the peers to connect to, as a list that may repeat one, and the network with its serial. */
  datatype PeerMap = PeerMap(peers: seq<Peer>, network: Network)

  function KeysOf(peers: seq<Peer>): set<string> {
    set p | p in peers :: p.key
  }

  /** The map of the peer `key` of account `id`: the peers are registered ones, and their keys are exactly
      those that the access lists give. */
  ghost predicate IsMapFor(s: StoreState, id: string, key: string, m: PeerMap) {
    && id in s.accounts && m.network == s.accounts[id].network
    && (forall p :: p in m.peers ==> p.key in s.accounts[id].peers && s.accounts[id].peers[p.key] == p)
    && KeysOf(m.peers) == NetworkMapKeys(s, id, key)
  }

  lemma NobodyIsMap(s: StoreState, id: string, key: string)
    requires id in s.accounts && (key !in s.srcRules || key !in s.dstRules)
    ensures IsMapFor(s, id, key, PeerMap([], s.accounts[id].network))
  {
  }

  /** The groups on the far side of one rule, if it is bidirectional. */
  function FarOf(a: Account, r: string, src: bool): set<string>
    requires r in a.rules
  {
    if a.rules[r].flow == FLOW_BIDIRECT then Members(Side(a.rules[r], !src)) else {}
  }

  function Far(a: Account, rules: seq<string>, src: bool): set<string>
    requires forall x :: x in rules ==> x in a.rules
  {
    set r, g | r in rules && g in FarOf(a, r, src) :: g
  }

  lemma FarOneMore(a: Account, rules: seq<string>, r: string, src: bool)
    requires r in a.rules && forall x :: x in rules ==> x in a.rules
    ensures Far(a, rules + [r], src) == Far(a, rules, src) + FarOf(a, r, src)
  {
    hide FarOf;
    var all := rules + [r];
    assert forall x :: x in all <==> x in rules || x == r;
  }

  lemma FarIsVia(s: StoreState, id: string, src: bool, key: string, rules: seq<string>)
    requires id in s.accounts && IsListing(rules, RulesFound(s, id, src, key))
    ensures forall x :: x in rules ==> x in s.accounts[id].rules
    ensures Far(s.accounts[id], rules, src) == GroupsVia(s, id, src, key)
  {
    hide RulesFound;
    var a := s.accounts[id];
    forall g | g in Far(a, rules, src) ensures g in GroupsVia(s, id, src, key) {
      var r :| r in rules && g in FarOf(a, r, src);
      assert g in FarGroups(a, r, src);
    }
    forall g | g in GroupsVia(s, id, src, key) ensures g in Far(a, rules, src) {
      var r :| r in RulesFound(s, id, src, key) && a.rules[r].flow == FLOW_BIDIRECT && g in FarGroups(a, r, src);
      assert g in FarOf(a, r, src);
    }
  }

  /** Groups of the account under their ids: what the loops of GetNetworkMap gather. */
  predicate GroupsOf(a: Account, groups: map<string, Group>) {
    forall g :: g in groups ==> g in a.groups && groups[g] == a.groups[g]
  }

  method AddGroups(a: Account, gids: seq<string>, groups: map<string, Group>) returns (r: map<string, Group>)
    requires GroupsOf(a, groups) && forall g :: g in gids ==> g in a.groups
    ensures GroupsOf(a, r) && r.Keys == groups.Keys + Members(gids)
  {
    r := groups;
    for i := 0 to |gids|
      invariant GroupsOf(a, r) && r.Keys == groups.Keys + Members(gids[..i])
    {
      assert gids[..i + 1] == gids[..i] + [gids[i]];
      r := r[gids[i] := a.groups[gids[i]]];
    }
    assert gids[..|gids|] == gids;
  }

  /** The groups on the far side of the bidirectional rules found, added to those there are. */
  method CollectGroups(a: Account, rules: seq<string>, src: bool, groups: map<string, Group>)
    returns (r: map<string, Group>)
    requires a.RulesNameGroups() && GroupsOf(a, groups) && forall x :: x in rules ==> x in a.rules
    ensures GroupsOf(a, r) && r.Keys == groups.Keys + Far(a, rules, src)
  {
    hide Far, GroupsOf;
    r := groups;
    NoFar(a, src);
    for i := 0 to |rules|
      invariant GroupsOf(a, r) && r.Keys == groups.Keys + Far(a, rules[..i], src)
    {
      FarOneMore(a, rules[..i], rules[i], src);
      assert rules[..i + 1] == rules[..i] + [rules[i]];
      var rule := a.rules[rules[i]];
      if rule.flow == FLOW_BIDIRECT {
        r := AddGroups(a, Side(rule, !src), r);
      }
    }
    assert rules[..|rules|] == rules;
  }

  lemma NoFar(a: Account, src: bool)
    ensures Far(a, [], src) == {}
  {
  }

  /** What one group adds to the map for the peer `key`. */
  function Shown(a: Account, pids: seq<string>, key: string): set<string> {
    set k | k in pids && k in a.peers && a.peers[k].key != key :: a.peers[k].key
  }

  lemma ShownOneMore(a: Account, pids: seq<string>, k: string, key: string)
    ensures Shown(a, pids + [k], key) == Shown(a, pids, key) +
      if k in a.peers && a.peers[k].key != key then {a.peers[k].key} else {}
  {
    var all := pids + [k];
    assert forall x :: x in all <==> x in pids || x == k;
  }

  method AddShown(a: Account, pids: seq<string>, key: string, peers: seq<Peer>) returns (res: seq<Peer>)
    requires forall p :: p in peers ==> p in a.peers.Values
    ensures forall p :: p in res ==> p in a.peers.Values
    ensures KeysOf(res) == KeysOf(peers) + Shown(a, pids, key)
  {
    hide KeysOf, Shown;
    res := peers;
    NobodyShown(a, key);
    for j := 0 to |pids|
      invariant forall p :: p in res ==> p in a.peers.Values
      invariant KeysOf(res) == KeysOf(peers) + Shown(a, pids[..j], key)
    {
      ShownOneMore(a, pids[..j], pids[j], key);
      assert pids[..j + 1] == pids[..j] + [pids[j]];
      if pids[j] in a.peers && a.peers[pids[j]].key != key {
        OneMorePeer(res, a.peers[pids[j]]);
        res := res + [a.peers[pids[j]]];
      }
    }
    assert pids[..|pids|] == pids;
  }

  lemma NobodyShown(a: Account, key: string)
    ensures Shown(a, [], key) == {}
  {
  }

  lemma OneMorePeer(peers: seq<Peer>, p: Peer)
    ensures KeysOf(peers + [p]) == KeysOf(peers) + {p.key}
  {
    var all := peers + [p];
    assert forall q :: q in all <==> q in peers || q == p;
  }

  function ShownOf(a: Account, groups: map<string, Group>, ids: set<string>, key: string): set<string> {
    set g, k | g in ids && g in groups && k in Shown(a, groups[g].peers, key) :: k
  }

  /** The registered peers of the groups, but for the one the map is for; a peer of two groups comes twice. */
  method CollectPeers(a: Account, groups: map<string, Group>, key: string) returns (res: seq<Peer>)
    ensures forall p :: p in res ==> p in a.peers.Values
    ensures KeysOf(res) == ShownOf(a, groups, groups.Keys, key)
  {
    hide Shown;
    res := [];
    var todo := groups.Keys;
    while todo != {}
      invariant todo <= groups.Keys
      invariant forall p :: p in res ==> p in a.peers.Values
      invariant KeysOf(res) == ShownOf(a, groups, groups.Keys - todo, key)
    {
      var g :| g in todo;
      ghost var done := groups.Keys - todo;
      assert groups.Keys - (todo - {g}) == done + {g};
      assert ShownOf(a, groups, done + {g}, key) == ShownOf(a, groups, done, key) + Shown(a, groups[g].peers, key);
      res := AddShown(a, groups[g].peers, key, res);
      todo := todo - {g};
    }
    assert groups.Keys - todo == groups.Keys;
  }

  /** GetNetworkMap once the rules are found. */
  method MapVia(a: Account, key: string, srcRules: seq<string>, dstRules: seq<string>, ghost s: StoreState,
                ghost id: string)
    returns (m: PeerMap)
    requires id in s.accounts && s.accounts[id] == a && a.WellFormed() && key in s.srcRules && key in s.dstRules
    requires IsListing(srcRules, RulesFound(s, id, true, key)) && IsListing(dstRules, RulesFound(s, id, false, key))
    ensures IsMapFor(s, id, key, m)
  {
    NamesGroups(a);
    WellFormedParts(a);
    hide Account.WellFormed, GroupsVia, RulesFound, IsListing, Far, Account.RulesNameGroups, IsMapFor;
    FarIsVia(s, id, true, key, srcRules);
    FarIsVia(s, id, false, key, dstRules);
    var groups := CollectGroups(a, srcRules, true, map[]);
    groups := CollectGroups(a, dstRules, false, groups);
    var peers := CollectPeers(a, groups, key);
    CollectedIsMap(s, id, key, groups, peers);
    m := PeerMap(peers, a.network);
  }

  lemma CollectedIsMap(s: StoreState, id: string, key: string, groups: map<string, Group>, peers: seq<Peer>)
    requires id in s.accounts && key in s.srcRules && key in s.dstRules
    requires forall k :: k in s.accounts[id].peers ==> s.accounts[id].peers[k].key == k
    requires groups.Keys == GroupsFound(s, id, key) && GroupsOf(s.accounts[id], groups)
    requires forall p :: p in peers ==> p in s.accounts[id].peers.Values
    requires KeysOf(peers) == ShownOf(s.accounts[id], groups, groups.Keys, key)
    ensures IsMapFor(s, id, key, PeerMap(peers, s.accounts[id].network))
  {
    hide GroupsFound, KeysOf;
    var a := s.accounts[id];
    forall k ensures k in ShownOf(a, groups, groups.Keys, key) <==> k in NetworkMapKeys(s, id, key) {
      if k in ShownOf(a, groups, groups.Keys, key) {
        var g :| g in groups && k in Shown(a, groups[g].peers, key);
        assert g in GroupsFound(s, id, key) && g in a.groups && k in a.groups[g].peers;
      }
      if k in NetworkMapKeys(s, id, key) {
        var g :| g in GroupsFound(s, id, key) && g in a.groups && k in a.groups[g].peers;
        assert g in groups && k in Shown(a, groups[g].peers, key);
      }
    }
  }
}
