/** The store of management/server/file_store.go: account records that the manager changes in place, and
    six indexes that its loops maintain. Every method is specified by StoreSpec on the store's state. */
module FileStore {
  import opened Model
  import opened StoreSpec
  import opened ManagerSpec
  import opened NetworkMap

  // ----- loops over maps and lists -----

  /** The keys of a map in the order in which Go happens to visit them. */
  method ListKeys<V>(m: map<string, V>) returns (keys: seq<string>)
    ensures IsListing(keys, m.Keys)
  {
    keys := [];
    var rest := m.Keys;
    while rest != {}
      invariant rest <= m.Keys && IsListing(keys, m.Keys - rest)
    {
      var k :| k in rest;
      ListOneMore(keys, m.Keys - rest, k);
      assert m.Keys - rest + {k} == m.Keys - (rest - {k});
      keys := keys + [k];
      rest := rest - {k};
    }
    assert m.Keys - rest == m.Keys;
  }

  lemma ListOneMore(keys: seq<string>, visited: set<string>, k: string)
    requires IsListing(keys, visited) && k !in visited
    ensures IsListing(keys + [k], visited + {k})
  {
    forall i, j | 0 <= i < j < |keys + [k]| ensures (keys + [k])[i] != (keys + [k])[j] {
      if j == |keys| { assert keys[i] in visited; }
    }
  }

  /** The position of the first occurrence, or -1. */
  method FirstIndex(s: seq<string>, key: string) returns (ind: int)
    ensures -1 <= ind < |s|
    ensures ind == -1 <==> key !in s
    ensures ind >= 0 ==> s[ind] == key && key !in s[..ind]
  {
    for i := 0 to |s|
      invariant key !in s[..i]
    {
      if s[i] == key {
        return i;
      }
    }
    return -1;
  }

  /** The inner clean-up loop of DeletePeer: what the group keeps goes to the end of the list. */
  method AppendWithout(kept: seq<string>, s: seq<string>, key: string) returns (r: seq<string>)
    ensures r == kept + Without(s, key)
  {
    r := kept;
    for i := 0 to |s|
      invariant r + Without(s[i..], key) == kept + Without(s, key)
    {
      assert s[i..][0] == s[i] && s[i..][1..] == s[i + 1..];
      if s[i] != key {
        assert r + [s[i]] + Without(s[i + 1..], key) == r + ([s[i]] + Without(s[i + 1..], key));
        r := r + [s[i]];
      }
    }
  }

  // ----- the loops of SaveAccount and restore -----

  /** The loops over setup keys, peers and users: the name of each element points to the account. */
  method PointNames(idx: map<string, string>, names: map<string, string>, id: string) returns (r: map<string, string>)
    ensures r == PointAll(idx, names.Values, id)
  {
    r := idx;
    var todo := names.Keys;
    ghost var done: set<string> := {};
    while todo != {}
      invariant todo <= names.Keys
      invariant done == set k | k in names && k !in todo :: names[k]
      invariant r == PointAll(idx, done, id)
    {
      var k :| k in todo;
      todo := todo - {k};
      r := r[names[k] := id];
      done := done + {names[k]};
    }
    assert done == names.Values;
  }

  /** A rule index after rule `rid` has been entered for the peers `members`. */
  function Enter(idx: map<string, set<string>>, members: set<string>, rid: string): map<string, set<string>> {
    map p | p in idx.Keys + members :: Lookup(idx, p) + if p in members then {rid} else {}
  }

  function Members(keys: seq<string>): set<string> {
    set k | k in keys
  }

  /** The innermost loop: the peers of one group. */
  method EnterGroup(idx: map<string, set<string>>, peers: seq<string>, rid: string)
    returns (r: map<string, set<string>>)
    ensures r == Enter(idx, Members(peers), rid)
  {
    r := idx;
    EnterNobody(idx, rid);
    assert Members(peers[..0]) == {};
    for i := 0 to |peers|
      invariant r == Enter(idx, Members(peers[..i]), rid)
    {
      EnterOneMore(idx, Members(peers[..i]), peers[i], rid);
      assert peers[..i + 1] == peers[..i] + [peers[i]];
      assert Members(peers[..i + 1]) == Members(peers[..i]) + {peers[i]};
      hide Enter;
      var rules := if peers[i] in r then r[peers[i]] else {};
      r := r[peers[i] := rules + {rid}];
    }
    assert peers[..|peers|] == peers;
  }

  lemma EnterOneMore(idx: map<string, set<string>>, m: set<string>, p: string, rid: string)
    ensures var r := Enter(idx, m, rid); Enter(idx, m + {p}, rid) == r[p := Lookup(r, p) + {rid}]
  {
    var r := Enter(idx, m, rid);
    SameIndex(Enter(idx, m + {p}, rid), r[p := Lookup(r, p) + {rid}]);
  }

  lemma EnterTwice(idx: map<string, set<string>>, m: set<string>, n: set<string>, rid: string)
    ensures Enter(Enter(idx, m, rid), n, rid) == Enter(idx, m + n, rid)
  {
    SameIndex(Enter(Enter(idx, m, rid), n, rid), Enter(idx, m + n, rid));
  }

  lemma SameIndex(x: map<string, set<string>>, y: map<string, set<string>>)
    requires x.Keys == y.Keys && forall p :: p in x ==> x[p] == y[p]
    ensures x == y
  {
    assert forall p :: p in x.Keys <==> p in y.Keys;
  }

  lemma EnterNobody(idx: map<string, set<string>>, rid: string)
    ensures Enter(idx, {}, rid) == idx
  {
    SameIndex(Enter(idx, {}, rid), idx);
  }

  lemma MembersOfOneMore(a: Account, gids: seq<string>, gid: string)
    ensures MembersOf(a, gids + [gid]) ==
      MembersOf(a, gids) + if gid in a.groups then Members(a.groups[gid].peers) else {}
  {
    assert forall g :: g in gids + [gid] <==> g in gids || g == gid;
  }

  /** The loop over one side of a rule. SaveAccount reads the groups unchecked, restore skips missing ones. */
  method EnterRule(idx: map<string, set<string>>, a: Account, rid: string, src: bool)
    returns (r: map<string, set<string>>)
    requires rid in a.rules
    ensures r == IndexRules(idx, a, {rid}, src)
  {
    var rule := a.rules[rid];
    var gids := Side(rule, src);
    r := idx;
    assert MembersOf(a, []) == {};
    EnterNobody(idx, rule.id);
    for i := 0 to |gids|
      invariant r == Enter(idx, MembersOf(a, gids[..i]), rule.id)
    {
      MembersOfOneMore(a, gids[..i], gids[i]);
      assert gids[..i + 1] == gids[..i] + [gids[i]];
      hide MembersOf;
      if gids[i] in a.groups {
        r := EnterGroup(r, a.groups[gids[i]].peers, rule.id);
        EnterTwice(idx, MembersOf(a, gids[..i]), Members(a.groups[gids[i]].peers), rule.id);
      }
    }
    assert gids[..|gids|] == gids;
    hide MembersOf;
    EnterIsIndexRules(idx, a, rid, src);
  }

  lemma EnterIsIndexRules(idx: map<string, set<string>>, a: Account, rid: string, src: bool)
    requires rid in a.rules
    ensures Enter(idx, MembersOf(a, Side(a.rules[rid], src)), a.rules[rid].id) == IndexRules(idx, a, {rid}, src)
  {
    hide MembersOf;
    var members := MembersOf(a, Side(a.rules[rid], src));
    assert PeersNamed(a, {rid}, src) == members;
    forall p ensures RulesNaming(a, {rid}, src, p) == if p in members then {a.rules[rid].id} else {} {}
  }

  lemma IndexRulesOneMore(idx: map<string, set<string>>, a: Account, rs: set<string>, rid: string, src: bool)
    requires rid in a.rules
    ensures IndexRules(IndexRules(idx, a, rs, src), a, {rid}, src) == IndexRules(idx, a, rs + {rid}, src)
  {
    var once, all := IndexRules(idx, a, rs, src), IndexRules(idx, a, rs + {rid}, src);
    var twice := IndexRules(once, a, {rid}, src);
    NamedOneMore(a, rs, rid, src);
    assert twice.Keys == all.Keys by { hide PeersNamed, RulesNaming; }
    hide IndexRules, RulesNaming, PeersNamed;
    forall p | p in twice ensures twice[p] == all[p] {
      NamingOneMore(a, rs, rid, src, p);
      IndexRulesLookup(idx, a, rs, src, p);
      IndexRulesLookup(once, a, {rid}, src, p);
      IndexRulesLookup(idx, a, rs + {rid}, src, p);
    }
    SameIndex(twice, all);
  }

  lemma NamingOneMore(a: Account, rs: set<string>, rid: string, src: bool, p: string)
    ensures RulesNaming(a, rs + {rid}, src, p) == RulesNaming(a, rs, src, p) + RulesNaming(a, {rid}, src, p)
  {
    hide MembersOf;
  }

  lemma NamedOneMore(a: Account, rs: set<string>, rid: string, src: bool)
    ensures PeersNamed(a, rs + {rid}, src) == PeersNamed(a, rs, src) + PeersNamed(a, {rid}, src)
  {
    hide MembersOf;
  }

  /** The loop over the rules of an account, which fills both rule indexes. */
  method EnterRules(srcIdx: map<string, set<string>>, dstIdx: map<string, set<string>>, a: Account)
    returns (src: map<string, set<string>>, dst: map<string, set<string>>)
    ensures src == IndexRules(srcIdx, a, a.rules.Keys, true)
    ensures dst == IndexRules(dstIdx, a, a.rules.Keys, false)
  {
    src, dst := srcIdx, dstIdx;
    var todo := a.rules.Keys;
    IndexNoRules(srcIdx, a, true);
    IndexNoRules(dstIdx, a, false);
    hide IndexRules;
    assert a.rules.Keys - todo == {};
    while todo != {}
      invariant todo <= a.rules.Keys
      invariant src == IndexRules(srcIdx, a, a.rules.Keys - todo, true)
      invariant dst == IndexRules(dstIdx, a, a.rules.Keys - todo, false)
    {
      var rid :| rid in todo;
      IndexRulesOneMore(srcIdx, a, a.rules.Keys - todo, rid, true);
      IndexRulesOneMore(dstIdx, a, a.rules.Keys - todo, rid, false);
      assert a.rules.Keys - todo + {rid} == a.rules.Keys - (todo - {rid});
      src := EnterRule(src, a, rid, true);
      dst := EnterRule(dst, a, rid, false);
      todo := todo - {rid};
    }
    assert a.rules.Keys - todo == a.rules.Keys;
  }

  lemma IndexNoRules(idx: map<string, set<string>>, a: Account, src: bool)
    ensures IndexRules(idx, a, {}, src) == idx
  {
    SameIndex(IndexRules(idx, a, {}, src), idx);
  }

  // ----- the records -----

  /** `Account`: one record, shared by the store and by whoever asked for it, and changed in place. */
  class Record {
    const id: string
    const createdBy: string
    var domain: string
    var domainCategory: string
    var isPrimary: bool
    var setupKeys: map<string, SetupKey>
    var network: Network
    var peers: map<string, Peer>
    var users: map<string, User>
    var groups: map<string, Group>
    var rules: map<string, Rule>

    constructor (a: Account)
      ensures View() == a
    {
      id, createdBy, domain, domainCategory, isPrimary := a.id, a.createdBy, a.domain, a.domainCategory, a.isPrimary;
      setupKeys, network, peers, users, groups, rules := a.setupKeys, a.network, a.peers, a.users, a.groups, a.rules;
    }

    function View(): (a: Account)
      reads this
      ensures a.id == id
    {
      Account(id, createdBy, domain, domainCategory, isPrimary, setupKeys, network, peers, users, groups, rules)
    }

    /** `GetGroupAll`: a group named All, whichever comes first; its id stands for the group. */
    method GetGroupAll() returns (r: Result<string>)
      ensures r == Err(Plain) <==> View().AllGroups() == {}
      ensures r == Err(Plain) || (r.Ok? && r.value in View().AllGroups())
    {
      var ids := ListKeys(groups);
      for i := 0 to |ids|
        invariant forall j :: 0 <= j < i ==> groups[ids[j]].name != ALL_GROUP
      {
        if groups[ids[i]].name == ALL_GROUP {
          assert ids[i] in View().AllGroups();
          return Ok(ids[i]);
        }
      }
      return Err(Plain);
    }

    /** The part of SavePeer after the lookup: the peer is put into the group All when it is not there. */
    method SavePeer(peer: Peer) returns (r: Result<Peer>, ghost gid: string)
      modifies this
      ensures old(View()).AllGroups() != {} ==> gid in old(View()).AllGroups()
      ensures var o := ManagerSpec.SavePeer(old(View()), peer, gid);
        r == o.result && View() == if o.change.InPlace? then o.change.a else old(View())
    {
      gid := "";
      var all := GetGroupAll();
      if all.Err? {
        return Err(all.error), gid;
      }
      gid := all.value;
      var group := groups[all.value];
      var ind := FirstIndex(group.peers, peer.key);
      if ind < 0 {
        groups := groups[all.value := group.(peers := group.peers + [peer.key])];
      }
      peers := peers[peer.key := peer];
      return Ok(peer), gid;
    }

    /** The part of DeletePeer after the lookup. The list of survivors outlives a turn of the group loop. */
    method RemovePeer(key: string) returns (ghost order: seq<string>)
      modifies this
      ensures IsListing(order, old(groups).Keys) && forall g :: g in order ==> g in old(groups)
      ensures View() == old(View()).(peers := old(peers) - {key}, groups := CleanGroups(old(groups), order, [], key))
    {
      peers := peers - {key};
      var gids := ListKeys(groups);
      order := gids;
      var survivors: seq<string> := [];
      ghost var before := View();
      for i := 0 to |gids|
        invariant groups.Keys == before.groups.Keys && View() == before.(groups := groups)
        invariant CleanGroups(groups, gids[i..], survivors, key) == CleanGroups(before.groups, gids, [], key)
      {
        assert gids[i..][0] == gids[i] && gids[i..][1..] == gids[i + 1..];
        hide IsListing;
        var g := groups[gids[i]];
        survivors := AppendWithout(survivors, g.peers, key);
        groups := groups[gids[i] := g.(peers := survivors)];
      }
    }
  }

  ghost function Views(records: map<string, Record>): map<string, Account>
    reads records.Values
  {
    map id | id in records :: records[id].View()
  }

  /** `FileStore`. */
  class Store {
    var accounts: map<string, Record>
    var setupKeyIdx: map<string, string>
    var peerIdx: map<string, string>
    var userIdx: map<string, string>
    var domainIdx: map<string, string>
    var srcRules: map<string, set<string>>
    var dstRules: map<string, set<string>>

    ghost function State(): StoreState
      reads this, accounts.Values
    {
      StoreState(Views(accounts), setupKeyIdx, peerIdx, userIdx, domainIdx, srcRules, dstRules)
    }

    /** Records are stored under their ids, so no record is stored twice. */
    ghost predicate Valid()
      reads this
    {
      forall id :: id in accounts ==> accounts[id].id == id
    }

    /** A store over the accounts as they are read back from the file, before any index is built. */
    constructor (records: map<string, Record>)
      ensures accounts == records
      ensures setupKeyIdx == map[] && peerIdx == map[] && userIdx == map[] && domainIdx == map[]
      ensures srcRules == map[] && dstRules == map[]
    {
      accounts := records;
      setupKeyIdx, peerIdx, userIdx, domainIdx, srcRules, dstRules := map[], map[], map[], map[], map[], map[];
    }

    /** What SaveAccount and restore do for one account, apart from the private domain. */
    method EnterAccount(account: Record, id: string)
      modifies this`setupKeyIdx, this`peerIdx, this`userIdx, this`srcRules, this`dstRules
      ensures setupKeyIdx == PointAll(old(setupKeyIdx), SetupKeyNames(account.View()), id)
      ensures peerIdx == PointAll(old(peerIdx), PeerNames(account.View()), id)
      ensures userIdx == PointAll(old(userIdx), UserNames(account.View()), id)
      ensures srcRules == IndexRules(old(srcRules), account.View(), account.rules.Keys, true)
      ensures dstRules == IndexRules(old(dstRules), account.View(), account.rules.Keys, false)
    {
      hide PointAll, IndexRules;
      var a := account.View();
      var keyNames := map k | k in a.setupKeys :: Upper(k);
      var peerNames := map k | k in a.peers :: a.peers[k].key;
      var userNames := map u | u in a.users :: a.users[u].id;
      assert keyNames.Values == SetupKeyNames(a) by { assert forall k :: k in a.setupKeys ==> k in keyNames; }
      assert peerNames.Values == PeerNames(a) by { assert forall k :: k in a.peers ==> k in peerNames; }
      assert userNames.Values == UserNames(a) by { assert forall u :: u in a.users ==> u in userNames; }
      setupKeyIdx := PointNames(setupKeyIdx, keyNames, id);
      peerIdx := PointNames(peerIdx, peerNames, id);
      srcRules, dstRules := EnterRules(srcRules, dstRules, a);
      userIdx := PointNames(userIdx, userNames, id);
    }

    method Put(account: Record)
      modifies this`accounts
      ensures accounts == old(accounts)[account.id := account]
      ensures Views(accounts) == old(Views(accounts))[account.id := account.View()]
    {
      hide Record.View;
      accounts := accounts[account.id := account];
    }

    /** One turn of the loop of restore; unlike SaveAccount it does not enter an empty domain. */
    method RestoreAccount(account: Record, id: string)
      modifies this
      ensures accounts == old(accounts) && Views(accounts) == old(Views(accounts))
      ensures var a := account.View();
        State() == IndexAccount(old(State()), id, a, a.domain != "" && a.PrivatePrimary())
    {
      hide Views, PointAll, IndexRules, SetupKeyNames, PeerNames, UserNames;
      EnterAccount(account, id);
      if account.domain != "" && account.domainCategory == PRIVATE_CATEGORY && account.isPrimary {
        domainIdx := domainIdx[account.domain := id];
      }
    }

    /** SaveAccount, for a record whose rules name groups it has: the code reads those groups unchecked. */
    method SaveAccount(account: Record)
      requires Valid() && account.View().RulesNameGroups()
      modifies this
      ensures accounts == old(accounts)[account.id := account] && Valid()
      ensures State() == Save(old(State()), account.View())
    {
      hide Views, PointAll, IndexRules, SetupKeyNames, PeerNames, UserNames, Save, Account.RulesNameGroups;
      ghost var before, a := State(), account.View();
      Put(account);
      EnterAccount(account, account.id);
      if account.domainCategory == PRIVATE_CATEGORY && account.isPrimary {
        domainIdx := domainIdx[account.domain := account.id];
      }
      SavedParts(before, a, State());
    }

    /** SavePeer: the account only, no index. */
    method SavePeer(accountId: string, peer: Peer) returns (r: Result<Peer>, ghost gid: string)
      requires Valid()
      modifies accounts.Values
      ensures Valid() && accounts == old(accounts) && SavePicks(old(State()), accountId, gid)
      ensures accountId !in accounts ==> r == Err(NotFound) && State() == old(State())
      ensures accountId in accounts ==>
        var o := ManagerSpec.SavePeer(old(State()).accounts[accountId], peer, gid);
        r == o.result && State() == Apply(old(State()), o.change)
    {
      hide Save, Account.AllGroups, AppendToGroup, Record.View;
      gid := "";
      if accountId !in accounts {
        return Err(NotFound), gid;
      }
      var account := accounts[accountId];
      ghost var before := State();
      assert before.accounts[accountId] == account.View();
      assert before.accounts[accountId := account.View()] == before.accounts;
      r, gid := account.SavePeer(peer);
      assert Views(accounts) == before.accounts[accountId := account.View()];
      hide Views;
      assert State() == before.(accounts := before.accounts[accountId := account.View()]);
    }

    /** DeletePeer, without the serial that the manager then increments. */
    method DeletePeer(accountId: string, key: string) returns (r: Result<Peer>, ghost order: seq<string>)
      requires Valid()
      modifies this`peerIdx, accounts.Values
      ensures Valid() && accounts == old(accounts)
      ensures accountId in accounts ==> IsListing(order, old(accounts[accountId].groups).Keys)
      ensures accountId in accounts && key in old(accounts[accountId].peers) ==>
        r == Ok(old(accounts[accountId].peers[key]))
      ensures accountId !in accounts || key !in old(accounts[accountId].peers) ==> r == Err(NotFound)
      ensures r.Err? ==> State() == old(State())
      ensures r.Ok? ==>
        var s := old(State()); var a := s.accounts[accountId];
        State() == s.(peerIdx := s.peerIdx - {key},
                      accounts := s.accounts[accountId := a.(peers := a.peers - {key},
                                                             groups := CleanGroups(a.groups, order, [], key))])
    {
      hide CleanGroups, IsListing;
      if accountId !in accounts {
        return Err(NotFound), [];
      }
      var account := accounts[accountId];
      if key !in account.peers {
        order := ListingOf(account.groups.Keys);
        return Err(NotFound), order;
      }
      ghost var before, a := State(), account.View();
      assert before.accounts[accountId] == a;
      r := Ok(account.peers[key]);
      peerIdx := peerIdx - {key};
      order := account.RemovePeer(key);
      assert account.View() == a.(peers := a.peers - {key}, groups := CleanGroups(a.groups, order, [], key));
      hide Record.View;
      assert Views(accounts) == before.accounts[accountId := account.View()];
      hide Views;
    }

    // ----- lookups -----

    /** GetAccount. */
    method GetAccount(accountId: string) returns (r: Result<Record>)
      ensures r == if accountId in accounts then Ok(accounts[accountId]) else Err(NotFound)
    {
      return if accountId in accounts then Ok(accounts[accountId]) else Err(NotFound);
    }

    /** The lookups through an index: an entry, and then the account it names. */
    method Find(idx: map<string, string>, key: string) returns (r: Result<Record>)
      ensures r.Ok? <==> AccountOf(State(), idx, key).Ok?
      ensures r == if r.Ok? then Ok(accounts[AccountOf(State(), idx, key).value]) else Err(NotFound)
    {
      if key !in idx {
        return Err(NotFound);
      }
      r := GetAccount(idx[key]);
    }

    method GetAccountByPrivateDomain(domain: string) returns (r: Result<Record>)
      ensures var home := AccountOf(State(), domainIdx, Lower(domain));
        r == if home.Ok? then Ok(accounts[home.value]) else Err(NotFound)
    {
      r := Find(domainIdx, Lower(domain));
    }

    method GetAccountBySetupKey(setupKey: string) returns (r: Result<Record>)
      ensures var home := AccountOf(State(), setupKeyIdx, Upper(setupKey));
        r == if home.Ok? then Ok(accounts[home.value]) else Err(NotFound)
    {
      r := Find(setupKeyIdx, Upper(setupKey));
    }

    method GetUserAccount(userId: string) returns (r: Result<Record>)
      ensures var home := AccountOf(State(), userIdx, userId);
        r == if home.Ok? then Ok(accounts[home.value]) else Err(NotFound)
    {
      r := Find(userIdx, userId);
    }

    method GetPeerAccount(key: string) returns (r: Result<Record>)
      ensures var home := AccountOf(State(), peerIdx, key);
        r == if home.Ok? then Ok(accounts[home.value]) else Err(NotFound)
    {
      r := Find(peerIdx, key);
    }

    method GetPeer(key: string) returns (r: Result<Peer>)
      ensures var home := PeerHome(State(), key);
        r == if home.Ok? then Ok(State().accounts[home.value].peers[key]) else Err(NotFound)
    {
      var account := GetPeerAccount(key);
      if account.Err? || key !in account.value.peers {
        return Err(NotFound);
      }
      return Ok(account.value.peers[key]);
    }

    /** GetAccountPeers: every peer of the account once, in some order. */
    method GetAccountPeers(accountId: string) returns (r: Result<seq<Peer>>, ghost order: seq<string>)
      ensures if accountId !in accounts then r == Err(NotFound)
        else && IsListing(order, accounts[accountId].peers.Keys)
             && (forall k :: k in order ==> k in accounts[accountId].peers)
             && r == Ok(PeersInOrder(accounts[accountId].peers, order))
      ensures r.Ok? ==> forall p :: p in r.value <==> p in accounts[accountId].peers.Values
    {
      if accountId !in accounts {
        return Err(NotFound), [];
      }
      var peers := accounts[accountId].peers;
      var keys := ListKeys(peers);
      var list: seq<Peer> := [];
      for i := 0 to |keys|
        invariant list == PeersInOrder(peers, keys[..i])
      {
        assert keys[..i + 1] == keys[..i] + [keys[i]];
        list := list + [peers[keys[i]]];
      }
      assert keys[..|keys|] == keys;
      forall k | k in peers ensures peers[k] in list {
        var i :| 0 <= i < |keys| && keys[i] == k;
        assert list[i] == peers[k];
      }
      return Ok(list), keys;
    }

    /** GetPeerSrcRules and GetPeerDstRules: the rules of the peer's index entry that the account still has. */
    method GetPeerRules(accountId: string, key: string, src: bool) returns (r: Result<seq<string>>)
      ensures accountId !in accounts ==> r == Err(NotFound)
      ensures accountId in accounts ==> (r.Ok? <==> key in Idx(State(), src))
      ensures r.Ok? ==> IsListing(r.value, RulesFound(State(), accountId, src, key))
    {
      if accountId !in accounts {
        return Err(NotFound);
      }
      var idx := if src then srcRules else dstRules;
      if key !in idx {
        return Err(Plain);
      }
      var account, found := accounts[accountId], map[];
      var todo := idx[key];
      while todo != {}
        invariant todo <= idx[key]
        invariant found.Keys == set x | x in idx[key] && x !in todo && x in account.rules
      {
        var id :| id in todo;
        if id in account.rules {
          found := found[id := ()];
        }
        todo := todo - {id};
      }
      var list := ListKeys(found);
      assert found.Keys == RulesFound(State(), accountId, src, key);
      return Ok(list);
    }
  }

  /** `restore` of a file that exists: `records` are the accounts read from it. */
  method RestoreStore(records: map<string, Record>) returns (store: Store, ghost order: seq<string>)
    requires forall id :: id in records ==> records[id].id == id
    ensures fresh(store) && store.Valid() && store.accounts == records
    ensures IsListing(order, records.Keys) && store.State() == Restore(Views(records), order)
  {
    store := new Store(records);
    var ids := ListKeys(records);
    order := ids;
    ghost var views := Views(records);
    hide RestoreFrom, PointAll, IndexRules;
    assert store.State() == EMPTY.(accounts := views);
    for i := 0 to |ids|
      invariant store.Valid() && store.accounts == records && Views(records) == views
      invariant RestoreFrom(store.State(), ids[i..]) == Restore(views, ids)
    {
      RestoreNext(store.State(), ids[i..]);
      assert ids[i..][0] == ids[i] && ids[i..][1..] == ids[i + 1..];
      assert store.State().accounts[ids[i]] == records[ids[i]].View();
      hide *;
      store.RestoreAccount(records[ids[i]], ids[i]);
    }
    RestoreNothing(store.State());
    assert ids[|ids|..] == [];
  }

  lemma RestoreNext(s: StoreState, order: seq<string>)
    requires order != [] && forall id :: id in order ==> id in s.accounts
    ensures var id, a := order[0], s.accounts[order[0]];
      RestoreFrom(s, order) == RestoreFrom(IndexAccount(s, id, a, a.domain != "" && a.PrivatePrimary()), order[1..])
  {
    hide IndexAccount;
  }

  lemma RestoreNothing(s: StoreState)
    ensures RestoreFrom(s, []) == s
  {
  }

  function PeersInOrder(peers: map<string, Peer>, order: seq<string>): seq<Peer>
    requires forall k :: k in order ==> k in peers
  {
    seq(|order|, i requires 0 <= i < |order| => peers[order[i]])
  }

  lemma {:induction false} ListingOf(keys: set<string>) returns (order: seq<string>)
    ensures IsListing(order, keys)
  {
    if keys == {} {
      order := [];
    } else {
      var k :| k in keys;
      order := ListingOf(keys - {k});
      ListOneMore(order, keys - {k}, k);
      order := order + [k];
      assert keys - {k} + {k} == keys;
    }
  }

  lemma SavedParts(s: StoreState, a: Account, t: StoreState)
    requires t.accounts == s.accounts[a.id := a]
    requires t.setupKeyIdx == PointAll(s.setupKeyIdx, SetupKeyNames(a), a.id)
    requires t.peerIdx == PointAll(s.peerIdx, PeerNames(a), a.id)
    requires t.userIdx == PointAll(s.userIdx, UserNames(a), a.id)
    requires t.domainIdx == if a.PrivatePrimary() then s.domainIdx[a.domain := a.id] else s.domainIdx
    requires t.srcRules == IndexRules(s.srcRules, a, a.rules.Keys, true)
    requires t.dstRules == IndexRules(s.dstRules, a, a.rules.Keys, false)
    ensures t == Save(s, a)
  {
    hide PointAll, IndexRules, SetupKeyNames, PeerNames, UserNames;
  }
}
