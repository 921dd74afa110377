/** What the account manager reads from one account record and writes to it in place:
    management/server/{peer,account,user,group,rule}.go without the store around them. */
module AccountRecords {
  import opened IpArithmetic
  import opened IpAllocation
  import opened Model
  import opened StoreSpec
  import opened ManagerSpec
  import opened IndexAgreement
  import opened FileStore

  /** A setup key by its hash; keys can share one, and the first that the iteration meets is returned. */
  method SetupKeyById(setupKeys: map<string, SetupKey>, id: string) returns (found: bool, pick: string)
    ensures found <==> exists k :: k in setupKeys && setupKeys[k].id == id
    ensures found ==> pick in setupKeys && setupKeys[pick].id == id
  {
    var keys := ListKeys(setupKeys);
    for i := 0 to |keys|
      invariant forall j :: 0 <= j < i ==> setupKeys[keys[j]].id != id
    {
      if setupKeys[keys[i]].id == id {
        return true, keys[i];
      }
    }
    return false, "";
  }

  method SetupKeyByKey(setupKeys: map<string, SetupKey>, key: string) returns (found: bool, sk: SetupKey)
    requires forall k :: k in setupKeys ==> setupKeys[k].key == k
    ensures found <==> key in setupKeys
    ensures found ==> sk == setupKeys[key]
  {
    var keys := ListKeys(setupKeys);
    for i := 0 to |keys|
      invariant forall j :: 0 <= j < i ==> keys[j] != key
    {
      if setupKeys[keys[i]].key == key {
        return true, setupKeys[keys[i]];
      }
    }
    return false, SetupKey("", "", "", OneOff, 0, 0, true, 0, 0);
  }

  method TakenIps(peers: map<string, Peer>) returns (takenIps: seq<Addr>)
    ensures Elements(takenIps) == set k | k in peers :: peers[k].ip
  {
    takenIps := [];
    var keys := ListKeys(peers);
    for i := 0 to |keys|
      invariant |takenIps| == i && forall j :: 0 <= j < i ==> takenIps[j] == peers[keys[j]].ip
    {
      takenIps := takenIps + [peers[keys[i]].ip];
    }
    forall k | k in peers ensures peers[k].ip in takenIps {
      var i :| 0 <= i < |keys| && keys[i] == k;
      assert takenIps[i] == peers[k].ip;
    }
  }

  /** A free address and a group All that AddPeer may pick, where there are any. */
  ghost predicate Picked(a: Account, ip: Addr, gid: string)
    requires a.network.net.Valid()
  {
    && (a.AllGroups() != {} ==> gid in a.AllGroups())
    && (FreeIps(a.network.net, a.TakenIps()) != [] ==> ip in FreeIps(a.network.net, a.TakenIps()))
  }

  /** The address for a new peer: AllocatePeerIP with the addresses of the registered peers. */
  method NextIp(a: Account) returns (nextIp: Addr, outOfRange: bool)
    requires a.network.net.Valid()
    ensures outOfRange <==> FreeIps(a.network.net, a.TakenIps()) == []
    ensures !outOfRange ==> nextIp in FreeIps(a.network.net, a.TakenIps())
  {
    hide FreeIps;
    var takenIps := TakenIps(a.peers);
    assert Elements(takenIps) == a.TakenIps();
    var ip, full := AllocatePeerIP(a.network.net, takenIps);
    nextIp, outOfRange := if full then 0 else Value(ip), full;
  }

  ghost function AnyGroupAll(a: Account): (gid: string)
    ensures a.AllGroups() != {} ==> gid in a.AllGroups()
  {
    if a.AllGroups() != {} then var g :| g in a.AllGroups(); g else ""
  }

  /** The part of AddPeer after the account is found. */
  method RegisterIn(account: Record, upperKey: string, userId: string, req: PeerRequest, now: int)
    returns (r: Result<Peer>, ghost ip: Addr, ghost gid: string)
    requires var a := account.View();
      a.network.net.Valid() && (upperKey != "" ==> upperKey in a.setupKeys && a.setupKeys[upperKey].key == upperKey)
    modifies account
    ensures Picked(old(account.View()), ip, gid)
    ensures var a := old(account.View()); var o := ManagerSpec.Register(a, upperKey, userId, req, now, ip, gid);
      r == o.result && account.View() == After(a, o.change)
  {
    hide FreeIps, AppendToGroup, Record.View, Account.TakenIps, AnyGroupAll;
    ghost var a := account.View();
    gid := AnyGroupAll(a);
    var nextIp, outOfRange := NextIp(account.View());
    ip := nextIp;
    if outOfRange {
      return Err(OutOfRange), ip, gid;
    }
    var all := account.GetGroupAll();
    if all.Err? {
      return Err(all.error), ip, gid;
    }
    gid := all.value;
    var newPeer := Peer(req.key, upperKey, nextIp, req.meta, req.name, PeerStatus(false, now), userId);
    EnterPeer(account, all.value, newPeer, now);
    return Ok(newPeer), ip, gid;
  }

  /** What a successful AddPeer writes: the group All, the peers, the use of the key, the serial. */
  method EnterPeer(account: Record, allId: string, newPeer: Peer, now: int)
    requires allId in account.View().groups
    requires var a, k := account.View(), newPeer.setupKey; k != "" ==> k in a.setupKeys && a.setupKeys[k].key == k
    modifies account
    ensures var a, k := old(account.View()), newPeer.setupKey;
      account.View() == a.(groups := AppendToGroup(a, allId, newPeer.key), peers := a.peers[newPeer.key := newPeer],
                           setupKeys := if k == "" then a.setupKeys
                                        else a.setupKeys[k := a.setupKeys[k].IncrementUsage(now)],
                           network := a.network.IncSerial())
  {
    var group := account.groups[allId];
    account.groups := account.groups[allId := group.(peers := group.peers + [newPeer.key])];
    account.peers := account.peers[newPeer.key := newPeer];
    if |newPeer.setupKey| != 0 {
      var sk := account.setupKeys[newPeer.setupKey];
      account.setupKeys := account.setupKeys[sk.key := sk.IncrementUsage(now)];
    }
    account.network := account.network.IncSerial();
  }

  /** `addAllGroup`. */
  method AddAllGroupTo(account: Record, groupId: string, ruleId: string) returns (ghost order: seq<string>)
    requires account.View().WellFormed()
    modifies account
    ensures IsListing(order, old(account.peers).Keys)
    ensures account.View() == ManagerSpec.AddAllGroup(old(account.View()), groupId, ruleId, order)
  {
    var keys := ListKeys(account.peers);
    order := keys;
    if |account.groups| == 0 {
      WellFormedParts(account.View());
      hide Account.WellFormed;
      var peers: seq<string> := [];
      for i := 0 to |keys|
        invariant peers == keys[..i]
      {
        assert account.peers[keys[i]].key == keys[i];
        peers := peers + [account.peers[keys[i]].key];
      }
      assert keys[..|keys|] == keys;
      account.groups := map[groupId := Group(groupId, ALL_GROUP, peers)];
      account.rules := map[ruleId := Rule(ruleId, "Default", [groupId], [groupId], FLOW_BIDIRECT)];
    }
  }

  /** newAccountWithId, and the administrator it starts with. */
  method CreateRecord(f: Fresh, id: string, userId: string, domain: string, now: int, withAdmin: bool)
    returns (account: Record)
    requires f.network.net.Valid()
    ensures fresh(account)
    ensures var a := NewAccountWithId(f, id, userId, domain, now);
      account.View() == if withAdmin then a.(users := map[userId := User(userId, Admin)]) else a
    ensures account.View().WellFormed() && account.id == id && account.peers == map[]
  {
    NewAccountWellFormed(f, id, userId, domain, now);
    hide NewAccountWithId;
    var a := NewAccountWithId(f, id, userId, domain, now);
    account := new Record(a);
    if withAdmin {
      account.users := map[userId := User(userId, Admin)];
    }
  }

  method PutSetupKey(account: Record, k: SetupKey)
    modifies account
    ensures var a := old(account.View()); account.View() == a.(setupKeys := a.setupKeys[k.key := k])
  {
    account.setupKeys := account.setupKeys[k.key := k];
  }

  method PutLists(account: Record, groups: map<string, Group>, rules: map<string, Rule>)
    modifies account
    ensures account.View() == old(account.View()).(groups := groups, rules := rules)
  {
    account.groups, account.rules := groups, rules;
  }

  method PutUser(account: Record, u: User)
    modifies account
    ensures var a := old(account.View()); account.View() == a.(users := a.users[u.id := u])
  {
    account.users := account.users[u.id := u];
  }

  method PutDomain(account: Record, domain: string, category: string, primary: bool)
    modifies account
    ensures account.View() == old(account.View()).(domain := domain, domainCategory := category, isPrimary := primary)
  {
    account.isPrimary := primary;
    account.domain := domain;
    account.domainCategory := category;
  }

  method PutPeer(account: Record, p: Peer)
    modifies account
    ensures var a := old(account.View()); account.View() == a.(peers := a.peers[p.key := p])
  {
    account.peers := account.peers[p.key := p];
  }

  method IncSerial(account: Record)
    modifies account
    ensures var a := old(account.View()); account.View() == a.(network := a.network.IncSerial())
  {
    account.network := account.network.IncSerial();
  }

  // ----- facts about single edits -----

  lemma SavedOnce(s: StoreState, t: StoreState, a: Account)
    requires t == s || t == s.(accounts := s.accounts[a.id := a])
    ensures Save(t, a) == Save(s, a)
  {
    hide IndexAccount;
    assert t.accounts[a.id := a] == s.accounts[a.id := a];
  }

  lemma PeersOfView(account: Record)
    ensures account.View().peers == account.peers
  {
  }

  lemma AppliedSave(s: StoreState, a: Account)
    ensures Apply(s, Saved(a)) == Save(s, a)
  {
  }

  lemma SameKeys(records: map<string, Record>)
    ensures Views(records).Keys == records.Keys
  {
  }

  lemma ListedOnce(order: seq<string>, keys: set<string>)
    requires IsListing(order, keys)
    ensures forall i, j :: 0 <= i < j < |order| ==> order[i] != order[j]
    ensures Members(order) == keys
    ensures forall i :: 0 <= i < |order| ==> order[i] in keys
  {
  }

  /** The shift-left removal at the first occurrence. */
  lemma {:induction false} RemovedAt(s: seq<string>, key: string, i: nat)
    requires i < |s| && s[i] == key && key !in s[..i]
    ensures s[..i] + s[i + 1..] == RemoveFirst(s, key)
  {
    if i > 0 {
      assert s[0] == s[..i][0];
      assert s[1..][..i - 1] == s[1..i] && forall k :: k in s[1..i] ==> k in s[..i];
      RemovedAt(s[1..], key, i - 1);
      assert s[..i] + s[i + 1..] == [s[0]] + (s[1..][..i - 1] + s[1..][i..]);
    }
  }

  /** Writing the status first and then saving the peer is saving the peer, when the save succeeds. */
  lemma MarkTwice(s: StoreState, a: Account, p: Peer, gid: string)
    requires a.id in s.accounts && s.accounts[a.id] == a && p.key in a.peers
    requires a.AllGroups() != {} ==> gid in a.AllGroups()
    ensures var b := a.(peers := a.peers[p.key := p]);
      var t, o, first := Apply(s, InPlace(b)), ManagerSpec.SavePeer(a, p, gid), ManagerSpec.SavePeer(b, p, gid);
      && first.result == o.result && b.AllGroups() == a.AllGroups()
      && Apply(t, first.change) == if o.result.Ok? then Apply(s, o.change) else t
  {
    hide Save;
    var b := a.(peers := a.peers[p.key := p]);
    assert b.peers[p.key := p] == b.peers;
    assert s.accounts[a.id := b][a.id := b] == s.accounts[a.id := b];
    assert b.AllGroups() == a.AllGroups();
  }

  lemma WroteAccount(s: StoreState, b: Account)
    ensures b.id in Apply(s, InPlace(b)).accounts && Apply(s, InPlace(b)).accounts[b.id] == b
  {
  }

  lemma NothingApplied(s: StoreState)
    ensures Apply(s, NoChange) == s
  {
  }

  lemma ListingOfNone(order: seq<string>, keys: set<string>)
    requires IsListing(order, keys)
    ensures keys == {} ==> order == []
  {
    if order != [] { assert order[0] in keys; }
  }

  lemma ListedKeys(order: seq<string>, keys: set<string>)
    requires IsListing(order, keys)
    ensures forall k :: k in order ==> k in keys
  {
  }

  lemma DeletionIs(s: StoreState, id: string, key: string, order: seq<string>, a: Account)
    requires id in s.accounts && key in s.accounts[id].peers && forall g :: g in order ==> g in s.accounts[id].groups
    requires var was := s.accounts[id];
      a == was.(peers := was.peers - {key}, groups := CleanGroups(was.groups, order, [], key))
    ensures Apply(s, ManagerSpec.DeletePeer(s, id, key, order).change) ==
      Apply(s.(peerIdx := s.peerIdx - {key}), Saved(a.(network := a.network.IncSerial())))
  {
    hide CleanGroups, Save;
  }

  lemma UpdatedTwice(m: map<string, Account>, k: string, a: Account, b: Account)
    ensures m[k := a][k := b] == m[k := b]
  {
  }

  lemma NetworkOf(a: Account)
    requires a.WellFormed()
    ensures a.network.net.Valid()
  {
  }
}
