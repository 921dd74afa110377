/** The hand-maintained indexes agree with the accounts: a peer key, a user id or a setup key maps to
    account `a` exactly when account `a` holds it, whatever operations and restarts are run. */
module IndexAgreement {
  import opened IpAllocation
  import opened Model
  import opened StoreSpec
  import opened ManagerSpec
  import opened Operations
  import opened OperationShapes

  // ----- an index against what the accounts hold -----

  ghost predicate Exact(idx: map<string, string>, held: map<string, set<string>>) {
    && (forall k :: k in idx ==> idx[k] in held && k in held[idx[k]])
    && (forall id, k :: id in held && k in held[id] ==> k in idx && idx[k] == id)
  }

  function PeersHeld(s: StoreState): map<string, set<string>> {
    map id | id in s.accounts :: s.accounts[id].peers.Keys
  }

  function UsersHeld(s: StoreState): map<string, set<string>> {
    map id | id in s.accounts :: s.accounts[id].users.Keys
  }

  function KeysHeld(s: StoreState): map<string, set<string>> {
    map id | id in s.accounts :: s.accounts[id].setupKeys.Keys
  }

  ghost predicate Agree(s: StoreState) {
    && s.WellFormed()
    && Exact(s.peerIdx, PeersHeld(s))
    && Exact(s.userIdx, UsersHeld(s))
    && Exact(s.setupKeyIdx, KeysHeld(s))
  }

  lemma HeldPeer(s: StoreState, id: string, k: string)
    requires Agree(s) && id in s.accounts && k in s.accounts[id].peers
    ensures k in s.peerIdx && s.peerIdx[k] == id
  {
    hide Account.WellFormed;
    assert k in PeersHeld(s)[id];
  }

  lemma HeldUser(s: StoreState, id: string, k: string)
    requires Agree(s) && id in s.accounts && k in s.accounts[id].users
    ensures k in s.userIdx && s.userIdx[k] == id
  {
    hide Account.WellFormed;
    assert k in UsersHeld(s)[id];
  }

  lemma HeldKey(s: StoreState, id: string, k: string)
    requires Agree(s) && id in s.accounts && k in s.accounts[id].setupKeys
    ensures k in s.setupKeyIdx && s.setupKeyIdx[k] == id
  {
    hide Account.WellFormed;
    assert k in KeysHeld(s)[id];
  }

  /** Agreement leaves no room for one key in two accounts. */
  lemma NothingIsInTwoAccounts(s: StoreState, a: string, b: string)
    requires Agree(s) && a in s.accounts && b in s.accounts && a != b
    ensures s.accounts[a].peers.Keys !! s.accounts[b].peers.Keys
    ensures s.accounts[a].users.Keys !! s.accounts[b].users.Keys
    ensures s.accounts[a].setupKeys.Keys !! s.accounts[b].setupKeys.Keys
  {
    hide Account.WellFormed, Exact;
    var x, y := s.accounts[a], s.accounts[b];
    forall k | k in x.peers ensures k !in y.peers {
      HeldPeer(s, a, k);
      if k in y.peers { HeldPeer(s, b, k); assert false; }
    }
    forall k | k in x.users ensures k !in y.users {
      HeldUser(s, a, k);
      if k in y.users { HeldUser(s, b, k); assert false; }
    }
    forall k | k in x.setupKeys ensures k !in y.setupKeys {
      HeldKey(s, a, k);
      if k in y.setupKeys { HeldKey(s, b, k); assert false; }
    }
  }

  /** An account may be entered with the keys `keys`: it drops none, and takes none from another. */
  predicate MayHold(idx: map<string, string>, held: map<string, set<string>>, id: string, keys: set<string>) {
    && (id in held ==> held[id] <= keys)
    && (forall k :: k in keys && k in idx ==> idx[k] == id)
  }

  /** Entering an account keeps an exact index exact if and only if that holds. */
  lemma ExactAfterPointing(idx: map<string, string>, held: map<string, set<string>>, id: string, keys: set<string>)
    requires Exact(idx, held)
    ensures Exact(PointAll(idx, keys, id), held[id := keys]) <==> MayHold(idx, held, id, keys)
  {
    var idx', held' := PointAll(idx, keys, id), held[id := keys];
    if stolen :| stolen in keys && stolen in idx && idx[stolen] != id {
      assert stolen in held'[idx[stolen]] && idx'[stolen] == id;
    } else if id in held && !(held[id] <= keys) {
      var k :| k in held[id] && k !in keys;
      assert k in idx' && idx'[k] == id;
    }
  }

  /** Only one holding makes an index exact. */
  lemma ExactHeldUnique(idx: map<string, string>, held: map<string, set<string>>, id: string, keys: set<string>)
    requires Exact(idx, held) && id in held
    ensures Exact(idx, held[id := keys]) <==> keys == held[id]
  {
    var held' := held[id := keys];
    if keys == held[id] {
      assert held' == held;
    } else if Exact(idx, held') {
      forall k ensures k in held[id] <==> k in keys {
        if k in held[id] { assert idx[k] == id && k in held'[idx[k]]; }
        if k in keys { assert k in held'[id]; assert idx[k] == id; }
      }
      assert false;
    }
  }

  lemma MayHoldSame(idx: map<string, string>, held: map<string, set<string>>, id: string)
    requires Exact(idx, held) && id in held
    ensures MayHold(idx, held, id, held[id])
  {
  }

  lemma MayHoldOneMore(idx: map<string, string>, held: map<string, set<string>>, id: string, key: string)
    requires Exact(idx, held) && id in held
    ensures MayHold(idx, held, id, held[id] + {key}) <==> (key in idx ==> idx[key] == id)
  {
  }

  lemma ExactAfterRemoving(idx: map<string, string>, held: map<string, set<string>>, id: string, key: string)
    requires Exact(idx, held) && id in held && key in held[id]
    ensures Exact(idx - {key}, held[id := held[id] - {key}])
  {
    assert idx[key] == id;
  }

  // ----- what one change does to the three indexes -----

  ghost predicate Peers(s: StoreState, id: string, keys: set<string>) { MayHold(s.peerIdx, PeersHeld(s), id, keys) }
  ghost predicate Users(s: StoreState, id: string, keys: set<string>) { MayHold(s.userIdx, UsersHeld(s), id, keys) }
  ghost predicate Keys(s: StoreState, id: string, keys: set<string>) { MayHold(s.setupKeyIdx, KeysHeld(s), id, keys) }

  lemma SaveHeld(s: StoreState, t: StoreState, a: Account)
    requires t.accounts == s.accounts[a.id := a]
    ensures PeersHeld(t) == PeersHeld(s)[a.id := a.peers.Keys]
    ensures UsersHeld(t) == UsersHeld(s)[a.id := a.users.Keys]
    ensures KeysHeld(t) == KeysHeld(s)[a.id := a.setupKeys.Keys]
  {
    hide PeersHeld, UsersHeld, KeysHeld;
    SavePeersHeld(s, t, a);
    SaveUsersHeld(s, t, a);
    SaveKeysHeld(s, t, a);
  }

  lemma SavePeersHeld(s: StoreState, t: StoreState, a: Account)
    requires t.accounts == s.accounts[a.id := a]
    ensures PeersHeld(t) == PeersHeld(s)[a.id := a.peers.Keys]
  {
  }

  lemma SaveUsersHeld(s: StoreState, t: StoreState, a: Account)
    requires t.accounts == s.accounts[a.id := a]
    ensures UsersHeld(t) == UsersHeld(s)[a.id := a.users.Keys]
  {
  }

  lemma SaveKeysHeld(s: StoreState, t: StoreState, a: Account)
    requires t.accounts == s.accounts[a.id := a]
    ensures KeysHeld(t) == KeysHeld(s)[a.id := a.setupKeys.Keys]
  {
  }

  lemma PutWellFormed(s: StoreState, t: StoreState, a: Account)
    requires t.accounts == s.accounts[a.id := a] && s.WellFormed() && a.WellFormed()
    ensures t.WellFormed()
  {
    hide Account.WellFormed;
  }

  lemma HeldAt(s: StoreState, id: string)
    ensures id in PeersHeld(s) <==> id in s.accounts
    ensures id in UsersHeld(s) <==> id in s.accounts
    ensures id in KeysHeld(s) <==> id in s.accounts
    ensures id in s.accounts ==> PeersHeld(s)[id] == s.accounts[id].peers.Keys
    ensures id in s.accounts ==> UsersHeld(s)[id] == s.accounts[id].users.Keys
    ensures id in s.accounts ==> KeysHeld(s)[id] == s.accounts[id].setupKeys.Keys
  {
    hide Account.WellFormed;
  }

  lemma SameEntry<V>(m: map<string, V>, k: string)
    requires k in m
    ensures m[k := m[k]] == m
  {
  }

  lemma SaveAgrees(s: StoreState, a: Account)
    requires Agree(s) && a.WellFormed()
    ensures Agree(Save(s, a)) <==>
      Peers(s, a.id, a.peers.Keys) && Users(s, a.id, a.users.Keys) && Keys(s, a.id, a.setupKeys.Keys)
  {
    hide Account.WellFormed, Save, IndexRules, PointAll, Exact, MayHold, PeersHeld, UsersHeld, KeysHeld;
    hide StoreState.WellFormed;
    var t := Save(s, a);
    SaveFields(s, a);
    SaveHeld(s, t, a);
    PutWellFormed(s, t, a);
    ExactAfterPointing(s.peerIdx, PeersHeld(s), a.id, a.peers.Keys);
    ExactAfterPointing(s.userIdx, UsersHeld(s), a.id, a.users.Keys);
    ExactAfterPointing(s.setupKeyIdx, KeysHeld(s), a.id, a.setupKeys.Keys);
  }

  /** Deleting a peer leaves the index exact for the accounts without it; saving enters the rest again. */
  lemma RemovalAgrees(s: StoreState, a: Account, key: string)
    requires Agree(s) && a.WellFormed() && a.id in s.accounts
    requires key in s.accounts[a.id].peers && a.peers == s.accounts[a.id].peers - {key}
    requires a.users == s.accounts[a.id].users && a.setupKeys == s.accounts[a.id].setupKeys
    ensures Agree(Save(s.(peerIdx := s.peerIdx - {key}), a))
  {
    hide Account.WellFormed, Agree, Peers, Users, Keys, IndexAccount;
    var mid := s.(peerIdx := s.peerIdx - {key}, accounts := s.accounts[a.id := a]);
    RemovalMid(s, mid, a, key);
    SaveAgrees(mid, a);
    assert mid.accounts[a.id := a] == s.accounts[a.id := a];
  }

  lemma RemovalMid(s: StoreState, mid: StoreState, a: Account, key: string)
    requires Agree(s) && a.WellFormed() && a.id in s.accounts
    requires key in s.accounts[a.id].peers && a.peers == s.accounts[a.id].peers - {key}
    requires a.users == s.accounts[a.id].users && a.setupKeys == s.accounts[a.id].setupKeys
    requires mid == s.(peerIdx := s.peerIdx - {key}, accounts := s.accounts[a.id := a])
    ensures Agree(mid)
    ensures Peers(mid, a.id, a.peers.Keys) && Users(mid, a.id, a.users.Keys) && Keys(mid, a.id, a.setupKeys.Keys)
  {
    hide Account.WellFormed, Exact, MayHold, PeersHeld, UsersHeld, KeysHeld, StoreState.WellFormed;
    HeldAt(s, a.id);
    SaveHeld(s, mid, a);
    HeldAt(mid, a.id);
    PutWellFormed(s, mid, a);
    assert a.peers.Keys == PeersHeld(s)[a.id] - {key};
    SameEntry(UsersHeld(s), a.id);
    SameEntry(KeysHeld(s), a.id);
    ExactAfterRemoving(s.peerIdx, PeersHeld(s), a.id, key);
    MayHoldSame(mid.peerIdx, PeersHeld(mid), a.id);
    MayHoldSame(mid.userIdx, UsersHeld(mid), a.id);
    MayHoldSame(mid.setupKeyIdx, KeysHeld(mid), a.id);
  }

  lemma InPlaceAgrees(s: StoreState, a: Account)
    requires Agree(s) && a.WellFormed() && a.id in s.accounts
    requires a.users == s.accounts[a.id].users && a.setupKeys == s.accounts[a.id].setupKeys
    ensures Agree(Apply(s, InPlace(a))) <==> a.peers.Keys == s.accounts[a.id].peers.Keys
  {
    hide Account.WellFormed, Exact, Save, PeersHeld, UsersHeld, KeysHeld, StoreState.WellFormed;
    var t := Apply(s, InPlace(a));
    HeldAt(s, a.id);
    SaveHeld(s, t, a);
    PutWellFormed(s, t, a);
    SameEntry(UsersHeld(s), a.id);
    SameEntry(KeysHeld(s), a.id);
    ExactHeldUnique(s.peerIdx, PeersHeld(s), a.id, a.peers.Keys);
  }

  // ----- the operations produce well-formed accounts -----

  lemma {:induction false} CleanGroupsShape(groups: map<string, Group>, order: seq<string>, kept: seq<string>,
                                            key: string)
    requires forall g :: g in order ==> g in groups
    ensures var r := CleanGroups(groups, order, kept, key);
      r.Keys == groups.Keys && forall g :: g in groups ==> r[g].id == groups[g].id && r[g].name == groups[g].name
    decreases order
  {
    if order != [] {
      var g := order[0];
      var now := kept + Without(groups[g].peers, key);
      CleanGroupsShape(groups[g := groups[g].(peers := now)], order[1..], now, key);
    }
  }

  ghost predicate ChangeWellFormed(s: StoreState, c: Change) {
    match c
    case NoChange => true
    case Saved(a) => a.WellFormed()
    case SavedWithoutPeer(a, key) =>
      && a.WellFormed() && a.id in s.accounts
      && key in s.accounts[a.id].peers && a.peers == s.accounts[a.id].peers - {key}
      && a.users == s.accounts[a.id].users && a.setupKeys == s.accounts[a.id].setupKeys
    case InPlace(a) =>
      && a.WellFormed() && a.id in s.accounts
      && a.users == s.accounts[a.id].users && a.setupKeys == s.accounts[a.id].setupKeys
  }

  // Well-formedness of the edits the operations are made of.

  lemma GroupEdit(a: Account, groups: map<string, Group>)
    requires a.WellFormed() && a.groups.Keys <= groups.Keys && forall g :: g in groups ==> groups[g].id == g
    ensures a.(groups := groups).WellFormed()
  {
  }

  lemma PeerEdit(a: Account, peers: map<string, Peer>)
    requires a.WellFormed() && forall k :: k in peers ==> peers[k].key == k
    ensures a.(peers := peers).WellFormed()
  {
  }

  lemma KeyEdit(a: Account, keys: map<string, SetupKey>)
    requires a.WellFormed() && forall k :: k in keys ==> keys[k].key == k && Upper(k) == k
    ensures a.(setupKeys := keys).WellFormed()
  {
  }

  lemma OtherEdit(a: Account, b: Account)
    requires a.WellFormed() && b.network.net == a.network.net && b.groups == a.groups && b.rules == a.rules
    requires b.peers == a.peers && b.setupKeys == a.setupKeys
    requires forall u :: u in b.users ==> b.users[u].id == u
    ensures b.WellFormed()
  {
  }

  lemma UserIdsOf(a: Account)
    requires a.WellFormed()
    ensures forall u :: u in a.users ==> a.users[u].id == u
  {
  }

  lemma DomainEdit(s: StoreState, a: Account, domain: string, category: string, primary: bool)
    requires a.WellFormed()
    ensures ChangeWellFormed(s, Saved(a.(domain := domain, domainCategory := category, isPrimary := primary)))
  {
    hide Account.WellFormed;
    UserIdsOf(a);
    OtherEdit(a, a.(domain := domain, domainCategory := category, isPrimary := primary));
  }

  lemma UserEdit(s: StoreState, a: Account, user: User)
    requires a.WellFormed()
    ensures ChangeWellFormed(s, Saved(a.(users := a.users[user.id := user])))
  {
    hide Account.WellFormed;
    UserIdsOf(a);
    OtherEdit(a, a.(users := a.users[user.id := user]));
  }

  lemma NamesGroups(a: Account)
    requires a.WellFormed()
    ensures a.RulesNameGroups()
  {
  }

  lemma NotWellFormed(a: Account)
    ensures !a.RulesNameGroups() ==> !a.WellFormed()
  {
  }

  lemma WellFormedParts(a: Account)
    requires a.WellFormed()
    ensures forall k :: k in a.setupKeys ==> a.setupKeys[k].key == k && Upper(k) == k
    ensures forall k :: k in a.peers ==> a.peers[k].key == k
    ensures forall g :: g in a.groups ==> a.groups[g].id == g
    ensures forall u :: u in a.users ==> a.users[u].id == u
  {
  }

  lemma RegisterWellFormed(a: Account, key: string, userId: string, req: PeerRequest, now: int, ip: Addr, gid: string)
    requires a.WellFormed() && a.network.net.Valid() && (key != "" ==> key in a.setupKeys)
    requires a.AllGroups() != {} ==> gid in a.AllGroups()
    ensures var o := Register(a, key, userId, req, now, ip, gid);
      if o.result.Ok? then o.change.Saved? && o.change.a.WellFormed() && o.change.a.id == a.id else o.change.NoChange?
  {
    hide Account.WellFormed, FreeIps;
    var c := Register(a, key, userId, req, now, ip, gid).change;
    if c.Saved? {
      var a' := c.a;
      WellFormedParts(a);
      GroupEdit(a, a'.groups);
      PeerEdit(a.(groups := a'.groups), a'.peers);
      KeyEdit(a.(groups := a'.groups, peers := a'.peers), a'.setupKeys);
      OtherEdit(a.(groups := a'.groups, peers := a'.peers, setupKeys := a'.setupKeys), a');
    }
  }

  lemma AddPeerWellFormed(s: StoreState, setupKey: string, userId: string, req: PeerRequest, now: int, ip: Addr,
                          gid: string)
    requires s.WellFormed() && AddPicks(s, setupKey, userId, now, ip, gid)
    ensures ChangeWellFormed(s, AddPeer(s, setupKey, userId, req, now, ip, gid).change)
  {
    hide Account.WellFormed, Register, FreeIps, Upper;
    LocatedKey(s, setupKey, userId, now);
    var home := LocateForAdd(s, setupKey, userId, now);
    if home.Ok? { RegisterWellFormed(s.accounts[home.value], Upper(setupKey), userId, req, now, ip, gid); }
  }

  lemma DeletePeerWellFormed(s: StoreState, id: string, key: string, order: seq<string>)
    requires s.WellFormed() && (id in s.accounts ==> IsListing(order, s.accounts[id].groups.Keys))
    ensures ChangeWellFormed(s, DeletePeer(s, id, key, order).change)
  {
    hide Account.WellFormed;
    var c := DeletePeer(s, id, key, order).change;
    if c.SavedWithoutPeer? {
      var a, a' := s.accounts[id], c.a;
      WellFormedParts(a);
      CleanGroupsShape(a.groups, order, [], key);
      GroupEdit(a, a'.groups);
      PeerEdit(a.(groups := a'.groups), a'.peers);
      OtherEdit(a.(groups := a'.groups, peers := a'.peers), a');
    }
  }

  lemma SavePeerWellFormed(s: StoreState, a: Account, p: Peer, gid: string)
    requires a.id in s.accounts && s.accounts[a.id] == a && a.WellFormed()
    requires a.AllGroups() != {} ==> gid in a.AllGroups()
    ensures ChangeWellFormed(s, SavePeer(a, p, gid).change)
  {
    hide Account.WellFormed;
    var c := SavePeer(a, p, gid).change;
    if c.InPlace? {
      WellFormedParts(a);
      GroupEdit(a, c.a.groups);
      PeerEdit(a.(groups := c.a.groups), c.a.peers);
    }
  }

  lemma MarkPeerWellFormed(s: StoreState, key: string, connected: bool, now: int, gid: string)
    requires s.WellFormed() && HomePicks(s, key, gid)
    ensures ChangeWellFormed(s, MarkPeerConnected(s, key, connected, now, gid).change)
  {
    hide Account.WellFormed;
    if PeerHome(s, key).Ok? {
      var a := s.accounts[PeerHome(s, key).value];
      var p := a.peers[key].(status := PeerStatus(connected, now));
      WellFormedParts(a);
      SavePeerWellFormed(s, a, p, gid);
      PeerEdit(a, a.peers[key := p]);
    }
  }

  lemma SetupKeyChangesWellFormed(s: StoreState, id: string, k: SetupKey)
    requires s.WellFormed() && id in s.accounts && Upper(k.key) == k.key
    ensures ChangeWellFormed(s, ReplaceKey(s.accounts[id], k).change)
  {
    hide Account.WellFormed;
    WellFormedParts(s.accounts[id]);
    KeyEdit(s.accounts[id], s.accounts[id].setupKeys[k.key := k]);
  }

  lemma AddAllGroupWellFormed(a: Account, groupId: string, ruleId: string, order: seq<string>)
    requires a.WellFormed()
    ensures AddAllGroup(a, groupId, ruleId, order).WellFormed()
  {
  }

  lemma NewAccountWellFormed(f: Fresh, id: string, userId: string, domain: string, now: int)
    requires f.network.net.Valid()
    ensures NewAccountWithId(f, id, userId, domain, now).WellFormed()
  {
    UpperIdempotent(f.defaultKey);
    UpperIdempotent(f.oneOffKey);
  }

  lemma GetOrCreateWellFormed(s: StoreState, userId: string, domain: string, f: Fresh, now: int)
    requires s.WellFormed() && IsFresh(s, f)
    ensures ChangeWellFormed(s, GetOrCreateAccountByUser(s, userId, domain, f, now).change)
  {
    hide Account.WellFormed;
    var home := AccountOf(s, s.userIdx, userId);
    if home.Ok? {
      UserIdsOf(s.accounts[home.value]);
      OtherEdit(s.accounts[home.value], s.accounts[home.value].(domain := Lower(domain)));
    } else {
      var a := NewAccountWithId(f, f.accountId, userId, Lower(domain), now);
      NewAccountWellFormed(f, f.accountId, userId, Lower(domain), now);
      OtherEdit(a, a.(users := map[userId := User(userId, Admin)]));
      AddAllGroupWellFormed(a.(users := map[userId := User(userId, Admin)]), f.groupId, f.ruleId, []);
    }
  }

  lemma PrivateClaimsWellFormed(s: StoreState, claims: Claims, f: Fresh, now: int)
    requires s.WellFormed() && IsFresh(s, f)
    ensures ChangeWellFormed(s, PrivateClaims(s, claims, f, now).change)
  {
    hide Account.WellFormed;
    var c := PrivateClaims(s, claims, f, now).change;
    if c.a.id in s.accounts {
      UserIdsOf(s.accounts[c.a.id]);
      OtherEdit(s.accounts[c.a.id], c.a);
    } else {
      var a := NewAccountWithId(f, f.accountId, claims.userId, Lower(claims.domain), now);
      NewAccountWellFormed(f, f.accountId, claims.userId, Lower(claims.domain), now);
      OtherEdit(a, c.a);
    }
  }

  lemma GroupAndRuleChangesWellFormed(s: StoreState, op: Op)
    requires s.WellFormed() && Enabled(s, op) && IsGroupOrRuleOp(op)
    ensures ChangeWellFormed(s, ChangeOf(s, op))
  {
    hide ChangeOf, ChangeWellFormed, Enabled, StoreState.WellFormed;
    if op.SaveGroupOp? || op.GroupAddPeerOp? || op.GroupDeletePeerOp? {
      MemberChangesWellFormed(s, op);
    } else {
      NamingChangesWellFormed(s, op);
    }
  }

  lemma NamingChangesWellFormed(s: StoreState, op: Op)
    requires s.WellFormed() && Enabled(s, op) && (op.DeleteGroupOp? || op.SaveRuleOp? || op.DeleteRuleOp?)
    ensures ChangeWellFormed(s, ChangeOf(s, op))
  {
    hide Account.WellFormed, Account.RulesNameGroups;
    if op.accountId in s.accounts {
      var a := s.accounts[op.accountId];
      match op
      case DeleteGroupOp(id, gid) => DeleteGroupWellFormed(a, gid);
      case SaveRuleOp(id, r) => SaveRuleWellFormed(a, r);
      case DeleteRuleOp(id, rid) => DeleteRuleWellFormed(a, rid);
    }
  }

  lemma MemberChangesWellFormed(s: StoreState, op: Op)
    requires s.WellFormed() && Enabled(s, op) && (op.SaveGroupOp? || op.GroupAddPeerOp? || op.GroupDeletePeerOp?)
    ensures ChangeWellFormed(s, ChangeOf(s, op))
  {
    hide Account.WellFormed, Account.RulesNameGroups, RemoveFirst;
    var c := ChangeOf(s, op);
    if c.Saved? {
      var a := s.accounts[op.accountId];
      WellFormedParts(a);
      GroupEdit(a, c.a.groups);
    }
  }

  lemma DeleteGroupWellFormed(a: Account, gid: string)
    requires a.WellFormed() && a.(groups := a.groups - {gid}).RulesNameGroups()
    ensures a.(groups := a.groups - {gid}).WellFormed()
  {
  }

  lemma SaveRuleWellFormed(a: Account, r: Rule)
    requires a.WellFormed() && a.(rules := a.rules[r.id := r]).RulesNameGroups()
    ensures a.(rules := a.rules[r.id := r]).WellFormed()
  {
  }

  lemma DeleteRuleWellFormed(a: Account, rid: string)
    requires a.WellFormed()
    ensures a.(rules := a.rules - {rid}).WellFormed()
  {
  }

  lemma PeerChangesWellFormed(s: StoreState, op: Op)
    requires s.WellFormed() && Enabled(s, op) && IsPeerOp(op)
    ensures ChangeWellFormed(s, ChangeOf(s, op))
  {
    hide Account.WellFormed, FreeIps, CleanGroups, AddPeer, DeletePeer, MarkPeerConnected;
    match op
    case AddPeerOp(sk, u, req, now, ip, gid) => AddPeerWellFormed(s, sk, u, req, now, ip, gid);
    case DeletePeerOp(id, key, order) => DeletePeerWellFormed(s, id, key, order);
    case RenamePeerOp(id, key, name, gid) =>
      if PeerHome(s, key).Ok? && id in s.accounts {
        SavePeerWellFormed(s, s.accounts[id], s.accounts[PeerHome(s, key).value].peers[key].(name := name), gid);
      }
    case MarkPeerOp(key, c, now, gid) => MarkPeerWellFormed(s, key, c, now, gid);
    case UpdateMetaOp(key, meta, gid) =>
      if PeerHome(s, key).Ok? {
        var p := s.accounts[PeerHome(s, key).value].peers[key];
        SavePeerWellFormed(s, s.accounts[PeerHome(s, key).value],
          p.(meta := if meta.uiVersion == "" then meta.(uiVersion := p.meta.uiVersion) else meta), gid);
      }
  }

  lemma KeyChangesWellFormed(s: StoreState, op: Op)
    requires s.WellFormed() && Enabled(s, op) && IsKeyOp(op)
    ensures ChangeWellFormed(s, ChangeOf(s, op))
  {
    hide Account.WellFormed, Upper;
    match op
    case AddSetupKeyOp(id, name, typ, validFor, kid, newKey, now) =>
      UpperIdempotent(newKey);
      if id in s.accounts { SetupKeyChangesWellFormed(s, id, GenerateSetupKey(kid, newKey, name, typ, validFor, now)); }
    case RevokeKeyOp(id, kid, pick) =>
      if id in s.accounts && pick in s.accounts[id].setupKeys {
        WellFormedParts(s.accounts[id]);
        SetupKeyChangesWellFormed(s, id, s.accounts[id].setupKeys[pick].(revoked := true));
      }
    case RenameKeyOp(id, kid, name, pick) =>
      if id in s.accounts && pick in s.accounts[id].setupKeys {
        WellFormedParts(s.accounts[id]);
        SetupKeyChangesWellFormed(s, id, s.accounts[id].setupKeys[pick].(name := name));
      }
  }

  lemma AccountChangesWellFormed(s: StoreState, op: Op)
    requires s.WellFormed() && Enabled(s, op) && IsAccountOp(op)
    ensures ChangeWellFormed(s, ChangeOf(s, op))
  {
    hide Account.WellFormed, Upper, Lower, GetOrCreateAccountByUser, PrivateClaims;
    match op
    case GetOrCreateOp(u, d, f, now) => GetOrCreateWellFormed(s, u, d, f, now);
    case ClaimsOp(claims, f, now) =>
      GetOrCreateWellFormed(s, claims.userId, claims.domain, f, now);
      PrivateClaimsWellFormed(s, claims, f, now);
    case AddAccountOp(id, u, d, f, now) =>
      NewAccountWellFormed(f, id, u, d, now);
      AddAllGroupWellFormed(NewAccountWithId(f, id, u, d, now), f.groupId, f.ruleId, []);
  }

  lemma ChangesWellFormed(s: StoreState, op: Op)
    requires s.WellFormed() && Enabled(s, op) && !op.RestartOp?
    ensures ChangeWellFormed(s, ChangeOf(s, op))
  {
    hide Account.WellFormed, ChangeWellFormed;
    if IsPeerOp(op) {
      PeerChangesWellFormed(s, op);
    } else if IsKeyOp(op) {
      KeyChangesWellFormed(s, op);
    } else if IsAccountOp(op) {
      AccountChangesWellFormed(s, op);
    } else {
      GroupAndRuleChangesWellFormed(s, op);
    }
  }

  /** The store stays keyed by what it holds, and no rule names a missing group, whatever is done. */
  lemma StepWellFormed(s: StoreState, op: Op)
    requires s.WellFormed() && Enabled(s, op)
    ensures Step(s, op).WellFormed()
  {
    hide Account.WellFormed;
    if op.RestartOp? {
      BuildManagerWellFormed(Restore(s.accounts, op.order), op.saves, op.picks);
    } else {
      ChangesWellFormed(s, op);
      ApplyWellFormed(s, ChangeOf(s, op));
    }
  }

  lemma ApplyWellFormed(s: StoreState, c: Change)
    requires s.WellFormed() && ChangeWellFormed(s, c)
    ensures Apply(s, c).WellFormed()
  {
    hide Account.WellFormed;
  }

  lemma BuildOneWellFormed(s: StoreState, id: string, p: AllPick)
    requires s.WellFormed() && id in s.accounts
    ensures BuildOne(s, id, p).WellFormed()
  {
    hide Account.WellFormed;
    AddAllGroupWellFormed(s.accounts[id], p.groupId, p.ruleId, p.peers);
  }

  lemma {:induction false} BuildManagerWellFormed(s: StoreState, saves: seq<string>, picks: map<string, AllPick>)
    requires s.WellFormed() && forall id :: id in saves ==> id in s.accounts && id in picks
    ensures BuildManager(s, saves, picks).WellFormed()
    decreases saves
  {
    hide Account.WellFormed, BuildOne;
    if saves != [] {
      BuildOneWellFormed(s, saves[0], picks[saves[0]]);
      BuildManagerWellFormed(BuildOne(s, saves[0], picks[saves[0]]), saves[1..], picks);
    }
  }

  // ----- the operations keep agreement -----

  /** AddPeer keeps agreement exactly when the key is not registered in another account. */
  lemma AddPeerAgreesExactly(s: StoreState, op: Op, id: string)
    requires Agree(s) && AddsTo(s, op, id)
    ensures Agree(Step(s, op)) <==> (op.req.key in s.peerIdx ==> s.peerIdx[op.req.key] == id)
  {
    hide Account.WellFormed, Exact, MayHold, FreeIps, Save;
    ChangesWellFormed(s, op);
    var a', a := ChangeOf(s, op).a, s.accounts[id];
    assert a'.id == id && a'.users == a.users;
    SaveAgrees(s, a');
    LocatedKey(s, op.setupKey, op.userId, op.now);
    assert a'.setupKeys.Keys == a.setupKeys.Keys;
    assert a'.peers.Keys == PeersHeld(s)[id] + {op.req.key};
    MayHoldOneMore(s.peerIdx, PeersHeld(s), id, op.req.key);
    assert a.users.Keys == UsersHeld(s)[id];
    MayHoldSame(s.userIdx, UsersHeld(s), id);
    assert a.setupKeys.Keys == KeysHeld(s)[id];
    MayHoldSame(s.setupKeyIdx, KeysHeld(s), id);
  }

  /** RenamePeer keeps agreement exactly when it is given the account the peer is in. */
  lemma RenamePeerAgreesExactly(s: StoreState, op: Op)
    requires Agree(s) && op.RenamePeerOp? && Enabled(s, op)
    requires RenamePeer(s, op.accountId, op.key, op.name, op.gid).result.Ok?
    ensures Agree(Step(s, op)) <==> s.peerIdx[op.key] == op.accountId
  {
    hide Account.WellFormed, Exact;
    ChangesWellFormed(s, op);
    HeldIsIndexed(s);
    var a' := ChangeOf(s, op).a;
    WellFormedParts(s.accounts[PeerHome(s, op.key).value]);
    InPlaceAgrees(s, a');
    assert a'.peers.Keys == s.accounts[op.accountId].peers.Keys + {op.key};
  }

  lemma NewAccountHolds(f: Fresh, id: string, userId: string, domain: string, now: int)
    ensures var a := NewAccountWithId(f, id, userId, domain, now);
      a.id == id && a.peers.Keys == {} && a.users.Keys == {}
        && a.setupKeys.Keys == {Upper(f.defaultKey), Upper(f.oneOffKey)}
  {
  }

  /** AddAccount keeps agreement exactly when the id is unused or names an account holding nothing. */
  lemma AddAccountAgreesExactly(s: StoreState, op: Op)
    requires Agree(s) && op.AddAccountOp? && Enabled(s, op)
    ensures Agree(Step(s, op)) <==>
      (op.accountId in s.accounts ==>
        var a := s.accounts[op.accountId]; a.peers == map[] && a.users == map[] && a.setupKeys == map[])
  {
    hide Account.WellFormed, StoreState.WellFormed, Exact, Save, NewAccountWithId, Upper, PeersHeld, UsersHeld;
    hide KeysHeld;
    ChangesWellFormed(s, op);
    var a' := ChangeOf(s, op).a;
    NewAccountHolds(op.f, op.accountId, op.userId, op.domain, op.now);
    SaveAgrees(s, a');
    HeldAt(s, op.accountId);
    if op.accountId in s.accounts {
      var a := s.accounts[op.accountId];
      OwnKeysIndexed(s, op.accountId);
      EmptyMap(a.peers);
      EmptyMap(a.users);
      EmptyMap(a.setupKeys);
    }
  }

  lemma OwnKeysIndexed(s: StoreState, id: string)
    requires Agree(s) && id in s.accounts
    ensures forall k :: k in s.accounts[id].setupKeys ==> k in s.setupKeyIdx
  {
    forall k | k in s.accounts[id].setupKeys ensures k in s.setupKeyIdx { HeldKey(s, id, k); }
  }

  lemma EmptyMap<K, V>(m: map<K, V>)
    ensures m == map[] <==> m.Keys <= {}
  {
    if m != map[] { var k :| k in m; assert k in m.Keys; }
  }

  /** The change keeps what the account held, and adds only keys that no account holds. */
  lemma SavedChangeAgrees(s: StoreState, a': Account)
    requires Agree(s) && a'.WellFormed()
    requires SavedHolds(s, a')
    ensures Agree(Save(s, a'))
  {
    hide Account.WellFormed, StoreState.WellFormed, Save, Exact, PeersHeld, UsersHeld, KeysHeld;
    SaveAgrees(s, a');
    HeldAt(s, a'.id);
    if a'.id in s.accounts { MayHoldSame(s.peerIdx, PeersHeld(s), a'.id); }
  }

  /** The change keeps the account's peers, drops no user or setup key, and takes none from another account. */
  ghost predicate SavedHolds(s: StoreState, a': Account) {
    && (a'.id in s.accounts ==> var a := s.accounts[a'.id];
         a'.peers.Keys == a.peers.Keys && a.users.Keys <= a'.users.Keys && a.setupKeys.Keys <= a'.setupKeys.Keys)
    && (a'.id !in s.accounts ==> a'.peers == map[])
    && (forall u :: u in a'.users && u in s.userIdx ==> s.userIdx[u] == a'.id)
    && (forall k :: k in a'.setupKeys && k in s.setupKeyIdx ==> s.setupKeyIdx[k] == a'.id)
  }

  lemma AccountChangeHolds(s: StoreState, op: Op)
    requires Agree(s) && Enabled(s, op) && Disciplined(s, op) && IsAccountOp(op)
    ensures ChangeOf(s, op).Saved? ==> SavedHolds(s, ChangeOf(s, op).a)
  {
    hide Account.WellFormed, Exact, ChangeOf;
    AccountOpShape(s, op);
    HeldIsIndexed(s);
    UnknownUsersUnindexed(s);
  }

  lemma UnknownUsersUnindexed(s: StoreState)
    requires Agree(s)
    ensures forall u :: AccountOf(s, s.userIdx, u).Err? ==> u !in s.userIdx
  {
    hide Account.WellFormed;
    forall u | AccountOf(s, s.userIdx, u).Err? ensures u !in s.userIdx { UnindexedUser(s, u); }
  }

  lemma KeyChangeHolds(s: StoreState, op: Op)
    requires Agree(s) && Enabled(s, op) && IsKeyOp(op)
    ensures ChangeOf(s, op).Saved? ==> SavedHolds(s, ChangeOf(s, op).a)
  {
    hide Account.WellFormed, Exact, ChangeOf;
    KeyOpShape(s, op);
    HeldIsIndexed(s);
  }

  lemma GroupOrRuleChangeHolds(s: StoreState, op: Op)
    requires Agree(s) && Enabled(s, op) && IsGroupOrRuleOp(op)
    ensures ChangeOf(s, op).Saved? ==> SavedHolds(s, ChangeOf(s, op).a)
  {
    hide Account.WellFormed, Exact, ChangeOf;
    GroupOrRuleOpShape(s, op);
    HeldIsIndexed(s);
  }

  lemma HeldIsIndexed(s: StoreState)
    requires Agree(s)
    ensures forall id, u :: id in s.accounts && u in s.accounts[id].users ==> u in s.userIdx && s.userIdx[u] == id
    ensures forall id, k :: id in s.accounts && k in s.accounts[id].setupKeys ==>
              k in s.setupKeyIdx && s.setupKeyIdx[k] == id
    ensures forall id, k :: id in s.accounts && k in s.accounts[id].peers ==> k in s.peerIdx && s.peerIdx[k] == id
  {
    hide Account.WellFormed, Exact;
    forall id, u | id in s.accounts && u in s.accounts[id].users ensures u in s.userIdx && s.userIdx[u] == id {
      HeldUser(s, id, u);
    }
    forall id, k | id in s.accounts && k in s.accounts[id].setupKeys
      ensures k in s.setupKeyIdx && s.setupKeyIdx[k] == id
    {
      HeldKey(s, id, k);
    }
    forall id, k | id in s.accounts && k in s.accounts[id].peers ensures k in s.peerIdx && s.peerIdx[k] == id {
      HeldPeer(s, id, k);
    }
  }

  lemma UnindexedUser(s: StoreState, u: string)
    requires Agree(s) && AccountOf(s, s.userIdx, u).Err?
    ensures u !in s.userIdx
  {
    hide Account.WellFormed;
  }

  // ----- restarting -----

  /** The part of an index that points to the accounts `ids`. */
  function Within(idx: map<string, string>, ids: set<string>): map<string, string> {
    map k | k in idx && idx[k] in ids :: idx[k]
  }

  lemma PointingExtends(idx: map<string, string>, held: map<string, set<string>>, ids: set<string>, id: string)
    requires Exact(idx, held) && id in held
    ensures PointAll(Within(idx, ids), held[id], id) == Within(idx, ids + {id})
  {
  }

  lemma {:induction false} RestoreFromIndexes(s: StoreState, t: StoreState, order: seq<string>, ids: set<string>)
    requires Agree(s) && t.accounts == s.accounts
    requires forall id :: id in order ==> id in s.accounts
    requires t.peerIdx == Within(s.peerIdx, ids) && t.userIdx == Within(s.userIdx, ids)
    requires t.setupKeyIdx == Within(s.setupKeyIdx, ids)
    ensures var r := RestoreFrom(t, order); var all := ids + set id | id in order;
      r.peerIdx == Within(s.peerIdx, all) && r.userIdx == Within(s.userIdx, all)
        && r.setupKeyIdx == Within(s.setupKeyIdx, all)
    decreases order
  {
    hide Account.WellFormed, Exact, Within, PointAll, IndexRules, PeersHeld, UsersHeld, KeysHeld, PeerNames, UserNames;
    hide SetupKeyNames;
    var all := ids + set id | id in order;
    if order == [] {
      assert all == ids;
    } else {
      var id, a := order[0], s.accounts[order[0]];
      NamesOfWellFormed(a);
      HeldAt(s, id);
      PointingExtends(s.peerIdx, PeersHeld(s), ids, id);
      PointingExtends(s.userIdx, UsersHeld(s), ids, id);
      PointingExtends(s.setupKeyIdx, KeysHeld(s), ids, id);
      var t' := IndexAccount(t, id, a, a.domain != "" && a.PrivatePrimary());
      RestoreFromIndexes(s, t', order[1..], ids + {id});
      assert ids + {id} + (set i | i in order[1..]) == all;
    }
  }

  /** Reading the accounts back rebuilds exactly the setup-key, peer and user indexes of the live store,
      whatever order the accounts are visited in. */
  lemma RestoreRebuildsIndexes(s: StoreState, order: seq<string>)
    requires Agree(s) && IsListing(order, s.accounts.Keys)
    ensures var r := Restore(s.accounts, order);
      r.peerIdx == s.peerIdx && r.userIdx == s.userIdx && r.setupKeyIdx == s.setupKeyIdx && Agree(r)
  {
    hide Account.WellFormed, StoreState.WellFormed, Exact, RestoreFrom, Within;
    var all := {} + set id | id in order;
    assert all == s.accounts.Keys;
    RestoreOfNothing(s);
    SameAccountsWellFormed(s, Restore(s.accounts, order));
    assert PeersHeld(s).Keys == all && UsersHeld(s).Keys == all && KeysHeld(s).Keys == all;
    RestoreFromIndexes(s, EMPTY.(accounts := s.accounts), order, {});
    WithinAll(s.peerIdx, PeersHeld(s));
    WithinAll(s.userIdx, UsersHeld(s));
    WithinAll(s.setupKeyIdx, KeysHeld(s));
    SameHeld(s, Restore(s.accounts, order));
  }

  lemma RestoreOfNothing(s: StoreState)
    ensures Within(s.peerIdx, {}) == map[] && Within(s.userIdx, {}) == map[] && Within(s.setupKeyIdx, {}) == map[]
  {
  }

  lemma SameAccountsWellFormed(s: StoreState, t: StoreState)
    requires t.accounts == s.accounts && s.WellFormed()
    ensures t.WellFormed()
  {
    hide Account.WellFormed;
  }

  lemma SameHeld(s: StoreState, t: StoreState)
    requires t.accounts == s.accounts
    ensures PeersHeld(t) == PeersHeld(s) && UsersHeld(t) == UsersHeld(s) && KeysHeld(t) == KeysHeld(s)
  {
  }

  lemma WithinAll(idx: map<string, string>, held: map<string, set<string>>)
    requires Exact(idx, held)
    ensures Within(idx, held.Keys) == idx
  {
  }

  lemma BuildOneAgrees(s: StoreState, id: string, p: AllPick)
    requires Agree(s) && id in s.accounts
    ensures Agree(BuildOne(s, id, p))
  {
    hide Account.WellFormed, Save, Exact;
    AddAllGroupWellFormed(s.accounts[id], p.groupId, p.ruleId, p.peers);
    HeldIsIndexed(s);
    SavedChangeAgrees(s, AddAllGroup(s.accounts[id], p.groupId, p.ruleId, p.peers));
  }

  lemma {:induction false} BuildManagerAgrees(s: StoreState, saves: seq<string>, picks: map<string, AllPick>)
    requires Agree(s) && forall id :: id in saves ==> id in s.accounts && id in picks
    ensures Agree(BuildManager(s, saves, picks))
    decreases saves
  {
    hide Account.WellFormed, BuildOne, Exact;
    if saves != [] {
      BuildOneAgrees(s, saves[0], picks[saves[0]]);
      BuildManagerAgrees(BuildOne(s, saves[0], picks[saves[0]]), saves[1..], picks);
    }
  }

  lemma RestartAgrees(s: StoreState, order: seq<string>, saves: seq<string>, picks: map<string, AllPick>)
    requires Agree(s) && RestartPicks(s, order, saves, picks)
    ensures Agree(Restart(s, order, saves, picks))
  {
    hide Account.WellFormed;
    RestoreRebuildsIndexes(s, order);
    BuildManagerAgrees(Restore(s.accounts, order), saves, picks);
  }

  /** Every disciplined step keeps the three indexes exact. */
  lemma StepAgrees(s: StoreState, op: Op)
    requires Agree(s) && Enabled(s, op) && Disciplined(s, op)
    ensures Agree(Step(s, op))
  {
    hide Account.WellFormed, Exact, MayHold, Save, SavedHolds, ChangeOf;
    if op.RestartOp? {
      RestartAgrees(s, op.order, op.saves, op.picks);
      return;
    }
    ChangesWellFormed(s, op);
    if op.AddPeerOp? {
      AddPeerShape(s, op);
      if ChangeOf(s, op) != NoChange { AddPeerAgreesExactly(s, op, ChangeOf(s, op).a.id); }
    } else if op.DeletePeerOp? {
      DeletePeerShape(s, op);
      if ChangeOf(s, op) != NoChange { RemovalAgrees(s, ChangeOf(s, op).a, op.key); }
    } else if IsInPlaceOp(op) {
      InPlaceOpShape(s, op);
      if ChangeOf(s, op) != NoChange { InPlaceAgrees(s, ChangeOf(s, op).a); }
    } else {
      OtherOpsAgree(s, op);
    }
  }

  lemma OtherOpsAgree(s: StoreState, op: Op)
    requires Agree(s) && Enabled(s, op) && Disciplined(s, op) && !op.RestartOp?
    requires !IsPeerOp(op)
    ensures ChangeOf(s, op).NoChange? || (ChangeOf(s, op).Saved? && SavedHolds(s, ChangeOf(s, op).a))
    ensures Agree(Step(s, op))
  {
    hide Account.WellFormed, Exact, Save, SavedHolds, ChangeOf;
    ChangesWellFormed(s, op);
    if IsAccountOp(op) {
      AccountOpShape(s, op);
      AccountChangeHolds(s, op);
    } else if IsKeyOp(op) {
      KeyOpShape(s, op);
      KeyChangeHolds(s, op);
    } else {
      GroupOrRuleOpShape(s, op);
      GroupOrRuleChangeHolds(s, op);
    }
    if ChangeOf(s, op).Saved? { SavedChangeAgrees(s, ChangeOf(s, op).a); }
  }
}
