/** What single calls achieve and what a second call undoes: management/server/{peer,account,group,rule}.go. */
module Effects {
  import opened IpAllocation
  import opened Model
  import opened StoreSpec
  import opened ManagerSpec
  import opened Operations
  import opened OperationShapes
  import opened IndexAgreement
  import opened GroupCleanup
  import opened FullMesh
  import opened Runs
  import opened NetworkMap

  // ----- peers -----

  /** The key, if there is one, has been used once more, and no other key has changed. */
  predicate UsedOnceMore(before: map<string, SetupKey>, after: map<string, SetupKey>, key: string) {
    && after.Keys == before.Keys
    && forall k :: k in before ==>
         if k == key && key != "" then after[k].usedTimes == before[k].usedTimes + 1 else after[k] == before[k]
  }

  /** A registered peer is found at once, with a free address of its account's network; the serial and the
      use of the setup key have gone up by one, and nobody else has changed. */
  lemma AddedPeerIsFound(s: StoreState, op: Op, id: string)
    requires s.WellFormed() && AddsTo(s, op, id)
    ensures id in s.accounts && id in Step(s, op).accounts && PeerHome(Step(s, op), op.req.key) == Ok(id)
    ensures var a, b := s.accounts[id], Step(s, op).accounts[id];
      && a.network.net.Valid() && op.req.key in b.peers
      && b.peers[op.req.key].ip in FreeIps(a.network.net, a.TakenIps())
      && b.peers - {op.req.key} == a.peers - {op.req.key}
      && b.network.serial == a.network.serial + 1 && UsedOnceMore(a.setupKeys, b.setupKeys, Upper(op.setupKey))
    ensures Step(s, op).accounts - {id} == s.accounts - {id}
  {
    hide Account.WellFormed, StoreState.WellFormed, Register, LocateForAdd, AddPeer, Save, Enabled, ChangeOf;
    hide Adds, UsedOnceMore, FreeIps, PeerHome;
    AddPeerShape(s, op);
    ChangesWellFormed(s, op);
    var c := ChangeOf(s, op);
    AdditionMeans(s, op, c.a);
    NamesOfWellFormed(c.a);
    SavedPeerIsFound(s, c.a, op.req.key);
  }

  lemma AdditionMeans(s: StoreState, op: Op, b: Account)
    requires op.AddPeerOp? && Adds(s, op, b)
    ensures LocateForAdd(s, op.setupKey, op.userId, op.now) == Ok(b.id) && b.id in s.accounts
    ensures var a := s.accounts[b.id];
      && a.network.net.Valid() && op.req.key in b.peers
      && b.peers[op.req.key].ip in FreeIps(a.network.net, a.TakenIps())
      && b.peers - {op.req.key} == a.peers - {op.req.key}
      && b.network.serial == a.network.serial + 1 && UsedOnceMore(a.setupKeys, b.setupKeys, Upper(op.setupKey))
  {
    hide FreeIps, Upper, LocateForAdd, AppendToGroup, Account.TakenIps, Account.AllGroups;
  }

  lemma SavedPeerIsFound(s: StoreState, a: Account, key: string)
    requires key in a.peers && PeerNames(a) == a.peers.Keys
    ensures PeerHome(Save(s, a), key) == Ok(a.id) && Save(s, a).accounts == s.accounts[a.id := a]
  {
    hide IndexRules, PeerNames, SetupKeyNames, UserNames;
  }

  /** Deleting a peer just registered under a new key gives the account back as it was, but for the serial,
      which counts both calls, and the use of the setup key, which is not given back: exactly when no group
      but the last one visited had members, as with the one group All. */
  lemma DeletionUndoesRegistrationExactly(a: Account, key: string, userId: string, req: PeerRequest, now: int, ip: Addr,
                                          gid: string, order: seq<string>)
    requires a.network.net.Valid() && (key != "" ==> key in a.setupKeys) && gid in a.AllGroups()
    requires req.key !in a.peers && (forall g :: g in a.groups ==> req.key !in a.groups[g].peers)
    requires IsListing(order, a.groups.Keys) && Register(a, key, userId, req, now, ip, gid).result.Ok?
    ensures var b := Register(a, key, userId, req, now, ip, gid).change.a;
      && b.groups.Keys == a.groups.Keys && UsedOnceMore(a.setupKeys, b.setupKeys, key)
      && var twoLater := a.network.(serial := a.network.serial + 2);
         (Removed(b, req.key, order) == a.(setupKeys := b.setupKeys, network := twoLater)
          <==> forall i :: 0 <= i < |order| - 1 ==> a.groups[order[i]].peers == [])
  {
    hide FreeIps, CleanGroups, Account.TakenIps, Without, Removed, AppendToGroup;
    var b := Register(a, key, userId, req, now, ip, gid).change.a;
    AppendedGroups(a, gid, req.key);
    RemovedAgain(a, b, req.key, b.peers[req.key], gid, order);
  }

  lemma AppendedGroups(a: Account, gid: string, key: string)
    requires gid in a.groups
    ensures AppendToGroup(a, gid, key).Keys == a.groups.Keys
  {
  }

  lemma RemovedAgain(a: Account, b: Account, key: string, p: Peer, gid: string, order: seq<string>)
    requires gid in a.groups && IsListing(order, a.groups.Keys) && key !in a.peers
    requires forall g :: g in a.groups ==> key !in a.groups[g].peers
    requires b == a.(groups := AppendToGroup(a, gid, key), peers := a.peers[key := p], setupKeys := b.setupKeys,
                     network := a.network.IncSerial())
    ensures b.groups.Keys == a.groups.Keys
    ensures Removed(b, key, order) ==
      a.(setupKeys := b.setupKeys, network := a.network.(serial := a.network.serial + 2))
      <==> forall i :: 0 <= i < |order| - 1 ==> a.groups[order[i]].peers == []
  {
    hide CleanGroups, Without;
    CleanedAgain(a.groups, gid, order, key);
    assert b.peers - {key} == a.peers;
  }

  lemma CleanedAgain(groups: map<string, Group>, gid: string, order: seq<string>, key: string)
    requires gid in groups && IsListing(order, groups.Keys) && forall g :: g in groups ==> key !in groups[g].peers
    ensures var more := groups[gid := groups[gid].(peers := groups[gid].peers + [key])];
      && more.Keys == groups.Keys
      && (CleanGroups(more, order, [], key) == groups
          <==> forall i :: 0 <= i < |order| - 1 ==> groups[order[i]].peers == [])
  {
    hide CleanGroups, Without, Survivors;
    var more := groups[gid := groups[gid].(peers := groups[gid].peers + [key])];
    var r := CleanGroups(more, order, [], key);
    CleanedLists(more, order, [], key);
    CleanIsFilterExactly(more, order, key);
    forall g | g in groups ensures Without(more[g].peers, key) == groups[g].peers {
      if g == gid { WithoutAppended(groups[g].peers, key); } else { WithoutAbsent(groups[g].peers, key); }
    }
    forall g | g in groups ensures r[g] == groups[g].(peers := r[g].peers) {
      var i :| 0 <= i < |order| && order[i] == g;
    }
    assert r == groups <==> forall g :: g in groups ==> r[g].peers == groups[g].peers;
  }

  lemma {:induction false} WithoutAbsent(s: seq<string>, key: string)
    requires key !in s
    ensures Without(s, key) == s
  {
    if s != [] { WithoutAbsent(s[1..], key); }
  }

  lemma {:induction false} WithoutAppended(s: seq<string>, key: string)
    requires key !in s
    ensures Without(s + [key], key) == s
  {
    if s == [] {
      assert (s + [key])[1..] == [];
    } else {
      assert (s + [key])[0] == s[0] && (s + [key])[1..] == s[1..] + [key];
      WithoutAppended(s[1..], key);
    }
  }

  /** What a rename, a status change and new metadata write of the peer: one field each. Metadata with an
      empty UI version, as the command line sends it, keeps the old one. */
  ghost predicate WritesOwnField(op: Op, p: Peer, q: Peer) {
    match op
    case RenamePeerOp(_, _, name, _) => q == p.(name := name)
    case MarkPeerOp(_, connected, now, _) => q == p.(status := PeerStatus(connected, now))
    case UpdateMetaOp(_, meta, _) =>
      q == p.(meta := meta.(uiVersion := if meta.uiVersion == "" then p.meta.uiVersion else meta.uiVersion))
    case _ => false
  }

  /** The frame of the operations that save a peer in place: one field of the one peer, and the group All when
      the peer was not in it. No index, serial, key, rule or user changes, nor any other account; and while
      peers are found in All, no peer's network map shows other peers than before. */
  lemma InPlaceOpsFrame(s: StoreState, op: Op)
    requires s.WellFormed() && Enabled(s, op) && Disciplined(s, op) && IsInPlaceOp(op) && ChangeOf(s, op).InPlace?
    ensures PeerHome(s, op.key).Ok?
    ensures var id, t := PeerHome(s, op.key).value, Step(s, op);
      && t == s.(accounts := s.accounts[id := t.accounts[id]]) && op.key in t.accounts[id].peers
      && var a, b := s.accounts[id], t.accounts[id];
         && WritesOwnField(op, a.peers[op.key], b.peers[op.key])
         && b == a.(groups := b.groups, peers := a.peers[op.key := b.peers[op.key]]) && Lists(s, op, b)
    ensures StaysInAll(s, op) ==> forall id, k :: id in s.accounts ==>
      id in Step(s, op).accounts && NetworkMapKeys(Step(s, op), id, k) == NetworkMapKeys(s, id, k)
  {
    hide Account.WellFormed, AppendToGroup, Account.AllGroups, NetworkMapKeys;
    InPlaceOpShape(s, op);
    InPlaceWrites(s, op);
    var c := ChangeOf(s, op);
    if StaysInAll(s, op) {
      InPlaceGroupsSame(s, op);
      hide ChangeOf, Enabled, Disciplined, StaysInAll, Rewrites, Lists;
      forall id, k | id in s.accounts ensures NetworkMapKeys(Apply(s, c), id, k) == NetworkMapKeys(s, id, k) {
        SameMap(s, c.a, op.key, id, k);
      }
    }
  }

  lemma InPlaceWrites(s: StoreState, op: Op)
    requires s.WellFormed() && Enabled(s, op) && Disciplined(s, op) && IsInPlaceOp(op) && ChangeOf(s, op).InPlace?
    ensures PeerHome(s, op.key) == Ok(ChangeOf(s, op).a.id)
    ensures var a := ChangeOf(s, op).a;
      op.key in s.accounts[a.id].peers && op.key in a.peers
        && WritesOwnField(op, s.accounts[a.id].peers[op.key], a.peers[op.key])
  {
    hide Account.WellFormed, AppendToGroup, Account.AllGroups;
    if PeerHome(s, op.key).Ok? { PeerKeyed(s.accounts[PeerHome(s, op.key).value], op.key); }
  }

  lemma SameMap(s: StoreState, b: Account, key: string, id: string, k: string)
    requires b.id in s.accounts && id in s.accounts && key in b.peers && key in s.accounts[b.id].peers
    requires var a := s.accounts[b.id];
      && b == a.(peers := a.peers[key := b.peers[key]]) && b.peers[key].key == a.peers[key].key
    ensures NetworkMapKeys(Apply(s, InPlace(b)), id, k) == NetworkMapKeys(s, id, k)
  {
    var t := Apply(s, InPlace(b));
    assert t.accounts[id].rules == s.accounts[id].rules;
    SameGroupsFound(s, t, id, true, k);
    SameGroupsFound(s, t, id, false, k);
    hide GroupsVia;
    assert GroupsFound(t, id, k) == GroupsFound(s, id, k);
    hide GroupsFound;
    var before, after := s.accounts[id], t.accounts[id];
    assert after.groups == before.groups && after.peers.Keys == before.peers.Keys;
    assert forall p :: p in before.peers ==> after.peers[p].key == before.peers[p].key;
  }

  lemma SameGroupsFound(s: StoreState, t: StoreState, id: string, src: bool, k: string)
    requires id in s.accounts && id in t.accounts && t.accounts[id].rules == s.accounts[id].rules
    requires t.srcRules == s.srcRules && t.dstRules == s.dstRules
    ensures GroupsVia(t, id, src, k) == GroupsVia(s, id, src, k)
  {
    assert RulesFound(t, id, src, k) == RulesFound(s, id, src, k);
    hide RulesFound;
    forall r | r in s.accounts[id].rules
      ensures FarGroups(t.accounts[id], r, src) == FarGroups(s.accounts[id], r, src) {}
  }

  // ----- setup keys -----

  /** A key once revoked is invalid in every later state and at every time. */
  lemma RevokedForEver(states: seq<StoreState>, ops: seq<Op>, m: nat, n: nat, u: int)
    requires IsRun(states, ops) && m < n < |states| && ops[m].RevokeKeyOp?
    requires Enabled(states[m], ops[m])
    requires RevokeSetupKey(states[m], ops[m].accountId, ops[m].id, ops[m].pick).result.Ok?
    ensures var id, k := ops[m].accountId, ops[m].pick;
      id in states[n].accounts && k in states[n].accounts[id].setupKeys
        && !states[n].accounts[id].setupKeys[k].IsValid(u)
  {
    hide Agree, Disciplined, StoreState.WellFormed, Step, RevokeSetupKey;
    RunStepAt(states, ops, m);
    RevokedAtOnce(states[m], ops[m]);
    InvalidKeyStaysInvalid(states, ops, m + 1, n, ops[m].accountId, ops[m].pick, u, u);
  }

  lemma RevokedAtOnce(s: StoreState, op: Op)
    requires s.WellFormed() && Enabled(s, op) && op.RevokeKeyOp?
    requires RevokeSetupKey(s, op.accountId, op.id, op.pick).result.Ok?
    ensures var id, k, t := op.accountId, op.pick, Step(s, op);
      id in t.accounts && k in t.accounts[id].setupKeys && t.accounts[id].setupKeys[k].revoked
  {
    hide StoreState.WellFormed, Save, RevokeSetupKey;
    RevocationIsSaved(s, op.accountId, op.id, op.pick);
    AccountsAfter(s, RevokeSetupKey(s, op.accountId, op.id, op.pick).change);
  }

  lemma RevocationIsSaved(s: StoreState, id: string, keyId: string, pick: string)
    requires s.WellFormed() && KeyPicks(s, id, keyId, pick) && RevokeSetupKey(s, id, keyId, pick).result.Ok?
    ensures id in s.accounts && s.accounts[id].id == id && pick in s.accounts[id].setupKeys
    ensures var a := s.accounts[id];
      RevokeSetupKey(s, id, keyId, pick).change
      == Saved(a.(setupKeys := a.setupKeys[pick := a.setupKeys[pick].(revoked := true)]))
  {
    hide Account.WellFormed;
    SetupKeysKeyed(s.accounts[id]);
  }

  /** A generated key is found at once through the index, and it is valid up to and including its expiry. */
  lemma NewKeyIsValidUntilExpiry(s: StoreState, op: Op, u: int)
    requires s.WellFormed() && Enabled(s, op) && op.AddSetupKeyOp? && op.accountId in s.accounts
    ensures var t, k := Step(s, op), Upper(op.newKey);
      && AccountOf(t, t.setupKeyIdx, k) == Ok(op.accountId) && k in t.accounts[op.accountId].setupKeys
      && (t.accounts[op.accountId].setupKeys[k].IsValid(u) <==> u <= op.now + op.validFor)
  {
    hide Account.WellFormed, Upper, IndexRules, PeerNames, UserNames, SetupKeyNames;
    ChangesWellFormed(s, op);
    NamesOfWellFormed(ChangeOf(s, op).a);
  }

  // ----- users -----

  /** A user nobody knows, with private claims on a domain that has its account, joins that account as a
      regular user, is found there at once, and changes nothing else of it. */
  lemma JoiningUserIsRegular(s: StoreState, op: Op, id: string)
    requires s.WellFormed() && Enabled(s, op) && op.ClaimsOp?
    requires op.claims.domainCategory == PRIVATE_CATEGORY && op.claims.accountId == ""
    requires AccountOf(s, s.userIdx, op.claims.userId).Err?
    requires AccountOf(s, s.domainIdx, Lower(op.claims.domain)) == Ok(id)
    ensures id in s.accounts && AccountWithClaims(s, op.claims, op.f, op.now).result == Ok(id)
    ensures var t, u := Step(s, op), op.claims.userId;
      && AccountOf(t, t.userIdx, u) == Ok(id) && u in t.accounts[id].users && t.accounts[id].users[u].role == Regular
      && t.accounts[id].users - {u} == s.accounts[id].users - {u}
      && t.accounts[id].(users := map[]) == s.accounts[id].(users := map[])
  {
    hide Account.WellFormed, Save, ChangeOf, AccountWithClaims, Enabled, Lower;
    ChangesWellFormed(s, op);
    JoinIsSaved(s, op, id);
    SavedUserIsFound(s, ChangeOf(s, op).a, op.claims.userId);
  }

  lemma JoinIsSaved(s: StoreState, op: Op, id: string)
    requires s.WellFormed() && Enabled(s, op) && op.ClaimsOp?
    requires op.claims.domainCategory == PRIVATE_CATEGORY && op.claims.accountId == ""
    requires AccountOf(s, s.userIdx, op.claims.userId).Err?
    requires AccountOf(s, s.domainIdx, Lower(op.claims.domain)) == Ok(id)
    ensures id in s.accounts && s.accounts[id].id == id
    ensures AccountWithClaims(s, op.claims, op.f, op.now).result == Ok(id)
    ensures var a, u := s.accounts[id], op.claims.userId;
      ChangeOf(s, op) == Saved(a.(users := a.users[u := User(u, Regular)]))
  {
    hide Account.WellFormed, Lower, NewAccountWithId;
  }

  lemma SavedUserIsFound(s: StoreState, a: Account, user: string)
    requires a.WellFormed() && user in a.users
    ensures AccountOf(Save(s, a), Save(s, a).userIdx, user) == Ok(a.id) && Save(s, a).accounts == s.accounts[a.id := a]
  {
    hide Account.WellFormed, IndexRules, PeerNames, UserNames, SetupKeyNames;
    NamesOfWellFormed(a);
  }

  // ----- groups and rules -----

  /** Taking a peer out of a group it was just put into gives the group back. */
  lemma GroupDeletionUndoesAddition(s: StoreState, id: string, gid: string, key: string)
    requires id in s.accounts && gid in s.accounts[id].groups && key !in s.accounts[id].groups[gid].peers
    requires s.accounts[id].id == id
    ensures var t := Apply(s, GroupAddPeer(s, id, gid, key).change);
      var u := Apply(t, GroupDeletePeer(t, id, gid, key).change);
      && id in t.accounts && gid in t.accounts[id].groups && key in t.accounts[id].groups[gid].peers
      && u.accounts == s.accounts
  {
    hide Apply, RemoveFirst;
    var a := s.accounts[id];
    var g := a.groups[gid];
    var c := GroupAddPeer(s, id, gid, key).change;
    var t := Apply(s, c);
    AccountsAfter(s, c);
    AccountsAfter(t, GroupDeletePeer(t, id, gid, key).change);
    RemovedLast(g.peers, key);
    assert a.groups[gid := g.(peers := g.peers + [key])][gid := g] == a.groups;
    SameEntry(s.accounts, id);
  }

  lemma {:induction false} RemovedLast(s: seq<string>, key: string)
    requires key !in s
    ensures RemoveFirst(s + [key], key) == s
  {
    if s == [] {
      assert (s + [key])[1..] == [];
    } else {
      assert (s + [key])[0] == s[0] && (s + [key])[1..] == s[1..] + [key];
      RemovedLast(s[1..], key);
    }
  }

  /** The index `idx'` has gained rule `r`, for exactly the peers it names, and nothing else. */
  ghost predicate GainsRule(idx: map<string, set<string>>, idx': map<string, set<string>>, a: Account, r: Rule,
                            src: bool)
  {
    forall p :: Lookup(idx', p) == Lookup(idx, p) + if p in MembersOf(a, Side(r, src)) then {r.id} else {}
  }

  /** Deleting a rule that was new gives the accounts back. It does not give back the rule indexes, which
      only grow: if they knew the account's rules before, they have gained exactly the deleted rule, for
      each peer it named. */
  lemma RuleDeletionUndoesSaving(s: StoreState, id: string, r: Rule)
    requires id in s.accounts && s.accounts[id].id == id && r.id !in s.accounts[id].rules
    ensures var t := Apply(s, SaveRule(s, id, r).change); var u := Apply(t, DeleteRule(t, id, r.id).change);
      && u.accounts == s.accounts
      && (forall src, p :: p in Idx(t, src) ==> p in Idx(u, src) && Idx(t, src)[p] <= Idx(u, src)[p])
      && (Covers(s, id) ==> forall src :: GainsRule(Idx(s, src), Idx(u, src), s.accounts[id], r, src))
  {
    hide Save, MembersOf, GainsRule, Covers;
    var a := s.accounts[id];
    var b := a.(rules := a.rules[r.id := r]);
    assert b.rules - {r.id} == a.rules;
    assert s.accounts[id := a] == s.accounts;
    AccountsAfter(s, Saved(b));
    AccountsAfter(Save(s, b), Saved(a));
    forall src { EntriesOnlyGrow(Save(s, b), a, src); }
    if Covers(s, id) {
      forall src ensures GainsRule(Idx(s, src), Idx(Save(Save(s, b), a), src), a, r, src) {
        EnteredTwice(s, a, r, src);
      }
    }
  }

  lemma EntriesOnlyGrow(s: StoreState, a: Account, src: bool)
    ensures forall p :: p in Idx(s, src) ==> p in Idx(Save(s, a), src) && Idx(s, src)[p] <= Idx(Save(s, a), src)[p]
  {
    hide PointAll, RulesNaming, PeersNamed, SetupKeyNames, PeerNames, UserNames;
    assert Idx(Save(s, a), src) == IndexRules(Idx(s, src), a, a.rules.Keys, src);
  }

  lemma EnteredTwice(s: StoreState, a: Account, r: Rule, src: bool)
    requires a.id in s.accounts && s.accounts[a.id] == a && Covers(s, a.id) && r.id !in a.rules
    ensures var b := a.(rules := a.rules[r.id := r]); GainsRule(Idx(s, src), Idx(Save(Save(s, b), a), src), a, r, src)
  {
    hide RulesNaming, MembersOf, IndexRules, PeerNames, UserNames, SetupKeyNames, PointAll;
    var b := a.(rules := a.rules[r.id := r]);
    var idx := IndexRules(Idx(s, src), b, b.rules.Keys, src);
    assert Idx(Save(Save(s, b), a), src) == IndexRules(idx, a, a.rules.Keys, src);
    hide Save;
    forall p ensures Lookup(IndexRules(idx, a, a.rules.Keys, src), p) ==
      Lookup(Idx(s, src), p) + (if p in MembersOf(a, Side(r, src)) then {r.id} else {})
    {
      IndexRulesLookup(Idx(s, src), b, b.rules.Keys, src, p);
      IndexRulesLookup(idx, a, a.rules.Keys, src, p);
      OneMoreRule(a, r, src, p);
      assert RulesNaming(a, a.rules.Keys, src, p) <= Lookup(Idx(s, src), p);
    }
  }

  lemma OneMoreRule(a: Account, r: Rule, src: bool, p: string)
    requires r.id !in a.rules
    ensures var b := a.(rules := a.rules[r.id := r]);
      RulesNaming(b, b.rules.Keys, src, p) ==
      RulesNaming(a, a.rules.Keys, src, p) + if p in MembersOf(a, Side(r, src)) then {r.id} else {}
  {
    var b := a.(rules := a.rules[r.id := r]);
    forall gids ensures MembersOf(b, gids) == MembersOf(a, gids) {}
    hide MembersOf;
    forall x | x in RulesNaming(b, b.rules.Keys, src, p)
      ensures x in RulesNaming(a, a.rules.Keys, src, p) || (x == r.id && p in MembersOf(a, Side(r, src)))
    {
      var y :| y in b.rules && p in MembersOf(b, Side(b.rules[y], src)) && b.rules[y].id == x;
      assert y != r.id ==> b.rules[y] == a.rules[y];
    }
    forall x | x in RulesNaming(a, a.rules.Keys, src, p) ensures x in RulesNaming(b, b.rules.Keys, src, p) {
      var y :| y in a.rules && p in MembersOf(a, Side(a.rules[y], src)) && a.rules[y].id == x;
      assert b.rules[y] == a.rules[y];
    }
    assert b.rules[r.id] == r;
  }
}
