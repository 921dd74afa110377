/** Accounts as they are created: one group All with every peer, and the Default rule from All to All.
    Every operation other than editing that account's groups and rules keeps them so, and then every
    peer's network map is all the other peers. */
module FullMesh {
  import opened IpAllocation
  import opened Model
  import opened StoreSpec
  import opened ManagerSpec
  import opened Operations
  import opened OperationShapes
  import opened IndexAgreement
  import opened NetworkMap
  import opened GroupCleanup

  ghost predicate AllToAll(a: Account, g: string, r: string) {
    && a.groups.Keys == {g} && a.groups[g].name == ALL_GROUP
    && (forall k :: k in a.groups[g].peers <==> k in a.peers)
    && a.rules.Keys == {r} && a.rules[r].source == [g] && a.rules[r].destination == [g]
    && a.rules[r].flow == FLOW_BIDIRECT
  }

  /** Account `acc` is all-to-all and the indexes know its rule. */
  ghost predicate Mesh(s: StoreState, acc: string, g: string, r: string) {
    Agree(s) && acc in s.accounts && AllToAll(s.accounts[acc], g, r) && Covers(s, acc)
  }

  lemma MembersOfAll(a: Account, g: string, r: string)
    requires AllToAll(a, g, r)
    ensures MembersOf(a, [g]) == a.peers.Keys
  {
    assert g in [g];
  }

  /** Every registered peer sees exactly all the others. */
  lemma MeshMap(s: StoreState, acc: string, g: string, r: string, k: string)
    requires Mesh(s, acc, g, r) && k in s.accounts[acc].peers
    ensures NetworkMapKeys(s, acc, k) == s.accounts[acc].peers.Keys - {k}
  {
    hide Agree, Covers, RulesFound;
    var a := s.accounts[acc];
    MeshRuleFound(s, acc, g, r, k, true);
    MeshRuleFound(s, acc, g, r, k, false);
    MeshKeyed(s, acc);
    assert g in FarGroups(a, r, true) && g in FarGroups(a, r, false);
    assert g in GroupsVia(s, acc, true, k);
    assert GroupsFound(s, acc, k) == {g};
  }

  lemma MeshKeyed(s: StoreState, acc: string)
    requires Agree(s) && acc in s.accounts
    ensures forall p :: p in s.accounts[acc].peers ==> s.accounts[acc].peers[p].key == p
  {
    hide Exact, Account.WellFormed;
    WellFormedParts(s.accounts[acc]);
  }

  lemma MeshRuleFound(s: StoreState, acc: string, g: string, r: string, k: string, src: bool)
    requires Mesh(s, acc, g, r) && k in s.accounts[acc].peers
    ensures k in Idx(s, src) && RulesFound(s, acc, src, k) == {r}
  {
    hide Exact;
    MembersOfAll(s.accounts[acc], g, r);
    RuleIsFound(s, acc, r, src, k);
    hide Agree, Covers, Account.WellFormed;
    assert r in Lookup(Idx(s, src), k);
  }

  // ----- kept by every operation that leaves the account's groups and rules alone -----

  predicate EditsLists(op: Op, acc: string) {
    match op
    case SaveGroupOp(id, _) => id == acc
    case DeleteGroupOp(id, _) => id == acc
    case GroupAddPeerOp(id, _, _) => id == acc
    case GroupDeletePeerOp(id, _, _) => id == acc
    case SaveRuleOp(id, _) => id == acc
    case DeleteRuleOp(id, _) => id == acc
    case _ => false
  }

  ghost predicate KeepsMesh(s: StoreState, c: Change, acc: string, g: string, r: string)
    requires acc in s.accounts
  {
    !c.NoChange? && c.a.id == acc ==> AllToAll(c.a, g, r)
  }

  predicate SamePlaces(before: map<string, Peer>, after: map<string, Peer>) {
    after.Keys == before.Keys && forall k :: k in before ==> after[k].ip == before[k].ip
  }

  /** The serial counts the changes of the peer set and of addresses. */
  ghost predicate SerialStep(a: Account, b: Account) {
    || (b.network.serial == a.network.serial && SamePlaces(a.peers, b.peers))
    || b.network.serial == a.network.serial + 1
  }

  ghost predicate KeepsSerial(s: StoreState, c: Change) {
    !c.NoChange? && c.a.id in s.accounts ==> SerialStep(s.accounts[c.a.id], c.a)
  }

  lemma AddPeerKeepsMesh(s: StoreState, op: Op, acc: string, g: string, r: string)
    requires Mesh(s, acc, g, r) && Enabled(s, op) && op.AddPeerOp?
    ensures KeepsMesh(s, ChangeOf(s, op), acc, g, r) && KeepsSerial(s, ChangeOf(s, op))
  {
    hide Account.WellFormed, Exact, FreeIps, Upper, Covers, LocateForAdd, ChangeOf, Enabled, SetupKey.IsValid;
    hide SetupKey.IncrementUsage;
    AddPeerShape(s, op);
  }

  lemma DeletePeerKeepsMesh(s: StoreState, op: Op, acc: string, g: string, r: string)
    requires Mesh(s, acc, g, r) && Enabled(s, op) && op.DeletePeerOp?
    ensures KeepsMesh(s, ChangeOf(s, op), acc, g, r) && KeepsSerial(s, ChangeOf(s, op))
  {
    hide Account.WellFormed, Exact, Covers, IsListing, CleanGroups, Agree, AllToAll, SerialStep;
    var c := ChangeOf(s, op);
    MeshIsWellFormed(s, acc, g, r);
    DeletePeerShape(s, op);
    if !c.NoChange? {
      var was := s.accounts[op.accountId];
      DeletionSteps(was, c.a, op.key);
      if op.accountId == acc { DeletionFromAll(was, op.order, op.key, g, r); }
    }
  }

  lemma MeshIsWellFormed(s: StoreState, acc: string, g: string, r: string)
    requires Mesh(s, acc, g, r)
    ensures s.WellFormed()
  {
    hide Account.WellFormed, Exact, Covers;
  }

  lemma DeletionSteps(a: Account, b: Account, key: string)
    requires b == a.(peers := a.peers - {key}, groups := b.groups, network := a.network.IncSerial())
    ensures SerialStep(a, b)
  {
  }

  /** Deleting a peer from an account with the one group All takes it out of that group. */
  lemma DeletionFromAll(a: Account, order: seq<string>, key: string, g: string, r: string)
    requires AllToAll(a, g, r) && IsListing(order, a.groups.Keys)
    ensures AllToAll(Removed(a, key, order), g, r)
  {
    CleanSingleGroup(a.groups, g, order, key);
  }

  lemma InPlaceKeepsMesh(s: StoreState, op: Op, acc: string, g: string, r: string)
    requires Mesh(s, acc, g, r) && Enabled(s, op) && Disciplined(s, op) && IsInPlaceOp(op)
    ensures KeepsMesh(s, ChangeOf(s, op), acc, g, r) && KeepsSerial(s, ChangeOf(s, op))
    ensures var c := ChangeOf(s, op); c.InPlace? && c.a.id == acc ==> c.a.groups == s.accounts[acc].groups
  {
    hide Account.WellFormed, Exact, Covers, ChangeOf, Enabled, Disciplined, AppendToGroup;
    InPlaceOpShape(s, op);
    MeshKeyed(s, acc);
  }

  lemma OtherOpsKeepMesh(s: StoreState, op: Op, acc: string, g: string, r: string)
    requires Mesh(s, acc, g, r) && Enabled(s, op) && Disciplined(s, op) && !op.RestartOp? && !IsPeerOp(op)
    requires !EditsLists(op, acc)
    ensures KeepsMesh(s, ChangeOf(s, op), acc, g, r) && KeepsSerial(s, ChangeOf(s, op))
    ensures ChangeOf(s, op).NoChange? || ChangeOf(s, op).Saved?
  {
    hide Account.WellFormed, Exact, Covers, Agree, AllToAll, SerialStep, Enabled, Disciplined;
    MeshIsWellFormed(s, acc, g, r);
    if IsGroupOrRuleOp(op) {
      OtherListsEdited(s, op, acc, g, r);
    } else {
      KeyOrAccountOpKeepsMesh(s, op, acc, g, r);
    }
  }

  lemma KeyOrAccountOpKeepsMesh(s: StoreState, op: Op, acc: string, g: string, r: string)
    requires s.WellFormed() && acc in s.accounts && AllToAll(s.accounts[acc], g, r)
    requires Enabled(s, op) && Disciplined(s, op) && (IsAccountOp(op) || IsKeyOp(op))
    ensures KeepsMesh(s, ChangeOf(s, op), acc, g, r) && KeepsSerial(s, ChangeOf(s, op))
    ensures ChangeOf(s, op).NoChange? || ChangeOf(s, op).Saved?
  {
    hide StoreState.WellFormed, ChangeOf, Enabled, Disciplined, KeepsMesh, KeepsSerial, AccountShape, KeyShape;
    hide AllToAll;
    if IsAccountOp(op) {
      AccountOpShape(s, op);
      AccountShapeKeepsMesh(s, ChangeOf(s, op), acc, g, r);
    } else {
      KeyOpShape(s, op);
      KeyShapeKeepsMesh(s, ChangeOf(s, op), acc, g, r);
    }
  }

  lemma AccountShapeKeepsMesh(s: StoreState, c: Change, acc: string, g: string, r: string)
    requires acc in s.accounts && AllToAll(s.accounts[acc], g, r) && AccountShape(s, c)
    ensures KeepsMesh(s, c, acc, g, r) && KeepsSerial(s, c) && (c.NoChange? || c.Saved?)
  {
    hide NewAccountShape, OneUser;
  }

  lemma KeyShapeKeepsMesh(s: StoreState, c: Change, acc: string, g: string, r: string)
    requires acc in s.accounts && AllToAll(s.accounts[acc], g, r) && KeyShape(s, c)
    ensures KeepsMesh(s, c, acc, g, r) && KeepsSerial(s, c) && (c.NoChange? || c.Saved?)
  {
    hide SameKey;
  }

  /** The edit is of another account. */
  lemma OtherListsEdited(s: StoreState, op: Op, acc: string, g: string, r: string)
    requires s.WellFormed() && acc in s.accounts && Enabled(s, op) && IsGroupOrRuleOp(op) && !EditsLists(op, acc)
    ensures KeepsMesh(s, ChangeOf(s, op), acc, g, r) && KeepsSerial(s, ChangeOf(s, op))
    ensures ChangeOf(s, op).NoChange? || ChangeOf(s, op).Saved?
  {
    hide StoreState.WellFormed, AllToAll, ChangeOf, Enabled, KeepsMesh, KeepsSerial, EditsLists;
    GroupOrRuleOpShape(s, op);
    EditedElsewhere(op, acc);
    NetworkKept(s, ChangeOf(s, op), acc, g, r);
  }

  lemma EditedElsewhere(op: Op, acc: string)
    requires IsGroupOrRuleOp(op) && !EditsLists(op, acc)
    ensures op.accountId != acc
  {
  }

  lemma NetworkKept(s: StoreState, c: Change, acc: string, g: string, r: string)
    requires acc in s.accounts
    requires !c.NoChange? ==> c.a.id != acc && c.a.id in s.accounts
                              && c.a == s.accounts[c.a.id].(groups := c.a.groups, rules := c.a.rules)
    ensures KeepsMesh(s, c, acc, g, r) && KeepsSerial(s, c)
  {
    hide AllToAll;
  }

  lemma CoversOne(s: StoreState, c: Change, acc: string)
    requires s.WellFormed() && acc in s.accounts && Covers(s, acc) && ChangeWellFormed(s, c)
    requires c.InPlace? && c.a.id == acc ==> c.a.groups == s.accounts[acc].groups && c.a.rules == s.accounts[acc].rules
    ensures acc in Apply(s, c).accounts && Covers(Apply(s, c), acc)
  {
    hide Account.WellFormed, Save;
    match c
    case NoChange =>
    case Saved(a) => SaveCovers(s, a); SaveFields(s, a);
    case SavedWithoutPeer(a, key) =>
      var mid := s.(peerIdx := s.peerIdx - {key});
      assert Covers(mid, acc);
      SaveCovers(mid, a);
      SaveFields(mid, a);
    case InPlace(a) =>
      if a.id == acc { SameRulesCovered(s, a); }
  }

  lemma SameRulesCovered(s: StoreState, a: Account)
    requires a.id in s.accounts && Covers(s, a.id) && a.groups == s.accounts[a.id].groups
    requires a.rules == s.accounts[a.id].rules
    ensures Covers(Apply(s, InPlace(a)), a.id)
  {
    forall src, p ensures RulesNaming(a, a.rules.Keys, src, p) == RulesNaming(s.accounts[a.id], a.rules.Keys, src, p) {
      forall gids ensures MembersOf(a, gids) == MembersOf(s.accounts[a.id], gids) {}
    }
  }

  lemma {:induction false} BuildManagerKeepsAccount(s: StoreState, saves: seq<string>, picks: map<string, AllPick>,
                                                    acc: string)
    requires s.WellFormed() && acc in s.accounts && s.accounts[acc].groups != map[]
    requires forall id :: id in saves ==> id in s.accounts && id in picks
    ensures var t := BuildManager(s, saves, picks); acc in t.accounts && t.accounts[acc] == s.accounts[acc]
    decreases saves
  {
    hide Account.WellFormed, BuildOne;
    if saves != [] {
      assert |s.accounts[acc].groups| != 0;
      BuildOneWellFormed(s, saves[0], picks[saves[0]]);
      BuildManagerKeepsAccount(BuildOne(s, saves[0], picks[saves[0]]), saves[1..], picks, acc);
    }
  }

  lemma RestartKeepsMesh(s: StoreState, op: Op, acc: string, g: string, r: string)
    requires Mesh(s, acc, g, r) && op.RestartOp? && Enabled(s, op)
    ensures Mesh(Step(s, op), acc, g, r) && Step(s, op).accounts[acc] == s.accounts[acc]
  {
    hide Account.WellFormed, Exact, Covers, RestoreFrom, BuildOne;
    RestartAgrees(s, op.order, op.saves, op.picks);
    assert g in s.accounts[acc].groups;
    BuildManagerKeepsAccount(Restore(s.accounts, op.order), op.saves, op.picks, acc);
    RestartCovers(s, op.order, op.saves, op.picks);
    hide Restart;
  }

  /** The mesh survives every operation and restart that does not edit the account's groups or rules, and
      the serial grows by one exactly with registrations and deletions. */
  lemma StepKeepsMesh(s: StoreState, op: Op, acc: string, g: string, r: string)
    requires Mesh(s, acc, g, r) && Enabled(s, op) && Disciplined(s, op) && !EditsLists(op, acc)
    ensures Mesh(Step(s, op), acc, g, r) && SerialStep(s.accounts[acc], Step(s, op).accounts[acc])
  {
    if op.RestartOp? {
      RestartKeepsMesh(s, op, acc, g, r);
      return;
    }
    hide Account.WellFormed, Exact, Covers, Save, AllToAll, SerialStep, ChangeOf, EditsLists;
    assert SerialStep(s.accounts[acc], s.accounts[acc]) by { SameSerial(s.accounts[acc]); }
    var c := ChangeOf(s, op);
    ChangesWellFormed(s, op);
    StepAgrees(s, op);
    if op.AddPeerOp? {
      AddPeerShape(s, op);
      AddPeerKeepsMesh(s, op, acc, g, r);
    } else if op.DeletePeerOp? {
      DeletePeerShape(s, op);
      DeletePeerKeepsMesh(s, op, acc, g, r);
    } else if IsInPlaceOp(op) {
      InPlaceOpShape(s, op);
      InPlaceKeepsMesh(s, op, acc, g, r);
    } else {
      OtherOpsKeepMesh(s, op, acc, g, r);
    }
    MeshAfter(s, c, acc, g, r);
  }

  lemma SameSerial(a: Account)
    ensures SerialStep(a, a)
  {
  }

  lemma MeshAfter(s: StoreState, c: Change, acc: string, g: string, r: string)
    requires Mesh(s, acc, g, r) && ChangeWellFormed(s, c) && Agree(Apply(s, c))
    requires KeepsMesh(s, c, acc, g, r) && KeepsSerial(s, c) && SerialStep(s.accounts[acc], s.accounts[acc])
    requires c.InPlace? && c.a.id == acc ==> c.a.groups == s.accounts[acc].groups && c.a.rules == s.accounts[acc].rules
    ensures Mesh(Apply(s, c), acc, g, r) && SerialStep(s.accounts[acc], Apply(s, c).accounts[acc])
  {
    assert s.WellFormed();
    CoversOne(s, c, acc);
    AccountsAfter(s, c);
    hide Account.WellFormed, Agree, Covers, Apply, AllToAll, SerialStep;
  }

  lemma AccountsAfter(s: StoreState, c: Change)
    ensures Apply(s, c).accounts == if c.NoChange? then s.accounts else s.accounts[c.a.id := c.a]
  {
  }

  lemma FreshAccountIsMesh(f: Fresh, id: string, u: string, d: string, now: int)
    ensures var base := NewAccountWithId(f, id, u, d, now).(users := map[u := User(u, Admin)]);
      var a := AddAllGroup(base, f.groupId, f.ruleId, []);
      && AllToAll(a, f.groupId, f.ruleId) && a.id == id && a.peers == map[] && a.network == f.network
  {
    hide Upper;
  }

  /** The accounts that lookups without private claims create start as a mesh of no peers, serial 0. */
  lemma NewAccountIsMesh(s: StoreState, u: string, d: string, f: Fresh, now: int)
    requires Agree(s) && IsFresh(s, f) && AccountOf(s, s.userIdx, u).Err?
    ensures var t := Step(s, GetOrCreateOp(u, d, f, now));
      Mesh(t, f.accountId, f.groupId, f.ruleId) && t.accounts[f.accountId].peers == map[]
        && t.accounts[f.accountId].network.serial == 0
  {
    var op := GetOrCreateOp(u, d, f, now);
    hide Account.WellFormed, Exact, Covers, Upper, Lower, Save, NewAccountWithId;
    StepAgrees(s, op);
    ChangesWellFormed(s, op);
    var base := NewAccountWithId(f, f.accountId, u, Lower(d), now);
    var a := AddAllGroup(base.(users := map[u := User(u, Admin)]), f.groupId, f.ruleId, []);
    FreshAccountIsMesh(f, f.accountId, u, Lower(d), now);
    hide AddAllGroup;
    assert ChangeOf(s, op) == Saved(a);
    SaveCovers(s, a);
    AccountsAfter(s, Saved(a));
    hide Agree, ChangeOf;
  }
}
