/** What every operation leaves in place: users and their roles, the setup keys and their limits, the
    creator and the network of an account. Over runs: stable membership, lasting admins, exact
    accounting of setup-key use, and validity that is never regained. */
module AccountHistory {
  import opened IpAllocation
  import opened Model
  import opened StoreSpec
  import opened ManagerSpec
  import opened Operations
  import opened OperationShapes
  import opened IndexAgreement

  /** A key keeps its type and expiry, is never un-revoked, and its use is never taken back. */
  predicate KeySuccessor(k: SetupKey, l: SetupKey) {
    k.typ == l.typ && k.expiresAt == l.expiresAt && (k.revoked ==> l.revoked) && k.usedTimes <= l.usedTimes
  }

  ghost predicate Successor(a: Account, b: Account) {
    && b.id == a.id && b.createdBy == a.createdBy
    && b.network.net == a.network.net && a.network.serial <= b.network.serial
    && (forall u :: u in a.users ==> u in b.users && b.users[u] == a.users[u])
    && (forall k :: k in a.setupKeys ==> k in b.setupKeys && KeySuccessor(a.setupKeys[k], b.setupKeys[k]))
  }

  ghost predicate Succeeds(s: StoreState, t: StoreState) {
    forall id :: id in s.accounts ==> id in t.accounts && Successor(s.accounts[id], t.accounts[id])
  }

  lemma SucceedsTransitive(s: StoreState, t: StoreState, v: StoreState)
    requires Succeeds(s, t) && Succeeds(t, v)
    ensures Succeeds(s, v)
  {
    forall id | id in s.accounts ensures id in v.accounts && Successor(s.accounts[id], v.accounts[id]) {
      assert Successor(s.accounts[id], t.accounts[id]) && Successor(t.accounts[id], v.accounts[id]);
    }
  }

  ghost predicate ChangeSucceeds(s: StoreState, c: Change) {
    !c.NoChange? && c.a.id in s.accounts ==> Successor(s.accounts[c.a.id], c.a)
  }

  lemma ApplySucceeds(s: StoreState, c: Change)
    requires ChangeSucceeds(s, c)
    ensures Succeeds(s, Apply(s, c))
  {
    assert !c.NoChange? ==> Apply(s, c).accounts == s.accounts[c.a.id := c.a];
    hide IndexAccount, Save, Apply;
    forall id | id in s.accounts ensures Successor(s.accounts[id], s.accounts[id]) {}
  }

  lemma StoreOfAgree(s: StoreState)
    requires Agree(s)
    ensures s.WellFormed()
  {
  }

  lemma UnknownUserNotIn(s: StoreState, id: string)
    requires Agree(s) && id in s.accounts
    ensures forall u :: AccountOf(s, s.userIdx, u).Err? ==> u !in s.accounts[id].users
  {
    hide Account.WellFormed, Exact;
    forall u | AccountOf(s, s.userIdx, u).Err? ensures u !in s.accounts[id].users {
      UnindexedUser(s, u);
      if u in s.accounts[id].users { HeldUser(s, id, u); assert false; }
    }
  }

  lemma OldAccountSucceeds(s: StoreState, a: Account, b: Account)
    requires OldAccountShape(s, a, b)
    requires forall u :: AccountOf(s, s.userIdx, u).Err? ==> u !in a.users
    ensures Successor(a, b)
  {
    if b.users != a.users {
      var u :| OneUser(s, a, b, u);
    }
  }

  /** Joining a domain's account never overwrites an existing user: the user was in no account. */
  lemma AccountOpsSucceed(s: StoreState, op: Op)
    requires Agree(s) && Enabled(s, op) && Disciplined(s, op) && IsAccountOp(op)
    ensures ChangeSucceeds(s, ChangeOf(s, op))
  {
    hide Account.WellFormed, Exact, Agree, Successor, ChangeOf;
    assert s.WellFormed() by { StoreOfAgree(s); }
    AccountOpShape(s, op);
    var c := ChangeOf(s, op);
    if !c.NoChange? && c.a.id in s.accounts {
      UnknownUserNotIn(s, c.a.id);
      OldAccountSucceeds(s, s.accounts[c.a.id], c.a);
    }
  }

  lemma KeyOpsSucceed(s: StoreState, op: Op)
    requires Agree(s) && Enabled(s, op) && IsKeyOp(op)
    ensures ChangeSucceeds(s, ChangeOf(s, op))
  {
    hide Account.WellFormed, Exact, ChangeOf;
    KeyOpShape(s, op);
    HeldIsIndexed(s);
  }

  lemma PeerOpsSucceed(s: StoreState, op: Op)
    requires s.WellFormed() && Enabled(s, op) && Disciplined(s, op) && IsPeerOp(op)
    ensures ChangeSucceeds(s, ChangeOf(s, op))
  {
    hide Account.WellFormed, Upper, FreeIps, ChangeOf;
    if op.AddPeerOp? {
      AddPeerShape(s, op);
    } else if op.DeletePeerOp? {
      DeletePeerShape(s, op);
    } else {
      InPlaceOpShape(s, op);
    }
  }

  lemma GroupAndRuleOpsSucceed(s: StoreState, op: Op)
    requires s.WellFormed() && Enabled(s, op) && IsGroupOrRuleOp(op)
    ensures ChangeSucceeds(s, ChangeOf(s, op))
  {
    hide Account.WellFormed, ChangeOf;
    GroupOrRuleOpShape(s, op);
  }

  lemma SucceedsSelf(s: StoreState)
    ensures forall id :: id in s.accounts ==> Successor(s.accounts[id], s.accounts[id])
  {
  }

  lemma AddAllSucceeds(a: Account, p: AllPick)
    ensures Successor(a, AddAllGroup(a, p.groupId, p.ruleId, p.peers))
  {
  }

  lemma {:induction false} BuildManagerSucceeds(s: StoreState, saves: seq<string>, picks: map<string, AllPick>)
    requires s.WellFormed() && forall id :: id in saves ==> id in s.accounts && id in picks
    ensures Succeeds(s, BuildManager(s, saves, picks))
    decreases saves
  {
    hide Account.WellFormed, BuildOne, Successor;
    SucceedsSelf(s);
    if saves != [] {
      var t := BuildOne(s, saves[0], picks[saves[0]]);
      AddAllSucceeds(s.accounts[saves[0]], picks[saves[0]]);
      BuildOneWellFormed(s, saves[0], picks[saves[0]]);
      hide AddAllGroup;
      BuildManagerSucceeds(t, saves[1..], picks);
      SucceedsTransitive(s, t, BuildManager(s, saves, picks));
    }
  }

  /** No operation and no restart removes an account or a user, changes a role, changes an account's
      creator or network, or gives a setup key more validity than it had. */
  lemma StepSucceeds(s: StoreState, op: Op)
    requires Agree(s) && Enabled(s, op) && Disciplined(s, op)
    ensures Succeeds(s, Step(s, op))
  {
    hide Account.WellFormed, StoreState.WellFormed, Exact, Successor, Apply, Restart, ChangeOf, Enabled, Disciplined;
    hide Succeeds;
    StoreOfAgree(s);
    if op.RestartOp? {
      RestartSucceeds(s, op);
    } else {
      if IsAccountOp(op) {
        AccountOpsSucceed(s, op);
      } else if IsKeyOp(op) {
        KeyOpsSucceed(s, op);
      } else if IsPeerOp(op) {
        PeerOpsSucceed(s, op);
      } else {
        GroupAndRuleOpsSucceed(s, op);
      }
      ApplySucceeds(s, ChangeOf(s, op));
    }
  }

  lemma RestartSucceeds(s: StoreState, op: Op)
    requires s.WellFormed() && Enabled(s, op) && op.RestartOp?
    ensures Succeeds(s, Step(s, op))
  {
    hide Account.WellFormed, RestoreFrom, Successor, BuildManager;
    BuildManagerSucceeds(Restore(s.accounts, op.order), op.saves, op.picks);
  }

  // ----- use of setup keys -----

  /** A successful AddPeer made with the (upper-cased) key `k`. */
  ghost predicate UsesKey(s: StoreState, op: Op, k: string) {
    && op.AddPeerOp? && Enabled(s, op) && k != "" && Upper(op.setupKey) == k
    && AddPeer(s, op.setupKey, op.userId, op.req, op.now, op.ip, op.gid).result.Ok?
  }

  /** How often the store says the key has been used; 0 for a key no account has. */
  function UseCount(s: StoreState, k: string): nat {
    if k in s.setupKeyIdx && s.setupKeyIdx[k] in s.accounts && k in s.accounts[s.setupKeyIdx[k]].setupKeys
    then s.accounts[s.setupKeyIdx[k]].setupKeys[k].usedTimes else 0
  }

  lemma KeyInIndex(s: StoreState, k: string)
    requires Agree(s)
    ensures k in s.setupKeyIdx ==>
      s.setupKeyIdx[k] in s.accounts && k in s.accounts[s.setupKeyIdx[k]].setupKeys
  {
    hide Account.WellFormed;
    if k in s.setupKeyIdx { assert k in KeysHeld(s)[s.setupKeyIdx[k]]; }
  }

  lemma UseCountIn(s: StoreState, id: string, k: string)
    requires Agree(s) && id in s.accounts
    ensures k in s.accounts[id].setupKeys ==> UseCount(s, k) == s.accounts[id].setupKeys[k].usedTimes
  {
    hide Account.WellFormed, Exact;
    if k in s.accounts[id].setupKeys { HeldKey(s, id, k); }
  }

  /** Counts in `after` are those of `before` (0 for a new key), one more for the keys in `used`. */
  ghost predicate CountsUse(before: map<string, SetupKey>, after: map<string, SetupKey>, used: set<string>) {
    forall k :: k in after ==>
      after[k].usedTimes == (if k in before then before[k].usedTimes else 0) + (if k in used then 1 else 0)
  }

  function KeysBefore(s: StoreState, id: string): map<string, SetupKey> {
    if id in s.accounts then s.accounts[id].setupKeys else map[]
  }

  ghost predicate ChangeCounts(s: StoreState, c: Change, used: set<string>) {
    !c.NoChange? ==> CountsUse(KeysBefore(s, c.a.id), c.a.setupKeys, used)
  }

  /** The key a step uses, if any. */
  ghost function Used(s: StoreState, op: Op): set<string>
    requires Enabled(s, op)
  {
    if op.AddPeerOp? && UsesKey(s, op, Upper(op.setupKey)) then {Upper(op.setupKey)} else {}
  }

  lemma PeerOpsCount(s: StoreState, op: Op)
    requires s.WellFormed() && Enabled(s, op) && Disciplined(s, op) && IsPeerOp(op)
    ensures ChangeCounts(s, ChangeOf(s, op), Used(s, op))
  {
    hide Account.WellFormed, FreeIps, Upper, ChangeOf, AddPeer;
    if op.AddPeerOp? {
      AddPeerShape(s, op);
    } else if op.DeletePeerOp? {
      DeletePeerShape(s, op);
    } else {
      InPlaceOpShape(s, op);
    }
  }

  lemma OtherOpsCount(s: StoreState, op: Op)
    requires Agree(s) && Enabled(s, op) && Disciplined(s, op) && !op.RestartOp? && !IsPeerOp(op)
    ensures ChangeCounts(s, ChangeOf(s, op), {})
  {
    hide Account.WellFormed, Exact, ChangeOf;
    HeldIsIndexed(s);
    if IsAccountOp(op) {
      AccountOpShape(s, op);
    } else if IsKeyOp(op) {
      KeyOpShape(s, op);
    } else {
      GroupOrRuleOpShape(s, op);
    }
  }

  lemma OpCounts(s: StoreState, op: Op)
    requires Agree(s) && Enabled(s, op) && Disciplined(s, op) && !op.RestartOp?
    ensures ChangeCounts(s, ChangeOf(s, op), Used(s, op))
  {
    hide Account.WellFormed, Exact, ChangeCounts, ChangeOf;
    if IsPeerOp(op) { PeerOpsCount(s, op); } else { OtherOpsCount(s, op); }
  }

  /** A used key belongs to the account the change saves. */
  lemma UsedKeyIsSaved(s: StoreState, op: Op)
    requires s.WellFormed() && Enabled(s, op) && !op.RestartOp?
    ensures forall k :: k in Used(s, op) ==> !ChangeOf(s, op).NoChange? && k in ChangeOf(s, op).a.setupKeys
  {
    hide Account.WellFormed, FreeIps, Upper, ChangeOf, AddPeer;
    if op.AddPeerOp? { AddPeerShape(s, op); }
  }

  lemma ChangedAccounts(s: StoreState, c: Change)
    ensures Apply(s, c).accounts == if c.NoChange? then s.accounts else s.accounts[c.a.id := c.a]
    ensures c.NoChange? ==> Apply(s, c) == s
  {
  }

  lemma {:induction false} BuildManagerKeys(s: StoreState, saves: seq<string>, picks: map<string, AllPick>)
    requires s.WellFormed() && forall id :: id in saves ==> id in s.accounts && id in picks
    ensures var t := BuildManager(s, saves, picks);
      && t.accounts.Keys == s.accounts.Keys
      && forall id :: id in s.accounts ==> t.accounts[id].setupKeys == s.accounts[id].setupKeys
    decreases saves
  {
    hide Account.WellFormed, BuildOne;
    if saves != [] {
      BuildOneWellFormed(s, saves[0], picks[saves[0]]);
      BuildManagerKeys(BuildOne(s, saves[0], picks[saves[0]]), saves[1..], picks);
    }
  }

  lemma RestartCounts(s: StoreState, order: seq<string>, saves: seq<string>, picks: map<string, AllPick>, k: string)
    requires Agree(s) && RestartPicks(s, order, saves, picks)
    ensures UseCount(Restart(s, order, saves, picks), k) == UseCount(s, k)
  {
    hide Account.WellFormed, Exact;
    var t := Restart(s, order, saves, picks);
    RestartAgrees(s, order, saves, picks);
    BuildManagerKeys(Restore(s.accounts, order), saves, picks);
    hide Restart, Agree;
    KeyInIndex(s, k);
    KeyInIndex(t, k);
    if k in s.setupKeyIdx { UseCountIn(s, s.setupKeyIdx[k], k); UseCountIn(t, s.setupKeyIdx[k], k); }
    if k in t.setupKeyIdx { UseCountIn(s, t.setupKeyIdx[k], k); UseCountIn(t, t.setupKeyIdx[k], k); }
  }

  /** What the counts of a saved account say about the store. */
  lemma CountsAfter(s: StoreState, t: StoreState, a: Account, used: set<string>, k: string)
    requires Agree(s) && Agree(t) && t.accounts == s.accounts[a.id := a]
    requires a.id in s.accounts ==> s.accounts[a.id].setupKeys.Keys <= a.setupKeys.Keys
    requires CountsUse(KeysBefore(s, a.id), a.setupKeys, used) && used <= a.setupKeys.Keys
    requires forall x :: x in a.setupKeys && x in s.setupKeyIdx ==> s.setupKeyIdx[x] == a.id
    ensures UseCount(t, k) == UseCount(s, k) + if k in used then 1 else 0
  {
    hide Account.WellFormed, Agree;
    KeyInIndex(s, k);
    KeyInIndex(t, k);
    UseCountIn(t, a.id, k);
    if a.id in s.accounts { UseCountIn(s, a.id, k); }
    if k in s.setupKeyIdx { UseCountIn(t, s.setupKeyIdx[k], k); }
    if k in t.setupKeyIdx && t.setupKeyIdx[k] != a.id { UseCountIn(s, t.setupKeyIdx[k], k); }
  }

  lemma SavedKeysAreOwn(s: StoreState, t: StoreState, a: Account)
    requires Agree(s) && Agree(t) && t.accounts == s.accounts[a.id := a]
    ensures forall x :: x in a.setupKeys && x in s.setupKeyIdx ==> s.setupKeyIdx[x] == a.id
  {
    hide Account.WellFormed, Exact;
    forall x | x in a.setupKeys && x in s.setupKeyIdx ensures s.setupKeyIdx[x] == a.id {
      KeyInIndex(s, x);
      HeldKey(t, a.id, x);
      if s.setupKeyIdx[x] != a.id {
        HeldKey(t, s.setupKeyIdx[x], x);
        assert false;
      }
    }
  }

  /** One step changes the use count of a key by one if it uses the key, and not otherwise. */
  lemma StepCounts(s: StoreState, op: Op, k: string)
    requires Agree(s) && Enabled(s, op) && Disciplined(s, op)
    ensures UseCount(Step(s, op), k) == UseCount(s, k) + if k in Used(s, op) then 1 else 0
  {
    hide Account.WellFormed, Exact, Save, ChangeOf;
    if op.RestartOp? {
      RestartCounts(s, op.order, op.saves, op.picks, k);
      return;
    }
    hide Used;
    var c, t := ChangeOf(s, op), Step(s, op);
    StepAgrees(s, op);
    StepSucceeds(s, op);
    OpCounts(s, op);
    UsedKeyIsSaved(s, op);
    ChangedAccounts(s, c);
    hide Apply, Agree;
    if !c.NoChange? {
      SavedKeysAreOwn(s, t, c.a);
      assert c.a.id in s.accounts ==> Successor(s.accounts[c.a.id], t.accounts[c.a.id]);
      CountsAfter(s, t, c.a, Used(s, op), k);
    }
  }
}
