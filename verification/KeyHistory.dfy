/** The life of a setup key, management/server/{setupkey,account}.go: what a key is when it is made, and what every
    operation and every run of operations makes of it. */
module KeyHistory {
  import opened IpAllocation
  import opened Model
  import opened StoreSpec
  import opened ManagerSpec
  import opened Operations
  import opened OperationShapes
  import opened IndexAgreement
  import opened AccountHistory
  import opened Runs

  ghost predicate Stores(s: StoreState, id: string, k: string) {
    id in s.accounts && k in s.accounts[id].setupKeys
  }

  ghost function Stored(s: StoreState, id: string, k: string): SetupKey
    requires Stores(s, id, k)
  {
    s.accounts[id].setupKeys[k]
  }

  // ----- one step -----

  /** A revocation or a renaming of this key: it names the account and the hash of the key, and the key is the one
      picked among those with the hash. */
  ghost predicate Picks(s: StoreState, op: Op, id: string, k: string)
    requires op.RevokeKeyOp? || op.RenameKeyOp?
  {
    op.accountId == id && op.pick == k && Stores(s, id, k) && Stored(s, id, k).id == op.id
  }

  ghost predicate Revokes(s: StoreState, op: Op, id: string, k: string) {
    op.RevokeKeyOp? && Picks(s, op, id, k)
  }

  ghost predicate Renames(s: StoreState, op: Op, id: string, k: string) {
    op.RenameKeyOp? && Picks(s, op, id, k)
  }

  /** A registration counts and dates the use of its key, a revocation and a renaming write what they say, and
      nothing else touches a key. */
  ghost function KeyAfter(s: StoreState, op: Op, id: string, k: string): SetupKey
    requires Enabled(s, op) && Stores(s, id, k)
  {
    var key := Stored(s, id, k);
    if k in Used(s, op) then key.(usedTimes := key.usedTimes + 1, lastUsed := op.now)
    else if Revokes(s, op, id, k) then key.(revoked := true)
    else if Renames(s, op, id, k) then key.(name := op.name)
    else key
  }

  ghost predicate ChangesKey(s: StoreState, op: Op, c: Change, id: string, k: string)
    requires Enabled(s, op) && Stores(s, id, k)
  {
    if !c.NoChange? && c.a.id == id then k in c.a.setupKeys && c.a.setupKeys[k] == KeyAfter(s, op, id, k)
    else KeyAfter(s, op, id, k) == Stored(s, id, k)
  }

  lemma AddPeerChangesKey(s: StoreState, op: Op, id: string, k: string)
    requires Agree(s) && Enabled(s, op) && op.AddPeerOp? && Stores(s, id, k)
    ensures ChangesKey(s, op, ChangeOf(s, op), id, k)
  {
    hide Account.WellFormed, Exact, FreeIps, Upper, ChangeOf, AddPeer, Agree, AppendToGroup, LocateForAdd;
    StoreOfAgree(s);
    AddPeerShape(s, op);
    HeldKey(s, id, k);
    var c := ChangeOf(s, op);
    if k in Used(s, op) { HeldKey(s, c.a.id, k); }
  }

  ghost predicate KeepsKeys(s: StoreState, c: Change) {
    !c.NoChange? ==> c.a.id in s.accounts && c.a.setupKeys == s.accounts[c.a.id].setupKeys
  }

  lemma RewritesKeepKeys(s: StoreState, op: Op)
    requires s.WellFormed() && Enabled(s, op) && Disciplined(s, op)
    requires op.DeletePeerOp? || IsInPlaceOp(op) || IsGroupOrRuleOp(op)
    ensures KeepsKeys(s, ChangeOf(s, op))
  {
    hide Account.WellFormed, StoreState.WellFormed, ChangeOf, Enabled, Disciplined, Lists;
    if op.DeletePeerOp? {
      DeletePeerShape(s, op);
    } else if IsInPlaceOp(op) {
      InPlaceOpShape(s, op);
    } else {
      GroupOrRuleOpShape(s, op);
    }
  }

  lemma KeptIsNotChanged(s: StoreState, op: Op, id: string, k: string)
    requires Enabled(s, op) && Stores(s, id, k) && !op.AddPeerOp? && !IsKeyOp(op) && !op.RestartOp?
    requires KeepsKeys(s, ChangeOf(s, op))
    ensures ChangesKey(s, op, ChangeOf(s, op), id, k)
  {
    hide ChangeOf, Enabled;
  }

  lemma AccountOpKeepsKeys(s: StoreState, op: Op, id: string, k: string)
    requires s.WellFormed() && Enabled(s, op) && Disciplined(s, op) && IsAccountOp(op) && Stores(s, id, k)
    ensures ChangesKey(s, op, ChangeOf(s, op), id, k)
  {
    hide Account.WellFormed, ChangeOf, NewAccountShape;
    AccountOpShape(s, op);
  }

  lemma AddKeyChangesKey(s: StoreState, op: Op, id: string, k: string)
    requires Agree(s) && Enabled(s, op) && op.AddSetupKeyOp? && Stores(s, id, k)
    ensures ChangesKey(s, op, ChangeOf(s, op), id, k)
  {
    hide Account.WellFormed, Exact, Upper;
    StoreOfAgree(s);
    HeldKey(s, id, k);
  }

  lemma PickChangesKey(s: StoreState, op: Op, id: string, k: string)
    requires s.WellFormed() && Enabled(s, op) && (op.RevokeKeyOp? || op.RenameKeyOp?) && Stores(s, id, k)
    ensures ChangesKey(s, op, ChangeOf(s, op), id, k)
  {
    hide Account.WellFormed;
    if op.accountId in s.accounts { SetupKeysKeyed(s.accounts[op.accountId]); }
  }

  lemma OpChangesKey(s: StoreState, op: Op, id: string, k: string)
    requires Agree(s) && Enabled(s, op) && Disciplined(s, op) && !op.RestartOp? && Stores(s, id, k)
    ensures ChangesKey(s, op, ChangeOf(s, op), id, k)
  {
    hide Account.WellFormed, StoreState.WellFormed, Exact, ChangesKey, ChangeOf, Enabled, Disciplined, Agree, Stores;
    StoreOfAgree(s);
    if op.AddPeerOp? {
      AddPeerChangesKey(s, op, id, k);
    } else if op.AddSetupKeyOp? {
      AddKeyChangesKey(s, op, id, k);
    } else if op.RevokeKeyOp? || op.RenameKeyOp? {
      PickChangesKey(s, op, id, k);
    } else if IsAccountOp(op) {
      AccountOpKeepsKeys(s, op, id, k);
    } else {
      RewritesKeepKeys(s, op);
      KeptIsNotChanged(s, op, id, k);
    }
  }

  /** What a step, also a restart, makes of a key. */
  lemma StepChangesKey(s: StoreState, op: Op, id: string, k: string)
    requires Agree(s) && Enabled(s, op) && Disciplined(s, op) && Stores(s, id, k)
    ensures Stores(Step(s, op), id, k) && Stored(Step(s, op), id, k) == KeyAfter(s, op, id, k)
  {
    hide Account.WellFormed, Exact, Save, ChangeOf, Enabled, Disciplined, Agree;
    StoreOfAgree(s);
    if op.RestartOp? {
      RestartKeepsKeys(s, op);
    } else {
      OpChangesKey(s, op, id, k);
      ChangedAccounts(s, ChangeOf(s, op));
    }
  }

  lemma RestartKeepsKeys(s: StoreState, op: Op)
    requires s.WellFormed() && Enabled(s, op) && op.RestartOp?
    ensures Step(s, op).accounts.Keys == s.accounts.Keys
    ensures forall id :: id in s.accounts ==> Step(s, op).accounts[id].setupKeys == s.accounts[id].setupKeys
  {
    hide Account.WellFormed, RestoreFrom, BuildManager;
    BuildManagerKeys(Restore(s.accounts, op.order), op.saves, op.picks);
  }

  // ----- new keys -----

  /** The step brings in the account. */
  ghost predicate MakesAccount(s: StoreState, op: Op, id: string)
    requires s.WellFormed() && Enabled(s, op)
  {
    id !in s.accounts && id in Step(s, op).accounts
  }

  /** DefaultSetupKeyDuration: thirty days, in seconds. */
  const THIRTY_DAYS := 2_592_000

  function NewKey(id: string, k: string, name: string, typ: KeyType, now: int, seconds: int): SetupKey {
    SetupKey(id, k, name, typ, now, now + seconds, false, 0, 0)
  }

  /** The step makes the key `key` of account `id` under the name `k`: AddSetupKey makes the one it is asked for, and
      an account starts with a reusable key and a one-off key, both for thirty days. */
  ghost predicate Makes(s: StoreState, op: Op, id: string, k: string, key: SetupKey)
    requires s.WellFormed() && Enabled(s, op)
  {
    || (op.AddSetupKeyOp? && id == op.accountId && id in s.accounts && k == Upper(op.newKey)
        && key == NewKey(op.id, k, op.name, op.typ, op.now, op.validFor))
    || (MakesAccount(s, op, id) && IsAccountOp(op)
        && ((k == Upper(op.f.defaultKey)
             && key == NewKey(op.f.defaultKeyId, k, "Default key", Reusable, op.now, THIRTY_DAYS))
            || (k == Upper(op.f.oneOffKey)
                && key == NewKey(op.f.oneOffKeyId, k, "One-off key", OneOff, op.now, THIRTY_DAYS))))
  }

  /** The keys of a generated account. */
  function StartingKeys(f: Fresh, now: int): map<string, SetupKey> {
    var k, l := Upper(f.defaultKey), Upper(f.oneOffKey);
    map[k := NewKey(f.defaultKeyId, k, "Default key", Reusable, now, THIRTY_DAYS),
        l := NewKey(f.oneOffKeyId, l, "One-off key", OneOff, now, THIRTY_DAYS)]
  }

  ghost predicate StartsWithKeys(s: StoreState, c: Change, f: Fresh, now: int) {
    !c.NoChange? && c.a.id !in s.accounts ==> c.a.setupKeys == StartingKeys(f, now)
  }

  lemma GeneratedKeys(f: Fresh, id: string, u: string, d: string, now: int)
    ensures NewAccountWithId(f, id, u, d, now).setupKeys == StartingKeys(f, now)
  {
    hide Upper;
  }

  lemma GetOrCreateKeys(s: StoreState, u: string, d: string, f: Fresh, now: int)
    requires s.WellFormed()
    ensures StartsWithKeys(s, GetOrCreateAccountByUser(s, u, d, f, now).change, f, now)
  {
    hide Account.WellFormed, NewAccountWithId, Lower, StartingKeys;
    GeneratedKeys(f, f.accountId, u, Lower(d), now);
  }

  lemma PrivateClaimsKeys(s: StoreState, claims: Claims, f: Fresh, now: int)
    requires s.WellFormed()
    ensures StartsWithKeys(s, PrivateClaims(s, claims, f, now).change, f, now)
  {
    hide Account.WellFormed, NewAccountWithId, Lower, StartingKeys;
    GeneratedKeys(f, f.accountId, claims.userId, Lower(claims.domain), now);
  }

  lemma AddAccountKeys(s: StoreState, id: string, u: string, d: string, f: Fresh, now: int)
    ensures StartsWithKeys(s, AddAccount(s, id, u, d, f, now).change, f, now)
  {
    hide NewAccountWithId, StartingKeys;
    GeneratedKeys(f, id, u, d, now);
  }

  lemma AccountOpKeys(s: StoreState, op: Op)
    requires s.WellFormed() && Enabled(s, op) && IsAccountOp(op)
    ensures StartsWithKeys(s, ChangeOf(s, op), op.f, op.now)
  {
    hide StoreState.WellFormed, GetOrCreateAccountByUser, PrivateClaims, AddAccount, StartsWithKeys;
    match op
    case GetOrCreateOp(u, d, f, now) => GetOrCreateKeys(s, u, d, f, now);
    case ClaimsOp(claims, f, now) =>
      GetOrCreateKeys(s, claims.userId, claims.domain, f, now);
      PrivateClaimsKeys(s, claims, f, now);
      NothingStarts(s, f, now);
    case AddAccountOp(id, u, d, f, now) => AddAccountKeys(s, id, u, d, f, now);
  }

  lemma NothingStarts(s: StoreState, f: Fresh, now: int)
    ensures StartsWithKeys(s, NoChange, f, now)
  {
  }

  /** What a change does to the names under which keys are stored. */
  ghost predicate NamesAfter(s: StoreState, op: Op, c: Change) {
    !c.NoChange? ==>
      if c.a.id !in s.accounts then IsAccountOp(op) && c.a.setupKeys == StartingKeys(op.f, op.now)
      else if op.AddSetupKeyOp? then
        && c.a.id == op.accountId
        && c.a.setupKeys == s.accounts[c.a.id].setupKeys[Upper(op.newKey) :=
                              NewKey(op.id, Upper(op.newKey), op.name, op.typ, op.now, op.validFor)]
      else c.a.setupKeys.Keys == s.accounts[c.a.id].setupKeys.Keys
  }

  lemma OpNames(s: StoreState, op: Op)
    requires s.WellFormed() && Enabled(s, op) && Disciplined(s, op) && !op.RestartOp?
    ensures NamesAfter(s, op, ChangeOf(s, op))
  {
    hide StoreState.WellFormed, ChangeOf, Enabled, Disciplined, StartingKeys, FreeIps, Upper, NewAccountShape;
    hide NamesAfter, LocateForAdd;
    if op.AddPeerOp? {
      AddPeerNames(s, op);
    } else if IsKeyOp(op) {
      KeyOpNames(s, op);
    } else if IsAccountOp(op) {
      AccountOpNames(s, op);
    } else {
      RewritesKeepKeys(s, op);
      KeptNames(s, op, ChangeOf(s, op));
    }
  }

  lemma KeptNames(s: StoreState, op: Op, c: Change)
    requires KeepsKeys(s, c) && !op.AddSetupKeyOp?
    ensures NamesAfter(s, op, c)
  {
  }

  lemma AddPeerNames(s: StoreState, op: Op)
    requires s.WellFormed() && Enabled(s, op) && op.AddPeerOp?
    ensures NamesAfter(s, op, ChangeOf(s, op))
  {
    hide StoreState.WellFormed, ChangeOf, Enabled, FreeIps, Upper, LocateForAdd, AppendToGroup;
    AddPeerShape(s, op);
  }

  lemma KeyOpNames(s: StoreState, op: Op)
    requires s.WellFormed() && Enabled(s, op) && IsKeyOp(op)
    ensures NamesAfter(s, op, ChangeOf(s, op))
  {
    hide Account.WellFormed, Upper;
    if !op.AddSetupKeyOp? && op.accountId in s.accounts { SetupKeysKeyed(s.accounts[op.accountId]); }
  }

  lemma AccountOpNames(s: StoreState, op: Op)
    requires s.WellFormed() && Enabled(s, op) && Disciplined(s, op) && IsAccountOp(op)
    ensures NamesAfter(s, op, ChangeOf(s, op))
  {
    hide StoreState.WellFormed, ChangeOf, Enabled, Disciplined, StartingKeys, NewAccountShape;
    AccountOpShape(s, op);
    AccountOpKeys(s, op);
  }

  /** A key comes into an account exactly by being made there, and then it is the key that was asked for. */
  lemma KeysAreMadeExactly(s: StoreState, op: Op, id: string, k: string)
    requires Agree(s) && Enabled(s, op) && Disciplined(s, op)
    ensures Stores(Step(s, op), id, k) && !Stores(s, id, k) ==> Makes(s, op, id, k, Stored(Step(s, op), id, k))
    ensures forall key :: Makes(s, op, id, k, key) ==>
      !Stores(s, id, k) && Stores(Step(s, op), id, k) && Stored(Step(s, op), id, k) == key
  {
    hide StoreState.WellFormed, Save, ChangeOf, Enabled, Disciplined, Agree, Upper, Makes, Step, Stores, Stored;
    StoreOfAgree(s);
    NewKeyIsMade(s, op, id, k);
    forall key | Makes(s, op, id, k, key)
      ensures !Stores(s, id, k) && Stores(Step(s, op), id, k) && Stored(Step(s, op), id, k) == key
    {
      MadeKeyIsStored(s, op, id, k, key);
    }
  }

  lemma NewKeyIsMade(s: StoreState, op: Op, id: string, k: string)
    requires s.WellFormed() && Enabled(s, op) && Disciplined(s, op)
    ensures Stores(Step(s, op), id, k) && !Stores(s, id, k) ==> Makes(s, op, id, k, Stored(Step(s, op), id, k))
  {
    hide StoreState.WellFormed, Save, ChangeOf, Enabled, Disciplined, Upper, Apply;
    if op.RestartOp? {
      RestartKeepsKeys(s, op);
    } else {
      OpNames(s, op);
      ChangedAccounts(s, ChangeOf(s, op));
    }
  }

  lemma MadeKeyIsStored(s: StoreState, op: Op, id: string, k: string, key: SetupKey)
    requires Agree(s) && s.WellFormed() && Enabled(s, op) && Disciplined(s, op) && Makes(s, op, id, k, key)
    ensures !Stores(s, id, k) && Stores(Step(s, op), id, k) && Stored(Step(s, op), id, k) == key
  {
    hide StoreState.WellFormed, Save, ChangeOf, Enabled, Disciplined, Agree, Upper, Apply;
    OpNames(s, op);
    ChangedAccounts(s, ChangeOf(s, op));
    if op.AddSetupKeyOp? { AddedKeyIsNew(s, op); } else { TwoKeys(s, op); }
  }

  lemma AddedKeyIsNew(s: StoreState, op: Op)
    requires Agree(s) && Enabled(s, op) && op.AddSetupKeyOp?
    ensures op.accountId in s.accounts ==>
      Upper(op.newKey) !in s.accounts[op.accountId].setupKeys && !ChangeOf(s, op).NoChange?
  {
    hide Account.WellFormed, Exact, Upper;
    if Stores(s, op.accountId, Upper(op.newKey)) { HeldKey(s, op.accountId, Upper(op.newKey)); assert false; }
  }

  lemma TwoKeys(s: StoreState, op: Op)
    requires Enabled(s, op) && IsAccountOp(op)
    ensures Upper(op.f.defaultKey) != Upper(op.f.oneOffKey)
  {
    hide Upper;
  }

  // ----- whole runs -----

  /** The key was revoked by one of the steps from `m` up to `n`. */
  ghost predicate RevokedBetween(states: seq<StoreState>, ops: seq<Op>, m: nat, n: nat, id: string, k: string)
    requires |states| == |ops| + 1 && n <= |ops|
  {
    exists i :: m <= i < n && Revokes(states[i], ops[i], id, k)
  }

  /** The name last given to the key by the steps from `m` up to `n`, or else `name`. */
  ghost function LastName(states: seq<StoreState>, ops: seq<Op>, m: nat, n: nat, id: string, k: string,
                          name: string): string
    requires |states| == |ops| + 1 && m <= n <= |ops|
  {
    if n == m then name
    else if Renames(states[n - 1], ops[n - 1], id, k) then ops[n - 1].name
    else LastName(states, ops, m, n - 1, id, k, name)
  }

  /** When the key was last used in the steps from `m` up to `n`, or else `used`. */
  ghost function LastUse(states: seq<StoreState>, ops: seq<Op>, m: nat, n: nat, k: string, used: int): int
    requires IsRun(states, ops) && m <= n <= |ops|
  {
    if n == m then used
    else
      assert RunStep(states[n - 1], ops[n - 1], states[n]);
      if k in Used(states[n - 1], ops[n - 1]) then ops[n - 1].now else LastUse(states, ops, m, n - 1, k, used)
  }

  /** A key in a run, from one moment to a later one: it is revoked if it was or a revocation has picked it since,
      its use has gone up by the registrations made with it, its name and the time of its last use are the last
      ones given, and everything else of it stays. */
  lemma {:induction false} KeyInRun(states: seq<StoreState>, ops: seq<Op>, m: nat, n: nat, id: string, k: string)
    requires IsRun(states, ops) && m <= n < |states| && Stores(states[m], id, k)
    ensures Stores(states[n], id, k)
    ensures var key := Stored(states[m], id, k);
      Stored(states[n], id, k) == key.(
        revoked := key.revoked || RevokedBetween(states, ops, m, n, id, k),
        usedTimes := Uses(states, ops, k, n),
        lastUsed := LastUse(states, ops, m, n, k, key.lastUsed),
        name := LastName(states, ops, m, n, id, k, key.name))
  {
    hide Agree, Enabled, Disciplined, Used, Step, StoreState.WellFormed, Revokes, Renames;
    if n > m {
      var s, op := states[n - 1], ops[n - 1];
      KeyInRun(states, ops, m, n - 1, id, k);
      RunStepAt(states, ops, n - 1);
      RunAgrees(states, ops, n - 1);
      StepChangesKey(s, op, id, k);
      OneKind(s, op, id, k);
      assert RevokedBetween(states, ops, m, n, id, k) <==>
        RevokedBetween(states, ops, m, n - 1, id, k) || Revokes(s, op, id, k);
    } else {
      RunAgrees(states, ops, n);
      UseCountIsUses(states, ops, k, n);
      UseCountIn(states[n], id, k);
    }
  }

  lemma OneKind(s: StoreState, op: Op, id: string, k: string)
    requires Enabled(s, op)
    ensures k in Used(s, op) ==> !Revokes(s, op, id, k) && !Renames(s, op, id, k)
    ensures !(Revokes(s, op, id, k) && Renames(s, op, id, k))
  {
    hide Enabled;
  }

  /** The number of uses never goes down, and a key in no account has none. */
  lemma {:induction false} UsesGrow(states: seq<StoreState>, ops: seq<Op>, k: string, m: nat, n: nat)
    requires IsRun(states, ops) && m <= n <= |ops|
    ensures Uses(states, ops, k, m) <= Uses(states, ops, k, n)
  {
    hide IsRun, RunStep;
    if m < n { UsesGrow(states, ops, k, m, n - 1); }
  }

  lemma NewKeyUnused(s: StoreState, op: Op, id: string, k: string, key: SetupKey)
    requires s.WellFormed() && Enabled(s, op) && Makes(s, op, id, k, key)
    ensures UseCount(s, k) == 0
  {
    hide StoreState.WellFormed, UseCount, Enabled, MakesAccount, Upper;
    MadeUnderFreshName(s, op);
    UnknownKeyUnused(s, k);
  }

  lemma MadeUnderFreshName(s: StoreState, op: Op)
    requires Enabled(s, op)
    ensures op.AddSetupKeyOp? ==> Upper(op.newKey) !in s.setupKeyIdx
    ensures IsAccountOp(op) ==> Upper(op.f.defaultKey) !in s.setupKeyIdx && Upper(op.f.oneOffKey) !in s.setupKeyIdx
  {
    hide Upper;
  }

  /** The life of a key from the step that makes it: it keeps the type and the expiry it was made with, it is revoked
      exactly when a revocation has picked it, and it is valid at a time up to its expiry unless it was revoked or,
      being one-off, used. A reusable one can be used any number of times. */
  lemma MadeKeyInRun(states: seq<StoreState>, ops: seq<Op>, m: nat, n: nat, id: string, k: string, key: SetupKey,
                     u: int)
    requires IsRun(states, ops) && m < n < |states|
    requires states[m].WellFormed() && Enabled(states[m], ops[m]) && Makes(states[m], ops[m], id, k, key)
    ensures Stores(states[n], id, k)
    ensures var l := Stored(states[n], id, k);
      && l.typ == key.typ && l.createdAt == key.createdAt && l.expiresAt == key.expiresAt
      && l.id == key.id && l.key == k
      && (l.revoked <==> RevokedBetween(states, ops, m + 1, n, id, k))
      && l.usedTimes == Uses(states, ops, k, n)
      && l.name == LastName(states, ops, m + 1, n, id, k, key.name)
      && (l.IsValid(u) <==>
          && u <= key.expiresAt && !RevokedBetween(states, ops, m + 1, n, id, k)
          && (key.typ == OneOff ==> Uses(states, ops, k, n) == 0))
  {
    hide Agree, Enabled, Disciplined, Step, StoreState.WellFormed, RevokedBetween, RunStep, Uses;
    RunStepAt(states, ops, m);
    RunAgrees(states, ops, m);
    KeysAreMadeExactly(states[m], ops[m], id, k);
    KeyInRun(states, ops, m + 1, n, id, k);
  }

  /** A key made one-off registers at most one peer ever: none before it is made, and one after. */
  lemma MadeOneOffUsedOnce(states: seq<StoreState>, ops: seq<Op>, m: nat, n: nat, id: string, k: string, key: SetupKey)
    requires IsRun(states, ops) && m < |ops| && n <= |ops|
    requires states[m].WellFormed() && Enabled(states[m], ops[m]) && Makes(states[m], ops[m], id, k, key)
    ensures n <= m ==> Uses(states, ops, k, n) == 0
    ensures key.typ == OneOff ==> Uses(states, ops, k, n) <= 1
  {
    hide Agree, Enabled, Makes, RunStep, Uses, StoreState.WellFormed, RevokedBetween, UseCount, Stores, Stored;
    if n <= m {
      RunAgrees(states, ops, m);
      NewKeyUnused(states[m], ops[m], id, k, key);
      UseCountIsUses(states, ops, k, m);
      UsesGrow(states, ops, k, n, m);
    } else if key.typ == OneOff {
      MadeKeyInRun(states, ops, m, n, id, k, key, 0);
      OneOffIn(states, ops, n, id, k);
    }
  }

  lemma OneOffIn(states: seq<StoreState>, ops: seq<Op>, n: nat, id: string, k: string)
    requires IsRun(states, ops) && n < |states| && Stores(states[n], id, k) && Stored(states[n], id, k).typ == OneOff
    ensures Uses(states, ops, k, n) <= 1
  {
    hide RunStep;
    OneOffUsedAtMostOnce(states, ops, id, k, n);
  }

  /** Every key there is was made by a step of the run. */
  lemma {:induction false} KeyHasOrigin(states: seq<StoreState>, ops: seq<Op>, n: nat, id: string, k: string)
    returns (m: nat, key: SetupKey)
    requires IsRun(states, ops) && n < |states| && Stores(states[n], id, k)
    ensures m < n && states[m].WellFormed() && Enabled(states[m], ops[m]) && Makes(states[m], ops[m], id, k, key)
  {
    hide Agree, Enabled, Disciplined, Step, StoreState.WellFormed, Makes;
    if n == 0 {
      assert false;
    } else {
      RunStepAt(states, ops, n - 1);
      RunAgrees(states, ops, n - 1);
      if Stores(states[n - 1], id, k) {
        m, key := KeyHasOrigin(states, ops, n - 1, id, k);
      } else {
        m, key := n - 1, Stored(states[n], id, k);
        KeysAreMadeExactly(states[n - 1], ops[n - 1], id, k);
      }
    }
  }
}
