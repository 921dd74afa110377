/** What holds over whole runs of the account manager: every sequence of operations and restarts, from
    the empty store, with every choice that chance, time or map order can make. */
module Runs {
  import opened IpAllocation
  import opened Model
  import opened StoreSpec
  import opened ManagerSpec
  import opened Operations
  import opened OperationShapes
  import opened IndexAgreement
  import opened NetworkMap
  import opened AccountHistory
  import opened Addresses
  import opened PrivateDomains

  /** `states[i]` is the store before the i-th operation. */
  ghost predicate IsRun(states: seq<StoreState>, ops: seq<Op>) {
    && |states| == |ops| + 1
    && states[0] == EMPTY
    && forall i :: 0 <= i < |ops| ==> RunStep(states[i], ops[i], states[i + 1])
  }

  ghost predicate RunStep(s: StoreState, op: Op, t: StoreState) {
    s.WellFormed() && Enabled(s, op) && Disciplined(s, op) && t == Step(s, op)
  }

  lemma RunStepAt(states: seq<StoreState>, ops: seq<Op>, i: nat)
    requires IsRun(states, ops) && i < |ops|
    ensures |states| == |ops| + 1 && states[i].WellFormed()
    ensures Enabled(states[i], ops[i]) && Disciplined(states[i], ops[i]) && states[i + 1] == Step(states[i], ops[i])
  {
    hide StoreState.WellFormed, Enabled, Disciplined, Step;
    assert RunStep(states[i], ops[i], states[i + 1]);
  }

  lemma EmptyAgrees()
    ensures Agree(EMPTY)
  {
  }

  /** In every reachable state a peer key, user id or setup key maps to account `a` exactly when `a` holds
      it; no peer and no user is in two accounts. */
  lemma {:induction false} RunAgrees(states: seq<StoreState>, ops: seq<Op>, n: nat)
    requires IsRun(states, ops) && n < |states|
    ensures Agree(states[n])
  {
    hide Agree, Step, Enabled, Disciplined, StoreState.WellFormed;
    if n == 0 {
      EmptyAgrees();
    } else {
      RunAgrees(states, ops, n - 1);
      RunStepAt(states, ops, n - 1);
      hide IsRun;
      StepAgrees(states[n - 1], ops[n - 1]);
    }
  }

  /** Accounts, users with their roles, creators and networks survive; setup keys only lose validity. */
  lemma {:induction false} RunSucceeds(states: seq<StoreState>, ops: seq<Op>, m: nat, n: nat)
    requires IsRun(states, ops) && m <= n < |states|
    ensures Succeeds(states[m], states[n])
  {
    hide Agree, Step, Enabled, Disciplined, Successor, StoreState.WellFormed;
    if m == n {
      SucceedsSelf(states[m]);
    } else {
      RunSucceeds(states, ops, m, n - 1);
      RunAgrees(states, ops, n - 1);
      RunStepAt(states, ops, n - 1);
      hide IsRun, Succeeds;
      StepSucceeds(states[n - 1], ops[n - 1]);
      SucceedsTransitive(states[m], states[n - 1], states[n]);
    }
  }

  /** A user once in an account is looked up there for ever, with the role first given. */
  lemma MembershipIsStable(states: seq<StoreState>, ops: seq<Op>, m: nat, n: nat, id: string, user: string)
    requires IsRun(states, ops) && m <= n < |states|
    requires id in states[m].accounts && user in states[m].accounts[id].users
    ensures id in states[n].accounts && user in states[n].accounts[id].users
    ensures states[n].accounts[id].users[user] == states[m].accounts[id].users[user]
    ensures user in states[n].userIdx && states[n].userIdx[user] == id
  {
    hide Agree, IsRun;
    RunSucceeds(states, ops, m, n);
    RunAgrees(states, ops, n);
    assert Successor(states[m].accounts[id], states[n].accounts[id]);
    HeldUser(states[n], id, user);
  }

  /** A lookup of the account of `user`: by claims without an account id, or directly. */
  ghost predicate Looks(op: Op, user: string) {
    || (op.ClaimsOp? && op.claims.userId == user && op.claims.accountId == "" && user != "")
    || (op.GetOrCreateOp? && op.userId == user)
  }

  ghost function LookedUp(s: StoreState, op: Op): Result<string>
    requires op.ClaimsOp? || op.GetOrCreateOp?
  {
    match op
    case ClaimsOp(claims, f, now) => AccountWithClaims(s, claims, f, now).result
    case GetOrCreateOp(u, d, f, now) => GetOrCreateAccountByUser(s, u, d, f, now).result
  }

  /** The account that a lookup makes or joins holds the user afterwards; the other lookups change no members. */
  ghost predicate LookupShape(s: StoreState, c: Change, id: string, user: string) {
    if AccountOf(s, s.userIdx, user).Ok? then AccountOf(s, s.userIdx, user) == Ok(id)
    else c.Saved? && c.a.id == id && user in c.a.users
  }

  lemma LookupHasShape(s: StoreState, op: Op, user: string)
    requires s.WellFormed() && Looks(op, user) && Enabled(s, op)
    ensures LookedUp(s, op).Ok? && LookupShape(s, ChangeOf(s, op), LookedUp(s, op).value, user)
  {
    hide GetOrCreateAccountByUser, PrivateClaims, StoreState.WellFormed;
    if op.GetOrCreateOp? {
      GetOrCreateHasShape(s, user, op.domain, op.f, op.now);
    } else {
      GetOrCreateHasShape(s, user, op.claims.domain, op.f, op.now);
      PrivateClaimsHasShape(s, op.claims, op.f, op.now);
    }
  }

  lemma GetOrCreateHasShape(s: StoreState, user: string, domain: string, f: Fresh, now: int)
    ensures var o := GetOrCreateAccountByUser(s, user, domain, f, now);
      o.result.Ok? && LookupShape(s, o.change, o.result.value, user)
  {
    hide Lower, Upper, GenerateSetupKey;
  }

  lemma PrivateClaimsHasShape(s: StoreState, claims: Claims, f: Fresh, now: int)
    requires s.WellFormed()
    ensures var o := PrivateClaims(s, claims, f, now);
      o.result.Ok? && LookupShape(s, o.change, o.result.value, claims.userId)
  {
    hide Account.WellFormed, Lower, Upper, GenerateSetupKey;
  }

  lemma FirstLookupIsMember(s: StoreState, op: Op, user: string)
    requires Agree(s) && Enabled(s, op) && Disciplined(s, op) && Looks(op, user)
    ensures LookedUp(s, op).Ok?
    ensures var id, t := LookedUp(s, op).value, Step(s, op); id in t.accounts && user in t.accounts[id].users
  {
    hide Agree, StoreState.WellFormed, Enabled, Disciplined, ChangeOf, LookedUp, Save;
    IsWellFormed(s);
    LookupHasShape(s, op, user);
    var id := LookedUp(s, op).value;
    if AccountOf(s, s.userIdx, user).Ok? {
      UserInIndex(s, user);
      StepSucceeds(s, op);
      assert Successor(s.accounts[id], Step(s, op).accounts[id]);
    } else {
      SavedMember(s, ChangeOf(s, op).a);
    }
  }

  lemma IsWellFormed(s: StoreState)
    requires Agree(s)
    ensures s.WellFormed()
  {
    hide Account.WellFormed, Exact;
  }

  lemma UserInIndex(s: StoreState, user: string)
    requires Agree(s) && AccountOf(s, s.userIdx, user).Ok?
    ensures user in s.accounts[s.userIdx[user]].users
  {
    hide Account.WellFormed;
  }

  lemma SavedMember(s: StoreState, a: Account)
    ensures a.id in Apply(s, Saved(a)).accounts && Apply(s, Saved(a)).accounts[a.id] == a
  {
  }

  /** Private claims with an account id: either nothing changes, or what is done is what the same claims without
      the id do. So it does not matter that the code looks at the account in an earlier critical section. */
  lemma IdInClaimsOnlyChecks(s: StoreState, claims: Claims, f: Fresh, now: int)
    requires claims.domainCategory == PRIVATE_CATEGORY && claims.accountId != ""
    ensures var o := AccountWithClaims(s, claims, f, now);
      o.change.NoChange? || o == AccountWithClaims(s, claims.(accountId := ""), f, now)
  {
    hide Lower, NewAccountWithId;
  }

  lemma KnownUserIsFound(s: StoreState, op: Op, user: string)
    requires Looks(op, user) && AccountOf(s, s.userIdx, user).Ok?
    ensures LookedUp(s, op) == AccountOf(s, s.userIdx, user)
  {
    hide Lower;
  }

  /** Every lookup of a user who is in account `id` leads to `id`. */
  lemma LookupsFindMember(states: seq<StoreState>, ops: seq<Op>, m: nat, n: nat, id: string, user: string, op: Op)
    requires IsRun(states, ops) && m <= n < |states| && Looks(op, user)
    requires id in states[m].accounts && user in states[m].accounts[id].users
    ensures LookedUp(states[n], op) == Ok(id)
  {
    hide IsRun, LookedUp, Looks;
    MembershipIsStable(states, ops, m, n, id, user);
    KnownUserIsFound(states[n], op, user);
  }

  /** From a user's first lookup on, whichever way it came, every lookup of the user leads to the account that
      the first one returned. */
  lemma LookupsReturnFirstAccount(states: seq<StoreState>, ops: seq<Op>, m: nat, n: nat, user: string, op: Op)
    requires IsRun(states, ops) && m < n < |states| && Looks(ops[m], user) && Looks(op, user)
    ensures LookedUp(states[m], ops[m]).Ok? && LookedUp(states[n], op) == LookedUp(states[m], ops[m])
  {
    hide RunStep, LookedUp, Agree, Enabled, Disciplined, Step, StoreState.WellFormed;
    RunStepAt(states, ops, m);
    RunAgrees(states, ops, m);
    FirstLookupIsMember(states[m], ops[m], user);
    LookupsFindMember(states, ops, m + 1, n, LookedUp(states[m], ops[m]).value, user, op);
  }

  /** The user for whom a lookup creates an account is its creator and stays its admin for ever. */
  lemma CreatorStaysAdmin(states: seq<StoreState>, ops: seq<Op>, m: nat, n: nat, user: string)
    requires IsRun(states, ops) && m < n < |states| && Looks(ops[m], user)
    requires LookedUp(states[m], ops[m]) == Ok(ops[m].f.accountId)
    ensures ops[m].f.accountId in states[n].accounts
    ensures var a := states[n].accounts[ops[m].f.accountId];
      a.createdBy == user && user in a.users && a.users[user].role == Admin
  {
    var s, t, op, id := states[m], states[m + 1], ops[m], ops[m].f.accountId;
    RunStepAt(states, ops, m);
    RunAgrees(states, ops, m);
    CreatedAccountHasAdmin(s, op, user);
    RunSucceeds(states, ops, m + 1, n);
    hide IsRun, LookedUp, Looks;
    assert Successor(t.accounts[id], states[n].accounts[id]);
  }

  lemma CreatedAccountHasAdmin(s: StoreState, op: Op, user: string)
    requires Agree(s) && Enabled(s, op) && Looks(op, user) && LookedUp(s, op) == Ok(op.f.accountId)
    ensures CreatedBy(ChangeOf(s, op), op.f.accountId, user)
  {
    hide Agree, CreatedBy, Lower, Upper, GetOrCreateAccountByUser, PrivateClaims;
    if op.GetOrCreateOp? {
      GetOrCreateCreates(s, user, op.domain, op.f, op.now);
    } else if op.claims.domainCategory != PRIVATE_CATEGORY {
      GetOrCreateCreates(s, user, op.claims.domain, op.f, op.now);
    } else {
      PrivateClaimsCreate(s, op.claims, op.f, op.now);
    }
  }

  ghost predicate CreatedBy(c: Change, id: string, user: string) {
    c.Saved? && c.a.id == id && c.a.createdBy == user && user in c.a.users && c.a.users[user].role == Admin
  }

  lemma GetOrCreateCreates(s: StoreState, user: string, domain: string, f: Fresh, now: int)
    requires IsFresh(s, f) && GetOrCreateAccountByUser(s, user, domain, f, now).result == Ok(f.accountId)
    ensures CreatedBy(GetOrCreateAccountByUser(s, user, domain, f, now).change, f.accountId, user)
  {
    hide Lower, Upper;
  }

  lemma PrivateClaimsCreate(s: StoreState, claims: Claims, f: Fresh, now: int)
    requires IsFresh(s, f) && PrivateClaims(s, claims, f, now).result == Ok(f.accountId)
    ensures CreatedBy(PrivateClaims(s, claims, f, now).change, f.accountId, claims.userId)
  {
    hide Lower, Upper;
  }

  // ----- setup keys -----

  /** How many successful AddPeer calls the first `n` operations made with the key `k`. */
  ghost function Uses(states: seq<StoreState>, ops: seq<Op>, k: string, n: nat): nat
    requires IsRun(states, ops) && n <= |ops|
  {
    if n == 0 then 0
    else
      assert RunStep(states[n - 1], ops[n - 1], states[n]);
      Uses(states, ops, k, n - 1) + if k in Used(states[n - 1], ops[n - 1]) then 1 else 0
  }

  /** The stored use count of a key is the number of successful registrations made with it, whatever
      revocations, renames, deletions and restarts come between. */
  lemma {:induction false} UseCountIsUses(states: seq<StoreState>, ops: seq<Op>, k: string, n: nat)
    requires IsRun(states, ops) && n <= |ops|
    ensures UseCount(states[n], k) == Uses(states, ops, k, n)
  {
    hide Agree, Enabled, Disciplined, Used, Step, StoreState.WellFormed;
    if n > 0 {
      UseCountIsUses(states, ops, k, n - 1);
      RunAgrees(states, ops, n - 1);
      RunStepAt(states, ops, n - 1);
      StepCounts(states[n - 1], ops[n - 1], k);
    }
  }

  /** A one-off key registers at most one peer, ever. */
  lemma {:induction false} OneOffUsedAtMostOnce(states: seq<StoreState>, ops: seq<Op>, id: string, k: string, n: nat)
    requires IsRun(states, ops) && n <= |ops|
    requires id in states[n].accounts && k in states[n].accounts[id].setupKeys
    requires states[n].accounts[id].setupKeys[k].typ == OneOff
    ensures Uses(states, ops, k, n) <= 1
  {
    hide Agree, Enabled, Disciplined, Used, Step, StoreState.WellFormed, UseCount, Succeeds;
    if n > 0 {
      var s, t, op := states[n - 1], states[n], ops[n - 1];
      RunStepAt(states, ops, n - 1);
      RunAgrees(states, ops, n - 1);
      RunAgrees(states, ops, n);
      UseCountIsUses(states, ops, k, n - 1);
      RunSucceeds(states, ops, n - 1, n);
      if k in Used(s, op) {
        UsedKeyWasValid(s, op, k);
        OneOffWasFree(s, t, id, k);
      } else if k in s.setupKeyIdx {
        SameKeyBefore(s, t, id, k);
        OneOffUsedAtMostOnce(states, ops, id, k, n - 1);
      } else {
        UnknownKeyUnused(s, k);
      }
    }
  }

  lemma UnknownKeyUnused(s: StoreState, k: string)
    requires k !in s.setupKeyIdx
    ensures UseCount(s, k) == 0
  {
  }

  lemma UsedKeyWasValid(s: StoreState, op: Op, k: string)
    requires s.WellFormed() && Enabled(s, op) && k in Used(s, op)
    ensures k in s.setupKeyIdx && s.setupKeyIdx[k] in s.accounts && k in s.accounts[s.setupKeyIdx[k]].setupKeys
    ensures !s.accounts[s.setupKeyIdx[k]].setupKeys[k].IsOverUsed()
  {
    hide Account.WellFormed, Upper, FreeIps;
    UpperIdempotent(op.setupKey);
  }

  lemma SameKeyBefore(s: StoreState, t: StoreState, id: string, k: string)
    requires Agree(s) && Agree(t) && Succeeds(s, t)
    requires k in s.setupKeyIdx && id in t.accounts && k in t.accounts[id].setupKeys
    ensures s.setupKeyIdx[k] == id && id in s.accounts && k in s.accounts[id].setupKeys
    ensures KeySuccessor(s.accounts[id].setupKeys[k], t.accounts[id].setupKeys[k])
  {
    hide Agree;
    KeyInIndex(s, k);
    var home := s.setupKeyIdx[k];
    assert Successor(s.accounts[home], t.accounts[home]);
    HeldKey(t, home, k);
    HeldKey(t, id, k);
  }

  lemma OneOffWasFree(s: StoreState, t: StoreState, id: string, k: string)
    requires Agree(s) && Agree(t) && Succeeds(s, t) && k in s.setupKeyIdx
    requires id in t.accounts && k in t.accounts[id].setupKeys && t.accounts[id].setupKeys[k].typ == OneOff
    requires s.setupKeyIdx[k] in s.accounts && k in s.accounts[s.setupKeyIdx[k]].setupKeys
    requires !s.accounts[s.setupKeyIdx[k]].setupKeys[k].IsOverUsed()
    ensures UseCount(s, k) == 0
  {
    hide Agree;
    SameKeyBefore(s, t, id, k);
  }

  /** Once a key is invalid it is invalid in every later state and at every later time. */
  lemma InvalidKeyStaysInvalid(states: seq<StoreState>, ops: seq<Op>, m: nat, n: nat, id: string, k: string, t: int,
                               u: int)
    requires IsRun(states, ops) && m <= n < |states| && t <= u
    requires id in states[m].accounts && k in states[m].accounts[id].setupKeys
    requires !states[m].accounts[id].setupKeys[k].IsValid(t)
    ensures id in states[n].accounts && k in states[n].accounts[id].setupKeys
    ensures !states[n].accounts[id].setupKeys[k].IsValid(u)
  {
    hide IsRun;
    RunSucceeds(states, ops, m, n);
    assert Successor(states[m].accounts[id], states[n].accounts[id]);
  }

  // ----- addresses -----

  lemma {:induction false} RunAddresses(states: seq<StoreState>, ops: seq<Op>, n: nat)
    requires IsRun(states, ops) && n < |states|
    ensures AllAddressesOk(states[n])
  {
    hide Agree, Enabled, Disciplined, Step, StoreState.WellFormed, AddressesOk;
    if n > 0 {
      RunAddresses(states, ops, n - 1);
      RunAgrees(states, ops, n - 1);
      RunStepAt(states, ops, n - 1);
      hide IsRun, AllAddressesOk;
      StepAddresses(states[n - 1], ops[n - 1]);
    }
  }

  /** In every reachable state the peers of an account have distinct addresses inside its network; none
      ends in octet 0, and a network of prefix at most 24 never gives out its lowest host or its
      broadcast address. */
  lemma AddressesAreUniqueAndUsable(states: seq<StoreState>, ops: seq<Op>, n: nat, id: string, k: string, l: string)
    requires IsRun(states, ops) && n < |states| && id in states[n].accounts
    requires k in states[n].accounts[id].peers && l in states[n].accounts[id].peers
    ensures var a := states[n].accounts[id]; var net, ip := a.network.net, a.peers[k].ip;
      && (k != l ==> ip != a.peers[l].ip)
      && net.Valid() && Contains(net, AddrOctets(ip)) && ip % 256 != 0 && ip != net.ip
      && (net.prefix <= 24 ==> ip != net.Base() + 1 && ip != net.Base() + net.Size() - 1)
  {
    hide IsRun;
    RunAddresses(states, ops, n);
    var a := states[n].accounts[id];
    assert AddressesOk(a);
    assert a.peers[k].ip in a.TakenIps();
    TakenAddresses(a.network.net, a.TakenIps(), a.peers[k].ip);
    ContainsIsBlockMembership(a.network.net, AddrOctets(a.peers[k].ip));
  }

  /** Over any mix of registrations and deletions, allocation fails exactly at the network's capacity.
      For a prefix p of at most 24 that is 255 * 2^(24 - p) - 2 peers, one less when the network is named by
      an address that does not end in 0. */
  lemma AllocationFailsExactlyAtCapacity(states: seq<StoreState>, ops: seq<Op>, n: nat, op: Op, id: string)
    requires IsRun(states, ops) && n < |states| && op.AddPeerOp? && Enabled(states[n], op)
    requires LocateForAdd(states[n], op.setupKey, op.userId, op.now) == Ok(id)
    ensures id in states[n].accounts
    ensures var a := states[n].accounts[id]; var net := a.network.net;
      && net.Valid() && |a.peers| <= Capacity(net)
      && (AddPeer(states[n], op.setupKey, op.userId, op.req, op.now, op.ip, op.gid).result == Err(OutOfRange)
          <==> |a.peers| == Capacity(net))
      && (net.prefix <= 24 ==>
            Capacity(net) == 255 * IpArithmetic.Pow2(24 - net.prefix) - if net.ip % 256 == 0 then 2 else 3)
  {
    hide IsRun;
    RunAddresses(states, ops, n);
    AddPeerOutOfRangeExactly(states[n], op, id);
    var a := states[n].accounts[id];
    assert AddressesOk(a);
    FullExactlyAtCapacity(a);
    CapacityOfNetwork(a.network.net);
  }

  // ----- domains -----

  lemma {:induction false} RunPrimaries(states: seq<StoreState>, ops: seq<Op>, n: nat)
    requires IsRun(states, ops) && n < |states|
    requires forall i :: 0 <= i < n ==> !MovesPrimary(states[i], ops[i])
    ensures PrimariesIndexed(states[n])
  {
    hide Enabled, Disciplined, MovesPrimary, Step, StoreState.WellFormed;
    if n > 0 {
      RunPrimaries(states, ops, n - 1);
      RunStepAt(states, ops, n - 1);
      hide IsRun, PrimariesIndexed;
      StepPrimariesExactly(states[n - 1], ops[n - 1]);
    }
  }

  /** At most one primary account per private domain. */
  lemma OnePrimaryPerPrivateDomain(states: seq<StoreState>, ops: seq<Op>, n: nat, a: string, b: string)
    requires IsRun(states, ops) && n < |states|
    requires forall i :: 0 <= i < n ==> !MovesPrimary(states[i], ops[i])
    requires a in states[n].accounts && b in states[n].accounts
    requires SharePrimacy(states[n].accounts[a], states[n].accounts[b])
    ensures a == b
  {
    RunPrimaries(states, ops, n);
    OnePrimaryPerDomain(states[n], a, b);
  }

  // ----- access lists -----

  lemma {:induction false} RunCovers(states: seq<StoreState>, ops: seq<Op>, n: nat)
    requires IsRun(states, ops) && n < |states|
    requires forall i :: 0 <= i < n ==> PeersInAll(states[i])
    ensures CoversAll(states[n])
  {
    hide Enabled, Disciplined, Step, StoreState.WellFormed, Agree, Covers, PeersInAll;
    if n > 0 {
      RunCovers(states, ops, n - 1);
      RunAgrees(states, ops, n - 1);
      RunStepAt(states, ops, n - 1);
      hide IsRun, CoversAll;
      CoversAfterStep(states[n - 1], ops[n - 1]);
    }
  }

  lemma CoversAfterStep(s: StoreState, op: Op)
    requires Agree(s) && CoversAll(s) && PeersInAll(s) && Enabled(s, op) && Disciplined(s, op)
    ensures CoversAll(Step(s, op))
  {
    hide Account.WellFormed, Exact, CoversAll, Save;
    if IsInPlaceOp(op) {
      InPlaceCovers(s, op);
    } else {
      StepCovers(s, op);
    }
  }

  lemma InPlaceCovers(s: StoreState, op: Op)
    requires Agree(s) && CoversAll(s) && PeersInAll(s) && Enabled(s, op) && Disciplined(s, op) && IsInPlaceOp(op)
    ensures CoversAll(Step(s, op))
  {
    hide Account.WellFormed, Exact, CoversAll, ChangeOf, Enabled, Disciplined;
    InPlaceOpShape(s, op);
    var c := ChangeOf(s, op);
    if c.InPlace? {
      ListedInAll(s, op, c.a);
      InPlaceSameRules(s, c.a);
    }
  }

  /** A peer that is in the group All already does not have to be put there. */
  lemma ListedInAll(s: StoreState, op: Op, a: Account)
    requires PeersInAll(s) && IsInPlaceOp(op) && Rewrites(s, op.key, a) && Lists(s, op, a)
    ensures a.groups == s.accounts[a.id].groups && a.rules == s.accounts[a.id].rules
  {
    hide Account.AllGroups, AppendToGroup;
  }

  /** In every run whose registered peers stay in the group All, rebuilding the store from its accounts
      gives the same setup-key, peer and user indexes and rule indexes contained in the live ones; and
      the network map of a peer with entries in both rule indexes loses no linked peer. */
  lemma RunRestoresAndLosesNoOne(states: seq<StoreState>, ops: seq<Op>, n: nat, order: seq<string>)
    requires IsRun(states, ops) && n < |states|
    requires forall i :: 0 <= i < n ==> PeersInAll(states[i])
    requires IsListing(order, states[n].accounts.Keys)
    ensures var s, r := states[n], Restore(states[n].accounts, order);
      && r.setupKeyIdx == s.setupKeyIdx && r.peerIdx == s.peerIdx && r.userIdx == s.userIdx
      && (forall src, p :: p in Idx(r, src) ==> p in Idx(s, src) && Idx(r, src)[p] <= Idx(s, src)[p])
    ensures forall id, k :: id in states[n].accounts && k in states[n].srcRules && k in states[n].dstRules ==>
      Visible(states[n].accounts[id], k) <= NetworkMapKeys(states[n], id, k)
  {
    hide IsRun, Visible, NetworkMapKeys, Covers, RestoreFrom;
    RunCovers(states, ops, n);
    RunAgrees(states, ops, n);
    RestoreRefinesLiveStore(states[n], order);
    var s := states[n];
    forall id, k | id in s.accounts && k in s.srcRules && k in s.dstRules
      ensures Visible(s.accounts[id], k) <= NetworkMapKeys(s, id, k)
    {
      NetworkMapLosesNoOne(s, id, k);
    }
  }
}
