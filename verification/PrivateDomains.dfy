/** Accounts that are primary for a private domain: how far the domain index keeps them unique. */
module PrivateDomains {
  import opened IpAllocation
  import opened Model
  import opened StoreSpec
  import opened ManagerSpec
  import opened Operations
  import opened OperationShapes
  import opened IndexAgreement

  /** Every private primary account is the one the index names for its domain. */
  ghost predicate PrimariesIndexed(s: StoreState) {
    forall id :: id in s.accounts && s.accounts[id].PrivatePrimary() ==>
      s.accounts[id].domain in s.domainIdx && s.domainIdx[s.accounts[id].domain] == id
  }

  lemma OnePrimaryPerDomain(s: StoreState, a: string, b: string)
    requires PrimariesIndexed(s) && a in s.accounts && b in s.accounts
    requires s.accounts[a].PrivatePrimary() && s.accounts[b].PrivatePrimary()
    requires s.accounts[a].domain == s.accounts[b].domain
    ensures a == b
  {
  }

  /** The index names another account for the domain, and that account is still its private primary. */
  predicate TakenByOther(s: StoreState, domain: string, id: string) {
    domain in s.domainIdx && s.domainIdx[domain] != id && s.domainIdx[domain] in s.accounts &&
    var other := s.accounts[s.domainIdx[domain]];
    other.PrivatePrimary() && other.domain == domain
  }

  lemma SavedPrimary(s: StoreState, a: Account)
    ensures Save(s, a).accounts == s.accounts[a.id := a]
    ensures Save(s, a).domainIdx == if a.PrivatePrimary() then s.domainIdx[a.domain := a.id] else s.domainIdx
  {
  }

  /** Saving an account keeps the index right exactly when the account is not primary for a domain that
      another account is primary for. */
  lemma SavePrimariesExactly(s: StoreState, a: Account)
    requires PrimariesIndexed(s)
    ensures PrimariesIndexed(Save(s, a)) <==> !(a.PrivatePrimary() && TakenByOther(s, a.domain, a.id))
  {
    hide Save;
    var t := Save(s, a);
    SavedPrimary(s, a);
    if a.PrivatePrimary() && TakenByOther(s, a.domain, a.id) {
      var b := s.domainIdx[a.domain];
      assert b in t.accounts && t.accounts[b].PrivatePrimary() && t.domainIdx[t.accounts[b].domain] == a.id;
    }
  }

  predicate SameDomain(a: Account, b: Account) {
    a.domain == b.domain && a.domainCategory == b.domainCategory && a.isPrimary == b.isPrimary
  }

  lemma SameDomainNotTaken(s: StoreState, a: Account)
    requires PrimariesIndexed(s) && a.id in s.accounts && SameDomain(s.accounts[a.id], a)
    ensures !(a.PrivatePrimary() && TakenByOther(s, a.domain, a.id))
  {
  }

  ghost predicate DomainKept(s: StoreState, c: Change) {
    !c.NoChange? ==> c.a.id in s.accounts && SameDomain(s.accounts[c.a.id], c.a)
  }

  lemma KeptDomainPrimaries(s: StoreState, c: Change)
    requires PrimariesIndexed(s) && DomainKept(s, c)
    ensures PrimariesIndexed(Apply(s, c))
  {
    hide Save;
    match c
    case NoChange =>
    case Saved(a) => SameDomainNotTaken(s, a); SavePrimariesExactly(s, a);
    case SavedWithoutPeer(a, key) =>
      var mid := s.(peerIdx := s.peerIdx - {key});
      SameDomainNotTaken(mid, a);
      SavePrimariesExactly(mid, a);
    case InPlace(a) =>
  }

  lemma OtherOpsKeepDomain(s: StoreState, op: Op)
    requires s.WellFormed() && Enabled(s, op) && Disciplined(s, op) && !op.RestartOp? && !IsAccountOp(op)
    ensures DomainKept(s, ChangeOf(s, op))
  {
    hide Account.WellFormed, FreeIps, Upper, ChangeOf;
    if op.AddPeerOp? {
      AddPeerShape(s, op);
    } else if op.DeletePeerOp? {
      DeletePeerShape(s, op);
    } else if IsInPlaceOp(op) {
      InPlaceOpShape(s, op);
    } else if IsKeyOp(op) {
      KeyOpShape(s, op);
    } else {
      GroupOrRuleOpShape(s, op);
    }
  }

  // ----- the operations that write domain fields -----

  /** A lookup by user that moves the user's account, a private primary, onto a domain that another
      account is primary for. */
  predicate MovesOnto(s: StoreState, userId: string, domain: string) {
    var home := AccountOf(s, s.userIdx, userId);
    home.Ok? && s.accounts[home.value].domain != Lower(domain) && s.accounts[home.value].PrivatePrimary()
    && TakenByOther(s, Lower(domain), home.value)
  }

  predicate MovesPrimary(s: StoreState, op: Op) {
    match op
    case GetOrCreateOp(u, d, f, now) => MovesOnto(s, u, d)
    case ClaimsOp(claims, f, now) =>
      && claims.domainCategory != PRIVATE_CATEGORY && claims.accountId == "" && claims.userId != ""
      && MovesOnto(s, claims.userId, claims.domain)
    case _ => false
  }

  lemma GetOrCreatePrimaries(s: StoreState, u: string, d: string, f: Fresh, now: int)
    requires s.WellFormed() && PrimariesIndexed(s) && IsFresh(s, f)
    ensures PrimariesIndexed(Apply(s, GetOrCreateAccountByUser(s, u, d, f, now).change)) <==> !MovesOnto(s, u, d)
  {
    hide Account.WellFormed, Save, Upper, Lower;
    var c := GetOrCreateAccountByUser(s, u, d, f, now).change;
    if c.Saved? { SavePrimariesExactly(s, c.a); }
  }

  /** The private-claims path makes an account primary only for a domain no other account is indexed for. */
  lemma PrivateClaimsPrimaries(s: StoreState, claims: Claims, f: Fresh, now: int)
    requires s.WellFormed() && PrimariesIndexed(s) && IsFresh(s, f)
    ensures PrimariesIndexed(Apply(s, PrivateClaims(s, claims, f, now).change))
  {
    hide Account.WellFormed, Save, Upper, Lower, NewAccountWithId;
    var c := PrivateClaims(s, claims, f, now).change;
    SavePrimariesExactly(s, c.a);
    if c.a.id in s.accounts && SameDomain(s.accounts[c.a.id], c.a) { SameDomainNotTaken(s, c.a); }
    NewAccountId(f, f.accountId, claims.userId, Lower(claims.domain), now);
  }

  lemma NewAccountId(f: Fresh, id: string, u: string, d: string, now: int)
    ensures NewAccountWithId(f, id, u, d, now).id == id && !NewAccountWithId(f, id, u, d, now).isPrimary
  {
  }

  lemma AccountOpPrimaries(s: StoreState, op: Op)
    requires s.WellFormed() && PrimariesIndexed(s) && Enabled(s, op) && IsAccountOp(op)
    ensures PrimariesIndexed(Step(s, op)) <==> !MovesPrimary(s, op)
  {
    hide Account.WellFormed, StoreState.WellFormed, Save, Upper, Lower, MovesOnto, PrimariesIndexed;
    hide GetOrCreateAccountByUser, AccountWithClaims, AddAccount;
    match op
    case GetOrCreateOp(u, d, f, now) => GetOrCreatePrimaries(s, u, d, f, now);
    case ClaimsOp(claims, f, now) => ClaimsPrimaries(s, claims, f, now);
    case AddAccountOp(id, u, d, f, now) => AddAccountPrimaries(s, id, u, d, f, now);
  }

  lemma ClaimsPrimaries(s: StoreState, claims: Claims, f: Fresh, now: int)
    requires s.WellFormed() && PrimariesIndexed(s) && IsFresh(s, f)
    ensures PrimariesIndexed(Apply(s, AccountWithClaims(s, claims, f, now).change)) <==>
      !MovesPrimary(s, ClaimsOp(claims, f, now))
  {
    hide Account.WellFormed, Save, Upper, Lower, GetOrCreateAccountByUser, PrivateClaims, MovesOnto, PrimariesIndexed;
    GetOrCreatePrimaries(s, claims.userId, claims.domain, f, now);
    PrivateClaimsPrimaries(s, claims, f, now);
  }

  lemma AddAccountPrimaries(s: StoreState, id: string, u: string, d: string, f: Fresh, now: int)
    requires PrimariesIndexed(s)
    ensures PrimariesIndexed(Apply(s, AddAccount(s, id, u, d, f, now).change))
  {
    hide Save, NewAccountWithId, PrimariesIndexed;
    NewAccountId(f, id, u, d, now);
    SavePrimariesExactly(s, AddAllGroup(NewAccountWithId(f, id, u, d, now), f.groupId, f.ruleId, []));
  }

  // ----- restarting -----

  ghost predicate PrimariesIndexedAmong(s: StoreState, ids: set<string>) {
    forall id :: id in ids && id in s.accounts && s.accounts[id].PrivatePrimary() ==>
      s.accounts[id].domain in s.domainIdx && s.domainIdx[s.accounts[id].domain] == id
  }

  predicate SharePrimacy(a: Account, b: Account) {
    a.PrivatePrimary() && b.PrivatePrimary() && a.domain == b.domain
  }

  /** No two private primaries share a domain. */
  ghost predicate PrimariesDistinct(accounts: map<string, Account>) {
    forall a, b :: a in accounts && b in accounts && SharePrimacy(accounts[a], accounts[b]) ==> a == b
  }

  lemma {:induction false} BuildManagerPrimaries(s: StoreState, saves: seq<string>, picks: map<string, AllPick>,
                                                 ids: set<string>)
    requires s.WellFormed() && forall id :: id in saves ==> id in s.accounts && id in picks
    requires PrimariesDistinct(s.accounts) && PrimariesIndexedAmong(s, ids)
    ensures var t := BuildManager(s, saves, picks);
      PrimariesIndexedAmong(t, ids + set id | id in saves) && t.accounts.Keys == s.accounts.Keys
    decreases saves
  {
    hide Account.WellFormed, BuildOne, PrimariesDistinct, PrimariesIndexedAmong;
    var all := ids + set id | id in saves;
    if saves == [] {
      assert all == ids;
    } else {
      var id, p := saves[0], picks[saves[0]];
      BuildOneWellFormed(s, id, p);
      BuildOnePrimaries(s, id, p, ids);
      hide AddAllGroup;
      BuildManagerPrimaries(BuildOne(s, id, p), saves[1..], picks, ids + {id});
      assert ids + {id} + (set i | i in saves[1..]) == all;
    }
  }

  lemma BuildOnePrimaries(s: StoreState, id: string, p: AllPick, ids: set<string>)
    requires s.WellFormed() && id in s.accounts && PrimariesDistinct(s.accounts) && PrimariesIndexedAmong(s, ids)
    ensures var t := BuildOne(s, id, p);
      t.accounts.Keys == s.accounts.Keys && PrimariesDistinct(t.accounts) && PrimariesIndexedAmong(t, ids + {id})
  {
    var b := AddAllGroup(s.accounts[id], p.groupId, p.ruleId, p.peers);
    SavedPrimary(s, b);
    hide Account.WellFormed, Save;
    assert SameDomain(s.accounts[id], b) && b.id == id;
    hide AddAllGroup;
    SavedOneMore(s, BuildOne(s, id, p), b, ids);
  }

  lemma SavedOneMore(s: StoreState, t: StoreState, b: Account, ids: set<string>)
    requires b.id in s.accounts && SameDomain(s.accounts[b.id], b)
    requires PrimariesDistinct(s.accounts) && PrimariesIndexedAmong(s, ids)
    requires t.accounts == s.accounts[b.id := b]
    requires t.domainIdx == if b.PrivatePrimary() then s.domainIdx[b.domain := b.id] else s.domainIdx
    ensures PrimariesDistinct(t.accounts) && PrimariesIndexedAmong(t, ids + {b.id})
  {
    forall x, y | x in t.accounts && y in t.accounts && SharePrimacy(t.accounts[x], t.accounts[y]) ensures x == y {
      assert SharePrimacy(s.accounts[x], s.accounts[y]);
    }
    forall x | x in ids + {b.id} && x in t.accounts && t.accounts[x].PrivatePrimary()
      ensures t.accounts[x].domain in t.domainIdx && t.domainIdx[t.accounts[x].domain] == x
    {
      if b.PrivatePrimary() && t.accounts[x].domain == b.domain {
        assert SharePrimacy(t.accounts[x], t.accounts[b.id]);
      }
    }
  }

  lemma PrimariesAreDistinct(s: StoreState)
    requires PrimariesIndexed(s)
    ensures PrimariesDistinct(s.accounts)
  {
  }

  lemma NoneIndexed(s: StoreState)
    ensures PrimariesIndexedAmong(s, {})
  {
  }

  lemma AllIndexed(s: StoreState)
    ensures PrimariesIndexedAmong(s, s.accounts.Keys) <==> PrimariesIndexed(s)
  {
  }

  lemma RestartPrimaries(s: StoreState, order: seq<string>, saves: seq<string>, picks: map<string, AllPick>)
    requires s.WellFormed() && PrimariesIndexed(s) && RestartPicks(s, order, saves, picks)
    ensures PrimariesIndexed(Restart(s, order, saves, picks))
  {
    hide Account.WellFormed, RestoreFrom, BuildManager, PrimariesIndexedAmong;
    PrimariesAreDistinct(s);
    NoneIndexed(Restore(s.accounts, order));
    BuildManagerPrimaries(Restore(s.accounts, order), saves, picks, {});
    assert {} + (set id | id in saves) == s.accounts.Keys;
    AllIndexed(Restart(s, order, saves, picks));
  }

  /** Over the private-claims path and everything that leaves domain fields alone, restarts included, the
      index stays right; the one step that breaks it is a lookup that moves a primary onto a taken domain. */
  lemma StepPrimariesExactly(s: StoreState, op: Op)
    requires s.WellFormed() && PrimariesIndexed(s) && Enabled(s, op) && Disciplined(s, op)
    ensures PrimariesIndexed(Step(s, op)) <==> !MovesPrimary(s, op)
  {
    hide Account.WellFormed, Save, PrimariesIndexed, ChangeOf;
    if op.RestartOp? {
      RestartPrimaries(s, op.order, op.saves, op.picks);
    } else if IsAccountOp(op) {
      AccountOpPrimaries(s, op);
    } else {
      OtherOpsKeepDomain(s, op);
      KeptDomainPrimaries(s, ChangeOf(s, op));
    }
  }

  // ----- the domain index after restore -----

  /** The account that restore enters for the domain: it skips an empty domain. */
  predicate Entered(accounts: map<string, Account>, id: string, domain: string) {
    id in accounts && accounts[id].PrivatePrimary() && accounts[id].domain == domain && domain != ""
  }

  lemma {:induction false} RestoreFromDomains(s: StoreState, order: seq<string>, domain: string)
    requires forall id :: id in order ==> id in s.accounts
    ensures var t := RestoreFrom(s, order);
      if forall id :: id in order ==> !Entered(s.accounts, id, domain)
      then (domain in t.domainIdx <==> domain in s.domainIdx)
           && (domain in s.domainIdx ==> t.domainIdx[domain] == s.domainIdx[domain])
      else domain in t.domainIdx && t.domainIdx[domain] in order && Entered(s.accounts, t.domainIdx[domain], domain)
    decreases order
  {
    hide PointAll, IndexRules, SetupKeyNames, PeerNames, UserNames;
    if order != [] {
      var id, a := order[0], s.accounts[order[0]];
      var one := IndexAccount(s, id, a, a.domain != "" && a.PrivatePrimary());
      RestoreFromDomains(one, order[1..], domain);
      assert forall x :: x in order <==> x == id || x in order[1..];
    }
  }

  /** Reading the accounts back enters exactly the domains, other than the empty one, that have a private primary, each
      with one of those. */
  lemma RestoreDomainsExactly(accounts: map<string, Account>, order: seq<string>, domain: string)
    requires IsListing(order, accounts.Keys)
    ensures var idx := Restore(accounts, order).domainIdx;
      && (domain in idx <==> exists id :: Entered(accounts, id, domain))
      && (domain in idx ==> Entered(accounts, idx[domain], domain))
  {
    hide RestoreFrom;
    RestoreFromDomains(EMPTY.(accounts := accounts), order, domain);
  }

  // ----- a lookup that breaks it -----

  function PrimaryAccount(id: string, user: string, domain: string): Account {
    Account(id, user, domain, PRIVATE_CATEGORY, true, map[], Network("n", NewNetwork(0), "", 0), map[],
            map[user := User(user, Admin)], map[], map[])
  }

  /** Two private primaries of different domains; each user may be looked up without claims. */
  function TwoPrimaries(): StoreState {
    EMPTY.(accounts := map["a" := PrimaryAccount("a", "u", "x"), "b" := PrimaryAccount("b", "v", "y")],
           userIdx := map["u" := "a", "v" := "b"], domainIdx := map["x" := "a", "y" := "b"])
  }

  lemma TwoPrimariesFacts()
    ensures var s := TwoPrimaries();
      && s.accounts.Keys == {"a", "b"}
      && s.accounts["a"] == PrimaryAccount("a", "u", "x") && s.accounts["b"] == PrimaryAccount("b", "v", "y")
      && AccountOf(s, s.userIdx, "u") == Ok("a") && PrimariesIndexed(s)
    ensures Lower("y") == "y" && "x" != "y" && "a" != "b"
  {
    assert "x"[0] != "y"[0] && "u"[0] != "v"[0] && "a"[0] != "b"[0];
    assert |Lower("y")| == 1 && Lower("y")[0] == "y"[0];
  }

  /** The store is one that a restart can come up with. */
  lemma TwoPrimariesRestored()
    ensures var m := TwoPrimaries().accounts; IsListing(["a", "b"], m.Keys) && TwoPrimaries() == Restore(m, ["a", "b"])
  {
    hide IndexAccount, RestoreFrom, Lower;
    var m := TwoPrimaries().accounts;
    TwoPrimariesFacts();
    var s0 := EMPTY.(accounts := m);
    RestoreOfTwo(m, "a", "b");
    IndexPrimary(s0, "a", "u", "x");
    IndexPrimary(IndexAccount(s0, "a", m["a"], true), "b", "v", "y");
  }

  lemma RestoreOfTwo(m: map<string, Account>, a: string, b: string)
    requires a in m && m[a].domain != "" && m[a].PrivatePrimary()
    requires b in m && m[b].domain != "" && m[b].PrivatePrimary()
    ensures Restore(m, [a, b]) == IndexAccount(IndexAccount(EMPTY.(accounts := m), a, m[a], true), b, m[b], true)
  {
    hide PointAll, IndexRules, PeerNames, SetupKeyNames, UserNames;
    var s0 := EMPTY.(accounts := m);
    var s1 := IndexAccount(s0, a, m[a], true);
    assert [a, b][1..] == [b] && [b][1..] == [];
    assert RestoreFrom(s0, [a, b]) == RestoreFrom(s1, [b]) == RestoreFrom(IndexAccount(s1, b, m[b], true), []);
  }

  lemma IndexPrimary(s: StoreState, id: string, user: string, domain: string)
    requires s.setupKeyIdx == map[] && s.peerIdx == map[] && s.srcRules == map[] && s.dstRules == map[]
    ensures IndexAccount(s, id, PrimaryAccount(id, user, domain), true)
      == s.(userIdx := s.userIdx[user := id], domainIdx := s.domainIdx[domain := id])
  {
    var a := PrimaryAccount(id, user, domain);
    assert SetupKeyNames(a) == {} && PeerNames(a) == {};
    assert user in a.users && UserNames(a) == {user};
    assert a.rules.Keys == {};
  }

  /** The user of the first account is looked up with the second domain: both accounts are then private
      primaries of that domain. */
  lemma LookupCanMakeTwoPrimaries(f: Fresh, now: int)
    requires IsFresh(TwoPrimaries(), f)
    ensures var s := TwoPrimaries(); var t := Apply(s, GetOrCreateAccountByUser(s, "u", "y", f, now).change);
      && IsListing(["a", "b"], s.accounts.Keys) && s == Restore(s.accounts, ["a", "b"]) && PrimariesIndexed(s)
      && "a" in t.accounts && "b" in t.accounts && "a" != "b" && SharePrimacy(t.accounts["a"], t.accounts["b"])
  {
    hide Save, NewAccountWithId, AddAllGroup, Lower, TwoPrimaries, IsFresh;
    var s := TwoPrimaries();
    TwoPrimariesRestored();
    TwoPrimariesFacts();
    var a := s.accounts["a"].(domain := "y");
    SavedPrimary(s, a);
    assert GetOrCreateAccountByUser(s, "u", "y", f, now).change == Saved(a);
  }
}
