/** Which account a lookup leads to and what it makes of it, in terms of who is in which account:
    management/server/{account,user}.go. */
module AccountAnswers {
  import opened Model
  import opened StoreSpec
  import opened ManagerSpec
  import opened Operations
  import opened IndexAgreement
  import opened AccountHistory
  import opened KeyHistory
  import opened Runs

  ghost predicate HasUser(s: StoreState, id: string, user: string) {
    id in s.accounts && user in s.accounts[id].users
  }

  ghost predicate HasPeer(s: StoreState, id: string, key: string) {
    id in s.accounts && key in s.accounts[id].peers
  }

  /** Looking up a peer, a user or a setup key finds the account that has it, and fails exactly when none has. */
  lemma LookupsFindHolders(s: StoreState, id: string, key: string, user: string, k: string)
    requires Agree(s)
    ensures PeerHome(s, key) == Ok(id) <==> HasPeer(s, id, key)
    ensures AccountOf(s, s.peerIdx, key) == Ok(id) <==> HasPeer(s, id, key)
    ensures AccountOf(s, s.userIdx, user) == Ok(id) <==> HasUser(s, id, user)
    ensures AccountOf(s, s.setupKeyIdx, k) == Ok(id) <==> Stores(s, id, k)
    ensures PeerHome(s, key).Err? ==> PeerHome(s, key) == Err(NotFound)
  {
    hide Account.WellFormed, Exact;
    if HasPeer(s, id, key) { HeldPeer(s, id, key); }
    if HasUser(s, id, user) { HeldUser(s, id, user); }
    if Stores(s, id, k) { HeldKey(s, id, k); }
    IndexedIsHeld(s, key, user, k);
  }

  lemma IndexedIsHeld(s: StoreState, key: string, user: string, k: string)
    requires Agree(s)
    ensures key in s.peerIdx ==> HasPeer(s, s.peerIdx[key], key)
    ensures user in s.userIdx ==> HasUser(s, s.userIdx[user], user)
    ensures k in s.setupKeyIdx ==> Stores(s, s.setupKeyIdx[k], k)
  {
    hide Account.WellFormed;
    if key in s.peerIdx { assert key in PeersHeld(s)[s.peerIdx[key]]; }
    if user in s.userIdx { assert user in UsersHeld(s)[s.userIdx[user]]; }
    if k in s.setupKeyIdx { assert k in KeysHeld(s)[s.setupKeyIdx[k]]; }
  }

  // ----- new accounts -----

  /** An account as it is made: nobody's peers, two setup keys, no access list. */
  function BareAccount(id: string, creator: string, domain: string, users: map<string, User>, f: Fresh,
                       now: int): Account
  {
    Account(id, creator, domain, "", false, StartingKeys(f, now), f.network, map[], users, map[], map[])
  }

  lemma GeneratedIsBare(f: Fresh, id: string, u: string, d: string, now: int)
    ensures NewAccountWithId(f, id, u, d, now) == BareAccount(id, u, d, map[], f, now)
  {
    hide Upper;
  }

  /** With the group All, still empty, and the Default rule from All to All. */
  predicate IsOpened(a: Account, bare: Account, f: Fresh) {
    && a == bare.(groups := a.groups, rules := a.rules)
    && a.groups == map[f.groupId := Group(f.groupId, "All", [])]
    && a.rules == map[f.ruleId := Rule(f.ruleId, "Default", [f.groupId], [f.groupId], 0)]
  }

  lemma AllGroupOpens(bare: Account, f: Fresh)
    requires bare.groups == map[] && bare.rules == map[]
    ensures IsOpened(AddAllGroup(bare, f.groupId, f.ruleId, []), bare, f)
    ensures AddAllGroup(bare, f.groupId, f.ruleId, []).id == bare.id
  {
  }

  /** The account `id` becomes `a`, and no other changes. */
  ghost predicate Becomes(s: StoreState, t: StoreState, id: string, a: Account) {
    t.accounts == s.accounts[id := a]
  }

  // ----- lookups by user -----

  /** A user in an account is led there, and the account gets the domain in lower case. Anyone else gets a new
      account with the user as its administrator and its domain in lower case. */
  lemma GetOrCreateAnswer(s: StoreState, user: string, domain: string, f: Fresh, now: int)
    requires Agree(s) && IsFresh(s, f)
    ensures var o := GetOrCreateAccountByUser(s, user, domain, f, now); var t := Apply(s, o.change);
      && (forall id :: HasUser(s, id, user) ==>
            o.result == Ok(id) && Becomes(s, t, id, s.accounts[id].(domain := Lower(domain))))
      && ((forall id :: !HasUser(s, id, user)) ==>
            && o.result == Ok(f.accountId) && f.accountId in t.accounts
            && Becomes(s, t, f.accountId, t.accounts[f.accountId])
            && IsOpened(t.accounts[f.accountId],
                        BareAccount(f.accountId, user, Lower(domain), map[user := User(user, Admin)], f, now), f))
  {
    hide Account.WellFormed, Exact, Agree, Lower, AddAllGroup, NewAccountWithId, Save, BareAccount;
    StoreOfAgree(s);
    var o := GetOrCreateAccountByUser(s, user, domain, f, now);
    ChangedAccounts(s, o.change);
    if AccountOf(s, s.userIdx, user).Ok? {
      var home := AccountOf(s, s.userIdx, user).value;
      LookupsFindHolders(s, home, "", user, "");
      StoredUnderId(s, home);
      SameEntry(s.accounts, home);
      forall id | HasUser(s, id, user) ensures id == home { LookupsFindHolders(s, id, "", user, ""); }
    } else {
      forall id ensures !HasUser(s, id, user) { LookupsFindHolders(s, id, "", user, ""); }
      GeneratedIsBare(f, f.accountId, user, Lower(domain), now);
      BareWithUser(f.accountId, user, Lower(domain), f, now);
      AllGroupOpens(BareAccount(f.accountId, user, Lower(domain), map[user := User(user, Admin)], f, now), f);
    }
  }

  lemma StoredUnderId(s: StoreState, id: string)
    requires s.WellFormed() && id in s.accounts
    ensures s.accounts[id].id == id
  {
    hide Account.WellFormed;
  }

  lemma BareWithUser(id: string, user: string, domain: string, f: Fresh, now: int)
    ensures var users := map[user := User(user, Admin)];
      BareAccount(id, user, domain, map[], f, now).(users := users) == BareAccount(id, user, domain, users, f, now)
    ensures var a := BareAccount(id, user, domain, map[user := User(user, Admin)], f, now);
      a.id == id && a.groups == map[] && a.rules == map[]
  {
    hide StartingKeys;
  }

  /** AddAccount makes an account without users, under the id and the domain given. */
  lemma AddAccountAnswer(s: StoreState, op: Op)
    requires s.WellFormed() && Enabled(s, op) && op.AddAccountOp?
    ensures var id, t := op.accountId, Step(s, op);
      && AddAccount(s, id, op.userId, op.domain, op.f, op.now).result == Ok(id)
      && id in t.accounts && Becomes(s, t, id, t.accounts[id])
      && IsOpened(t.accounts[id], BareAccount(id, op.userId, op.domain, map[], op.f, op.now), op.f)
  {
    hide Account.WellFormed, AddAllGroup, NewAccountWithId, Save, StartingKeys, StoreState.WellFormed;
    GeneratedIsBare(op.f, op.accountId, op.userId, op.domain, op.now);
    AllGroupOpens(BareAccount(op.accountId, op.userId, op.domain, map[], op.f, op.now), op.f);
    ChangedAccounts(s, ChangeOf(s, op));
  }

  // ----- private claims without an account id -----

  /** The domain index names another account for the domain. */
  predicate IndexedElsewhere(s: StoreState, domain: string, id: string) {
    domain in s.domainIdx && s.domainIdx[domain] in s.accounts && s.domainIdx[domain] != id
  }

  /** A user in an account stays there; the account takes the domain over, as primary unless the domain has another
      account. Anyone else joins the account of the domain as a regular user, or gets a new account that is primary
      for it. */
  lemma PrivateClaimsAnswer(s: StoreState, claims: Claims, f: Fresh, now: int)
    requires Agree(s) && IsFresh(s, f)
    ensures var o, d := PrivateClaims(s, claims, f, now), Lower(claims.domain); var t := Apply(s, o.change);
      && (forall id :: HasUser(s, id, claims.userId) ==>
            && o.result == Ok(id)
            && Becomes(s, t, id, s.accounts[id].(domain := d, domainCategory := claims.domainCategory,
                                                 isPrimary := !IndexedElsewhere(s, d, id))))
      && ((forall id :: !HasUser(s, id, claims.userId)) ==>
            if d in s.domainIdx && s.domainIdx[d] in s.accounts then
              var id, u := s.domainIdx[d], claims.userId;
              o.result == Ok(id)
              && Becomes(s, t, id, s.accounts[id].(users := s.accounts[id].users[u := User(u, Regular)]))
            else
              var bare := BareAccount(f.accountId, claims.userId, d, map[claims.userId := User(claims.userId, Admin)],
                                      f, now);
              o.result == Ok(f.accountId)
              && Becomes(s, t, f.accountId, bare.(domainCategory := claims.domainCategory, isPrimary := true)))
  {
    hide Account.WellFormed, Exact, Agree, Lower, NewAccountWithId, Save, BareAccount;
    StoreOfAgree(s);
    var o, d := PrivateClaims(s, claims, f, now), Lower(claims.domain);
    ChangedAccounts(s, o.change);
    var home := AccountOf(s, s.userIdx, claims.userId);
    if home.Ok? {
      LookupsFindHolders(s, home.value, "", claims.userId, "");
      StoredUnderId(s, home.value);
      forall id | HasUser(s, id, claims.userId) ensures id == home.value {
        LookupsFindHolders(s, id, "", claims.userId, "");
      }
    } else {
      forall id ensures !HasUser(s, id, claims.userId) { LookupsFindHolders(s, id, "", claims.userId, ""); }
      if AccountOf(s, s.domainIdx, d).Ok? {
        StoredUnderId(s, s.domainIdx[d]);
      } else {
        GeneratedIsBare(f, f.accountId, claims.userId, d, now);
        BareWithUser(f.accountId, claims.userId, d, f, now);
        BareDomain(f.accountId, claims.userId, d, f, now);
      }
    }
  }

  lemma BareDomain(id: string, user: string, domain: string, f: Fresh, now: int)
    ensures BareAccount(id, user, domain, map[user := User(user, Admin)], f, now).domain == domain
  {
    hide StartingKeys;
  }

  // ----- claims -----

  ghost function Answer(s: StoreState, op: Op): Result<string>
    requires op.ClaimsOp?
  {
    AccountWithClaims(s, op.claims, op.f, op.now).result
  }

  /** Private claims are answered with an account that has the user afterwards, whatever account id they carry. With
      the id of an account they fail if and only if the user is not in it, and otherwise lead there; with the id of
      no account they fail. Without an id they never fail. A failure changes nothing. */
  lemma PrivateClaimsMembership(s: StoreState, op: Op)
    requires Agree(s) && Enabled(s, op) && op.ClaimsOp? && op.claims.domainCategory == "private"
    ensures var c, r, t := op.claims, Answer(s, op), Step(s, op);
      && (r.Ok? ==> HasUser(t, r.value, c.userId))
      && (c.accountId == "" ==> r.Ok?)
      && (c.accountId != "" && c.accountId in s.accounts ==>
            if HasUser(s, c.accountId, c.userId) then r == Ok(c.accountId) else r == Err(Plain))
      && (c.accountId != "" && c.accountId !in s.accounts ==> r == Err(NotFound))
      && (r.Err? ==> t == s)
  {
    hide StoreState.WellFormed, Agree, PrivateClaims, Save;
    StoreOfAgree(s);
    PrivateClaimsHasUser(s, op.claims, op.f, op.now);
  }

  lemma PrivateClaimsHasUser(s: StoreState, claims: Claims, f: Fresh, now: int)
    requires Agree(s) && IsFresh(s, f)
    ensures var o := PrivateClaims(s, claims, f, now);
      && o.result.Ok? && HasUser(Apply(s, o.change), o.result.value, claims.userId)
      && forall id :: HasUser(s, id, claims.userId) ==> o.result == Ok(id)
  {
    hide StoreState.WellFormed, Agree, Lower, PrivateClaims, Apply, BareAccount, IsFresh;
    PrivateClaimsAnswer(s, claims, f, now);
    SomeoneOrNobody(s, claims.userId);
    NewHasUser(claims.userId, Lower(claims.domain), f, now);
  }

  lemma SomeoneOrNobody(s: StoreState, user: string)
    ensures (exists id :: HasUser(s, id, user)) || (forall id :: !HasUser(s, id, user))
  {
  }

  lemma NewHasUser(user: string, domain: string, f: Fresh, now: int)
    ensures user in BareAccount(f.accountId, user, domain, map[user := User(user, Admin)], f, now).users
  {
    hide StartingKeys;
  }

  /** What they do: with the id of the user's account, nothing if the account is private already; otherwise what the
      same claims do without the id. */
  lemma PrivateClaimsEffect(s: StoreState, op: Op)
    requires Agree(s) && Enabled(s, op) && op.ClaimsOp? && op.claims.domainCategory == "private"
    requires op.claims.accountId == "" || HasUser(s, op.claims.accountId, op.claims.userId)
    ensures var c := op.claims;
      Step(s, op) ==
      if c.accountId != "" && s.accounts[c.accountId].domainCategory == "private" then s
      else Apply(s, PrivateClaims(s, c, op.f, op.now).change)
  {
    hide Account.WellFormed, Exact, Agree, Lower, PrivateClaims, Save;
  }

  /** Other claims with an account id are answered with that account if there is one, without a look at its users, and
      change nothing; without an id they are a lookup by user, and fail without a user. */
  lemma OtherClaimsAnswer(s: StoreState, op: Op)
    requires Agree(s) && Enabled(s, op) && op.ClaimsOp? && op.claims.domainCategory != "private"
    ensures var c, r, t := op.claims, Answer(s, op), Step(s, op);
      && (c.accountId != "" ==> t == s && r == if c.accountId in s.accounts then Ok(c.accountId) else Err(NotFound))
      && (c.accountId == "" && c.userId == "" ==> t == s && r == Err(NotFound))
      && (c.accountId == "" && c.userId != "" ==>
            var o := GetOrCreateAccountByUser(s, c.userId, c.domain, op.f, op.now);
            r == o.result && t == Apply(s, o.change) && r.Ok? && HasUser(t, r.value, c.userId))
  {
    hide Account.WellFormed, Exact, Agree, Lower, GetOrCreateAccountByUser, Save, BareAccount, IsOpened;
    StoreOfAgree(s);
    var c := op.claims;
    GetOrCreateAnswer(s, c.userId, c.domain, op.f, op.now);
    SomeoneOrNobody(s, c.userId);
    OpenedHasUser(Step(s, op), c.userId, Lower(c.domain), op.f, op.now);
  }

  lemma OpenedHasUser(t: StoreState, user: string, domain: string, f: Fresh, now: int)
    ensures var bare := BareAccount(f.accountId, user, domain, map[user := User(user, Admin)], f, now);
      f.accountId in t.accounts && IsOpened(t.accounts[f.accountId], bare, f) ==> HasUser(t, f.accountId, user)
  {
    hide StartingKeys;
  }

  /** The account that claims are answered with has the user afterwards, unless the claims are not private and name
      an account without the user: exactly then. */
  lemma AnswerHasUserExactly(s: StoreState, op: Op)
    requires Agree(s) && Enabled(s, op) && op.ClaimsOp? && Answer(s, op).Ok?
    ensures HasUser(Step(s, op), Answer(s, op).value, op.claims.userId) <==>
      var c := op.claims;
      c.domainCategory == "private" || c.accountId == "" || HasUser(s, c.accountId, c.userId)
  {
    hide Agree, Answer, Step, Enabled;
    if op.claims.domainCategory == "private" { PrivateClaimsMembership(s, op); } else { OtherClaimsAnswer(s, op); }
  }

  /** In every run: private claims lead to an account that has the user, then and ever after, and with an account id
      they fail, changing nothing, if and only if the user is not in that account. */
  lemma PrivateClaimsInRun(states: seq<StoreState>, ops: seq<Op>, m: nat, n: nat)
    requires IsRun(states, ops) && m < n < |states|
    requires ops[m].ClaimsOp? && ops[m].claims.domainCategory == "private"
    ensures var c, r := ops[m].claims, Answer(states[m], ops[m]);
      && (r.Ok? ==>
            HasUser(states[n], r.value, c.userId) && AccountOf(states[n], states[n].userIdx, c.userId) == r)
      && (c.accountId != "" ==> (r.Ok? <==> HasUser(states[m], c.accountId, c.userId)))
      && (c.accountId != "" && r.Ok? ==> r.value == c.accountId)
      && (r.Err? ==> states[m + 1] == states[m])
  {
    hide RunStep, Answer, Step, Enabled, Agree, Disciplined, StoreState.WellFormed;
    RunStepAt(states, ops, m);
    RunAgrees(states, ops, m);
    PrivateClaimsMembership(states[m], ops[m]);
    var c, r := ops[m].claims, Answer(states[m], ops[m]);
    if r.Ok? { MembershipIsStable(states, ops, m + 1, n, r.value, c.userId); }
  }
}
