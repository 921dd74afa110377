/** Which fields of an account each kind of operation writes. Later proofs need no more of the operations. */
module OperationShapes {
  import opened IpAllocation
  import opened Model
  import opened StoreSpec
  import opened ManagerSpec
  import opened Operations

  ghost predicate IsPeerOp(op: Op) { op.AddPeerOp? || op.DeletePeerOp? || IsInPlaceOp(op) }
  ghost predicate IsInPlaceOp(op: Op) { op.RenamePeerOp? || op.MarkPeerOp? || op.UpdateMetaOp? }
  ghost predicate IsKeyOp(op: Op) { op.AddSetupKeyOp? || op.RevokeKeyOp? || op.RenameKeyOp? }
  ghost predicate IsAccountOp(op: Op) { op.GetOrCreateOp? || op.ClaimsOp? || op.AddAccountOp? }
  ghost predicate IsGroupOrRuleOp(op: Op) {
    op.SaveGroupOp? || op.DeleteGroupOp? || op.GroupAddPeerOp? || op.GroupDeletePeerOp? || op.SaveRuleOp?
      || op.DeleteRuleOp?
  }

  lemma GroupOrRuleOpShape(s: StoreState, op: Op)
    requires s.WellFormed() && Enabled(s, op) && IsGroupOrRuleOp(op)
    ensures var c := ChangeOf(s, op);
      c.NoChange? || (c.Saved? && c.a.id == op.accountId && c.a.id in s.accounts
                      && c.a == s.accounts[c.a.id].(groups := c.a.groups, rules := c.a.rules))
  {
    hide Account.WellFormed, RemoveFirst;
  }

  // ----- setup keys -----

  /** Revoked or renamed, otherwise the same key. */
  ghost predicate SameKey(k: SetupKey, l: SetupKey) {
    l == k.(revoked := l.revoked, name := l.name) && (k.revoked ==> l.revoked)
  }

  ghost predicate OneKey(s: StoreState, a: Account, b: Account, k: string, v: SetupKey) {
    && b == a.(setupKeys := a.setupKeys[k := v])
    && ((k in a.setupKeys && SameKey(a.setupKeys[k], v)) || (k !in s.setupKeyIdx && v.usedTimes == 0))
  }

  /** A setup-key operation replaces one key by itself revoked or renamed, or adds a generated one. */
  lemma KeyOpShape(s: StoreState, op: Op)
    requires s.WellFormed() && Enabled(s, op) && IsKeyOp(op)
    ensures KeyShape(s, ChangeOf(s, op))
  {
    hide ChangeOf, Enabled, StoreState.WellFormed;
    if op.AddSetupKeyOp? { AddedKeyShape(s, op); } else { ReplacedKeyShape(s, op); }
  }

  ghost predicate KeyShape(s: StoreState, c: Change) {
    c.NoChange? || (c.Saved? && c.a.id in s.accounts && exists k, v :: OneKey(s, s.accounts[c.a.id], c.a, k, v))
  }

  lemma AddedKeyShape(s: StoreState, op: Op)
    requires s.WellFormed() && Enabled(s, op) && op.AddSetupKeyOp?
    ensures KeyShape(s, ChangeOf(s, op))
  {
    hide Account.WellFormed, Upper, SameKey;
    var c := ChangeOf(s, op);
    if c.Saved? {
      var k := GenerateSetupKey(op.id, op.newKey, op.name, op.typ, op.validFor, op.now);
      assert OneKey(s, s.accounts[op.accountId], c.a, Upper(op.newKey), k);
    }
  }

  lemma ReplacedKeyShape(s: StoreState, op: Op)
    requires s.WellFormed() && Enabled(s, op) && (op.RevokeKeyOp? || op.RenameKeyOp?)
    ensures KeyShape(s, ChangeOf(s, op))
  {
    hide Account.WellFormed;
    var c := ChangeOf(s, op);
    if c.Saved? {
      var a := s.accounts[op.accountId];
      SetupKeysKeyed(a);
      var k := a.setupKeys[op.pick];
      assert OneKey(s, a, c.a, op.pick, if op.RevokeKeyOp? then k.(revoked := true) else k.(name := op.name));
    }
  }

  lemma SetupKeysKeyed(a: Account)
    requires a.WellFormed()
    ensures forall k :: k in a.setupKeys ==> a.setupKeys[k].key == k
  {
  }

  // ----- accounts and users -----

  ghost predicate NewAccountShape(s: StoreState, a: Account) {
    && a.id !in s.accounts && a.peers == map[] && a.network.net.Valid() && a.network.serial == 0
    && (forall k :: k in a.setupKeys ==> k !in s.setupKeyIdx && a.setupKeys[k].usedTimes == 0)
    && (forall u :: u in a.users ==> AccountOf(s, s.userIdx, u).Err? && a.users[u].role == Admin && a.createdBy == u)
  }

  /** An existing account may get new domain attributes, or one regular user who was in no account. */
  ghost predicate OldAccountShape(s: StoreState, a: Account, b: Account) {
    && b == a.(domain := b.domain, domainCategory := b.domainCategory, isPrimary := b.isPrimary, users := b.users)
    && (b.users == a.users || exists u :: OneUser(s, a, b, u))
  }

  ghost predicate OneUser(s: StoreState, a: Account, b: Account, u: string) {
    AccountOf(s, s.userIdx, u).Err? && b.users == a.users[u := User(u, Regular)]
  }

  ghost predicate AccountShape(s: StoreState, c: Change) {
    || c.NoChange?
    || (c.Saved? &&
        if c.a.id in s.accounts then OldAccountShape(s, s.accounts[c.a.id], c.a) else NewAccountShape(s, c.a))
  }

  lemma GeneratedAccountShape(s: StoreState, f: Fresh, id: string, u: string, d: string, now: int)
    requires FreshKeys(s, f)
    ensures var a := NewAccountWithId(f, id, u, d, now);
      && a.id == id && a.createdBy == u && a.peers == map[] && a.users == map[] && a.network == f.network
      && !a.isPrimary
      && forall k :: k in a.setupKeys ==> k !in s.setupKeyIdx && a.setupKeys[k].usedTimes == 0
  {
    hide Upper;
  }

  lemma FirstUserShape(s: StoreState, a: Account, f: Fresh, u: string)
    requires a.id !in s.accounts && a.peers == map[] && a.network.net.Valid() && a.network.serial == 0
    requires a.createdBy == u
    requires forall k :: k in a.setupKeys ==> k !in s.setupKeyIdx && a.setupKeys[k].usedTimes == 0
    requires AccountOf(s, s.userIdx, u).Err?
    ensures NewAccountShape(s, AddAllGroup(a.(users := map[u := User(u, Admin)]), f.groupId, f.ruleId, []))
  {
  }

  lemma GetOrCreateShape(s: StoreState, u: string, d: string, f: Fresh, now: int)
    requires s.WellFormed() && IsFresh(s, f)
    ensures AccountShape(s, GetOrCreateAccountByUser(s, u, d, f, now).change)
  {
    hide Account.WellFormed, NewAccountWithId, Lower, Upper;
    if AccountOf(s, s.userIdx, u).Err? {
      GeneratedAccountShape(s, f, f.accountId, u, Lower(d), now);
      FirstUserShape(s, NewAccountWithId(f, f.accountId, u, Lower(d), now), f, u);
    } else {
      hide NewAccountShape, AddAllGroup;
    }
  }

  lemma PrivateClaimsShape(s: StoreState, claims: Claims, f: Fresh, now: int)
    requires s.WellFormed() && IsFresh(s, f)
    ensures AccountShape(s, PrivateClaims(s, claims, f, now).change)
  {
    hide Account.WellFormed, NewAccountWithId, Lower, Upper, NewAccountShape, OldAccountShape;
    var d := Lower(claims.domain);
    var home, domainAccount := AccountOf(s, s.userIdx, claims.userId), AccountOf(s, s.domainIdx, d);
    if home.Ok? {
      var a := s.accounts[home.value];
      MovedShape(s, a, WithDomain(a, claims, domainAccount.Err? || domainAccount.value == home.value));
    } else if domainAccount.Ok? {
      var a := s.accounts[domainAccount.value];
      JoinedShape(s, a, claims.userId);
    } else {
      GeneratedAccountShape(s, f, f.accountId, claims.userId, d, now);
      PrimaryShape(s, NewAccountWithId(f, f.accountId, claims.userId, d, now), claims);
    }
  }

  lemma MovedShape(s: StoreState, a: Account, b: Account)
    requires b == a.(domain := b.domain, domainCategory := b.domainCategory, isPrimary := b.isPrimary)
    ensures OldAccountShape(s, a, b)
  {
  }

  lemma JoinedShape(s: StoreState, a: Account, u: string)
    requires AccountOf(s, s.userIdx, u).Err?
    ensures OldAccountShape(s, a, a.(users := a.users[u := User(u, Regular)]))
  {
    assert OneUser(s, a, a.(users := a.users[u := User(u, Regular)]), u);
  }

  lemma PrimaryShape(s: StoreState, a: Account, claims: Claims)
    requires a.id !in s.accounts && a.peers == map[] && a.network.net.Valid() && a.network.serial == 0
    requires a.createdBy == claims.userId
    requires forall k :: k in a.setupKeys ==> k !in s.setupKeyIdx && a.setupKeys[k].usedTimes == 0
    requires AccountOf(s, s.userIdx, claims.userId).Err?
    ensures NewAccountShape(s, WithDomain(a.(users := map[claims.userId := User(claims.userId, Admin)]), claims, true))
  {
    hide Lower;
  }

  lemma AddAccountShape(s: StoreState, id: string, u: string, d: string, f: Fresh, now: int)
    requires FreshKeys(s, f) && id !in s.accounts
    ensures AccountShape(s, AddAccount(s, id, u, d, f, now).change)
  {
    hide NewAccountWithId;
    GeneratedAccountShape(s, f, id, u, d, now);
  }

  lemma AccountOpShape(s: StoreState, op: Op)
    requires s.WellFormed() && Enabled(s, op) && Disciplined(s, op) && IsAccountOp(op)
    ensures AccountShape(s, ChangeOf(s, op))
  {
    hide Account.WellFormed, GetOrCreateAccountByUser, PrivateClaims, AddAccount, Upper, Lower;
    match op
    case GetOrCreateOp(u, d, f, now) => GetOrCreateShape(s, u, d, f, now);
    case ClaimsOp(claims, f, now) =>
      GetOrCreateShape(s, claims.userId, claims.domain, f, now);
      PrivateClaimsShape(s, claims, f, now);
    case AddAccountOp(id, u, d, f, now) => AddAccountShape(s, id, u, d, f, now);
  }

  // ----- peers -----

  /** The peer leaves the registry and the groups are cleaned; the change is counted. */
  ghost predicate Removes(s: StoreState, op: Op, a: Account)
    requires op.DeletePeerOp?
  {
    a.id == op.accountId && a.id in s.accounts && op.key in s.accounts[a.id].peers &&
    var was := s.accounts[a.id];
    a == was.(peers := was.peers - {op.key}, groups := a.groups, network := was.network.IncSerial())
  }

  lemma DeletePeerShape(s: StoreState, op: Op)
    requires s.WellFormed() && Enabled(s, op) && op.DeletePeerOp?
    ensures var c := ChangeOf(s, op);
      c.NoChange? || (c.SavedWithoutPeer? && c.key == op.key && Removes(s, op, c.a))
  {
    hide Account.WellFormed, CleanGroups;
  }

  lemma PeerKeyed(a: Account, k: string)
    requires a.WellFormed() && k in a.peers
    ensures a.peers[k].key == k
  {
  }

  /** One registered peer is rewritten; its key and address stay. */
  ghost predicate Rewrites(s: StoreState, key: string, a: Account) {
    a.id in s.accounts && key in s.accounts[a.id].peers && key in a.peers &&
    var was, p := s.accounts[a.id], a.peers[key];
    p.key == key && p.ip == was.peers[key].ip && a == was.(groups := a.groups, peers := was.peers[key := p])
  }

  /** The groups stay, unless the peer had to be put into the group All. */
  ghost predicate Lists(s: StoreState, op: Op, a: Account)
    requires IsInPlaceOp(op)
  {
    a.id in s.accounts &&
    var was := s.accounts[a.id];
    a.groups == was.groups
    || (op.gid in was.AllGroups() && op.key !in was.groups[op.gid].peers
         && a.groups == AppendToGroup(was, op.gid, op.key))
  }

  lemma InPlaceOpShape(s: StoreState, op: Op)
    requires s.WellFormed() && Enabled(s, op) && Disciplined(s, op) && IsInPlaceOp(op)
    ensures var c := ChangeOf(s, op); c.NoChange? || (c.InPlace? && Rewrites(s, op.key, c.a) && Lists(s, op, c.a))
  {
    hide Account.WellFormed, AppendToGroup;
    if PeerHome(s, op.key).Ok? { PeerKeyed(s.accounts[PeerHome(s, op.key).value], op.key); }
  }

  /** The peer is appended to a group All and registered, the setup key is used, the change is counted. */
  ghost predicate Adds(s: StoreState, op: Op, a: Account)
    requires op.AddPeerOp?
  {
    var key := Upper(op.setupKey);
    LocateForAdd(s, op.setupKey, op.userId, op.now) == Ok(a.id) && a.id in s.accounts && op.req.key in a.peers &&
    var was, p := s.accounts[a.id], a.peers[op.req.key];
    && op.gid in was.AllGroups()
    && was.network.net.Valid() && op.ip in FreeIps(was.network.net, was.TakenIps())
    && p.key == op.req.key && p.ip == op.ip
    && (key != "" ==> key in was.setupKeys && was.setupKeys[key].IsValid(op.now))
    && a == was.(groups := AppendToGroup(was, op.gid, op.req.key), peers := was.peers[op.req.key := p],
                 setupKeys := if key == "" then was.setupKeys
                              else was.setupKeys[key := was.setupKeys[key].IncrementUsage(op.now)],
                 network := was.network.IncSerial())
  }

  lemma AddPeerShape(s: StoreState, op: Op)
    requires s.WellFormed() && Enabled(s, op) && op.AddPeerOp?
    ensures var c := ChangeOf(s, op); c.NoChange? || (c.Saved? && Adds(s, op, c.a))
    ensures ChangeOf(s, op).NoChange? <==> AddPeer(s, op.setupKey, op.userId, op.req, op.now, op.ip, op.gid).result.Err?
  {
    hide Account.WellFormed, FreeIps, Upper;
    LocatedKey(s, op.setupKey, op.userId, op.now);
  }

  lemma LocatedKey(s: StoreState, setupKey: string, userId: string, now: int)
    ensures var home := LocateForAdd(s, setupKey, userId, now);
      home.Ok? ==> home.value in s.accounts
    ensures var home, key := LocateForAdd(s, setupKey, userId, now), Upper(setupKey);
      home.Ok? && key != "" ==>
        key in s.accounts[home.value].setupKeys && s.accounts[home.value].setupKeys[key].IsValid(now)
  {
    hide Upper;
  }
}
