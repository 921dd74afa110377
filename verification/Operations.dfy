/** Every operation on the account state as one step relation, with what each step needs to be
    defined (Enabled) and what callers keep to (Disciplined). */
module Operations {
  import opened IpAllocation
  import opened Model
  import opened StoreSpec
  import opened ManagerSpec

  datatype Op =
    | AddPeerOp(setupKey: string, userId: string, req: PeerRequest, now: int, ip: Addr, gid: string)
    | DeletePeerOp(accountId: string, key: string, order: seq<string>)
    | RenamePeerOp(accountId: string, key: string, name: string, gid: string)
    | MarkPeerOp(key: string, connected: bool, now: int, gid: string)
    | UpdateMetaOp(key: string, meta: Meta, gid: string)
    | AddSetupKeyOp(accountId: string, name: string, typ: KeyType, validFor: int, id: string, newKey: string, now: int)
    | RevokeKeyOp(accountId: string, id: string, pick: string)
    | RenameKeyOp(accountId: string, id: string, name: string, pick: string)
    | GetOrCreateOp(userId: string, domain: string, f: Fresh, now: int)
    | ClaimsOp(claims: Claims, f: Fresh, now: int)
    | AddAccountOp(accountId: string, userId: string, domain: string, f: Fresh, now: int)
    | SaveGroupOp(accountId: string, g: Group)
    | DeleteGroupOp(accountId: string, gid: string)
    | GroupAddPeerOp(accountId: string, gid: string, key: string)
    | GroupDeletePeerOp(accountId: string, gid: string, key: string)
    | SaveRuleOp(accountId: string, r: Rule)
    | DeleteRuleOp(accountId: string, rid: string)
    | RestartOp(order: seq<string>, saves: seq<string>, picks: map<string, AllPick>)

  /** The identifiers of the group and rule that addAllGroup generates, and the order of the peers. */
  datatype AllPick = AllPick(groupId: string, ruleId: string, peers: seq<string>)

  /** One turn of the loop of `BuildManager`: addAllGroup, then SaveAccount. */
  function BuildOne(s: StoreState, id: string, p: AllPick): (t: StoreState)
    requires id in s.accounts && s.accounts[id].id == id
    ensures t.accounts == s.accounts[id := AddAllGroup(s.accounts[id], p.groupId, p.ruleId, p.peers)]
    ensures AddAllGroup(s.accounts[id], p.groupId, p.ruleId, p.peers).id == id
  {
    Save(s, AddAllGroup(s.accounts[id], p.groupId, p.ruleId, p.peers))
  }

  /** `BuildManager` visits every account, in some order. */
  function BuildManager(s: StoreState, saves: seq<string>, picks: map<string, AllPick>): StoreState
    requires forall id :: id in saves ==> id in s.accounts && id in picks && s.accounts[id].id == id
    decreases saves
  {
    if saves == [] then s else BuildManager(BuildOne(s, saves[0], picks[saves[0]]), saves[1..], picks)
  }

  ghost predicate RestartPicks(s: StoreState, order: seq<string>, saves: seq<string>, picks: map<string, AllPick>) {
    && IsListing(order, s.accounts.Keys)
    && IsListing(saves, s.accounts.Keys)
    && picks.Keys == s.accounts.Keys
    && forall id :: id in picks ==> IsListing(picks[id].peers, s.accounts[id].peers.Keys)
  }

  predicate FreshKeys(s: StoreState, f: Fresh) {
    IsFresh(s.(accounts := map[]), f)
  }

  /** The choices are ones the code can make, generated identifiers are new, and the two operations
      that can leave a rule naming a missing group (which SaveAccount would dereference) do not. */
  ghost predicate Enabled(s: StoreState, op: Op) {
    match op
    case AddPeerOp(sk, u, req, now, ip, gid) => AddPicks(s, sk, u, now, ip, gid)
    case DeletePeerOp(id, key, order) => id in s.accounts ==> IsListing(order, s.accounts[id].groups.Keys)
    case RenamePeerOp(id, key, name, gid) => SavePicks(s, id, gid)
    case MarkPeerOp(key, c, now, gid) => HomePicks(s, key, gid)
    case UpdateMetaOp(key, meta, gid) => HomePicks(s, key, gid)
    case AddSetupKeyOp(id, name, typ, validFor, kid, newKey, now) => Upper(newKey) !in s.setupKeyIdx
    case RevokeKeyOp(id, kid, pick) => KeyPicks(s, id, kid, pick)
    case RenameKeyOp(id, kid, name, pick) => KeyPicks(s, id, kid, pick)
    case GetOrCreateOp(u, d, f, now) => IsFresh(s, f)
    case ClaimsOp(claims, f, now) => IsFresh(s, f)
    case AddAccountOp(id, u, d, f, now) => FreshKeys(s, f)
    case SaveGroupOp(id, g) => true
    case DeleteGroupOp(id, gid) =>
      id in s.accounts ==> s.accounts[id].(groups := s.accounts[id].groups - {gid}).RulesNameGroups()
    case GroupAddPeerOp(id, gid, key) => true
    case GroupDeletePeerOp(id, gid, key) => true
    case SaveRuleOp(id, r) =>
      id in s.accounts ==> s.accounts[id].(rules := s.accounts[id].rules[r.id := r]).RulesNameGroups()
    case DeleteRuleOp(id, rid) => true
    case RestartOp(order, saves, picks) => RestartPicks(s, order, saves, picks)
  }

  ghost function ChangeOf(s: StoreState, op: Op): Change
    requires Enabled(s, op) && !op.RestartOp?
  {
    match op
    case AddPeerOp(sk, u, req, now, ip, gid) => AddPeer(s, sk, u, req, now, ip, gid).change
    case DeletePeerOp(id, key, order) => DeletePeer(s, id, key, order).change
    case RenamePeerOp(id, key, name, gid) => RenamePeer(s, id, key, name, gid).change
    case MarkPeerOp(key, c, now, gid) => MarkPeerConnected(s, key, c, now, gid).change
    case UpdateMetaOp(key, meta, gid) => UpdatePeerMeta(s, key, meta, gid).change
    case AddSetupKeyOp(id, name, typ, validFor, kid, newKey, now) =>
      AddSetupKey(s, id, name, typ, validFor, kid, newKey, now).change
    case RevokeKeyOp(id, kid, pick) => RevokeSetupKey(s, id, kid, pick).change
    case RenameKeyOp(id, kid, name, pick) => RenameSetupKey(s, id, kid, name, pick).change
    case GetOrCreateOp(u, d, f, now) => GetOrCreateAccountByUser(s, u, d, f, now).change
    case ClaimsOp(claims, f, now) => AccountWithClaims(s, claims, f, now).change
    case AddAccountOp(id, u, d, f, now) => AddAccount(s, id, u, d, f, now).change
    case SaveGroupOp(id, g) => SaveGroup(s, id, g).change
    case DeleteGroupOp(id, gid) => DeleteGroup(s, id, gid).change
    case GroupAddPeerOp(id, gid, key) => GroupAddPeer(s, id, gid, key).change
    case GroupDeletePeerOp(id, gid, key) => GroupDeletePeer(s, id, gid, key).change
    case SaveRuleOp(id, r) => SaveRule(s, id, r).change
    case DeleteRuleOp(id, rid) => DeleteRule(s, id, rid).change
  }

  /** A restart of the service: `NewStore` on the persisted accounts, then `BuildManager`. */
  ghost function Restart(s: StoreState, order: seq<string>, saves: seq<string>, picks: map<string, AllPick>): StoreState
    requires s.WellFormed() && RestartPicks(s, order, saves, picks)
  {
    BuildManager(Restore(s.accounts, order), saves, picks)
  }

  ghost function Step(s: StoreState, op: Op): StoreState
    requires s.WellFormed() && Enabled(s, op)
  {
    if op.RestartOp? then Restart(s, op.order, op.saves, op.picks)
    else Apply(s, ChangeOf(s, op))
  }

  /** Where AddPeer would put the peer, when it succeeds. */
  ghost predicate AddsTo(s: StoreState, op: Op, id: string) {
    && op.AddPeerOp? && Enabled(s, op)
    && LocateForAdd(s, op.setupKey, op.userId, op.now) == Ok(id)
    && AddPeer(s, op.setupKey, op.userId, op.req, op.now, op.ip, op.gid).result.Ok?
  }

  /** What is asked of callers: a key is added only while it is not registered in another account (Login
      asks GetPeer first, though in another critical section), a peer is renamed through the account it is
      in, and an account is added under an unused id. */
  ghost predicate Disciplined(s: StoreState, op: Op) {
    && (forall id :: AddsTo(s, op, id) ==> op.req.key in s.peerIdx ==> s.peerIdx[op.req.key] == id)
    && (op.RenamePeerOp? && op.key in s.peerIdx ==> s.peerIdx[op.key] == op.accountId)
    && (op.AddAccountOp? ==> op.accountId !in s.accounts)
  }
}
