/** The operations of the account manager (management/server/{peer,account,user,group,rule}.go) as
    functions from the state of the store to a change of it and a result. What the code leaves to
    chance or to Go (fresh identifiers, the clock, which address is picked, the order in which a map
    is iterated) are parameters. All operations run under one mutex, so each is one atomic step. */
module ManagerSpec {
  import opened IpAllocation
  import opened Model
  import opened StoreSpec

  datatype Outcome<+T> = Outcome(change: Change, result: Result<T>)

  // ----- lookups -----

  function AccountOf(s: StoreState, idx: map<string, string>, key: string): Result<string> {
    if key in idx && idx[key] in s.accounts then Ok(idx[key]) else Err(NotFound)
  }

  /** `Store.GetPeer`: the id of the account whose peer map holds the key. */
  function PeerHome(s: StoreState, key: string): Result<string> {
    var home := AccountOf(s, s.peerIdx, key);
    if home.Ok? && key !in s.accounts[home.value].peers then Err(NotFound) else home
  }

  // ----- peers -----

  datatype PeerRequest = PeerRequest(key: string, name: string, meta: Meta)

  /** The account a new peer goes to, or why it is turned away. */
  function LocateForAdd(s: StoreState, setupKey: string, userId: string, now: int): Result<string> {
    var key := Upper(setupKey);
    if key != "" then
      var home := AccountOf(s, s.setupKeyIdx, Upper(key));
      if home.Err? then Err(NotFound)
      else if key !in s.accounts[home.value].setupKeys then Err(NotFound)
      else if !s.accounts[home.value].setupKeys[key].IsValid(now) then Err(FailedPrecondition)
      else home
    else if userId != "" then AccountOf(s, s.userIdx, userId)
    else Err(InvalidArgument)
  }

  /** `ip` and `gid` are picks that AddPeer may make: a free address, and a group named All. */
  predicate AddPicks(s: StoreState, setupKey: string, userId: string, now: int, ip: Addr, gid: string) {
    var home := LocateForAdd(s, setupKey, userId, now);
    home.Ok? ==>
      var a := s.accounts[home.value];
      && a.network.net.Valid()
      && (FreeIps(a.network.net, a.TakenIps()) != [] ==> ip in FreeIps(a.network.net, a.TakenIps()))
      && (a.AllGroups() != {} ==> gid in a.AllGroups())
  }

  function AppendToGroup(a: Account, gid: string, key: string): map<string, Group>
    requires gid in a.groups
  {
    a.groups[gid := a.groups[gid].(peers := a.groups[gid].peers + [key])]
  }

  /** The part of AddPeer after the account is found; `key` is the setup key in upper case, or empty. */
  function Register(a: Account, key: string, userId: string, req: PeerRequest, now: int, ip: Addr,
                    gid: string): Outcome<Peer>
    requires a.network.net.Valid() && (key != "" ==> key in a.setupKeys)
    requires a.AllGroups() != {} ==> gid in a.AllGroups()
  {
    if FreeIps(a.network.net, a.TakenIps()) == [] then Outcome(NoChange, Err(OutOfRange))
    else if a.AllGroups() == {} then Outcome(NoChange, Err(Plain))
    else
      var p := Peer(req.key, key, ip, req.meta, req.name, PeerStatus(false, now), userId);
      var keys := if key != "" then a.setupKeys[key := a.setupKeys[key].IncrementUsage(now)] else a.setupKeys;
      Outcome(Saved(a.(groups := AppendToGroup(a, gid, p.key), peers := a.peers[p.key := p],
                       setupKeys := keys, network := a.network.IncSerial())),
              Ok(p))
  }

  function AddPeer(s: StoreState, setupKey: string, userId: string, req: PeerRequest, now: int,
                   ip: Addr, gid: string): Outcome<Peer>
    requires AddPicks(s, setupKey, userId, now, ip, gid)
  {
    var home := LocateForAdd(s, setupKey, userId, now);
    if home.Err? then Outcome(NoChange, Err(home.error))
    else Register(s.accounts[home.value], Upper(setupKey), userId, req, now, ip, gid)
  }

  /** The group clean-up of `Store.DeletePeer`. The list of survivors is declared outside the loop, so
      a group visited later also receives what the groups visited earlier kept. */
  function CleanGroups(groups: map<string, Group>, order: seq<string>, kept: seq<string>,
                       key: string): map<string, Group>
    requires forall g :: g in order ==> g in groups
  {
    if order == [] then groups
    else
      var g := order[0];
      var now := kept + Without(groups[g].peers, key);
      CleanGroups(groups[g := groups[g].(peers := now)], order[1..], now, key)
  }

  /** The account that `DeletePeer` saves. */
  function Removed(a: Account, key: string, order: seq<string>): Account
    requires forall g :: g in order ==> g in a.groups
  {
    a.(peers := a.peers - {key}, groups := CleanGroups(a.groups, order, [], key), network := a.network.IncSerial())
  }

  function DeletePeer(s: StoreState, accountId: string, key: string, order: seq<string>): Outcome<Peer>
    requires accountId in s.accounts ==> forall g :: g in order ==> g in s.accounts[accountId].groups
  {
    if accountId !in s.accounts || key !in s.accounts[accountId].peers then Outcome(NoChange, Err(NotFound))
    else
      var a := s.accounts[accountId];
      Outcome(SavedWithoutPeer(Removed(a, key, order), key), Ok(a.peers[key]))
  }

  /** `Store.SavePeer`: no index is touched. */
  function SavePeer(a: Account, p: Peer, gid: string): Outcome<Peer>
    requires a.AllGroups() != {} ==> gid in a.AllGroups()
  {
    if a.AllGroups() == {} then Outcome(NoChange, Err(Plain))
    else
      var groups := if p.key in a.groups[gid].peers then a.groups else AppendToGroup(a, gid, p.key);
      Outcome(InPlace(a.(groups := groups, peers := a.peers[p.key := p])), Ok(p))
  }

  predicate SavePicks(s: StoreState, accountId: string, gid: string) {
    accountId in s.accounts && s.accounts[accountId].AllGroups() != {} ==> gid in s.accounts[accountId].AllGroups()
  }

  function RenamePeer(s: StoreState, accountId: string, key: string, name: string, gid: string): Outcome<Peer>
    requires SavePicks(s, accountId, gid)
  {
    var home := PeerHome(s, key);
    if home.Err? || accountId !in s.accounts then Outcome(NoChange, Err(NotFound))
    else SavePeer(s.accounts[accountId], s.accounts[home.value].peers[key].(name := name), gid)
  }

  predicate HomePicks(s: StoreState, key: string, gid: string) {
    PeerHome(s, key).Ok? ==> SavePicks(s, PeerHome(s, key).value, gid)
  }

  /** The copy that MarkPeerConnected makes shares the peer's status record, so the stored peer is
      updated even when SavePeer then finds no group All. */
  function MarkPeerConnected(s: StoreState, key: string, connected: bool, now: int, gid: string): Outcome<Peer>
    requires HomePicks(s, key, gid)
  {
    var home := PeerHome(s, key);
    if home.Err? then Outcome(NoChange, Err(home.error))
    else
      var a := s.accounts[home.value];
      var p := a.peers[key].(status := PeerStatus(connected, now));
      var saved := SavePeer(a, p, gid);
      if saved.result.Err? then Outcome(InPlace(a.(peers := a.peers[key := p])), saved.result) else saved
  }

  function UpdatePeerMeta(s: StoreState, key: string, meta: Meta, gid: string): Outcome<Peer>
    requires HomePicks(s, key, gid)
  {
    var home := PeerHome(s, key);
    if home.Err? then Outcome(NoChange, Err(home.error))
    else
      var p := s.accounts[home.value].peers[key];
      var m := if meta.uiVersion == "" then meta.(uiVersion := p.meta.uiVersion) else meta;
      SavePeer(s.accounts[home.value], p.(meta := m), gid)
  }

  // ----- setup keys -----

  /** `GenerateSetupKey`: `id` is the hash of the key and `key` a fresh identifier. */
  function GenerateSetupKey(id: string, key: string, name: string, typ: KeyType, validFor: int, now: int): SetupKey {
    SetupKey(id, Upper(key), name, typ, now, now + validFor, false, 0, 0)
  }

  function AddSetupKey(s: StoreState, accountId: string, name: string, typ: KeyType, validFor: int,
                       id: string, key: string, now: int): Outcome<SetupKey> {
    if accountId !in s.accounts then Outcome(NoChange, Err(NotFound))
    else
      var a, k := s.accounts[accountId], GenerateSetupKey(id, key, name, typ, validFor, now);
      Outcome(Saved(a.(setupKeys := a.setupKeys[k.key := k])), Ok(k))
  }

  /** The keys getAccountSetupKeyById may return: ids are hashes, so several keys can share one. */
  function KeysWithId(a: Account, id: string): set<string> {
    set k | k in a.setupKeys && a.setupKeys[k].id == id
  }

  predicate KeyPicks(s: StoreState, accountId: string, id: string, pick: string) {
    accountId in s.accounts && KeysWithId(s.accounts[accountId], id) != {} ==>
      pick in KeysWithId(s.accounts[accountId], id)
  }

  function ReplaceKey(a: Account, k: SetupKey): Outcome<SetupKey> {
    Outcome(Saved(a.(setupKeys := a.setupKeys[k.key := k])), Ok(k))
  }

  function RevokeSetupKey(s: StoreState, accountId: string, id: string, pick: string): Outcome<SetupKey>
    requires KeyPicks(s, accountId, id, pick)
  {
    if accountId !in s.accounts || KeysWithId(s.accounts[accountId], id) == {} then Outcome(NoChange, Err(NotFound))
    else ReplaceKey(s.accounts[accountId], s.accounts[accountId].setupKeys[pick].(revoked := true))
  }

  function RenameSetupKey(s: StoreState, accountId: string, id: string, name: string, pick: string): Outcome<SetupKey>
    requires KeyPicks(s, accountId, id, pick)
  {
    if accountId !in s.accounts || KeysWithId(s.accounts[accountId], id) == {} then Outcome(NoChange, Err(NotFound))
    else ReplaceKey(s.accounts[accountId], s.accounts[accountId].setupKeys[pick].(name := name))
  }

  // ----- accounts and users -----

  /** The identifiers and the network a new account is generated with. */
  datatype Fresh = Fresh(accountId: string, defaultKeyId: string, defaultKey: string,
                         oneOffKeyId: string, oneOffKey: string, network: Network,
                         groupId: string, ruleId: string)

  predicate IsFresh(s: StoreState, f: Fresh) {
    && f.accountId !in s.accounts
    && Upper(f.defaultKey) != Upper(f.oneOffKey)
    && Upper(f.defaultKey) !in s.setupKeyIdx
    && Upper(f.oneOffKey) !in s.setupKeyIdx
    && f.network.net.Valid() && f.network.serial == 0
  }

  function NewAccountWithId(f: Fresh, accountId: string, userId: string, domain: string, now: int): Account {
    var reusable := GenerateSetupKey(f.defaultKeyId, f.defaultKey, "Default key", Reusable, DEFAULT_KEY_DURATION, now);
    var oneOff := GenerateSetupKey(f.oneOffKeyId, f.oneOffKey, "One-off key", OneOff, DEFAULT_KEY_DURATION, now);
    Account(accountId, userId, domain, "", false, map[reusable.key := reusable][oneOff.key := oneOff],
            f.network, map[], map[], map[], map[])
  }

  /** `addAllGroup`: an account without groups gets the group All of all its peers, in some order, and
      the Default rule from All to All. */
  function AddAllGroup(a: Account, groupId: string, ruleId: string, order: seq<string>): Account {
    if |a.groups| != 0 then a
    else a.(groups := map[groupId := Group(groupId, ALL_GROUP, order)],
            rules := map[ruleId := Rule(ruleId, "Default", [groupId], [groupId], FLOW_BIDIRECT)])
  }

  function GetOrCreateAccountByUser(s: StoreState, userId: string, domain: string, f: Fresh,
                                    now: int): Outcome<string>
  {
    var d := Lower(domain);
    var home := AccountOf(s, s.userIdx, userId);
    if home.Err? then
      var a := NewAccountWithId(f, f.accountId, userId, d, now).(users := map[userId := User(userId, Admin)]);
      Outcome(Saved(AddAllGroup(a, f.groupId, f.ruleId, [])), Ok(f.accountId))
    else if s.accounts[home.value].domain != d then
      Outcome(Saved(s.accounts[home.value].(domain := d)), home)
    else Outcome(NoChange, home)
  }

  function AddAccount(s: StoreState, accountId: string, userId: string, domain: string, f: Fresh,
                      now: int): Outcome<string>
  {
    var a := NewAccountWithId(f, accountId, userId, domain, now);
    Outcome(Saved(AddAllGroup(a, f.groupId, f.ruleId, [])), Ok(accountId))
  }

  datatype Claims = Claims(userId: string, accountId: string, domain: string, domainCategory: string)

  /** `updateAccountDomainAttributes`. */
  function WithDomain(a: Account, claims: Claims, primary: bool): Account {
    a.(isPrimary := primary, domain := Lower(claims.domain), domainCategory := claims.domainCategory)
  }

  /** The locked part of GetAccountWithAuthorizationClaims: claims of the private category. */
  function PrivateClaims(s: StoreState, claims: Claims, f: Fresh, now: int): Outcome<string> {
    var domainAccount := AccountOf(s, s.domainIdx, Lower(claims.domain));
    var home := AccountOf(s, s.userIdx, claims.userId);
    if home.Ok? then // handleExistingUserAccount
      var primary := domainAccount.Err? || domainAccount.value == home.value;
      Outcome(Saved(WithDomain(s.accounts[home.value], claims, primary)), home)
    else if domainAccount.Ok? then // handleNewUserAccount, joining
      var a := s.accounts[domainAccount.value];
      Outcome(Saved(a.(users := a.users[claims.userId := User(claims.userId, Regular)])), domainAccount)
    else // handleNewUserAccount, a new primary account; it gets no group All
      var a := NewAccountWithId(f, f.accountId, claims.userId, Lower(claims.domain), now)
               .(users := map[claims.userId := User(claims.userId, Admin)]);
      Outcome(Saved(WithDomain(a, claims, true)), Ok(f.accountId))
  }

  /** `GetAccountWithAuthorizationClaims`, updating the identity provider always succeeding. */
  function AccountWithClaims(s: StoreState, claims: Claims, f: Fresh, now: int): Outcome<string> {
    if claims.domainCategory != PRIVATE_CATEGORY then // GetAccountByUserOrAccountId
      if claims.accountId != "" then
        Outcome(NoChange, if claims.accountId in s.accounts then Ok(claims.accountId) else Err(NotFound))
      else if claims.userId != "" then GetOrCreateAccountByUser(s, claims.userId, claims.domain, f, now)
      else Outcome(NoChange, Err(NotFound))
    else if claims.accountId != "" && claims.accountId !in s.accounts then Outcome(NoChange, Err(NotFound))
    else if claims.accountId != "" && claims.userId !in s.accounts[claims.accountId].users then
      Outcome(NoChange, Err(Plain))
    else if claims.accountId != "" && s.accounts[claims.accountId].domainCategory == PRIVATE_CATEGORY then
      Outcome(NoChange, Ok(claims.accountId))
    else PrivateClaims(s, claims, f, now)
  }

  // ----- groups and rules -----

  function SaveGroup(s: StoreState, accountId: string, g: Group): Outcome<()> {
    if accountId !in s.accounts then Outcome(NoChange, Err(NotFound))
    else
      var a := s.accounts[accountId];
      Outcome(Saved(a.(groups := a.groups[g.id := g])), Ok(()))
  }

  function DeleteGroup(s: StoreState, accountId: string, gid: string): Outcome<()> {
    if accountId !in s.accounts then Outcome(NoChange, Err(NotFound))
    else
      var a := s.accounts[accountId];
      Outcome(Saved(a.(groups := a.groups - {gid})), Ok(()))
  }

  function GroupAddPeer(s: StoreState, accountId: string, gid: string, key: string): Outcome<()> {
    if accountId !in s.accounts || gid !in s.accounts[accountId].groups then Outcome(NoChange, Err(NotFound))
    else
      var a := s.accounts[accountId];
      Outcome(Saved(if key in a.groups[gid].peers then a else a.(groups := AppendToGroup(a, gid, key))), Ok(()))
  }

  /** The list without its first occurrence of `key`: the shift-left removal. */
  function RemoveFirst(s: seq<string>, key: string): (r: seq<string>)
    ensures forall k :: k in r ==> k in s
    ensures forall k :: k in s && k != key ==> k in r
  {
    if s == [] then []
    else if s[0] == key then s[1..]
    else [s[0]] + RemoveFirst(s[1..], key)
  }

  /** The account without the first occurrence of the peer in the group. */
  function TakenOut(a: Account, gid: string, key: string): Account
    requires gid in a.groups
  {
    a.(groups := a.groups[gid := a.groups[gid].(peers := RemoveFirst(a.groups[gid].peers, key))])
  }

  function GroupDeletePeer(s: StoreState, accountId: string, gid: string, key: string): Outcome<()> {
    if accountId !in s.accounts || gid !in s.accounts[accountId].groups then Outcome(NoChange, Err(NotFound))
    else
      var a := s.accounts[accountId];
      if key in a.groups[gid].peers then Outcome(Saved(TakenOut(a, gid, key)), Ok(())) else Outcome(NoChange, Ok(()))
  }

  function SaveRule(s: StoreState, accountId: string, r: Rule): Outcome<()> {
    if accountId !in s.accounts then Outcome(NoChange, Err(NotFound))
    else
      var a := s.accounts[accountId];
      Outcome(Saved(a.(rules := a.rules[r.id := r])), Ok(()))
  }

  function DeleteRule(s: StoreState, accountId: string, rid: string): Outcome<()> {
    if accountId !in s.accounts then Outcome(NoChange, Err(NotFound))
    else
      var a := s.accounts[accountId];
      Outcome(Saved(a.(rules := a.rules - {rid})), Ok(()))
  }
}
