/** What the operations on peers, setup keys, groups and rules answer and leave behind, in terms of what the accounts
    hold: management/server/{peer,account,group,rule}.go. */
module Answers {
  import opened IpAllocation
  import opened Model
  import opened StoreSpec
  import opened ManagerSpec
  import opened Operations
  import opened OperationShapes
  import opened IndexAgreement
  import opened AccountHistory
  import opened KeyHistory
  import opened AccountAnswers
  import opened FullMesh
  import opened Effects
  import AccountRecords

  // ----- upper and lower case -----

  predicate IsLowerCase(c: char) { 'a' <= c <= 'z' }
  predicate IsUpperCase(c: char) { 'A' <= c <= 'Z' }

  /** Putting a text in one case leaves no letter of the other and everything else as it is, and texts that differ in
      case only become the same. */
  lemma CaseOnly(s: string)
    ensures forall i :: 0 <= i < |s| ==> !IsLowerCase(Upper(s)[i]) && !IsUpperCase(Lower(s)[i])
    ensures forall i :: 0 <= i < |s| ==>
      (IsLowerCase(s[i]) || Upper(s)[i] == s[i]) && (IsUpperCase(s[i]) || Lower(s)[i] == s[i])
    ensures Upper(Lower(s)) == Upper(s) && Lower(Upper(s)) == Lower(s)
  {
  }

  /** Setup keys and domains are the same in any case. */
  lemma CaseDoesNotMatter(s: StoreState, setupKey: string, userId: string, now: int, domain: string, f: Fresh)
    ensures LocateForAdd(s, Lower(setupKey), userId, now) == LocateForAdd(s, Upper(setupKey), userId, now)
    ensures LocateForAdd(s, setupKey, userId, now) == LocateForAdd(s, Upper(setupKey), userId, now)
    ensures GetOrCreateAccountByUser(s, userId, domain, f, now) ==
            GetOrCreateAccountByUser(s, userId, Upper(domain), f, now)
  {
    hide Upper, Lower, NewAccountWithId;
    CaseOnly(setupKey);
    CaseOnly(domain);
    UpperIdempotent(setupKey);
  }

  // ----- registering -----

  /** The key is in the account, not revoked, not expired, and not a used one-off key. */
  ghost predicate Admits(s: StoreState, id: string, k: string, now: int) {
    Stores(s, id, k) &&
    var key := Stored(s, id, k);
    !key.revoked && now <= key.expiresAt && (key.typ == OneOff ==> key.usedTimes == 0)
  }

  /** The account that a request to register is for: a setup key comes before a user. */
  ghost predicate Admitted(s: StoreState, op: Op, id: string)
    requires op.AddPeerOp?
  {
    if Upper(op.setupKey) != "" then Admits(s, id, Upper(op.setupKey), op.now)
    else op.userId != "" && HasUser(s, id, op.userId)
  }

  ghost predicate KeyKnown(s: StoreState, k: string) {
    exists id :: Stores(s, id, k)
  }

  lemma LocatedExactly(s: StoreState, op: Op)
    requires Agree(s) && op.AddPeerOp?
    ensures var r, k := LocateForAdd(s, op.setupKey, op.userId, op.now), Upper(op.setupKey);
      && (forall id :: r == Ok(id) <==> Admitted(s, op, id))
      && (r.Err? ==>
            r.error == if k == "" && op.userId == "" then InvalidArgument
                       else if k != "" && KeyKnown(s, k) then FailedPrecondition else NotFound)
  {
    hide Account.WellFormed, Exact, Agree, Upper;
    var r, k := LocateForAdd(s, op.setupKey, op.userId, op.now), Upper(op.setupKey);
    UpperIdempotent(op.setupKey);
    forall id ensures AccountOf(s, s.setupKeyIdx, k) == Ok(id) <==> Stores(s, id, k)
              ensures AccountOf(s, s.userIdx, op.userId) == Ok(id) <==> HasUser(s, id, op.userId)
    {
      LookupsFindHolders(s, id, "", op.userId, k);
    }
    if AccountOf(s, s.setupKeyIdx, k).Ok? {
      assert Stores(s, AccountOf(s, s.setupKeyIdx, k).value, k);
      forall id | Stores(s, id, k) ensures id == AccountOf(s, s.setupKeyIdx, k).value {}
    }
  }

  ghost function AddAnswer(s: StoreState, op: Op): Result<Peer>
    requires op.AddPeerOp? && Enabled(s, op)
  {
    AddPeer(s, op.setupKey, op.userId, op.req, op.now, op.ip, op.gid).result
  }

  /** The peer that a request describes, at an address, not connected yet. */
  function AsRequested(op: Op): Peer
    requires op.AddPeerOp?
  {
    Peer(op.req.key, Upper(op.setupKey), op.ip, op.req.meta, op.req.name, PeerStatus(false, op.now), op.userId)
  }

  /** The account with the peer entered: registered, at the end of the one group All, with the serial one up. */
  ghost predicate Entered(a: Account, b: Account, op: Op, p: Peer)
    requires op.AddPeerOp?
  {
    && b.peers == a.peers[p.key := p] && op.gid in a.groups && a.groups[op.gid].name == "All"
    && b.groups == a.groups[op.gid := a.groups[op.gid].(peers := a.groups[op.gid].peers + [p.key])]
    && b.network == a.network.(serial := a.network.serial + 1)
    && b == a.(peers := b.peers, groups := b.groups, network := b.network, setupKeys := b.setupKeys)
  }

  ghost predicate LacksAll(a: Account) {
    forall g :: g in a.groups ==> a.groups[g].name != "All"
  }

  /** AddPeer answers with the peer as requested, at a free address, exactly when a valid key or a known user leads to
      an account that has a free address and a group All; otherwise each way of failing has its error and changes
      nothing. */
  lemma AddPeerAnswer(s: StoreState, op: Op, id: string)
    requires Agree(s) && Enabled(s, op) && op.AddPeerOp?
    ensures (forall x :: !Admitted(s, op, x)) ==> AddAnswer(s, op) == Err(
      if Upper(op.setupKey) == "" && op.userId == "" then InvalidArgument
      else if Upper(op.setupKey) != "" && KeyKnown(s, Upper(op.setupKey)) then FailedPrecondition else NotFound)
    ensures Admitted(s, op, id) ==>
      && id in s.accounts && s.accounts[id].network.net.Valid()
      && var a := s.accounts[id];
         AddAnswer(s, op) == if FreeIps(a.network.net, a.TakenIps()) == [] then Err(OutOfRange)
                             else if LacksAll(a) then Err(Plain)
                             else Ok(AsRequested(op))
    ensures AddAnswer(s, op).Err? ==> Step(s, op) == s
    ensures AddAnswer(s, op).Ok? && Admitted(s, op, id) ==>
      && op.ip in FreeIps(s.accounts[id].network.net, s.accounts[id].TakenIps())
      && id in Step(s, op).accounts && Becomes(s, Step(s, op), id, Step(s, op).accounts[id])
      && Entered(s.accounts[id], Step(s, op).accounts[id], op, AsRequested(op))
  {
    hide Account.WellFormed, Exact, Agree, Upper, FreeIps, LocateForAdd, Admitted, Save, Account.TakenIps, KeyKnown;
    hide StoreState.WellFormed, AppendToGroup;
    StoreOfAgree(s);
    LocatedExactly(s, op);
    LocatedKey(s, op.setupKey, op.userId, op.now);
    if Admitted(s, op, id) {
      StoredUnderId(s, id);
      SomeAll(s.accounts[id]);
      RegisteredAs(s, op, id);
    } else if forall x :: !Admitted(s, op, x) {
      assert LocateForAdd(s, op.setupKey, op.userId, op.now).Err?;
    }
  }

  lemma SomeAll(a: Account)
    ensures a.AllGroups() == {} <==> LacksAll(a)
  {
    forall g | g in a.groups && a.groups[g].name == "All" ensures g in a.AllGroups() {}
  }

  lemma RegisteredAs(s: StoreState, op: Op, id: string)
    requires s.WellFormed() && Enabled(s, op) && op.AddPeerOp?
    requires LocateForAdd(s, op.setupKey, op.userId, op.now) == Ok(id) && id in s.accounts && s.accounts[id].id == id
    ensures s.accounts[id].network.net.Valid()
    ensures AddAnswer(s, op).Ok? ==>
      && AddAnswer(s, op).value == AsRequested(op)
      && op.ip in FreeIps(s.accounts[id].network.net, s.accounts[id].TakenIps())
      && id in Step(s, op).accounts && Becomes(s, Step(s, op), id, Step(s, op).accounts[id])
      && Entered(s.accounts[id], Step(s, op).accounts[id], op, AsRequested(op))
  {
    hide Account.WellFormed, Upper, FreeIps, LocateForAdd, Save, Account.TakenIps, StoreState.WellFormed;
    LocatedKey(s, op.setupKey, op.userId, op.now);
    ChangedAccounts(s, ChangeOf(s, op));
  }

  // ----- deleting -----

  /** DeletePeer answers with the peer exactly when the account has it. The peer is then in no account, so that its key
      can be registered anywhere; the account keeps its other peers, its keys, users and rules, its serial is one up,
      and no other account changes. Otherwise nothing changes. */
  lemma DeletePeerAnswer(s: StoreState, op: Op)
    requires Agree(s) && Enabled(s, op) && op.DeletePeerOp?
    ensures var id, key, t := op.accountId, op.key, Step(s, op);
      var r := DeletePeer(s, id, key, op.order).result;
      if !HasPeer(s, id, key) then r == Err(NotFound) && t == s
      else
        && r == Ok(s.accounts[id].peers[key]) && PeerHome(t, key) == Err(NotFound)
        && id in t.accounts && Becomes(s, t, id, t.accounts[id])
        && var a, b := s.accounts[id], t.accounts[id];
           && b.network == a.network.(serial := a.network.serial + 1) && b.groups.Keys == a.groups.Keys
           && b == a.(peers := a.peers - {key}, network := b.network, groups := b.groups)
  {
    hide Account.WellFormed, Exact, Agree, Save, CleanGroups, StoreState.WellFormed, IsListing, PeerHome;
    StoreOfAgree(s);
    if HasPeer(s, op.accountId, op.key) {
      StoredUnderId(s, op.accountId);
      DeletedAs(s, op);
      StepAgrees(s, op);
      NobodyHas(s, op);
    }
  }

  lemma DeletedAs(s: StoreState, op: Op)
    requires s.WellFormed() && Enabled(s, op) && op.DeletePeerOp? && HasPeer(s, op.accountId, op.key)
    requires s.accounts[op.accountId].id == op.accountId
    ensures var id, t := op.accountId, Step(s, op);
      && id in t.accounts && Becomes(s, t, id, t.accounts[id])
      && var a, b := s.accounts[id], t.accounts[id];
         && b.network == a.network.(serial := a.network.serial + 1) && b.groups.Keys == a.groups.Keys
         && b == a.(peers := a.peers - {op.key}, network := b.network, groups := b.groups)
  {
    hide Account.WellFormed, Save, CleanGroups, StoreState.WellFormed, IsListing;
    ChangedAccounts(s, ChangeOf(s, op));
    ListedGroups(s, op);
    CleanGroupsShape(s.accounts[op.accountId].groups, op.order, [], op.key);
  }

  lemma ListedGroups(s: StoreState, op: Op)
    requires Enabled(s, op) && op.DeletePeerOp? && op.accountId in s.accounts
    ensures forall g :: g in op.order ==> g in s.accounts[op.accountId].groups
  {
  }

  lemma NobodyHas(s: StoreState, op: Op)
    requires Agree(s) && s.WellFormed() && op.DeletePeerOp? && Enabled(s, op) && HasPeer(s, op.accountId, op.key)
    requires Agree(Step(s, op))
    requires var id, t := op.accountId, Step(s, op);
      id in t.accounts && Becomes(s, t, id, t.accounts[id]) && op.key !in t.accounts[id].peers
    ensures PeerHome(Step(s, op), op.key) == Err(NotFound)
  {
    hide Agree, Step, Enabled, PeerHome;
    var t := Step(s, op);
    forall x ensures !HasPeer(t, x, op.key) {
      if HasPeer(t, x, op.key) {
        HeldPeer(s, x, op.key);
        HeldPeer(s, op.accountId, op.key);
        assert false;
      }
    }
    if PeerHome(t, op.key).Ok? {
      LookupsFindHolders(t, PeerHome(t, op.key).value, op.key, "", "");
      assert false;
    }
    LookupsFindHolders(t, "", op.key, "", "");
  }

  // ----- saving a peer in place -----

  ghost function InPlaceAnswer(s: StoreState, op: Op): Result<Peer>
    requires IsInPlaceOp(op) && Enabled(s, op)
  {
    match op
    case RenamePeerOp(id, key, name, gid) => RenamePeer(s, id, key, name, gid).result
    case MarkPeerOp(key, c, now, gid) => MarkPeerConnected(s, key, c, now, gid).result
    case UpdateMetaOp(key, meta, gid) => UpdatePeerMeta(s, key, meta, gid).result
  }

  ghost predicate InPlaceMeans(s: StoreState, t: StoreState, op: Op, id: string, r: Result<Peer>)
    requires IsInPlaceOp(op) && HasPeer(s, id, op.key)
  {
    && HasPeer(t, id, op.key)
    && var p, q := s.accounts[id].peers[op.key], t.accounts[id].peers[op.key];
       if LacksAll(s.accounts[id]) then r == Err(Plain) && if op.MarkPeerOp? then WritesOwnField(op, p, q) else t == s
       else r == Ok(q) && WritesOwnField(op, p, q)
  }

  /** A rename, a status change and new metadata answer with the peer as it is then stored, exactly when it is
      registered in an account with a group All. Without the group they fail, and of the three only the status change
      is made nevertheless; a peer nobody knows is not found. */
  lemma InPlaceAnswers(s: StoreState, op: Op, id: string)
    requires Agree(s) && s.WellFormed() && Enabled(s, op) && Disciplined(s, op) && IsInPlaceOp(op)
    ensures (forall x :: !HasPeer(s, x, op.key)) ==> InPlaceAnswer(s, op) == Err(NotFound) && Step(s, op) == s
    ensures HasPeer(s, id, op.key) ==> InPlaceMeans(s, Step(s, op), op, id, InPlaceAnswer(s, op))
  {
    hide Account.WellFormed, Exact, Agree, StoreState.WellFormed, Step, InPlaceAnswer, InPlaceMeans;
    hide Enabled, Disciplined, PeerHome;
    if HasPeer(s, id, op.key) {
      LookupsFindHolders(s, id, op.key, "", "");
      KnownAnswer(s, op, id);
    } else if forall x :: !HasPeer(s, x, op.key) {
      if PeerHome(s, op.key).Ok? {
        LookupsFindHolders(s, PeerHome(s, op.key).value, op.key, "", "");
        assert false;
      }
      UnknownAnswer(s, op);
    }
  }

  lemma UnknownAnswer(s: StoreState, op: Op)
    requires Enabled(s, op) && IsInPlaceOp(op) && PeerHome(s, op.key).Err? && s.WellFormed()
    ensures InPlaceAnswer(s, op) == Err(NotFound) && Step(s, op) == s
  {
    hide Account.WellFormed;
  }

  lemma KnownAnswer(s: StoreState, op: Op, id: string)
    requires s.WellFormed() && Enabled(s, op) && Disciplined(s, op) && IsInPlaceOp(op)
    requires HasPeer(s, id, op.key) && PeerHome(s, op.key) == Ok(id)
    ensures InPlaceMeans(s, Step(s, op), op, id, InPlaceAnswer(s, op))
  {
    hide Account.WellFormed, Enabled, Disciplined, StoreState.WellFormed, InPlaceMeans, InPlaceAnswer, Step;
    StoredUnderId(s, id);
    SomeAll(s.accounts[id]);
    PeerIsKeyed(s, id, op.key);
    if op.MarkPeerOp? { KnownMark(s, op, id); } else { KnownSave(s, op, id); }
  }

  lemma PeerIsKeyed(s: StoreState, id: string, key: string)
    requires s.WellFormed() && HasPeer(s, id, key)
    ensures s.accounts[id].peers[key].key == key
  {
    PeerKeyed(s.accounts[id], key);
  }

  lemma KnownMark(s: StoreState, op: Op, id: string)
    requires s.WellFormed() && Enabled(s, op) && op.MarkPeerOp?
    requires HasPeer(s, id, op.key) && PeerHome(s, op.key) == Ok(id) && s.accounts[id].peers[op.key].key == op.key
    requires s.accounts[id].id == id && (s.accounts[id].AllGroups() == {} <==> LacksAll(s.accounts[id]))
    ensures InPlaceMeans(s, Step(s, op), op, id, InPlaceAnswer(s, op))
  {
    hide StoreState.WellFormed, MarkPeerConnected, LacksAll, PeerHome, Enabled, Account.AllGroups;
    MarkIsSaved(s, op, id);
    ChangedAccounts(s, ChangeOf(s, op));
  }

  lemma MarkIsSaved(s: StoreState, op: Op, id: string)
    requires Enabled(s, op) && op.MarkPeerOp? && HasPeer(s, id, op.key) && PeerHome(s, op.key) == Ok(id)
    requires s.accounts[id].peers[op.key].key == op.key
    ensures var a, c := s.accounts[id], ChangeOf(s, op);
      var p := a.peers[op.key].(status := PeerStatus(op.connected, op.now));
      && c.InPlace? && c.a.id == a.id && c.a.peers == a.peers[op.key := p]
      && InPlaceAnswer(s, op) == if a.AllGroups() == {} then Err(Plain) else Ok(p)
  {
    hide AppendToGroup, Account.AllGroups, PeerHome;
  }

  lemma KnownSave(s: StoreState, op: Op, id: string)
    requires s.WellFormed() && Enabled(s, op) && Disciplined(s, op) && (op.RenamePeerOp? || op.UpdateMetaOp?)
    requires HasPeer(s, id, op.key) && PeerHome(s, op.key) == Ok(id) && s.accounts[id].peers[op.key].key == op.key
    requires s.accounts[id].id == id && (s.accounts[id].AllGroups() == {} <==> LacksAll(s.accounts[id]))
    ensures InPlaceMeans(s, Step(s, op), op, id, InPlaceAnswer(s, op))
  {
    hide StoreState.WellFormed, AppendToGroup, Account.AllGroups, LacksAll;
  }

  // ----- setup keys -----

  ghost function KeyAnswer(s: StoreState, op: Op): Result<SetupKey>
    requires IsKeyOp(op) && Enabled(s, op)
  {
    match op
    case AddSetupKeyOp(id, name, typ, validFor, kid, newKey, now) =>
      AddSetupKey(s, id, name, typ, validFor, kid, newKey, now).result
    case RevokeKeyOp(id, kid, pick) => RevokeSetupKey(s, id, kid, pick).result
    case RenameKeyOp(id, kid, name, pick) => RenameSetupKey(s, id, kid, name, pick).result
  }

  /** The setup-key operations answer with the key as it is then stored; they fail exactly when the account, or a key of
      it with the id, is not there, and then change nothing. */
  lemma KeyAnswers(s: StoreState, op: Op)
    requires Agree(s) && Enabled(s, op) && Disciplined(s, op) && IsKeyOp(op)
    ensures var id, t, r := op.accountId, Step(s, op), KeyAnswer(s, op);
      var k := if op.AddSetupKeyOp? then Upper(op.newKey) else op.pick;
      && (r.Ok? <==> id in s.accounts && (op.AddSetupKeyOp? || HasKeyWithId(s, id, op.id)))
      && (r.Err? ==> r == Err(NotFound) && t == s)
      && (r.Ok? ==> Stores(t, id, k) && r.value == Stored(t, id, k) && r.value.id == op.id)
  {
    hide Account.WellFormed, Exact, Agree, Upper, StoreState.WellFormed, Save, HasKeyWithId;
    StoreOfAgree(s);
    if op.accountId in s.accounts {
      StoredUnderId(s, op.accountId);
      KeyedIn(s, op.accountId);
    }
    if !op.AddSetupKeyOp? && op.accountId in s.accounts { SomeWithId(s, op.accountId, op.id); }
    ChangedAccounts(s, ChangeOf(s, op));
  }

  lemma KeyedIn(s: StoreState, id: string)
    requires s.WellFormed() && id in s.accounts
    ensures forall k :: k in s.accounts[id].setupKeys ==> s.accounts[id].setupKeys[k].key == k
  {
    SetupKeysKeyed(s.accounts[id]);
  }

  ghost predicate HasKeyWithId(s: StoreState, id: string, keyId: string) {
    exists k :: Stores(s, id, k) && Stored(s, id, k).id == keyId
  }

  lemma SomeWithId(s: StoreState, id: string, keyId: string)
    requires id in s.accounts
    ensures KeysWithId(s.accounts[id], keyId) != {} <==> HasKeyWithId(s, id, keyId)
  {
    if HasKeyWithId(s, id, keyId) {
      var k :| Stores(s, id, k) && Stored(s, id, k).id == keyId;
      assert k in KeysWithId(s.accounts[id], keyId);
    }
    if KeysWithId(s.accounts[id], keyId) != {} {
      var k :| k in KeysWithId(s.accounts[id], keyId);
      assert Stores(s, id, k);
    }
  }

  // ----- groups and rules -----

  /** `i` is the first place of the key. */
  ghost predicate FirstAt(s: seq<string>, key: string, i: nat) {
    i < |s| && s[i] == key && key !in s[..i]
  }

  /** One list of members is another without the first occurrence of the key, or the same if it has none. */
  ghost predicate LosesFirst(before: seq<string>, after: seq<string>, key: string) {
    if key !in before then after == before
    else exists i: nat :: FirstAt(before, key, i) && after == before[..i] + before[i + 1..]
  }

  lemma {:induction false} FirstPlace(s: seq<string>, key: string) returns (i: nat)
    requires key in s
    ensures FirstAt(s, key, i)
  {
    if s[0] == key {
      i := 0;
    } else {
      var rest := FirstPlace(s[1..], key);
      i := rest + 1;
      assert s[..i] == [s[0]] + s[1..][..rest];
    }
  }

  lemma RemoveFirstLoses(s: seq<string>, key: string)
    ensures key in s ==> LosesFirst(s, RemoveFirst(s, key), key)
  {
    if key in s {
      var i := FirstPlace(s, key);
      AccountRecords.RemovedAt(s, key, i);
    }
  }

  /** The groups are the same but for this one, which has lost or gained a member. */
  ghost predicate MembersChange(a: Account, b: Account, gid: string) {
    && gid in a.groups && gid in b.groups && b.groups - {gid} == a.groups - {gid}
    && b.groups[gid] == a.groups[gid].(peers := b.groups[gid].peers)
  }

  /** What an edit makes of the groups and rules of its account. */
  ghost predicate Edits(op: Op, a: Account, b: Account) {
    match op
    case SaveGroupOp(_, g) =>
      b.rules == a.rules && g.id in b.groups && b.groups[g.id] == g && b.groups - {g.id} == a.groups - {g.id}
    case DeleteGroupOp(_, gid) => b.rules == a.rules && b.groups == a.groups - {gid}
    case GroupAddPeerOp(_, gid, key) =>
      b.rules == a.rules && MembersChange(a, b, gid)
      && b.groups[gid].peers == a.groups[gid].peers + if key in a.groups[gid].peers then [] else [key]
    case GroupDeletePeerOp(_, gid, key) =>
      b.rules == a.rules && MembersChange(a, b, gid) && LosesFirst(a.groups[gid].peers, b.groups[gid].peers, key)
    case SaveRuleOp(_, r) =>
      b.groups == a.groups && r.id in b.rules && b.rules[r.id] == r && b.rules - {r.id} == a.rules - {r.id}
    case DeleteRuleOp(_, rid) => b.groups == a.groups && b.rules == a.rules - {rid}
    case _ => false
  }

  ghost function EditAnswer(s: StoreState, op: Op): Result<()>
    requires IsGroupOrRuleOp(op)
  {
    match op
    case SaveGroupOp(id, g) => SaveGroup(s, id, g).result
    case DeleteGroupOp(id, gid) => DeleteGroup(s, id, gid).result
    case GroupAddPeerOp(id, gid, key) => GroupAddPeer(s, id, gid, key).result
    case GroupDeletePeerOp(id, gid, key) => GroupDeletePeer(s, id, gid, key).result
    case SaveRuleOp(id, r) => SaveRule(s, id, r).result
    case DeleteRuleOp(id, rid) => DeleteRule(s, id, rid).result
  }

  ghost predicate EditMeans(s: StoreState, t: StoreState, op: Op, r: Result<()>)
    requires IsGroupOrRuleOp(op)
  {
    var id := op.accountId;
    if id !in s.accounts || ((op.GroupAddPeerOp? || op.GroupDeletePeerOp?) && op.gid !in s.accounts[id].groups)
    then r == Err(NotFound) && t == s
    else
      && r == Ok(()) && id in t.accounts && Becomes(s, t, id, t.accounts[id])
      && Edits(op, s.accounts[id], t.accounts[id])
      && t.accounts[id] == s.accounts[id].(groups := t.accounts[id].groups, rules := t.accounts[id].rules)
  }

  /** An edit succeeds exactly when its account, and the group whose members it changes, are there. Then it changes the
      one group or rule and nothing else of that or any account; otherwise it changes nothing. */
  lemma EditAnswers(s: StoreState, op: Op)
    requires s.WellFormed() && Enabled(s, op) && IsGroupOrRuleOp(op)
    ensures EditMeans(s, Step(s, op), op, EditAnswer(s, op))
  {
    hide Account.WellFormed, Save, StoreState.WellFormed, EditMeans, EditAnswer, Enabled;
    if op.accountId in s.accounts {
      StoredUnderId(s, op.accountId);
      SameEntry(s.accounts, op.accountId);
    }
    if op.GroupAddPeerOp? || op.GroupDeletePeerOp? { MemberEdit(s, op); } else { NamingEdit(s, op); }
  }

  lemma NamingEdit(s: StoreState, op: Op)
    requires s.WellFormed() && Enabled(s, op) && IsGroupOrRuleOp(op) && !op.GroupAddPeerOp? && !op.GroupDeletePeerOp?
    requires op.accountId in s.accounts ==> s.accounts[op.accountId].id == op.accountId
    ensures EditMeans(s, Step(s, op), op, EditAnswer(s, op))
  {
    hide Account.WellFormed, Save, StoreState.WellFormed, Account.RulesNameGroups;
    ChangedAccounts(s, ChangeOf(s, op));
  }

  lemma MemberEdit(s: StoreState, op: Op)
    requires s.WellFormed() && Enabled(s, op) && (op.GroupAddPeerOp? || op.GroupDeletePeerOp?)
    requires op.accountId in s.accounts ==>
      s.accounts[op.accountId].id == op.accountId && s.accounts[op.accountId := s.accounts[op.accountId]] == s.accounts
    ensures EditMeans(s, Step(s, op), op, EditAnswer(s, op))
  {
    hide Account.WellFormed, Save, StoreState.WellFormed, RemoveFirst, LosesFirst;
    if op.GroupDeletePeerOp? && op.accountId in s.accounts && op.gid in s.accounts[op.accountId].groups {
      RemoveFirstLoses(s.accounts[op.accountId].groups[op.gid].peers, op.key);
      LosesNothing(s.accounts[op.accountId].groups[op.gid].peers, op.key);
    }
    ChangedAccounts(s, ChangeOf(s, op));
  }

  lemma LosesNothing(s: seq<string>, key: string)
    ensures key !in s ==> LosesFirst(s, s, key)
  {
  }

  // ----- restarting -----

  /** What a start of the service makes of an account: one without groups gets the group All of all its peers and the
      Default rule, and every other stays as it is. */
  ghost predicate Started(a: Account, b: Account, p: AllPick) {
    if a.groups != map[] then b == a
    else
      && b == a.(groups := b.groups, rules := b.rules) && AllToAll(b, p.groupId, p.ruleId)
      && b.groups[p.groupId] == Group(p.groupId, "All", p.peers)
      && b.rules[p.ruleId] == Rule(p.ruleId, "Default", [p.groupId], [p.groupId], 0)
  }

  lemma AllGroupStarts(a: Account, p: AllPick)
    requires IsListing(p.peers, a.peers.Keys)
    ensures Started(a, AddAllGroup(a, p.groupId, p.ruleId, p.peers), p)
  {
    var b := AddAllGroup(a, p.groupId, p.ruleId, p.peers);
    if a.groups == map[] { assert b.groups[p.groupId].peers == p.peers; } else { assert |a.groups| != 0; }
  }

  lemma {:induction false} BuildManagerStarts(s: StoreState, saves: seq<string>, picks: map<string, AllPick>)
    requires s.WellFormed() && forall id :: id in saves ==> id in s.accounts && id in picks
    requires forall i, j :: 0 <= i < j < |saves| ==> saves[i] != saves[j]
    ensures var t := BuildManager(s, saves, picks);
      && t.accounts.Keys == s.accounts.Keys
      && forall id :: id in s.accounts ==>
           t.accounts[id] == if id !in saves then s.accounts[id]
                             else AddAllGroup(s.accounts[id], picks[id].groupId, picks[id].ruleId, picks[id].peers)
    decreases saves
  {
    hide Account.WellFormed, BuildOne, AddAllGroup;
    if saves != [] {
      BuildOneWellFormed(s, saves[0], picks[saves[0]]);
      BuildManagerStarts(BuildOne(s, saves[0], picks[saves[0]]), saves[1..], picks);
    }
  }

  /** A restart leaves the accounts as they are, but that those without groups become ones in which every peer sees
      every other. */
  lemma RestartAnswer(s: StoreState, op: Op)
    requires s.WellFormed() && Enabled(s, op) && op.RestartOp?
    ensures Step(s, op).accounts.Keys == s.accounts.Keys && op.picks.Keys == s.accounts.Keys
    ensures forall id :: id in s.accounts ==> Started(s.accounts[id], Step(s, op).accounts[id], op.picks[id])
  {
    hide Account.WellFormed, RestoreFrom, BuildManager, AddAllGroup, Started, StoreState.WellFormed;
    SameAccountsWellFormed(s, Restore(s.accounts, op.order));
    BuildManagerStarts(Restore(s.accounts, op.order), op.saves, op.picks);
    forall id | id in s.accounts ensures Started(s.accounts[id], Step(s, op).accounts[id], op.picks[id]) {
      AllGroupStarts(s.accounts[id], op.picks[id]);
    }
  }
}
