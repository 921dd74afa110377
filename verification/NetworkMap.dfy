/** The access lists: the two rule indexes that SaveAccount only ever adds to, the network map computed
    through them, and what a restart makes of both. */
module NetworkMap {
  import opened IpAllocation
  import opened Model
  import opened StoreSpec
  import opened ManagerSpec
  import opened Operations
  import opened IndexAgreement

  // ----- the rule indexes against the rules -----

  function Idx(s: StoreState, src: bool): map<string, set<string>> {
    if src then s.srcRules else s.dstRules
  }

  /** Rule `r` of some account of `ids` names, on that side, a group that lists peer `p`. */
  ghost predicate Enters(accounts: map<string, Account>, ids: set<string>, src: bool, p: string, r: string) {
    exists id :: id in ids && id in accounts && r in RulesNaming(accounts[id], accounts[id].rules.Keys, src, p)
  }

  ghost predicate NoEmptyEntry(idx: map<string, set<string>>) {
    forall p :: p in idx ==> idx[p] != {}
  }

  ghost predicate RuleIndexOf(idx: map<string, set<string>>, accounts: map<string, Account>, ids: set<string>,
                              src: bool)
  {
    && NoEmptyEntry(idx)
    && forall p, r :: r in Lookup(idx, p) <==> Enters(accounts, ids, src, p, r)
  }

  /** Both indexes hold exactly the current rules. */
  ghost predicate RuleIndexesExact(s: StoreState) {
    RuleIndexOf(s.srcRules, s.accounts, s.accounts.Keys, true)
      && RuleIndexOf(s.dstRules, s.accounts, s.accounts.Keys, false)
  }

  /** The entry of peer `k` in one index holds exactly the current rules that name it on that side. */
  ghost predicate EntryExact(s: StoreState, src: bool, k: string) {
    && (k in Idx(s, src) ==> Idx(s, src)[k] != {})
    && forall r :: r in Lookup(Idx(s, src), k) <==> Enters(s.accounts, s.accounts.Keys, src, k, r)
  }

  ghost predicate EntriesExact(s: StoreState, k: string) {
    EntryExact(s, true, k) && EntryExact(s, false, k)
  }

  lemma ExactIsEveryEntry(s: StoreState)
    ensures RuleIndexesExact(s) <==> forall k :: EntriesExact(s, k)
  {
    hide Enters;
    ExactIsEverySide(s, true);
    ExactIsEverySide(s, false);
    hide RuleIndexOf, EntryExact;
    if forall k :: EntriesExact(s, k) {
      forall k ensures EntryExact(s, true, k) && EntryExact(s, false, k) { assert EntriesExact(s, k); }
    }
  }

  lemma ExactIsEverySide(s: StoreState, src: bool)
    ensures RuleIndexOf(Idx(s, src), s.accounts, s.accounts.Keys, src) <==> forall k :: EntryExact(s, src, k)
  {
    hide Enters;
    if forall k :: EntryExact(s, src, k) {
      forall k, r ensures r in Lookup(Idx(s, src), k) <==> Enters(s.accounts, s.accounts.Keys, src, k, r) {
        assert EntryExact(s, src, k);
      }
      forall k | k in Idx(s, src) ensures Idx(s, src)[k] != {} { assert EntryExact(s, src, k); }
    }
  }

  /** Both indexes hold at least the current rules of account `id`. */
  ghost predicate Covers(s: StoreState, id: string)
    requires id in s.accounts
  {
    forall src, p, r :: r in RulesNaming(s.accounts[id], s.accounts[id].rules.Keys, src, p) ==>
      r in Lookup(Idx(s, src), p)
  }

  ghost predicate CoversAll(s: StoreState) {
    forall id :: id in s.accounts ==> Covers(s, id)
  }

  /** Entering an account: its rules are covered and nothing is forgotten. */
  lemma SaveCovers(s: StoreState, a: Account)
    requires a.WellFormed()
    ensures Covers(Save(s, a), a.id)
    ensures forall id :: id in s.accounts && id != a.id && Covers(s, id) ==> Covers(Save(s, a), id)
  {
    hide Account.WellFormed, Save, IndexRules, RulesNaming;
    var t := Save(s, a);
    SaveFields(s, a);
    forall src, p ensures Lookup(Idx(t, src), p) == Lookup(Idx(s, src), p) + RulesNaming(a, a.rules.Keys, src, p) {
      IndexRulesLookup(Idx(s, src), a, a.rules.Keys, src, p);
    }
  }

  // ----- which steps keep the indexes covering -----

  /** An in-place save does not have to append the peer to the group All. */
  ghost predicate StaysInAll(s: StoreState, op: Op) {
    match op
    case RenamePeerOp(id, key, name, gid) =>
      id in s.accounts && gid in s.accounts[id].groups ==> key in s.accounts[id].groups[gid].peers
    case MarkPeerOp(key, c, now, gid) => KeyIsIn(s, key, gid)
    case UpdateMetaOp(key, meta, gid) => KeyIsIn(s, key, gid)
    case _ => true
  }

  ghost predicate KeyIsIn(s: StoreState, key: string, gid: string) {
    var home := PeerHome(s, key);
    home.Ok? && gid in s.accounts[home.value].groups ==> key in s.accounts[home.value].groups[gid].peers
  }

  /** All registered peers are in the group All of their account. */
  ghost predicate PeersInAll(s: StoreState) {
    forall id, k, g :: id in s.accounts && k in s.accounts[id].peers && g in s.accounts[id].AllGroups() ==>
      k in s.accounts[id].groups[g].peers
  }

  lemma InPlaceSameRules(s: StoreState, a: Account)
    requires a.id in s.accounts && a.groups == s.accounts[a.id].groups && a.rules == s.accounts[a.id].rules
    requires CoversAll(s)
    ensures CoversAll(Apply(s, InPlace(a)))
  {
    var t := Apply(s, InPlace(a));
    forall src, p ensures RulesNaming(a, a.rules.Keys, src, p) == RulesNaming(s.accounts[a.id], a.rules.Keys, src, p) {
      forall gids ensures MembersOf(a, gids) == MembersOf(s.accounts[a.id], gids) {}
    }
    forall id | id in t.accounts ensures Covers(t, id) {
      assert Covers(s, id);
    }
  }

  lemma InPlaceGroupsSame(s: StoreState, op: Op)
    requires s.WellFormed() && Enabled(s, op) && (op.RenamePeerOp? || op.MarkPeerOp? || op.UpdateMetaOp?)
    requires ChangeOf(s, op).InPlace? && StaysInAll(s, op)
    ensures var a := ChangeOf(s, op).a;
      a.id in s.accounts && a.groups == s.accounts[a.id].groups && a.rules == s.accounts[a.id].rules
  {
    hide Account.WellFormed;
    if op.key in s.peerIdx && s.peerIdx[op.key] in s.accounts { WellFormedParts(s.accounts[s.peerIdx[op.key]]); }
  }

  lemma SavedCoversAll(s: StoreState, a: Account)
    requires CoversAll(s) && a.WellFormed()
    ensures CoversAll(Save(s, a))
  {
    hide Account.WellFormed, Save, Covers;
    SaveCovers(s, a);
    SaveFields(s, a);
  }

  lemma CoveringIgnoresPeerIdx(s: StoreState, idx: map<string, string>)
    requires CoversAll(s)
    ensures CoversAll(s.(peerIdx := idx))
  {
    forall id | id in s.accounts ensures Covers(s.(peerIdx := idx), id) { assert Covers(s, id); }
  }

  /** Every step keeps the indexes covering, as long as in-place saves find the peer in the group All. */
  lemma StepCovers(s: StoreState, op: Op)
    requires s.WellFormed() && Enabled(s, op) && CoversAll(s) && StaysInAll(s, op)
    ensures CoversAll(Step(s, op))
  {
    hide Account.WellFormed, CoversAll, Save, StaysInAll;
    if op.RestartOp? {
      RestartCovers(s, op.order, op.saves, op.picks);
    } else {
      ChangesWellFormed(s, op);
      var c := ChangeOf(s, op);
      InPlaceOnlyByThree(s, op);
      match c
      case NoChange =>
      case Saved(a) => SavedCoversAll(s, a);
      case SavedWithoutPeer(a, key) =>
        CoveringIgnoresPeerIdx(s, s.peerIdx - {key});
        SavedCoversAll(s.(peerIdx := s.peerIdx - {key}), a);
      case InPlace(a) =>
        InPlaceGroupsSame(s, op);
        InPlaceSameRules(s, a);
    }
  }

  lemma InPlaceOnlyByThree(s: StoreState, op: Op)
    requires s.WellFormed() && Enabled(s, op) && !op.RestartOp?
    ensures ChangeOf(s, op).InPlace? ==> op.RenamePeerOp? || op.MarkPeerOp? || op.UpdateMetaOp?
  {
    hide Account.WellFormed, Upper, Lower, FreeIps;
  }

  // ----- restoring -----

  lemma EntersOneMore(accounts: map<string, Account>, ids: set<string>, id: string, src: bool, p: string, r: string)
    requires id in accounts
    ensures Enters(accounts, ids + {id}, src, p, r) <==>
      Enters(accounts, ids, src, p, r) || r in RulesNaming(accounts[id], accounts[id].rules.Keys, src, p)
  {
    hide RulesNaming;
    if Enters(accounts, ids, src, p, r) {
      var x :| x in ids && x in accounts && r in RulesNaming(accounts[x], accounts[x].rules.Keys, src, p);
      assert x in ids + {id};
    }
    if r in RulesNaming(accounts[id], accounts[id].rules.Keys, src, p) { assert id in ids + {id}; }
  }

  lemma IndexRulesExtends(idx: map<string, set<string>>, accounts: map<string, Account>, ids: set<string>, id: string,
                          src: bool)
    requires id in accounts && RuleIndexOf(idx, accounts, ids, src)
    ensures RuleIndexOf(IndexRules(idx, accounts[id], accounts[id].rules.Keys, src), accounts, ids + {id}, src)
  {
    var a := accounts[id];
    var idx' := IndexRules(idx, a, a.rules.Keys, src);
    forall p, r ensures r in Lookup(idx', p) <==> Enters(accounts, ids + {id}, src, p, r) {
      IndexRulesLookup(idx, a, a.rules.Keys, src, p);
      EntersOneMore(accounts, ids, id, src, p, r);
    }
    forall p | p in idx' ensures idx'[p] != {} {
      NamedHasRule(a, a.rules.Keys, src, p);
      IndexRulesLookup(idx, a, a.rules.Keys, src, p);
    }
  }

  lemma {:induction false} RestoreFromRules(t: StoreState, order: seq<string>, ids: set<string>)
    requires forall id :: id in order ==> id in t.accounts
    requires RuleIndexOf(t.srcRules, t.accounts, ids, true) && RuleIndexOf(t.dstRules, t.accounts, ids, false)
    ensures var r := RestoreFrom(t, order); var all := ids + set id | id in order;
      RuleIndexOf(r.srcRules, t.accounts, all, true) && RuleIndexOf(r.dstRules, t.accounts, all, false)
    decreases order
  {
    hide RuleIndexOf, IndexRules;
    var all := ids + set id | id in order;
    if order == [] {
      assert all == ids;
    } else {
      var id, a := order[0], t.accounts[order[0]];
      IndexRulesExtends(t.srcRules, t.accounts, ids, id, true);
      IndexRulesExtends(t.dstRules, t.accounts, ids, id, false);
      var t' := IndexAccount(t, id, a, a.domain != "" && a.PrivatePrimary());
      RestoreFromRules(t', order[1..], ids + {id});
      assert ids + {id} + (set i | i in order[1..]) == all;
    }
  }

  /** A store fresh from restore holds exactly the current rules. */
  lemma RestoreIsExact(s: StoreState, order: seq<string>)
    requires IsListing(order, s.accounts.Keys)
    ensures RuleIndexesExact(Restore(s.accounts, order))
  {
    RestoreFromRules(EMPTY.(accounts := s.accounts), order, {});
    assert {} + (set id | id in order) == s.accounts.Keys;
  }

  lemma ExactCovers(s: StoreState)
    requires RuleIndexesExact(s)
    ensures CoversAll(s)
  {
    hide RulesNaming, Lookup;
    forall id, src, p, r | id in s.accounts && r in RulesNaming(s.accounts[id], s.accounts[id].rules.Keys, src, p)
      ensures r in Lookup(Idx(s, src), p)
    {
      assert Enters(s.accounts, s.accounts.Keys, src, p, r);
    }
  }

  /** Restoring refines the live store: the same setup-key, peer and user indexes, and rule indexes
      contained in the live ones. */
  lemma RestoreRefinesLiveStore(s: StoreState, order: seq<string>)
    requires Agree(s) && CoversAll(s) && IsListing(order, s.accounts.Keys)
    ensures var r := Restore(s.accounts, order);
      && r.setupKeyIdx == s.setupKeyIdx && r.peerIdx == s.peerIdx && r.userIdx == s.userIdx
      && (forall src, p :: p in Idx(r, src) ==> p in Idx(s, src) && Idx(r, src)[p] <= Idx(s, src)[p])
  {
    hide Account.WellFormed, Exact, Restore, RulesNaming;
    var r := Restore(s.accounts, order);
    RestoreRebuildsIndexes(s, order);
    RestoreIsExact(s, order);
    forall src, p | p in Idx(r, src) ensures p in Idx(s, src) && Idx(r, src)[p] <= Idx(s, src)[p] {
      forall x | x in Idx(r, src)[p] ensures x in Lookup(Idx(s, src), p) {
        assert x in Lookup(Idx(r, src), p);
        var id :| id in s.accounts && x in RulesNaming(s.accounts[id], s.accounts[id].rules.Keys, src, p);
        assert Covers(s, id);
      }
      var x :| x in Idx(r, src)[p];
      assert x in Lookup(Idx(s, src), p);
    }
  }

  // ----- when saving keeps exact indexes exact -----

  /** If the account stored under the id of `a` has the rule name peer `p`, then `a` still does or another
      account has a rule with the id that does. */
  ghost predicate StillNamed(s: StoreState, a: Account, src: bool, p: string, r: string) {
    a.id in s.accounts && r in RulesNaming(s.accounts[a.id], s.accounts[a.id].rules.Keys, src, p) ==>
      r in RulesNaming(a, a.rules.Keys, src, p) || Enters(s.accounts, s.accounts.Keys - {a.id}, src, p, r)
  }

  ghost predicate AllStillNamed(s: StoreState, a: Account, p: string) {
    forall src, r :: StillNamed(s, a, src, p, r)
  }

  /** Saving keeps the exact entries of a peer exact if and only if the account drops no rule for that peer. */
  lemma SaveKeepsEntriesExactly(s: StoreState, a: Account, k: string)
    requires a.WellFormed() && EntriesExact(s, k)
    ensures EntriesExact(Save(s, a), k) <==> AllStillNamed(s, a, k)
  {
    hide StillNamed, EntryExact, Account.WellFormed, Save;
    var t := Save(s, a);
    SaveFields(s, a);
    SaveKeepsEntry(s, t, a, true, k);
    SaveKeepsEntry(s, t, a, false, k);
    if forall r :: StillNamed(s, a, true, k, r) && StillNamed(s, a, false, k, r) {
      forall src, r ensures StillNamed(s, a, src, k, r) {
        assert StillNamed(s, a, true, k, r) && StillNamed(s, a, false, k, r);
      }
    }
  }

  lemma SaveKeepsEntry(s: StoreState, t: StoreState, a: Account, src: bool, k: string)
    requires EntryExact(s, src, k)
    requires t.accounts == s.accounts[a.id := a] && Idx(t, src) == IndexRules(Idx(s, src), a, a.rules.Keys, src)
    ensures EntryExact(t, src, k) <==> forall r :: StillNamed(s, a, src, k, r)
  {
    hide IndexRules, RulesNaming, Enters, StillNamed;
    IndexRulesLookup(Idx(s, src), a, a.rules.Keys, src, k);
    forall r
      ensures (r in Lookup(Idx(t, src), k) <==> Enters(t.accounts, t.accounts.Keys, src, k, r)) <==>
        StillNamed(s, a, src, k, r)
    {
      EntryStays(s, t, a, src, k, r);
    }
    if k in Idx(t, src) { EntryNotEmpty(Idx(s, src), a, a.rules.Keys, src, k); }
  }

  /** Saving keeps exact indexes exact if and only if the account drops no rule for a peer. */
  lemma SaveKeepsExactly(s: StoreState, a: Account)
    requires a.WellFormed() && RuleIndexesExact(s)
    ensures RuleIndexesExact(Save(s, a)) <==> forall src, p, r :: StillNamed(s, a, src, p, r)
  {
    hide StillNamed, EntriesExact, Account.WellFormed, Save, RuleIndexesExact;
    ExactIsEveryEntry(s);
    ExactIsEveryEntry(Save(s, a));
    forall p ensures EntriesExact(Save(s, a), p) <==> AllStillNamed(s, a, p) { SaveKeepsEntriesExactly(s, a, p); }
    if RuleIndexesExact(Save(s, a)) {
      forall src, p, r ensures StillNamed(s, a, src, p, r) {
        assert EntriesExact(Save(s, a), p);
        assert AllStillNamed(s, a, p);
      }
    }
  }

  lemma EntryStays(s: StoreState, t: StoreState, a: Account, src: bool, p: string, r: string)
    requires r in Lookup(Idx(s, src), p) <==> Enters(s.accounts, s.accounts.Keys, src, p, r)
    requires t.accounts == s.accounts[a.id := a]
    requires Lookup(Idx(t, src), p) == Lookup(Idx(s, src), p) + RulesNaming(a, a.rules.Keys, src, p)
    ensures (r in Lookup(Idx(t, src), p) <==> Enters(t.accounts, t.accounts.Keys, src, p, r)) <==>
      StillNamed(s, a, src, p, r)
  {
    hide RulesNaming, Enters;
    EntersApart(s.accounts, a.id, src, p, r);
    EntersApart(t.accounts, a.id, src, p, r);
    EntersElsewhere(s.accounts, a, src, p, r);
  }

  lemma EntersApart(accounts: map<string, Account>, id: string, src: bool, p: string, r: string)
    ensures Enters(accounts, accounts.Keys, src, p, r) <==>
      Enters(accounts, accounts.Keys - {id}, src, p, r)
      || (id in accounts && r in RulesNaming(accounts[id], accounts[id].rules.Keys, src, p))
  {
    hide RulesNaming;
    if id in accounts {
      EntersOneMore(accounts, accounts.Keys - {id}, id, src, p, r);
      assert accounts.Keys - {id} + {id} == accounts.Keys;
    } else {
      assert accounts.Keys - {id} == accounts.Keys;
    }
  }

  lemma EntersElsewhere(accounts: map<string, Account>, a: Account, src: bool, p: string, r: string)
    ensures var after := accounts[a.id := a];
      Enters(after, after.Keys - {a.id}, src, p, r) <==> Enters(accounts, accounts.Keys - {a.id}, src, p, r)
  {
    hide RulesNaming;
    var after := accounts[a.id := a];
    assert after.Keys - {a.id} == accounts.Keys - {a.id};
  }

  lemma EntryNotEmpty(idx: map<string, set<string>>, a: Account, rs: set<string>, src: bool, p: string)
    requires (p in idx ==> idx[p] != {}) && p in IndexRules(idx, a, rs, src)
    ensures IndexRules(idx, a, rs, src)[p] != {}
  {
    NamedHasRule(a, rs, src, p);
    IndexRulesLookup(idx, a, rs, src, p);
  }

  lemma AddAllLosesNoRule(a: Account, groupId: string, ruleId: string, order: seq<string>, src: bool, p: string)
    ensures var b := AddAllGroup(a, groupId, ruleId, order);
      RulesNaming(a, a.rules.Keys, src, p) <= RulesNaming(b, b.rules.Keys, src, p)
  {
    if |a.groups| == 0 {
      assert a.groups.Keys == {};
      assert forall gids :: MembersOf(a, gids) == {};
    }
  }

  lemma BuildOneExact(s: StoreState, id: string, p: AllPick)
    requires s.WellFormed() && RuleIndexesExact(s) && id in s.accounts
    ensures RuleIndexesExact(BuildOne(s, id, p))
  {
    hide Account.WellFormed, Save, RuleIndexesExact, RulesNaming;
    var a, b := s.accounts[id], AddAllGroup(s.accounts[id], p.groupId, p.ruleId, p.peers);
    AddAllGroupWellFormed(a, p.groupId, p.ruleId, p.peers);
    forall src, k, r ensures StillNamed(s, b, src, k, r) {
      AddAllLosesNoRule(a, p.groupId, p.ruleId, p.peers, src, k);
    }
    SaveKeepsExactly(s, b);
  }

  lemma {:induction false} BuildManagerExact(s: StoreState, saves: seq<string>, picks: map<string, AllPick>)
    requires s.WellFormed() && RuleIndexesExact(s) && forall id :: id in saves ==> id in s.accounts && id in picks
    ensures RuleIndexesExact(BuildManager(s, saves, picks))
    decreases saves
  {
    hide Account.WellFormed, BuildOne, RuleIndexesExact;
    if saves != [] {
      BuildOneExact(s, saves[0], picks[saves[0]]);
      BuildOneWellFormed(s, saves[0], picks[saves[0]]);
      BuildManagerExact(BuildOne(s, saves[0], picks[saves[0]]), saves[1..], picks);
    }
  }

  /** After a restart of the service the rule indexes hold exactly the current rules. */
  lemma RestartIsExact(s: StoreState, order: seq<string>, saves: seq<string>, picks: map<string, AllPick>)
    requires s.WellFormed() && RestartPicks(s, order, saves, picks)
    ensures RuleIndexesExact(Restart(s, order, saves, picks))
  {
    hide Account.WellFormed, RuleIndexesExact, RestoreFrom;
    RestoreIsExact(s, order);
    BuildManagerExact(Restore(s.accounts, order), saves, picks);
  }

  lemma BuildOneCovers(s: StoreState, id: string, p: AllPick)
    requires s.WellFormed() && CoversAll(s) && id in s.accounts
    ensures CoversAll(BuildOne(s, id, p))
  {
    hide Account.WellFormed, Save, CoversAll;
    AddAllGroupWellFormed(s.accounts[id], p.groupId, p.ruleId, p.peers);
    SavedCoversAll(s, AddAllGroup(s.accounts[id], p.groupId, p.ruleId, p.peers));
  }

  lemma {:induction false} BuildManagerCovers(s: StoreState, saves: seq<string>, picks: map<string, AllPick>)
    requires s.WellFormed() && CoversAll(s) && forall id :: id in saves ==> id in s.accounts && id in picks
    ensures CoversAll(BuildManager(s, saves, picks))
    decreases saves
  {
    hide Account.WellFormed, BuildOne, CoversAll;
    if saves != [] {
      BuildOneCovers(s, saves[0], picks[saves[0]]);
      BuildOneWellFormed(s, saves[0], picks[saves[0]]);
      BuildManagerCovers(BuildOne(s, saves[0], picks[saves[0]]), saves[1..], picks);
    }
  }

  lemma RestartCovers(s: StoreState, order: seq<string>, saves: seq<string>, picks: map<string, AllPick>)
    requires s.WellFormed() && RestartPicks(s, order, saves, picks)
    ensures CoversAll(Restart(s, order, saves, picks))
  {
    hide Account.WellFormed, CoversAll, RestoreFrom;
    RestoreIsExact(s, order);
    ExactCovers(Restore(s.accounts, order));
    BuildManagerCovers(Restore(s.accounts, order), saves, picks);
  }

  // ----- the network map -----

  /** `GetPeerSrcRules` and `GetPeerDstRules`: the indexed rules that the account still has. */
  function RulesFound(s: StoreState, id: string, src: bool, key: string): (found: set<string>)
    requires id in s.accounts
    ensures found <= s.accounts[id].rules.Keys
  {
    set r | r in Lookup(Idx(s, src), key) && r in s.accounts[id].rules
  }

  /** The groups on the far side of the bidirectional rules found through one index. */
  function GroupsVia(s: StoreState, id: string, src: bool, key: string): set<string>
    requires id in s.accounts
  {
    set r, g | r in RulesFound(s, id, src, key) && s.accounts[id].rules[r].flow == FLOW_BIDIRECT
               && g in FarGroups(s.accounts[id], r, src) :: g
  }

  function FarGroups(a: Account, r: string, src: bool): seq<string>
    requires r in a.rules
  {
    Side(a.rules[r], !src)
  }

  function GroupsFound(s: StoreState, id: string, key: string): set<string>
    requires id in s.accounts
  {
    GroupsVia(s, id, true, key) + GroupsVia(s, id, false, key)
  }

  /** The keys of the peers in the map `GetNetworkMap` returns: none without an entry in both indexes. */
  function NetworkMapKeys(s: StoreState, id: string, key: string): set<string>
    requires id in s.accounts
  {
    if key !in s.srcRules || key !in s.dstRules then {}
    else set g, p | g in GroupsFound(s, id, key) && g in s.accounts[id].groups && p in s.accounts[id].groups[g].peers
                    && p in s.accounts[id].peers && s.accounts[id].peers[p].key != key :: p
  }

  // ----- what the rules mean -----

  /** A bidirectional rule has one of the two peers on one side and the other on the other side. */
  ghost predicate LinkedBy(a: Account, r: string, k: string, q: string)
    requires r in a.rules
  {
    a.rules[r].flow == FLOW_BIDIRECT &&
    ((k in MembersOf(a, a.rules[r].source) && q in MembersOf(a, a.rules[r].destination))
     || (k in MembersOf(a, a.rules[r].destination) && q in MembersOf(a, a.rules[r].source)))
  }

  ghost predicate Linked(a: Account, k: string, q: string) {
    exists r :: r in a.rules && LinkedBy(a, r, k, q)
  }

  /** The other registered peers that some bidirectional rule links to `k`. */
  ghost function Visible(a: Account, k: string): set<string> {
    set q | q in a.peers && q != k && Linked(a, k, q)
  }

  lemma RuleIsFound(s: StoreState, id: string, r: string, src: bool, k: string)
    requires id in s.accounts && s.accounts[id].WellFormed() && Covers(s, id) && r in s.accounts[id].rules
    requires k in MembersOf(s.accounts[id], Side(s.accounts[id].rules[r], src))
    ensures r in RulesFound(s, id, src, k)
  {
    assert s.accounts[id].rules[r].id == r;
    hide Account.WellFormed;
    assert r in RulesNaming(s.accounts[id], s.accounts[id].rules.Keys, src, k);
  }

  lemma LinkedPeerInGroupsFound(s: StoreState, id: string, r: string, k: string, q: string)
    requires id in s.accounts && s.accounts[id].WellFormed() && Covers(s, id)
    requires r in s.accounts[id].rules && LinkedBy(s.accounts[id], r, k, q)
    ensures exists g :: g in GroupsFound(s, id, k) && g in s.accounts[id].groups && q in s.accounts[id].groups[g].peers
  {
    hide Account.WellFormed, Covers, RulesFound;
    var a := s.accounts[id];
    if k in MembersOf(a, a.rules[r].source) && q in MembersOf(a, a.rules[r].destination) {
      RuleIsFound(s, id, r, true, k);
      var g :| g in a.rules[r].destination && g in a.groups && q in a.groups[g].peers;
      assert g in FarGroups(a, r, true);
      assert g in GroupsVia(s, id, true, k);
    } else {
      RuleIsFound(s, id, r, false, k);
      var g :| g in a.rules[r].source && g in a.groups && q in a.groups[g].peers;
      assert g in FarGroups(a, r, false);
      assert g in GroupsVia(s, id, false, k);
    }
  }

  /** No linked peer is lost, while the indexes cover the account's rules. */
  lemma NetworkMapLosesNoOne(s: StoreState, id: string, k: string)
    requires id in s.accounts && s.accounts[id].WellFormed() && Covers(s, id)
    requires k in s.srcRules && k in s.dstRules
    ensures Visible(s.accounts[id], k) <= NetworkMapKeys(s, id, k)
  {
    hide Account.WellFormed, Covers, GroupsFound;
    WellFormedParts(s.accounts[id]);
    forall q | q in Visible(s.accounts[id], k) ensures q in NetworkMapKeys(s, id, k) {
      var r :| r in s.accounts[id].rules && LinkedBy(s.accounts[id], r, k, q);
      LinkedPeerInGroupsFound(s, id, r, k, q);
    }
  }

  // ----- the map in closed form -----

  /** Generated rule ids: no id is used in two accounts. */
  ghost predicate RuleIdsDistinct(s: StoreState) {
    forall a, b, r :: a in s.accounts && b in s.accounts && r in s.accounts[a].rules && r in s.accounts[b].rules ==>
      a == b
  }

  /** Another account has a rule of the same id as a rule of `id`, which names `k` on the one side; the rule
      of `id` has `q` on the other. The indexes do not tell the two rules apart. */
  ghost predicate ReachedByBorrowing(s: StoreState, id: string, k: string, q: string)
    requires id in s.accounts
  {
    var a := s.accounts[id];
    exists r, src :: r in a.rules && a.rules[r].flow == FLOW_BIDIRECT
                     && Enters(s.accounts, s.accounts.Keys - {id}, src, k, r) && q in MembersOf(a, FarGroups(a, r, src))
  }

  ghost function Borrowed(s: StoreState, id: string, k: string): set<string>
    requires id in s.accounts
  {
    set q | q in s.accounts[id].peers && q != k && ReachedByBorrowing(s, id, k, q)
  }

  lemma DistinctIdsBorrowNothing(s: StoreState, id: string, k: string)
    requires s.WellFormed() && id in s.accounts && RuleIdsDistinct(s)
    ensures Borrowed(s, id, k) == {}
  {
    hide Enters, StoreState.WellFormed, RuleIdsDistinct;
    forall r, src | r in s.accounts[id].rules ensures !Enters(s.accounts, s.accounts.Keys - {id}, src, k, r) {
      DistinctIdsEnterOnce(s, id, src, k, r);
    }
  }

  lemma FoundMeansNamed(s: StoreState, id: string, src: bool, k: string, r: string)
    requires s.WellFormed() && EntryExact(s, src, k) && id in s.accounts && r in s.accounts[id].rules
    ensures r in RulesFound(s, id, src, k) <==>
      k in MembersOf(s.accounts[id], Side(s.accounts[id].rules[r], src))
        || Enters(s.accounts, s.accounts.Keys - {id}, src, k, r)
  {
    hide Enters, MembersOf;
    EntersApart(s.accounts, id, src, k, r);
    NamedByOwnRule(s.accounts[id], src, k, r);
  }

  lemma NamedByOwnRule(a: Account, src: bool, k: string, r: string)
    requires a.WellFormed() && r in a.rules
    ensures r in RulesNaming(a, a.rules.Keys, src, k) <==> k in MembersOf(a, Side(a.rules[r], src))
  {
    hide MembersOf;
  }

  /** While the entries of a peer named both as a source and as a destination are exact, as after a restart, its
      map is exactly the linked peers, and those a rule id shared with another account brings in: none while
      rule ids are distinct. Any other peer with exact entries gets an empty map. */
  lemma NetworkMapExactly(s: StoreState, id: string, k: string)
    requires s.WellFormed() && EntriesExact(s, k) && id in s.accounts
    ensures NetworkMapKeys(s, id, k) ==
      if k in s.srcRules && k in s.dstRules then Visible(s.accounts[id], k) + Borrowed(s, id, k) else {}
    ensures RuleIdsDistinct(s) ==> Borrowed(s, id, k) == {}
    ensures forall src :: k in Idx(s, src) <==> exists r :: Enters(s.accounts, s.accounts.Keys, src, k, r)
  {
    hide Account.WellFormed, RulesNaming, Enters, MembersOf, RuleIdsDistinct;
    var a := s.accounts[id];
    WellFormedParts(a);
    if RuleIdsDistinct(s) { DistinctIdsBorrowNothing(s, id, k); }
    if k in s.srcRules && k in s.dstRules {
      forall q | q in a.peers && q != k
        ensures q in NetworkMapKeys(s, id, k) <==> Linked(a, k, q) || ReachedByBorrowing(s, id, k, q)
      {
        InMapExactly(s, id, k, q);
      }
    }
    forall src ensures k in Idx(s, src) <==> exists r :: Enters(s.accounts, s.accounts.Keys, src, k, r) {
      EntriesAreNames(s, src, k);
    }
  }

  lemma EntriesAreNames(s: StoreState, src: bool, k: string)
    requires EntryExact(s, src, k)
    ensures k in Idx(s, src) <==> exists r :: Enters(s.accounts, s.accounts.Keys, src, k, r)
  {
    hide Enters;
    if k in Idx(s, src) {
      var r :| r in Idx(s, src)[k];
      assert r in Lookup(Idx(s, src), k);
    }
  }

  lemma InMapExactly(s: StoreState, id: string, k: string, q: string)
    requires s.WellFormed() && EntriesExact(s, k) && id in s.accounts && k in s.srcRules && k in s.dstRules
    requires q in s.accounts[id].peers && s.accounts[id].peers[q].key == q && q != k
    ensures q in NetworkMapKeys(s, id, k) <==> Linked(s.accounts[id], k, q) || ReachedByBorrowing(s, id, k, q)
  {
    hide StoreState.WellFormed, EntryExact, RulesFound, Enters, NetworkMapKeys, MembersOf, GroupsFound;
    var a := s.accounts[id];
    if q in NetworkMapKeys(s, id, k) {
      var r, src := RuleBehind(s, id, k, q);
      FoundMeansNamed(s, id, src, k, r);
      assert k in MembersOf(a, Side(a.rules[r], src)) ==> LinkedBy(a, r, k, q);
    }
    if Linked(a, k, q) {
      var r :| r in a.rules && LinkedBy(a, r, k, q);
      var src := k in MembersOf(a, a.rules[r].source) && q in MembersOf(a, a.rules[r].destination);
      FoundMeansNamed(s, id, src, k, r);
      FoundIsInMap(s, id, k, q, r, src);
    }
    if ReachedByBorrowing(s, id, k, q) {
      var r, src :| r in a.rules && a.rules[r].flow == FLOW_BIDIRECT
                    && Enters(s.accounts, s.accounts.Keys - {id}, src, k, r) && q in MembersOf(a, FarGroups(a, r, src));
      FoundMeansNamed(s, id, src, k, r);
      FoundIsInMap(s, id, k, q, r, src);
    }
  }

  /** A bidirectional rule found for `k` through which `q` got into its map. */
  lemma RuleBehind(s: StoreState, id: string, k: string, q: string) returns (r: string, src: bool)
    requires id in s.accounts && q in NetworkMapKeys(s, id, k)
    ensures r in RulesFound(s, id, src, k) && s.accounts[id].rules[r].flow == FLOW_BIDIRECT
    ensures q in MembersOf(s.accounts[id], FarGroups(s.accounts[id], r, src))
  {
    hide RulesFound;
    var a := s.accounts[id];
    var g :| g in GroupsFound(s, id, k) && g in a.groups && q in a.groups[g].peers;
    src := g in GroupsVia(s, id, true, k);
    r :| r in RulesFound(s, id, src, k) && a.rules[r].flow == FLOW_BIDIRECT && g in FarGroups(a, r, src);
  }

  lemma FoundIsInMap(s: StoreState, id: string, k: string, q: string, r: string, src: bool)
    requires id in s.accounts && k in s.srcRules && k in s.dstRules && r in RulesFound(s, id, src, k)
    requires q in s.accounts[id].peers && s.accounts[id].peers[q].key == q && q != k
    requires s.accounts[id].rules[r].flow == FLOW_BIDIRECT
    requires q in MembersOf(s.accounts[id], FarGroups(s.accounts[id], r, src))
    ensures q in NetworkMapKeys(s, id, k)
  {
    hide RulesFound;
    var a := s.accounts[id];
    var g :| g in FarGroups(a, r, src) && g in a.groups && q in a.groups[g].peers;
    assert g in GroupsVia(s, id, src, k);
    assert g in GroupsFound(s, id, k);
  }

  lemma LinkedIsSymmetric(a: Account, k: string, q: string)
    ensures Linked(a, k, q) <==> Linked(a, q, k)
  {
    if Linked(a, k, q) { var r :| r in a.rules && LinkedBy(a, r, k, q); assert LinkedBy(a, r, q, k); }
    if Linked(a, q, k) { var r :| r in a.rules && LinkedBy(a, r, q, k); assert LinkedBy(a, r, k, q); }
  }

  /** Of two registered peers with entries in both indexes, each sees the other or neither does, unless a
      shared rule id shows one of them, and not the other, a peer it is not linked to. */
  lemma NetworkMapsAreSymmetric(s: StoreState, id: string, k: string, q: string)
    requires s.WellFormed() && EntriesExact(s, k) && EntriesExact(s, q) && id in s.accounts
    requires k in s.accounts[id].peers && q in s.accounts[id].peers
    requires k in s.srcRules && k in s.dstRules && q in s.srcRules && q in s.dstRules
    ensures var a := s.accounts[id];
      (q in NetworkMapKeys(s, id, k) <==> k in NetworkMapKeys(s, id, q)) <==>
      (q in Borrowed(s, id, k) - Visible(a, k) <==> k in Borrowed(s, id, q) - Visible(a, q))
    ensures RuleIdsDistinct(s) ==> (q in NetworkMapKeys(s, id, k) <==> k in NetworkMapKeys(s, id, q))
  {
    hide Borrowed, EntriesExact, RuleIdsDistinct, StoreState.WellFormed, Linked, NetworkMapKeys;
    NetworkMapExactly(s, id, k);
    NetworkMapExactly(s, id, q);
    LinkedIsSymmetric(s.accounts[id], k, q);
  }

  // ----- deleting a rule -----

  lemma NamingAfterDeletion(a: Account, rid: string, src: bool, p: string)
    requires a.WellFormed()
    ensures var b := a.(rules := a.rules - {rid});
      RulesNaming(b, b.rules.Keys, src, p) == RulesNaming(a, a.rules.Keys, src, p) - {rid}
  {
    hide Account.WellFormed;
    var b := a.(rules := a.rules - {rid});
    DeleteRuleWellFormed(a, rid);
    RulesKeyed(a);
    forall gids ensures MembersOf(b, gids) == MembersOf(a, gids) {}
    hide MembersOf;
    forall r | r in a.rules
      ensures r in RulesNaming(b, b.rules.Keys, src, p) <==> r in RulesNaming(a, a.rules.Keys, src, p) && r != rid
    {
      NamedByOwnRule(a, src, p, r);
      if r != rid { NamedByOwnRule(b, src, p, r); }
    }
  }

  lemma RulesKeyed(a: Account)
    requires a.WellFormed()
    ensures forall r :: r in a.rules ==> a.rules[r].id == r
  {
  }

  /** Deleting a rule keeps exact indexes exact if and only if each peer it names on a side is named there by
      another account's rule of the same id; with distinct ids, if and only if it names no peer at all. */
  lemma RuleDeletionKeepsExactly(s: StoreState, id: string, rid: string)
    requires s.WellFormed() && RuleIndexesExact(s) && id in s.accounts && rid in s.accounts[id].rules
    ensures var a, t := s.accounts[id], Apply(s, DeleteRule(s, id, rid).change);
      && (RuleIndexesExact(t) <==> forall src, p :: p in MembersOf(a, Side(a.rules[rid], src)) ==>
            Enters(s.accounts, s.accounts.Keys - {id}, src, p, rid))
      && (RuleIdsDistinct(s) ==> (RuleIndexesExact(t) <==> forall src :: MembersOf(a, Side(a.rules[rid], src)) == {}))
  {
    hide RuleIndexesExact, Enters, MembersOf, RulesNaming, RuleIdsDistinct, Account.WellFormed, Save;
    var a := s.accounts[id];
    var b := a.(rules := a.rules - {rid});
    DeleteRuleWellFormed(a, rid);
    SaveKeepsExactly(s, b);
    forall src, p, r ensures StillNamed(s, b, src, p, r) <==>
      (r == rid && p in MembersOf(a, Side(a.rules[rid], src)) ==> Enters(s.accounts, s.accounts.Keys - {id}, src, p, r))
    {
      NamingAfterDeletion(a, rid, src, p);
      NamedByOwnRule(a, src, p, rid);
    }
    if RuleIdsDistinct(s) {
      forall src, p ensures !Enters(s.accounts, s.accounts.Keys - {id}, src, p, rid) {
        DistinctIdsEnterOnce(s, id, src, p, rid);
      }
    }
  }

  lemma DistinctIdsEnterOnce(s: StoreState, id: string, src: bool, p: string, r: string)
    requires s.WellFormed() && RuleIdsDistinct(s) && id in s.accounts && r in s.accounts[id].rules
    ensures !Enters(s.accounts, s.accounts.Keys - {id}, src, p, r)
  {
  }
}
