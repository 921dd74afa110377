/** Network maps between restarts (management/server/{file_store,peer,group,rule}.go). The rule indexes only grow,
    so what a map shows depends on what the rules said before: exactly how is proved here, for one save, for
    the operations that edit groups and rules or delete peers, and for whole runs. */
module LiveMaps {
  import opened Model
  import opened StoreSpec
  import opened ManagerSpec
  import opened Operations
  import opened OperationShapes
  import opened IndexAgreement
  import opened NetworkMap
  import opened GroupCleanup
  import opened Runs

  // ----- deleting a peer -----

  lemma RemovalKeepsMembers(a: Account, key: string, order: seq<string>, gids: seq<string>, p: string)
    requires IsListing(order, a.groups.Keys)
    ensures p != key && p in MembersOf(a, gids) ==> p in MembersOf(Removed(a, key, order), gids)
    ensures key !in MembersOf(Removed(a, key, order), gids)
  {
    hide CleanGroups;
    var b := Removed(a, key, order);
    CleanedLists(a.groups, order, [], key);
    forall g | g in a.groups ensures p != key && p in a.groups[g].peers ==> p in b.groups[g].peers
                             ensures key !in b.groups[g].peers
    {
      var i :| 0 <= i < |order| && order[i] == g;
      CleanedMembers(a.groups, order, key, i, p);
      CleanedMembers(a.groups, order, key, i, key);
    }
  }

  lemma RemovalNaming(a: Account, key: string, order: seq<string>, src: bool, p: string)
    requires IsListing(order, a.groups.Keys)
    ensures var b := Removed(a, key, order);
      && (p != key ==> RulesNaming(a, a.rules.Keys, src, p) <= RulesNaming(b, b.rules.Keys, src, p))
      && RulesNaming(b, b.rules.Keys, src, key) == {}
  {
    hide MembersOf;
    var b := Removed(a, key, order);
    forall r | r in a.rules
      ensures p != key && p in MembersOf(a, Side(a.rules[r], src)) ==> p in MembersOf(b, Side(b.rules[r], src))
      ensures key !in MembersOf(b, Side(b.rules[r], src))
    {
      RemovalKeepsMembers(a, key, order, Side(a.rules[r], src), p);
    }
  }

  lemma RemovalSaves(s: StoreState, id: string, key: string, order: seq<string>)
    requires s.WellFormed() && id in s.accounts && key in s.accounts[id].peers
    requires IsListing(order, s.accounts[id].groups.Keys)
    ensures var b := Removed(s.accounts[id], key, order);
      && b.id == id && b.WellFormed()
      && Apply(s, DeletePeer(s, id, key, order).change) == Save(s.(peerIdx := s.peerIdx - {key}), b)
  {
    hide Account.WellFormed, Save, CleanGroups;
    ChangesWellFormed(s, DeletePeerOp(id, key, order));
  }

  lemma RemovalStored(s: StoreState, id: string, key: string, order: seq<string>)
    requires s.WellFormed() && id in s.accounts && key in s.accounts[id].peers
    requires IsListing(order, s.accounts[id].groups.Keys)
    ensures var t := Apply(s, DeletePeer(s, id, key, order).change);
      t.WellFormed() && t.accounts == s.accounts[id := Removed(s.accounts[id], key, order)]
  {
    hide Account.WellFormed, Save, Removed, Apply, DeletePeer;
    RemovalSaves(s, id, key, order);
    SavedWellFormed(s.(peerIdx := s.peerIdx - {key}), Removed(s.accounts[id], key, order));
    SaveFields(s.(peerIdx := s.peerIdx - {key}), Removed(s.accounts[id], key, order));
  }

  lemma EntriesIgnorePeerIdx(s: StoreState, idx: map<string, string>, k: string)
    ensures EntriesExact(s.(peerIdx := idx), k) <==> EntriesExact(s, k)
  {
    hide Enters;
  }

  /** Deleting a peer leaves the exact entries of every other peer exact, however many groups there are. */
  lemma DeletionKeepsEntries(s: StoreState, id: string, key: string, order: seq<string>, k: string)
    requires s.WellFormed() && id in s.accounts && key in s.accounts[id].peers
    requires IsListing(order, s.accounts[id].groups.Keys)
    requires k != key && EntriesExact(s, k)
    ensures EntriesExact(Apply(s, DeletePeer(s, id, key, order).change), k)
  {
    hide EntriesExact, Account.WellFormed, Save, CleanGroups, RulesNaming, Removed;
    var a, b := s.accounts[id], Removed(s.accounts[id], key, order);
    var mid := s.(peerIdx := s.peerIdx - {key});
    RemovalSaves(s, id, key, order);
    EntriesIgnorePeerIdx(s, mid.peerIdx, k);
    forall src, r ensures StillNamed(mid, b, src, k, r) {
      RemovalNaming(a, key, order, src, k);
    }
    SaveKeepsEntriesExactly(mid, b, k);
  }

  /** The entries of the deleted peer stay, so the indexes as a whole are exact afterwards if and only if, with
      distinct rule ids, no rule of the account named it. */
  lemma DeletionKeepsIndexesExactly(s: StoreState, id: string, key: string, order: seq<string>)
    requires s.WellFormed() && id in s.accounts && key in s.accounts[id].peers
    requires IsListing(order, s.accounts[id].groups.Keys)
    requires RuleIndexesExact(s) && RuleIdsDistinct(s)
    ensures var a := s.accounts[id];
      RuleIndexesExact(Apply(s, DeletePeer(s, id, key, order).change)) <==>
      forall src, r :: r in a.rules ==> key !in MembersOf(a, Side(a.rules[r], src))
  {
    hide RuleIndexesExact, Account.WellFormed, Save, CleanGroups, MembersOf, RuleIdsDistinct, Removed, StillNamed;
    hide RulesNaming;
    var a, b := s.accounts[id], Removed(s.accounts[id], key, order);
    var mid := s.(peerIdx := s.peerIdx - {key});
    RemovalSaves(s, id, key, order);
    IndexesIgnorePeerIdx(s, mid.peerIdx);
    SaveKeepsExactly(mid, b);
    forall src, p, r
      ensures StillNamed(mid, b, src, p, r) <==>
        !(p == key && r in a.rules && key in MembersOf(a, Side(a.rules[r], src)))
    {
      RemovalStillNames(s, mid, a, b, key, order, src, p, r);
    }
    if forall src, p, r :: StillNamed(mid, b, src, p, r) {
      forall src, r | r in a.rules ensures key !in MembersOf(a, Side(a.rules[r], src)) {
        assert StillNamed(mid, b, src, key, r);
      }
    }
  }

  lemma RemovalStillNames(s: StoreState, mid: StoreState, a: Account, b: Account, key: string, order: seq<string>,
                          src: bool, p: string, r: string)
    requires s.WellFormed() && a.id in s.accounts && s.accounts[a.id] == a && RuleIdsDistinct(s)
    requires IsListing(order, a.groups.Keys) && b == Removed(a, key, order) && mid.accounts == s.accounts
    ensures StillNamed(mid, b, src, p, r) <==> !(p == key && r in a.rules && key in MembersOf(a, Side(a.rules[r], src)))
  {
    hide Account.WellFormed, CleanGroups, RulesNaming, MembersOf, Enters, RuleIdsDistinct;
    RemovalNaming(a, key, order, src, p);
    NamedAreRules(a, src, p);
    if r in a.rules {
      DistinctIdsEnterOnce(s, a.id, src, p, r);
      NamedByOwnRule(a, src, p, r);
    }
  }

  lemma IndexesIgnorePeerIdx(s: StoreState, idx: map<string, string>)
    ensures RuleIndexesExact(s.(peerIdx := idx)) <==> RuleIndexesExact(s)
  {
    hide Enters;
  }

  lemma NamedAreRules(a: Account, src: bool, p: string)
    requires a.WellFormed()
    ensures RulesNaming(a, a.rules.Keys, src, p) <= a.rules.Keys
  {
    RulesKeyed(a);
  }

  lemma DeletionKeepsDistinctIds(s: StoreState, id: string, key: string, order: seq<string>)
    requires s.WellFormed() && id in s.accounts && key in s.accounts[id].peers
    requires IsListing(order, s.accounts[id].groups.Keys)
    requires RuleIdsDistinct(s)
    ensures RuleIdsDistinct(Apply(s, DeletePeer(s, id, key, order).change))
  {
    hide Account.WellFormed, Apply, DeletePeer, CleanGroups, RuleIdsDistinct;
    RemovalStored(s, id, key, order);
    SameRulesDistinct(s, Apply(s, DeletePeer(s, id, key, order).change), id);
  }

  lemma SameRulesDistinct(s: StoreState, t: StoreState, id: string)
    requires t.accounts.Keys == s.accounts.Keys && RuleIdsDistinct(s)
    requires forall x :: x in s.accounts ==> t.accounts[x].rules == s.accounts[x].rules
    ensures RuleIdsDistinct(t)
  {
  }

  // ----- registering a peer -----

  /** Registering a peer leaves the exact entries of every peer exact, its own included. */
  lemma AdditionKeepsEntries(s: StoreState, op: Op, id: string, k: string)
    requires s.WellFormed() && AddsTo(s, op, id) && EntriesExact(s, k)
    ensures EntriesExact(Step(s, op), k)
  {
    hide EntriesExact, Account.WellFormed, Save, RulesNaming, LocateForAdd, Enabled, ChangeOf, AddPeer;
    AddPeerShape(s, op);
    ChangesWellFormed(s, op);
    var b := ChangeOf(s, op).a;
    forall src, r ensures StillNamed(s, b, src, k, r) {
      AppendedNaming(s.accounts[b.id], b, op.gid, op.req.key, src, k);
    }
    SaveKeepsEntriesExactly(s, b, k);
  }

  lemma AppendedNaming(a: Account, b: Account, gid: string, key: string, src: bool, k: string)
    requires gid in a.groups && b.groups == AppendToGroup(a, gid, key) && b.rules == a.rules
    ensures RulesNaming(a, a.rules.Keys, src, k) <= RulesNaming(b, b.rules.Keys, src, k)
  {
    forall gids, p | p in MembersOf(a, gids) ensures p in MembersOf(b, gids) {
      var g :| g in gids && g in a.groups && p in a.groups[g].peers;
      assert p in b.groups[g].peers;
    }
    hide MembersOf;
  }

  lemma AdditionKeepsDistinctIds(s: StoreState, op: Op, id: string)
    requires s.WellFormed() && AddsTo(s, op, id) && RuleIdsDistinct(s)
    ensures RuleIdsDistinct(Step(s, op))
  {
    hide Account.WellFormed, Save, LocateForAdd, Enabled, ChangeOf, AddPeer, RuleIdsDistinct;
    AddPeerShape(s, op);
    ChangesWellFormed(s, op);
    SaveFields(s, ChangeOf(s, op).a);
    SameRulesDistinct(s, Step(s, op), id);
  }

  // ----- any map in closed form -----

  ghost predicate Named(a: Account, src: bool, k: string, r: string) {
    r in a.rules && k in MembersOf(a, Side(a.rules[r], src))
  }

  /** A bidirectional rule that the index has for `k`, and the account still has, leads to `q`. */
  ghost predicate Reaches(s: StoreState, id: string, k: string, q: string)
    requires id in s.accounts
  {
    var a := s.accounts[id];
    exists r, src :: r in a.rules && a.rules[r].flow == FLOW_BIDIRECT && r in Lookup(Idx(s, src), k)
                     && q in MembersOf(a, FarGroups(a, r, src))
  }

  ghost predicate SeesNow(s: StoreState, id: string, k: string, q: string)
    requires id in s.accounts
  {
    k in s.srcRules && k in s.dstRules && Reaches(s, id, k, q)
  }

  lemma MapIsOfOthers(s: StoreState, acc: string, k: string)
    requires acc in s.accounts && s.accounts[acc].WellFormed()
    ensures NetworkMapKeys(s, acc, k) <= s.accounts[acc].peers.Keys - {k}
  {
    hide Account.WellFormed, GroupsFound;
    WellFormedParts(s.accounts[acc]);
  }

  /** The map of any peer in any store, whatever the indexes hold. */
  lemma MapInAnyStore(s: StoreState, id: string, k: string)
    requires id in s.accounts && s.accounts[id].WellFormed()
    ensures NetworkMapKeys(s, id, k) <= s.accounts[id].peers.Keys - {k}
    ensures forall q :: q in s.accounts[id].peers && q != k ==>
      (q in NetworkMapKeys(s, id, k) <==> SeesNow(s, id, k, q))
  {
    hide Account.WellFormed, NetworkMapKeys, Reaches;
    MapIsOfOthers(s, id, k);
    WellFormedParts(s.accounts[id]);
    forall q | q in s.accounts[id].peers && q != k ensures q in NetworkMapKeys(s, id, k) <==> SeesNow(s, id, k, q) {
      if k in s.srcRules && k in s.dstRules { InMapIfReached(s, id, k, q); } else { NoEntryNoMap(s, id, k); }
    }
  }

  lemma NoEntryNoMap(t: StoreState, id: string, k: string)
    requires id in t.accounts && !(k in t.srcRules && k in t.dstRules)
    ensures NetworkMapKeys(t, id, k) == {}
  {
  }

  lemma InMapIfReached(s: StoreState, id: string, k: string, q: string)
    requires id in s.accounts && k in s.srcRules && k in s.dstRules
    requires q in s.accounts[id].peers && s.accounts[id].peers[q].key == q && q != k
    ensures q in NetworkMapKeys(s, id, k) <==> Reaches(s, id, k, q)
  {
    hide NetworkMapKeys, MembersOf, Lookup;
    var a := s.accounts[id];
    if q in NetworkMapKeys(s, id, k) {
      var r, src := RuleBehind(s, id, k, q);
      assert r in Lookup(Idx(s, src), k);
    }
    if Reaches(s, id, k, q) {
      var r, src :| r in a.rules && a.rules[r].flow == FLOW_BIDIRECT && r in Lookup(Idx(s, src), k)
                    && q in MembersOf(a, FarGroups(a, r, src));
      FoundIsInMap(s, id, k, q, r, src);
    }
  }

  /** For a peer with exact entries, and with distinct rule ids, that is being linked. */
  lemma ReachesIsLinked(s: StoreState, id: string, k: string, q: string)
    requires s.WellFormed() && id in s.accounts && EntriesExact(s, k) && RuleIdsDistinct(s)
    ensures Reaches(s, id, k, q) <==> Linked(s.accounts[id], k, q)
  {
    hide Account.WellFormed, MembersOf, Enters, RuleIdsDistinct, EntryExact, RulesFound;
    var a := s.accounts[id];
    forall r, src | r in a.rules ensures r in Lookup(Idx(s, src), k) <==> k in MembersOf(a, Side(a.rules[r], src)) {
      FoundMeansNamed(s, id, src, k, r);
      DistinctIdsEnterOnce(s, id, src, k, r);
      FoundIsLookedUp(s, id, src, k, r);
    }
    hide Lookup;
    if Linked(a, k, q) {
      var r :| r in a.rules && LinkedBy(a, r, k, q);
      var src := k in MembersOf(a, a.rules[r].source) && q in MembersOf(a, a.rules[r].destination);
      assert k in MembersOf(a, Side(a.rules[r], src)) && q in MembersOf(a, FarGroups(a, r, src));
    }
    if Reaches(s, id, k, q) {
      var r, src :| r in a.rules && a.rules[r].flow == FLOW_BIDIRECT && r in Lookup(Idx(s, src), k)
                    && q in MembersOf(a, FarGroups(a, r, src));
      assert LinkedBy(a, r, k, q);
    }
  }

  lemma FoundIsLookedUp(s: StoreState, id: string, src: bool, k: string, r: string)
    requires id in s.accounts && r in s.accounts[id].rules
    ensures r in RulesFound(s, id, src, k) <==> r in Lookup(Idx(s, src), k)
  {
  }

  /** With the indexes rebuilt, the peer has entries in both. */
  ghost predicate NamedOnBothSides(s: StoreState, k: string) {
    && (exists r :: Enters(s.accounts, s.accounts.Keys, true, k, r))
    && (exists r :: Enters(s.accounts, s.accounts.Keys, false, k, r))
  }

  lemma SeesByRules(s: StoreState, id: string, k: string, q: string)
    requires s.WellFormed() && id in s.accounts && EntriesExact(s, k) && RuleIdsDistinct(s)
    ensures SeesNow(s, id, k, q) <==> NamedOnBothSides(s, k) && Linked(s.accounts[id], k, q)
  {
    hide StoreState.WellFormed, RuleIdsDistinct, Enters, Linked, Reaches;
    ReachesIsLinked(s, id, k, q);
    EntriesAreNames(s, true, k);
    EntriesAreNames(s, false, k);
  }

  // ----- the map after a save -----

  /** A bidirectional rule of `b` leads from `k` to `q`, where it counts that the index has it for `k` already. */
  ghost predicate ReachesAfter(s: StoreState, b: Account, k: string, q: string) {
    exists r, src :: r in b.rules && b.rules[r].flow == FLOW_BIDIRECT
                     && (r in Lookup(Idx(s, src), k) || Named(b, src, k, r)) && q in MembersOf(b, FarGroups(b, r, src))
  }

  /** With `b` saved, the peer has entries in both indexes. */
  ghost predicate EnteredAfter(s: StoreState, b: Account, k: string) {
    forall src :: k in Idx(s, src) || exists r :: Named(b, src, k, r)
  }

  ghost predicate SeesAfter(s: StoreState, b: Account, k: string, q: string) {
    EnteredAfter(s, b, k) && ReachesAfter(s, b, k, q)
  }

  lemma SavedEntry(s: StoreState, b: Account, src: bool, k: string)
    requires b.WellFormed()
    ensures Lookup(Idx(Save(s, b), src), k) == Lookup(Idx(s, src), k) + RulesNaming(b, b.rules.Keys, src, k)
    ensures k in Idx(Save(s, b), src) <==> k in Idx(s, src) || exists r :: Named(b, src, k, r)
  {
    hide Account.WellFormed, RulesNaming, MembersOf, PointAll, PeerNames, UserNames, SetupKeyNames;
    IndexRulesLookup(Idx(s, src), b, b.rules.Keys, src, k);
    NamedHasRule(b, b.rules.Keys, src, k);
    NamesSome(b, src, k);
  }

  lemma NamesSome(b: Account, src: bool, k: string)
    requires b.WellFormed()
    ensures RulesNaming(b, b.rules.Keys, src, k) != {} <==> exists r :: Named(b, src, k, r)
  {
    hide MembersOf, Account.WellFormed;
    NamedAreRules(b, src, k);
    forall r | r in b.rules ensures r in RulesNaming(b, b.rules.Keys, src, k) <==> Named(b, src, k, r) {
      NamedByOwnRule(b, src, k, r);
    }
    if RulesNaming(b, b.rules.Keys, src, k) != {} {
      var r :| r in RulesNaming(b, b.rules.Keys, src, k);
      assert Named(b, src, k, r);
    }
  }

  /** What a save makes of the map of a peer, in any store. */
  lemma MapAfterSave(s: StoreState, b: Account, k: string)
    requires b.WellFormed()
    ensures b.id in Save(s, b).accounts && NetworkMapKeys(Save(s, b), b.id, k) <= b.peers.Keys - {k}
    ensures forall q :: q in b.peers && q != k ==>
      (q in NetworkMapKeys(Save(s, b), b.id, k) <==> SeesAfter(s, b, k, q))
  {
    hide Account.WellFormed, Save, NetworkMapKeys, EnteredAfter, ReachesAfter, Reaches, Idx;
    SaveFields(s, b);
    EnteredIsIndexed(s, b, k);
    MapInAnyStore(Save(s, b), b.id, k);
    forall q { ReachesIsAfter(s, b, k, q); }
  }

  lemma EnteredIsIndexed(s: StoreState, b: Account, k: string)
    requires b.WellFormed()
    ensures var t := Save(s, b); EnteredAfter(s, b, k) <==> k in t.srcRules && k in t.dstRules
  {
    hide Account.WellFormed, Save, Named;
    SavedEntry(s, b, true, k);
    SavedEntry(s, b, false, k);
  }

  lemma ReachesIsAfter(s: StoreState, b: Account, k: string, q: string)
    requires b.WellFormed()
    ensures b.id in Save(s, b).accounts && (Reaches(Save(s, b), b.id, k, q) <==> ReachesAfter(s, b, k, q))
  {
    hide Account.WellFormed, Save, MembersOf, Lookup, RulesNaming;
    SaveFields(s, b);
    forall r, src | r in b.rules
      ensures r in Lookup(Idx(Save(s, b), src), k) <==> r in Lookup(Idx(s, src), k) || Named(b, src, k, r)
    {
      SavedEntry(s, b, src, k);
      NamedByOwnRule(b, src, k, r);
    }
  }

  /** Either of two accounts names `k` in a bidirectional rule that `b` has, and that leads to `q` in `b`. */
  ghost predicate LinkedAcross(a: Account, b: Account, k: string, q: string) {
    exists r, src :: r in b.rules && b.rules[r].flow == FLOW_BIDIRECT && (Named(a, src, k, r) || Named(b, src, k, r))
                     && q in MembersOf(b, FarGroups(b, r, src))
  }

  /** If the peer's entries were exact before the save, what counts is whom the old and the new account name. */
  lemma ReachesAfterIsLinkedAcross(s: StoreState, b: Account, k: string, q: string)
    requires s.WellFormed() && b.WellFormed() && b.id in s.accounts && EntriesExact(s, k) && RuleIdsDistinct(Save(s, b))
    ensures ReachesAfter(s, b, k, q) <==> LinkedAcross(s.accounts[b.id], b, k, q)
  {
    hide Account.WellFormed, MembersOf, Save, Enters, RuleIdsDistinct, Named, Lookup, EntryExact;
    forall r, src | r in b.rules ensures r in Lookup(Idx(s, src), k) <==> Named(s.accounts[b.id], src, k, r) {
      IndexedMeansNamedBefore(s, b, src, k, r);
    }
  }

  lemma IndexedMeansNamedBefore(s: StoreState, b: Account, src: bool, k: string, r: string)
    requires s.WellFormed() && b.WellFormed() && b.id in s.accounts && EntryExact(s, src, k)
    requires RuleIdsDistinct(Save(s, b)) && r in b.rules
    ensures r in Lookup(Idx(s, src), k) <==> Named(s.accounts[b.id], src, k, r)
  {
    hide Account.WellFormed, RulesNaming, MembersOf, Save, Enters, RuleIdsDistinct;
    var a, t := s.accounts[b.id], Save(s, b);
    SaveFields(s, b);
    SavedWellFormed(s, b);
    EntersApart(s.accounts, b.id, src, k, r);
    EntersElsewhere(s.accounts, b, src, k, r);
    DistinctIdsEnterOnce(t, b.id, src, k, r);
    NamedAreRules(a, src, k);
    if r in a.rules { NamedByOwnRule(a, src, k, r); }
  }

  lemma SavedWellFormed(s: StoreState, b: Account)
    requires s.WellFormed() && b.WellFormed()
    ensures Save(s, b).WellFormed()
  {
    hide Account.WellFormed;
    SaveFields(s, b);
  }

  // ----- when an edit keeps the maps, and when it takes effect -----

  lemma SameSetExactly(x: set<string>, y: set<string>, all: set<string>)
    requires x <= all && y <= all
    ensures y == x <==> forall q :: q in all ==> (q in x <==> q in y)
  {
  }

  /** Group and rule edits leave every network, and with it the serial, as it was. */
  lemma EditsKeepSerials(s: StoreState, op: Op)
    requires s.WellFormed() && Enabled(s, op) && IsGroupOrRuleOp(op)
    ensures forall id :: id in s.accounts ==>
      id in Step(s, op).accounts && Step(s, op).accounts[id].network == s.accounts[id].network
  {
    hide Account.WellFormed, ChangeOf, Enabled, IndexRules, PeerNames, UserNames, SetupKeyNames;
    GroupOrRuleOpShape(s, op);
  }

  ghost predicate SeesTheSame(s: StoreState, b: Account, k: string)
    requires b.id in s.accounts
  {
    forall q :: q in b.peers && q != k ==> (SeesNow(s, b.id, k, q) <==> SeesAfter(s, b, k, q))
  }

  /** A save that registers and removes no one leaves the map of a peer as it was if and only if the rules, as
      they count for the peer before and after, lead it to the same others. */
  lemma SaveKeepsMapExactly(s: StoreState, b: Account, k: string)
    requires s.WellFormed() && b.WellFormed() && b.id in s.accounts && b.peers.Keys == s.accounts[b.id].peers.Keys
    ensures b.id in Save(s, b).accounts
    ensures NetworkMapKeys(Save(s, b), b.id, k) == NetworkMapKeys(s, b.id, k) <==> SeesTheSame(s, b, k)
  {
    hide Account.WellFormed, Save, NetworkMapKeys, SeesNow, SeesAfter;
    MapAfterSave(s, b, k);
    MapInAnyStore(s, b.id, k);
    SameSetExactly(NetworkMapKeys(s, b.id, k), NetworkMapKeys(Save(s, b), b.id, k), b.peers.Keys - {k});
  }

  /** A group or rule edit leaves every map of its account as it was exactly under that condition, in any store.
      The serial stays in any case. */
  lemma EditKeepsMapsExactly(s: StoreState, op: Op)
    requires s.WellFormed() && Enabled(s, op) && IsGroupOrRuleOp(op) && ChangeOf(s, op).Saved?
    ensures op.accountId in s.accounts && op.accountId in Step(s, op).accounts
    ensures var id, t, b := op.accountId, Step(s, op), ChangeOf(s, op).a;
      && b.id == id && t.accounts[id] == b && b.network == s.accounts[id].network && b.peers == s.accounts[id].peers
      && ((forall k :: k in b.peers ==> NetworkMapKeys(t, id, k) == NetworkMapKeys(s, id, k)) <==>
          forall k :: k in b.peers ==> SeesTheSame(s, b, k))
  {
    hide Account.WellFormed, Save, NetworkMapKeys, SeesTheSame, ChangeOf, Enabled;
    var b := ChangeOf(s, op).a;
    GroupOrRuleOpShape(s, op);
    ChangesWellFormed(s, op);
    SaveFields(s, b);
    forall k | k in b.peers
      ensures NetworkMapKeys(Step(s, op), b.id, k) == NetworkMapKeys(s, b.id, k) <==> SeesTheSame(s, b, k)
    {
      SaveKeepsMapExactly(s, b, k);
    }
  }

  /** The same condition in terms of the two accounts, for a peer with exact entries and with distinct ids. */
  lemma SeesTheSameByRules(s: StoreState, b: Account, k: string)
    requires s.WellFormed() && b.WellFormed() && b.id in s.accounts
    requires EntriesExact(s, k) && RuleIdsDistinct(s) && RuleIdsDistinct(Save(s, b))
    ensures SeesTheSame(s, b, k) <==> forall q :: q in b.peers && q != k ==>
      (k in s.srcRules && k in s.dstRules && Linked(s.accounts[b.id], k, q) <==>
       EnteredAfter(s, b, k) && LinkedAcross(s.accounts[b.id], b, k, q))
  {
    hide StoreState.WellFormed, Account.WellFormed, Save, RuleIdsDistinct, EntriesExact, EnteredAfter;
    hide Reaches, ReachesAfter, Linked, LinkedAcross;
    forall q
      ensures Reaches(s, b.id, k, q) <==> Linked(s.accounts[b.id], k, q)
      ensures ReachesAfter(s, b, k, q) <==> LinkedAcross(s.accounts[b.id], b, k, q)
    {
      ReachesIsLinked(s, b.id, k, q);
      ReachesAfterIsLinkedAcross(s, b, k, q);
    }
  }

  /** A save shows a peer at once what a restart would show it if and only if the rules, as they count for it
      now, lead it to the same others as the new rules alone. */
  lemma SaveTakesEffectExactly(s: StoreState, b: Account, k: string, order: seq<string>)
    requires s.WellFormed() && b.WellFormed() && IsListing(order, Save(s, b).accounts.Keys)
    ensures var t, id := Save(s, b), b.id;
      && id in t.accounts
      && (NetworkMapKeys(t, id, k) == NetworkMapKeys(Restore(t.accounts, order), id, k) <==>
          forall q :: q in b.peers && q != k ==>
            (SeesAfter(s, b, k, q) <==>
             NamedOnBothSides(t, k) && (Linked(b, k, q) || ReachedByBorrowing(t, id, k, q))))
  {
    hide Account.WellFormed, Save, NetworkMapKeys, SeesAfter, RestoreFrom, Linked, ReachedByBorrowing, NamedOnBothSides;
    hide RuleIndexesExact, EntriesExact;
    var t := Save(s, b);
    SaveFields(s, b);
    MapAfterSave(s, b, k);
    SavedWellFormed(s, b);
    RebuiltMap(t, b.id, k, order);
    var live, rebuilt := NetworkMapKeys(t, b.id, k), NetworkMapKeys(Restore(t.accounts, order), b.id, k);
    SameSetExactly(live, rebuilt, b.peers.Keys - {k});
  }

  lemma RebuiltMap(s: StoreState, id: string, k: string, order: seq<string>)
    requires s.WellFormed() && id in s.accounts && IsListing(order, s.accounts.Keys)
    ensures var a, u := s.accounts[id], Restore(s.accounts, order);
      && NetworkMapKeys(u, id, k) <= a.peers.Keys - {k}
      && forall q :: q in a.peers && q != k ==>
           (q in NetworkMapKeys(u, id, k) <==>
            NamedOnBothSides(s, k) && (Linked(a, k, q) || ReachedByBorrowing(s, id, k, q)))
  {
    hide Account.WellFormed, NetworkMapKeys, RestoreFrom, Linked, Enters, RuleIndexesExact, EntriesExact;
    var u := Restore(s.accounts, order);
    RestoreIsExact(s, order);
    ExactIsEveryEntry(u);
    NetworkMapExactly(u, id, k);
    assert NamedOnBothSides(s, k) <==> k in Idx(u, true) && k in Idx(u, false);
    forall q ensures ReachedByBorrowing(u, id, k, q) <==> ReachedByBorrowing(s, id, k, q) {}
  }

  // ----- taking a peer out of a group -----

  /** A peer taken out of a group keeps its map, in any store: the rule stays, and so does the peer's entry. */
  lemma TakenOutSeesTheSame(s: StoreState, id: string, gid: string, key: string)
    requires s.WellFormed() && id in s.accounts && Covers(s, id)
    ensures var t := Apply(s, GroupDeletePeer(s, id, gid, key).change);
      id in t.accounts && NetworkMapKeys(t, id, key) == NetworkMapKeys(s, id, key)
  {
    hide Account.WellFormed, Save, NetworkMapKeys, Covers;
    var c := GroupDeletePeer(s, id, gid, key).change;
    if c.Saved? {
      var a := s.accounts[id];
      var b := c.a;
      ChangesWellFormed(s, GroupDeletePeerOp(id, gid, key));
      SaveFields(s, b);
      TakenOutMembers(a, gid, key);
      SameFound(s, b, true, key);
      SameFound(s, b, false, key);
      var t := Save(s, b);
      SameRulesFound(s, t, id, key);
      MapIsOfOthers(s, id, key);
      MapIsOfOthers(t, id, key);
      WellFormedParts(a);
      WellFormedParts(b);
      forall q ensures q in NetworkMapKeys(t, id, key) <==> q in NetworkMapKeys(s, id, key) {
        if q in NetworkMapKeys(s, id, key) { MapCarriesOver(s, t, id, key, q); }
        if q in NetworkMapKeys(t, id, key) { MapCarriesOver(t, s, id, key, q); }
      }
    }
  }

  lemma TakenOutStored(s: StoreState, id: string, gid: string, key: string)
    requires s.WellFormed() && id in s.accounts && gid in s.accounts[id].groups
    requires key in s.accounts[id].groups[gid].peers
    ensures var a, t := s.accounts[id], Apply(s, GroupDeletePeer(s, id, gid, key).change);
      && t.WellFormed()
      && t.accounts == s.accounts[id := TakenOut(a, gid, key)]
  {
    hide Account.WellFormed, Save, RemoveFirst;
    ChangesWellFormed(s, GroupDeletePeerOp(id, gid, key));
    var b := GroupDeletePeer(s, id, gid, key).change.a;
    SaveFields(s, b);
    SavedWellFormed(s, b);
  }

  lemma TakenOutMembers(a: Account, gid: string, key: string)
    requires gid in a.groups
    ensures var b := TakenOut(a, gid, key);
      forall gids, q :: (q in MembersOf(b, gids) ==> q in MembersOf(a, gids))
                        && (q != key && q in MembersOf(a, gids) ==> q in MembersOf(b, gids))
  {
    var b := TakenOut(a, gid, key);
    hide RemoveFirst;
    forall gids, q ensures q in MembersOf(b, gids) ==> q in MembersOf(a, gids)
                   ensures q != key && q in MembersOf(a, gids) ==> q in MembersOf(b, gids)
    {
      forall g | g in a.groups ensures q in b.groups[g].peers ==> q in a.groups[g].peers
                               ensures q != key && q in a.groups[g].peers ==> q in b.groups[g].peers {}
    }
  }

  lemma SameFound(s: StoreState, b: Account, src: bool, key: string)
    requires s.WellFormed() && b.WellFormed() && b.id in s.accounts && Covers(s, b.id)
    requires b.rules == s.accounts[b.id].rules
    requires forall gids, q :: q in MembersOf(b, gids) ==> q in MembersOf(s.accounts[b.id], gids)
    ensures Lookup(Idx(Save(s, b), src), key) == Lookup(Idx(s, src), key)
    ensures key in Idx(Save(s, b), src) <==> key in Idx(s, src)
  {
    hide Account.WellFormed, MembersOf, Save;
    var a := s.accounts[b.id];
    SavedEntry(s, b, src, key);
    assert RulesNaming(b, b.rules.Keys, src, key) <= RulesNaming(a, a.rules.Keys, src, key);
    NamesSome(b, src, key);
  }

  lemma SameRulesFound(s: StoreState, t: StoreState, id: string, k: string)
    requires id in s.accounts && id in t.accounts && t.accounts[id].rules == s.accounts[id].rules
    requires Lookup(Idx(t, true), k) == Lookup(Idx(s, true), k) && Lookup(Idx(t, false), k) == Lookup(Idx(s, false), k)
    ensures forall src :: RulesFound(t, id, src, k) == RulesFound(s, id, src, k)
  {
  }

  /** The same rules found, and `q` in no fewer groups: `q` stays in the map. */
  lemma MapCarriesOver(s: StoreState, t: StoreState, id: string, k: string, q: string)
    requires id in s.accounts && id in t.accounts && t.accounts[id].rules == s.accounts[id].rules
    requires forall src :: RulesFound(t, id, src, k) == RulesFound(s, id, src, k)
    requires k in s.srcRules && k in s.dstRules ==> k in t.srcRules && k in t.dstRules
    requires q in NetworkMapKeys(s, id, k) && q in t.accounts[id].peers && t.accounts[id].peers[q].key == q && q != k
    requires forall gids :: q in MembersOf(s.accounts[id], gids) ==> q in MembersOf(t.accounts[id], gids)
    ensures q in NetworkMapKeys(t, id, k)
  {
    hide RulesFound, MembersOf;
    var r, src := RuleBehind(s, id, k, q);
    assert FarGroups(t.accounts[id], r, src) == FarGroups(s.accounts[id], r, src);
    FoundIsInMap(t, id, k, q, r, src);
  }

  // ----- the rule indexes are the history of the rules -----

  /** The state with which the service last started, before the n-th operation. */
  ghost function LastStart(ops: seq<Op>, n: nat): (m: nat)
    requires n <= |ops|
    ensures m <= n
  {
    if n == 0 || ops[n - 1].RestartOp? then n else LastStart(ops, n - 1)
  }

  /** The account that the change saves has rule `r` name `k` on that side. */
  ghost predicate SavedNames(c: Change, src: bool, k: string, r: string) {
    (c.Saved? || c.SavedWithoutPeer?) && r in RulesNaming(c.a, c.a.rules.Keys, src, k)
  }

  /** What enters `r` for `k` with the i-th state: at a start the accounts as they then are, else a save. */
  ghost predicate EntersAt(states: seq<StoreState>, ops: seq<Op>, i: nat, src: bool, k: string, r: string)
    requires |states| == |ops| + 1 && i <= |ops|
  {
    if i == 0 || ops[i - 1].RestartOp? then Enters(states[i].accounts, states[i].accounts.Keys, src, k, r)
    else Enabled(states[i - 1], ops[i - 1]) && SavedNames(ChangeOf(states[i - 1], ops[i - 1]), src, k, r)
  }

  /** Since the service last started, rule `r` of some account has named `k` on that side: at the start, or in
      an account as it was saved. */
  ghost predicate NamedSince(states: seq<StoreState>, ops: seq<Op>, n: nat, src: bool, k: string, r: string)
    requires |states| == |ops| + 1 && n <= |ops|
  {
    exists i :: LastStart(ops, n) <= i <= n && EntersAt(states, ops, i, src, k, r)
  }

  /** The index of the n-th state is what the rules have said since the start. */
  ghost predicate IsHistory(states: seq<StoreState>, ops: seq<Op>, n: nat, src: bool)
    requires |states| == |ops| + 1 && n <= |ops|
  {
    && NoEmptyEntry(Idx(states[n], src))
    && forall k, r :: r in Lookup(Idx(states[n], src), k) <==> NamedSince(states, ops, n, src, k, r)
  }

  /** A change keeps what the index holds and adds what the account it saves says. */
  ghost predicate AddsWhatIsSaved(s: StoreState, t: StoreState, c: Change, src: bool) {
    && (NoEmptyEntry(Idx(s, src)) ==> NoEmptyEntry(Idx(t, src)))
    && forall k, r :: r in Lookup(Idx(t, src), k) <==> r in Lookup(Idx(s, src), k) || SavedNames(c, src, k, r)
  }

  lemma ChangeAdds(s: StoreState, c: Change, src: bool)
    ensures AddsWhatIsSaved(s, Apply(s, c), c, src)
  {
    hide RulesNaming, IndexRules, PeerNames, UserNames, SetupKeyNames, PointAll;
    if c.Saved? || c.SavedWithoutPeer? {
      var idx := Idx(s, src);
      var rules := IndexRules(idx, c.a, c.a.rules.Keys, src);
      assert Idx(Apply(s, c), src) == rules;
      forall k ensures Lookup(rules, k) == Lookup(idx, k) + RulesNaming(c.a, c.a.rules.Keys, src, k) {
        IndexRulesLookup(idx, c.a, c.a.rules.Keys, src, k);
      }
      if NoEmptyEntry(idx) {
        forall k | k in rules ensures rules[k] != {} { EntryNotEmpty(idx, c.a, c.a.rules.Keys, src, k); }
      }
    }
  }

  lemma StartIsHistory(states: seq<StoreState>, ops: seq<Op>, n: nat, src: bool)
    requires IsRun(states, ops) && n <= |ops| && LastStart(ops, n) == n
    ensures IsHistory(states, ops, n, src)
  {
    hide RuleIndexOf, StoreState.WellFormed, Step, Enabled, Disciplined;
    assert RuleIndexesExact(states[n]) by {
      if n == 0 { EmptyIsExact(); } else { StartIsExact(states, ops, n); }
    }
    hide IsRun;
    ExactStartIsHistory(states, ops, n, src);
  }

  lemma ExactStartIsHistory(states: seq<StoreState>, ops: seq<Op>, n: nat, src: bool)
    requires |states| == |ops| + 1 && n <= |ops| && LastStart(ops, n) == n && RuleIndexesExact(states[n])
    ensures IsHistory(states, ops, n, src)
  {
    hide Enters;
    assert n == 0 || ops[n - 1].RestartOp?;
    assert RuleIndexOf(Idx(states[n], src), states[n].accounts, states[n].accounts.Keys, src);
    forall k, r ensures NamedSince(states, ops, n, src, k, r) <==> EntersAt(states, ops, n, src, k, r) {}
  }

  lemma EmptyIsExact()
    ensures RuleIndexesExact(EMPTY)
  {
  }

  lemma StartIsExact(states: seq<StoreState>, ops: seq<Op>, n: nat)
    requires IsRun(states, ops) && 0 < n <= |ops| && ops[n - 1].RestartOp?
    ensures RuleIndexesExact(states[n])
  {
    hide RuleIndexesExact, StoreState.WellFormed, Disciplined, RestartPicks, Restart;
    RunStepAt(states, ops, n - 1);
    var op := ops[n - 1];
    RestartIsExact(states[n - 1], op.order, op.saves, op.picks);
  }

  /** In every run, both rule indexes are at any moment exactly the history of the rules since the service last
      started: a rule is in the entry of a peer if and only if an account, as it was at the start or as it was
      saved since, had it name the peer. */
  lemma {:induction false} IndexIsHistory(states: seq<StoreState>, ops: seq<Op>, n: nat, src: bool)
    requires IsRun(states, ops) && n <= |ops|
    ensures IsHistory(states, ops, n, src)
  {
    hide Step, Enabled, Disciplined, StoreState.WellFormed, EntersAt, IsHistory;
    if LastStart(ops, n) == n {
      StartIsHistory(states, ops, n, src);
    } else {
      IndexIsHistory(states, ops, n - 1, src);
      RunStepAt(states, ops, n - 1);
      HistoryGoesOn(states, ops, n, src);
    }
  }

  lemma HistoryGoesOn(states: seq<StoreState>, ops: seq<Op>, n: nat, src: bool)
    requires |states| == |ops| + 1 && 0 < n <= |ops| && !ops[n - 1].RestartOp? && IsHistory(states, ops, n - 1, src)
    requires states[n - 1].WellFormed() && Enabled(states[n - 1], ops[n - 1])
    requires states[n] == Step(states[n - 1], ops[n - 1])
    ensures IsHistory(states, ops, n, src)
  {
    hide SavedNames, Enabled, ChangeOf, StoreState.WellFormed, Apply;
    ChangeAdds(states[n - 1], ChangeOf(states[n - 1], ops[n - 1]), src);
    assert LastStart(ops, n) == LastStart(ops, n - 1);
    hide LastStart;
    forall k, r ensures NamedSince(states, ops, n, src, k, r) <==>
      NamedSince(states, ops, n - 1, src, k, r) || EntersAt(states, ops, n, src, k, r) {}
  }

  /** The rules that count for `k` at the n-th moment lead to `q`. */
  ghost predicate LedTo(states: seq<StoreState>, ops: seq<Op>, n: nat, id: string, k: string, q: string)
    requires |states| == |ops| + 1 && n <= |ops| && id in states[n].accounts
  {
    var a := states[n].accounts[id];
    exists r, src :: r in a.rules && a.rules[r].flow == FLOW_BIDIRECT && NamedSince(states, ops, n, src, k, r)
                     && q in MembersOf(a, FarGroups(a, r, src))
  }

  /** GetNetworkMap at any moment of any run: the peer must have been named as a source and as a destination
      since the service last started, and then sees whoever the account's present rules lead to from the
      sides on which they have named it since then. */
  lemma LiveMapInRun(states: seq<StoreState>, ops: seq<Op>, n: nat, id: string, k: string)
    requires IsRun(states, ops) && n <= |ops| && id in states[n].accounts
    ensures NetworkMapKeys(states[n], id, k) <= states[n].accounts[id].peers.Keys - {k}
    ensures forall q :: q in states[n].accounts[id].peers && q != k ==>
      (q in NetworkMapKeys(states[n], id, k) <==>
         (exists r :: NamedSince(states, ops, n, true, k, r)) && (exists r :: NamedSince(states, ops, n, false, k, r))
         && LedTo(states, ops, n, id, k, q))
  {
    hide RunStep, NetworkMapKeys, NamedSince, MembersOf, Agree;
    IndexIsHistory(states, ops, n, true);
    IndexIsHistory(states, ops, n, false);
    RunAgrees(states, ops, n);
    IsWellFormed(states[n]);
    MapInAnyStore(states[n], id, k);
    EntryIsHistory(states, ops, n, true, k);
    EntryIsHistory(states, ops, n, false, k);
    forall q { ReachedIsLedTo(states, ops, n, id, k, q); }
    hide Reaches, LedTo, IsHistory;
  }

  lemma EntryIsHistory(states: seq<StoreState>, ops: seq<Op>, n: nat, src: bool, k: string)
    requires |states| == |ops| + 1 && n <= |ops| && IsHistory(states, ops, n, src)
    ensures k in Idx(states[n], src) <==> exists r :: NamedSince(states, ops, n, src, k, r)
  {
    hide NamedSince;
    if k in Idx(states[n], src) {
      var r :| r in Idx(states[n], src)[k];
      assert r in Lookup(Idx(states[n], src), k);
    }
  }

  lemma ReachedIsLedTo(states: seq<StoreState>, ops: seq<Op>, n: nat, id: string, k: string, q: string)
    requires |states| == |ops| + 1 && n <= |ops| && id in states[n].accounts
    requires IsHistory(states, ops, n, true) && IsHistory(states, ops, n, false)
    ensures Reaches(states[n], id, k, q) <==> LedTo(states, ops, n, id, k, q)
  {
    hide NamedSince, MembersOf, Lookup;
    forall r, src ensures r in Lookup(Idx(states[n], src), k) <==> NamedSince(states, ops, n, src, k, r) {
      assert IsHistory(states, ops, n, src);
    }
  }
}
