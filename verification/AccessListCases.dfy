/** Cases in which the access lists of management/server/{file_store,peer,rule}.go do less, or show more, than
    the rules say. */
module AccessListCases {
  import opened IpAllocation
  import opened Model
  import opened StoreSpec
  import opened ManagerSpec
  import opened Operations
  import opened IndexAgreement
  import opened NetworkMap
  import opened LiveMaps

  // ----- one account, restored -----

  lemma RestoredAlone(a: Account)
    requires a.WellFormed() && a.id == "a"
    ensures var s := Restore(map["a" := a], ["a"]); AloneDistinct(s) && forall k :: EntriesExact(s, k)
  {
    hide Account.WellFormed, EntriesExact, RuleIndexesExact, RestoreFrom;
    var s := Restore(map["a" := a], ["a"]);
    RestoreIsExact(EMPTY.(accounts := map["a" := a]), ["a"]);
    ExactIsEveryEntry(s);
  }

  ghost predicate AloneDistinct(s: StoreState) {
    s.WellFormed() && RuleIdsDistinct(s)
  }

  // ----- a rule in one direction -----

  /** Two peers and one rule from the group of the first to the group of the second. */
  function OneWayAccount(): Account {
    var k := Peer("k", "", 0x6440_0002, Meta("", "", "", "", "", "", "", ""), "k", PeerStatus(false, 0), "");
    var q := k.(key := "q", name := "q", ip := 0x6440_0003);
    Account("a", "u", "", "", false, map[], Network("n", NewNetwork(0), "", 2), map["k" := k, "q" := q], map[],
            map["g" := Group("g", "All", ["k"]), "h" := Group("h", "other", ["q"])],
            map["r" := Rule("r", "one way", ["g"], ["h"], FLOW_BIDIRECT)])
  }

  /** A bidirectional rule links `k` and `q`, yet neither map shows the other: each peer lacks an entry in
      one of the two indexes, and GetNetworkMap then returns no peers. */
  lemma OneSidedPeersSeeNoOne()
    ensures var a := OneWayAccount(); var s := Restore(map["a" := a], ["a"]);
      && Visible(a, "k") == {"q"} && NetworkMapKeys(s, "a", "k") == {}
      && Visible(a, "q") == {"k"} && NetworkMapKeys(s, "a", "q") == {}
  {
    hide OneWayAccount, Visible, RestoreFrom;
    var s := Restore(map["a" := OneWayAccount()], ["a"]);
    OneWayVisible();
    RestoreIsExact(EMPTY.(accounts := map["a" := OneWayAccount()]), ["a"]);
    OneWayIndexes(s);
  }

  lemma OneWaySides()
    ensures var a := OneWayAccount();
      && MembersOf(a, ["g"]) == {"k"} && MembersOf(a, ["h"]) == {"q"}
      && RulesNaming(a, a.rules.Keys, false, "k") == {} && RulesNaming(a, a.rules.Keys, true, "q") == {}
  {
    var a := OneWayAccount();
    assert a.groups["g"].peers == ["k"] && a.groups["h"].peers == ["q"];
    assert "k" in a.groups["g"].peers && "q" in a.groups["h"].peers;
    assert "k"[0] != "q"[0];
    assert "g" in ["g"] && "h" in ["h"];
    assert MembersOf(a, ["g"]) == {"k"};
    assert MembersOf(a, ["h"]) == {"q"};
  }

  lemma OneWayVisible()
    ensures Visible(OneWayAccount(), "k") == {"q"} && Visible(OneWayAccount(), "q") == {"k"}
  {
    hide MembersOf;
    var a := OneWayAccount();
    OneWaySides();
    assert "k"[0] != "q"[0];
    assert LinkedBy(a, "r", "k", "q") && LinkedBy(a, "r", "q", "k");
    assert a.peers.Keys == {"k", "q"};
  }

  lemma OneWayIndexes(s: StoreState)
    requires s.accounts == map["a" := OneWayAccount()] && RuleIndexesExact(s)
    ensures "k" !in s.dstRules && "q" !in s.srcRules
  {
    hide MembersOf, RulesNaming, OneWayAccount;
    OneWaySides();
    assert forall r :: !Enters(s.accounts, s.accounts.Keys, false, "k", r);
    assert forall r :: !Enters(s.accounts, s.accounts.Keys, true, "q", r);
    assert Lookup(s.dstRules, "k") == {};
    assert Lookup(s.srcRules, "q") == {};
  }

  lemma OneWayWellFormed()
    ensures OneWayAccount().WellFormed()
  {
    hide Upper;
    var a := OneWayAccount();
    assert a.groups["g"].id == "g" && a.groups["h"].id == "h" && a.peers["k"].key == "k" && a.peers["q"].key == "q";
  }

  /** The rule is deleted and its entries stay. */
  lemma DeletedRuleStaysIndexed()
    ensures var s := Restore(map["a" := OneWayAccount()], ["a"]); var t := Apply(s, DeleteRule(s, "a", "r").change);
      && RuleIndexesExact(s) && !RuleIndexesExact(t)
      && t.accounts["a"].rules == map[] && "r" in Lookup(t.srcRules, "k") && "r" in Lookup(t.dstRules, "q")
  {
    hide OneWayAccount, RestoreFrom, RuleIndexesExact, MembersOf, RulesNaming, Account.WellFormed;
    var a := OneWayAccount();
    var s := Restore(map["a" := a], ["a"]);
    OneWayWellFormed();
    OneWayRule();
    RestoreIsExact(EMPTY.(accounts := map["a" := a]), ["a"]);
    RuleDeletionKeepsExactly(s, "a", "r");
    assert "k" in MembersOf(a, Side(a.rules["r"], true));
    ExactCovers(s);
    assert Covers(s, "a");
    NamedByOwnRule(a, true, "k", "r");
    NamedByOwnRule(a, false, "q", "r");
    assert "r" in Lookup(Idx(s, true), "k") && "r" in Lookup(Idx(s, false), "q");
  }

  lemma OneWayRule()
    ensures var a := OneWayAccount();
      && a.id == "a" && a.rules.Keys == {"r"} && a.rules["r"].flow == FLOW_BIDIRECT
      && MembersOf(a, Side(a.rules["r"], true)) == {"k"} && MembersOf(a, Side(a.rules["r"], false)) == {"q"}
  {
    OneWaySides();
  }

  // ----- a rule left without its group -----

  /** DeleteGroup leaves all rules with their groups exactly when no rule names the group. */
  lemma GroupDeletionEnabledExactly(s: StoreState, id: string, gid: string)
    requires s.WellFormed() && id in s.accounts
    ensures Enabled(s, DeleteGroupOp(id, gid)) <==>
      forall r :: r in s.accounts[id].rules ==>
        gid !in s.accounts[id].rules[r].source && gid !in s.accounts[id].rules[r].destination
  {
    hide Account.WellFormed;
    NamesGroups(s.accounts[id]);
  }

  /** And SaveRule exactly when the account has the groups that the rule names. */
  lemma RuleSavingEnabledExactly(s: StoreState, id: string, r: Rule)
    requires s.WellFormed() && id in s.accounts
    ensures Enabled(s, SaveRuleOp(id, r)) <==> forall g :: g in r.source + r.destination ==> g in s.accounts[id].groups
  {
    hide Account.WellFormed;
    NamesGroups(s.accounts[id]);
    assert s.accounts[id].rules[r.id := r][r.id] == r;
  }

  /** Deleting the group of the source leaves the rule with a group that is not there. */
  lemma DeletedGroupLeavesRule()
    ensures var a := OneWayAccount(); a.WellFormed() && !a.(groups := a.groups - {"g"}).RulesNameGroups()
  {
    OneWayWellFormed();
    hide Account.WellFormed;
    var a := OneWayAccount();
    assert "g" in a.rules["r"].source;
  }

  // ----- an edit that no one is told of -----

  const BOTH_WAYS := Rule("x", "both ways", ["g", "h"], ["g", "h"], FLOW_BIDIRECT)

  /** A saved rule that names a peer on both sides shows it all the peers the rules link it to. */
  lemma SavedRuleShows(s: StoreState, b: Account, r: string, k: string)
    requires b.WellFormed() && r in b.rules && forall src :: k in MembersOf(b, Side(b.rules[r], src))
    ensures b.id in Save(s, b).accounts && Visible(b, k) <= NetworkMapKeys(Save(s, b), b.id, k)
  {
    hide Account.WellFormed, MembersOf, RulesNaming, Save, NetworkMapKeys, Visible;
    var t := Save(s, b);
    SaveFields(s, b);
    SaveCovers(s, b);
    NamedByOwnRule(b, true, k, r);
    NamedByOwnRule(b, false, k, r);
    assert r in Lookup(Idx(t, true), k) && r in Lookup(Idx(t, false), k);
    NetworkMapLosesNoOne(t, b.id, k);
  }

  /** Saving a rule lets `k` see `q`, under the serial under which it saw no one. */
  lemma EditChangesMapAtSameSerial()
    ensures var s, op := Restore(map["a" := OneWayAccount()], ["a"]), SaveRuleOp("a", BOTH_WAYS);
      && s.WellFormed() && Enabled(s, op)
      && NetworkMapKeys(s, "a", "k") == {} && "a" in Step(s, op).accounts
      && "q" in NetworkMapKeys(Step(s, op), "a", "k")
      && Step(s, op).accounts["a"].network == s.accounts["a"].network
  {
    hide OneWayAccount, RestoreFrom, MembersOf, Account.WellFormed, NetworkMapKeys, Save, Visible;
    var a := OneWayAccount();
    var s := Restore(map["a" := a], ["a"]);
    OneWayWellFormed();
    OneSidedPeersSeeNoOne();
    OneWayRule();
    BothWaysLinks();
    SavedBothWays(s);
    EditsKeepSerials(s, SaveRuleOp("a", BOTH_WAYS));
  }

  lemma SavedBothWays(s: StoreState)
    requires s.WellFormed() && s.accounts == map["a" := OneWayAccount()]
    ensures var op := SaveRuleOp("a", BOTH_WAYS);
      Enabled(s, op) && "a" in Step(s, op).accounts && "q" in NetworkMapKeys(Step(s, op), "a", "k")
  {
    hide OneWayAccount, MembersOf, Account.WellFormed, NetworkMapKeys, Save, Visible;
    var a := OneWayAccount();
    var b := a.(rules := a.rules["x" := BOTH_WAYS]);
    OneWayWellFormed();
    OneWayRule();
    BothWaysLinks();
    RuleSavingEnabledExactly(s, "a", BOTH_WAYS);
    SaveRuleWellFormed(a, BOTH_WAYS);
    SavedRuleShows(s, b, "x", "k");
  }

  lemma BothWaysLinks()
    ensures var a := OneWayAccount(); var b := a.(rules := a.rules["x" := BOTH_WAYS]);
      && (forall g :: g in BOTH_WAYS.source + BOTH_WAYS.destination ==> g in a.groups)
      && "q" in Visible(b, "k") && (forall src :: "k" in MembersOf(b, Side(BOTH_WAYS, src)))
  {
    var a := OneWayAccount();
    var b := a.(rules := a.rules["x" := BOTH_WAYS]);
    assert "q"[0] != "k"[0];
    assert a.groups["g"].peers == ["k"] && a.groups["h"].peers == ["q"];
    assert "k" in b.groups["g"].peers && "q" in b.groups["h"].peers && "g" in BOTH_WAYS.source
      && "h" in BOTH_WAYS.destination;
    assert "g" in BOTH_WAYS.destination;
    assert LinkedBy(b, "x", "k", "q");
  }

  // ----- a peer taken out of its group -----

  function BothWaysAccount(): Account {
    OneWayAccount().(rules := map["x" := BOTH_WAYS])
  }

  lemma BothWaysFacts()
    ensures var a := BothWaysAccount();
      && a.WellFormed() && a.id == "a" && a.rules.Keys == {"x"} && a.rules["x"] == BOTH_WAYS && "g" in a.groups
      && "k" != "q" && "q" in a.peers && LinkedBy(a, "x", "k", "q")
      && forall src :: "k" in MembersOf(a, Side(BOTH_WAYS, src))
  {
    hide Upper;
    var a := BothWaysAccount();
    OneWayWellFormed();
    assert "q"[0] != "k"[0];
    assert a.groups["g"].peers == ["k"] && a.groups["h"].peers == ["q"];
    assert "k" in a.groups["g"].peers && "q" in a.groups["h"].peers && "g" in BOTH_WAYS.source
      && "h" in BOTH_WAYS.source;
  }

  /** The same account after GroupDeletePeer. */
  function TakenOutAccount(): Account {
    var a := BothWaysAccount();
    a.(groups := a.groups["g" := Group("g", "All", [])])
  }

  lemma TakenOutFacts()
    ensures var a := TakenOutAccount();
      && a.id == "a" && "g" in a.groups && a.groups["g"].peers == [] && a.rules == map["x" := BOTH_WAYS]
      && (forall src :: "k" !in MembersOf(a, Side(BOTH_WAYS, src)))
  {
    assert "q"[0] != "k"[0];
    assert TakenOutAccount().groups["h"].peers == ["q"];
  }

  /** `k` is taken out of the group that the rule names, and sees `q` as before; a restart empties its map. */
  lemma TakenOutStillSees()
    ensures var s, op := Restore(map["a" := BothWaysAccount()], ["a"]), GroupDeletePeerOp("a", "g", "k");
      && s.WellFormed() && Enabled(s, op) && StillSees(s, Step(s, op))
  {
    hide RestoreFrom, BothWaysAccount, Account.WellFormed, EntriesExact, StillSees, Step;
    BothWaysFacts();
    RestoredAlone(BothWaysAccount());
    TakingOutK(Restore(map["a" := BothWaysAccount()], ["a"]));
  }

  ghost predicate StillSees(s: StoreState, t: StoreState) {
    && s.accounts.Keys == {"a"} == t.accounts.Keys && "g" in t.accounts["a"].groups
    && t.accounts["a"].groups["g"].peers == []
    && "q" in NetworkMapKeys(s, "a", "k") && "q" in NetworkMapKeys(t, "a", "k")
    && NetworkMapKeys(Restore(t.accounts, ["a"]), "a", "k") == {}
  }

  lemma TakingOutK(s: StoreState)
    requires AloneDistinct(s) && s.accounts == map["a" := BothWaysAccount()] && forall k :: EntriesExact(s, k)
    ensures StillSees(s, Step(s, GroupDeletePeerOp("a", "g", "k")))
  {
    hide BothWaysAccount, TakenOutAccount, StoreState.WellFormed, EntriesExact, NetworkMapKeys, RuleIndexesExact, Apply;
    hide GroupDeletePeer, RestoreFrom, RuleIdsDistinct;
    SeesBoth(s);
    ExactIsEveryEntry(s);
    ExactCovers(s);
    TakenOutSeesTheSame(s, "a", "g", "k");
    var t := Apply(s, GroupDeletePeer(s, "a", "g", "k").change);
    TakesOutK(s);
    TakenOutFacts();
    NamesKNoMore(t);
    RebuiltMap(t, "a", "k", ["a"]);
    hide NamedOnBothSides;
  }

  lemma SeesBoth(s: StoreState)
    requires AloneDistinct(s) && s.accounts == map["a" := BothWaysAccount()] && EntriesExact(s, "k")
    ensures "q" in NetworkMapKeys(s, "a", "k")
  {
    hide BothWaysAccount, StoreState.WellFormed, EntriesExact, NetworkMapKeys, MembersOf, RuleIdsDistinct;
    hide Account.WellFormed;
    var a := s.accounts["a"];
    BothWaysFacts();
    SeesByRules(s, "a", "k", "q");
    MapInAnyStore(s, "a", "k");
    forall src ensures Enters(s.accounts, s.accounts.Keys, src, "k", "x") { NamedByOwnRule(a, src, "k", "x"); }
    assert Enters(s.accounts, s.accounts.Keys, true, "k", "x") && Enters(s.accounts, s.accounts.Keys, false, "k", "x");
    assert Linked(a, "k", "q");
  }

  lemma TakesOutK(s: StoreState)
    requires s.WellFormed() && s.accounts == map["a" := BothWaysAccount()]
    ensures var t := Apply(s, GroupDeletePeer(s, "a", "g", "k").change);
      t.WellFormed() && t.accounts == map["a" := TakenOutAccount()]
  {
    hide StoreState.WellFormed, BothWaysAccount, TakenOutAccount, GroupDeletePeer, Apply, RemoveFirst;
    HoldsKInGroup();
    TakenOutStored(s, "a", "g", "k");
  }

  lemma HoldsKInGroup()
    ensures var a := BothWaysAccount();
      && "g" in a.groups && "k" in a.groups["g"].peers
      && TakenOutAccount() == TakenOut(a, "g", "k")
  {
    assert BothWaysAccount().groups["g"].peers == ["k"] && ["k"][1..] == [];
  }

  lemma NamesKNoMore(t: StoreState)
    requires t.accounts == map["a" := TakenOutAccount()]
    ensures !NamedOnBothSides(t, "k")
  {
    hide TakenOutAccount, MembersOf;
    TakenOutFacts();
    var b := t.accounts["a"];
    assert RulesNaming(b, b.rules.Keys, true, "k") == {};
  }

  // ----- a rule id in two accounts -----

  /** The rule `r` of account `b` names `q` as a source, which the rule `r` of account `a` does not. */
  function SharedIdAccounts(): map<string, Account> {
    var a := OneWayAccount();
    var z := a.peers["k"].(key := "z", name := "z", ip := 0x6440_0004);
    map["a" := a.(peers := a.peers["z" := z], groups := a.groups["h" := Group("h", "other", ["q", "z"])]),
        "b" := a.(id := "b", peers := map[], groups := map["g" := Group("g", "All", ["q"])],
                  rules := map["r" := Rule("r", "shared id", ["g"], [], FLOW_BIDIRECT)])]
  }

  /** The map of `q` shows `z`, though no rule of the account links the two. */
  lemma SharedIdShowsUnlinkedPeer()
    ensures var m := SharedIdAccounts(); var s := Restore(m, ["a", "b"]);
      && s.WellFormed() && "a" in m && "z" in NetworkMapKeys(s, "a", "q") && "z" !in Visible(m["a"], "q")
  {
    hide SharedIdAccounts, RestoreFrom, RuleIndexesExact, EntryExact, MembersOf, Account.WellFormed, Enters, Visible;
    hide NetworkMapKeys;
    var m := SharedIdAccounts();
    SharedIdWellFormed();
    SharedIdNotLinked();
    var s := Restore(m, ["a", "b"]);
    RestoreIsExact(EMPTY.(accounts := m), ["a", "b"]);
    SharedIdMembers();
    SharedIdEnters();
    ExactIsEveryEntry(s);
    NetworkMapExactly(s, "a", "q");
    assert "q" in Idx(s, true) && "q" in Idx(s, false);
    assert "z" in MembersOf(m["a"], FarGroups(m["a"], "r", true));
    assert ReachedByBorrowing(s, "a", "q", "z");
  }

  lemma SharedIdWellFormed()
    ensures var m := SharedIdAccounts();
      && m.Keys == {"a", "b"} && m["a"].id == "a" && m["b"].id == "b" && m["a"].WellFormed() && m["b"].WellFormed()
      && IsListing(["a", "b"], m.Keys)
  {
    hide Account.WellFormed;
    assert "a"[0] != "b"[0];
    FirstSharerWellFormed();
    SecondSharerWellFormed();
  }

  lemma FirstSharerWellFormed()
    ensures SharedIdAccounts()["a"].WellFormed()
  {
    hide Upper;
    assert "a"[0] != "b"[0];
    var was, a := OneWayAccount(), SharedIdAccounts()["a"];
    assert a.groups.Keys == was.groups.Keys == {"g", "h"} && a.groups["g"].id == "g" && a.groups["h"].id == "h";
    OneWayWellFormed();
  }

  lemma SecondSharerWellFormed()
    ensures SharedIdAccounts()["b"].WellFormed()
  {
    hide Upper;
    var b := SharedIdAccounts()["b"];
    assert b.groups["g"].id == "g" && b.rules["r"].id == "r";
  }

  lemma SharedIdMembers()
    ensures var a := SharedIdAccounts()["a"];
      && a.rules.Keys == {"r"} && a.rules["r"].flow == FLOW_BIDIRECT && "z" in a.peers && "z" != "q"
      && MembersOf(a, a.rules["r"].source) == {"k"} && MembersOf(a, a.rules["r"].destination) == {"q", "z"}
      && "q" != "k"
  {
    var a := SharedIdAccounts()["a"];
    assert "a"[0] != "b"[0] && "k"[0] != "q"[0] && "z"[0] != "k"[0] && "z"[0] != "q"[0] && "g"[0] != "h"[0];
    assert a.groups["g"].peers == ["k"] && a.groups["h"].peers == ["q", "z"];
    assert "k" in a.groups["g"].peers && "q" in a.groups["h"].peers && "z" in a.groups["h"].peers;
    assert "g" in ["g"] && "h" in ["h"];
  }

  lemma SharedIdNotLinked()
    ensures "z" !in Visible(SharedIdAccounts()["a"], "q")
  {
    hide SharedIdAccounts, MembersOf;
    SharedIdMembers();
  }

  lemma SharedIdEnters()
    ensures var m := SharedIdAccounts();
      && Enters(m, m.Keys - {"a"}, true, "q", "r") && Enters(m, m.Keys, true, "q", "r")
      && Enters(m, m.Keys, false, "q", "r")
  {
    hide MembersOf, SharedIdAccounts;
    var m := SharedIdAccounts();
    SharedIdWellFormed();
    SharedIdMembers();
    SharedIdSource();
    NamedByOwnRule(m["a"], false, "q", "r");
    NamedByOwnRule(m["b"], true, "q", "r");
  }

  lemma SharedIdSource()
    ensures var b := SharedIdAccounts()["b"];
      "r" in b.rules && "q" in MembersOf(b, Side(b.rules["r"], true)) && "a" != "b"
  {
    var b := SharedIdAccounts()["b"];
    assert "a"[0] != "b"[0];
    assert b.groups["g"].peers == ["q"] && "q" in b.groups["g"].peers && "g" in b.rules["r"].source;
  }
}
