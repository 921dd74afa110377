/** Cases in which a message of management/server/{peer,grpcserver}.go shows its recipient more, or something else,
    than the recipient's own map does. */
module PushCases {
  import opened IpAllocation
  import opened Model
  import opened StoreSpec
  import opened ManagerSpec
  import opened Operations
  import opened OperationShapes
  import opened IndexAgreement
  import opened NetworkMap
  import opened GroupCleanup
  import opened LiveMaps
  import opened AccessListCases
  import opened SyncProtocol
  import Engine

  lemma MembersOfOne(a: Account, g: string, p: string)
    requires g in a.groups && a.groups[g].peers == [p]
    ensures MembersOf(a, [g]) == {p}
  {
    assert g in [g] && p in a.groups[g].peers;
  }

  // ----- a deletion -----

  /** Two peers, a rule from the group of the first to the group of the second, and a peer in no group. */
  function WithBystander(): Account {
    var a := OneWayAccount();
    a.(peers := a.peers["z" := a.peers["k"].(key := "z", name := "z", ip := 0x6440_0004)])
  }

  lemma BystanderAccount()
    ensures var a := WithBystander();
      && a.WellFormed() && a.id == "a" && a.peers.Keys == {"k", "q", "z"} && "z" in a.peers
      && a.groups == OneWayAccount().groups && a.rules == OneWayAccount().rules && IsListing(["h", "g"], a.groups.Keys)
  {
    hide Upper;
    OneWayWellFormed();
    assert "g"[0] != "h"[0] && "z"[0] != "k"[0] && "z"[0] != "q"[0] && "k"[0] != "q"[0];
  }

  lemma BystanderRemoved()
    ensures IsListing(["h", "g"], WithBystander().groups.Keys)
    ensures var b := Removed(WithBystander(), "z", ["h", "g"]);
      && b.peers.Keys == {"k", "q"} && b.rules == OneWayAccount().rules && MembersOf(b, ["h"]) == {"q"} && "k" != "q"
  {
    hide CleanGroups, Without;
    var a := WithBystander();
    BystanderAccount();
    assert a.groups["g"].peers == ["k"] && a.groups["h"].peers == ["q"];
    assert "z"[0] != "k"[0] && "z"[0] != "q"[0] && "g"[0] != "h"[0] && "k"[0] != "q"[0];
    CleanTwoGroups(a.groups, "h", "g", "z");
    NotThere("q", "z");
    var b := Removed(a, "z", ["h", "g"]);
    assert b.groups["h"].peers == ["q"];
    MembersOfOne(b, "h", "q");
    hide MembersOf;
  }

  lemma NotThere(p: string, key: string)
    requires p != key
    ensures Without([p], key) == [p]
  {
    assert [p][1..] == [];
  }

  /** After `z` is deleted, `k` is pushed `q`, which its own map does not show. */
  lemma DeletionPushExceedsOwnView()
    ensures var s := Restore(map["a" := WithBystander()], ["a"]);
      && s.WellFormed() && Enabled(s, DeletePeerOp("a", "z", ["h", "g"])) && "z" in s.accounts["a"].peers
      && var t := Step(s, DeletePeerOp("a", "z", ["h", "g"]));
         "a" in t.accounts && DeletionKeys(t, "a", "k") == {"q"} && NetworkMapKeys(t, "a", "k") == {}
  {
    hide RestoreFrom, WithBystander, Account.WellFormed, EntriesExact, NetworkMapKeys, DeletionKeys, Step, Enabled;
    BystanderAccount();
    RestoredAlone(WithBystander());
    BystanderDeleted(Restore(map["a" := WithBystander()], ["a"]));
  }

  lemma BystanderDeleted(s: StoreState)
    requires s.WellFormed() && s.accounts == map["a" := WithBystander()] && EntriesExact(s, "k")
    ensures Enabled(s, DeletePeerOp("a", "z", ["h", "g"])) && "z" in s.accounts["a"].peers
    ensures var t := Step(s, DeletePeerOp("a", "z", ["h", "g"]));
      "a" in t.accounts && DeletionKeys(t, "a", "k") == {"q"} && NetworkMapKeys(t, "a", "k") == {}
  {
    hide WithBystander, StoreState.WellFormed, EntriesExact, Removed, NetworkMapKeys, MembersOf, DeletePeer, Apply;
    var a, order := WithBystander(), ["h", "g"];
    BystanderAccount();
    BystanderRemoved();
    RemovalStored(s, "a", "z", order);
    DeletionKeepsEntries(s, "a", "z", order, "k");
    NoSourceNoMap(Apply(s, DeletePeer(s, "a", "z", order).change), Removed(a, "z", order));
  }

  lemma NoSourceNoMap(t: StoreState, b: Account)
    requires t.accounts == map["a" := b] && b.rules == OneWayAccount().rules && EntriesExact(t, "k")
    requires MembersOf(b, ["h"]) == {"q"} && "k" != "q"
    ensures NetworkMapKeys(t, "a", "k") == {}
  {
    hide MembersOf;
    EntriesAreNames(t, false, "k");
    assert RulesNaming(b, b.rules.Keys, false, "k") == {};
    NoEntryNoMap(t, "a", "k");
  }

  // ----- a registration -----

  /** Peers `q` and `z` in groups of their own, an empty group All, a user who may add peers; the first two groups
      are linked both ways, and All one way to the group of `z`. */
  function MixedAccount(): Account {
    var k := OneWayAccount().peers["k"];
    OneWayAccount().(peers := map["q" := k.(key := "q", ip := 0x6440_0003), "z" := k.(key := "z", ip := 0x6440_0004)],
                     users := map["u" := User("u", Admin)],
                     groups := map["g" := Group("g", ALL_GROUP, []), "h" := Group("h", "other", ["q"]),
                                   "i" := Group("i", "third", ["z"])],
                     rules := map["x" := BOTH_WAYS, "y" := Rule("y", "one way", ["g"], ["i"], FLOW_BIDIRECT)])
  }

  lemma MixedNamesGroups()
    ensures MixedAccount().RulesNameGroups()
  {
    var a := MixedAccount();
    assert a.groups.Keys == {"g", "h", "i"};
    assert a.rules["y"].source == ["g"] && a.rules["y"].destination == ["i"] && "x"[0] != "y"[0];
  }

  lemma MixedIsWellFormed()
    ensures MixedAccount().WellFormed()
  {
    hide Upper, Account.RulesNameGroups;
    var a := MixedAccount();
    MixedNamesGroups();
    assert "q"[0] != "z"[0] && "g"[0] != "h"[0] && "g"[0] != "i"[0] && "h"[0] != "i"[0] && "x"[0] != "y"[0];
    assert a.groups["g"].id == "g" && a.groups["h"].id == "h" && a.groups["i"].id == "i";
  }

  const REGISTER_K :=
    AddPeerOp("", "u", PeerRequest("k", "k", Meta("", "", "", "", "", "", "", "")), 0, 0x6440_0011, "g")

  /** `b` is that account with `k` registered. */
  ghost predicate WithK(b: Account) {
    && b.id == "a" && b.peers.Keys == {"k", "q", "z"} && b.rules == MixedAccount().rules
    && b.groups.Keys == {"g", "h", "i"}
    && b.groups["g"].peers == ["k"] && b.groups["h"].peers == ["q"] && b.groups["i"].peers == ["z"]
  }

  lemma MembersWithK(b: Account)
    requires WithK(b)
    ensures MembersOf(b, ["g", "h"]) == {"k", "q"} && MembersOf(b, ["g"]) == {"k"} && MembersOf(b, ["i"]) == {"z"}
    ensures "k" != "q" && "k" != "z" && "q" != "z"
  {
    assert "k"[0] != "q"[0] && "k"[0] != "z"[0] && "q"[0] != "z"[0];
    assert "g" in ["g", "h"] && "h" in ["g", "h"] && "k" in b.groups["g"].peers && "q" in b.groups["h"].peers;
    MembersOfOne(b, "g", "k");
    MembersOfOne(b, "i", "z");
  }

  lemma LinksWithK(b: Account)
    requires WithK(b)
    ensures Linked(b, "k", "q") && Linked(b, "k", "z") && Linked(b, "q", "k") && !Linked(b, "q", "z")
    ensures forall p, src :: p in {"k", "q"} ==> p in MembersOf(b, Side(b.rules["x"], src))
  {
    hide MembersOf;
    MembersWithK(b);
    assert "x"[0] != "y"[0];
    assert b.rules["x"] == BOTH_WAYS && b.rules["y"].source == ["g"] && b.rules["y"].destination == ["i"];
    assert LinkedBy(b, "x", "k", "q") && LinkedBy(b, "x", "q", "k") && LinkedBy(b, "y", "k", "z");
  }

  /** The maps of `k` and `q` in such a store, for exact entries. */
  lemma ViewsWithK(t: StoreState, b: Account)
    requires AloneDistinct(t) && t.accounts == map["a" := b] && WithK(b) && EntriesExact(t, "k") && EntriesExact(t, "q")
    ensures NetworkMapKeys(t, "a", "k") == {"q", "z"} && NetworkMapKeys(t, "a", "q") == {"k"}
  {
    hide MembersOf, WithK, EntryExact, NetworkMapKeys, Reaches, Linked, Account.WellFormed;
    LinksWithK(b);
    KeysWithK(b);
    assert t.accounts["a"] == b;
    forall p, src | p in {"k", "q"} ensures Enters(t.accounts, t.accounts.Keys, src, p, "x") {
      NamedByOwnRule(b, src, p, "x");
    }
    forall p, q | p in {"k", "q"} ensures SeesNow(t, "a", p, q) <==> Linked(b, p, q) {
      SeesByRules(t, "a", p, q);
      assert Enters(t.accounts, t.accounts.Keys, true, p, "x") && Enters(t.accounts, t.accounts.Keys, false, p, "x");
    }
    MapInAnyStore(t, "a", "k");
    MapInAnyStore(t, "a", "q");
  }

  lemma KeysWithK(b: Account)
    requires WithK(b)
    ensures b.peers.Keys == {"k", "q", "z"} && "x" in b.rules && "k" != "q" && "k" != "z" && "q" != "z"
  {
    assert "k"[0] != "q"[0] && "k"[0] != "z"[0] && "q"[0] != "z"[0];
  }

  lemma MixedAddresses()
    ensures var a := MixedAccount();
      && a.network.net == NewNetwork(0) && a.TakenIps() == {0x6440_0003, 0x6440_0004} && "g" in a.AllGroups()
      && a.setupKeys == map[] && a.id == "a" && a.users.Keys == {"u"}
  {
    var a := MixedAccount();
    assert "q"[0] != "z"[0] && a.peers["q"].ip == 0x6440_0003 && a.peers["z"].ip == 0x6440_0004;
    assert "g"[0] != "h"[0] && "g"[0] != "i"[0];
    assert "q" in a.peers && "z" in a.peers;
  }

  lemma NoKeyGiven()
    ensures Upper("") == ""
  {
  }

  lemma KIsAdded(s: StoreState)
    requires s.accounts == map["a" := MixedAccount()] && s.userIdx == map["u" := "a"]
    ensures AddsTo(s, REGISTER_K, "a")
  {
    hide MixedAccount, FreeIps, Upper, Account.TakenIps, Account.AllGroups;
    NoKeyGiven();
    MixedAddresses();
    FreeInNewNetwork(MixedAccount().TakenIps());
  }

  lemma MixedWithK(s: StoreState, b: Account)
    requires s.accounts == map["a" := MixedAccount()] && Adds(s, REGISTER_K, b)
    ensures WithK(b)
  {
    hide FreeIps, Upper, Account.TakenIps, LocateForAdd;
    assert "g"[0] != "h"[0] && "g"[0] != "i"[0] && "h"[0] != "i"[0];
  }

  lemma KRegistered(s: StoreState)
    requires AloneDistinct(s) && s.accounts == map["a" := MixedAccount()] && s.userIdx == map["u" := "a"]
    requires EntriesExact(s, "k") && EntriesExact(s, "q")
    ensures AddsTo(s, REGISTER_K, "a")
    ensures var t := Step(s, REGISTER_K);
      "a" in t.accounts && NetworkMapKeys(t, "a", "k") == {"q", "z"} && NetworkMapKeys(t, "a", "q") == {"k"}
  {
    hide MixedAccount, EntriesExact, NetworkMapKeys, StoreState.WellFormed, Enabled, ChangeOf, Save, AddPeer, Adds;
    hide WithK;
    hide RuleIdsDistinct;
    KIsAdded(s);
    AddPeerShape(s, REGISTER_K);
    var b := ChangeOf(s, REGISTER_K).a;
    MixedWithK(s, b);
    ChangesWellFormed(s, REGISTER_K);
    SaveFields(s, b);
    SavedWellFormed(s, b);
    AdditionKeepsDistinctIds(s, REGISTER_K, "a");
    AdditionKeepsEntries(s, REGISTER_K, "a", "k");
    AdditionKeepsEntries(s, REGISTER_K, "a", "q");
    IdWithK(b);
    ViewsWithK(Step(s, REGISTER_K), b);
  }

  lemma IdWithK(b: Account)
    requires WithK(b)
    ensures b.id == "a"
  {
  }

  lemma RestoredUser(a: Account, u: string)
    requires a.WellFormed() && a.users.Keys == {u}
    ensures Restore(map["a" := a], ["a"]).userIdx == map[u := "a"]
  {
    hide Account.WellFormed, IndexRules, PeerNames, SetupKeyNames;
    NamesOfWellFormed(a);
    var s0 := EMPTY.(accounts := map["a" := a]);
    assert ["a"][1..] == [];
    assert Restore(map["a" := a], ["a"]) == IndexAccount(s0, "a", a, a.domain != "" && a.PrivatePrimary());
  }

  /** When `k` is registered, `q` is pushed `z` besides `k`, though its own map shows `k` alone. */
  lemma RegistrationPushExceedsOwnView()
    ensures var s := Restore(map["a" := MixedAccount()], ["a"]);
      && s.WellFormed() && AddsTo(s, REGISTER_K, "a")
      && var t := Step(s, REGISTER_K);
         && "a" in t.accounts && "q" in NetworkMapKeys(t, "a", "k")
         && FanOutKeys(t, "a", "k", "q") == {"k", "z"} && NetworkMapKeys(t, "a", "q") == {"k"}
  {
    hide MixedAccount, RestoreFrom, Account.WellFormed, EntriesExact, NetworkMapKeys, Step, Enabled, AddPeer;
    MixedIsWellFormed();
    MixedAddresses();
    RestoredAlone(MixedAccount());
    RestoredUser(MixedAccount(), "u");
    KRegistered(Restore(map["a" := MixedAccount()], ["a"]));
    assert "q"[0] != "z"[0] && "k"[0] != "q"[0];
  }

  // ----- an edit -----

  /** Maps of one serial can carry different peers when a rule was saved in between. */
  lemma EditsBreakOneServer(before: Snapshot, after: Snapshot, parses: string -> bool)
    requires var s, op := Restore(map["a" := OneWayAccount()], ["a"]), SaveRuleOp("a", BOTH_WAYS);
      && s.WellFormed() && Enabled(s, op) && "a" in Step(s, op).accounts
      && Carries(before, "k", s.accounts["a"].network.serial, NetworkMapKeys(s, "a", "k"))
      && Carries(after, "k", Step(s, op).accounts["a"].network.serial, NetworkMapKeys(Step(s, op), "a", "k"))
    ensures before.map_.serial == after.map_.serial && !Engine.OneServer([before.map_, after.map_], parses)
  {
    hide OneWayAccount, RestoreFrom, NetworkMapKeys, Enabled, Step;
    EditChangesMapAtSameSerial();
    var ms := [before.map_, after.map_];
    assert "q" in Engine.Keys(ms[1].peers) && "q" !in Engine.Keys(ms[0].peers);
  }
}
