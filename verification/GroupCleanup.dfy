/** What the group clean-up of `Store.DeletePeer` (management/server/file_store.go) makes of the groups. */
module GroupCleanup {
  import opened Model
  import opened ManagerSpec

  ghost predicate Visits(groups: map<string, Group>, order: seq<string>) {
    && (forall g :: g in order ==> g in groups)
    && (forall i, j :: 0 <= i < j < |order| ==> order[i] != order[j])
  }

  /** What the groups keep without `key`, one list after the other. */
  function Survivors(groups: map<string, Group>, order: seq<string>, key: string): seq<string>
    requires forall g :: g in order ==> g in groups
  {
    if order == [] then [] else Without(groups[order[0]].peers, key) + Survivors(groups, order[1..], key)
  }

  lemma {:induction false} SurvivorsElsewhere(groups: map<string, Group>, next: map<string, Group>, order: seq<string>,
                                              key: string)
    requires forall g :: g in order ==> g in groups && g in next && next[g] == groups[g]
    ensures Survivors(next, order, key) == Survivors(groups, order, key)
  {
    if order != [] { SurvivorsElsewhere(groups, next, order[1..], key); }
  }

  lemma {:induction false} SurvivorsOneMore(groups: map<string, Group>, order: seq<string>, i: nat, key: string)
    requires i < |order| && forall g :: g in order ==> g in groups
    ensures Survivors(groups, order[..i + 1], key) ==
      Survivors(groups, order[..i], key) + Without(groups[order[i]].peers, key)
  {
    if i == 0 {
      assert order[..1] == [order[0]] && order[..1][1..] == [];
    } else {
      assert order[..i + 1][1..] == order[1..][..i] && order[..i][1..] == order[1..][..i - 1];
      SurvivorsOneMore(groups, order[1..], i - 1, key);
    }
  }

  lemma SurvivorsAfterFirst(groups: map<string, Group>, next: map<string, Group>, order: seq<string>, kept: seq<string>,
                            key: string, i: nat)
    requires i < |order| && forall g :: g in order ==> g in groups
    requires forall g :: g in order[1..] ==> g in next && next[g] == groups[g]
    ensures kept + Survivors(groups, order[..i + 1], key) ==
      kept + Without(groups[order[0]].peers, key) + Survivors(next, order[1..][..i], key)
  {
    hide Without;
    assert order[..i + 1][0] == order[0] && order[..i + 1][1..] == order[1..][..i];
    SurvivorsElsewhere(groups, next, order[1..][..i], key);
  }

  /** The i-th group visited ends with the survivors of the first i + 1 groups; the others stay. */
  lemma {:induction false} CleanedLists(groups: map<string, Group>, order: seq<string>, kept: seq<string>, key: string)
    requires Visits(groups, order)
    ensures var r := CleanGroups(groups, order, kept, key);
      && r.Keys == groups.Keys
      && (forall g :: g in groups && g !in order ==> r[g] == groups[g])
      && (forall i :: 0 <= i < |order| ==>
            r[order[i]] == groups[order[i]].(peers := kept + Survivors(groups, order[..i + 1], key)))
    decreases order
  {
    hide Without;
    if order != [] {
      var g, rest := order[0], order[1..];
      var now := kept + Without(groups[g].peers, key);
      var next := groups[g := groups[g].(peers := now)];
      CleanedLists(next, rest, now, key);
      hide Survivors;
      var r := CleanGroups(groups, order, kept, key);
      forall i | 0 <= i < |order|
        ensures r[order[i]] == groups[order[i]].(peers := kept + Survivors(groups, order[..i + 1], key))
      {
        SurvivorsAfterFirst(groups, next, order, kept, key, i);
        if i == 0 { NoneVisited(next, rest, now, key); } else { assert order[i] == rest[i - 1]; }
      }
    }
  }

  lemma NoneVisited(groups: map<string, Group>, order: seq<string>, kept: seq<string>, key: string)
    requires forall g :: g in order ==> g in groups
    ensures kept + Survivors(groups, order[..0], key) == kept
  {
  }

  lemma {:induction false} SurvivorsAre(groups: map<string, Group>, order: seq<string>, key: string, p: string)
    requires forall g :: g in order ==> g in groups
    ensures p in Survivors(groups, order, key) <==> p != key && exists g :: g in order && p in groups[g].peers
  {
    if order != [] { SurvivorsAre(groups, order[1..], key, p); }
  }

  /** Exactly who is in the i-th group visited: everyone but the deleted key who was in one of the first
      i + 1 groups. So the key is gone everywhere and no one else leaves a group, but peers enter groups. */
  lemma CleanedMembers(groups: map<string, Group>, order: seq<string>, key: string, i: nat, p: string)
    requires Visits(groups, order) && i < |order|
    ensures order[i] in CleanGroups(groups, order, [], key)
    ensures p in CleanGroups(groups, order, [], key)[order[i]].peers <==>
      p != key && exists j :: 0 <= j <= i && p in groups[order[j]].peers
  {
    CleanedLists(groups, order, [], key);
    SurvivorsAre(groups, order[..i + 1], key, p);
    assert forall j :: 0 <= j <= i ==> order[..i + 1][j] == order[j];
  }

  lemma {:induction false} NoSurvivors(groups: map<string, Group>, order: seq<string>, n: nat, key: string)
    requires n <= |order| && forall g :: g in order ==> g in groups
    ensures Survivors(groups, order[..n], key) == [] <==>
      forall i :: 0 <= i < n ==> Without(groups[order[i]].peers, key) == []
  {
    if n > 0 {
      NoSurvivors(groups, order, n - 1, key);
      SurvivorsOneMore(groups, order, n - 1, key);
    }
  }

  lemma FilteredExactlyAt(groups: map<string, Group>, order: seq<string>, key: string, i: nat)
    requires Visits(groups, order) && i < |order|
    ensures order[i] in CleanGroups(groups, order, [], key)
    ensures CleanGroups(groups, order, [], key)[order[i]].peers == Without(groups[order[i]].peers, key) <==>
      forall j :: 0 <= j < i ==> Without(groups[order[j]].peers, key) == []
  {
    hide CleanGroups, Survivors, Without;
    CleanedLists(groups, order, [], key);
    SurvivorsOneMore(groups, order, i, key);
    NoSurvivors(groups, order, i, key);
    var before, own := Survivors(groups, order[..i], key), Without(groups[order[i]].peers, key);
    assert [] + (before + own) == before + own;
    assert before + own == own <==> |before| == 0;
  }

  /** The clean-up is the filter it is meant to be exactly when no group but the last one visited holds
      another peer. */
  lemma CleanIsFilterExactly(groups: map<string, Group>, order: seq<string>, key: string)
    requires Visits(groups, order)
    ensures var r := CleanGroups(groups, order, [], key);
      && r.Keys == groups.Keys
      && ((forall g :: g in order ==> r[g].peers == Without(groups[g].peers, key))
          <==> forall i :: 0 <= i < |order| - 1 ==> Without(groups[order[i]].peers, key) == [])
  {
    hide CleanGroups, Without;
    CleanedLists(groups, order, [], key);
    forall i | 0 <= i < |order|
      ensures CleanGroups(groups, order, [], key)[order[i]].peers == Without(groups[order[i]].peers, key) <==>
        forall j :: 0 <= j < i ==> Without(groups[order[j]].peers, key) == []
    {
      FilteredExactlyAt(groups, order, key, i);
    }
    if order != [] { assert order[|order| - 1] in order; }
  }

  // ----- whatever the order -----

  /** What the clean-up is meant to make of the groups. */
  function Filtered(groups: map<string, Group>, key: string): map<string, Group> {
    map g | g in groups :: groups[g].(peers := Without(groups[g].peers, key))
  }

  predicate HoldsAnother(groups: map<string, Group>, g: string, key: string)
    requires g in groups
  {
    Without(groups[g].peers, key) != []
  }

  lemma FiltersExactly(groups: map<string, Group>, order: seq<string>, key: string)
    requires IsListing(order, groups.Keys)
    ensures CleanGroups(groups, order, [], key) == Filtered(groups, key) <==>
      forall i :: 0 <= i < |order| - 1 ==> !HoldsAnother(groups, order[i], key)
  {
    hide CleanGroups, Without, Survivors;
    CleanedLists(groups, order, [], key);
    CleanIsFilterExactly(groups, order, key);
    var r := CleanGroups(groups, order, [], key);
    forall g | g in groups ensures r[g] == groups[g].(peers := r[g].peers) {
      var i :| 0 <= i < |order| && order[i] == g;
    }
    assert r == Filtered(groups, key) <==> forall g :: g in groups ==> r[g].peers == Without(groups[g].peers, key);
  }

  /** The keys in some order. */
  lemma ListSome(keys: set<string>) returns (order: seq<string>)
    ensures IsListing(order, keys)
    decreases |keys|
  {
    if keys == {} {
      order := [];
    } else {
      var k :| k in keys;
      var rest := ListSome(keys - {k});
      order := rest + [k];
    }
  }

  lemma ListWithLast(keys: set<string>, last: string) returns (order: seq<string>)
    requires last in keys
    ensures IsListing(order, keys) && |order| > 0 && order[|order| - 1] == last
  {
    var rest := ListSome(keys - {last});
    order := rest + [last];
  }

  ghost predicate Filters(groups: map<string, Group>, order: seq<string>, key: string) {
    IsListing(order, groups.Keys) && CleanGroups(groups, order, [], key) == Filtered(groups, key)
  }

  /** The groups are filtered as intended in every order of visiting if and only if there is at most one group,
      or no group holds another peer. */
  lemma EveryOrderFiltersExactly(groups: map<string, Group>, key: string)
    ensures (forall order :: IsListing(order, groups.Keys) ==> Filters(groups, order, key)) <==>
      || (forall g, h :: g in groups && h in groups ==> g == h)
      || (forall g :: g in groups ==> !HoldsAnother(groups, g, key))
  {
    hide CleanGroups, Filtered, HoldsAnother;
    if g, h, x :| g in groups && h in groups && g != h && x in groups && HoldsAnother(groups, x, key) {
      var order := ListWithLast(groups.Keys, if x == g then h else g);
      FiltersExactly(groups, order, key);
      var i :| 0 <= i < |order| && order[i] == x;
    } else {
      forall order | IsListing(order, groups.Keys) ensures Filters(groups, order, key) {
        FiltersExactly(groups, order, key);
        if |order| > 1 { assert order[0] != order[1] && order[0] in groups && order[1] in groups; }
      }
    }
  }

  ghost predicate AtMostOneHolds(groups: map<string, Group>, key: string) {
    forall g, h :: g in groups && h in groups && HoldsAnother(groups, g, key) && HoldsAnother(groups, h, key) ==> g == h
  }

  /** And in some order if and only if at most one group holds another peer. */
  lemma SomeOrderFiltersExactly(groups: map<string, Group>, key: string)
    ensures (exists order :: Filters(groups, order, key)) <==> AtMostOneHolds(groups, key)
  {
    hide CleanGroups, Filtered, HoldsAnother;
    if order :| Filters(groups, order, key) {
      FiltersExactly(groups, order, key);
      forall g, h | g in groups && h in groups && HoldsAnother(groups, g, key) && HoldsAnother(groups, h, key)
        ensures g == h
      {
        var i :| 0 <= i < |order| && order[i] == g;
        var j :| 0 <= j < |order| && order[j] == h;
      }
    }
    if AtMostOneHolds(groups, key) {
      var order;
      if x :| x in groups && HoldsAnother(groups, x, key) {
        order := ListWithLast(groups.Keys, x);
      } else {
        order := ListSome(groups.Keys);
      }
      FiltersExactly(groups, order, key);
      assert Filters(groups, order, key);
    }
  }

  lemma ListingOfOne(order: seq<string>, g: string)
    requires IsListing(order, {g})
    ensures order == [g]
  {
    assert g in order;
    forall i | 0 <= i < |order| ensures order[i] == g { assert order[i] in order; }
    var first, last := order[0], order[|order| - 1];
    if |order| > 1 { assert false; }
  }

  /** With a single group there is no other one to hold peers. */
  lemma CleanSingleGroup(groups: map<string, Group>, g: string, order: seq<string>, key: string)
    requires groups.Keys == {g} && IsListing(order, {g})
    ensures CleanGroups(groups, order, [], key) == map[g := groups[g].(peers := Without(groups[g].peers, key))]
  {
    ListingOfOne(order, g);
    CleanedLists(groups, order, [], key);
    SurvivorsOneMore(groups, order, 0, key);
    assert [] + Without(groups[g].peers, key) == Without(groups[g].peers, key);
  }

  // ----- a case -----

  /** A group All and another group. */
  function AllAndOther(all: seq<string>, other: seq<string>): map<string, Group> {
    map["g" := Group("g", ALL_GROUP, all), "h" := Group("h", "other", other)]
  }

  lemma CleanTwoGroups(groups: map<string, Group>, g: string, h: string, key: string)
    requires g != h && g in groups && h in groups
    ensures var x, y := Without(groups[g].peers, key), Without(groups[h].peers, key);
      CleanGroups(groups, [g, h], [], key) == groups[g := groups[g].(peers := x)][h := groups[h].(peers := x + y)]
  {
    hide Without, CleanGroups;
    var order := [g, h];
    CleanedLists(groups, order, [], key);
    SurvivorsOneMore(groups, order, 0, key);
    SurvivorsOneMore(groups, order, 1, key);
    var r := CleanGroups(groups, order, [], key);
    var x, y := Without(groups[g].peers, key), Without(groups[h].peers, key);
    assert [] + ([] + x) == x && [] + (x + y) == x + y;
    assert r[order[0]].peers == x && r[order[1]].peers == x + y;
  }

  lemma ListsWithout()
    ensures Without(["x", "k"], "k") == ["x"] && Without(["y"], "k") == ["y"] && "g" != "h"
  {
    assert "g"[0] != "h"[0] && "x"[0] != "k"[0] && "y"[0] != "k"[0];
    assert ["x", "k"][1..] == ["k"] && ["k"][1..] == [] && ["y"][1..] == [];
  }

  /** Deleting `k` puts `x` into the other group, or `y` into the group All, whichever is visited later. */
  lemma CleanupSpreadsMembers()
    ensures CleanGroups(AllAndOther(["x", "k"], ["y"]), ["g", "h"], [], "k") == AllAndOther(["x"], ["x", "y"])
    ensures CleanGroups(AllAndOther(["x", "k"], ["y"]), ["h", "g"], [], "k") == AllAndOther(["y", "x"], ["y"])
  {
    hide Without, CleanGroups;
    var groups := AllAndOther(["x", "k"], ["y"]);
    ListsWithout();
    assert groups["g"].peers == ["x", "k"] && groups["h"].peers == ["y"];
    CleanTwoGroups(groups, "g", "h", "k");
    CleanTwoGroups(groups, "h", "g", "k");
    assert ["x"] + ["y"] == ["x", "y"] && ["y"] + ["x"] == ["y", "x"];
  }
}
