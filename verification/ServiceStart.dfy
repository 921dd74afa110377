/** A start of the service, management/server/{file_store,account}.go: restore and then BuildManager over the
    accounts read back. */
module ServiceStart {
  import opened Model
  import opened StoreSpec
  import ManagerSpec
  import opened Operations
  import opened IndexAgreement
  import opened FileStore
  import opened AccountRecords
  import opened AccountManager

  /** `BuildManager` over a store that has just been read. */
  method BuildManager(store: Store)
    returns (manager: Manager, ghost saves: seq<string>, ghost picks: map<string, AllPick>)
    requires store.Valid() && store.State().WellFormed()
    modifies store, store.accounts.Values
    ensures fresh(manager) && manager.store == store && manager.Valid() && store.accounts == old(store.accounts)
    ensures IsListing(saves, old(store.State()).accounts.Keys) && PicksFor(old(store.State()), saves, picks)
    ensures manager.State() == Operations.BuildManager(old(store.State()), saves, picks)
  {
    hide Account.WellFormed, StoreState.WellFormed, BuildOne, IsListing, Views, Built, PicksFor;
    hide Operations.BuildManager;
    manager := new Manager(store);
    ghost var s := store.State();
    var ids := ListKeys(store.accounts);
    SameKeys(store.accounts);
    ListedOnce(ids, store.accounts.Keys);
    saves, picks := ids, map[];
    BuiltNothing(s);
    for i := 0 to |ids|
      invariant manager.Valid() && store.accounts == old(store.accounts)
      invariant Built(s, ids[..i], picks, manager.State())
    {
      ghost var t := manager.State();
      SameKeys(store.accounts);
      ghost var p := manager.BuildAccount(ids[i]);
      BuiltOneMore(s, ids[..i], picks, t, ids[i], p);
      assert ids[..i + 1] == ids[..i] + [ids[i]];
      picks := picks[ids[i] := p];
    }
    assert ids[..|ids|] == ids;
    BuiltAll(s, ids, picks, manager.State());
  }

  /** A choice for each of the accounts visited, with the account's peers in some order. */
  ghost predicate PicksFor(s: StoreState, saves: seq<string>, picks: map<string, AllPick>) {
    && (forall id :: id in saves ==> id in s.accounts)
    && picks.Keys == Members(saves)
    && forall id :: id in picks ==> IsListing(picks[id].peers, s.accounts[id].peers.Keys)
  }

  /** The loop of BuildManager has come from `s` to `t` by way of the accounts `done`. */
  ghost predicate Built(s: StoreState, done: seq<string>, picks: map<string, AllPick>, t: StoreState) {
    && s.WellFormed() && PicksFor(s, done, picks) && t == Operations.BuildManager(s, done, picks)
    && forall id :: id in s.accounts && id !in done ==> id in t.accounts && t.accounts[id] == s.accounts[id]
  }

  lemma BuiltNothing(s: StoreState)
    requires s.WellFormed()
    ensures Built(s, [], map[], s)
  {
  }

  lemma BuiltOneMore(s: StoreState, done: seq<string>, picks: map<string, AllPick>, t: StoreState, id: string,
                     p: AllPick)
    requires Built(s, done, picks, t) && id in s.accounts && id !in done
    requires id in t.accounts && t.accounts[id].id == id && IsListing(p.peers, t.accounts[id].peers.Keys)
    ensures Built(s, done + [id], picks[id := p], BuildOne(t, id, p))
  {
    hide StoreState.WellFormed, BuildOne, IsListing, PicksFor, Operations.BuildManager, ManagerSpec.AddAllGroup;
    hide Members;
    PicksForIn(s, done, picks);
    BuildOneMore(s, done, picks, id, p);
    PicksForOneMore(s, done, picks, id, p);
    var all := done + [id];
    assert forall x :: x in all <==> x in done || x == id;
  }

  lemma PicksForIn(s: StoreState, done: seq<string>, picks: map<string, AllPick>)
    requires PicksFor(s, done, picks)
    ensures forall x :: x in done ==> x in s.accounts && x in picks
  {
  }

  lemma PicksForOneMore(s: StoreState, done: seq<string>, picks: map<string, AllPick>, id: string, p: AllPick)
    requires PicksFor(s, done, picks) && id in s.accounts && IsListing(p.peers, s.accounts[id].peers.Keys)
    ensures PicksFor(s, done + [id], picks[id := p])
  {
    hide IsListing;
    var all := done + [id];
    assert forall x :: x in all <==> x in done || x == id;
  }

  lemma BuiltAll(s: StoreState, done: seq<string>, picks: map<string, AllPick>, t: StoreState)
    requires Built(s, done, picks, t)
    ensures PicksFor(s, done, picks) && t == Operations.BuildManager(s, done, picks)
  {
  }

  /** A start of the service on the accounts read from the file: restore, then BuildManager. */
  method Start(records: map<string, Record>)
    returns (manager: Manager, ghost order: seq<string>, ghost saves: seq<string>, ghost picks: map<string, AllPick>)
    requires forall id :: id in records ==> records[id].id == id && records[id].View().WellFormed()
    modifies records.Values
    ensures fresh(manager) && manager.Valid() && manager.store.accounts == records
    ensures var s := EMPTY.(accounts := old(Views(records)));
      RestartPicks(s, order, saves, picks) && manager.State() == Restart(s, order, saves, picks)
  {
    hide Account.WellFormed, Restore, IsListing, Operations.BuildManager, PicksFor;
    var store: Store;
    store, order := RestoreStore(records);
    ghost var restored := store.State();
    SameKeys(records);
    manager, saves, picks := BuildManager(store);
    PicksForAll(restored, saves, picks);
  }

  lemma PicksForAll(s: StoreState, saves: seq<string>, picks: map<string, AllPick>)
    requires IsListing(saves, s.accounts.Keys)
    requires PicksFor(s, saves, picks)
    ensures picks.Keys == s.accounts.Keys
    ensures forall id :: id in picks ==> IsListing(picks[id].peers, s.accounts[id].peers.Keys)
  {
    ListedOnce(saves, s.accounts.Keys);
  }

  lemma {:induction false} BuildOneMore(s: StoreState, saves: seq<string>, picks: map<string, AllPick>, id: string,
                                        p: AllPick)
    requires s.WellFormed() && id in s.accounts && id !in saves
    requires forall x :: x in saves ==> x in s.accounts && x in picks
    ensures var t := Operations.BuildManager(s, saves, picks);
      id in t.accounts && t.accounts[id].id == id
      && Operations.BuildManager(s, saves + [id], picks[id := p]) == BuildOne(t, id, p)
    decreases saves
  {
    hide Account.WellFormed, BuildOne;
    var all := saves + [id];
    if saves == [] {
      assert all[1..] == [];
    } else {
      assert all[0] == saves[0] && all[1..] == saves[1..] + [id];
      BuildOneWellFormed(s, saves[0], picks[saves[0]]);
      BuildOneMore(BuildOne(s, saves[0], picks[saves[0]]), saves[1..], picks, id, p);
    }
  }
}
