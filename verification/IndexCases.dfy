/** Cases in which a call that does not keep to `Operations.Disciplined` leaves a key or a user indexed to an account
    that does not hold it: management/server/{peer,account}.go. */
module IndexCases {
  import opened IpAllocation
  import opened Model
  import opened StoreSpec
  import opened ManagerSpec
  import opened Operations
  import opened IndexAgreement

  /** An account of one user, with the group All. */
  function UserAccount(id: string, user: string, peers: map<string, Peer>, members: seq<string>): Account {
    Account(id, user, "", "", false, map[], Network("n", NewNetwork(0), "", 0), peers, map[user := User(user, Admin)],
            map["g" := Group("g", ALL_GROUP, members)], map[])
  }

  function PeerK(): Peer {
    Peer("k", "", 0x6440_0002, NO_META, "k", PeerStatus(false, 0), "u")
  }

  const NO_META := Meta("", "", "", "", "", "", "", "")

  /** The peer `k` is in account `a` of user `u`; account `b` of user `v` has none. */
  function TwoAccounts(): StoreState {
    EMPTY.(accounts := map["a" := UserAccount("a", "u", map["k" := PeerK()], ["k"]),
                           "b" := UserAccount("b", "v", map[], [])],
           peerIdx := map["k" := "a"], userIdx := map["u" := "a", "v" := "b"])
  }

  lemma UserAccountWellFormed(id: string, user: string, peers: map<string, Peer>, members: seq<string>)
    requires forall k :: k in peers ==> peers[k].key == k
    ensures UserAccount(id, user, peers, members).WellFormed()
  {
    hide Upper;
  }

  lemma TwoAccountsFacts()
    ensures var s := TwoAccounts();
      && s.accounts.Keys == {"a", "b"} && "a" != "b" && "u" != "v"
      && s.accounts["a"] == UserAccount("a", "u", map["k" := PeerK()], ["k"])
      && s.accounts["b"] == UserAccount("b", "v", map[], []) && s.WellFormed()
  {
    hide Account.WellFormed;
    assert "a"[0] != "b"[0] && "u"[0] != "v"[0];
    UserAccountWellFormed("a", "u", map["k" := PeerK()], ["k"]);
    UserAccountWellFormed("b", "v", map[], []);
  }

  lemma PeersOfTwo(s: StoreState, a: Account, b: Account)
    requires s.accounts.Keys == {"a", "b"} && s.accounts["a"] == a && s.accounts["b"] == b
    ensures PeersHeld(s) == map["a" := a.peers.Keys, "b" := b.peers.Keys]
  {
    var held := PeersHeld(s);
    assert held.Keys == {"a", "b"} && held["a"] == a.peers.Keys && held["b"] == b.peers.Keys;
  }

  lemma UsersOfTwo(s: StoreState, a: Account, b: Account)
    requires s.accounts.Keys == {"a", "b"} && s.accounts["a"] == a && s.accounts["b"] == b
    ensures UsersHeld(s) == map["a" := a.users.Keys, "b" := b.users.Keys]
  {
    var held := UsersHeld(s);
    assert held.Keys == {"a", "b"} && held["a"] == a.users.Keys && held["b"] == b.users.Keys;
  }

  lemma KeysOfTwo(s: StoreState, a: Account, b: Account)
    requires s.accounts.Keys == {"a", "b"} && s.accounts["a"] == a && s.accounts["b"] == b
    ensures KeysHeld(s) == map["a" := a.setupKeys.Keys, "b" := b.setupKeys.Keys]
  {
    var held := KeysHeld(s);
    assert held.Keys == {"a", "b"} && held["a"] == a.setupKeys.Keys && held["b"] == b.setupKeys.Keys;
  }

  lemma TwoAccountsHold()
    ensures var s := TwoAccounts();
      && PeersHeld(s) == map["a" := {"k"}, "b" := {}] && UsersHeld(s) == map["a" := {"u"}, "b" := {"v"}]
      && KeysHeld(s) == map["a" := {}, "b" := {}]
  {
    hide TwoAccounts, StoreState.WellFormed, PeersHeld, UsersHeld, KeysHeld;
    TwoAccountsFacts();
    var a, b := UserAccount("a", "u", map["k" := PeerK()], ["k"]), UserAccount("b", "v", map[], []);
    assert a.peers.Keys == {"k"} && b.peers.Keys == {} && a.users.Keys == {"u"} && b.users.Keys == {"v"};
    assert a.setupKeys.Keys == {} && b.setupKeys.Keys == {};
    PeersOfTwo(TwoAccounts(), a, b);
    UsersOfTwo(TwoAccounts(), a, b);
    KeysOfTwo(TwoAccounts(), a, b);
  }

  lemma TwoAccountsAgree()
    ensures Agree(TwoAccounts())
  {
    hide StoreState.WellFormed, PeersHeld, UsersHeld, KeysHeld, UserAccount, Exact;
    TwoAccountsFacts();
    TwoAccountsHold();
    ExactOfTwo("a", "b", "k", "u", "v");
  }

  lemma ExactOfTwo(a: string, b: string, k: string, u: string, v: string)
    requires a != b && u != v
    ensures Exact(map[k := a], map[a := {k}, b := {}]) && Exact(map[u := a, v := b], map[a := {u}, b := {v}])
    ensures Exact(map[], map[a := {}, b := {}])
  {
  }

  /** User `v` registers the key of a peer of account `a`: AddPeer takes it, and `k` is in two accounts. */
  lemma AddedKeyInTwoAccounts(now: int)
    ensures var s, op := TwoAccounts(), AddPeerOp("", "v", PeerRequest("k", "k", NO_META), now, 0x6440_0011, "g");
      Agree(s) && AddsTo(s, op, "b") && !Agree(Step(s, op))
  {
    hide Agree, TwoAccounts, FreeIps, Step;
    var s, op := TwoAccounts(), AddPeerOp("", "v", PeerRequest("k", "k", NO_META), now, 0x6440_0011, "g");
    TwoAccountsAgree();
    SecondAdds(now);
    AddPeerAgreesExactly(s, op, "b");
    KeyOfFirst();
  }

  lemma KeyOfFirst()
    ensures "k" in TwoAccounts().peerIdx && TwoAccounts().peerIdx["k"] == "a" && "a" != "b"
  {
    assert "a"[0] != "b"[0];
  }

  lemma SecondFacts()
    ensures var s := TwoAccounts();
      && "v" in s.userIdx && s.userIdx["v"] == "b" && "b" in s.accounts
      && s.accounts["b"].network.net == NewNetwork(0) && s.accounts["b"].TakenIps() == {}
      && "g" in s.accounts["b"].AllGroups()
  {
    assert "a"[0] != "b"[0] && "u"[0] != "v"[0];
  }

  lemma SecondAdds(now: int)
    ensures TwoAccounts().WellFormed()
    ensures AddsTo(TwoAccounts(), AddPeerOp("", "v", PeerRequest("k", "k", NO_META), now, 0x6440_0011, "g"), "b")
  {
    hide FreeIps, TwoAccounts, StoreState.WellFormed, Account.TakenIps, Account.AllGroups, UserAccount;
    TwoAccountsFacts();
    SecondFacts();
    FreeInNewNetwork({});
    assert Upper("") == "";
  }

  /** RenamePeer given the other account puts the peer there too. */
  lemma RenamedIntoTwoAccounts(name: string)
    ensures var s, op := TwoAccounts(), RenamePeerOp("b", "k", name, "g");
      && Agree(s) && Enabled(s, op) && RenamePeer(s, "b", "k", name, "g").result.Ok? && !Agree(Step(s, op))
  {
    hide Agree, TwoAccounts, Step;
    TwoAccountsAgree();
    SecondRenames(name);
    RenamePeerAgreesExactly(TwoAccounts(), RenamePeerOp("b", "k", name, "g"));
    KeyOfFirst();
  }

  lemma SecondRenames(name: string)
    ensures Enabled(TwoAccounts(), RenamePeerOp("b", "k", name, "g"))
    ensures RenamePeer(TwoAccounts(), "b", "k", name, "g").result.Ok?
  {
    TwoAccountsFacts();
    assert "g" in TwoAccounts().accounts["b"].AllGroups();
    assert "k" in TwoAccounts().accounts["a"].peers;
  }

  /** AddAccount under a used id drops the account's user and peer, which stay indexed to it. */
  lemma AddedAccountForgets(user: string, domain: string, f: Fresh, now: int)
    requires FreshKeys(TwoAccounts(), f)
    ensures var s, op := TwoAccounts(), AddAccountOp("a", user, domain, f, now);
      Agree(s) && s.WellFormed() && Enabled(s, op) && !Agree(Step(s, op))
  {
    hide Agree, TwoAccounts, Step, FreshKeys, StoreState.WellFormed;
    TwoAccountsAgree();
    TwoAccountsFacts();
    AddAccountAgreesExactly(TwoAccounts(), AddAccountOp("a", user, domain, f, now));
    assert "k" in TwoAccounts().accounts["a"].peers;
  }
}
