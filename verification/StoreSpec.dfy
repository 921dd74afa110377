/** What management/server/file_store.go keeps, and what SaveAccount and restore make of it. */
module StoreSpec {
  import opened Model

  datatype StoreState = StoreState(accounts: map<string, Account>,
                                   setupKeyIdx: map<string, string>,
                                   peerIdx: map<string, string>,
                                   userIdx: map<string, string>,
                                   domainIdx: map<string, string>,
                                   srcRules: map<string, set<string>>,
                                   dstRules: map<string, set<string>>)
  {
    ghost predicate WellFormed() {
      forall id :: id in accounts ==> accounts[id].id == id && accounts[id].WellFormed()
    }
  }

  const EMPTY := StoreState(map[], map[], map[], map[], map[], map[], map[])

  // ----- rule indexes -----

  function Side(r: Rule, src: bool): seq<string> {
    if src then r.source else r.destination
  }

  /** The peer keys listed in the named groups. */
  function MembersOf(a: Account, gids: seq<string>): set<string> {
    set g, p | g in gids && g in a.groups && p in a.groups[g].peers :: p
  }

  function PeersNamed(a: Account, rs: set<string>, src: bool): set<string> {
    set r, p | r in rs && r in a.rules && p in MembersOf(a, Side(a.rules[r], src)) :: p
  }

  function RulesNaming(a: Account, rs: set<string>, src: bool, peer: string): set<string> {
    set r | r in rs && r in a.rules && peer in MembersOf(a, Side(a.rules[r], src)) :: a.rules[r].id
  }

  function Lookup(idx: map<string, set<string>>, peer: string): set<string> {
    if peer in idx then idx[peer] else {}
  }

  /** A rule index after the rules `rs` of account `a` have been entered. Entries are only added. */
  function IndexRules(idx: map<string, set<string>>, a: Account, rs: set<string>, src: bool): map<string, set<string>> {
    map p | p in idx.Keys + PeersNamed(a, rs, src) :: Lookup(idx, p) + RulesNaming(a, rs, src, p)
  }

  lemma NamedHasRule(a: Account, rs: set<string>, src: bool, p: string)
    ensures p in PeersNamed(a, rs, src) <==> RulesNaming(a, rs, src, p) != {}
  {
    if p in PeersNamed(a, rs, src) {
      var r :| r in rs && r in a.rules && p in MembersOf(a, Side(a.rules[r], src));
      assert a.rules[r].id in RulesNaming(a, rs, src, p);
    }
    if RulesNaming(a, rs, src, p) != {} {
      var x :| x in RulesNaming(a, rs, src, p);
      var r :| r in rs && r in a.rules && p in MembersOf(a, Side(a.rules[r], src)) && a.rules[r].id == x;
    }
  }

  lemma IndexRulesLookup(idx: map<string, set<string>>, a: Account, rs: set<string>, src: bool, p: string)
    ensures Lookup(IndexRules(idx, a, rs, src), p) == Lookup(idx, p) + RulesNaming(a, rs, src, p)
  {
    NamedHasRule(a, rs, src, p);
  }

  // ----- indexes from a key to the account that holds it -----

  function PointAll(idx: map<string, string>, keys: set<string>, id: string): map<string, string> {
    map k | k in idx.Keys + keys :: if k in keys then id else idx[k]
  }

  function SetupKeyNames(a: Account): set<string> {
    set k | k in a.setupKeys :: Upper(k)
  }

  function PeerNames(a: Account): set<string> {
    set k | k in a.peers :: a.peers[k].key
  }

  function UserNames(a: Account): set<string> {
    set u | u in a.users :: a.users[u].id
  }

  function IndexAccount(s: StoreState, id: string, a: Account, withDomain: bool): StoreState {
    s.(setupKeyIdx := PointAll(s.setupKeyIdx, SetupKeyNames(a), id),
       peerIdx := PointAll(s.peerIdx, PeerNames(a), id),
       userIdx := PointAll(s.userIdx, UserNames(a), id),
       domainIdx := if withDomain then s.domainIdx[a.domain := id] else s.domainIdx,
       srcRules := IndexRules(s.srcRules, a, a.rules.Keys, true),
       dstRules := IndexRules(s.dstRules, a, a.rules.Keys, false))
  }

  /** `SaveAccount`. */
  function Save(s: StoreState, a: Account): StoreState {
    IndexAccount(s.(accounts := s.accounts[a.id := a]), a.id, a, a.PrivatePrimary())
  }

  /** The loop of `restore` over the accounts in some order; unlike SaveAccount it skips an empty domain. */
  function RestoreFrom(s: StoreState, order: seq<string>): (r: StoreState)
    requires forall id :: id in order ==> id in s.accounts
    ensures r.accounts == s.accounts
    decreases order
  {
    if order == [] then s
    else
      var id, a := order[0], s.accounts[order[0]];
      RestoreFrom(IndexAccount(s, id, a, a.domain != "" && a.PrivatePrimary()), order[1..])
  }

  /** `restore`: the accounts as read back, every index built from nothing. */
  function Restore(accounts: map<string, Account>, order: seq<string>): (r: StoreState)
    requires forall id :: id in order ==> id in accounts
    ensures r.accounts == accounts
  {
    RestoreFrom(EMPTY.(accounts := accounts), order)
  }

  // ----- changes -----

  /** What one manager operation does to the store. */
  datatype Change =
    | NoChange
    | Saved(a: Account)                       // SaveAccount(a)
    | SavedWithoutPeer(a: Account, key: string) // Store.DeletePeer, then SaveAccount(a)
    | InPlace(a: Account)                     // Store.SavePeer: the account only, no index

  /** The account `a` after a change that, if anything, is one of `a`. */
  function After(a: Account, c: Change): Account {
    if c.NoChange? then a else c.a
  }

  function Apply(s: StoreState, c: Change): StoreState {
    match c
    case NoChange => s
    case Saved(a) => Save(s, a)
    case SavedWithoutPeer(a, key) => Save(s.(peerIdx := s.peerIdx - {key}), a)
    case InPlace(a) => s.(accounts := s.accounts[a.id := a])
  }

  lemma NamesOfWellFormed(a: Account)
    requires a.WellFormed()
    ensures SetupKeyNames(a) == a.setupKeys.Keys
    ensures PeerNames(a) == a.peers.Keys
    ensures UserNames(a) == a.users.Keys
  {
    assert forall k :: k in a.setupKeys ==> Upper(k) in SetupKeyNames(a);
    assert forall k :: k in a.peers ==> a.peers[k].key in PeerNames(a);
    assert forall k :: k in a.users ==> a.users[k].id in UserNames(a);
  }

  /** SaveAccount field by field, for an account keyed by what it holds. */
  lemma SaveFields(s: StoreState, a: Account)
    requires a.WellFormed()
    ensures var t := Save(s, a);
      && t.accounts == s.accounts[a.id := a]
      && t.setupKeyIdx == PointAll(s.setupKeyIdx, a.setupKeys.Keys, a.id)
      && t.peerIdx == PointAll(s.peerIdx, a.peers.Keys, a.id)
      && t.userIdx == PointAll(s.userIdx, a.users.Keys, a.id)
      && t.domainIdx == (if a.PrivatePrimary() then s.domainIdx[a.domain := a.id] else s.domainIdx)
      && t.srcRules == IndexRules(s.srcRules, a, a.rules.Keys, true)
      && t.dstRules == IndexRules(s.dstRules, a, a.rules.Keys, false)
  {
    NamesOfWellFormed(a);
  }
}
