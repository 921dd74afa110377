/** Which addresses the engine of client/internal/engine.go connects a peer for: those of the map that brought the
    peer in, for as long as the connection lasts. */
module EngineRoutes {
  import opened Engine

  /** The entry of the key that addNewPeers meets first. */
  ghost predicate FirstEntry(peers: seq<RemotePeer>, k: string, i: nat) {
    i < |peers| && peers[i].key == k && forall j :: 0 <= j < i ==> peers[j].key != k
  }

  /** The addresses are those of the first entry of the key. */
  ghost predicate RoutedAs(peers: seq<RemotePeer>, k: string, allowedIps: string) {
    exists i: nat :: FirstEntry(peers, k, i) && peers[i].allowedIps == allowedIps
  }

  /** The first entry that addNewPeers cannot make a connection for. */
  ghost predicate Stops(e: EngineState, peers: seq<RemotePeer>, parses: string -> bool, n: nat) {
    && n < |peers| && peers[n].key !in e.conns && !parses(peers[n].key)
    && forall j :: 0 <= j < n ==> peers[j].key in e.conns || parses(peers[j].key)
  }

  lemma RoutedAsInRest(peers: seq<RemotePeer>, k: string, allowedIps: string)
    requires peers != [] && peers[0].key != k && RoutedAs(peers[1..], k, allowedIps)
    ensures RoutedAs(peers, k, allowedIps)
  {
    var i: nat :| FirstEntry(peers[1..], k, i) && peers[1..][i].allowedIps == allowedIps;
    assert forall j :: 0 < j < i + 1 ==> peers[j] == peers[1..][j - 1];
    assert FirstEntry(peers, k, i + 1);
  }

  /** Every new connection is for the addresses of the first entry of its key, also when a later key is no
      WireGuard key. */
  lemma {:induction false} AddNewRoutes(e: EngineState, peers: seq<RemotePeer>, parses: string -> bool)
    ensures var r := AddNew(e, peers, parses).0;
      forall k :: k in r.conns && k !in e.conns ==> RoutedAs(peers, k, r.conns[k].allowedIps)
    decreases |peers|
  {
    hide RoutedAs;
    if peers != [] {
      var p, r := peers[0], AddNew(e, peers, parses).0;
      if p.key in e.conns {
        AddNewRoutes(e, peers[1..], parses);
      } else if parses(p.key) {
        AddNewRoutes(WithConn(e, p), peers[1..], parses);
        AddNewKeys(WithConn(e, p), peers[1..], parses);
        FirstIsRouted(peers);
      }
      forall k | k in r.conns && k !in e.conns ensures RoutedAs(peers, k, r.conns[k].allowedIps) {
        if k != p.key { RoutedAsInRest(peers, k, r.conns[k].allowedIps); }
      }
    }
  }

  lemma FirstIsRouted(peers: seq<RemotePeer>)
    requires peers != []
    ensures RoutedAs(peers, peers[0].key, peers[0].allowedIps)
  {
    assert FirstEntry(peers, peers[0].key, 0);
  }

  /** When addNewPeers fails, it has made the connections of the entries before the one that stopped it. */
  lemma {:induction false} AddNewStops(e: EngineState, peers: seq<RemotePeer>, parses: string -> bool) returns (n: nat)
    requires !AddNew(e, peers, parses).1
    ensures Stops(e, peers, parses, n)
    ensures AddNew(e, peers, parses).0.conns.Keys == e.conns.Keys + Keys(peers[..n])
    decreases |peers|
  {
    var p := peers[0];
    if p.key !in e.conns && !parses(p.key) {
      n := 0;
      assert Keys(peers[..0]) == {};
    } else {
      var more := if p.key in e.conns then e else WithConn(e, p);
      var rest := AddNewStops(more, peers[1..], parses);
      n := rest + 1;
      assert peers[..n][1..] == peers[1..][..rest] && peers[..n][0] == p;
      KeysOfCons(peers[..n]);
      assert forall j :: 0 < j <= n ==> peers[j] == peers[1..][j - 1];
    }
  }

  // ----- one map -----

  /** The map was left at its n-th entry: kept connections and those of the entries before it are there. */
  ghost predicate LeftAt(e: EngineState, m: NetMap, parses: string -> bool, r: EngineState, n: nat) {
    Stops(e, m.peers, parses, n) && r.conns.Keys == (e.conns.Keys * Keys(m.peers)) + Keys(m.peers[..n])
  }

  /** What a map does. An outdated one does nothing. Any other leaves the connections it still lists alone and
      makes the others for the addresses it lists; it fails exactly at a new key that is no WireGuard key, and
      then the serial and what comes after that key are missing. */
  lemma UpdateRoutes(e: EngineState, m: NetMap, parses: string -> bool)
    ensures e.serial > m.serial ==> Update(e, m, parses) == (e, true)
    ensures e.serial <= m.serial && m.isEmpty ==>
      var (r, ok) := Update(e, m, parses); ok && r.conns == map[] && r.serial == m.serial
    ensures e.serial <= m.serial && !m.isEmpty ==>
      var (r, ok) := Update(e, m, parses);
      && (forall k :: k in e.conns && k in Keys(m.peers) ==> k in r.conns && r.conns[k] == e.conns[k])
      && (forall k :: k in r.conns && k !in e.conns ==> RoutedAs(m.peers, k, r.conns[k].allowedIps))
      && (ok <==> forall k :: k in Keys(m.peers) ==> k in e.conns || parses(k))
      && (if ok then r.serial == m.serial && r.conns.Keys == Keys(m.peers)
          else r.serial == e.serial && exists n: nat :: LeftAt(e, m, parses, r, n))
  {
    hide RoutedAs, Keys;
    if e.serial <= m.serial && !m.isEmpty {
      var kept := RemoveKeys(e, e.conns.Keys - Keys(m.peers));
      RemovedKeys(e, m, e.conns.Keys - Keys(m.peers));
      NewlyListed(e, m);
      AddNewRoutes(kept, m.peers, parses);
      AddNewKeys(kept, m.peers, parses);
      AddNewObjects(kept, m.peers, parses);
      if !AddNew(kept, m.peers, parses).1 {
        var n := AddNewStops(kept, m.peers, parses);
        assert LeftAt(e, m, parses, Update(e, m, parses).0, n);
      }
    }
  }

  lemma NewlyListed(e: EngineState, m: NetMap)
    ensures forall i :: 0 <= i < |m.peers| ==>
      m.peers[i].key in Keys(m.peers)
      && (m.peers[i].key in e.conns <==> m.peers[i].key in e.conns.Keys * Keys(m.peers))
  {
  }

  // ----- any sequence of maps -----

  function Before(ms: seq<NetMap>, parses: string -> bool, n: nat): EngineState
    requires n <= |ms|
  {
    ApplyAll(NEW_ENGINE, ms[..n], parses)
  }

  /** The n-th map brought the peer in, for these addresses, and it has been connected ever since. */
  ghost predicate BroughtInBy(ms: seq<NetMap>, parses: string -> bool, k: string, c: Conn, n: nat) {
    && n < |ms| && k !in Before(ms, parses, n).conns && Before(ms, parses, n).serial <= ms[n].serial
    && !ms[n].isEmpty && RoutedAs(ms[n].peers, k, c.allowedIps)
    && forall j :: n < j <= |ms| ==> k in Before(ms, parses, j).conns && Before(ms, parses, j).conns[k] == c
  }

  lemma BeforePrefix(ms: seq<NetMap>, parses: string -> bool, n: nat)
    requires ms != [] && n < |ms|
    ensures Before(ms[..|ms| - 1], parses, n) == Before(ms, parses, n)
  {
    assert ms[..|ms| - 1][..n] == ms[..n];
  }

  lemma LastUpdate(ms: seq<NetMap>, parses: string -> bool)
    requires ms != []
    ensures Before(ms, parses, |ms|) == Update(Before(ms, parses, |ms| - 1), ms[|ms| - 1], parses).0
  {
    assert ms[..|ms|] == ms;
  }

  /** Whatever maps a new engine is given, and whichever of them fail, each of its connections is for the
      addresses of the map that brought the peer in. */
  lemma {:induction false} ConnectionsAreRouted(ms: seq<NetMap>, parses: string -> bool, k: string)
    requires k in ApplyAll(NEW_ENGINE, ms, parses).conns
    ensures exists n: nat :: BroughtInBy(ms, parses, k, ApplyAll(NEW_ENGINE, ms, parses).conns[k], n)
    decreases |ms|
  {
    hide Update, RoutedAs;
    assert ms[..|ms|] == ms;
    var init, last := ms[..|ms| - 1], ms[|ms| - 1];
    var e, r := ApplyAll(NEW_ENGINE, init, parses), ApplyAll(NEW_ENGINE, ms, parses);
    UpdateRoutes(e, last, parses);
    BeforePrefix(ms, parses, |ms| - 1);
    assert init[..|init|] == init;
    if k in e.conns {
      SameConnection(e, last, parses, k);
      ConnectionsAreRouted(init, parses, k);
      var n: nat :| BroughtInBy(init, parses, k, e.conns[k], n);
      StillBroughtIn(ms, parses, k, r.conns[k], n);
    } else {
      assert BroughtInBy(ms, parses, k, r.conns[k], |ms| - 1);
    }
  }

  lemma SameConnection(e: EngineState, m: NetMap, parses: string -> bool, k: string)
    requires k in e.conns && k in Update(e, m, parses).0.conns
    ensures Update(e, m, parses).0.conns[k] == e.conns[k]
  {
    hide Keys, AddNew;
    AddNewKeys(RemoveKeys(e, e.conns.Keys - Keys(m.peers)), m.peers, parses);
    if e.serial <= m.serial && !m.isEmpty && k !in Keys(m.peers) {
      DroppedStaysOut(e, m, parses, k);
    }
  }

  lemma DroppedStaysOut(e: EngineState, m: NetMap, parses: string -> bool, k: string)
    requires e.serial <= m.serial && !m.isEmpty && k in e.conns && k !in Keys(m.peers)
    ensures k !in Update(e, m, parses).0.conns
  {
    UpdateRoutes(e, m, parses);
    var ok := Update(e, m, parses).1;
    if !ok {
      var n: nat :| LeftAt(e, m, parses, Update(e, m, parses).0, n);
      assert forall j :: 0 <= j < n ==> m.peers[..n][j] == m.peers[j];
    }
  }

  lemma StillBroughtIn(ms: seq<NetMap>, parses: string -> bool, k: string, c: Conn, n: nat)
    requires ms != [] && BroughtInBy(ms[..|ms| - 1], parses, k, c, n)
    requires k in Before(ms, parses, |ms|).conns && Before(ms, parses, |ms|).conns[k] == c
    ensures BroughtInBy(ms, parses, k, c, n)
  {
    hide Before, RoutedAs;
    BeforePrefix(ms, parses, n);
    forall j | n < j <= |ms| ensures k in Before(ms, parses, j).conns && Before(ms, parses, j).conns[k] == c {
      if j < |ms| {
        BeforePrefix(ms, parses, j);
        assert k in Before(ms[..|ms| - 1], parses, j).conns;
      }
    }
  }

  /** The maps list each peer with the same addresses throughout. */
  ghost predicate OneAddressEach(ms: seq<NetMap>, route: map<string, string>) {
    forall n, i :: 0 <= n < |ms| && 0 <= i < |ms[n].peers| ==>
      ms[n].peers[i].key in route && ms[n].peers[i].allowedIps == route[ms[n].peers[i].key]
  }

  /** Then every connection is for the addresses its peer has, in whatever order the maps come. */
  lemma ConnectionsFollowAddresses(ms: seq<NetMap>, parses: string -> bool, route: map<string, string>, k: string)
    requires OneAddressEach(ms, route) && k in ApplyAll(NEW_ENGINE, ms, parses).conns
    ensures k in route && ApplyAll(NEW_ENGINE, ms, parses).conns[k].allowedIps == route[k]
  {
    ConnectionsAreRouted(ms, parses, k);
    var c := ApplyAll(NEW_ENGINE, ms, parses).conns[k];
    var n: nat :| BroughtInBy(ms, parses, k, c, n);
    var i: nat :| FirstEntry(ms[n].peers, k, i) && ms[n].peers[i].allowedIps == c.allowedIps;
  }

  /** Otherwise not: a newer map with another address for a peer leaves the connection as it was made. */
  lemma NewAddressIsMissed(k: string, old_: string, new_: string, parses: string -> bool)
    requires parses(k)
    ensures var before, after := NetMap(1, [RemotePeer(k, old_)], false), NetMap(2, [RemotePeer(k, new_)], false);
      var r := ApplyAll(NEW_ENGINE, [before, after], parses);
      r.serial == 2 && r.conns.Keys == {k} && r.conns[k].allowedIps == old_
  {
    var before, after := NetMap(1, [RemotePeer(k, old_)], false), NetMap(2, [RemotePeer(k, new_)], false);
    var ms := [before, after];
    assert ms[..1] == [before] && [before][..0] == [];
    var e := ApplyAll(NEW_ENGINE, [], parses);
    assert e == NEW_ENGINE;
    OneEntry(e, before, k, parses);
    OneEntry(Update(e, before, parses).0, after, k, parses);
    assert ApplyAll(NEW_ENGINE, [before], parses) == Update(e, before, parses).0;
  }

  lemma OneEntry(e: EngineState, m: NetMap, k: string, parses: string -> bool)
    requires m.serial >= e.serial && |m.peers| == 1 && m.peers[0].key == k && !m.isEmpty && parses(k)
    ensures var r := Update(e, m, parses).0;
      && r.serial == m.serial && r.conns.Keys == {k}
      && r.conns[k].allowedIps == if k in e.conns then e.conns[k].allowedIps else m.peers[0].allowedIps
  {
    hide Update;
    assert Keys(m.peers) == {k};
    UpdateRoutes(e, m, parses);
  }
}
