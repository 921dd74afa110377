/** The client side of the network-map protocol: client/internal/engine.go and util/common.go. An engine
    keeps one connection per remote peer, ignores maps older than the last one it applied, and turns the
    difference between a newer map and its connections into closings and openings. */
module Engine {

  /** `RemotePeerConfig`. */
  datatype RemotePeer = RemotePeer(key: string, allowedIps: string)

  /** `NetworkMap` on the wire. */
  datatype NetMap = NetMap(serial: nat, peers: seq<RemotePeer>, isEmpty: bool)

  /** A connection object: which of the objects ever made it is, and the addresses it was made for. */
  datatype Conn = Conn(id: nat, allowedIps: string)

  /** `made` counts the connection objects made so far, `closed` those on which Close was called. */
  datatype EngineState = EngineState(conns: map<string, Conn>, serial: nat, made: nat, closed: set<nat>)

  const NEW_ENGINE := EngineState(map[], 0, 0, {})

  function Keys(peers: seq<RemotePeer>): set<string> {
    set i | 0 <= i < |peers| :: peers[i].key
  }

  function Elements(keys: seq<string>): set<string> {
    set k | k in keys
  }

  // ----- SliceDiff -----

  function Diff(x: seq<string>, y: seq<string>): (d: seq<string>)
    ensures forall k :: k in d <==> k in x && k !in y
  {
    if x == [] then []
    else if x[|x| - 1] in y then Diff(x[..|x| - 1], y)
    else Diff(x[..|x| - 1], y) + [x[|x| - 1]]
  }

  /** The elements of `x` that are not in `y`, in order and with their repetitions. */
  method SliceDiff(x: seq<string>, y: seq<string>) returns (diff: seq<string>)
    ensures diff == Diff(x, y)
  {
    var mapY: set<string> := {};
    for i := 0 to |y|
      invariant mapY == set k | k in y[..i]
    {
      assert y[..i + 1] == y[..i] + [y[i]];
      mapY := mapY + {y[i]};
    }
    assert y[..|y|] == y;
    diff := [];
    for i := 0 to |x|
      invariant diff == Diff(x[..i], y)
    {
      assert x[..i + 1][..i] == x[..i];
      if x[i] !in mapY {
        diff := diff + [x[i]];
      }
    }
    assert x[..|x|] == x;
  }

  lemma DiffOneMore(x: seq<string>, k: string, y: seq<string>)
    ensures Diff(x + [k], y) == Diff(x, y) + if k in y then [] else [k]
  {
    var all := x + [k];
    assert all[..|all| - 1] == x && all[|all| - 1] == k;
  }

  /** What SliceDiff keeps it keeps in place: lists can be differenced piece by piece, one element at a time. */
  lemma {:induction false} DiffPiecewise(x: seq<string>, z: seq<string>, y: seq<string>)
    ensures Diff(x + z, y) == Diff(x, y) + Diff(z, y)
    ensures |z| == 1 ==> Diff(z, y) == if z[0] in y then [] else z
    decreases |z|
  {
    if z == [] {
      assert x + z == x;
    } else {
      hide Diff;
      var init, last := z[..|z| - 1], z[|z| - 1];
      assert z == init + [last] && x + z == (x + init) + [last];
      DiffOneMore(x + init, last, y);
      DiffOneMore(init, last, y);
      DiffPiecewise(x, init, y);
      if |z| == 1 { NothingKept(y); assert init == []; }
    }
  }

  lemma NothingKept(y: seq<string>)
    ensures Diff([], y) == []
  {
  }

  // ----- one map applied -----

  /** The connections that removePeers closes and drops. */
  function RemoveKeys(e: EngineState, gone: set<string>): EngineState {
    e.(conns := e.conns - gone, closed := e.closed + set k | k in gone && k in e.conns :: e.conns[k].id)
  }

  /** addNewPeers: a connection for every key without one; it stops at a new key that is no WireGuard key. */
  function AddNew(e: EngineState, peers: seq<RemotePeer>, parses: string -> bool): (r: (EngineState, bool))
    decreases |peers|
  {
    if peers == [] then (e, true)
    else
      var p := peers[0];
      if p.key in e.conns then AddNew(e, peers[1..], parses)
      else if !parses(p.key) then (e, false)
      else AddNew(e.(conns := e.conns[p.key := Conn(e.made, p.allowedIps)], made := e.made + 1), peers[1..], parses)
  }

  /** `updateNetworkMap`; the flag is false when it returns an error, the serial then staying as it was. */
  function Update(e: EngineState, m: NetMap, parses: string -> bool): (EngineState, bool) {
    if e.serial > m.serial then (e, true)
    else if m.isEmpty then (RemoveKeys(e, e.conns.Keys).(serial := m.serial), true)
    else
      var added := AddNew(RemoveKeys(e, e.conns.Keys - Keys(m.peers)), m.peers, parses);
      if added.1 then (added.0.(serial := m.serial), true) else added
  }

  /** `Stop`: the connections go, the serial stays. */
  function Stopped(e: EngineState): EngineState {
    RemoveKeys(e, e.conns.Keys)
  }

  // ----- the engine object -----

  class Client {
    var peerConns: map<string, Conn>
    var networkSerial: nat
    var made: nat
    var closed: set<nat>
    const parses: string -> bool

    constructor (parses: string -> bool)
      ensures State() == NEW_ENGINE && this.parses == parses
    {
      peerConns, networkSerial, made, closed := map[], 0, 0, {};
      this.parses := parses;
    }

    ghost function State(): EngineState
      reads this
    {
      EngineState(peerConns, networkSerial, made, closed)
    }

    /** removePeer: Close fails only for a connection that is not open, and that error is swallowed. */
    method RemovePeer(key: string)
      modifies this
      ensures State() == RemoveKeys(old(State()), {key})
    {
      if key in peerConns {
        var conn := peerConns[key];
        peerConns := peerConns - {key};
        closed := closed + {conn.id};
      }
    }

    /** The keys of the map in the order Go happens to iterate them. */
    method ListPeers() returns (keys: seq<string>)
      ensures forall k :: k in keys <==> k in peerConns
    {
      keys := [];
      var rest := peerConns.Keys;
      while rest != {}
        invariant rest <= peerConns.Keys
        invariant forall k :: k in keys <==> k in peerConns && k !in rest
        decreases |rest|
      {
        var k :| k in rest;
        keys := keys + [k];
        rest := rest - {k};
      }
    }

    method RemoveAllOf(keys: seq<string>)
      modifies this
      ensures State() == RemoveKeys(old(State()), Elements(keys))
    {
      ghost var before := State();
      for i := 0 to |keys|
        invariant State() == RemoveKeys(before, Elements(keys[..i]))
      {
        assert keys[..i + 1] == keys[..i] + [keys[i]];
        ghost var mid := State();
        RemovePeer(keys[i]);
        RemoveTwice(before, Elements(keys[..i]), keys[i]);
        assert Elements(keys[..i + 1]) == Elements(keys[..i]) + {keys[i]};
      }
      assert keys[..|keys|] == keys;
    }

    method RemoveAllPeers()
      modifies this
      ensures State() == RemoveKeys(old(State()), old(peerConns.Keys))
    {
      var keys := ListPeers();
      RemoveAllOf(keys);
      assert Elements(keys) == old(peerConns.Keys);
    }

    /** removePeers: what SliceDiff finds in the connections but not in the map. */
    method RemovePeers(peersUpdate: seq<RemotePeer>)
      modifies this
      ensures State() == RemoveKeys(old(State()), old(peerConns.Keys) - Keys(peersUpdate))
    {
      var currentPeers := ListPeers();
      var newPeers: seq<string> := [];
      for i := 0 to |peersUpdate|
        invariant |newPeers| == i && forall j :: 0 <= j < i ==> newPeers[j] == peersUpdate[j].key
      {
        newPeers := newPeers + [peersUpdate[i].key];
      }
      var toRemove := SliceDiff(currentPeers, newPeers);
      assert forall k :: k in newPeers <==> k in Keys(peersUpdate);
      assert Elements(toRemove) == peerConns.Keys - Keys(peersUpdate);
      RemoveAllOf(toRemove);
    }

    method AddNewPeers(peersUpdate: seq<RemotePeer>) returns (ok: bool)
      modifies this
      ensures (State(), ok) == AddNew(old(State()), peersUpdate, parses)
    {
      for i := 0 to |peersUpdate|
        invariant AddNew(State(), peersUpdate[i..], parses) == AddNew(old(State()), peersUpdate, parses)
      {
        var p := peersUpdate[i];
        assert peersUpdate[i..][0] == p && peersUpdate[i..][1..] == peersUpdate[i + 1..];
        if p.key !in peerConns {
          if !parses(p.key) {
            return false;
          }
          peerConns, made := peerConns[p.key := Conn(made, p.allowedIps)], made + 1;
        }
      }
      return true;
    }

    method Stop()
      modifies this
      ensures State() == Stopped(old(State()))
    {
      RemoveAllPeers();
    }

    method UpdateNetworkMap(m: NetMap) returns (ok: bool)
      modifies this
      ensures (State(), ok) == Update(old(State()), m, parses)
    {
      if networkSerial > m.serial {
        return true;
      }
      if m.isEmpty {
        RemoveAllPeers();
      } else {
        RemovePeers(m.peers);
        var added := AddNewPeers(m.peers);
        if !added {
          return false;
        }
      }
      networkSerial := m.serial;
      return true;
    }
  }

  lemma RemoveTwice(e: EngineState, gone: set<string>, key: string)
    ensures RemoveKeys(RemoveKeys(e, gone), {key}) == RemoveKeys(e, gone + {key})
  {
    var once := RemoveKeys(e, gone);
    var twice := RemoveKeys(once, {key});
    assert twice.conns == e.conns - (gone + {key});
    forall x ensures x in twice.closed <==> x in RemoveKeys(e, gone + {key}).closed {
      if x in RemoveKeys(e, gone + {key}).closed && x !in e.closed {
        var k :| k in gone + {key} && k in e.conns && e.conns[k].id == x;
        if k !in gone { assert k in once.conns && once.conns[k].id == x; }
      }
    }
  }

  // ----- what a map does to the connections -----

  /** A map whose flag and list agree: what toSyncResponse and DeletePeer send. */
  predicate Consistent(m: NetMap) {
    m.isEmpty <==> m.peers == []
  }

  ghost predicate AllParse(m: NetMap, parses: string -> bool) {
    forall k :: k in Keys(m.peers) ==> parses(k)
  }

  lemma KeysOfCons(peers: seq<RemotePeer>)
    requires peers != []
    ensures Keys(peers) == {peers[0].key} + Keys(peers[1..])
  {
    assert forall i :: 0 <= i < |peers[1..]| ==> peers[1..][i] == peers[i + 1];
    forall k | k in Keys(peers) ensures k in {peers[0].key} + Keys(peers[1..]) {
      var i :| 0 <= i < |peers| && peers[i].key == k;
      if i > 0 { assert peers[1..][i - 1].key == k; }
    }
    forall k | k in Keys(peers[1..]) ensures k in Keys(peers) {
      var i :| 0 <= i < |peers[1..]| && peers[1..][i].key == k;
      assert peers[i + 1].key == k;
    }
  }

  /** Connections of engines are distinct objects, made before and not closed. */
  ghost predicate ConnsOk(e: EngineState) {
    && (forall k :: k in e.conns ==> e.conns[k].id < e.made && e.conns[k].id !in e.closed)
    && (forall k, l :: k in e.conns && l in e.conns && k != l ==> e.conns[k].id != e.conns[l].id)
    && (forall x :: x in e.closed ==> x < e.made)
  }

  function WithConn(e: EngineState, p: RemotePeer): EngineState {
    e.(conns := e.conns[p.key := Conn(e.made, p.allowedIps)], made := e.made + 1)
  }

  /** addNewPeers keeps every connection there is, and succeeds exactly when all the new keys parse. */
  lemma {:induction false} AddNewKeys(e: EngineState, peers: seq<RemotePeer>, parses: string -> bool)
    ensures var (r, ok) := AddNew(e, peers, parses);
      && (ok ==> r.conns.Keys == e.conns.Keys + Keys(peers))
      && (forall k :: k in e.conns ==> k in r.conns && r.conns[k] == e.conns[k])
      && (ok <==> forall k :: k in Keys(peers) ==> k in e.conns || parses(k))
    decreases |peers|
  {
    if peers == [] {
      assert Keys(peers) == {};
    } else {
      KeysOfCons(peers);
      hide Keys;
      var p := peers[0];
      if p.key in e.conns {
        AddNewKeys(e, peers[1..], parses);
      } else if parses(p.key) {
        AddNewKeys(WithConn(e, p), peers[1..], parses);
      }
    }
  }

  /** Every connection it makes is a new object. */
  lemma {:induction false} AddNewObjects(e: EngineState, peers: seq<RemotePeer>, parses: string -> bool)
    ensures var r := AddNew(e, peers, parses).0;
      r.closed == e.closed && r.serial == e.serial && (ConnsOk(e) ==> ConnsOk(r))
    decreases |peers|
  {
    if peers != [] {
      var p := peers[0];
      if p.key in e.conns {
        AddNewObjects(e, peers[1..], parses);
      } else if parses(p.key) {
        AddNewObjects(WithConn(e, p), peers[1..], parses);
        if ConnsOk(e) { OneMoreConn(e, p); }
      }
    }
  }

  lemma OneMoreConn(e: EngineState, p: RemotePeer)
    requires p.key !in e.conns && ConnsOk(e)
    ensures ConnsOk(WithConn(e, p))
  {
  }

  lemma RemovedConns(e: EngineState, gone: set<string>)
    requires ConnsOk(e)
    ensures ConnsOk(RemoveKeys(e, gone))
  {
  }

  /** A stopped engine has no connection, has closed those it had, and ignores the maps it ignored before. */
  lemma StoppedEngine(e: EngineState)
    requires ConnsOk(e)
    ensures var s := Stopped(e);
      && s.conns == map[] && s.serial == e.serial && s.made == e.made && ConnsOk(s)
      && forall k :: k in e.conns ==> e.conns[k].id in s.closed
  {
    RemovedConns(e, e.conns.Keys);
    assert (e.conns - e.conns.Keys).Keys == {};
  }

  /** A map that is not outdated leaves exactly its keys connected: connections of keys that stay are the
      same objects (whatever their new addresses), dropped ones are closed, and no object is used twice. */
  lemma UpdateConns(e: EngineState, m: NetMap, parses: string -> bool)
    requires e.serial <= m.serial && Consistent(m) && AllParse(m, parses)
    ensures var (r, ok) := Update(e, m, parses);
      && ok && r.serial == m.serial && r.conns.Keys == Keys(m.peers)
      && (forall k :: k in r.conns && k in e.conns ==> r.conns[k] == e.conns[k])
      && r.closed == e.closed + ClosedBy(e, m)
      && (ConnsOk(e) ==> ConnsOk(r))
  {
    hide Keys, AddNew, ConnsOk, RemoveKeys, Consistent, AllParse;
    var gone := if m.isEmpty then e.conns.Keys else e.conns.Keys - Keys(m.peers);
    EmptyMapKeys(m);
    RemovedKeys(e, m, gone);
    var kept := RemoveKeys(e, gone);
    if ConnsOk(e) { RemovedConns(e, gone); }
    AddNewKeys(kept, m.peers, parses);
    AddNewObjects(kept, m.peers, parses);
    AllNewParse(m, parses);
    if ConnsOk(e) { SerialKeepsOk(if m.isEmpty then kept else AddNew(kept, m.peers, parses).0, m.serial); }
  }

  lemma EmptyMapKeys(m: NetMap)
    requires Consistent(m)
    ensures m.isEmpty ==> Keys(m.peers) == {}
  {
  }

  lemma AllNewParse(m: NetMap, parses: string -> bool)
    requires AllParse(m, parses)
    ensures forall k :: k in Keys(m.peers) ==> parses(k)
  {
    hide Keys;
  }

  lemma SerialKeepsOk(e: EngineState, serial: nat)
    requires ConnsOk(e)
    ensures ConnsOk(e.(serial := serial))
  {
  }

  lemma RemovedKeys(e: EngineState, m: NetMap, gone: set<string>)
    requires gone == e.conns.Keys - Keys(m.peers)
    ensures var r := RemoveKeys(e, gone);
      && r.conns.Keys == e.conns.Keys * Keys(m.peers) && r.serial == e.serial && r.closed == e.closed + ClosedBy(e, m)
      && forall k :: k in r.conns ==> r.conns[k] == e.conns[k]
  {
    hide Keys;
    assert (set k | k in gone && k in e.conns :: e.conns[k].id) == ClosedBy(e, m);
  }

  /** The connection objects of the keys that the map no longer has. */
  function ClosedBy(e: EngineState, m: NetMap): set<nat> {
    set k | k in e.conns && k !in Keys(m.peers) :: e.conns[k].id
  }

  /** Whatever the outcome, the serial never decreases. */
  lemma SerialNeverDecreases(e: EngineState, m: NetMap, parses: string -> bool)
    ensures e.serial <= Update(e, m, parses).0.serial
  {
    AddNewObjects(RemoveKeys(e, e.conns.Keys - Keys(m.peers)), m.peers, parses);
  }

  // ----- any sequence of maps -----

  function ApplyAll(e: EngineState, ms: seq<NetMap>, parses: string -> bool): EngineState {
    if ms == [] then e else Update(ApplyAll(e, ms[..|ms| - 1], parses), ms[|ms| - 1], parses).0
  }

  /** The maps come from one server: equal serials carry equal peer sets. */
  ghost predicate OneServer(ms: seq<NetMap>, parses: string -> bool) {
    && (forall i :: 0 <= i < |ms| ==> Consistent(ms[i]) && AllParse(ms[i], parses))
    && (forall i, j :: 0 <= i < |ms| && 0 <= j < |ms| && ms[i].serial == ms[j].serial ==>
          Keys(ms[i].peers) == Keys(ms[j].peers))
  }

  lemma OneServerOfTwo(m: NetMap, n: NetMap, parses: string -> bool)
    requires Consistent(m) && Consistent(n) && AllParse(m, parses) && AllParse(n, parses) && m.serial == n.serial
    ensures OneServer([m, n], parses) <==> Keys(m.peers) == Keys(n.peers)
  {
    hide Keys, AllParse;
    var ms := [m, n];
    assert ms[0] == m && ms[1] == n;
  }

  ghost predicate Latest(m: NetMap, ms: seq<NetMap>) {
    m in ms && forall x :: x in ms ==> x.serial <= m.serial
  }

  /** Folding any nonempty sequence of a server's maps into a new engine, in any order and with any
      repetition, ends with exactly the peers of the largest serial in it. */
  lemma {:induction false} OrderIndependence(ms: seq<NetMap>, parses: string -> bool, m: NetMap)
    requires OneServer(ms, parses) && Latest(m, ms)
    ensures var r := ApplyAll(NEW_ENGINE, ms, parses);
      r.serial == m.serial && r.conns.Keys == Keys(m.peers) && ConnsOk(r)
    decreases |ms|
  {
    var n := |ms| - 1;
    var init, last := ms[..n], ms[n];
    var e := ApplyAll(NEW_ENGINE, init, parses);
    assert ms == init + [last];
    if n == 0 {
      UpdateConns(NEW_ENGINE, last, parses);
    } else {
      var best := LatestOf(init);
      assert OneServer(init, parses) by {
        assert forall i :: 0 <= i < |init| ==> init[i] == ms[i];
      }
      OrderIndependence(init, parses, best);
      if e.serial <= last.serial { UpdateConns(e, last, parses); }
      SameSerialSameKeys(ms, parses, m, if e.serial <= last.serial then last else best);
    }
  }

  lemma SameSerialSameKeys(ms: seq<NetMap>, parses: string -> bool, a: NetMap, b: NetMap)
    requires OneServer(ms, parses) && a in ms && b in ms
    ensures a.serial == b.serial ==> Keys(a.peers) == Keys(b.peers)
  {
    var i :| 0 <= i < |ms| && ms[i] == a;
    var j :| 0 <= j < |ms| && ms[j] == b;
  }

  ghost function LatestOf(ms: seq<NetMap>): (m: NetMap)
    requires ms != []
    ensures Latest(m, ms)
    decreases |ms|
  {
    var last := ms[|ms| - 1];
    assert ms == ms[..|ms| - 1] + [last];
    if |ms| == 1 then last
    else
      var m := LatestOf(ms[..|ms| - 1]);
      if m.serial <= last.serial then last else m
  }

  /** Along the way the serial only grows. */
  lemma {:induction false} SerialGrowsAlongTheWay(e: EngineState, ms: seq<NetMap>, parses: string -> bool, n: nat)
    requires n <= |ms|
    ensures e.serial <= ApplyAll(e, ms[..n], parses).serial <= ApplyAll(e, ms, parses).serial
    decreases |ms|
  {
    if n == |ms| {
      assert ms[..n] == ms;
      if n > 0 {
        SerialGrowsAlongTheWay(e, ms[..n - 1], parses, n - 1);
        assert ms[..n - 1][..n - 1] == ms[..n - 1];
        SerialNeverDecreases(ApplyAll(e, ms[..n - 1], parses), ms[n - 1], parses);
      }
    } else {
      SerialGrowsAlongTheWay(e, ms[..|ms| - 1], parses, n);
      assert ms[..|ms| - 1][..n] == ms[..n];
      SerialNeverDecreases(ApplyAll(e, ms[..|ms| - 1], parses), ms[|ms| - 1], parses);
    }
  }
}
