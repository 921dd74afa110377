/** The network-map protocol from the account store to the engines: what registerPeer, DeletePeer and Sync
    put on the wire (management/server/{grpcserver,peer}.go), carried by channels and streams that may
    lose, repeat and reorder, and applied by engines (client/internal/engine.go) that may restart. */
module SyncProtocol {
  import opened IpAllocation
  import opened Model
  import opened StoreSpec
  import opened ManagerSpec
  import opened Operations
  import opened OperationShapes
  import opened IndexAgreement
  import opened NetworkMap
  import opened LiveMaps
  import opened FullMesh
  import opened HostRoutes
  import Engine
  import EngineRoutes

  /** A map on its way to the peer `to`. */
  datatype Snapshot = Snapshot(to: string, map_: Engine.NetMap)

  /** An engine, whether it has applied a map since it started, and whether it was stopped. A map already on
      its way can still reach a stopped engine. */
  datatype Client = Client(engine: Engine.EngineState, applied: bool, stopped: bool)

  /** `history[i]` has the peers of the account and their addresses when its serial was `i`. Snapshots once sent stay in
      `sent`: one that is never delivered is lost, one delivered again is a duplicate, and deliveries
      come in any order. */
  datatype World = World(store: StoreState, history: seq<map<string, Addr>>, sent: set<Snapshot>,
                         clients: map<string, Client>)

  /** The account whose peers are synchronised, its group and its rule, and which strings are WireGuard keys. */
  datatype Context = Context(acc: string, g: string, r: string, parses: string -> bool)

  // ----- what the server sends -----

  /** A list of exactly the peers `keys`, in some order and possibly with repetitions, as toSyncResponse
      and DeletePeer stamp it. */
  ghost predicate Carries(m: Snapshot, to: string, serial: nat, keys: set<string>) {
    m.to == to && m.map_.serial == serial && Engine.Keys(m.map_.peers) == keys && Engine.Consistent(m.map_)
  }

  ghost function Serial(w: World, c: Context): nat
    requires c.acc in w.store.accounts
  {
    w.store.accounts[c.acc].network.serial
  }

  ghost function PeerKeys(s: StoreState, acc: string): set<string>
    requires acc in s.accounts
  {
    s.accounts[acc].peers.Keys
  }

  ghost function Addresses(s: StoreState, acc: string): map<string, Addr>
    requires acc in s.accounts
  {
    map k | k in s.accounts[acc].peers :: s.accounts[acc].peers[k].ip
  }

  /** The text is a route to the one address. */
  predicate RoutesTo(allowedIps: string, ip: Addr) {
    ParseCidr(allowedIps) == Ok(IPNet(ip, 32))
  }

  /** Every entry routes to the address that its peer has. */
  ghost predicate Routed(peers: seq<Engine.RemotePeer>, addresses: map<string, Addr>) {
    forall i :: 0 <= i < |peers| ==>
      peers[i].key in addresses && RoutesTo(peers[i].allowedIps, addresses[peers[i].key])
  }

  /** registerPeer to `to`, after reading the map of the peer `k`: `k` itself and the rest of its map. */
  function FanOutKeys(s: StoreState, acc: string, k: string, to: string): set<string>
    requires acc in s.accounts
  {
    {k} + (NetworkMapKeys(s, acc, k) - {to})
  }

  /** DeletePeer to `to`, after the removal: every registered peer but `to`. */
  function DeletionKeys(s: StoreState, acc: string, to: string): set<string>
    requires acc in s.accounts
  {
    s.accounts[acc].peers.Keys - {to}
  }

  // ----- steps -----

  datatype Action =
    | Manage(op: Op, notices: set<Snapshot>)      // an operation; DeletePeer also sends
    | FanOut(k: string, notices: set<Snapshot>)   // registerPeer, reading and sending
    | OpenStream(k: string, first: Snapshot)      // Sync, the first snapshot
    | StartEngine(k: string)                      // a client process starts
    | StopEngine(k: string)                       // the engine is stopped: it drops its connections
    | Deliver(m: Snapshot)                        // an engine handles a snapshot

  ghost predicate Deletes(s: StoreState, op: Op, acc: string) {
    op.DeletePeerOp? && op.accountId == acc && acc in s.accounts && op.key in s.accounts[acc].peers
  }

  ghost predicate DeletionNotice(t: StoreState, acc: string, gone: string, m: Snapshot)
    requires acc in t.accounts
  {
    Carries(m, gone, t.accounts[acc].network.serial, {})
    || (m.to in t.accounts[acc].peers && Routed(m.map_.peers, Addresses(t, acc))
        && Carries(m, m.to, t.accounts[acc].network.serial, DeletionKeys(t, acc, m.to)))
  }

  ghost predicate FanOutNotice(s: StoreState, acc: string, k: string, m: Snapshot)
    requires acc in s.accounts
  {
    && m.to in NetworkMapKeys(s, acc, k) && Routed(m.map_.peers, Addresses(s, acc))
    && Carries(m, m.to, s.accounts[acc].network.serial, FanOutKeys(s, acc, k, m.to))
  }

  ghost predicate Next(w: World, a: Action, w': World, c: Context)
    requires c.acc in w.store.accounts
  {
    match a
    case Manage(op, notices) =>
      && w.store.WellFormed() && Enabled(w.store, op) && Disciplined(w.store, op) && !EditsLists(op, c.acc)
      && (op.AddPeerOp? ==> c.parses(op.req.key)) // Login parses the key before it registers the peer
      && w'.store == Step(w.store, op) && c.acc in w'.store.accounts
      && w'.history == (if Serial(w', c) == Serial(w, c) then w.history else w.history + [Addresses(w'.store, c.acc)])
      && (if Deletes(w.store, op, c.acc)
          then forall m :: m in notices ==> DeletionNotice(w'.store, c.acc, op.key, m)
          else notices == {})
      && w'.sent == w.sent + notices && w'.clients == w.clients
    case FanOut(k, notices) =>
      && k in w.store.accounts[c.acc].peers
      && (forall m :: m in notices ==> FanOutNotice(w.store, c.acc, k, m))
      && w' == w.(sent := w.sent + notices)
    case OpenStream(k, first) =>
      && k in w.store.accounts[c.acc].peers
      && Carries(first, k, Serial(w, c), NetworkMapKeys(w.store, c.acc, k))
      && Routed(first.map_.peers, Addresses(w.store, c.acc))
      && w' == w.(sent := w.sent + {first})
    case StartEngine(k) =>
      w' == w.(clients := w.clients[k := Client(Engine.NEW_ENGINE, false, false)])
    case StopEngine(k) =>
      && k in w.clients
      && w' == w.(clients := w.clients[k := Client(Engine.Stopped(w.clients[k].engine), w.clients[k].applied, true)])
    case Deliver(m) =>
      && m in w.sent && m.to in w.clients
      && var e := w.clients[m.to];
         var handled := Engine.Update(e.engine, m.map_, c.parses);
         var applied := e.applied || (handled.1 && e.engine.serial <= m.map_.serial);
         w' == w.(clients := w.clients[m.to := Client(handled.0, applied, e.stopped)])
  }

  /** The account is a mesh whose peers have WireGuard keys; nothing is sent and no engine runs yet. */
  ghost predicate Init(w: World, c: Context) {
    && Mesh(w.store, c.acc, c.g, c.r)
    && |w.history| == Serial(w, c) + 1 && w.history[Serial(w, c)] == Addresses(w.store, c.acc)
    && (forall i, k :: 0 <= i < |w.history| && k in w.history[i] ==> c.parses(k))
    && w.sent == {} && w.clients == map[]
  }

  // ----- the invariant -----

  /** What peer `k` should be connected to at serial `i`: the peer set as it stood then, less itself; nothing
      when it was not registered then. */
  function ViewAt(history: seq<map<string, Addr>>, i: nat, k: string): set<string>
    requires i < |history|
  {
    if k in history[i] then history[i].Keys - {k} else {}
  }

  ghost predicate SnapshotOk(w: World, m: Snapshot) {
    && m.map_.serial < |w.history| && Engine.Consistent(m.map_)
    && Engine.Keys(m.map_.peers) == ViewAt(w.history, m.map_.serial, m.to)
    && Routed(m.map_.peers, w.history[m.map_.serial])
  }

  /** The text routes to an address that the peer had at a serial up to `n`. */
  ghost predicate RoutesBack(history: seq<map<string, Addr>>, n: nat, peer: string, allowedIps: string) {
    exists i :: 0 <= i <= n && i < |history| && peer in history[i] && RoutesTo(allowedIps, history[i][peer])
  }

  /** The client's engine is exactly where the server was at the engine's serial. */
  ghost predicate ClientOk(w: World, k: string, e: Client) {
    && (e.applied ==> e.engine.serial < |w.history|)
    && (e.applied ==>
          e.engine.conns.Keys == ViewAt(w.history, e.engine.serial, k) || (e.stopped && e.engine.conns == map[]))
    && (!e.applied ==> e.engine == Engine.NEW_ENGINE)
    && (forall p :: p in e.engine.conns ==>
          RoutesBack(w.history, e.engine.serial, p, e.engine.conns[p].allowedIps))
    && Engine.ConnsOk(e.engine)
  }

  ghost predicate ServerOk(w: World, c: Context) {
    && Mesh(w.store, c.acc, c.g, c.r)
    && |w.history| == Serial(w, c) + 1 && w.history[Serial(w, c)] == Addresses(w.store, c.acc)
    && (forall i, k :: 0 <= i < |w.history| && k in w.history[i] ==> c.parses(k))
  }

  ghost predicate Inv(w: World, c: Context) {
    && ServerOk(w, c)
    && (forall m :: m in w.sent ==> SnapshotOk(w, m))
    && (forall k :: k in w.clients ==> ClientOk(w, k, w.clients[k]))
  }

  // ----- fan-out equals own view -----

  /** In a mesh, what registerPeer pushes to a peer is what that peer's own GetNetworkMap would return. */
  lemma FanOutIsOwnView(s: StoreState, acc: string, g: string, r: string, k: string, to: string)
    requires Mesh(s, acc, g, r) && k in s.accounts[acc].peers && to in NetworkMapKeys(s, acc, k)
    ensures to in s.accounts[acc].peers && FanOutKeys(s, acc, k, to) == NetworkMapKeys(s, acc, to)
  {
    hide Mesh, NetworkMapKeys;
    MeshMap(s, acc, g, r, k);
    MeshMap(s, acc, g, r, to);
  }

  /** And so is what DeletePeer pushes to each remaining peer. */
  lemma DeletionIsOwnView(s: StoreState, acc: string, g: string, r: string, to: string)
    requires Mesh(s, acc, g, r) && to in s.accounts[acc].peers
    ensures DeletionKeys(s, acc, to) == NetworkMapKeys(s, acc, to)
  {
    hide Mesh, NetworkMapKeys;
    MeshMap(s, acc, g, r, to);
  }

  // ----- outside a mesh -----

  /** What DeletePeer pushes, in any account and whatever the indexes hold after the removal: never less than
      the peer's own view, and exactly that view if and only if it shows all the others. */
  lemma DeletionIsOwnViewExactly(s: StoreState, acc: string, to: string)
    requires s.WellFormed() && acc in s.accounts
    ensures NetworkMapKeys(s, acc, to) <= DeletionKeys(s, acc, to)
    ensures DeletionKeys(s, acc, to) == NetworkMapKeys(s, acc, to) <==>
      forall q :: q in s.accounts[acc].peers && q != to ==> SeesNow(s, acc, to, q)
  {
    hide Account.WellFormed, NetworkMapKeys, SeesNow;
    MapInAnyStore(s, acc, to);
    SameSetExactly(NetworkMapKeys(s, acc, to), DeletionKeys(s, acc, to), DeletionKeys(s, acc, to));
  }

  /** In terms of the rules, for a peer whose entries were exact before the removal: exactly when there are no
      others, or the rules name the peer on both sides and link it to every other. */
  lemma DeletionPushByRules(s: StoreState, id: string, key: string, order: seq<string>, to: string)
    requires s.WellFormed() && id in s.accounts && key in s.accounts[id].peers && to != key
    requires IsListing(order, s.accounts[id].groups.Keys) && EntriesExact(s, to) && RuleIdsDistinct(s)
    ensures var t := Apply(s, DeletePeer(s, id, key, order).change);
      && id in t.accounts
      && (DeletionKeys(t, id, to) == NetworkMapKeys(t, id, to) <==>
          forall q :: q in t.accounts[id].peers && q != to ==> NamedOnBothSides(t, to) && Linked(t.accounts[id], to, q))
  {
    hide Account.WellFormed, StoreState.WellFormed, EntriesExact, RuleIdsDistinct, NetworkMapKeys, Apply;
    hide Linked, Reaches, DeletionKeys, NamedOnBothSides, DeletePeer, Removed;
    var t := Apply(s, DeletePeer(s, id, key, order).change);
    RemovalStored(s, id, key, order);
    DeletionKeepsEntries(s, id, key, order, to);
    DeletionKeepsDistinctIds(s, id, key, order);
    DeletionIsOwnViewExactly(t, id, to);
    forall q ensures SeesNow(t, id, to, q) <==> NamedOnBothSides(t, to) && Linked(t.accounts[id], to, q) {
      SeesByRules(t, id, to, q);
    }
  }

  /** What registerPeer pushes to `to`, in any account and whatever the indexes hold: exactly the peer's own view
      if and only if it sees the new peer, and otherwise the same peers as the new peer does. */
  lemma FanOutIsOwnViewExactly(s: StoreState, acc: string, k: string, to: string)
    requires s.WellFormed() && acc in s.accounts && k in s.accounts[acc].peers && to in NetworkMapKeys(s, acc, k)
    ensures to in s.accounts[acc].peers && to != k
    ensures FanOutKeys(s, acc, k, to) == NetworkMapKeys(s, acc, to) <==>
      && SeesNow(s, acc, to, k)
      && forall q :: q in s.accounts[acc].peers && q != k && q != to ==>
           (SeesNow(s, acc, k, q) <==> SeesNow(s, acc, to, q))
  {
    hide Account.WellFormed, NetworkMapKeys, SeesNow;
    MapInAnyStore(s, acc, k);
    MapInAnyStore(s, acc, to);
    SameOthers(NetworkMapKeys(s, acc, k), NetworkMapKeys(s, acc, to), k, to, s.accounts[acc].peers.Keys);
  }

  lemma SameOthers(ks: set<string>, ts: set<string>, k: string, to: string, peers: set<string>)
    requires ks <= peers - {k} && ts <= peers - {to} && k in peers && to in ks
    ensures {k} + (ks - {to}) == ts <==>
      k in ts && forall q :: q in peers && q != k && q != to ==> (q in ks <==> q in ts)
  {
    if {k} + (ks - {to}) == ts {
      forall q | q in peers && q != k && q != to ensures q in ks <==> q in ts {
        assert q in {k} + (ks - {to}) <==> q in ks;
      }
    }
  }

  /** In terms of the rules, for peers whose entries were exact before the registration: exactly when the rules
      name the recipient on both sides and link the two to the same others. */
  lemma RegistrationPushByRules(s: StoreState, op: Op, id: string, to: string)
    requires s.WellFormed() && AddsTo(s, op, id)
    requires EntriesExact(s, op.req.key) && EntriesExact(s, to) && RuleIdsDistinct(s)
    ensures id in Step(s, op).accounts && op.req.key in Step(s, op).accounts[id].peers
    ensures var t, k := Step(s, op), op.req.key; var b := t.accounts[id];
      to in NetworkMapKeys(t, id, k) ==>
        (FanOutKeys(t, id, k, to) == NetworkMapKeys(t, id, to) <==>
           && NamedOnBothSides(t, to)
           && forall q :: q in b.peers && q != k && q != to ==> (Linked(b, k, q) <==> Linked(b, to, q)))
  {
    hide Account.WellFormed, StoreState.WellFormed, Save, EntriesExact, RuleIdsDistinct, NetworkMapKeys, LocateForAdd;
    hide Linked, Reaches, FanOutKeys, NamedOnBothSides, Step, Enabled, AddPeer;
    var t, k := Step(s, op), op.req.key;
    AdditionStored(s, op, id);
    AdditionKeepsEntries(s, op, id, k);
    AdditionKeepsEntries(s, op, id, to);
    AdditionKeepsDistinctIds(s, op, id);
    if to in NetworkMapKeys(t, id, k) {
      FanOutIsOwnViewExactly(t, id, k, to);
      forall q ensures SeesNow(t, id, k, q) <==> NamedOnBothSides(t, k) && Linked(t.accounts[id], k, q)
               ensures SeesNow(t, id, to, q) <==> NamedOnBothSides(t, to) && Linked(t.accounts[id], to, q)
      {
        SeesByRules(t, id, k, q);
        SeesByRules(t, id, to, q);
      }
      MapInAnyStore(t, id, k);
      LinkedIsSymmetric(t.accounts[id], k, to);
    }
  }

  lemma AdditionStored(s: StoreState, op: Op, id: string)
    requires s.WellFormed() && AddsTo(s, op, id)
    ensures var t := Step(s, op);
      t.WellFormed() && id in t.accounts && t.accounts[id].WellFormed() && op.req.key in t.accounts[id].peers
  {
    hide Account.WellFormed, Save, LocateForAdd, Enabled, ChangeOf, AddPeer;
    AddPeerShape(s, op);
    ChangesWellFormed(s, op);
    SavedWellFormed(s, ChangeOf(s, op).a);
    SaveFields(s, ChangeOf(s, op).a);
  }

  /** Maps read before and after a group or rule edit have one serial. An engine may take them in any order if
      and only if the edit left the peer's map as it was (`LiveMaps.EditKeepsMapsExactly` says when). */
  lemma EditKeepsOneServerExactly(s: StoreState, op: Op, k: string, before: Snapshot, after: Snapshot,
                                  parses: string -> bool)
    requires s.WellFormed() && Enabled(s, op) && IsGroupOrRuleOp(op)
    requires op.accountId in s.accounts && op.accountId in Step(s, op).accounts
    requires Carries(before, k, s.accounts[op.accountId].network.serial, NetworkMapKeys(s, op.accountId, k))
    requires var t := Step(s, op);
      Carries(after, k, t.accounts[op.accountId].network.serial, NetworkMapKeys(t, op.accountId, k))
    requires Engine.AllParse(before.map_, parses) && Engine.AllParse(after.map_, parses)
    ensures before.map_.serial == after.map_.serial
    ensures Engine.OneServer([before.map_, after.map_], parses) <==>
      NetworkMapKeys(Step(s, op), op.accountId, k) == NetworkMapKeys(s, op.accountId, k)
  {
    hide StoreState.WellFormed, NetworkMapKeys, Enabled, Step, Engine.AllParse, Engine.Keys, Engine.OneServer;
    EditsKeepSerials(s, op);
    Engine.OneServerOfTwo(before.map_, after.map_, parses);
  }

  // ----- preservation -----

  lemma SentViewOk(w: World, c: Context, m: Snapshot)
    requires ServerOk(w, c) && m.to in PeerKeys(w.store, c.acc)
    requires Carries(m, m.to, Serial(w, c), PeerKeys(w.store, c.acc) - {m.to})
    requires Routed(m.map_.peers, Addresses(w.store, c.acc))
    ensures SnapshotOk(w, m)
  {
    hide Mesh;
  }

  lemma ManageFacts(w: World, op: Op, notices: set<Snapshot>, w': World, c: Context)
    requires c.acc in w.store.accounts && Next(w, Manage(op, notices), w', c)
    ensures w.store.WellFormed() && Enabled(w.store, op) && Disciplined(w.store, op) && !EditsLists(op, c.acc)
    ensures op.AddPeerOp? ==> c.parses(op.req.key)
    ensures w'.store == Step(w.store, op) && c.acc in w'.store.accounts
    ensures w'.history == if Serial(w', c) == Serial(w, c) then w.history else w.history + [Addresses(w'.store, c.acc)]
    ensures w'.sent == w.sent + notices && w'.clients == w.clients
  {
    hide Step, Enabled, Disciplined, EditsLists, StoreState.WellFormed;
  }

  lemma ManageServer(w: World, op: Op, notices: set<Snapshot>, w': World, c: Context)
    requires ServerOk(w, c) && Next(w, Manage(op, notices), w', c)
    ensures ServerOk(w', c) && w.history <= w'.history
    ensures |w'.history| > |w.history| ==> |w'.history| == |w.history| + 1
  {
    hide Mesh, Next, Step, Enabled, Disciplined, EditsLists, StoreState.WellFormed;
    ServerHasAccount(w, c);
    ManageFacts(w, op, notices, w', c);
    StepKeepsMesh(w.store, op, c.acc, c.g, c.r);
    SamePlacesSameAddresses(w.store, w'.store, c.acc);
    PeersStayParsed(w, op, w', c);
    hide SerialStep;
    assert forall k :: k in Addresses(w'.store, c.acc) <==> k in PeerKeys(w'.store, c.acc);
    assert forall k :: k in Addresses(w.store, c.acc) <==> k in PeerKeys(w.store, c.acc);
  }

  lemma SamePlacesSameAddresses(s: StoreState, t: StoreState, acc: string)
    requires acc in s.accounts && acc in t.accounts && SerialStep(s.accounts[acc], t.accounts[acc])
    ensures t.accounts[acc].network.serial == s.accounts[acc].network.serial ==> Addresses(t, acc) == Addresses(s, acc)
    ensures t.accounts[acc].network.serial - s.accounts[acc].network.serial in {0, 1}
  {
  }

  /** Only AddPeer brings in a key, and its caller has parsed it. */
  lemma PeersStayParsed(w: World, op: Op, w': World, c: Context)
    requires Mesh(w.store, c.acc, c.g, c.r) && Enabled(w.store, op) && Disciplined(w.store, op)
    requires !EditsLists(op, c.acc)
    requires w'.store == Step(w.store, op) && c.acc in w'.store.accounts
    ensures forall k :: k in PeerKeys(w'.store, c.acc) ==>
              k in PeerKeys(w.store, c.acc) || (op.AddPeerOp? && k == op.req.key)
  {
    if op.RestartOp? {
      RestartKeepsMesh(w.store, op, c.acc, c.g, c.r);
      return;
    }
    OnlyAddPeerAddsKeys(w.store, op, c.acc);
    AccountsAfter(w.store, ChangeOf(w.store, op));
    hide Agree, Covers, AllToAll, ChangeOf, Apply, Enabled, Disciplined, EditsLists;
  }

  lemma OnlyAddPeerAddsKeys(s: StoreState, op: Op, acc: string)
    requires s.WellFormed() && Enabled(s, op) && Disciplined(s, op) && !op.RestartOp? && acc in s.accounts
    ensures var ch := ChangeOf(s, op); !ch.NoChange? && ch.a.id == acc ==>
      forall k :: k in ch.a.peers ==> k in s.accounts[acc].peers || (op.AddPeerOp? && k == op.req.key)
  {
    hide Account.WellFormed, FreeIps, Upper, LocateForAdd, ChangeOf, AddPeer;
    if op.AddPeerOp? {
      AddPeerShape(s, op);
    } else if op.DeletePeerOp? {
      DeletePeerShape(s, op);
    } else if IsInPlaceOp(op) {
      InPlaceOpShape(s, op);
    } else if IsAccountOp(op) {
      AccountOpShape(s, op);
    } else if IsKeyOp(op) {
      KeyOpShape(s, op);
    } else {
      GroupOrRuleOpShape(s, op);
    }
  }

  lemma DeletionNoticesOk(w: World, op: Op, notices: set<Snapshot>, w': World, c: Context)
    requires ServerOk(w, c) && Next(w, Manage(op, notices), w', c) && ServerOk(w', c)
    ensures forall m :: m in notices ==> SnapshotOk(w', m)
  {
    if Deletes(w.store, op, c.acc) {
      DeletedIsGone(w.store, op, c.acc);
      hide Mesh, Step, Enabled, Disciplined, StoreState.WellFormed, SnapshotOk, DeletionNotice;
      ServerHasAccount(w', c);
      forall m | m in notices ensures SnapshotOk(w', m) {
        assert DeletionNotice(w'.store, c.acc, op.key, m);
        DeletionNoticeOk(w', c, op.key, m);
      }
    }
  }

  lemma DeletionNoticeOk(w: World, c: Context, gone: string, m: Snapshot)
    requires c.acc in w.store.accounts && ServerOk(w, c) && gone !in w.store.accounts[c.acc].peers
    requires DeletionNotice(w.store, c.acc, gone, m)
    ensures SnapshotOk(w, m)
  {
    hide Mesh, Routed;
    if m.to in w.store.accounts[c.acc].peers {
      SentViewOk(w, c, m);
    } else {
      NothingRouted(m.map_.peers, w.history[m.map_.serial]);
    }
  }

  lemma NothingRouted(peers: seq<Engine.RemotePeer>, addresses: map<string, Addr>)
    ensures Engine.Keys(peers) == {} ==> Routed(peers, addresses)
  {
    if peers != [] { assert peers[0].key in Engine.Keys(peers); }
  }

  lemma DeletedIsGone(s: StoreState, op: Op, acc: string)
    requires s.WellFormed() && Enabled(s, op) && Deletes(s, op, acc)
    ensures var t := Step(s, op); acc in t.accounts && op.key !in t.accounts[acc].peers
  {
    hide Account.WellFormed, CleanGroups, Save;
    AccountsAfter(s, ChangeOf(s, op));
  }

  /** A longer history leaves what was right about older serials right. */
  lemma OlderStaysOk(w: World, w': World, c: Context)
    requires Inv(w, c) && w.history <= w'.history && w'.clients == w.clients
    ensures forall m :: m in w.sent ==> SnapshotOk(w', m)
    ensures forall k :: k in w.clients ==> ClientOk(w', k, w.clients[k])
  {
    hide Mesh, Engine.ConnsOk;
    forall m | m in w.sent ensures SnapshotOk(w', m) {
      assert SnapshotOk(w, m);
    }
    forall k | k in w.clients ensures ClientOk(w', k, w.clients[k]) {
      assert ClientOk(w, k, w.clients[k]);
    }
  }

  lemma DeliveryOk(w: World, m: Snapshot, w': World, c: Context)
    requires Inv(w, c) && Next(w, Deliver(m), w', c)
    ensures ClientOk(w', m.to, w'.clients[m.to])
  {
    hide ServerOk, Engine.Update, RoutesBack, Engine.ConnsOk, Routed;
    var e := w.clients[m.to];
    assert SnapshotOk(w, m) && ClientOk(w, m.to, e);
    if e.engine.serial <= m.map_.serial {
      ListedParse(w, m, c);
      Engine.UpdateConns(e.engine, m.map_, c.parses);
      DeliveredRoutes(w, m, e.engine, c.parses);
    } else {
      EngineRoutes.UpdateRoutes(e.engine, m.map_, c.parses);
    }
  }

  lemma ListedParse(w: World, m: Snapshot, c: Context)
    requires ServerOk(w, c) && SnapshotOk(w, m)
    ensures Engine.AllParse(m.map_, c.parses)
  {
    hide Mesh, Routed;
  }

  /** Connections that the map brings are routed by it, the others as they were. */
  lemma DeliveredRoutes(w: World, m: Snapshot, e: Engine.EngineState, parses: string -> bool)
    requires SnapshotOk(w, m) && e.serial <= m.map_.serial && Engine.AllParse(m.map_, parses)
    requires forall p :: p in e.conns ==> RoutesBack(w.history, e.serial, p, e.conns[p].allowedIps)
    ensures var r := Engine.Update(e, m.map_, parses).0;
      forall p :: p in r.conns ==> RoutesBack(w.history, r.serial, p, r.conns[p].allowedIps)
  {
    var r := Engine.Update(e, m.map_, parses).0;
    Engine.UpdateConns(e, m.map_, parses);
    EngineRoutes.UpdateRoutes(e, m.map_, parses);
    hide Engine.Update, Engine.Keys, Engine.AllParse, Engine.ConnsOk, RoutesTo;
    forall p | p in r.conns ensures RoutesBack(w.history, r.serial, p, r.conns[p].allowedIps) {
      if p in e.conns {
        assert RoutesBack(w.history, e.serial, p, e.conns[p].allowedIps);
      } else {
        var i: nat :| EngineRoutes.FirstEntry(m.map_.peers, p, i)
          && m.map_.peers[i].allowedIps == r.conns[p].allowedIps;
      }
    }
  }

  lemma ManageKeepsInv(w: World, op: Op, notices: set<Snapshot>, w': World, c: Context)
    requires Inv(w, c) && Next(w, Manage(op, notices), w', c)
    ensures Inv(w', c)
  {
    hide ServerOk, SnapshotOk, ClientOk, Next, Step;
    assert ServerOk(w, c);
    ManageServer(w, op, notices, w', c);
    ServerHasAccount(w, c);
    ManageFacts(w, op, notices, w', c);
    OlderStaysOk(w, w', c);
    DeletionNoticesOk(w, op, notices, w', c);
  }

  lemma ServerHasAccount(w: World, c: Context)
    requires ServerOk(w, c)
    ensures c.acc in w.store.accounts
  {
    hide Agree, Covers, AllToAll;
  }

  lemma FanOutKeepsInv(w: World, k: string, notices: set<Snapshot>, w': World, c: Context)
    requires Inv(w, c) && Next(w, FanOut(k, notices), w', c)
    ensures Inv(w', c)
  {
    hide Mesh, SnapshotOk, ClientOk, NetworkMapKeys, FanOutKeys, Routed;
    SameHistoryOk(w, w', c);
    ServerHasAccount(w, c);
    forall m | m in notices ensures SnapshotOk(w', m) {
      assert FanOutNotice(w.store, c.acc, k, m);
      FanOutIsOwnView(w.store, c.acc, c.g, c.r, k, m.to);
      MeshMap(w.store, c.acc, c.g, c.r, m.to);
      SentViewOk(w', c, m);
    }
  }

  lemma OpenKeepsInv(w: World, k: string, first: Snapshot, w': World, c: Context)
    requires Inv(w, c) && Next(w, OpenStream(k, first), w', c)
    ensures Inv(w', c)
  {
    hide Mesh, SnapshotOk, ClientOk, NetworkMapKeys;
    SameHistoryOk(w, w', c);
    MeshMap(w.store, c.acc, c.g, c.r, k);
    SentViewOk(w', c, first);
  }

  lemma ClientStepKeepsInv(w: World, a: Action, w': World, c: Context)
    requires Inv(w, c) && Next(w, a, w', c) && (a.StartEngine? || a.StopEngine? || a.Deliver?)
    ensures Inv(w', c)
  {
    hide Mesh, SnapshotOk, ClientOk, Engine.Update;
    SameHistoryOk(w, w', c);
    match a
    case StartEngine(k) => NewClientOk(w', k);
    case StopEngine(k) => StoppedOk(w, k);
    case Deliver(m) => DeliveryOk(w, m, w', c);
    case _ =>
  }

  /** Every step of server, network and clients keeps the invariant. */
  lemma NextKeepsInv(w: World, a: Action, w': World, c: Context)
    requires Inv(w, c) && Next(w, a, w', c)
    ensures Inv(w', c)
  {
    hide Inv, Next;
    match a
    case Manage(op, notices) => ManageKeepsInv(w, op, notices, w', c);
    case FanOut(k, notices) => FanOutKeepsInv(w, k, notices, w', c);
    case OpenStream(k, first) => OpenKeepsInv(w, k, first, w', c);
    case StartEngine(k) => ClientStepKeepsInv(w, a, w', c);
    case StopEngine(k) => ClientStepKeepsInv(w, a, w', c);
    case Deliver(m) => ClientStepKeepsInv(w, a, w', c);
  }

  lemma SameHistoryOk(w: World, w': World, c: Context)
    requires w'.history == w.history
    ensures forall m :: SnapshotOk(w', m) <==> SnapshotOk(w, m)
    ensures forall k, e :: ClientOk(w', k, e) <==> ClientOk(w, k, e)
  {
  }

  lemma StoppedOk(w: World, k: string)
    requires k in w.clients && ClientOk(w, k, w.clients[k])
    ensures ClientOk(w, k, Client(Engine.Stopped(w.clients[k].engine), w.clients[k].applied, true))
  {
    hide Engine.ConnsOk;
    Engine.StoppedEngine(w.clients[k].engine);
  }

  lemma NewClientOk(w: World, k: string)
    ensures ClientOk(w, k, Client(Engine.NEW_ENGINE, false, false))
  {
  }

  // ----- whole runs -----

  ghost predicate IsBehavior(ws: seq<World>, actions: seq<Action>, c: Context) {
    && |ws| == |actions| + 1
    && Init(ws[0], c)
    && (forall i :: 0 <= i < |ws| ==> c.acc in ws[i].store.accounts)
    && (forall i :: 0 <= i < |actions| ==> Next(ws[i], actions[i], ws[i + 1], c))
  }

  lemma InitInv(w: World, c: Context)
    requires Init(w, c)
    ensures Inv(w, c)
  {
    hide Mesh;
  }

  lemma {:induction false} BehaviorInv(ws: seq<World>, actions: seq<Action>, c: Context, n: nat)
    requires IsBehavior(ws, actions, c) && n < |ws|
    ensures Inv(ws[n], c)
  {
    hide Init, Next, Inv;
    if n == 0 {
      InitInv(ws[0], c);
    } else {
      BehaviorInv(ws, actions, c, n - 1);
      assert Next(ws[n - 1], actions[n - 1], ws[n], c);
      NextKeepsInv(ws[n - 1], actions[n - 1], ws[n], c);
    }
  }

  /** Snapshot consistency. Whatever is registered, deleted, streamed, lost, repeated, reordered, stopped or
      restarted, an engine that has applied a map has a serial the server has reached, and it is connected to
      exactly the peers registered at that serial other than itself, or to none if it was not registered then.
      Only a stopped engine may have no connections instead. Every connection routes to an address that its peer
      had at that serial or before. */
  lemma SnapshotConsistency(ws: seq<World>, actions: seq<Action>, c: Context, n: nat, k: string)
    requires IsBehavior(ws, actions, c) && n < |ws| && k in ws[n].clients && ws[n].clients[k].applied
    ensures var w, e := ws[n], ws[n].clients[k].engine;
      && e.serial <= Serial(w, c) && |w.history| == Serial(w, c) + 1
      && (e.conns.Keys == ViewAt(w.history, e.serial, k) || (w.clients[k].stopped && e.conns == map[]))
      && forall p :: p in e.conns ==> RoutesBack(w.history, e.serial, p, e.conns[p].allowedIps)
  {
    hide Mesh, Init, Next, RoutesBack;
    BehaviorInv(ws, actions, c, n);
    assert ClientOk(ws[n], k, ws[n].clients[k]);
  }

  /** So while peers keep their addresses, every connection routes to the one its peer has. Otherwise an engine
      may keep an older one: `EngineRoutes.NewAddressIsMissed`. */
  lemma RoutesAreCurrent(ws: seq<World>, actions: seq<Action>, c: Context, n: nat, k: string, p: string)
    requires IsBehavior(ws, actions, c) && n < |ws| && k in ws[n].clients && ws[n].clients[k].applied
    requires p in ws[n].clients[k].engine.conns
    requires forall i, j :: 0 <= i < j < |ws[n].history| && p in ws[n].history[i] && p in ws[n].history[j] ==>
      ws[n].history[i][p] == ws[n].history[j][p]
    ensures var w, e := ws[n], ws[n].clients[k].engine;
      && e.serial < |w.history| && p in w.history[e.serial]
      && RoutesTo(e.conns[p].allowedIps, w.history[e.serial][p])
  {
    hide IsBehavior, RoutesTo;
    SnapshotConsistency(ws, actions, c, n, k);
    var w, e := ws[n], ws[n].clients[k].engine;
    assert RoutesBack(w.history, e.serial, p, e.conns[p].allowedIps);
    var i :| 0 <= i <= e.serial && i < |w.history| && p in w.history[i]
      && RoutesTo(e.conns[p].allowedIps, w.history[i][p]);
  }

  lemma HistoryGrows(w: World, a: Action, w': World, c: Context)
    requires Inv(w, c) && Next(w, a, w', c)
    ensures w.history <= w'.history
  {
    hide Mesh, SnapshotOk, ClientOk, Engine.Update;
    if a.Manage? { ManageServer(w, a.op, a.notices, w', c); }
  }

  lemma InvHistory(w: World, c: Context)
    requires Inv(w, c)
    ensures c.acc in w.store.accounts
    ensures |w.history| == Serial(w, c) + 1 && w.history[Serial(w, c)] == Addresses(w.store, c.acc)
  {
    hide Agree, Covers, AllToAll, SnapshotOk, ClientOk;
  }

  /** The history is the record it claims to be: at every earlier moment of the behaviour, the entry at
      the server's serial of that moment has the peers and addresses of that moment. */
  lemma {:induction false} HistoryIsTrue(ws: seq<World>, actions: seq<Action>, c: Context, m: nat, n: nat)
    requires IsBehavior(ws, actions, c) && m <= n < |ws|
    ensures Serial(ws[m], c) < |ws[n].history| && ws[n].history[Serial(ws[m], c)] == Addresses(ws[m].store, c.acc)
  {
    hide Init, Next, Inv;
    if m == n {
      BehaviorInv(ws, actions, c, n);
      InvHistory(ws[n], c);
    } else {
      HistoryIsTrue(ws, actions, c, m, n - 1);
      BehaviorInv(ws, actions, c, n - 1);
      assert Next(ws[n - 1], actions[n - 1], ws[n], c);
      HistoryGrows(ws[n - 1], actions[n - 1], ws[n], c);
    }
  }
}
