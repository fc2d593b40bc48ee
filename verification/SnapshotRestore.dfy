/** Restoring listeners and sockets from a serialized snapshot: TLS is all or nothing, the rest is best effort. */
module SnapshotRestore {
  import opened Wrappers
  import opened Tables
  import opened ResourceQuota
  import opened ProcessState
  import opened TlsPreflight
  import TlsCredentials

  datatype Snapshot = Snapshot(
    tcpListeners: map<nat, Entry>, tcpStreams: map<nat, Entry>,
    tlsListeners: map<nat, Entry>, tlsStreams: map<nat, Entry>, udpSockets: map<nat, Entry>)
  {
    predicate IsEmpty() {
      tcpListeners == map[] && tcpStreams == map[] && tlsListeners == map[] && tlsStreams == map[] && udpSockets == map[]
    }
  }

  // ---------------------------------------------------------------- filling a table

  /** A table that holds exactly `items`, under consecutive IDs from `seed` on. */
  ghost function Numbered<T>(seed: nat, items: seq<T>): map<nat, T> {
    if items == [] then map[]
    else
      var n := |items| - 1;
      Numbered(seed, items[..n])[seed + n := items[n]]
  }

  lemma {:induction false} NumberedHolds<T>(seed: nat, items: seq<T>)
    ensures var r := Numbered(seed, items);
      && |r| == |items|
      && (forall t :: t in r <==> seed <= t < seed + |items|)
      && forall t :: t in r ==> r[t] == items[t - seed]
  {
    if items != [] {
      var n := |items| - 1;
      NumberedHolds(seed, items[..n]);
      var front := Numbered(seed, items[..n]);
      assert front[seed + n := items[n]].Keys == front.Keys + {seed + n};
    }
  }

  /** The table was empty when its next ID was `seed`, and has since been given `items`. */
  ghost predicate Filed<T>(table: HashMapId<T>, seed: nat, items: seq<T>)
    reads table
  {
    table.store == Numbered(seed, items) && table.idSeed == seed + |items| && |table.store| == |items|
  }

  method FileOne<T>(table: HashMapId<T>, item: T, ghost seed: nat, ghost items: seq<T>)
    requires table.Valid() && Filed(table, seed, items)
    modifies table
    ensures table.Valid() && Filed(table, seed, items + [item])
  {
    var _ := table.Add(item);
    assert (items + [item])[..|items|] == items;
  }

  /** The prepared listeners and their leases move into the table; no count changes. */
  method InstallTls(table: HashMapId<TlsListener>, prepared: seq<TlsListener>)
    requires table.Valid() && table.store == map[]
    modifies table
    ensures table.Valid() && Filed(table, old(table.idSeed), prepared)
  {
    ghost var seed := table.idSeed;
    for k := 0 to |prepared|
      invariant table.Valid() && Filed(table, seed, prepared[..k])
    {
      FileOne(table, prepared[k], seed, prepared[..k]);
      assert prepared[..k + 1] == prepared[..k] + [prepared[k]];
    }
    assert prepared[..|prepared|] == prepared;
  }

  // ---------------------------------------------------------------- TCP listeners and UDP sockets

  /** The address an entry binds, if it is of the right kind, parses, and its bind works. */
  function Bound(entries: map<nat, Entry>, id: nat, udp: bool, w: World): Option<Addr> {
    if id !in entries then None
    else
      match entries[id]
      case TcpEntry(addr) => if !udp && w.tcpBinds(id) then w.parse(addr) else None
      case UdpEntry(addr) => if udp && w.udpBinds(id) then w.parse(addr) else None
      case _ => None
  }

  /** The sockets restored in this order of entries: the usable ones, for as long as there is room. */
  ghost function Sockets(entries: map<nat, Entry>, udp: bool, w: World, ids: seq<nat>, room: int): seq<Addr> {
    if ids == [] then []
    else
      var front := Sockets(entries, udp, w, ids[..|ids| - 1], room);
      var addr := Bound(entries, ids[|ids| - 1], udp, w);
      if addr.Some? && |front| < room then front + [addr.value] else front
  }

  lemma SocketsNext(entries: map<nat, Entry>, udp: bool, w: World, ids: seq<nat>, k: nat, room: int)
    requires k < |ids|
    ensures var front, addr := Sockets(entries, udp, w, ids[..k], room), Bound(entries, ids[k], udp, w);
      Sockets(entries, udp, w, ids[..k + 1], room) == if addr.Some? && |front| < room then front + [addr.value] else front
  {
    assert ids[..k + 1][..k] == ids[..k];
  }

  function Usable(entries: map<nat, Entry>, udp: bool, w: World): set<nat> {
    set id | id in entries && Bound(entries, id, udp, w).Some?
  }

  ghost function UsableAmong(entries: map<nat, Entry>, udp: bool, w: World, ids: seq<nat>): set<nat> {
    set id | id in ids && Bound(entries, id, udp, w).Some?
  }

  lemma UsableSnoc(entries: map<nat, Entry>, udp: bool, w: World, ids: seq<nat>, id: nat)
    requires id !in ids
    ensures |UsableAmong(entries, udp, w, ids + [id])|
         == |UsableAmong(entries, udp, w, ids)| + (if Bound(entries, id, udp, w).Some? then 1 else 0)
  {
    var a, b := UsableAmong(entries, udp, w, ids), UsableAmong(entries, udp, w, ids + [id]);
    if Bound(entries, id, udp, w).Some? {
      assert b == a + {id};
    } else {
      assert b == a;
    }
  }

  lemma {:induction false} SocketsFill(entries: map<nat, Entry>, udp: bool, w: World, ids: seq<nat>, room: nat)
    requires forall i, j :: 0 <= i < j < |ids| ==> ids[i] != ids[j]
    ensures |Sockets(entries, udp, w, ids, room)| == Min(room, |UsableAmong(entries, udp, w, ids)|)
  {
    if ids != [] {
      var front, id := ids[..|ids| - 1], ids[|ids| - 1];
      SocketsFill(entries, udp, w, front, room);
      assert ids == front + [id];
      UsableSnoc(entries, udp, w, front, id);
    }
  }

  /** Whatever the order, as many sockets come back as are usable or as there is room for. */
  lemma SocketsFillRoom(entries: map<nat, Entry>, udp: bool, w: World, ids: seq<nat>, room: nat)
    requires Enumerates(ids, entries)
    ensures |Sockets(entries, udp, w, ids, room)| == Min(room, |Usable(entries, udp, w)|)
  {
    EnumeratesEachOnce(ids, entries);
    SocketsFill(entries, udp, w, ids, room);
    assert UsableAmong(entries, udp, w, ids) == Usable(entries, udp, w);
  }

  /** One entry: address, lease, bind, table; a lease that does not end in the table is given back. */
  method RestoreOne(stats: ResourceStats, table: HashMapId<Addr>, entries: map<nat, Entry>, id: nat, udp: bool, w: World,
                    ghost seed: nat, ghost items: seq<Addr>)
    returns (added: bool)
    requires table.Valid() && Filed(table, seed, items) && id in entries
    modifies stats, table
    ensures added <==> Bound(entries, id, udp, w).Some? && old(stats.counts).Room() > 0
    ensures stats.counts == if added then old(stats.counts).Plus(1) else old(stats.counts)
    ensures table.Valid() && Filed(table, seed, if added then items + [Bound(entries, id, udp, w).value] else items)
  {
    var e := entries[id];
    if !(if udp then e.UdpEntry? else e.TcpEntry?) {
      return false;
    }
    var addr := w.parse(e.localAddr);
    if addr.None? {
      return false;
    }
    var leased := stats.ReserveHandle();
    if !leased {
      return false;
    }
    if !(if udp then w.udpBinds(id) else w.tcpBinds(id)) {
      stats.DropLeases(1);
      return false;
    }
    FileOne(table, addr.value, seed, items);
    return true;
  }

  /** One turn of the loop. */
  method RestoreNext(stats: ResourceStats, table: HashMapId<Addr>, entries: map<nat, Entry>, ids: seq<nat>, k: nat, udp: bool, w: World,
                     ghost room: int, ghost counts: Counts, ghost seed: nat, ghost items: seq<Addr>)
    returns (ghost more: seq<Addr>)
    requires table.Valid() && Filed(table, seed, items) && k < |ids| && ids[k] in entries
    requires items == Sockets(entries, udp, w, ids[..k], room)
    requires room == counts.Room() && |items| <= room && stats.counts == counts.Plus(|items|)
    modifies stats, table
    ensures table.Valid() && Filed(table, seed, more)
    ensures more == Sockets(entries, udp, w, ids[..k + 1], room)
    ensures |more| <= room && stats.counts == counts.Plus(|more|)
  {
    SocketsNext(entries, udp, w, ids, k, room);
    var added := RestoreOne(stats, table, entries, ids[k], udp, w, seed, items);
    more := if added then items + [Bound(entries, ids[k], udp, w).value] else items;
  }

  method RestoreSockets(stats: ResourceStats, table: HashMapId<Addr>, entries: map<nat, Entry>, ids: seq<nat>, udp: bool, w: World,
                        ghost room: int)
    returns (ghost items: seq<Addr>)
    requires table.Valid() && table.store == map[] && Enumerates(ids, entries)
    requires stats.counts.Valid() && room == stats.counts.Room()
    modifies stats, table
    ensures table.Valid() && stats.counts.Valid()
    ensures Filed(table, old(table.idSeed), items) && items == Sockets(entries, udp, w, ids, room)
    ensures |items| <= room && stats.counts == old(stats.counts).Plus(|items|)
  {
    EnumeratesEachOnce(ids, entries);
    ghost var seed, counts := table.idSeed, stats.counts;
    items := [];
    for k := 0 to |ids|
      invariant items == Sockets(entries, udp, w, ids[..k], room) && |items| <= room
      invariant table.Valid() && Filed(table, seed, items)
      invariant stats.counts == counts.Plus(|items|)
    {
      items := RestoreNext(stats, table, entries, ids, k, udp, w, room, counts, seed, items);
    }
    assert ids[..|ids|] == ids;
  }

  // ---------------------------------------------------------------- the whole restore

  function TlsPlan(snapshot: Snapshot, scope: TlsCredentials.Scope, w: World): Plan { Plan(snapshot.tlsListeners, scope, w) }

  /** Beyond an empty snapshot, a restore needs no TLS stream, a target without network resources, and ready TLS entries. */
  predicate Restorable(snapshot: Snapshot, was: Books, scope: TlsCredentials.Scope, before: Credentials, w: World) {
    Admissible(snapshot, was, w) && AllReady(TlsPlan(snapshot, scope, w), before, was.counts.Room())
  }

  /** What is checked before the first credential is taken. */
  predicate Admissible(snapshot: Snapshot, was: Books, w: World) {
    && snapshot.tlsStreams == map[]
    && was.LiveNetworkHandles() == 0 && was.counts.openNetworkConnections == 0
    && w.hasRuntime
  }

  /** The IDs the three tables hand out next, the order in which entries were visited, and how many TLS entries were prepared. */
  datatype Visit = Visit(tlsSeed: nat, tcpSeed: nat, udpSeed: nat, tls: seq<nat>, tcp: seq<nat>, udp: seq<nat>, prepared: nat)

  ghost predicate Visits(v: Visit, snapshot: Snapshot) {
    Enumerates(v.tls, snapshot.tlsListeners) && Enumerates(v.tcp, snapshot.tcpListeners) && Enumerates(v.udp, snapshot.udpSockets)
  }

  /** What a restore puts into the three tables, in order, and the room left for TCP and then for UDP. */
  datatype Gain = Gain(tls: seq<TlsListener>, tcp: seq<Addr>, udp: seq<Addr>, tcpRoom: int, udpRoom: int)

  /** The TLS listeners as prepared, then TCP and UDP sockets for as long as there is room. */
  ghost predicate Gains(g: Gain, snapshot: Snapshot, v: Visit, p: Plan, before: Credentials, room: int) {
    var prepared := Prepared(p, v.tls, before);
    && prepared.Some? && g.tls == prepared.value.0
    && g.tcpRoom == room - |p.entries| && g.udpRoom == g.tcpRoom - |g.tcp|
    && g.tcp == Sockets(snapshot.tcpListeners, false, p.world, v.tcp, g.tcpRoom)
    && g.udp == Sockets(snapshot.udpSockets, true, p.world, v.udp, g.udpRoom)
  }

  /** All TLS listeners, and of the TCP and then the UDP entries as many as can be bound within the ceilings. */
  predicate Fills(g: Gain, snapshot: Snapshot, w: World, room: int) {
    && |g.tls| == |snapshot.tlsListeners|
    && |g.tcp| == Min(room - |g.tls|, |Usable(snapshot.tcpListeners, false, w)|)
    && |g.udp| == Min(room - |g.tls| - |g.tcp|, |Usable(snapshot.udpSockets, true, w)|)
  }

  /**
   What a restore means: every TLS listener is back with its own material; of the TCP and then the
   UDP entries as many are back as can be bound within the ceilings, in whatever order they came.
   */
  lemma GainsMean(g: Gain, snapshot: Snapshot, v: Visit, p: Plan, before: Credentials, room: int)
    requires Visits(v, snapshot) && p.entries == snapshot.tlsListeners && AllReady(p, before, room)
    requires Gains(g, snapshot, v, p, before, room)
    ensures Fills(g, snapshot, p.world, room) && |v.tls| == |g.tls| && Listened(p, v.tls, |v.tls|, before, g.tls)
  {
    TlsGains(v.tls, p, before);
    SocketGains(g, snapshot, v, p.world);
  }

  lemma GainsFill(g: Gain, snapshot: Snapshot, v: Visit, p: Plan, before: Credentials, room: int)
    requires Visits(v, snapshot) && p.entries == snapshot.tlsListeners && AllReady(p, before, room)
    requires Gains(g, snapshot, v, p, before, room)
    ensures Fills(g, snapshot, p.world, room)
  {
    GainsMean(g, snapshot, v, p, before, room);
  }

  lemma TlsGains(ids: seq<nat>, p: Plan, before: Credentials)
    requires Enumerates(ids, p.entries) && Prepared(p, ids, before).Some?
    ensures |ids| == |p.entries| && Listened(p, ids, |ids|, before, Prepared(p, ids, before).value.0)
  {
    EnumeratesEachOnce(ids, p.entries);
    assert ids[..|ids|] == ids;
    PreparedListens(p, ids, |ids|, before);
  }

  lemma SocketGains(g: Gain, snapshot: Snapshot, v: Visit, w: World)
    requires Enumerates(v.tcp, snapshot.tcpListeners) && Enumerates(v.udp, snapshot.udpSockets)
    requires 0 <= g.tcpRoom && g.udpRoom == g.tcpRoom - |g.tcp|
    requires g.tcp == Sockets(snapshot.tcpListeners, false, w, v.tcp, g.tcpRoom)
    requires g.udp == Sockets(snapshot.udpSockets, true, w, v.udp, g.udpRoom)
    ensures |g.tcp| == Min(g.tcpRoom, |Usable(snapshot.tcpListeners, false, w)|)
    ensures |g.udp| == Min(g.udpRoom, |Usable(snapshot.udpSockets, true, w)|)
  {
    SocketsFillRoom(snapshot.tcpListeners, false, w, v.tcp, g.tcpRoom);
    SocketsFillRoom(snapshot.udpSockets, true, w, v.udp, g.udpRoom);
  }

  /** After the preflight nothing fails: TCP, then UDP, then the prepared TLS listeners. */
  method Rebind(stats: ResourceStats, tlsTable: HashMapId<TlsListener>, tcpTable: HashMapId<Addr>, udpTable: HashMapId<Addr>,
                snapshot: Snapshot, w: World, prepared: seq<TlsListener>, tcp: seq<nat>, udp: seq<nat>, ghost room: int)
    returns (ghost g: Gain)
    requires stats.counts.Valid() && tlsTable.Valid() && tcpTable.Valid() && udpTable.Valid() && room == stats.counts.Room()
    requires tlsTable.store == map[] && tcpTable.store == map[] && udpTable.store == map[] && tcpTable != udpTable
    requires Enumerates(tcp, snapshot.tcpListeners) && Enumerates(udp, snapshot.udpSockets)
    modifies stats, tlsTable, tcpTable, udpTable
    ensures stats.counts.Valid() && tlsTable.Valid() && tcpTable.Valid() && udpTable.Valid()
    ensures stats.counts == old(stats.counts).Plus(|g.tcp| + |g.udp|)
    ensures Filed(tlsTable, old(tlsTable.idSeed), g.tls) && g.tls == prepared
    ensures Filed(tcpTable, old(tcpTable.idSeed), g.tcp) && g.tcp == Sockets(snapshot.tcpListeners, false, w, tcp, room)
    ensures Filed(udpTable, old(udpTable.idSeed), g.udp) && g.udp == Sockets(snapshot.udpSockets, true, w, udp, g.udpRoom)
    ensures g.tcpRoom == room && g.udpRoom == room - |g.tcp|
  {
    ghost var first := RestoreSockets(stats, tcpTable, snapshot.tcpListeners, tcp, false, w, room);
    ghost var left := room - |first|;
    ghost var second := RestoreSockets(stats, udpTable, snapshot.udpSockets, udp, true, w, left);
    InstallTls(tlsTable, prepared);
    g := Gain(prepared, first, second, room, left);
  }

  /** The restore proper, once the target is known to be free of network resources; `k` TLS entries were prepared. */
  method RestoreTables(stats: ResourceStats, provider: TlsCredentials.Provider, p: Plan,
                       tlsTable: HashMapId<TlsListener>, tcpTable: HashMapId<Addr>, udpTable: HashMapId<Addr>, snapshot: Snapshot,
                       tls: seq<nat>, tcp: seq<nat>, udp: seq<nat>, ghost before: Credentials, ghost counts: Counts)
    returns (ok: bool, ghost g: Gain, ghost k: nat)
    requires before == provider.credentials && counts == stats.counts && counts.Valid() && provider.Valid()
    requires tlsTable.Valid() && tcpTable.Valid() && udpTable.Valid() && tcpTable != udpTable
    requires tlsTable.store == map[] && tcpTable.store == map[] && udpTable.store == map[]
    requires Enumerates(tls, p.entries) && Enumerates(tcp, snapshot.tcpListeners) && Enumerates(udp, snapshot.udpSockets)
    modifies stats, provider, tlsTable, tcpTable, udpTable
    ensures stats.counts.Valid() && provider.Valid() && tlsTable.Valid() && tcpTable.Valid() && udpTable.Valid()
    ensures ok <==> Prepared(p, tls, before).Some? && |p.entries| <= counts.Room()
    ensures !ok ==> stats.counts == counts && tlsTable.store == map[] && tcpTable.store == map[] && udpTable.store == map[]
    ensures !ok ==> StuckAt(p, tls, k, before, counts.Room()) && provider.credentials == LeftAfter(p, tls, k, before)
    ensures ok ==> stats.counts == counts.Plus(|g.tls| + |g.tcp| + |g.udp|)
    ensures ok ==> Filed(tlsTable, old(tlsTable.idSeed), g.tls)
    ensures ok ==> Filed(tcpTable, old(tcpTable.idSeed), g.tcp) && Filed(udpTable, old(udpTable.idSeed), g.udp)
    ensures ok ==> Prepared(p, tls, before) == Some((g.tls, provider.credentials))
    ensures ok ==> g.tcpRoom == counts.Room() - |p.entries| && g.udpRoom == g.tcpRoom - |g.tcp|
    ensures ok ==> g.tcp == Sockets(snapshot.tcpListeners, false, p.world, tcp, g.tcpRoom)
    ensures ok ==> g.udp == Sockets(snapshot.udpSockets, true, p.world, udp, g.udpRoom)
  {
    g := Gain([], [], [], 0, 0);
    var prepared;
    ok, prepared, k := Preflight(stats, provider, p, tls, before, counts);
    if ok {
      g := Rebind(stats, tlsTable, tcpTable, udpTable, snapshot, p.world, prepared, tcp, udp, counts.Room() - |p.entries|);
    }
  }

  /** Open network handles are exactly the live table entries, one descriptor and one network unit each; nothing else moved. */
  predicate Paid(now: Books, was: Books) {
    && now.counts.openNetworkConnections == now.LiveNetworkHandles()
    && now.counts == was.counts.Plus(now.LiveNetworkHandles())
    && now == was.(tlsListeners := now.tlsListeners, tcpListeners := now.tcpListeners, udpSockets := now.udpSockets, counts := now.counts)
  }

  /** The books after a restore. */
  ghost function Grown(was: Books, v: Visit, g: Gain): Books {
    was.(tlsListeners := Numbered(v.tlsSeed, g.tls), tcpListeners := Numbered(v.tcpSeed, g.tcp), udpSockets := Numbered(v.udpSeed, g.udp),
         counts := was.counts.Plus(|g.tls| + |g.tcp| + |g.udp|))
  }

  lemma GrownIsPaid(was: Books, v: Visit, g: Gain)
    requires was.LiveNetworkHandles() == 0 && was.counts.openNetworkConnections == 0
    ensures Paid(Grown(was, v, g), was)
  {
    NumberedHolds(v.tlsSeed, g.tls);
    NumberedHolds(v.tcpSeed, g.tcp);
    NumberedHolds(v.udpSeed, g.udp);
  }

  /** Every credential after a restore that got as far as the preflight. */
  ghost predicate Spent(p: Plan, v: Visit, before: Credentials, room: int, ok: bool, now: Credentials) {
    if ok then Prepared(p, v.tls, before).Some? && now == Prepared(p, v.tls, before).value.1
    else StuckAt(p, v.tls, v.prepared, before, room) && now == LeftAfter(p, v.tls, v.prepared, before)
  }

  /** Whether it succeeded or not, no credential was touched that the snapshot does not name. */
  lemma SpentSpares(p: Plan, v: Visit, before: Credentials, room: int, ok: bool, now: Credentials)
    requires Spent(p, v, before, room, ok, now)
    ensures Spared(p, before, now)
  {
    if ok {
      assert v.tls[..|v.tls|] == v.tls;
      LeftIsSpared(p, v.tls, |v.tls|, before);
    } else {
      LeftIsSpared(p, v.tls, v.prepared, before);
    }
  }

  /** The restore into a process that holds no network resource. */
  method RestoreInto(s: State, snapshot: Snapshot, p: Plan, tls: seq<nat>, tcp: seq<nat>, udp: seq<nat>,
                     ghost was: Books, ghost before: Credentials)
    returns (ok: bool, ghost v: Visit, ghost g: Gain)
    requires Sound(s.Owned()) && s.credentials.Valid() && was == Ledger(s.Owned()) && before == s.credentials.credentials
    requires was.LiveNetworkHandles() == 0
    requires Enumerates(tls, p.entries) && Enumerates(tcp, snapshot.tcpListeners) && Enumerates(udp, snapshot.udpSockets)
    modifies s.stats, s.credentials, s.resources.tcpListeners, s.resources.udpSockets, s.resources.tlsListeners
    ensures Sound(s.Owned()) && s.credentials.Valid()
    ensures ok <==> Prepared(p, tls, before).Some? && |p.entries| <= was.counts.Room()
    ensures v.tls == tls && v.tcp == tcp && v.udp == udp
    ensures Spent(p, v, before, was.counts.Room(), ok, s.credentials.credentials)
    ensures Ledger(s.Owned()) == if ok then Grown(was, v, g) else was
    ensures ok ==> Gains(g, snapshot, v, p, before, was.counts.Room())
  {
    var r := s.resources;
    v := Visit(r.tlsListeners.idSeed, r.tcpListeners.idSeed, r.udpSockets.idSeed, tls, tcp, udp, 0);
    ghost var k;
    ok, g, k := RestoreTables(s.stats, s.credentials, p, r.tlsListeners, r.tcpListeners, r.udpSockets, snapshot, tls, tcp, udp,
                              before, was.counts);
    v := v.(prepared := k);
  }

  /**
   `restore_resource_snapshot`: on error the books are as before, and a refusal before the preflight
   takes no credential; on success every live handle is paid for.
   */
  method RestoreResourceSnapshot(s: State, snapshot: Snapshot, w: World) returns (ok: bool, ghost v: Visit, ghost g: Gain)
    requires Sound(s.Owned()) && s.credentials.Valid()
    modifies s.stats, s.credentials, s.resources.tcpListeners, s.resources.udpSockets, s.resources.tlsListeners
    ensures Sound(s.Owned()) && s.credentials.Valid()
    ensures ok <==> snapshot.IsEmpty() || Restorable(snapshot, old(Ledger(s.Owned())), s.scope, old(s.credentials.credentials), w)
    ensures !ok || snapshot.IsEmpty() ==> Ledger(s.Owned()) == old(Ledger(s.Owned()))
    ensures snapshot.IsEmpty() || !Admissible(snapshot, old(Ledger(s.Owned())), w) ==>
      s.credentials.credentials == old(s.credentials.credentials)
    ensures !snapshot.IsEmpty() && Admissible(snapshot, old(Ledger(s.Owned())), w) ==>
      && Visits(v, snapshot)
      && Spent(TlsPlan(snapshot, s.scope, w), v, old(s.credentials.credentials), old(s.stats.counts).Room(), ok, s.credentials.credentials)
    ensures !ok && Admissible(snapshot, old(Ledger(s.Owned())), w) ==>
      && v.tls != []
      && (s.credentials.credentials == old(s.credentials.credentials)
          <==> !Takes(TlsPlan(snapshot, s.scope, w), v.tls[0], old(s.credentials.credentials)))
    ensures ok && !snapshot.IsEmpty() ==> Paid(Ledger(s.Owned()), old(Ledger(s.Owned())))
    ensures ok && !snapshot.IsEmpty() ==>
      && Gains(g, snapshot, v, TlsPlan(snapshot, s.scope, w), old(s.credentials.credentials), old(s.stats.counts).Room())
      && Ledger(s.Owned()) == Grown(old(Ledger(s.Owned())), v, g)
    // all TLS listeners are back, and of the others as many as can be bound within the ceilings
    ensures ok && !snapshot.IsEmpty() ==> Fills(g, snapshot, w, old(s.stats.counts).Room())
    ensures Spared(TlsPlan(snapshot, s.scope, w), old(s.credentials.credentials), s.credentials.credentials)
  {
    ghost var before := s.credentials.credentials;
    v, g := Visit(0, 0, 0, [], [], [], 0), Gain([], [], [], 0, 0);
    if snapshot.IsEmpty() {
      return true, v, g;
    }
    var books, p := Ledger(s.Owned()), TlsPlan(snapshot, s.scope, w);
    if snapshot.tlsStreams != map[] || books.LiveNetworkHandles() != 0 || books.counts.openNetworkConnections != 0 || !w.hasRuntime {
      return false, v, g;
    }
    var tls := Enumerate(snapshot.tlsListeners);
    var tcp := Enumerate(snapshot.tcpListeners);
    var udp := Enumerate(snapshot.udpSockets);
    PreflightDecides(p, tls, before, books.counts.Room());
    ok, v, g := RestoreInto(s, snapshot, p, tls, tcp, udp, books, before);
    GrownIsPaid(books, v, g);
    SpentSpares(p, v, before, books.counts.Room(), ok, s.credentials.credentials);
    if ok {
      GainsFill(g, snapshot, v, p, before, books.counts.Room());
    } else {
      FailureIsFreeExactly(p, v.tls, v.prepared, before, books.counts.Room());
    }
  }
}
