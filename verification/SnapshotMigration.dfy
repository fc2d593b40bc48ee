/** A snapshot taken of one process and restored into another: what comes back. */
module SnapshotMigration {
  import opened Wrappers
  import opened ProcessState
  import opened TlsPreflight
  import opened SnapshotRestore
  import opened SnapshotCapture
  import TlsCredentials

  // ---------------------------------------------------------------- capturing everything

  function CapturedTcp(table: map<nat, Addr>, known: nat -> bool, render: Addr -> string): map<nat, Entry> {
    map id | id in table :: if known(id) then TcpEntry(render(table[id])) else OtherEntry
  }

  function CapturedUdp(table: map<nat, Addr>, known: nat -> bool, render: Addr -> string): map<nat, Entry> {
    map id | id in table :: if known(id) then UdpEntry(render(table[id])) else OtherEntry
  }

  /** Streams are recorded but never come back. */
  function CapturedStreams(table: map<nat, Token>): map<nat, Entry> { map id | id in table :: OtherEntry }

  /** The snapshot of a process whose TLS listeners were captured as `tls`. */
  function SnapshotOf(books: Books, tls: map<nat, Entry>, e: Surroundings, known: nat -> bool): Snapshot {
    Snapshot(CapturedTcp(books.tcpListeners, known, e.render), CapturedStreams(books.tcpStreams), tls,
             CapturedStreams(books.tlsStreams), CapturedUdp(books.udpSockets, known, e.render))
  }

  /** A snapshot is empty exactly if there is no network handle to capture. */
  lemma EmptyMeansIdle(books: Books, tls: map<nat, Entry>, e: Surroundings, known: nat -> bool)
    requires tls.Keys == books.tlsListeners.Keys
    ensures SnapshotOf(books, tls, e, known).IsEmpty() <==> books.LiveNetworkHandles() == 0
  {
    var s := SnapshotOf(books, tls, e, known);
    assert s.tcpListeners.Keys == books.tcpListeners.Keys && s.tcpStreams.Keys == books.tcpStreams.Keys;
    assert s.udpSockets.Keys == books.udpSockets.Keys && s.tlsStreams.Keys == books.tlsStreams.Keys;
  }

  // ---------------------------------------------------------------- what comes back

  /** The items of a table in this order. */
  ghost function InOrder<T>(table: map<nat, T>, ids: seq<nat>): (items: seq<T>)
    requires forall id :: id in ids ==> id in table
  {
    seq(|ids|, i requires 0 <= i < |ids| => table[ids[i]])
  }

  /** The new table holds exactly the items of the old one, each once, under consecutive IDs in some order. */
  ghost predicate Renumbered<T>(now: map<nat, T>, was: map<nat, T>) {
    exists seed, ids :: RenumberedBy(now, was, seed, ids)
  }

  ghost predicate RenumberedBy<T>(now: map<nat, T>, was: map<nat, T>, seed: nat, ids: seq<nat>) {
    Enumerates(ids, was) && (forall id :: id in ids ==> id in was) && now == Numbered(seed, InOrder(was, ids))
  }

  /** With every entry bound and room for all, the sockets come back one for one. */
  lemma {:induction false} AllSockets(entries: map<nat, Entry>, table: map<nat, Addr>, udp: bool, w: World, ids: seq<nat>, room: int)
    requires forall id :: id in ids ==> id in table && Bound(entries, id, udp, w) == Some(table[id])
    requires |ids| <= room
    ensures Sockets(entries, udp, w, ids, room) == InOrder(table, ids)
  {
    if ids != [] {
      var front := ids[..|ids| - 1];
      AllSockets(entries, table, udp, w, front, room);
      assert InOrder(table, ids) == InOrder(table, front) + [table[ids[|ids| - 1]]];
    }
  }

  /** Addresses survive printing and parsing, and the entry of each socket binds. */
  ghost predicate Bindable(books: Books, e: Surroundings, known: nat -> bool, w: World) {
    && (forall a: Addr :: w.parse(e.render(a)) == Some(a))
    && (forall id :: id in books.tcpListeners ==> known(id) && w.tcpBinds(id))
    && (forall id :: id in books.udpSockets ==> known(id) && w.udpBinds(id))
    && (forall id :: id in books.tlsListeners ==> w.tlsBinds(id))
    && AllKnown(books, e)
  }

  /** Every TLS entry is restored after the capture and within one TTL of its beginning. */
  ghost predicate InTime(books: Books, e: Surroundings, w: World, ttl: nat) {
    forall id :: id in books.tlsListeners ==> e.clock(|books.tlsListeners|) <= w.clock(id) < e.clock(0) + ttl
  }

  /** The receiving process has no network resource, a runtime, and room for all listeners and sockets. */
  predicate Receptive(mine: Books, theirs: Books, w: World) {
    && mine.tlsStreams == map[]
    && theirs.LiveNetworkHandles() == 0 && theirs.counts.openNetworkConnections == 0 && w.hasRuntime
    && |mine.tlsListeners| + |mine.tcpListeners| + |mine.udpSockets| <= theirs.counts.Room()
  }

  /** All listeners and sockets are there, each live handle paid for, and nothing else changed. */
  ghost predicate Arrived(now: Books, theirs: Books, mine: Books) {
    && Renumbered(now.tlsListeners, mine.tlsListeners)
    && Renumbered(now.tcpListeners, mine.tcpListeners)
    && Renumbered(now.udpSockets, mine.udpSockets)
    && Paid(now, theirs)
  }

  lemma NothingArrives(theirs: Books, mine: Books)
    requires mine.LiveNetworkHandles() == 0 && theirs.LiveNetworkHandles() == 0 && theirs.counts.openNetworkConnections == 0
    ensures Arrived(theirs, theirs, mine)
  {
    assert RenumberedBy(theirs.tlsListeners, mine.tlsListeners, 0, []);
    assert RenumberedBy(theirs.tcpListeners, mine.tcpListeners, 0, []);
    assert RenumberedBy(theirs.udpSockets, mine.udpSockets, 0, []);
  }

  /** When and with what the TLS listeners were captured. */
  ghost predicate Captured(books: Books, tls: map<nat, Entry>, issued: map<nat, nat>, e: Surroundings, scope: TlsCredentials.Scope,
                           ttl: nat, last: nat, now: Credentials)
  {
    && tls.Keys == books.tlsListeners.Keys && issued.Keys == tls.Keys && last <= e.clock(|books.tlsListeners|)
    && Recorded(books.tlsListeners, tls, issued, e)
    && Live(books.tlsListeners, tls, issued, scope, ttl, last, now) && Distinct(tls, issued, ttl, last)
    && forall id :: id in issued ==> e.clock(0) <= issued[id]
  }

  lemma CapturedComesBack(books: Books, tls: map<nat, Entry>, issued: map<nat, nat>, e: Surroundings, known: nat -> bool,
                          scope: TlsCredentials.Scope, ttl: nat, last: nat, now: Credentials, w: World, theirs: Books)
    requires Captured(books, tls, issued, e, scope, ttl, last, now)
    requires Bindable(books, e, known, w) && InTime(books, e, w, ttl) && Receptive(books, theirs, w)
    ensures var snapshot := SnapshotOf(books, tls, e, known); var p := TlsPlan(snapshot, scope, w);
      && Restorable(snapshot, theirs, scope, now, w)
      && forall id :: id in tls ==> Ready(p, id, now) && Listener(p, id, now) == books.tlsListeners[id]
  {
    CapturedIsReady(books.tlsListeners, tls, issued, e, scope, ttl, last, now, w, theirs.counts.Room());
    assert |tls| == |tls.Keys| == |books.tlsListeners.Keys|;
    assert CapturedStreams(books.tlsStreams) == map[];
  }

  /** The listeners and sockets a restore of such a snapshot gains are the captured ones, in the order of the visit. */
  lemma GainsAreThoseCaptured(books: Books, tls: map<nat, Entry>, e: Surroundings, known: nat -> bool, scope: TlsCredentials.Scope,
                              now: Credentials, w: World, theirs: Books, v: Visit, g: Gain)
    requires tls.Keys == books.tlsListeners.Keys && Bindable(books, e, known, w) && Receptive(books, theirs, w)
    requires var snapshot := SnapshotOf(books, tls, e, known); var p := TlsPlan(snapshot, scope, w);
      && Restorable(snapshot, theirs, scope, now, w) && Visits(v, snapshot)
      && Gains(g, snapshot, v, p, now, theirs.counts.Room())
      && forall id :: id in tls ==> Ready(p, id, now) && Listener(p, id, now) == books.tlsListeners[id]
    ensures Arrived(Grown(theirs, v, g), theirs, books)
  {
    var snapshot := SnapshotOf(books, tls, e, known);
    TlsArrives(books, tls, snapshot, scope, now, w, theirs, v, g);
    TcpAndUdpArrive(books, e, known, w, v, g);
    AllArrive(books, theirs, v, g);
  }

  lemma AllArrive(books: Books, theirs: Books, v: Visit, g: Gain)
    requires theirs.LiveNetworkHandles() == 0 && theirs.counts.openNetworkConnections == 0
    requires RenumberedBy(Numbered(v.tlsSeed, g.tls), books.tlsListeners, v.tlsSeed, v.tls)
    requires RenumberedBy(Numbered(v.tcpSeed, g.tcp), books.tcpListeners, v.tcpSeed, v.tcp)
    requires RenumberedBy(Numbered(v.udpSeed, g.udp), books.udpSockets, v.udpSeed, v.udp)
    ensures Arrived(Grown(theirs, v, g), theirs, books)
  {
    GrownIsPaid(theirs, v, g);
  }

  lemma TcpAndUdpArrive(books: Books, e: Surroundings, known: nat -> bool, w: World, v: Visit, g: Gain)
    requires Bindable(books, e, known, w)
    requires Enumerates(v.tcp, CapturedTcp(books.tcpListeners, known, e.render))
    requires Enumerates(v.udp, CapturedUdp(books.udpSockets, known, e.render))
    requires |books.tcpListeners| + |books.udpSockets| <= g.tcpRoom && g.udpRoom == g.tcpRoom - |g.tcp|
    requires g.tcp == Sockets(CapturedTcp(books.tcpListeners, known, e.render), false, w, v.tcp, g.tcpRoom)
    requires g.udp == Sockets(CapturedUdp(books.udpSockets, known, e.render), true, w, v.udp, g.udpRoom)
    ensures RenumberedBy(Numbered(v.tcpSeed, g.tcp), books.tcpListeners, v.tcpSeed, v.tcp)
    ensures RenumberedBy(Numbered(v.udpSeed, g.udp), books.udpSockets, v.udpSeed, v.udp)
  {
    TcpBound(books, e, known, w);
    SocketsArrive(CapturedTcp(books.tcpListeners, known, e.render), books.tcpListeners, false, w, v.tcp, g.tcpRoom, v.tcpSeed);
    UdpBound(books, e, known, w);
    SocketsArrive(CapturedUdp(books.udpSockets, known, e.render), books.udpSockets, true, w, v.udp, g.udpRoom, v.udpSeed);
  }

  lemma TlsArrives(books: Books, tls: map<nat, Entry>, snapshot: Snapshot, scope: TlsCredentials.Scope,
                   now: Credentials, w: World, theirs: Books, v: Visit, g: Gain)
    requires snapshot.tlsListeners == tls && tls.Keys == books.tlsListeners.Keys
    requires Restorable(snapshot, theirs, scope, now, w) && Visits(v, snapshot)
    requires Gains(g, snapshot, v, TlsPlan(snapshot, scope, w), now, theirs.counts.Room())
    requires forall id :: id in tls ==>
      Ready(TlsPlan(snapshot, scope, w), id, now) && Listener(TlsPlan(snapshot, scope, w), id, now) == books.tlsListeners[id]
    ensures RenumberedBy(Numbered(v.tlsSeed, g.tls), books.tlsListeners, v.tlsSeed, v.tls) && |g.tls| == |books.tlsListeners|
  {
    GainsMean(g, snapshot, v, TlsPlan(snapshot, scope, w), now, theirs.counts.Room());
    EnumeratesEachOnce(v.tls, books.tlsListeners);
    ListenedInOrder(TlsPlan(snapshot, scope, w), v.tls, now, books.tlsListeners, g.tls);
  }

  lemma ListenedInOrder(p: Plan, ids: seq<nat>, now: Credentials, table: map<nat, TlsListener>, items: seq<TlsListener>)
    requires Listened(p, ids, |ids|, now, items)
    requires forall id :: id in ids ==> id in table && Ready(p, id, now) && Listener(p, id, now) == table[id]
    ensures items == InOrder(table, ids)
  {
  }

  lemma SocketsArrive(entries: map<nat, Entry>, table: map<nat, Addr>, udp: bool, w: World, ids: seq<nat>, room: int, seed: nat)
    requires entries.Keys == table.Keys && Enumerates(ids, entries) && |table| <= room
    requires forall id :: id in table ==> Bound(entries, id, udp, w) == Some(table[id])
    ensures var items := Sockets(entries, udp, w, ids, room);
      |items| == |table| && RenumberedBy(Numbered(seed, items), table, seed, ids)
  {
    EnumeratesEachOnce(ids, table);
    AllSockets(entries, table, udp, w, ids, room);
  }

  lemma TcpBound(books: Books, e: Surroundings, known: nat -> bool, w: World)
    requires Bindable(books, e, known, w)
    ensures var entries := CapturedTcp(books.tcpListeners, known, e.render);
      && entries.Keys == books.tcpListeners.Keys
      && forall id :: id in books.tcpListeners ==> Bound(entries, id, false, w) == Some(books.tcpListeners[id])
  {
  }

  lemma UdpBound(books: Books, e: Surroundings, known: nat -> bool, w: World)
    requires Bindable(books, e, known, w)
    ensures var entries := CapturedUdp(books.udpSockets, known, e.render);
      && entries.Keys == books.udpSockets.Keys
      && forall id :: id in books.udpSockets ==> Bound(entries, id, true, w) == Some(books.udpSockets[id])
  {
  }

  // ---------------------------------------------------------------- the round trip

  /** The provider has room for a credential per listener and time for one more TTL. */
  ghost predicate CanProvision(provider: TlsCredentials.Provider, books: Books, e: Surroundings)
    reads provider
  {
    && |provider.credentials| + |books.tlsListeners| <= provider.capacity
    && e.clock(|books.tlsListeners|) + provider.ttl <= provider.endOfTime
  }

  /** Where every address is known, each listener was captured after the clock's first reading and before its last. */
  lemma CapturedAll(books: Books, ids: seq<nat>, tls: map<nat, Entry>, issued: map<nat, nat>, e: Surroundings,
                    scope: TlsCredentials.Scope, ttl: nat, last: nat, now: Credentials)
    requires Enumerates(ids, books.tlsListeners) && Visited(ids, |ids|, tls, issued, e) && Monotone(e.clock)
    requires tls.Keys == books.tlsListeners.Keys && Recorded(books.tlsListeners, tls, issued, e) && last <= e.clock(|ids|)
    requires Live(books.tlsListeners, tls, issued, scope, ttl, last, now) && Distinct(tls, issued, ttl, last)
    requires forall k :: 0 <= k < |books.tlsListeners| ==> e.addressKnown(k)
    ensures Captured(books, tls, issued, e, scope, ttl, last, now)
  {
    EnumeratesEachOnce(ids, books.tlsListeners);
    forall id | id in tls ensures id in issued && e.clock(0) <= issued[id] {
      var k :| 0 <= k < |ids| && ids[k] == id;
      assert e.clock(0) <= e.clock(k);
    }
  }

  /** The address of every TLS listener can be read. */
  ghost predicate AllKnown(books: Books, e: Surroundings) {
    forall k :: 0 <= k < |books.tlsListeners| ==> e.addressKnown(k)
  }

  /** `capture_resource_snapshot` of a process that owns `books`: nothing without network handles, else everything it has. */
  method CaptureResourceSnapshot(books: Books, provider: TlsCredentials.Provider, scope: TlsCredentials.Scope, e: Surroundings, known: nat -> bool)
    returns (r: Result<Option<Snapshot>, TlsCredentials.Error>, ghost tls: map<nat, Entry>, ghost issued: map<nat, nat>,
             ghost last: nat)
    requires provider.Valid() && Plenty(e, provider.capacity) && Monotone(e.clock)
    modifies provider
    ensures provider.Valid()
    ensures r.Err? ==> Returned(old(provider.credentials), provider.credentials)
    ensures old(CanProvision(provider, books, e)) ==> r.Ok?
    ensures r.Ok? ==> tls.Keys == books.tlsListeners.Keys
    ensures r.Ok? ==> r.value == if books.LiveNetworkHandles() == 0 then None else Some(SnapshotOf(books, tls, e, known))
    ensures r.Ok? && AllKnown(books, e) ==> Captured(books, tls, issued, e, scope, provider.ttl, last, provider.credentials)
  {
    var ids := Enumerate(books.tlsListeners);
    EnumeratesLength(ids, books.tlsListeners);
    var captured;
    ghost var all;
    captured, issued, last, all := CaptureTls(provider, scope, books.tlsListeners, ids, e);
    tls := map[];
    if captured.Err? {
      return Err(captured.error), tls, issued, last;
    }
    tls := captured.value;
    var snapshot := SnapshotOf(books, captured.value, e, known);
    EmptyMeansIdle(books, captured.value, e, known);
    if AllKnown(books, e) {
      CapturedAll(books, ids, tls, issued, e, scope, provider.ttl, last, provider.credentials);
    }
    r := Ok(if snapshot.IsEmpty() then None else Some(snapshot));
  }

  /** Nothing outside stands in the way of the migration. */
  ghost predicate Favourable(mine: Books, theirs: Books, e: Surroundings, known: nat -> bool, w: World, ttl: nat) {
    Receptive(mine, theirs, w) && Bindable(mine, e, known, w) && InTime(mine, e, w, ttl)
  }

  /** Restoring what was captured brings everything back. */
  lemma RoundTrip(mine: Books, theirs: Books, tls: map<nat, Entry>, issued: map<nat, nat>, e: Surroundings, known: nat -> bool,
                  scope: TlsCredentials.Scope, ttl: nat, last: nat, now: Credentials, w: World)
    requires Favourable(mine, theirs, e, known, w, ttl) && Captured(mine, tls, issued, e, scope, ttl, last, now)
    ensures var snapshot := SnapshotOf(mine, tls, e, known);
      && Restorable(snapshot, theirs, scope, now, w)
      && forall v, g :: Visits(v, snapshot) && Gains(g, snapshot, v, TlsPlan(snapshot, scope, w), now, theirs.counts.Room()) ==>
           Arrived(Grown(theirs, v, g), theirs, mine)
  {
    var snapshot := SnapshotOf(mine, tls, e, known);
    CapturedComesBack(mine, tls, issued, e, known, scope, ttl, last, now, w, theirs);
    forall v, g | Visits(v, snapshot) && Gains(g, snapshot, v, TlsPlan(snapshot, scope, w), now, theirs.counts.Room())
      ensures Arrived(Grown(theirs, v, g), theirs, mine)
    {
      GainsAreThoseCaptured(mine, tls, e, known, scope, now, w, theirs, v, g);
    }
  }

  /** The restoring half. */
  method RestoreCaptured(target: State, snapshot: Option<Snapshot>, e: Surroundings, known: nat -> bool, w: World, ghost mine: Books,
                         ghost theirs: Books, ghost tls: map<nat, Entry>, ghost issued: map<nat, nat>, ghost last: nat)
    returns (ok: bool)
    requires Sound(target.Owned()) && target.credentials.Valid() && theirs == Ledger(target.Owned())
    requires tls.Keys == mine.tlsListeners.Keys
    requires snapshot == if mine.LiveNetworkHandles() == 0 then None else Some(SnapshotOf(mine, tls, e, known))
    requires AllKnown(mine, e) ==>
      Captured(mine, tls, issued, e, target.scope, target.credentials.ttl, last, target.credentials.credentials)
    modifies target.stats, target.credentials
    modifies target.resources.tcpListeners, target.resources.udpSockets, target.resources.tlsListeners
    ensures Sound(target.Owned()) && target.credentials.Valid()
    ensures !ok ==> Ledger(target.Owned()) == theirs
    ensures Favourable(mine, theirs, e, known, w, target.credentials.ttl) ==> ok && Arrived(Ledger(target.Owned()), theirs, mine)
  {
    if snapshot.None? {
      if Receptive(mine, theirs, w) {
        NothingArrives(theirs, mine);
      }
      return true;
    }
    ghost var now := target.credentials.credentials;
    EmptyMeansIdle(mine, tls, e, known);
    ghost var v, g;
    ok, v, g := RestoreResourceSnapshot(target, snapshot.value, w);
    if Favourable(mine, theirs, e, known, w, target.credentials.ttl) {
      RoundTrip(mine, theirs, tls, issued, e, known, target.scope, target.credentials.ttl, last, now, w);
    }
  }

  /** The capturing half leaves the receiving process as it was. */
  method CaptureBeside(mine: Books, target: State, e: Surroundings, known: nat -> bool, ghost theirs: Books)
    returns (r: Result<Option<Snapshot>, TlsCredentials.Error>, ghost tls: map<nat, Entry>, ghost issued: map<nat, nat>,
             ghost last: nat)
    requires Sound(target.Owned()) && theirs == Ledger(target.Owned())
    requires target.credentials.Valid() && Plenty(e, target.credentials.capacity) && Monotone(e.clock)
    modifies target.credentials
    ensures Sound(target.Owned()) && theirs == Ledger(target.Owned()) && target.credentials.Valid()
    ensures old(CanProvision(target.credentials, mine, e)) ==> r.Ok?
    ensures r.Ok? ==> tls.Keys == mine.tlsListeners.Keys
    ensures r.Ok? ==> r.value == if mine.LiveNetworkHandles() == 0 then None else Some(SnapshotOf(mine, tls, e, known))
    ensures r.Ok? && AllKnown(mine, e) ==>
      Captured(mine, tls, issued, e, target.scope, target.credentials.ttl, last, target.credentials.credentials)
  {
    r, tls, issued, last := CaptureResourceSnapshot(mine, target.credentials, target.scope, e, known);
  }

  /**
   The snapshot of a process that owned `mine`, restored into one of the same identity on the same
   provider: if nothing outside stands in the way, every listener and socket comes back, TLS
   listeners with their own material, and each is paid for by one descriptor and one network unit.
   */
  method CaptureAndRestore(mine: Books, target: State, e: Surroundings, known: nat -> bool, w: World, ghost theirs: Books)
    returns (ok: bool)
    requires Sound(target.Owned()) && theirs == Ledger(target.Owned())
    requires target.credentials.Valid() && Plenty(e, target.credentials.capacity) && Monotone(e.clock)
    modifies target.stats, target.credentials
    modifies target.resources.tcpListeners, target.resources.udpSockets, target.resources.tlsListeners
    ensures Sound(target.Owned()) && target.credentials.Valid()
    ensures !ok ==> Ledger(target.Owned()) == theirs
    ensures old(CanProvision(target.credentials, mine, e)) && Favourable(mine, theirs, e, known, w, target.credentials.ttl) ==>
      ok && Arrived(Ledger(target.Owned()), theirs, mine)
  {
    var captured;
    ghost var tls, issued, last;
    captured, tls, issued, last := CaptureBeside(mine, target, e, known, theirs);
    ok := false;
    if captured.Ok? {
      ok := RestoreCaptured(target, captured.value, e, known, w, mine, theirs, tls, issued, last);
    }
  }
}
