/** Preparing the TLS listeners of a snapshot before any resource table is touched: all of them or none. */
module TlsPreflight {
  import opened Wrappers
  import opened ResourceQuota
  import opened ProcessState
  import TlsCredentials

  datatype Entry =
    | TcpEntry(localAddr: string)
    | TlsEntry(localAddr: string, credentialHandle: TlsCredentials.Handle)
    | UdpEntry(localAddr: string)
    | OtherEntry

  /** What the outside does: address parsing, and for each entry whether its bind works and when it is tried. */
  datatype World = World(
    hasRuntime: bool, parse: string -> Option<Addr>,
    tcpBinds: nat -> bool, udpBinds: nat -> bool, tlsBinds: nat -> bool, clock: nat -> nat)

  type Credentials = map<TlsCredentials.Handle, TlsCredentials.Stored>

  /** The TLS entries of a snapshot, to be restored for the process `scope`. */
  datatype Plan = Plan(entries: map<nat, Entry>, scope: TlsCredentials.Scope, world: World)

  // ---------------------------------------------------------------- what must hold

  /** The entry names an address that binds and a credential this process can take from `now`. */
  predicate Ready(p: Plan, id: nat, now: Credentials) {
    && id in p.entries && p.entries[id].TlsEntry?
    && p.world.parse(p.entries[id].localAddr).Some?
    && TlsCredentials.Answer(now, p.scope, p.entries[id].credentialHandle, p.world.clock(id)).Ok?
    && p.world.tlsBinds(id)
  }

  /** The listener an entry stands for: its address, and the material its handle was provisioned with. */
  function Listener(p: Plan, id: nat, now: Credentials): TlsListener
    requires Ready(p, id, now)
  {
    TlsListener(p.world.parse(p.entries[id].localAddr).value,
                TlsCredentials.Answer(now, p.scope, p.entries[id].credentialHandle, p.world.clock(id)).value)
  }

  predicate DistinctHandles(p: Plan) {
    forall a, b :: a in p.entries && b in p.entries && a != b && p.entries[a].TlsEntry? && p.entries[b].TlsEntry? ==>
      p.entries[a].credentialHandle != p.entries[b].credentialHandle
  }

  /** Every TLS listener can come back: good entries, one live credential each, and room for all. */
  predicate AllReady(p: Plan, before: Credentials, room: int) {
    && (forall id :: id in p.entries ==> Ready(p, id, before))
    && DistinctHandles(p)
    && |p.entries| <= room
  }

  /** The keys of a map in some order, each once. */
  ghost predicate Enumerates<T>(ids: seq<nat>, entries: map<nat, T>) { multiset(ids) == multiset(entries.Keys) }

  method Enumerate<T>(entries: map<nat, T>) returns (ids: seq<nat>)
    ensures Enumerates(ids, entries)
  {
    ids := [];
    var todo := entries.Keys;
    while todo != {}
      invariant multiset(ids) + multiset(todo) == multiset(entries.Keys)
      decreases todo
    {
      var id :| id in todo;
      todo := todo - {id};
      ids := ids + [id];
    }
  }

  lemma EnumeratesEachOnce<T>(ids: seq<nat>, entries: map<nat, T>)
    requires Enumerates(ids, entries)
    ensures |ids| == |entries|
    ensures forall id :: id in ids <==> id in entries
    ensures forall i, j :: 0 <= i < j < |ids| ==> ids[i] != ids[j]
  {
    assert |multiset(ids)| == |ids| && |multiset(entries.Keys)| == |entries|;
    forall id ensures id in ids <==> id in entries {
      assert id in multiset(ids) <==> id in multiset(entries.Keys);
    }
    forall i, j | 0 <= i < j < |ids| ensures ids[i] != ids[j] {
      if ids[i] == ids[j] {
        Twice(ids, i, j);
      }
    }
  }

  lemma Twice(ids: seq<nat>, i: nat, j: nat)
    requires i < j < |ids| && ids[i] == ids[j]
    ensures multiset(ids)[ids[i]] >= 2
  {
    var rest := ids[..j] + ids[j + 1..];
    assert ids == ids[..j] + [ids[j]] + ids[j + 1..];
    assert multiset(ids) == multiset(rest) + multiset{ids[j]};
    assert rest[i] == ids[i];
  }

  // ---------------------------------------------------------------- one entry after the other

  /** The listeners and the credentials left when the entries are taken in this order, if each is ready in turn. */
  ghost function Prepared(p: Plan, ids: seq<nat>, before: Credentials): Option<(seq<TlsListener>, Credentials)> {
    if ids == [] then Some(([], before))
    else
      var front, id := Prepared(p, ids[..|ids| - 1], before), ids[|ids| - 1];
      if front.None? || !Ready(p, id, front.value.1) then None
      else Some((front.value.0 + [Listener(p, id, front.value.1)], front.value.1 - {p.entries[id].credentialHandle}))
  }

  lemma PreparedSnoc(p: Plan, ids: seq<nat>, k: nat, before: Credentials)
    requires k < |ids|
    ensures var front := Prepared(p, ids[..k], before);
      Prepared(p, ids[..k + 1], before) ==
        if front.None? || !Ready(p, ids[k], front.value.1) then None
        else Some((front.value.0 + [Listener(p, ids[k], front.value.1)], front.value.1 - {p.entries[ids[k]].credentialHandle}))
  {
    assert ids[..k + 1][..k] == ids[..k];
  }

  lemma {:induction false} PrefixFails(p: Plan, ids: seq<nat>, k: nat, before: Credentials)
    requires k <= |ids| && Prepared(p, ids[..k], before).None?
    ensures Prepared(p, ids, before).None?
    decreases |ids| - k
  {
    if k < |ids| {
      PreparedSnoc(p, ids, k, before);
      PrefixFails(p, ids, k + 1, before);
    } else {
      assert ids[..k] == ids;
    }
  }

  /** Whether one of the first `k` entries has this handle. */
  ghost predicate UsedBefore(p: Plan, ids: seq<nat>, k: nat, h: TlsCredentials.Handle)
    requires k <= |ids|
  {
    exists j :: 0 <= j < k && ids[j] in p.entries && p.entries[ids[j]].TlsEntry? && p.entries[ids[j]].credentialHandle == h
  }

  /** After `k` entries the credentials left are those whose handle none of them used. */
  ghost predicate Leaves(p: Plan, ids: seq<nat>, k: nat, before: Credentials, now: Credentials)
    requires k <= |ids|
  {
    forall h :: (h in now <==> h in before && !UsedBefore(p, ids, k, h)) && (h in now ==> now[h] == before[h])
  }

  ghost predicate Listened(p: Plan, ids: seq<nat>, k: nat, before: Credentials, listeners: seq<TlsListener>)
    requires k <= |ids|
  {
    |listeners| == k && forall j :: 0 <= j < k ==> Ready(p, ids[j], before) && listeners[j] == Listener(p, ids[j], before)
  }

  /** Ready in turn means ready from the start with a handle of its own. */
  ghost predicate Fit(p: Plan, ids: seq<nat>, k: nat, before: Credentials)
    requires k < |ids|
  {
    Ready(p, ids[k], before) && !UsedBefore(p, ids, k, p.entries[ids[k]].credentialHandle)
  }

  lemma LeavesNext(p: Plan, ids: seq<nat>, k: nat, before: Credentials, now: Credentials)
    requires k < |ids| && Leaves(p, ids, k, before, now)
    ensures Ready(p, ids[k], now) <==> Fit(p, ids, k, before)
    ensures Ready(p, ids[k], now) ==> Listener(p, ids[k], now) == Listener(p, ids[k], before)
    ensures Ready(p, ids[k], now) ==> Leaves(p, ids, k + 1, before, now - {p.entries[ids[k]].credentialHandle})
  {
    if Ready(p, ids[k], now) {
      var h := p.entries[ids[k]].credentialHandle;
      forall g ensures UsedBefore(p, ids, k + 1, g) <==> UsedBefore(p, ids, k, g) || g == h {
      }
    }
  }

  lemma {:induction false} PreparedMeans(p: Plan, ids: seq<nat>, k: nat, before: Credentials)
    requires k <= |ids|
    ensures Prepared(p, ids[..k], before).Some? <==> forall j :: 0 <= j < k ==> Fit(p, ids, j, before)
    ensures Prepared(p, ids[..k], before).Some? ==> Leaves(p, ids, k, before, Prepared(p, ids[..k], before).value.1)
  {
    if k > 0 {
      PreparedMeans(p, ids, k - 1, before);
      PreparedSnoc(p, ids, k - 1, before);
      if Prepared(p, ids[..k - 1], before).Some? {
        LeavesNext(p, ids, k - 1, before, Prepared(p, ids[..k - 1], before).value.1);
      }
    }
  }

  lemma {:induction false} PreparedListens(p: Plan, ids: seq<nat>, k: nat, before: Credentials)
    requires k <= |ids| && Prepared(p, ids[..k], before).Some?
    ensures Listened(p, ids, k, before, Prepared(p, ids[..k], before).value.0)
  {
    if k > 0 {
      PreparedSnoc(p, ids, k - 1, before);
      PreparedListens(p, ids, k - 1, before);
      PreparedMeans(p, ids, k - 1, before);
      var front := Prepared(p, ids[..k - 1], before).value;
      LeavesNext(p, ids, k - 1, before, front.1);
      ListenedNext(p, ids, k - 1, before, front.0);
    }
  }

  lemma ListenedNext(p: Plan, ids: seq<nat>, k: nat, before: Credentials, listeners: seq<TlsListener>)
    requires k < |ids| && Listened(p, ids, k, before, listeners) && Ready(p, ids[k], before)
    ensures Listened(p, ids, k + 1, before, listeners + [Listener(p, ids[k], before)])
  {
  }

  lemma FitMeansReady(p: Plan, ids: seq<nat>, before: Credentials, room: int)
    requires Enumerates(ids, p.entries)
    ensures AllReady(p, before, room) <==> (forall j :: 0 <= j < |ids| ==> Fit(p, ids, j, before)) && |ids| <= room
  {
    EnumeratesEachOnce(ids, p.entries);
    if AllReady(p, before, room) {
      forall k | 0 <= k < |ids| ensures Fit(p, ids, k, before) {
        assert Ready(p, ids[k], before);
      }
    }
    if forall j :: 0 <= j < |ids| ==> Fit(p, ids, j, before) {
      forall id | id in p.entries ensures Ready(p, id, before) {
        var k :| 0 <= k < |ids| && ids[k] == id;
        assert Fit(p, ids, k, before);
      }
      forall a, b | a in p.entries && b in p.entries && a != b ensures p.entries[a].credentialHandle != p.entries[b].credentialHandle {
        var i :| 0 <= i < |ids| && ids[i] == a;
        var j :| 0 <= j < |ids| && ids[j] == b;
        assert Fit(p, ids, i, before) && Fit(p, ids, j, before);
      }
    }
  }

  /** In whatever order the entries come, taking them one by one succeeds exactly when all are ready. */
  lemma PreflightDecides(p: Plan, ids: seq<nat>, before: Credentials, room: int)
    requires Enumerates(ids, p.entries)
    ensures AllReady(p, before, room) <==> Prepared(p, ids, before).Some? && |p.entries| <= room
    ensures Prepared(p, ids, before).Some? ==> Listened(p, ids, |ids|, before, Prepared(p, ids, before).value.0)
  {
    assert ids[..|ids|] == ids;
    EnumeratesEachOnce(ids, p.entries);
    PreparedMeans(p, ids, |ids|, before);
    if Prepared(p, ids, before).Some? {
      PreparedListens(p, ids, |ids|, before);
    }
    FitMeansReady(p, ids, before, room);
  }

  // ---------------------------------------------------------------- what a failure costs

  /** Trying the entry takes its credential: it is reached, and the handle belongs to this process. */
  predicate Takes(p: Plan, id: nat, now: Credentials) {
    && id in p.entries && p.entries[id].TlsEntry? && p.world.parse(p.entries[id].localAddr).Some?
    && p.entries[id].credentialHandle in now && now[p.entries[id].credentialHandle].scope == p.scope
  }

  /** The credentials left after trying the entry, whether or not it succeeds. */
  function Tried(p: Plan, id: nat, now: Credentials): Credentials {
    if Takes(p, id, now) then now - {p.entries[id].credentialHandle} else now
  }

  /** The first `k` entries are prepared, and the next is not ready or finds no room. */
  ghost predicate StuckAt(p: Plan, ids: seq<nat>, k: nat, before: Credentials, room: int) {
    && k < |ids| && k <= room && Prepared(p, ids[..k], before).Some?
    && !(Ready(p, ids[k], Prepared(p, ids[..k], before).value.1) && k < room)
  }

  /** The credentials left when the preflight ends after `k` entries. */
  ghost function LeftAfter(p: Plan, ids: seq<nat>, k: nat, before: Credentials): Credentials
    requires k <= |ids| && Prepared(p, ids[..k], before).Some?
  {
    var now := Prepared(p, ids[..k], before).value.1;
    if k < |ids| then Tried(p, ids[k], now) else now
  }

  /** A failed preflight gives every credential back exactly if the first entry it tried took none. */
  lemma FailureIsFreeExactly(p: Plan, ids: seq<nat>, k: nat, before: Credentials, room: int)
    requires StuckAt(p, ids, k, before, room)
    ensures LeftAfter(p, ids, k, before) == before <==> !Takes(p, ids[0], before)
  {
    PreparedMeans(p, ids, k, before);
    if k == 0 {
      assert ids[..0] == [];
    } else {
      assert Fit(p, ids, 0, before);
      var h := p.entries[ids[0]].credentialHandle;
      assert UsedBefore(p, ids, k, h);
      assert h in before && h !in LeftAfter(p, ids, k, before);
    }
  }

  lemma {:induction false} GetsStuck(p: Plan, ids: seq<nat>, k: nat, before: Credentials, room: int) returns (stuck: nat)
    requires k <= |ids| && k <= room && Prepared(p, ids[..k], before).Some?
    requires Prepared(p, ids, before).None? || room < |ids|
    ensures StuckAt(p, ids, stuck, before, room)
    decreases |ids| - k
  {
    assert ids[..|ids|] == ids;
    PreparedSnoc(p, ids, k, before);
    if Ready(p, ids[k], Prepared(p, ids[..k], before).value.1) && k < room {
      stuck := GetsStuck(p, ids, k + 1, before, room);
    } else {
      stuck := k;
    }
  }

  lemma {:induction false} Listing(keys: set<nat>) returns (ids: seq<nat>)
    ensures multiset(ids) == multiset(keys)
  {
    if keys == {} {
      ids := [];
    } else {
      var id :| id in keys;
      var rest := Listing(keys - {id});
      ids := [id] + rest;
    }
  }

  /** No credential is lost by failing in this order. */
  ghost predicate FreeInOrder(p: Plan, ids: seq<nat>, before: Credentials, room: int) {
    forall k :: StuckAt(p, ids, k, before, room) ==> LeftAfter(p, ids, k, before) == before
  }

  lemma UntakenIsFree(p: Plan, ids: seq<nat>, before: Credentials, room: int)
    requires Enumerates(ids, p.entries) && forall id :: id in p.entries ==> !Takes(p, id, before)
    ensures FreeInOrder(p, ids, before, room)
  {
    EnumeratesEachOnce(ids, p.entries);
    forall k | StuckAt(p, ids, k, before, room) ensures LeftAfter(p, ids, k, before) == before {
      assert ids[0] in ids;
      FailureIsFreeExactly(p, ids, k, before, room);
    }
  }

  /** An order that starts with an entry that takes its credential, and then fails, loses it. */
  lemma TakenIsLost(p: Plan, id: nat, before: Credentials, room: nat) returns (ids: seq<nat>)
    requires !AllReady(p, before, room) && Takes(p, id, before)
    ensures Enumerates(ids, p.entries) && !FreeInOrder(p, ids, before, room)
  {
    var rest := Listing(p.entries.Keys - {id});
    ids := [id] + rest;
    assert multiset(ids) == multiset{id} + multiset(rest) == multiset(p.entries.Keys);
    assert |ids| == |p.entries| by { EnumeratesEachOnce(ids, p.entries); }
    PreflightDecides(p, ids, before, room);
    assert ids[..0] == [];
    var k := GetsStuck(p, ids, 0, before, room);
    FailureIsFreeExactly(p, ids, k, before, room);
  }

  /** The same without an order: a preflight that must fail is free in every order exactly if no entry would take a credential. */
  lemma FailureIsFreeInEveryOrder(p: Plan, before: Credentials, room: nat)
    requires !AllReady(p, before, room)
    ensures (forall ids :: Enumerates(ids, p.entries) ==> FreeInOrder(p, ids, before, room))
      <==> forall id :: id in p.entries ==> !Takes(p, id, before)
  {
    if id :| id in p.entries && Takes(p, id, before) {
      var ids := TakenIsLost(p, id, before, room);
    } else {
      forall ids | Enumerates(ids, p.entries) ensures FreeInOrder(p, ids, before, room) {
        UntakenIsFree(p, ids, before, room);
      }
    }
  }

  /** Two listeners, the second with an address that does not parse: the first credential is gone. */
  lemma FailureCanTake()
    ensures var scope := TlsCredentials.Scope(1, 2);
      var world := World(true, (s: string) => if s == "" then None else Some(80), (_: nat) => true, (_: nat) => true,
                         (_: nat) => true, (_: nat) => 0);
      var p := Plan(map[0 := TlsEntry("a", 7), 1 := TlsEntry("", 8)], scope, world);
      var before := map[7 := TlsCredentials.Stored(scope, 3, 10), 8 := TlsCredentials.Stored(scope, 4, 10)];
      && Enumerates([0, 1], p.entries) && StuckAt(p, [0, 1], 1, before, 5)
      && LeftAfter(p, [0, 1], 1, before) == map[8 := TlsCredentials.Stored(scope, 4, 10)]
  {
    var scope := TlsCredentials.Scope(1, 2);
    var world := World(true, (s: string) => if s == "" then None else Some(80), (_: nat) => true, (_: nat) => true,
                       (_: nat) => true, (_: nat) => 0);
    var p := Plan(map[0 := TlsEntry("a", 7), 1 := TlsEntry("", 8)], scope, world);
    var before := map[7 := TlsCredentials.Stored(scope, 3, 10), 8 := TlsCredentials.Stored(scope, 4, 10)];
    assert p.entries.Keys == {0, 1};
    assert [0, 1][..1] == [0] && [0][..0] == [];
    assert Prepared(p, [], before) == Some(([], before));
    assert Ready(p, 0, before);
  }

  // ---------------------------------------------------------------- the code

  ghost predicate Uses(p: Plan, h: TlsCredentials.Handle) {
    exists id :: id in p.entries && p.entries[id].TlsEntry? && p.entries[id].credentialHandle == h
  }

  /** No credential that the snapshot does not name is touched. */
  ghost predicate Spared(p: Plan, before: Credentials, now: Credentials) {
    forall h :: h in before && !Uses(p, h) ==> h in now && now[h] == before[h]
  }

  lemma LeftIsSpared(p: Plan, ids: seq<nat>, k: nat, before: Credentials)
    requires k <= |ids| && Prepared(p, ids[..k], before).Some?
    ensures Spared(p, before, LeftAfter(p, ids, k, before))
  {
    PreparedMeans(p, ids, k, before);
    forall h | h in before && !Uses(p, h) ensures h in LeftAfter(p, ids, k, before) {
      assert !UsedBefore(p, ids, k, h);
    }
  }

  /** Address and credential of one entry. */
  method TakeFor(provider: TlsCredentials.Provider, p: Plan, id: nat) returns (r: Option<TlsListener>)
    requires provider.Valid() && id in p.entries
    modifies provider
    ensures provider.Valid() && provider.credentials == Tried(p, id, old(provider.credentials))
    ensures r.Some? && p.world.tlsBinds(id) <==> Ready(p, id, old(provider.credentials))
    ensures Ready(p, id, old(provider.credentials)) ==> r.value == Listener(p, id, old(provider.credentials))
  {
    var e := p.entries[id];
    if !e.TlsEntry? {
      return None;
    }
    var addr := p.world.parse(e.localAddr);
    if addr.None? {
      return None;
    }
    var material := provider.Take(p.scope, e.credentialHandle, p.world.clock(id));
    if material.Err? {
      return None;
    }
    return Some(TlsListener(addr.value, material.value));
  }

  /** One entry: credential, lease, bind.  On failure no unit of quota is kept, but the credential may be used up. */
  method PrepareOne(stats: ResourceStats, provider: TlsCredentials.Provider, p: Plan, id: nat) returns (r: Option<TlsListener>)
    requires provider.Valid() && id in p.entries
    modifies stats, provider
    ensures provider.Valid() && provider.credentials == Tried(p, id, old(provider.credentials))
    ensures r == if Ready(p, id, old(provider.credentials)) && old(stats.counts).Room() > 0
                 then Some(Listener(p, id, old(provider.credentials))) else None
    ensures stats.counts == if r.Some? then old(stats.counts).Plus(1) else old(stats.counts)
  {
    r := TakeFor(provider, p, id);
    if r.None? {
      return None;
    }
    var leased := stats.ReserveHandle();
    if !leased {
      return None;
    }
    if !p.world.tlsBinds(id) {
      stats.DropLeases(1);
      return None;
    }
  }

  /** One turn of the loop. */
  method PrepareNext(stats: ResourceStats, provider: TlsCredentials.Provider, p: Plan, ids: seq<nat>, k: nat,
                     prepared: seq<TlsListener>, ghost before: Credentials, ghost room: int)
    returns (one: Option<TlsListener>)
    requires provider.Valid() && k < |ids| && ids[k] in p.entries && k <= room && stats.counts.Room() == room - k
    requires Prepared(p, ids[..k], before) == Some((prepared, provider.credentials))
    modifies stats, provider
    ensures provider.Valid()
    ensures stats.counts == if one.Some? then old(stats.counts).Plus(1) else old(stats.counts)
    ensures one.Some? ==> k < room
    ensures one.Some? ==> Prepared(p, ids[..k + 1], before) == Some((prepared + [one.value], provider.credentials))
    ensures one.None? ==> StuckAt(p, ids, k, before, room) && provider.credentials == LeftAfter(p, ids, k, before)
  {
    PreparedSnoc(p, ids, k, before);
    one := PrepareOne(stats, provider, p, ids[k]);
  }

  /** The loop, up to the first entry that fails; `k` entries are prepared. */
  method PrepareAll(stats: ResourceStats, provider: TlsCredentials.Provider, p: Plan, ids: seq<nat>,
                    ghost before: Credentials, ghost counts: Counts)
    returns (k: nat, prepared: seq<TlsListener>)
    requires provider.Valid() && counts.Valid() && forall id :: id in ids ==> id in p.entries
    requires before == provider.credentials && counts == stats.counts
    modifies stats, provider
    ensures provider.Valid()
    ensures |prepared| == k <= |ids| && k <= counts.Room() && stats.counts == counts.Plus(k)
    ensures Prepared(p, ids[..k], before).Some? && prepared == Prepared(p, ids[..k], before).value.0
    ensures provider.credentials == LeftAfter(p, ids, k, before)
    ensures k < |ids| ==> StuckAt(p, ids, k, before, counts.Room())
  {
    prepared := [];
    k := 0;
    while k < |ids|
      invariant provider.Valid()
      invariant |prepared| == k <= |ids| && k <= counts.Room() && stats.counts == counts.Plus(k)
      invariant Prepared(p, ids[..k], before) == Some((prepared, provider.credentials))
    {
      var one := PrepareNext(stats, provider, p, ids, k, prepared, before, counts.Room());
      if one.None? {
        return;
      }
      prepared, k := prepared + [one.value], k + 1;
    }
  }

  lemma StuckFails(p: Plan, ids: seq<nat>, k: nat, before: Credentials, room: int)
    requires StuckAt(p, ids, k, before, room)
    ensures Prepared(p, ids, before).None? || room < |ids|
  {
    PreparedSnoc(p, ids, k, before);
    if Prepared(p, ids[..k + 1], before).None? {
      PrefixFails(p, ids, k + 1, before);
    }
  }

  /** The preflight: leases and bound listeners are dropped together if any entry fails. */
  method Preflight(stats: ResourceStats, provider: TlsCredentials.Provider, p: Plan, ids: seq<nat>,
                   ghost before: Credentials, ghost counts: Counts)
    returns (ok: bool, prepared: seq<TlsListener>, ghost k: nat)
    requires provider.Valid() && counts.Valid() && Enumerates(ids, p.entries)
    requires before == provider.credentials && counts == stats.counts
    modifies stats, provider
    ensures provider.Valid()
    ensures ok <==> Prepared(p, ids, before).Some? && |p.entries| <= counts.Room()
    ensures stats.counts == if ok then counts.Plus(|p.entries|) else counts
    ensures stats.counts.Valid()
    ensures ok ==> |prepared| == |p.entries| && Prepared(p, ids, before) == Some((prepared, provider.credentials))
    ensures !ok ==> StuckAt(p, ids, k, before, counts.Room()) && provider.credentials == LeftAfter(p, ids, k, before)
  {
    EnumeratesEachOnce(ids, p.entries);
    var n;
    n, prepared := PrepareAll(stats, provider, p, ids, before, counts);
    k := n;
    ok := n == |ids|;
    if !ok {
      StuckFails(p, ids, n, before, counts.Room());
      stats.DropLeases(n);
    } else {
      assert ids[..n] == ids;
    }
  }
}
