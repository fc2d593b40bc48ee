/** Capturing TLS listeners: one provisioned credential each, all of them revoked if one cannot be provisioned. */
module SnapshotCapture {
  import opened Wrappers
  import opened ProcessState
  import opened TlsPreflight
  import TlsCredentials

  type Listeners = map<nat, TlsListener>
  type Handle = TlsCredentials.Handle

  /** At each visit: whether the socket knows its address, the time, and the provider's random draws; and how addresses print. */
  datatype Surroundings = Surroundings(
    addressKnown: nat -> bool, render: Addr -> string, clock: nat -> nat, draws: nat -> seq<Handle>)

  ghost predicate Plenty(e: Surroundings, capacity: nat) {
    forall k :: |Drawn(e.draws(k))| > capacity
  }

  ghost predicate Monotone(clock: nat -> nat) { forall i: nat, j: nat :: i <= j ==> clock(i) <= clock(j) }

  function Drawn(draws: seq<Handle>): set<Handle> { set h | h in draws }

  lemma SomeDrawIsNew(draws: seq<Handle>, credentials: Credentials, capacity: nat)
    requires |Drawn(draws)| > capacity && |credentials| <= capacity
    ensures exists c :: c in draws && c !in credentials
  {
    assert |credentials.Keys| == |credentials|;
    if forall c :: c in draws ==> c in credentials {
      assert Drawn(draws) <= credentials.Keys;
      TlsCredentials.SubsetSize(Drawn(draws), credentials.Keys);
    }
  }

  // ---------------------------------------------------------------- what has been captured so far

  predicate Live(listeners: Listeners, entries: map<nat, Entry>, issued: map<nat, nat>, scope: TlsCredentials.Scope, ttl: nat,
                 last: nat, now: Credentials)
  {
    forall id :: id in issued ==> IsLive(listeners, entries, issued, scope, ttl, last, now, id)
  }

  /** The entry was captured at `issued[id]`, and its credential is live as long as it has not expired by `last`. */
  predicate IsLive(listeners: Listeners, entries: map<nat, Entry>, issued: map<nat, nat>, scope: TlsCredentials.Scope, ttl: nat,
                   last: nat, now: Credentials, id: nat)
    requires id in issued
  {
    && id in entries && entries[id].TlsEntry? && id in listeners
    && (issued[id] + ttl > last ==>
          entries[id].credentialHandle in now
          && now[entries[id].credentialHandle] == TlsCredentials.Stored(scope, listeners[id].material, issued[id] + ttl))
  }

  /** The entry's credential has not expired by `last`. */
  predicate Current(entries: map<nat, Entry>, issued: map<nat, nat>, ttl: nat, last: nat, id: nat) {
    id in issued && issued[id] + ttl > last && id in entries && entries[id].TlsEntry?
  }

  ghost predicate Distinct(entries: map<nat, Entry>, issued: map<nat, nat>, ttl: nat, last: nat) {
    forall a, b :: Apart(entries, issued, ttl, last, a, b)
  }

  /** Two different entries whose credentials are both current do not share a handle. */
  predicate Apart(entries: map<nat, Entry>, issued: map<nat, nat>, ttl: nat, last: nat, a: nat, b: nat) {
    Current(entries, issued, ttl, last, a) && Current(entries, issued, ttl, last, b) && a != b ==>
      entries[a].credentialHandle != entries[b].credentialHandle
  }

  /** Every credential is an old one or a new one of this process. */
  predicate OldOrNew(handles: seq<Handle>, scope: TlsCredentials.Scope, before: Credentials, now: Credentials) {
    forall h :: h in now ==> if h in handles then now[h].scope == scope else h in before && now[h] == before[h]
  }

  /** Old credentials that have not expired by `last` are still there, and none of the new handles. */
  predicate Survive(handles: seq<Handle>, last: nat, before: Credentials, now: Credentials) {
    forall h :: h in before && before[h].expiresAt > last ==> h in now && now[h] == before[h] && h !in handles
  }

  lemma ProvisionKeepsOld(handles: seq<Handle>, scope: TlsCredentials.Scope, last: nat, before: Credentials, now: Credentials,
                          t: nat, h: Handle, stored: TlsCredentials.Stored)
    requires OldOrNew(handles, scope, before, now) && Survive(handles, last, before, now)
    requires last <= t && h !in TlsCredentials.Current(now, t) && stored.scope == scope
    ensures OldOrNew(handles + [h], scope, before, TlsCredentials.Current(now, t)[h := stored])
    ensures Survive(handles + [h], t, before, TlsCredentials.Current(now, t)[h := stored])
  {
  }

  lemma PurgeKeepsOld(handles: seq<Handle>, scope: TlsCredentials.Scope, last: nat, before: Credentials, now: Credentials, t: nat)
    requires OldOrNew(handles, scope, before, now) && Survive(handles, last, before, now) && last <= t
    ensures Survive(handles, t, before, now)
    ensures OldOrNew(handles, scope, before, TlsCredentials.Current(now, t))
    ensures Survive(handles, t, before, TlsCredentials.Current(now, t))
  {
  }

  lemma ProvisionKeepsLive(listeners: Listeners, entries: map<nat, Entry>, issued: map<nat, nat>, scope: TlsCredentials.Scope,
                           ttl: nat, last: nat, now: Credentials, id: nat, addr: string, t: nat, h: Handle)
    requires Live(listeners, entries, issued, scope, ttl, last, now)
    requires last <= t && h !in TlsCredentials.Current(now, t) && id in listeners && id !in issued
    ensures Live(listeners, entries[id := TlsEntry(addr, h)], issued[id := t], scope, ttl, t,
                 TlsCredentials.Current(now, t)[h := TlsCredentials.Stored(scope, listeners[id].material, t + ttl)])
  {
    forall x | x in issued ensures IsLive(listeners, entries, issued, scope, ttl, last, now, x) {
    }
  }

  lemma ProvisionKeepsDistinct(listeners: Listeners, entries: map<nat, Entry>, issued: map<nat, nat>, scope: TlsCredentials.Scope,
                               ttl: nat, last: nat, now: Credentials, id: nat, addr: string, t: nat, h: Handle)
    requires Live(listeners, entries, issued, scope, ttl, last, now) && Distinct(entries, issued, ttl, last)
    requires last <= t && h !in TlsCredentials.Current(now, t) && id !in issued && id !in entries
    ensures Distinct(entries[id := TlsEntry(addr, h)], issued[id := t], ttl, t)
  {
    var entries', issued' := entries[id := TlsEntry(addr, h)], issued[id := t];
    forall a, b ensures Apart(entries', issued', ttl, t, a, b) {
      assert Apart(entries, issued, ttl, last, a, b);
      assert a in issued ==> IsLive(listeners, entries, issued, scope, ttl, last, now, a);
      assert b in issued ==> IsLive(listeners, entries, issued, scope, ttl, last, now, b);
    }
  }

  // ---------------------------------------------------------------- the code

  /** The rollback: afterwards no handle of this capture is left, and no other credential has gone. */
  method RevokeAll(provider: TlsCredentials.Provider, scope: TlsCredentials.Scope, handles: seq<Handle>, now: nat,
                   ghost before: Credentials, ghost last: nat)
    requires provider.Valid()
    requires OldOrNew(handles, scope, before, provider.credentials) && Survive(handles, last, before, provider.credentials)
    modifies provider
    ensures provider.Valid()
    ensures Returned(before, provider.credentials) && Survive([], last, before, provider.credentials)
  {
    for k := 0 to |handles|
      invariant provider.Valid()
      invariant OldOrNew(handles, scope, before, provider.credentials) && Survive(handles, last, before, provider.credentials)
      invariant Gone(handles, k, provider.credentials)
    {
      ghost var now' := provider.credentials;
      RevokeKeeps(handles, k, scope, last, before, now');
      var _ := provider.Revoke(scope, handles[k], now);
    }
    AllGone(handles, scope, last, before, provider.credentials);
  }

  predicate Gone(handles: seq<Handle>, k: nat, now: Credentials)
    requires k <= |handles|
  {
    forall j :: 0 <= j < k ==> handles[j] !in now
  }

  lemma RevokeKeeps(handles: seq<Handle>, k: nat, scope: TlsCredentials.Scope, last: nat, before: Credentials, now: Credentials)
    requires OldOrNew(handles, scope, before, now) && Survive(handles, last, before, now) && k < |handles| && Gone(handles, k, now)
    ensures handles[k] in now ==> now[handles[k]].scope == scope
    ensures OldOrNew(handles, scope, before, now - {handles[k]}) && Survive(handles, last, before, now - {handles[k]})
    ensures Gone(handles, k + 1, now - {handles[k]}) && (handles[k] !in now ==> now - {handles[k]} == now)
  {
    assert handles[k] in handles;
  }

  lemma AllGone(handles: seq<Handle>, scope: TlsCredentials.Scope, last: nat, before: Credentials, now: Credentials)
    requires OldOrNew(handles, scope, before, now) && Survive(handles, last, before, now) && Gone(handles, |handles|, now)
    ensures Returned(before, now) && Survive([], last, before, now)
  {
  }

  /** Nothing is stored that was not stored before. */
  predicate Returned(before: Credentials, now: Credentials) {
    forall h :: h in now ==> h in before && now[h] == before[h]
  }

  /** The entry each listener gets: its address and a handle, or a placeholder if the socket does not know its address. */
  predicate Recorded(listeners: Listeners, entries: map<nat, Entry>, issued: map<nat, nat>, e: Surroundings) {
    && entries.Keys <= listeners.Keys && issued.Keys <= entries.Keys
    && forall id :: id in entries ==>
         if id in issued then entries[id].TlsEntry? && entries[id].localAddr == e.render(listeners[id].addr)
         else entries[id] == OtherEntry
  }

  /** Exactly the first `k` listeners have entries, and those of them with a known address have handles, provisioned at their turn. */
  ghost predicate Visited(ids: seq<nat>, k: nat, entries: map<nat, Entry>, issued: map<nat, nat>, e: Surroundings)
    requires k <= |ids|
  {
    && (forall id :: id in entries <==> id in ids[..k])
    && forall j :: 0 <= j < k ==>
         (ids[j] in issued <==> e.addressKnown(j)) && (ids[j] in issued ==> issued[ids[j]] == e.clock(j))
  }

  lemma NextIsNew(listeners: Listeners, ids: seq<nat>, k: nat, entries: map<nat, Entry>, issued: map<nat, nat>, e: Surroundings)
    requires k < |ids| && Enumerates(ids, listeners) && Visited(ids, k, entries, issued, e)
    ensures ids[k] in listeners && ids[k] !in entries && forall j :: 0 <= j < k ==> ids[j] != ids[k]
  {
    EnumeratesEachOnce(ids, listeners);
    assert ids[k] in ids;
  }

  lemma VisitedNext(ids: seq<nat>, k: nat, entries: map<nat, Entry>, issued: map<nat, nat>, e: Surroundings, entry: Entry, t: nat)
    requires k < |ids| && Visited(ids, k, entries, issued, e) && ids[k] !in issued && forall j :: 0 <= j < k ==> ids[j] != ids[k]
    requires e.addressKnown(k) ==> t == e.clock(k)
    ensures Visited(ids, k + 1, entries[ids[k] := entry], if e.addressKnown(k) then issued[ids[k] := t] else issued, e)
  {
    assert ids[..k + 1] == ids[..k] + [ids[k]];
  }

  lemma EnumeratesLength(ids: seq<nat>, listeners: Listeners)
    requires Enumerates(ids, listeners)
    ensures |ids| == |listeners|
  {
    assert |ids| == |multiset(ids)|;
  }

  lemma AllVisited(ids: seq<nat>, listeners: Listeners, entries: map<nat, Entry>, issued: map<nat, nat>, e: Surroundings)
    requires Enumerates(ids, listeners) && Visited(ids, |ids|, entries, issued, e)
    ensures entries.Keys == listeners.Keys
  {
    EnumeratesEachOnce(ids, listeners);
    assert ids[..|ids|] == ids;
  }

  lemma SurviveAlone(handles: seq<Handle>, last: nat, before: Credentials, now: Credentials)
    requires Survive(handles, last, before, now)
    ensures Survive([], last, before, now)
  {
  }

  /** What this capture has put into the provider, and what it has left there. */
  ghost predicate Held(listeners: Listeners, entries: map<nat, Entry>, issued: map<nat, nat>, handles: seq<Handle>,
                       scope: TlsCredentials.Scope, ttl: nat, last: nat, before: Credentials, now: Credentials)
  {
    && Live(listeners, entries, issued, scope, ttl, last, now) && Distinct(entries, issued, ttl, last)
    && OldOrNew(handles, scope, before, now) && Survive(handles, last, before, now)
  }

  lemma SkipKeeps(listeners: Listeners, entries: map<nat, Entry>, issued: map<nat, nat>, handles: seq<Handle>,
                  scope: TlsCredentials.Scope, ttl: nat, last: nat, before: Credentials, now: Credentials, id: nat)
    requires Held(listeners, entries, issued, handles, scope, ttl, last, before, now) && id !in entries
    ensures Held(listeners, entries[id := OtherEntry], issued, handles, scope, ttl, last, before, now)
  {
    assert id !in issued;
    var entries' := entries[id := OtherEntry];
    forall a, b ensures Apart(entries', issued, ttl, last, a, b) {
      assert Apart(entries, issued, ttl, last, a, b);
    }
    forall x | x in issued ensures IsLive(listeners, entries', issued, scope, ttl, last, now, x) {
      assert IsLive(listeners, entries, issued, scope, ttl, last, now, x);
    }
  }

  /** Provisioning with enough draws: the whole effect on the stored credentials. */
  method Issue(provider: TlsCredentials.Provider, scope: TlsCredentials.Scope, material: TlsCredentials.Material, t: nat,
               draws: seq<Handle>, ghost now: Credentials, ghost ttl: nat)
    returns (r: Result<Handle, TlsCredentials.Error>)
    requires provider.Valid() && |Drawn(draws)| > provider.capacity && provider.credentials == now && provider.ttl == ttl
    modifies provider
    ensures provider.Valid()
    ensures r.Ok? ==>
      && r.value !in TlsCredentials.Current(now, t)
      && provider.credentials == TlsCredentials.Current(now, t)[r.value := TlsCredentials.Stored(scope, material, t + ttl)]
    ensures r.Err? ==>
      && r == Err(TlsCredentials.ProviderFailure)
      && provider.credentials in {now, TlsCredentials.Current(now, t)}
      && (t + ttl > provider.endOfTime || |now| >= provider.capacity)
    ensures |provider.credentials| <= |now| + 1
  {
    SomeDrawIsNew(draws, provider.credentials, provider.capacity);
    TlsCredentials.CurrentSize(now, t);
    r := provider.Provision(scope, material, t, draws);
  }

  /** One listener whose address is known. */
  method CaptureOne(provider: TlsCredentials.Provider, scope: TlsCredentials.Scope, listeners: Listeners, id: nat, addr: string,
                    t: nat, draws: seq<Handle>, ghost entries: map<nat, Entry>, ghost issued: map<nat, nat>,
                    ghost handles: seq<Handle>, ghost last: nat, ghost before: Credentials, ghost now: Credentials, ghost ttl: nat)
    returns (r: Result<Handle, TlsCredentials.Error>, ghost after: Credentials)
    requires provider.Valid() && |Drawn(draws)| > provider.capacity && provider.credentials == now && provider.ttl == ttl
    requires id in listeners && id !in entries && last <= t
    requires Held(listeners, entries, issued, handles, scope, ttl, last, before, now)
    modifies provider
    ensures provider.Valid() && provider.credentials == after && |after| <= |now| + 1
    ensures r.Ok? ==>
      Held(listeners, entries[id := TlsEntry(addr, r.value)], issued[id := t], handles + [r.value], scope, ttl, t, before, after)
    ensures r.Err? ==> r == Err(TlsCredentials.ProviderFailure)
    ensures r.Err? ==> t + ttl > provider.endOfTime || |now| >= provider.capacity
    ensures r.Err? ==> OldOrNew(handles, scope, before, after) && Survive(handles, t, before, after)
  {
    r := Issue(provider, scope, listeners[id].material, t, draws, now, ttl);
    if r.Ok? {
      after := TlsCredentials.Current(now, t)[r.value := TlsCredentials.Stored(scope, listeners[id].material, t + ttl)];
      assert id !in issued;
      ProvisionKeepsOld(handles, scope, last, before, now, t, r.value, TlsCredentials.Stored(scope, listeners[id].material, t + ttl));
      ProvisionKeepsLive(listeners, entries, issued, scope, ttl, last, now, id, addr, t, r.value);
      ProvisionKeepsDistinct(listeners, entries, issued, scope, ttl, last, now, id, addr, t, r.value);
    } else {
      after := provider.credentials;
      PurgeKeepsOld(handles, scope, last, before, now, t);
    }
  }

  /** One turn of the loop. */
  method CaptureNext(provider: TlsCredentials.Provider, scope: TlsCredentials.Scope, listeners: Listeners, ids: seq<nat>, k: nat,
                     e: Surroundings, entries: map<nat, Entry>, handles: seq<Handle>, ghost issued: map<nat, nat>, ghost last: nat,
                     ghost before: Credentials)
    returns (ok: bool, more: map<nat, Entry>, all: seq<Handle>, ghost issued': map<nat, nat>, ghost last': nat)
    requires provider.Valid() && |Drawn(e.draws(k))| > provider.capacity && k < |ids| && Enumerates(ids, listeners) && last <= e.clock(k)
    requires Held(listeners, entries, issued, handles, scope, provider.ttl, last, before, provider.credentials)
    requires Recorded(listeners, entries, issued, e) && Visited(ids, k, entries, issued, e)
    modifies provider
    ensures provider.Valid() && last' <= e.clock(k) && |provider.credentials| <= |old(provider.credentials)| + 1
    ensures |all| - |handles| == |issued'| - |issued|
    ensures !ok ==> e.clock(k) + provider.ttl > provider.endOfTime || |old(provider.credentials)| >= provider.capacity
    ensures ok ==>
      && Held(listeners, more, issued', all, scope, provider.ttl, last', before, provider.credentials)
      && Recorded(listeners, more, issued', e) && Visited(ids, k + 1, more, issued', e)
    ensures OldOrNew(all, scope, before, provider.credentials) && Survive(all, last', before, provider.credentials)
  {
    var id := ids[k];
    more, all, issued', last' := entries, handles, issued, last;
    NextIsNew(listeners, ids, k, entries, issued, e);
    if !e.addressKnown(k) {
      VisitedNext(ids, k, entries, issued, e, OtherEntry, 0);
      SkipKeeps(listeners, entries, issued, handles, scope, provider.ttl, last, before, provider.credentials, id);
      more := entries[id := OtherEntry];
      return true, more, all, issued', last';
    }
    var addr := e.render(listeners[id].addr);
    var handle, _ := CaptureOne(provider, scope, listeners, id, addr, e.clock(k), e.draws(k), entries, issued, handles, last, before,
                                provider.credentials, provider.ttl);
    last' := e.clock(k);
    if handle.Err? {
      return false, more, all, issued', last';
    }
    VisitedNext(ids, k, entries, issued, e, TlsEntry(addr, handle.value), e.clock(k));
    more, all, issued' := entries[id := TlsEntry(addr, handle.value)], handles + [handle.value], issued[id := e.clock(k)];
    return true, more, all, issued', last';
  }

  /** The loop, up to the first listener for which no credential can be provisioned. */
  method CaptureAll(provider: TlsCredentials.Provider, scope: TlsCredentials.Scope, listeners: Listeners, ids: seq<nat>, e: Surroundings,
                    ghost before: Credentials)
    returns (ok: bool, entries: map<nat, Entry>, handles: seq<Handle>, k: nat, ghost issued: map<nat, nat>, ghost last: nat)
    requires provider.Valid() && before == provider.credentials && Plenty(e, provider.capacity) && Monotone(e.clock)
    requires Enumerates(ids, listeners)
    modifies provider
    ensures provider.Valid() && k <= |ids| && last <= e.clock(k) && |handles| == |issued|
    ensures !ok ==> k < |ids| && (e.clock(k) + provider.ttl > provider.endOfTime || |before| + k >= provider.capacity)
    ensures OldOrNew(handles, scope, before, provider.credentials) && Survive(handles, last, before, provider.credentials)
    ensures ok ==>
      && Held(listeners, entries, issued, handles, scope, provider.ttl, last, before, provider.credentials)
      && Recorded(listeners, entries, issued, e) && Visited(ids, |ids|, entries, issued, e)
  {
    ok, entries, handles, k, issued, last := true, map[], [], 0, map[], 0;
    while k < |ids|
      invariant provider.Valid() && k <= |ids| && last <= e.clock(k) && |handles| == |issued|
      invariant |provider.credentials| <= |before| + k
      invariant Held(listeners, entries, issued, handles, scope, provider.ttl, last, before, provider.credentials)
      invariant Recorded(listeners, entries, issued, e) && Visited(ids, k, entries, issued, e)
    {
      ok, entries, handles, issued, last := CaptureNext(provider, scope, listeners, ids, k, e, entries, handles, issued, last, before);
      if !ok {
        return;
      }
      assert e.clock(k) <= e.clock(k + 1);
      k := k + 1;
    }
    ok := true;
  }

  /**
   The TLS part of `capture_resource_snapshot`.  If it fails, every handle it provisioned is revoked;
   if it succeeds, every listener has its entry, and every entry a live credential of its own.
   */
  method CaptureTls(provider: TlsCredentials.Provider, scope: TlsCredentials.Scope, listeners: Listeners, ids: seq<nat>,
                    e: Surroundings)
    returns (r: Result<map<nat, Entry>, TlsCredentials.Error>, ghost issued: map<nat, nat>, ghost last: nat,
             ghost all: seq<Handle>)
    requires provider.Valid() && Enumerates(ids, listeners) && Plenty(e, provider.capacity) && Monotone(e.clock)
    modifies provider
    ensures provider.Valid() && last <= e.clock(|ids|)
    ensures r.Err? ==>
      r == Err(TlsCredentials.ProviderFailure) && Returned(old(provider.credentials), provider.credentials)
    // it succeeds whenever the provider has room for all listeners and time for one more TTL
    ensures |old(provider.credentials)| + |listeners| <= provider.capacity && e.clock(|ids|) + provider.ttl <= provider.endOfTime ==> r.Ok?
    ensures r.Ok? ==>
      && r.value.Keys == listeners.Keys && Recorded(listeners, r.value, issued, e)
      && Visited(ids, |ids|, r.value, issued, e)
      && Live(listeners, r.value, issued, scope, provider.ttl, last, provider.credentials)
      && Distinct(r.value, issued, provider.ttl, last)
    // and puts nothing else into the provider
    ensures r.Ok? ==> |all| == |issued| && OldOrNew(all, scope, old(provider.credentials), provider.credentials)
    ensures Survive([], last, old(provider.credentials), provider.credentials)
  {
    ghost var before := provider.credentials;
    var ok, entries, handles, k;
    ok, entries, handles, k, issued, last := CaptureAll(provider, scope, listeners, ids, e, before);
    all := handles;
    assert last <= e.clock(k) <= e.clock(|ids|);
    EnumeratesLength(ids, listeners);
    if !ok {
      RevokeAll(provider, scope, handles, e.clock(k), before, last);
      return Err(TlsCredentials.ProviderFailure), issued, last, all;
    }
    AllVisited(ids, listeners, entries, issued, e);
    SurviveAlone(handles, last, before, provider.credentials);
    return Ok(entries), issued, last, all;
  }

  /**
   Captured and restored by one process within the TTL, every listener comes back: the credentials
   are there, each entry has its own, and what is rebuilt is the listener that was captured.
   */
  lemma CapturedIsReady(listeners: Listeners, entries: map<nat, Entry>, issued: map<nat, nat>, e: Surroundings,
                        scope: TlsCredentials.Scope, ttl: nat, last: nat, now: Credentials, w: World, room: int)
    requires Recorded(listeners, entries, issued, e) && issued.Keys == entries.Keys
    requires Live(listeners, entries, issued, scope, ttl, last, now) && Distinct(entries, issued, ttl, last)
    requires forall id :: id in entries ==> last <= w.clock(id) < issued[id] + ttl && w.tlsBinds(id)
    requires forall a: Addr :: w.parse(e.render(a)) == Some(a)
    ensures var p := Plan(entries, scope, w);
      && (AllReady(p, now, room) <==> |entries| <= room)
      && forall id :: id in entries ==> Ready(p, id, now) && Listener(p, id, now) == listeners[id]
  {
    forall id | id in entries ensures Ready(Plan(entries, scope, w), id, now) && Listener(Plan(entries, scope, w), id, now) == listeners[id] {
      CapturedOne(listeners, entries, issued, e, scope, ttl, last, now, w, id);
    }
    forall a, b | a in entries && b in entries && a != b ensures entries[a].credentialHandle != entries[b].credentialHandle {
      assert Apart(entries, issued, ttl, last, a, b);
    }
  }

  lemma CapturedOne(listeners: Listeners, entries: map<nat, Entry>, issued: map<nat, nat>, e: Surroundings,
                    scope: TlsCredentials.Scope, ttl: nat, last: nat, now: Credentials, w: World, id: nat)
    requires Recorded(listeners, entries, issued, e) && id in entries && id in issued
    requires Live(listeners, entries, issued, scope, ttl, last, now)
    requires last <= w.clock(id) < issued[id] + ttl && w.tlsBinds(id)
    requires w.parse(e.render(listeners[id].addr)) == Some(listeners[id].addr)
    ensures var p := Plan(entries, scope, w); Ready(p, id, now) && Listener(p, id, now) == listeners[id]
  {
  }
}
