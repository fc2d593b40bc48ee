/** The process-local TLS credential provider: scoped, expiring, single-use handles. */
module TlsCredentials {
  import opened Wrappers

  datatype Error = Unavailable | Expired | ProviderFailure

  /** A random handle; times and durations are whole ticks of a monotonic clock. */
  type Handle = nat
  type Material = nat

  datatype Scope = Scope(environmentId: nat, processId: nat)
  datatype Stored = Stored(scope: Scope, material: Material, expiresAt: nat)

  // ---------------------------------------------------------------- what happened, in order

  datatype Event =
    | Provisioned(handle: Handle, scope: Scope, material: Material, at: nat)
    | Taken(handle: Handle, scope: Scope, material: Material, at: nat)

  ghost predicate Quiet(log: seq<Event>, i: nat, j: nat, handle: Handle) {
    forall k :: i < k < j && k < |log| ==> log[k].handle != handle
  }

  /** The take at `j` used up the provision at `i`. */
  ghost predicate Grants(log: seq<Event>, i: nat, j: nat, ttl: nat) {
    && i < j < |log| && log[j].Taken?
    && log[i].Provisioned? && log[i].handle == log[j].handle
    && log[i].scope == log[j].scope && log[i].material == log[j].material
    && log[j].at < log[i].at + ttl
    && Quiet(log, i, j, log[j].handle)
  }

  ghost predicate AllGranted(log: seq<Event>, ttl: nat) {
    forall j :: 0 <= j < |log| && log[j].Taken? ==> exists i: nat :: Grants(log, i, j, ttl)
  }

  /** A stored credential is an unused provision. */
  ghost predicate Unused(log: seq<Event>, i: nat, handle: Handle, stored: Stored, ttl: nat) {
    && i < |log| && log[i] == Provisioned(handle, stored.scope, stored.material, log[i].at)
    && stored.expiresAt == log[i].at + ttl
    && Quiet(log, i, |log|, handle)
  }

  ghost predicate AllUnused(log: seq<Event>, origin: map<Handle, nat>, credentials: map<Handle, Stored>, ttl: nat) {
    forall h :: h in credentials ==> h in origin && Unused(log, origin[h], h, credentials[h], ttl)
  }

  lemma GrantsStay(log: seq<Event>, event: Event, ttl: nat)
    requires AllGranted(log, ttl)
    ensures forall j :: 0 <= j < |log| && log[j].Taken? ==> exists i: nat :: Grants(log + [event], i, j, ttl)
  {
    forall j | 0 <= j < |log| && log[j].Taken? ensures exists i: nat :: Grants(log + [event], i, j, ttl) {
      var i: nat :| Grants(log, i, j, ttl);
      assert Grants(log + [event], i, j, ttl);
    }
  }

  /** Each provision pays for at most one take: two takes of one handle have a new provision in between. */
  lemma SingleUse(log: seq<Event>, ttl: nat, j: nat, k: nat)
    requires AllGranted(log, ttl)
    requires j < k < |log| && log[j].Taken? && log[k].Taken? && log[j].handle == log[k].handle
    ensures exists i: nat :: j < i && Grants(log, i, k, ttl)
  {
    var i: nat :| Grants(log, i, k, ttl);
    assert log[j].handle == log[k].handle;
  }

  lemma ProvisionKeeps(log: seq<Event>, origin: map<Handle, nat>, credentials: map<Handle, Stored>, ttl: nat,
                       handle: Handle, scope: Scope, material: Material, now: nat)
    requires AllGranted(log, ttl) && AllUnused(log, origin, credentials, ttl) && handle !in credentials
    ensures var after := log + [Provisioned(handle, scope, material, now)];
      && AllGranted(after, ttl)
      && AllUnused(after, origin[handle := |log|], credentials[handle := Stored(scope, material, now + ttl)], ttl)
  {
    GrantsStay(log, Provisioned(handle, scope, material, now), ttl);
  }

  lemma TakeKeeps(log: seq<Event>, origin: map<Handle, nat>, credentials: map<Handle, Stored>, ttl: nat, handle: Handle, now: nat)
    requires AllGranted(log, ttl) && AllUnused(log, origin, credentials, ttl)
    requires handle in credentials && now < credentials[handle].expiresAt
    ensures var after := log + [Taken(handle, credentials[handle].scope, credentials[handle].material, now)];
      AllGranted(after, ttl) && AllUnused(after, origin, credentials - {handle}, ttl)
  {
    var event := Taken(handle, credentials[handle].scope, credentials[handle].material, now);
    GrantsStay(log, event, ttl);
    assert Grants(log + [event], origin[handle], |log|, ttl);
  }

  /** A take of this handle by this process at `now` is due the provision at `i`: unused, its own, and not expired. */
  ghost predicate Due(log: seq<Event>, i: nat, scope: Scope, handle: Handle, now: nat, ttl: nat) {
    && i < |log| && log[i].Provisioned? && log[i].handle == handle && log[i].scope == scope
    && now < log[i].at + ttl && Quiet(log, i, |log|, handle)
  }

  /** No unused provision is forgotten that had not expired when expired ones were last dropped. */
  ghost predicate AllKept(log: seq<Event>, credentials: map<Handle, Stored>, purged: nat, ttl: nat) {
    forall i :: 0 <= i < |log| && log[i].Provisioned? && log[i].at + ttl > purged && Quiet(log, i, |log|, log[i].handle) ==>
      Kept(log[i], credentials, ttl)
  }

  predicate Kept(event: Event, credentials: map<Handle, Stored>, ttl: nat) {
    event.handle in credentials && credentials[event.handle] == Stored(event.scope, event.material, event.at + ttl)
  }

  lemma KeptAfter(log: seq<Event>, credentials: map<Handle, Stored>, purged: nat, ttl: nat, event: Event,
                  after: map<Handle, Stored>, now: nat)
    requires AllKept(log, credentials, purged, ttl) && now >= purged
    requires forall h :: h in credentials && h != event.handle && credentials[h].expiresAt > now ==>
      h in after && after[h] == credentials[h]
    requires event.Provisioned? ==> Kept(event, after, ttl)
    ensures AllKept(log + [event], after, now, ttl)
  {
    var log' := log + [event];
    forall i | 0 <= i < |log'| && log'[i].Provisioned? && log'[i].at + ttl > now && Quiet(log', i, |log'|, log'[i].handle)
      ensures Kept(log'[i], after, ttl)
    {
      if i < |log| {
        assert log'[|log|] == event;
        assert Quiet(log, i, |log|, log[i].handle) by {
          assert forall k :: i < k < |log| ==> log'[k] == log[k];
        }
        assert Kept(log[i], credentials, ttl);
      }
    }
  }

  lemma KeptWithout(log: seq<Event>, credentials: map<Handle, Stored>, purged: nat, ttl: nat, after: map<Handle, Stored>, now: nat)
    requires AllKept(log, credentials, purged, ttl) && now >= purged
    requires forall h :: h in credentials && credentials[h].expiresAt > now ==> h in after && after[h] == credentials[h]
    ensures AllKept(log, after, now, ttl)
  {
    forall i | 0 <= i < |log| && log[i].Provisioned? && log[i].at + ttl > now && Quiet(log, i, |log|, log[i].handle)
      ensures Kept(log[i], after, ttl)
    {
      assert Kept(log[i], credentials, ttl);
    }
  }

  /** What is stored answers a take exactly as the history says it must. */
  lemma AnswerIsDue(log: seq<Event>, origin: map<Handle, nat>, credentials: map<Handle, Stored>, purged: nat, ttl: nat,
                    scope: Scope, handle: Handle, now: nat)
    requires AllUnused(log, origin, credentials, ttl) && AllKept(log, credentials, purged, ttl) && purged <= now
    ensures Answer(credentials, scope, handle, now).Ok? <==> exists i: nat :: Due(log, i, scope, handle, now, ttl)
    ensures forall i: nat :: Due(log, i, scope, handle, now, ttl) ==>
      Answer(credentials, scope, handle, now) == Ok(log[i].material)
  {
    if Answer(credentials, scope, handle, now).Ok? {
      assert Unused(log, origin[handle], handle, credentials[handle], ttl);
      assert Due(log, origin[handle], scope, handle, now, ttl);
    }
    forall i: nat | Due(log, i, scope, handle, now, ttl) ensures Answer(credentials, scope, handle, now) == Ok(log[i].material) {
      assert Kept(log[i], credentials, ttl);
    }
  }

  class Provider {
    const ttl: nat
    const capacity: nat
    /** The last representable instant. */
    const endOfTime: nat
    var credentials: map<Handle, Stored>
    ghost var log: seq<Event>
    ghost var origin: map<Handle, nat>
    /** The latest time at which expired credentials were dropped. */
    ghost var purged: nat

    ghost predicate Valid()
      reads this
    {
      && |credentials| <= capacity
      && AllGranted(log, ttl) && AllUnused(log, origin, credentials, ttl) && AllKept(log, credentials, purged, ttl)
    }

    constructor (ttl: nat, capacity: nat, endOfTime: nat)
      ensures Valid() && this.ttl == ttl && this.capacity == capacity && this.endOfTime == endOfTime
      ensures credentials == map[] && log == [] && purged == 0
    {
      this.ttl, this.capacity, this.endOfTime := ttl, capacity, endOfTime;
      credentials, log, origin, purged := map[], [], map[], 0;
    }

    /** Draws again until the handle is not in use. */
    method FirstUnused(draws: seq<Handle>) returns (handle: Handle)
      requires exists c :: c in draws && c !in credentials
      ensures handle in draws && handle !in credentials
    {
      var k := 0;
      assert draws[0..] == draws;
      while draws[k] in credentials
        invariant 0 <= k < |draws| && exists c :: c in draws[k..] && c !in credentials
        decreases |draws| - k
      {
        k := k + 1;
      }
      return draws[k];
    }

    method DropExpired(now: nat)
      requires Valid()
      modifies `credentials, `purged
      ensures Valid() && purged == Max(old(purged), now) && credentials == Current(old(credentials), now)
    {
      CurrentSize(credentials, now);
      KeptWithout(log, credentials, purged, ttl, Current(credentials, now), Max(purged, now));
      credentials, purged := Current(credentials, now), Max(purged, now);
    }

    method Keep(handle: Handle, scope: Scope, material: Material, now: nat)
      requires Valid() && handle !in credentials && |credentials| < capacity
      modifies `credentials, `log, `origin
      ensures Valid()
      ensures credentials == old(credentials)[handle := Stored(scope, material, now + ttl)]
      ensures log == old(log) + [Provisioned(handle, scope, material, now)]
    {
      ProvisionKeeps(log, origin, credentials, ttl, handle, scope, material, now);
      KeptAfter(log, credentials, purged, ttl, Provisioned(handle, scope, material, now),
                credentials[handle := Stored(scope, material, now + ttl)], purged);
      credentials := credentials[handle := Stored(scope, material, now + ttl)];
      origin := origin[handle := |log|];
      log := log + [Provisioned(handle, scope, material, now)];
    }

    /** `provision`; `draws` are the random candidates, of which the first unused one becomes the handle. */
    method Provision(scope: Scope, material: Material, now: nat, draws: seq<Handle>) returns (r: Result<Handle, Error>)
      requires Valid() && exists c :: c in draws && c !in credentials
      modifies `credentials, `log, `origin, `purged
      ensures Valid() && purged <= Max(old(purged), now)
      ensures now + ttl > endOfTime ==> r == Err(ProviderFailure) && credentials == old(credentials) && log == old(log)
      ensures now + ttl <= endOfTime ==>
        (r.Ok? <==> |Current(old(credentials), now)| < capacity)
      ensures now + ttl <= endOfTime && r.Err? ==>
        r == Err(ProviderFailure) && credentials == Current(old(credentials), now) && log == old(log)
      ensures r.Ok? ==>
        && r.value in draws && r.value !in Current(old(credentials), now)
        && credentials == Current(old(credentials), now)[r.value := Stored(scope, material, now + ttl)]
        && log == old(log) + [Provisioned(r.value, scope, material, now)]
      // it is full only of credentials that have not expired; those that have are dropped, and no other
      ensures now + ttl <= endOfTime && r.Err? ==> |credentials| >= capacity
      ensures now + ttl <= endOfTime ==> forall h :: h in credentials && r != Ok(h) ==> credentials[h].expiresAt > now
      ensures forall h :: h in old(credentials) && old(credentials)[h].expiresAt > now ==>
        h in credentials && credentials[h] == old(credentials)[h]
    {
      if now + ttl > endOfTime {
        return Err(ProviderFailure);
      }
      DropExpired(now);
      if |credentials| >= capacity {
        return Err(ProviderFailure);
      }
      var handle := FirstUnused(draws);
      Keep(handle, scope, material, now);
      return Ok(handle);
    }

    /** `take`: a handle of another scope looks the same as an unknown one. */
    method Take(scope: Scope, handle: Handle, now: nat) returns (r: Result<Material, Error>)
      requires Valid()
      modifies `credentials, `log, `purged
      ensures Valid() && purged <= Max(old(purged), now)
      // with a clock that does not run back: exactly what was provisioned to this process, once and in time
      ensures old(purged) <= now ==> (r.Ok? <==> exists i: nat :: Due(old(log), i, scope, handle, now, ttl))
      ensures old(purged) <= now ==> forall i: nat :: Due(old(log), i, scope, handle, now, ttl) ==> r == Ok(old(log)[i].material)
      ensures r == Answer(old(credentials), scope, handle, now)
      ensures credentials == if handle in old(credentials) && old(credentials)[handle].scope == scope
                             then old(credentials) - {handle} else old(credentials)
      ensures log == if r.Ok? then old(log) + [Taken(handle, scope, r.value, now)] else old(log)
    {
      if purged <= now {
        AnswerIsDue(log, origin, credentials, purged, ttl, scope, handle, now);
      }
      if handle !in credentials || credentials[handle].scope != scope {
        return Err(Unavailable);
      }
      var stored := credentials[handle];
      RemovalSize(credentials, handle);
      if now >= stored.expiresAt {
        KeptWithout(log, credentials, purged, ttl, credentials - {handle}, Max(purged, now));
        credentials, purged := credentials - {handle}, Max(purged, now);
        return Err(Expired);
      }
      TakeKeeps(log, origin, credentials, ttl, handle, now);
      KeptAfter(log, credentials, purged, ttl, Taken(handle, scope, stored.material, now), credentials - {handle}, purged);
      credentials := credentials - {handle};
      log := log + [Taken(handle, scope, stored.material, now)];
      return Ok(stored.material);
    }

    /** The default `revoke`: take and drop. */
    method Revoke(scope: Scope, handle: Handle, now: nat) returns (r: Result<(), Error>)
      requires Valid()
      modifies `credentials, `log, `purged
      ensures Valid() && purged <= Max(old(purged), now)
      ensures r.Ok? <==> Answer(old(credentials), scope, handle, now).Ok?
      ensures r.Ok? ==> handle !in credentials
      ensures credentials == if handle in old(credentials) && old(credentials)[handle].scope == scope
                             then old(credentials) - {handle} else old(credentials)
    {
      var taken := Take(scope, handle, now);
      return if taken.Ok? then Ok(()) else Err(taken.error);
    }
  }

  /** What remains after expired credentials are purged. */
  function Current(credentials: map<Handle, Stored>, now: nat): map<Handle, Stored> {
    map h | h in credentials && credentials[h].expiresAt > now :: credentials[h]
  }

  function Answer(credentials: map<Handle, Stored>, scope: Scope, handle: Handle, now: nat): Result<Material, Error> {
    if handle !in credentials || credentials[handle].scope != scope then Err(Unavailable)
    else if now >= credentials[handle].expiresAt then Err(Expired)
    else Ok(credentials[handle].material)
  }

  lemma SubsetSize<T>(a: set<T>, b: set<T>)
    requires a <= b
    ensures |a| <= |b|
  {
    assert b == a + (b - a);
  }

  lemma CurrentSize(credentials: map<Handle, Stored>, now: nat)
    ensures |Current(credentials, now)| <= |credentials|
  {
    var c := Current(credentials, now);
    assert c.Keys <= credentials.Keys;
    SubsetSize(c.Keys, credentials.Keys);
  }

  lemma RemovalSize(credentials: map<Handle, Stored>, handle: Handle)
    ensures |credentials - {handle}| <= |credentials|
  {
    var c := credentials - {handle};
    assert c.Keys <= credentials.Keys;
    SubsetSize(c.Keys, credentials.Keys);
  }
}
