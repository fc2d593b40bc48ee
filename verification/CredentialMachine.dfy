/**
 The two stores a CLI login keeps in agreement -- the configuration file and the operating
 system's credential store -- with every way their operations may fail.
 */
module CredentialMachine {
  import opened Wrappers
  import opened Utf8
  import opened CredentialCodec
  import Cookies

  /** Random, derived from a legacy login, or not a UUID at all. */
  datatype Reference = Random(id: nat) | Migrated(appId: string, provider: string) | Malformed(text: string)

  datatype Provider = Provider(name: string, credentialRef: Reference)
  datatype LegacyProvider = LegacyProvider(loginId: string, name: string, cookies: seq<string>)

  datatype GlobalConfig = GlobalConfig(appId: string, provider: Option<Provider>, pendingDeletion: Option<Reference>)

  /** What the configuration file holds. */
  datatype Content =
    | Absent
    | Undecodable
    | Legacy(appId: string, legacyProvider: Option<LegacyProvider>)
    | Current(config: GlobalConfig)

  /**
   `visible` is what reads return; `possible` is what a power loss may leave behind, because a
   replacement whose directory was not synchronized may be undone.
   */
  datatype Disk = Disk(visible: Content, possible: set<Content>)

  type Store = map<Reference, seq<byte>>

  datatype Snapshot = Snapshot(disk: Disk, store: Store)

  /** The record codec, and parsing that happens in libraries: URLs, HTTP dates, percent-decoding. */
  datatype Env = Env(
    encode: Credential -> StoreResult<seq<byte>>,
    decode: seq<byte> -> StoreResult<Credential>,
    parseUrl: string -> Option<string>,
    canonicalUrl: string -> bool,
    date: Cookies.HttpDate,
    decodeLoginId: string -> Option<string>)

  /** What the transaction needs of its codec. */
  ghost predicate FaithfulCodec(env: Env) {
    && (forall b :: env.decode(b).Ok? ==> env.encode(env.decode(b).value) == Ok(b))
    && (forall b :: env.decode(b).Err? ==> env.decode(b).error == Invalid)
    && (forall c :: env.encode(c).Ok? ==> env.decode(env.encode(c).value) == Ok(c))
    && (forall c :: env.encode(c).Err? ==> env.encode(c).error == Invalid || env.encode(c).error == TooLarge)
  }

  /** The credential record codec is such a codec. */
  lemma RecordCodecIsFaithful(env: Env)
    requires env.encode == ((c: Credential) => EncodeCredential(c, env.canonicalUrl))
    requires env.decode == ((b: seq<byte>) => DecodeCredential(b, env.canonicalUrl))
    ensures FaithfulCodec(env)
  {
    forall b | env.decode(b).Ok? ensures env.encode(env.decode(b).value) == Ok(b) {
      CredentialCodec.Canonical(b, env.canonicalUrl);
    }
    forall c | env.encode(c).Ok? ensures env.decode(env.encode(c).value) == Ok(c) {
      CredentialCodec.RoundTrip(c, env.canonicalUrl);
    }
  }

  datatype ConfigError =
    | FileWriteFailed | TomlEncodingFailed | FileDurabilityUncertain
    | FileReadFailed | TomlDecodingFailed
    | CredentialStore(error: StoreError) | CredentialRollbackFailed

  datatype Outcome<+T> = Done(value: T) | Fail(error: ConfigError)

  // ---------------------------------------------------------------- safety

  /** The configuration on disk names this reference. */
  predicate Names(c: Content, r: Reference) {
    match c
    case Legacy(appId, Some(p)) => r == Migrated(appId, p.name)
    case Current(g) => (g.provider.Some? && g.provider.value.credentialRef == r) || g.pendingDeletion == Some(r)
    case _ => false
  }

  /** Never a provider and a tombstone at once; a tombstone is always a proper reference. */
  predicate WellFormed(c: Content) {
    c.Current? && c.config.pendingDeletion.Some? ==> c.config.provider.None? && !c.config.pendingDeletion.value.Malformed?
  }

  /** No login left anywhere in the file. */
  predicate Clean(c: Content) {
    match c
    case Absent => true
    case Undecodable => false
    case Legacy(_, p) => p.None?
    case Current(g) => g.provider.None? && g.pendingDeletion.None?
  }

  /** Every command refuses such a file: it does not decode, or its tombstone is not an acceptable one. */
  predicate Stuck(c: Content) { c.Undecodable? || !WellFormed(c) }

  /**
   No stored credential is orphaned, whichever version of the file survives.  Nothing is known
   about the store beside a file that every command refuses.
   */
  ghost predicate Safe(disk: Disk, store: Store) {
    && disk.visible in disk.possible
    && (disk.visible.Legacy? || Stuck(disk.visible) ==> disk.possible == {disk.visible})
    && (forall c :: c in disk.possible && Stuck(c) ==> disk.visible == c)
    && (!Stuck(disk.visible) ==>
          forall r :: r in store ==> !r.Malformed? && forall c :: c in disk.possible ==> Names(c, r))
  }

  lemma CleanMeansEmpty(disk: Disk, store: Store)
    requires Safe(disk, store) && Clean(disk.visible)
    ensures store == map[]
  {
    assert forall r :: r in store ==> Names(disk.visible, r);
  }

  /** After a power loss any possible version may be the file. */
  lemma PowerLossKeepsSafe(disk: Disk, store: Store, c: Content)
    requires Safe(disk, store) && c in disk.possible
    ensures Safe(Disk(c, {c}), store)
  {
  }

  // ---------------------------------------------------------------- the machine

  class Machine {
    const env: Env
    /** When set, every operation of the two stores succeeds and does what it says. */
    const reliable: bool
    var disk: Disk
    var store: Store
    /** Every state a crash could have exposed so far. */
    var trace: seq<Snapshot>

    ghost predicate Valid()
      reads this
    {
      && FaithfulCodec(env)
      && Safe(disk, store)
      && forall s :: s in trace ==> Safe(s.disk, s.store) && !Stuck(s.disk.visible)
    }

    constructor (env: Env, reliable: bool, disk: Disk, store: Store)
      requires FaithfulCodec(env) && Safe(disk, store)
      ensures Valid() && this.env == env && this.reliable == reliable
      ensures this.disk == disk && this.store == store && trace == []
    {
      this.env, this.reliable, this.disk, this.store, this.trace := env, reliable, disk, store, [];
    }

    /** The process dies at any state exposed since `start`, and the power may go with it. */
    method Crash(start: nat)
      requires Valid() && start <= |trace|
      modifies this
      ensures Valid() && trace == old(trace)
      ensures Stuck(disk.visible) ==> Stuck(old(disk.visible))
      ensures start == |trace| && Stuck(old(disk.visible)) ==> disk == old(disk) && store == old(store)
    {
      var at: int, powerLoss := *, *;
      if start <= at < |trace| {
        assert trace[at] in trace;
        disk, store := trace[at].disk, trace[at].store;
      }
      if powerLoss {
        var survivor :| survivor in disk.possible;
        PowerLossKeepsSafe(disk, store, survivor);
        disk := Disk(survivor, {survivor});
      }
    }

    /** Opening, checking and reading the file, or taking the lock. */
    method CanRead() returns (ok: bool)
      ensures reliable ==> ok
    {
      ok := *;
      ok := ok || reliable;
    }

    /**
     `write_private_toml`: fails before the replacement, or replaces the file and reports
     whether the directory was synchronized.
     */
    method WriteConfig(config: GlobalConfig) returns (r: Outcome<()>)
      requires Valid() && !Stuck(disk.visible)
      requires WellFormed(Current(config)) && forall k :: k in store ==> Names(Current(config), k)
      modifies this
      ensures Valid() && store == old(store) && old(trace) <= trace
      ensures reliable ==> r.Done?
      ensures r.Done? ==> disk == Disk(Current(config), {Current(config)})
      ensures r.Fail? && r.error == FileDurabilityUncertain ==>
        disk == Disk(Current(config), old(disk.possible) + {Current(config)})
      ensures r.Fail? && r.error != FileDurabilityUncertain ==> disk == old(disk)
      ensures r.Fail? ==> r.error in {FileWriteFailed, TomlEncodingFailed, FileDurabilityUncertain}
    {
      var fails, encodes, synced := *, *, *;
      if fails && !reliable {
        return Fail(if encodes then FileWriteFailed else TomlEncodingFailed);
      }
      disk := Disk(Current(config), disk.possible + {Current(config)});
      trace := trace + [Snapshot(disk, store)];
      if !synced && !reliable {
        return Fail(FileDurabilityUncertain);
      }
      disk := Disk(Current(config), {Current(config)});
      trace := trace + [Snapshot(disk, store)];
      return Done(());
    }

    /** Only the entry of `r` may differ from before. */
    twostate predicate OnlyEntry(r: Reference)
      reads this
    {
      && (forall k :: k in store && k != r ==> k in old(store) && store[k] == old(store)[k])
      && (forall k :: k in old(store) && k != r ==> k in store)
    }

    /**
     `put`: reports `Ok` or `Failed` with the entry in any state whatever, or another error
     with the store untouched.
     */
    method Put(r: Reference, c: Credential) returns (result: StoreResult<()>)
      requires Valid() && !Stuck(disk.visible) && forall d :: d in disk.possible ==> Names(d, r)
      modifies this
      ensures Valid() && disk == old(disk) && old(trace) <= trace
      ensures result.Err? && result.error != Failed ==> store == old(store)
      ensures OnlyEntry(r)
      ensures reliable && !r.Malformed? && env.encode(c).Ok? ==>
        result.Ok? && r in store && store[r] == env.encode(c).value
      ensures reliable && (r.Malformed? || env.encode(c).Err?) ==>
        result.Err? && result.error != Failed
    {
      if r.Malformed? {
        return Err(Invalid);
      }
      var encoded := env.encode(c);
      if encoded.Err? {
        return Err(encoded.error);
      }
      var error: StoreError, fails, present, bytes: seq<byte> := *, *, *, *;
      if fails && error != Failed && !reliable {
        return Err(error);
      }
      if reliable {
        store := store[r := encoded.value];
      } else if present {
        store := store[r := bytes];
      } else {
        store := store - {r};
      }
      trace := trace + [Snapshot(disk, store)];
      return if fails && !reliable then Err(Failed) else Ok(());
    }

    /** `get` answers truthfully or not at all. */
    method Get(r: Reference) returns (result: StoreResult<Credential>)
      requires Valid()
      ensures result.Ok? ==> r in store && env.decode(store[r]) == result
      ensures result == Err(Missing) ==> r !in store || r.Malformed?
      ensures reliable && !r.Malformed? ==>
        result == if r in store then env.decode(store[r]) else Err(Missing)
    {
      if r.Malformed? {
        return Err(Invalid);
      }
      var error: StoreError, fails := *, *;
      if fails && error != Missing && !reliable {
        return Err(error);
      }
      return if r in store then env.decode(store[r]) else Err(Missing);
    }

    /** `delete` may do nothing and may answer anything. */
    method Delete(r: Reference) returns (result: StoreResult<()>)
      requires Valid() && !Stuck(disk.visible)
      modifies this
      ensures Valid() && disk == old(disk) && old(trace) <= trace
      ensures OnlyEntry(r) && (r in store ==> r in old(store) && store[r] == old(store)[r])
      ensures reliable && !r.Malformed? ==> r !in store && (result.Ok? || result == Err(Missing))
    {
      if r.Malformed? {
        return Err(Invalid);
      }
      var removes, answer: StoreResult<()> := *, *;
      if reliable {
        answer := if r in store then Ok(()) else Err(Missing);
      }
      if removes || reliable {
        store := store - {r};
      }
      trace := trace + [Snapshot(disk, store)];
      return answer;
    }

    // -------------------------------------------------------------- verified operations

    /** `verify_credential`: compares encodings, which identify credentials. */
    method VerifyCredential(r: Reference, expected: Credential) returns (result: StoreResult<()>)
      requires Valid()
      ensures result.Ok? ==> r in store && env.encode(expected) == Ok(store[r])
      ensures reliable && !r.Malformed? && r in store && env.encode(expected) == Ok(store[r]) ==>
        result.Ok?
    {
      var actual := Get(r);
      if actual.Err? {
        return Err(actual.error);
      }
      var expectedBytes := env.encode(expected);
      if expectedBytes.Err? {
        return Err(expectedBytes.error);
      }
      var actualBytes := env.encode(actual.value);
      assert actualBytes.Ok?;  // what was read back always encodes
      return if expectedBytes.value == actualBytes.value then Ok(()) else Err(Failed);
    }

    /** `delete_credential_verified`: trusts only the read-back. */
    method DeleteCredentialVerified(r: Reference) returns (result: StoreResult<()>)
      requires Valid() && !Stuck(disk.visible)
      modifies this
      ensures Valid() && disk == old(disk) && old(trace) <= trace && OnlyEntry(r)
      ensures r in store ==> r in old(store) && store[r] == old(store)[r]
      ensures result.Ok? ==> r !in store || r.Malformed?
      ensures reliable && !r.Malformed? ==> result.Ok?
    {
      var deleted := Delete(r);
      if deleted.Err? && deleted.error != Missing {
        return Err(deleted.error);
      }
      var remaining := Get(r);
      match remaining {
        case Err(Missing) => return Ok(());
        case Err(Unavailable) => return Err(Unavailable);
        case _ => return Err(Failed);
      }
    }

    /** `rollback_credential`: puts the previous credential back, or removes the entry. */
    method RollbackCredential(r: Reference, previous: Option<Credential>) returns (ok: bool)
      requires Valid() && !Stuck(disk.visible) && !r.Malformed? && forall d :: d in disk.possible ==> Names(d, r)
      modifies this
      ensures Valid() && disk == old(disk) && old(trace) <= trace && OnlyEntry(r)
      ensures ok && previous.Some? ==> r in store && env.encode(previous.value) == Ok(store[r])
      ensures ok && previous.None? ==> r !in store
    {
      match previous {
        case Some(credential) =>
          var result := Put(r, credential);
          if result.Ok? {
            result := VerifyCredential(r, credential);
          }
          return result.Ok?;
        case None =>
          var result := DeleteCredentialVerified(r);
          return result.Ok?;
      }
    }
  }
}
