/** Loading, login, refresh, logout and legacy migration over the two stores. */
module CredentialTransaction {
  import opened Wrappers
  import opened Utf8
  import opened CredentialCodec
  import opened CredentialMachine
  import Cookies

  datatype LoginError =
    | Config(config: ConfigError) | StoreFailure(error: StoreError)
    | PendingDeletion | InvalidProvider | ProviderChanged

  datatype LoginResult = LoggedIn | Refused(error: LoginError)

  /** The file holds exactly this configuration. */
  predicate Agrees(disk: Disk, config: GlobalConfig) { disk.visible == Current(config) }

  /** The file is current and names a login. */
  predicate HasLogin(c: Content) { c.Current? && c.config.provider.Some? }

  predicate LocationValid(env: Env, p: Provider) { env.parseUrl(p.name).Some? }

  /** `validate_current_global_config`. */
  predicate ValidConfig(env: Env, g: GlobalConfig) {
    && (g.provider.Some? ==> LocationValid(env, g.provider.value) && !g.provider.value.credentialRef.Malformed?)
    && (g.pendingDeletion.Some? ==> !g.pendingDeletion.value.Malformed? && g.provider.None?)
  }

  // ---------------------------------------------------------------- loading

  /** Writes a configuration that names no credential over a file that names none either. */
  method WriteEmpty(m: Machine, appId: string) returns (r: Outcome<GlobalConfig>)
    requires m.Valid() && Clean(m.disk.visible)
    modifies m
    ensures m.Valid() && m.store == old(m.store) && old(m.trace) <= m.trace
    ensures m.disk.visible == old(m.disk.visible) || m.disk.visible == Current(GlobalConfig(appId, None, None))
    ensures r.Done? ==>
      r.value == GlobalConfig(appId, None, None) && Agrees(m.disk, r.value) && m.disk.possible == {m.disk.visible}
    ensures m.reliable ==> r.Done?
  {
    CleanMeansEmpty(m.disk, m.store);
    var config := GlobalConfig(appId, None, None);
    var written := m.WriteConfig(config);
    if written.Fail? {
      return Fail(written.error);
    }
    return Done(config);
  }

  /** Moves a legacy login into the credential store: store and verify, then commit the file. */
  method Migrate(m: Machine, appId: string, legacy: LegacyProvider, now: u64) returns (r: Outcome<GlobalConfig>)
    requires m.Valid() && m.disk.visible == Legacy(appId, Some(legacy))
    modifies m
    ensures m.Valid() && old(m.trace) <= m.trace
    ensures r.Done? ==>
      && Agrees(m.disk, r.value) && ValidConfig(m.env, r.value) && m.disk.possible == {m.disk.visible}
      && var reference := Migrated(appId, legacy.name);
         && r.value == GlobalConfig(appId, Some(Provider(legacy.name, reference)), None)
         && reference in m.store && m.env.decode(m.store[reference]).Ok?
         && m.env.decodeLoginId(legacy.loginId).Some?
         && LoginCredential(m.env, appId, legacy.name, m.env.decodeLoginId(legacy.loginId).value, legacy.cookies, now,
                            m.env.decode(m.store[reference]).value)
    ensures r.Fail? && r.error != FileDurabilityUncertain ==> m.disk == old(m.disk)
    ensures r.Fail? && r.error !in {FileDurabilityUncertain, CredentialRollbackFailed} ==>
      m.store == old(m.store) || m.store == map[]
    ensures !Stuck(m.disk.visible)
    ensures r.Done? ==> CanMigrate(m.env, appId, legacy, now)
    ensures m.reliable && CanMigrate(m.env, appId, legacy, now) ==> r.Done?
  {
    var url := m.env.parseUrl(legacy.name);
    if url.None? {
      return Fail(TomlDecodingFailed);
    }
    var reference := Migrated(appId, legacy.name);
    var loginId := m.env.decodeLoginId(legacy.loginId);
    if loginId.None? {
      return Fail(TomlDecodingFailed);
    }
    var credential := Cookies.FromSetCookieHeaders(url.value, appId, loginId.value, legacy.cookies, now,
                                                   m.env.date, m.env.canonicalUrl);
    MadeDecides(m.env, appId, legacy.name, loginId.value, legacy.cookies, now, credential);
    if credential.Err? {
      return Fail(CredentialStore(credential.error));
    }
    var put := m.Put(reference, credential.value);
    if put.Err? {
      if put.error != Failed {
        return Fail(CredentialStore(put.error));
      }
      var undone := m.RollbackCredential(reference, None);
      return Fail(if undone then CredentialStore(put.error) else CredentialRollbackFailed);
    }
    var verified := m.VerifyCredential(reference, credential.value);
    if verified.Err? {
      var undone := m.RollbackCredential(reference, None);
      return Fail(if undone then CredentialStore(Failed) else CredentialRollbackFailed);
    }
    var current := GlobalConfig(appId, Some(Provider(legacy.name, reference)), None);
    var written := m.WriteConfig(current);
    if written.Fail? {
      if written.error == FileDurabilityUncertain {
        return Fail(written.error);
      }
      var undone := m.RollbackCredential(reference, None);
      return Fail(if undone then written.error else CredentialRollbackFailed);
    }
    return Done(current);
  }

  /** `load_global_config_with_writer`. */
  method Load(m: Machine, freshAppId: string, now: u64) returns (r: Outcome<GlobalConfig>)
    requires m.Valid()
    modifies m
    ensures m.Valid() && old(m.trace) <= m.trace
    ensures r.Done? ==> Agrees(m.disk, r.value) && ValidConfig(m.env, r.value)
    ensures r.Done? && (old(m.disk.visible).Legacy? || old(m.disk.visible).Absent?) ==> m.disk.possible == {m.disk.visible}
    ensures !old(m.disk.visible).Legacy? && !old(m.disk.visible).Absent? ==>
      m.disk == old(m.disk) && m.store == old(m.store) && m.trace == old(m.trace)
    ensures Stuck(m.disk.visible) ==> Stuck(old(m.disk.visible))
    ensures Stuck(old(m.disk.visible)) ==> r.Fail?
    ensures r.Done? ==> CanLoad(m.env, old(m.disk.visible), now) && r.value == Loaded(old(m.disk.visible), freshAppId)
    ensures m.reliable && CanLoad(m.env, old(m.disk.visible), now) ==> r.Done?
    // a migrated login is one that a refresh accepts
    ensures r.Done? && old(m.disk.visible).Legacy? && r.value.provider.Some? ==> Holds(m.env, r.value, m.store)
  {
    var readable := m.CanRead();
    if !readable {
      return Fail(FileReadFailed);
    }
    match m.disk.visible {
      case Absent =>
        r := WriteEmpty(m, freshAppId);
      case Undecodable =>
        return Fail(TomlDecodingFailed);
      case Current(config) =>
        if !ValidConfig(m.env, config) {
          return Fail(TomlDecodingFailed);
        }
        return Done(config);
      case Legacy(appId, None) =>
        r := WriteEmpty(m, appId);
      case Legacy(appId, Some(legacy)) =>
        r := Migrate(m, appId, legacy, now);
    }
  }

  /** The configuration that loading the file gives, if it gives one. */
  function Loaded(c: Content, freshAppId: string): GlobalConfig {
    match c
    case Current(config) => config
    case Legacy(appId, Some(legacy)) => GlobalConfig(appId, Some(Provider(legacy.name, Migrated(appId, legacy.name))), None)
    case Legacy(appId, None) => GlobalConfig(appId, None, None)
    case _ => GlobalConfig(freshAppId, None, None)
  }

  ghost predicate CanMigrate(env: Env, appId: string, legacy: LegacyProvider, now: u64) {
    && env.parseUrl(legacy.name).Some? && env.decodeLoginId(legacy.loginId).Some?
    && Encodable(env, appId, legacy.name, env.decodeLoginId(legacy.loginId).value, legacy.cookies, now)
  }

  /** Nothing in the file itself stands in the way of loading it. */
  ghost predicate CanLoad(env: Env, c: Content, now: u64) {
    match c
    case Absent => true
    case Undecodable => false
    case Current(GlobalConfig(_, provider, tombstone)) =>
      && (provider.Some? ==> env.parseUrl(provider.value.name).Some? && !provider.value.credentialRef.Malformed?)
      && (tombstone.Some? ==> provider.None? && !tombstone.value.Malformed?)
    case Legacy(_, None) => true
    case Legacy(appId, Some(legacy)) => CanMigrate(env, appId, legacy, now)
  }

  // ---------------------------------------------------------------- login and refresh

  /** The stored credential of the existing login decodes and is in scope. */
  predicate Holds(env: Env, config: GlobalConfig, store: Store)
    requires config.provider.Some?
  {
    var url, reference := env.parseUrl(config.provider.value.name), config.provider.value.credentialRef;
    && url.Some? && reference in store && env.decode(store[reference]).Ok?
    && var c := env.decode(store[reference]).value;
       CredentialCodec.Valid(c, env.canonicalUrl) && c.providerUrl == url.value && c.cliAppId == config.appId
  }

  /** There is a login, and the requested provider is another one. */
  predicate Differs(env: Env, config: GlobalConfig, providerName: string) {
    && config.pendingDeletion.None? && config.provider.Some?
    && env.parseUrl(providerName).Some? && env.parseUrl(config.provider.value.name) != env.parseUrl(providerName)
  }

  /** Nothing but a failing store or file stands in the way of this login. */
  ghost predicate CanLogin(env: Env, config: GlobalConfig, store: Store, providerName: string, loginId: string,
                           headers: seq<string>, now: u64)
  {
    && MayLogin(env, config, providerName, loginId, headers, now)
    && (config.provider.Some? ==> Holds(env, config, store))
  }

  ghost predicate MayLogin(env: Env, config: GlobalConfig, providerName: string, loginId: string, headers: seq<string>, now: u64) {
    && config.pendingDeletion.None? && env.parseUrl(providerName).Some?
    && (config.provider.Some? ==> env.parseUrl(config.provider.value.name) == env.parseUrl(providerName))
    && Encodable(env, config.appId, providerName, loginId, headers, now)
  }

  class ConfigManager {
    const machine: Machine
    var globalConfig: GlobalConfig

    /** Memory and file agree on the login. */
    ghost predicate InStep()
      reads this, machine
    {
      machine.Valid() && Agrees(machine.disk, globalConfig) && ValidConfig(machine.env, globalConfig)
    }

    constructor (machine: Machine, globalConfig: GlobalConfig)
      requires machine.Valid() && Agrees(machine.disk, globalConfig) && ValidConfig(machine.env, globalConfig)
      ensures this.machine == machine && this.globalConfig == globalConfig && InStep()
    {
      this.machine, this.globalConfig := machine, globalConfig;
    }

    /** `clear_staged_login_tombstone`: a failure leaves the tombstone, in memory as on disk. */
    method ClearStagedTombstone(reference: Reference)
      requires InStep() && machine.store == map[] && globalConfig.provider.None?
      requires globalConfig.pendingDeletion == Some(reference)
      modifies this, machine
      ensures InStep() && machine.store == map[] && old(machine.trace) <= machine.trace
      ensures globalConfig in {old(globalConfig), old(globalConfig).(pendingDeletion := None)}
    {
      globalConfig := globalConfig.(pendingDeletion := None);
      var written := machine.WriteConfig(globalConfig);
      if written.Fail? && written.error != FileDurabilityUncertain {
        globalConfig := globalConfig.(pendingDeletion := Some(reference));
      }
    }

    /** Replaces the stored credential of an existing login, or puts the previous one back. */
    method Refresh(reference: Reference, previous: Credential, credential: Credential) returns (r: LoginResult)
      requires InStep() && globalConfig.provider.Some? && globalConfig.provider.value.credentialRef == reference
      requires reference in machine.store && machine.env.decode(machine.store[reference]) == Ok(previous)
      modifies machine
      ensures InStep() && machine.disk == old(machine.disk) && old(machine.trace) <= machine.trace
      ensures r.LoggedIn? ==> reference in machine.store && machine.env.encode(credential) == Ok(machine.store[reference])
      ensures r.Refused? && r.error != Config(CredentialRollbackFailed) ==> machine.store == old(machine.store)
      ensures machine.reliable && machine.env.encode(credential).Ok? ==> r.LoggedIn?
      ensures r.Refused? ==> r.error.Config? || r.error.StoreFailure?
    {
      var put := machine.Put(reference, credential);
      if put.Err? {
        if put.error == Failed {
          var undone := machine.RollbackCredential(reference, Some(previous));
          if !undone {
            return Refused(Config(CredentialRollbackFailed));
          }
        }
        return Refused(StoreFailure(put.error));
      }
      var verified := machine.VerifyCredential(reference, credential);
      if verified.Err? {
        var undone := machine.RollbackCredential(reference, Some(previous));
        return Refused(if undone then StoreFailure(verified.error) else Config(CredentialRollbackFailed));
      }
      return LoggedIn;
    }

    /** A first login: tombstone, credential, verification, and only then the provider. */
    method FirstLogin(provider: Provider, credential: Credential) returns (r: LoginResult)
      requires InStep() && globalConfig.provider.None? && globalConfig.pendingDeletion.None?
      requires LocationValid(machine.env, provider) && !provider.credentialRef.Malformed?
      modifies this, machine
      ensures InStep() && old(machine.trace) <= machine.trace
      ensures r.LoggedIn? ==>
        && globalConfig == old(globalConfig).(provider := Some(provider))
        && machine.disk.possible == {machine.disk.visible}
        && provider.credentialRef in machine.store
        && machine.env.encode(credential) == Ok(machine.store[provider.credentialRef])
      ensures machine.reliable && machine.env.encode(credential).Ok? ==> r.LoggedIn?
      ensures r.Refused? ==> r.error.Config? || r.error.StoreFailure?
    {
      var reference := provider.credentialRef;
      CleanMeansEmpty(machine.disk, machine.store);
      globalConfig := globalConfig.(pendingDeletion := Some(reference));
      var staged := machine.WriteConfig(globalConfig);
      if staged.Fail? {
        if staged.error != FileDurabilityUncertain {
          globalConfig := globalConfig.(pendingDeletion := None);
        }
        return Refused(Config(staged.error));
      }
      var put := machine.Put(reference, credential);
      if put.Err? {
        if put.error == Failed {
          var undone := machine.RollbackCredential(reference, None);
          if !undone {
            return Refused(Config(CredentialRollbackFailed));
          }
        }
        ClearStagedTombstone(reference);
        return Refused(StoreFailure(put.error));
      }
      var verified := machine.VerifyCredential(reference, credential);
      if verified.Err? {
        var undone := machine.RollbackCredential(reference, None);
        if !undone {
          return Refused(Config(CredentialRollbackFailed));
        }
        ClearStagedTombstone(reference);
        return Refused(StoreFailure(verified.error));
      }
      globalConfig := globalConfig.(pendingDeletion := None, provider := Some(provider));
      var committed := machine.WriteConfig(globalConfig);
      if committed.Fail? {
        if committed.error != FileDurabilityUncertain {
          globalConfig := globalConfig.(provider := None, pendingDeletion := Some(reference));
        }
        return Refused(Config(committed.error));
      }
      return LoggedIn;
    }

    /** The credential of the existing login, if there is one, checked against the provider it is for. */
    method PreviousCredential(requested: string) returns (r: Result<Option<Credential>, LoginError>)
      requires InStep() && (globalConfig.provider.Some? ==> machine.env.parseUrl(globalConfig.provider.value.name) == Some(requested))
      ensures r.Ok? && globalConfig.provider.None? ==> r.value.None?
      ensures r.Ok? && globalConfig.provider.Some? ==>
        && Holds(machine.env, globalConfig, machine.store)
        && r.value == Some(machine.env.decode(machine.store[globalConfig.provider.value.credentialRef]).value)
      ensures r.Err? ==> globalConfig.provider.Some? && r.error.StoreFailure?
      ensures machine.reliable && r.Err? ==> !Holds(machine.env, globalConfig, machine.store)
    {
      if globalConfig.provider.None? {
        return Ok(None);
      }
      var got := machine.Get(globalConfig.provider.value.credentialRef);
      if got.Err? {
        return Err(StoreFailure(got.error));
      }
      if !InScope(machine.env, got.value, requested, globalConfig.appId) {
        return Err(StoreFailure(Invalid));
      }
      return Ok(Some(got.value));
    }

    /** The part of `login_at_with_writer` after the configuration has been loaded. */
    method LoginLoaded(providerName: string, loginId: string, headers: seq<string>, now: u64) returns (r: LoginResult)
      requires InStep()
      modifies this, machine
      ensures InStep() && old(machine.trace) <= machine.trace
      // success: the provider on disk maps to exactly the credential these headers give
      ensures r.LoggedIn? ==>
        && globalConfig.provider.Some? && globalConfig.pendingDeletion.None?
        && var reference := globalConfig.provider.value.credentialRef;
           && reference in machine.store && machine.env.decode(machine.store[reference]).Ok?
           && LoginCredential(machine.env, globalConfig.appId, providerName, loginId, headers, now,
                              machine.env.decode(machine.store[reference]).value)
      ensures r.LoggedIn? && old(globalConfig).provider.None? ==>
        globalConfig.provider.value.name == providerName && machine.disk.possible == {machine.disk.visible}
      // an existing login survives every refusal but a failed rollback
      ensures old(globalConfig).provider.Some? ==>
        && globalConfig == old(globalConfig) && machine.disk == old(machine.disk)
        && (r.Refused? && r.error != Config(CredentialRollbackFailed) ==> machine.store == old(machine.store))
      ensures old(globalConfig).pendingDeletion.Some? ==>
        r == Refused(PendingDeletion) && machine.disk == old(machine.disk) && machine.store == old(machine.store)
      // it succeeds only if nothing in the request or the stored login forbids it, and if nothing fails then exactly if
      ensures r.LoggedIn? ==> CanLogin(machine.env, old(globalConfig), old(machine.store), providerName, loginId, headers, now)
      ensures machine.reliable && CanLogin(machine.env, old(globalConfig), old(machine.store), providerName, loginId, headers, now) ==>
        r.LoggedIn?
      ensures r == Refused(ProviderChanged) <==> Differs(machine.env, old(globalConfig), providerName)
      ensures r == Refused(InvalidProvider) <==> old(globalConfig).pendingDeletion.None? && machine.env.parseUrl(providerName).None?
      ensures r == Refused(PendingDeletion) <==> old(globalConfig).pendingDeletion.Some?
    {
      if globalConfig.pendingDeletion.Some? {
        return Refused(PendingDeletion);
      }
      var requested := machine.env.parseUrl(providerName);
      if requested.None? {
        return Refused(InvalidProvider);
      }
      if globalConfig.provider.Some? && machine.env.parseUrl(globalConfig.provider.value.name) != requested {
        return Refused(ProviderChanged);
      }
      var previous := PreviousCredential(requested.value);
      if previous.Err? {
        return Refused(previous.error);
      }
      var made := Cookies.FromSetCookieHeaders(requested.value, globalConfig.appId, loginId, headers, now,
                                               machine.env.date, machine.env.canonicalUrl);
      MadeDecides(machine.env, globalConfig.appId, providerName, loginId, headers, now, made);
      if made.Err? {
        return Refused(StoreFailure(made.error));
      }
      if previous.value.Some? {
        r := Refresh(globalConfig.provider.value.credentialRef, previous.value.value, made.value);
      } else {
        var id: nat := *;
        r := FirstLogin(Provider(providerName, Random(id)), made.value);
      }
    }

    /** `login_at_with_writer`; a migration while loading reads the clock itself. */
    method Login(freshAppId: string, providerName: string, loginId: string, headers: seq<string>, now: u64, clock: u64)
      returns (r: LoginResult, loaded: bool)
      requires machine.Valid()
      modifies this, machine
      ensures machine.Valid() && old(machine.trace) <= machine.trace
      ensures loaded ==> InStep()
      ensures Stuck(machine.disk.visible) ==> Stuck(old(machine.disk.visible))
      ensures !loaded ==> r.Refused? && r.error.Config? && globalConfig == old(globalConfig)
      ensures Stuck(old(machine.disk.visible)) ==> !loaded && machine.trace == old(machine.trace)
      ensures Stuck(old(machine.disk.visible)) ==> machine.disk == old(machine.disk) && machine.store == old(machine.store)
      // an existing login survives every refusal but a failed rollback
      ensures HasLogin(old(machine.disk.visible)) ==>
        && machine.disk == old(machine.disk)
        && (r.Refused? && r.error != Config(CredentialRollbackFailed) ==> machine.store == old(machine.store))
      // a new one is durable
      ensures r.LoggedIn? && !HasLogin(old(machine.disk.visible)) ==> machine.disk.possible == {machine.disk.visible}
      ensures r.LoggedIn? ==>
        && InStep() && globalConfig.provider.Some? && globalConfig.pendingDeletion.None?
        && var reference := globalConfig.provider.value.credentialRef;
           && reference in machine.store && machine.env.decode(machine.store[reference]).Ok?
           && LoginCredential(machine.env, globalConfig.appId, providerName, loginId, headers, now,
                              machine.env.decode(machine.store[reference]).value)
      // what it takes, in terms of the file and the store as they were
      ensures r.LoggedIn? ==>
        LoginIsPossible(machine.env, old(machine.disk.visible), old(machine.store), freshAppId, clock, providerName, loginId, headers, now)
      ensures machine.reliable &&
        LoginIsPossible(machine.env, old(machine.disk.visible), old(machine.store), freshAppId, clock, providerName, loginId, headers, now)
        ==> r.LoggedIn?
      ensures r == Refused(ProviderChanged) <==>
        loaded && Differs(machine.env, Loaded(old(machine.disk.visible), freshAppId), providerName)
    {
      var locked := machine.CanRead();
      if !locked {
        return Refused(Config(FileWriteFailed)), false;
      }
      var config := Load(machine, freshAppId, clock);
      if config.Fail? {
        return Refused(Config(config.error)), false;
      }
      globalConfig := config.value;
      r := LoginLoaded(providerName, loginId, headers, now);
      loaded := true;
    }
  }

  // ---------------------------------------------------------------- logout

  /** Deletes the credential a tombstone on disk names, then the tombstone. */
  method FinishDeletion(m: Machine, config: GlobalConfig, reference: Reference) returns (r: Outcome<()>)
    requires m.Valid() && Agrees(m.disk, config)
    requires config.provider.None? && config.pendingDeletion == Some(reference) && !reference.Malformed?
    modifies m
    ensures m.Valid() && old(m.trace) <= m.trace
    ensures r.Done? ==> m.store == map[] && Agrees(m.disk, config.(pendingDeletion := None)) && m.disk.possible == {m.disk.visible}
    ensures m.reliable ==> r.Done?
    ensures !Stuck(m.disk.visible)
  {
    var available := m.CanRead();
    if !available {
      return Fail(CredentialStore(Unavailable));
    }
    var deleted := m.DeleteCredentialVerified(reference);
    if deleted.Err? {
      return Fail(CredentialStore(deleted.error));
    }
    assert forall k :: k in m.store ==> Names(m.disk.visible, k);
    r := m.WriteConfig(config.(pendingDeletion := None));
  }

  /** `remove_local_credential_with_writer`. */
  method Logout(m: Machine) returns (r: Outcome<bool>)
    requires m.Valid()
    modifies m
    ensures m.Valid() && old(m.trace) <= m.trace
    ensures r.Done? ==> m.store == map[] && Clean(m.disk.visible)
    ensures r.Done? ==> r.value == !Clean(old(m.disk.visible))
    ensures r == Done(true) ==> m.disk.possible == {m.disk.visible}
    ensures r == Done(false) ==> m.disk == old(m.disk) && m.store == old(m.store) && m.trace == old(m.trace)
    ensures m.reliable ==> (r.Done? <==> !Stuck(old(m.disk.visible)))
    ensures Stuck(old(m.disk.visible)) ==>
      r.Fail? && m.disk == old(m.disk) && m.store == old(m.store) && m.trace == old(m.trace)
    ensures Stuck(m.disk.visible) ==> Stuck(old(m.disk.visible))
  {
    var readable := m.CanRead();
    if !readable {
      return Fail(FileReadFailed);
    }
    if Clean(m.disk.visible) {
      CleanMeansEmpty(m.disk, m.store);
    }
    match m.disk.visible {
      case Absent =>
        return Done(false);
      case Undecodable =>
        return Fail(TomlDecodingFailed);
      case Legacy(_, None) =>
        return Done(false);
      case Legacy(appId, Some(legacy)) =>
        r := RemoveLogin(m, GlobalConfig(appId, None, None), Migrated(appId, legacy.name));
      case Current(config) =>
        if !WellFormed(Current(config)) {
          return Fail(TomlDecodingFailed);
        }
        if config.pendingDeletion.Some? {
          var finished := FinishDeletion(m, config, config.pendingDeletion.value);
          return if finished.Done? then Done(true) else Fail(finished.error);
        }
        if config.provider.None? {
          return Done(false);
        }
        var reference := config.provider.value.credentialRef;
        if reference.Malformed? {
          assert forall k :: k in m.store ==> Names(m.disk.visible, k);
          var written := m.WriteConfig(config.(provider := None));
          return if written.Done? then Done(true) else Fail(written.error);
        }
        r := RemoveLogin(m, config.(provider := None), reference);
    }
  }

  /** Commits a tombstone in place of the login before touching the protected copy. */
  method RemoveLogin(m: Machine, config: GlobalConfig, reference: Reference) returns (r: Outcome<bool>)
    requires m.Valid() && !Stuck(m.disk.visible)
    requires config.provider.None? && config.pendingDeletion.None? && !reference.Malformed?
    requires forall k :: k in m.store ==> k == reference
    modifies m
    ensures m.Valid() && old(m.trace) <= m.trace
    ensures r.Done? ==> r.value && m.store == map[] && Agrees(m.disk, config) && m.disk.possible == {m.disk.visible}
    ensures m.reliable ==> r.Done?
    ensures !Stuck(m.disk.visible)
  {
    var tombstone := config.(pendingDeletion := Some(reference));
    var written := m.WriteConfig(tombstone);
    if written.Fail? {
      return Fail(written.error);
    }
    var finished := FinishDeletion(m, tombstone, reference);
    return if finished.Done? then Done(true) else Fail(finished.error);
  }

  // ---------------------------------------------------------------- whole runs

  /** One command, with any arguments and any failures. */
  method AnyCommand(m: Machine)
    requires m.Valid()
    modifies m
    ensures m.Valid() && old(m.trace) <= m.trace
    ensures Stuck(m.disk.visible) ==> Stuck(old(m.disk.visible))
    ensures Stuck(old(m.disk.visible)) ==>
      m.disk == old(m.disk) && m.store == old(m.store) && m.trace == old(m.trace)
  {
    var command: int, appId: string, provider: string, loginId: string, headers: seq<string>, now: u64, clock: u64 :=
      *, *, *, *, *, *, *;
    if command == 0 {
      var loaded := Load(m, appId, clock);
    } else if command == 1 {
      var loaded := Load(m, appId, clock);
      if loaded.Done? {
        var manager := new ConfigManager(m, loaded.value);
        var result, reloaded := manager.Login(appId, provider, loginId, headers, now, clock);
      }
    } else {
      var result := Logout(m);
    }
  }

  /**
   Any number of commands, each cut short by a crash or a power loss at any point or not at
   all: in every state ever exposed no credential is orphaned, whichever version of the file
   survives, and no file holds both a provider and a tombstone.
   */
  method Run(m: Machine, commands: nat)
    requires m.Valid()
    modifies m
    ensures m.Valid()
    ensures forall s, r, c :: s in m.trace && r in s.store && c in s.disk.possible ==> Names(c, r)
    ensures forall s, c :: s in m.trace && c in s.disk.possible ==> WellFormed(c)
    ensures !Stuck(old(m.disk.visible)) ==> !Stuck(m.disk.visible)
    // nothing ever gets past a file that is refused
    ensures Stuck(old(m.disk.visible)) ==> m.disk == old(m.disk) && m.store == old(m.store)
  {
    for i := 0 to commands
      invariant m.Valid()
      invariant !Stuck(old(m.disk.visible)) ==> !Stuck(m.disk.visible)
      invariant Stuck(old(m.disk.visible)) ==> m.disk == old(m.disk) && m.store == old(m.store)
    {
      var start := |m.trace|;
      AnyCommand(m);
      m.Crash(start);
    }
  }

  /** Whatever happened before, one undisturbed logout removes the login and the next has nothing to do. */
  method LogoutConverges(m: Machine, commands: nat) returns (first: Outcome<bool>, second: Outcome<bool>, after: Machine)
    requires m.Valid() && !Stuck(m.disk.visible)
    modifies m
    ensures fresh(after) && after.env == m.env
    ensures first.Done? && second == Done(false)
    ensures after.store == map[] && Clean(after.disk.visible)
  {
    Run(m, commands);
    after := new Machine(m.env, true, m.disk, m.store);
    first := Logout(after);
    second := Logout(after);
  }

  /** A file that is refused stops logout for good: no run of commands changes it, and logout still fails. */
  method RefusedForGood(m: Machine, commands: nat) returns (r: Outcome<bool>)
    requires m.Valid() && Stuck(m.disk.visible)
    modifies m
    ensures r.Fail? && m.disk == old(m.disk) && m.store == old(m.store)
  {
    Run(m, commands);
    r := Logout(m);
  }

  /** The failing cases beside files that do not decode: a tombstone that is no UUID, whatever the store holds. */
  method MalformedTombstoneIsRefused(env: Env, appId: string, text: string, store: Store, commands: nat)
    returns (r: Outcome<bool>, after: Machine)
    requires FaithfulCodec(env)
    ensures r.Fail? && after.store == store
    ensures after.disk.visible == Current(GlobalConfig(appId, None, Some(Malformed(text))))
  {
    var file := Current(GlobalConfig(appId, None, Some(Malformed(text))));
    after := new Machine(env, true, Disk(file, {file}), store);
    r := RefusedForGood(after, commands);
  }

  /** And a login beside a tombstone, whose credential stays in the store although nothing ever fails. */
  method LoginBesideTombstoneIsRefused(env: Env, config: GlobalConfig, store: Store, commands: nat)
    returns (r: Outcome<bool>, after: Machine)
    requires FaithfulCodec(env)
    requires config.provider.Some? && config.pendingDeletion.Some? && config.provider.value.credentialRef in store
    ensures r.Fail? && after.disk.visible == Current(config)
    ensures after.store == store
  {
    after := new Machine(env, true, Disk(Current(config), {Current(config)}), store);
    r := RefusedForGood(after, commands);
  }

  /** The same for the codec the program has: any run over records, then one undisturbed logout, leaves nothing. */
  method LogoutConvergesForRecords(parseUrl: string -> Option<string>, canonicalUrl: string -> bool, date: Cookies.HttpDate,
                                   decodeLoginId: string -> Option<string>, disk: Disk, store: Store, commands: nat)
    returns (first: Outcome<bool>, second: Outcome<bool>, after: Machine)
    requires Safe(disk, store) && !Stuck(disk.visible)
    ensures first.Done? && second == Done(false) && after.store == map[] && Clean(after.disk.visible)
  {
    var env := Env((c: Credential) => EncodeCredential(c, canonicalUrl), (b: seq<byte>) => DecodeCredential(b, canonicalUrl),
                   parseUrl, canonicalUrl, date, decodeLoginId);
    RecordCodecIsFaithful(env);
    var m := new Machine(env, false, disk, store);
    first, second, after := LogoutConverges(m, commands);
  }

  // ---------------------------------------------------------------- meaning of a login

  /** `validate_scope`. */
  predicate InScope(env: Env, c: Credential, url: string, appId: string) {
    CredentialCodec.Valid(c, env.canonicalUrl) && c.providerUrl == url && c.cliAppId == appId
  }

  /** The credential that logging in with these headers at this time means. */
  ghost predicate LoginCredential(env: Env, appId: string, providerName: string, loginId: string,
                                  headers: seq<string>, now: u64, c: Credential) {
    && env.parseUrl(providerName) == Some(c.providerUrl)
    && c.cliAppId == appId && c.loginId == loginId
    && CredentialCodec.Valid(c, env.canonicalUrl)
    && Cookies.Received(c, headers, now, env.date)
  }

  /** The request means a credential, and it is not too large to be stored. */
  ghost predicate Encodable(env: Env, appId: string, providerName: string, loginId: string, headers: seq<string>, now: u64) {
    exists c :: LoginCredential(env, appId, providerName, loginId, headers, now, c) && env.encode(c).Ok?
  }

  /** The file loads, the login is allowed, and unless the file is migrated its stored credential is good. */
  ghost predicate LoginIsPossible(env: Env, c: Content, store: Store, freshAppId: string, clock: u64, providerName: string,
                                  loginId: string, headers: seq<string>, now: u64)
  {
    && CanLoad(env, c, clock)
    && MayLogin(env, Loaded(c, freshAppId), providerName, loginId, headers, now)
    && (HasLogin(c) ==> Holds(env, Loaded(c, freshAppId), store))
  }

  /** Every field and every header of the request is acceptable. */
  predicate AcceptableRequest(env: Env, appId: string, providerName: string, loginId: string, headers: seq<string>, now: u64) {
    var url := env.parseUrl(providerName);
    && url.Some? && url.value != [] && env.canonicalUrl(url.value)
    && appId != [] && loginId != [] && 1 <= |headers| <= MAX_COOKIE_COUNT
    && forall i :: 0 <= i < |headers| ==> Cookies.Accepts(headers[i], now, env.date)
  }

  /** A request means at most one credential. */
  lemma CredentialUnique(env: Env, appId: string, providerName: string, loginId: string, headers: seq<string>, now: u64,
                         c: Credential, d: Credential)
    requires LoginCredential(env, appId, providerName, loginId, headers, now, c)
    requires LoginCredential(env, appId, providerName, loginId, headers, now, d)
    ensures c == d
  {
    forall i | 0 <= i < |headers| ensures c.cookies[i] == d.cookies[i] {
      Cookies.GivesOne(headers[i], now, env.date, c.cookies[i], d.cookies[i]);
    }
    assert c.cookies == d.cookies;
  }

  /** It means one exactly if it is acceptable. */
  lemma CredentialExists(env: Env, appId: string, providerName: string, loginId: string, headers: seq<string>, now: u64)
    ensures (exists c :: LoginCredential(env, appId, providerName, loginId, headers, now, c)) <==>
      AcceptableRequest(env, appId, providerName, loginId, headers, now)
  {
    if c :| LoginCredential(env, appId, providerName, loginId, headers, now, c) {
      forall i | 0 <= i < |headers| ensures Cookies.Accepts(headers[i], now, env.date) {
        assert Cookies.Gives(headers[i], now, env.date, c.cookies[i]);
      }
    }
    if AcceptableRequest(env, appId, providerName, loginId, headers, now) {
      var cookies := Cookies.AllGive(headers, now, env.date);
      var c := Credential(CREDENTIAL_RECORD_VERSION, env.parseUrl(providerName).value, appId, loginId, cookies);
      Cookies.ReceivedAreNamed(cookies, headers, now, env.date);
      assert LoginCredential(env, appId, providerName, loginId, headers, now, c);
    }
  }

  /** So whether the credential can be built and encoded is decided by the request alone. */
  lemma MadeDecides(env: Env, appId: string, providerName: string, loginId: string, headers: seq<string>, now: u64,
                    made: StoreResult<Credential>)
    requires made.Ok? ==> LoginCredential(env, appId, providerName, loginId, headers, now, made.value)
    requires made.Ok? <==> AcceptableRequest(env, appId, providerName, loginId, headers, now)
    ensures Encodable(env, appId, providerName, loginId, headers, now) <==> made.Ok? && env.encode(made.value).Ok?
  {
    CredentialExists(env, appId, providerName, loginId, headers, now);
    if c :| LoginCredential(env, appId, providerName, loginId, headers, now, c) && env.encode(c).Ok? {
      CredentialUnique(env, appId, providerName, loginId, headers, now, c, made.value);
    }
  }
}
