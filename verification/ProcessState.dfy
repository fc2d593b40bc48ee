/** The host-owned state of one process, and its transfer to a replacement on reload. */
module ProcessState {
  import opened Wrappers
  import opened ProcessConfig
  import Attenuation
  import Utf8
  import opened Tables
  import opened ResourceQuota
  import TlsCredentials

  /** A bound socket is its address; host objects that are only carried along are tokens. */
  type Addr = nat
  type Token = nat

  datatype TlsListener = TlsListener(addr: Addr, material: TlsCredentials.Material)

  datatype Resources = Resources(
    configs: HashMapId<Config>,
    // a module is the byte length of its source
    modules: HashMapId<nat>,
    timers: Token,
    dnsIterators: HashMapId<Token>,
    tcpListeners: HashMapId<Addr>,
    tcpStreams: HashMapId<Token>,
    tlsListeners: HashMapId<TlsListener>,
    tlsStreams: HashMapId<Token>,
    udpSockets: HashMapId<Addr>,
    errors: Token)

  datatype DbResources = DbResources(
    sqliteStatements: HashMapId<Token>, sqliteConnections: HashMapId<Token>, guestAllocator: Token, sqliteStats: SqliteStats)

  /** Everything a process owns and a transfer hands over. */
  datatype Bundle = Bundle(
    resources: Resources, db: DbResources, wasi: Token, stdout: Token, stderr: Token, message: Option<Token>, stats: ResourceStats)

  /** How many resources of each kind moved. */
  datatype Report = Report(
    tcpListeners: nat, tcpStreams: nat, tlsListeners: nat, tlsStreams: nat, udpSockets: nat, dnsIterators: nat)

  // ---------------------------------------------------------------- what a bundle says about itself

  /** Ceilings hold, and the listener and socket tables are separate objects with unused next IDs. */
  ghost predicate Sound(b: Bundle)
    reads b.stats, b.db.sqliteStats, b.resources.tcpListeners, b.resources.udpSockets, b.resources.tlsListeners
  {
    && b.stats.counts.Valid() && b.db.sqliteStats.counts.Valid()
    && b.resources.tcpListeners.Valid() && b.resources.udpSockets.Valid() && b.resources.tlsListeners.Valid()
    && Apart(b)
  }

  /** No other table is the same object as the table of TCP listeners or that of UDP sockets. */
  ghost predicate Apart(b: Bundle) {
    && b.resources.tcpListeners != b.resources.udpSockets
    && DistinctFrom(b, b.resources.tcpListeners) && DistinctFrom(b, b.resources.udpSockets)
  }

  ghost predicate DistinctFrom(b: Bundle, t: HashMapId<Addr>) {
    && b.resources.modules != t && b.resources.dnsIterators != t && b.resources.tcpStreams != t && b.resources.tlsStreams != t
    && b.db.sqliteStatements != t && b.db.sqliteConnections != t
  }

  /** What the tables and quotas of a process hold. */
  datatype Books = Books(
    configs: map<nat, Config>, modules: map<nat, nat>, dnsIterators: map<nat, Token>,
    tcpListeners: map<nat, Addr>, tcpStreams: map<nat, Token>, tlsListeners: map<nat, TlsListener>,
    tlsStreams: map<nat, Token>, udpSockets: map<nat, Addr>,
    sqliteStatements: map<nat, Token>, sqliteConnections: map<nat, Token>,
    counts: Counts, sqlite: SqliteCounts)
  {
    /** `live_network_handle_count`. */
    function LiveNetworkHandles(): nat {
      |tcpListeners| + |tcpStreams| + |tlsListeners| + |tlsStreams| + |udpSockets|
    }

    /** The tables and the counts agree about what is open. */
    predicate Accounted() {
      && counts.openFileDescriptors >= LiveNetworkHandles() && counts.openNetworkConnections >= LiveNetworkHandles()
      && counts.openDnsIterators == |dnsIterators|
      && |sqliteConnections| <= sqlite.openConnections && |sqliteStatements| == sqlite.openStatements
    }

    /** Nothing is held but the descriptors of the configured preopens. */
    predicate Fresh(config: Config) {
      && |tcpListeners| == 0 && |tcpStreams| == 0 && |tlsListeners| == 0 && |tlsStreams| == 0 && |udpSockets| == 0
      && |dnsIterators| == 0 && |modules| == 0 && |configs| == 0
      && counts.openFileDescriptors == |config.preopenedDirs|
      && counts.openNetworkConnections == 0 && counts.openDnsIterators == 0
      && |sqliteConnections| == 0 && |sqliteStatements| == 0 && sqlite.openConnections == 0 && sqlite.openStatements == 0
    }
  }

  predicate ModulesFit(modules: map<nat, nat>, heir: Config) {
    |modules| <= heir.maxModules && forall id :: id in modules ==> modules[id] <= heir.maxModuleBytes
  }

  predicate ConfigsFit(fs: Filesystem, configs: map<nat, Config>, heir: Config) {
    |configs| <= heir.maxConfigs && forall id :: id in configs ==> ValidateChildConfig(fs, heir, configs[id]).Pass?
  }

  /** Honest accounts, an untouched replacement, and room for everything under its configuration. */
  predicate Transferable(fs: Filesystem, mine: Books, config: Config, theirs: Books, heir: Config) {
    && mine.Accounted() && theirs.Fresh(heir) && |heir.preopenedDirs| <= 0xFFFF_FFFF
    && CountsFit(mine.counts, mine.sqlite, heir)
    && RetainedFit(config, heir) && ValidatePreopens(fs, heir, config.preopenedDirs).Pass?
    && ModulesFit(mine.modules, heir) && ConfigsFit(fs, mine.configs, heir)
  }

  /** Every table is empty, and the quotas count the preopened directories and nothing else. */
  predicate Untouched(theirs: Books, heir: Config) {
    theirs == Books(map[], map[], map[], map[], map[], map[], map[], map[], map[], map[],
                    theirs.counts.(openFileDescriptors := |heir.preopenedDirs|, openNetworkConnections := 0, openDnsIterators := 0),
                    theirs.sqlite.(openConnections := 0, openStatements := 0))
  }

  /** What is open is at least what the tables hold, and fits the heir's ceilings. */
  predicate Fitting(mine: Books, heir: Config) {
    var handles := |mine.tcpListeners| + |mine.tcpStreams| + |mine.tlsListeners| + |mine.tlsStreams| + |mine.udpSockets|;
    && handles <= mine.counts.openFileDescriptors <= heir.maxFileDescriptors
    && handles <= mine.counts.openNetworkConnections <= heir.maxNetworkConnections
    && |mine.dnsIterators| == mine.counts.openDnsIterators <= heir.maxNetworkConnections
    && |mine.sqliteConnections| <= mine.sqlite.openConnections <= heir.maxSqliteConnections
    && |mine.sqliteStatements| == mine.sqlite.openStatements <= heir.maxSqliteStatements
  }

  /** The replacement could hold the retained values of this configuration, and reach its files. */
  ghost predicate CouldRetain(fs: Filesystem, config: Config, heir: Config) {
    && |Entries(config)| <= heir.maxConfigEntries && |Utf8.Encode(Concat(Entries(config)))| <= heir.maxConfigBytes
    && Attenuation.Resolves(fs, config) && Attenuation.FilesWithin(fs, config, heir)
  }

  /** Every module and every configuration is one the replacement could have created itself. */
  ghost predicate CouldCreate(fs: Filesystem, modules: map<nat, nat>, configs: map<nat, Config>, heir: Config) {
    && |modules| <= heir.maxModules && (forall id :: id in modules ==> modules[id] <= heir.maxModuleBytes)
    && |configs| <= heir.maxConfigs
    && forall id :: id in configs ==>
         Attenuation.Sound(configs[id]) && Attenuation.Resolves(fs, configs[id]) && Attenuation.Within(fs, configs[id], heir)
  }

  /**
   A transfer goes through exactly if what is open is honestly counted and fits, the replacement is
   untouched, and its configuration gives it the authority for everything it would get.
   */
  lemma TransferMeans(fs: Filesystem, mine: Books, config: Config, theirs: Books, heir: Config)
    ensures Transferable(fs, mine, config, theirs, heir) <==>
      && Fitting(mine, heir) && Untouched(theirs, heir) && |heir.preopenedDirs| <= 0xFFFF_FFFF
      && CouldRetain(fs, config, heir) && CouldCreate(fs, mine.modules, mine.configs, heir)
  {
    FreshMeans(theirs, heir);
    FittingMeans(mine, heir);
    RetainMeans(fs, config, heir);
    CreateMeans(fs, mine.modules, mine.configs, heir);
  }

  lemma FreshMeans(theirs: Books, heir: Config)
    ensures theirs.Fresh(heir) <==> Untouched(theirs, heir)
  {
  }

  lemma FittingMeans(mine: Books, heir: Config)
    ensures mine.Accounted() && CountsFit(mine.counts, mine.sqlite, heir) <==> Fitting(mine, heir)
  {
  }

  lemma RetainMeans(fs: Filesystem, config: Config, heir: Config)
    ensures RetainedFit(config, heir) && ValidatePreopens(fs, heir, config.preopenedDirs).Pass? <==> CouldRetain(fs, config, heir)
  {
    RetainedMeans(config);
    Attenuation.PreopensMeanFiles(fs, heir, config);
  }

  lemma CreateMeans(fs: Filesystem, modules: map<nat, nat>, configs: map<nat, Config>, heir: Config)
    ensures ModulesFit(modules, heir) && ConfigsFit(fs, configs, heir) <==> CouldCreate(fs, modules, configs, heir)
  {
    forall id | id in configs
      ensures ValidateChildConfig(fs, heir, configs[id]).Pass? <==>
        Attenuation.Sound(configs[id]) && Attenuation.Resolves(fs, configs[id]) && Attenuation.Within(fs, configs[id], heir)
    {
      Attenuation.ValidateDecides(fs, heir, configs[id]);
    }
  }

  /** The checks before the commit, in order, with the handle tables scanned one entry at a time. */
  method CanTransfer(fs: Filesystem, mine: Books, config: Config, theirs: Books, heir: Config) returns (ok: bool)
    ensures ok <==> Transferable(fs, mine, config, theirs, heir)
  {
    if !mine.Accounted() || |heir.preopenedDirs| > 0xFFFF_FFFF || !theirs.Fresh(heir) {
      return false;
    }
    if !CountsFit(mine.counts, mine.sqlite, heir) {
      return false;
    }
    var retained := ValidateRetainedValuesAgainst(config, heir);
    if retained.Refuse? || ValidatePreopens(fs, heir, config.preopenedDirs).Refuse? {
      return false;
    }
    ok := ScanModules(mine.modules, heir);
    if ok {
      ok := ScanConfigs(fs, mine.configs, heir);
    }
  }

  /** The books after a transfer: the same tables and open counts under the heir's ceilings. */
  function Inherited(mine: Books, heir: Config): Books {
    mine.(counts := Under(mine.counts, heir), sqlite := SqliteUnder(mine.sqlite, heir))
  }

  /** Everything is accounted for, within its ceilings, and every configuration within the authority of `c`. */
  ghost predicate Trusted(fs: Filesystem, books: Books, c: Config) {
    && books.Accounted() && books.counts.Valid() && books.sqlite.Valid()
    && ModulesFit(books.modules, c)
    && forall id :: id in books.configs ==> Attenuation.Within(fs, books.configs[id], c)
  }

  /** What is inherited is accounted for, within every ceiling, and holds only configurations within the heir's authority. */
  lemma InheritedIsSound(fs: Filesystem, mine: Books, config: Config, theirs: Books, heir: Config)
    requires Transferable(fs, mine, config, theirs, heir)
    ensures Trusted(fs, Inherited(mine, heir), heir)
    ensures Attenuation.FilesWithin(fs, config, heir)
  {
    forall id | id in mine.configs ensures Attenuation.Within(fs, mine.configs[id], heir) {
      Attenuation.ValidateDecides(fs, heir, mine.configs[id]);
    }
    Attenuation.PreopensMeanFiles(fs, heir, config);
  }

  /** A quota that enforces the ceilings of `c`. */
  function Under(counts: Counts, c: Config): Counts { counts.WithLimits(c.maxFileDescriptors, c.maxNetworkConnections) }

  function SqliteUnder(counts: SqliteCounts, c: Config): SqliteCounts {
    counts.(maxConnections := c.maxSqliteConnections, maxStatements := c.maxSqliteStatements)
  }

  predicate CountsFit(counts: Counts, sqlite: SqliteCounts, heir: Config) {
    && counts.FitsLimits(heir.maxFileDescriptors, heir.maxNetworkConnections)
    && sqlite.FitsLimits(heir.maxSqliteConnections, heir.maxSqliteStatements)
  }

  class State {
    const scope: TlsCredentials.Scope
    const config: Config
    const credentials: TlsCredentials.Provider
    var resources: Resources
    var db: DbResources
    var wasi: Token
    var stdout: Token
    var stderr: Token
    var message: Option<Token>
    var stats: ResourceStats

    /** A new process owns its preopened directories, one descriptor each, and nothing else. */
    constructor (scope: TlsCredentials.Scope, config: Config, credentials: TlsCredentials.Provider)
      requires |config.preopenedDirs| <= config.maxFileDescriptors
      ensures this.scope == scope && this.config == config && this.credentials == credentials
      ensures Sound(Owned()) && stats.counts == Under(stats.counts, config)
      ensures db.sqliteStats.counts == SqliteUnder(db.sqliteStats.counts, config)
      ensures Ledger(Owned()).Fresh(config)
    {
      this.scope, this.config, this.credentials := scope, config, credentials;
      var b := NewBundle(config);
      resources, db, stats := b.resources, b.db, b.stats;
      wasi, stdout, stderr, message := b.wasi, b.stdout, b.stderr, b.message;
    }

    function Owned(): Bundle
      reads this
    {
      Bundle(resources, db, wasi, stdout, stderr, message, stats)
    }

    method Swap(target: State)
      requires this != target
      modifies this, target
      ensures target.Owned() == old(Owned()) && Owned() == old(target.Owned())
    {
      resources, target.resources := target.resources, resources;
      db, target.db := target.db, db;
      wasi, target.wasi := target.wasi, wasi;
      stdout, target.stdout := target.stdout, stdout;
      stderr, target.stderr := target.stderr, stderr;
      message, target.message := target.message, message;
      stats, target.stats := target.stats, stats;
    }

    /** Both quotas take on the replacement's ceilings. */
    method AdoptLimits(target: State)
      requires Sound(Owned()) && Sound(target.Owned())
      requires CountsFit(stats.counts, db.sqliteStats.counts, target.config)
      modifies stats, db.sqliteStats
      ensures Sound(Owned()) && Sound(target.Owned())
      ensures Ledger(Owned()) == Inherited(old(Ledger(Owned())), target.config)
    {
      stats.SetLimits(target.config.maxFileDescriptors, target.config.maxNetworkConnections);
      db.sqliteStats.SetLimits(target.config.maxSqliteConnections, target.config.maxSqliteStatements);
    }

    /** Limits first, then one swap of everything owned: nothing here can fail. */
    method Commit(target: State)
      requires this != target && Sound(Owned()) && Sound(target.Owned())
      requires CountsFit(stats.counts, db.sqliteStats.counts, target.config)
      modifies this, target, stats, db.sqliteStats
      ensures Sound(Owned()) && Sound(target.Owned())
      ensures target.Owned() == old(Owned()) && Owned() == old(target.Owned())
      ensures Ledger(target.Owned()) == Inherited(old(Ledger(Owned())), target.config)
    {
      AdoptLimits(target);
      Swap(target);
    }

    /**
     `transfer_runtime_resources_to`: the two states trade everything they own, or nothing changes.
     The tables themselves, and so every resource ID, are only handed over, never written.
     */
    method TransferRuntimeResourcesTo(fs: Filesystem, target: State) returns (r: Option<Report>)
      requires this != target && Sound(Owned()) && Sound(target.Owned())
      modifies this, target, stats, db.sqliteStats
      ensures Sound(Owned()) && Sound(target.Owned())
      ensures r.Some? <==> Transferable(fs, old(Ledger(Owned())), config, old(Ledger(target.Owned())), target.config)
      ensures r.None? ==> unchanged(this) && unchanged(target) && unchanged(old(stats)) && unchanged(old(db.sqliteStats))
      ensures r.Some? ==> target.Owned() == old(Owned()) && Owned() == old(target.Owned())
      ensures r.Some? ==> Ledger(target.Owned()) == Inherited(old(Ledger(Owned())), target.config)
      ensures r.Some? ==> r.value == Report(
        |target.resources.tcpListeners.store|, |target.resources.tcpStreams.store|, |target.resources.tlsListeners.store|,
        |target.resources.tlsStreams.store|, |target.resources.udpSockets.store|, |target.resources.dnsIterators.store|)
      // and what it now holds is accounted for and within the target's authority
      ensures r.Some? ==> Trusted(fs, Ledger(target.Owned()), target.config) && Attenuation.FilesWithin(fs, config, target.config)
    {
      var mine, theirs := Ledger(Owned()), Ledger(target.Owned());
      var ok := CanTransfer(fs, mine, config, theirs, target.config);
      if !ok {
        return None;
      }
      InheritedIsSound(fs, mine, config, theirs, target.config);
      Commit(target);
      return Some(Report(|mine.tcpListeners|, |mine.tcpStreams|, |mine.tlsListeners|, |mine.tlsStreams|, |mine.udpSockets|,
                         |mine.dnsIterators|));
    }
  }

  /**
   `new_with_tls_credential_provider`: refuses a configuration that is not sound by itself, or whose
   preopens exceed its descriptors or, as `opens` says, cannot be opened.
   */
  method NewState(scope: TlsCredentials.Scope, config: Config, credentials: TlsCredentials.Provider, opens: bool)
    returns (r: Option<State>)
    ensures r.Some? <==> ValidateRuntimeLimits(config).Pass? && |config.preopenedDirs| <= config.maxFileDescriptors && opens
    ensures r.Some? ==>
      && fresh(r.value) && r.value.config == config && r.value.scope == scope && r.value.credentials == credentials
      && Sound(r.value.Owned()) && Ledger(r.value.Owned()).Fresh(config)
  {
    if ValidateRuntimeLimits(config).Refuse? || |config.preopenedDirs| > config.maxFileDescriptors || !opens {
      return None;
    }
    var state := new State(scope, config, credentials);
    return Some(state);
  }

  /** `new_state`: a child process, within its parent's authority. */
  method Spawn(fs: Filesystem, parent: State, scope: TlsCredentials.Scope, config: Config, opens: bool) returns (r: Option<State>)
    ensures r.Some? <==>
      ValidateChildConfig(fs, parent.config, config).Pass? && |config.preopenedDirs| <= config.maxFileDescriptors && opens
    ensures r.Some? ==>
      && fresh(r.value) && r.value.config == config && r.value.scope == scope && r.value.credentials == parent.credentials
      && Sound(r.value.Owned()) && Ledger(r.value.Owned()).Fresh(config)
      && Attenuation.Within(fs, config, parent.config)
  {
    if ValidateChildConfig(fs, parent.config, config).Refuse? {
      return None;
    }
    Attenuation.ValidateDecides(fs, parent.config, config);
    r := NewState(scope, config, parent.credentials, opens);
  }

  function Ledger(b: Bundle): Books
    reads b.resources.configs, b.resources.modules, b.resources.dnsIterators, b.resources.tcpListeners
    reads b.resources.tcpStreams, b.resources.tlsListeners, b.resources.tlsStreams, b.resources.udpSockets
    reads b.db.sqliteStatements, b.db.sqliteConnections, b.db.sqliteStats, b.stats
  {
    var r := b.resources;
    Books(r.configs.store, r.modules.store, r.dnsIterators.store, r.tcpListeners.store, r.tcpStreams.store,
          r.tlsListeners.store, r.tlsStreams.store, r.udpSockets.store,
          b.db.sqliteStatements.store, b.db.sqliteConnections.store, b.stats.counts, b.db.sqliteStats.counts)
  }

  method ScanModules(modules: map<nat, nat>, heir: Config) returns (ok: bool)
    ensures ok <==> ModulesFit(modules, heir)
  {
    if |modules| > heir.maxModules {
      return false;
    }
    var todo := modules.Keys;
    while todo != {}
      invariant todo <= modules.Keys
      invariant forall id :: id in modules && id !in todo ==> modules[id] <= heir.maxModuleBytes
      decreases todo
    {
      var id :| id in todo;
      if modules[id] > heir.maxModuleBytes {
        return false;
      }
      todo := todo - {id};
    }
    return true;
  }

  method ScanConfigs(fs: Filesystem, configs: map<nat, Config>, heir: Config) returns (ok: bool)
    ensures ok <==> ConfigsFit(fs, configs, heir)
  {
    if |configs| > heir.maxConfigs {
      return false;
    }
    var todo := configs.Keys;
    while todo != {}
      invariant todo <= configs.Keys
      invariant forall id :: id in configs && id !in todo ==> ValidateChildConfig(fs, heir, configs[id]).Pass?
      decreases todo
    {
      var id :| id in todo;
      if ValidateChildConfig(fs, heir, configs[id]).Refuse? {
        return false;
      }
      todo := todo - {id};
    }
    return true;
  }

  method NewQuota(config: Config) returns (quota: ResourceStats)
    requires |config.preopenedDirs| <= config.maxFileDescriptors
    ensures fresh(quota) && quota.counts == Under(Counts(|config.preopenedDirs|, 0, 0, 0, 0, 0), config)
  {
    quota := new ResourceStats(config.maxFileDescriptors, config.maxNetworkConnections);
    for k := 0 to |config.preopenedDirs|
      invariant fresh(quota)
      invariant quota.counts == Under(Counts(k, 0, 0, 0, 0, 0), config)
    {
      var _ := quota.ReserveFileDescriptor();
    }
  }

  method NewResources() returns (r: Resources)
    ensures r.configs.store == map[] && r.modules.store == map[] && r.dnsIterators.store == map[]
    ensures r.tcpListeners.store == map[] && r.tcpStreams.store == map[] && r.tlsListeners.store == map[]
    ensures r.tlsStreams.store == map[] && r.udpSockets.store == map[] && r.tcpListeners != r.udpSockets
    ensures r.tcpListeners.Valid() && r.udpSockets.Valid() && r.tlsListeners.Valid()
    ensures {r.modules, r.dnsIterators, r.tcpStreams, r.tlsStreams} !! {r.tcpListeners, r.udpSockets}
    ensures fresh(r.tcpListeners) && fresh(r.udpSockets) && fresh(r.tlsListeners)
  {
    var configs := new HashMapId<Config>();
    var modules := new HashMapId<nat>();
    var dns := new HashMapId<Token>();
    var tcpListeners := new HashMapId<Addr>();
    var tcpStreams := new HashMapId<Token>();
    var tlsListeners := new HashMapId<TlsListener>();
    var tlsStreams := new HashMapId<Token>();
    var udpSockets := new HashMapId<Addr>();
    r := Resources(configs, modules, 0, dns, tcpListeners, tcpStreams, tlsListeners, tlsStreams, udpSockets, 0);
  }

  method NewBundle(config: Config) returns (b: Bundle)
    requires |config.preopenedDirs| <= config.maxFileDescriptors
    ensures Sound(b) && b.stats.counts == Under(b.stats.counts, config)
    ensures b.db.sqliteStats.counts == SqliteUnder(b.db.sqliteStats.counts, config)
    ensures Ledger(b).Fresh(config)
  {
    var quota := NewQuota(config);
    var tables := NewResources();
    var statements := new HashMapId<Token>();
    var connections := new HashMapId<Token>();
    var sqlite := new SqliteStats(config.maxSqliteConnections, config.maxSqliteStatements);
    b := Bundle(tables, DbResources(statements, connections, 0, sqlite), 0, 0, 0, None, quota);
  }
}
