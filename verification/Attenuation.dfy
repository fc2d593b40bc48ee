/** Authority shrinks down every spawn chain. */
module Attenuation {
  import opened Wrappers
  import opened ProcessConfig

  // ---------------------------------------------------------------- the authority order

  predicate FuelWithin(child: Option<u64>, parent: Option<u64>) {
    parent.Some? ==> child.Some? && child.value <= parent.value
  }

  predicate CapabilitiesWithin(child: Config, parent: Config) {
    && (child.canCompileModules ==> parent.canCompileModules)
    && (child.canCreateConfigs ==> parent.canCreateConfigs)
    && (child.canSpawnProcesses ==> parent.canSpawnProcesses)
    && (child.canUseTlsCredentialHandles ==> parent.canUseTlsCredentialHandles)
  }

  function Ceilings(c: Config): seq<nat> {
    [c.maxMemory, c.maxTableElements, c.maxFileDescriptors, c.maxNetworkConnections, c.maxMailboxMessages, c.maxSignalQueue,
     c.maxMessageSize, c.maxMessageResources, c.maxModules, c.maxConfigs, c.maxModuleBytes, c.maxConfigEntries,
     c.maxConfigBytes, c.maxSqliteConnections, c.maxSqliteStatements]
  }

  predicate Pointwise(a: seq<nat>, b: seq<nat>) {
    |a| == |b| && forall k :: 0 <= k < |a| ==> a[k] <= b[k]
  }

  /** The file authority of a configuration: what one of its preopens resolves to, and all that continues it. */
  ghost predicate CanReach(fs: Filesystem, c: Config, path: Path) {
    exists k, suffix :: 0 <= k < |c.preopenedDirs| && Continues(fs, c.preopenedDirs[k].1, suffix, path)
  }

  predicate Continues(fs: Filesystem, dir: string, suffix: Path, path: Path) {
    var root := fs.canonicalize(dir);
    root.Some? && fs.isDir(root.value) && path == root.value + suffix
  }

  /** Whoever reaches a path reaches everything below it. */
  lemma ReachIsDownward(fs: Filesystem, c: Config, path: Path, more: Path)
    requires CanReach(fs, c, path)
    ensures CanReach(fs, c, path + more)
  {
    var k, suffix :| 0 <= k < |c.preopenedDirs| && Continues(fs, c.preopenedDirs[k].1, suffix, path);
    assert path + more == fs.canonicalize(c.preopenedDirs[k].1).value + (suffix + more);
    assert Continues(fs, c.preopenedDirs[k].1, suffix + more, path + more);
  }

  /** One directory covers a path exactly if the path continues what it resolves to. */
  lemma CoversMeans(fs: Filesystem, dir: string, path: Path)
    ensures Covers(fs, dir, path) <==> exists suffix :: Continues(fs, dir, suffix, path)
  {
    var root := fs.canonicalize(dir);
    if Covers(fs, dir, path) {
      assert Continues(fs, dir, path[|root.value|..], path);
    }
  }

  /** A directory may be delegated exactly if it resolves to a directory the parent can reach. */
  lemma DelegationMeans(fs: Filesystem, parent: Config, dir: string)
    ensures CanDelegatePreopenDir(fs, parent, dir).Pass? <==>
      var q := fs.canonicalize(dir); q.Some? && fs.isDir(q.value) && CanReach(fs, parent, q.value)
  {
    var q := fs.canonicalize(dir);
    if q.Some? {
      forall k | 0 <= k < |parent.preopenedDirs|
        ensures Covers(fs, parent.preopenedDirs[k].1, q.value) <==>
          exists suffix :: Continues(fs, parent.preopenedDirs[k].1, suffix, q.value)
      {
        CoversMeans(fs, parent.preopenedDirs[k].1, q.value);
      }
    }
  }

  ghost predicate FilesWithin(fs: Filesystem, child: Config, parent: Config) {
    forall path :: CanReach(fs, child, path) ==> CanReach(fs, parent, path)
  }

  ghost predicate Within(fs: Filesystem, child: Config, parent: Config) {
    && CapabilitiesWithin(child, parent)
    && FuelWithin(child.maxFuel, parent.maxFuel)
    && Pointwise(Ceilings(child), Ceilings(parent))
    && FilesWithin(fs, child, parent)
  }

  /** What a configuration must be on its own to be accepted as anyone's child. */
  predicate Sound(c: Config) {
    c.maxMailboxMessages > 0 && c.maxSignalQueue > 0 && c.maxMessageSize > 0 && RetainedFit(c, c)
  }

  predicate Resolves(fs: Filesystem, c: Config) {
    forall k :: 0 <= k < |c.preopenedDirs| ==>
      var q := fs.canonicalize(c.preopenedDirs[k].1);
      q.Some? && fs.isDir(q.value)
  }

  /** The child's preopens pass exactly if they all resolve and the child reaches nothing the parent does not. */
  lemma PreopensMeanFiles(fs: Filesystem, parent: Config, child: Config)
    ensures ValidatePreopens(fs, parent, child.preopenedDirs).Pass? <==> Resolves(fs, child) && FilesWithin(fs, child, parent)
  {
    var dirs := child.preopenedDirs;
    forall k | 0 <= k < |dirs|
      ensures CanDelegatePreopenDir(fs, parent, dirs[k].1).Pass? <==>
        var q := fs.canonicalize(dirs[k].1); q.Some? && fs.isDir(q.value) && CanReach(fs, parent, q.value)
    {
      DelegationMeans(fs, parent, dirs[k].1);
    }
    if ValidatePreopens(fs, parent, dirs).Pass? {
      forall path | CanReach(fs, child, path) ensures CanReach(fs, parent, path) {
        var k, suffix :| 0 <= k < |dirs| && Continues(fs, dirs[k].1, suffix, path);
        assert CanDelegatePreopenDir(fs, parent, dirs[k].1).Pass?;
        ReachIsDownward(fs, parent, fs.canonicalize(dirs[k].1).value, suffix);
      }
    }
    if Resolves(fs, child) && FilesWithin(fs, child, parent) {
      forall k | 0 <= k < |dirs| ensures CanDelegatePreopenDir(fs, parent, dirs[k].1).Pass? {
        var q := fs.canonicalize(dirs[k].1).value;
        assert Continues(fs, dirs[k].1, [], q);
        assert CanReach(fs, child, q);
      }
    }
  }

  lemma CeilingsMeanOrder(parent: Config, child: Config)
    ensures Pointwise(Ceilings(child), Ceilings(parent)) <==>
      child.maxMemory <= parent.maxMemory && ValidateCeilings(parent, child).Pass?
  {
    var a, b := Ceilings(child), Ceilings(parent);
    if Pointwise(a, b) {
      assert a[0] <= b[0] && a[1] <= b[1] && a[2] <= b[2] && a[3] <= b[3] && a[4] <= b[4];
      assert a[5] <= b[5] && a[6] <= b[6] && a[7] <= b[7] && a[8] <= b[8] && a[9] <= b[9];
      assert a[10] <= b[10] && a[11] <= b[11] && a[12] <= b[12] && a[13] <= b[13] && a[14] <= b[14];
    }
  }

  /** The validator decides the authority order: nothing more is refused and nothing less. */
  lemma ValidateDecides(fs: Filesystem, parent: Config, child: Config)
    ensures ValidateChildConfig(fs, parent, child).Pass? <==> Sound(child) && Resolves(fs, child) && Within(fs, child, parent)
  {
    PreopensMeanFiles(fs, parent, child);
    CeilingsMeanOrder(parent, child);
  }

  lemma WithinIsTransitive(fs: Filesystem, a: Config, b: Config, c: Config)
    requires Within(fs, a, b) && Within(fs, b, c)
    ensures Within(fs, a, c)
  {
  }

  // ---------------------------------------------------------------- spawn chains

  /** Each process was spawned by the one before it. */
  ghost predicate SpawnChain(fs: Filesystem, chain: seq<Config>) {
    forall k :: 0 <= k < |chain| - 1 ==> Spawned(fs, chain, k)
  }

  predicate Spawned(fs: Filesystem, chain: seq<Config>, k: nat)
    requires k + 1 < |chain|
  {
    ValidateChildConfig(fs, chain[k], chain[k + 1]).Pass?
  }

  lemma LinkAttenuates(fs: Filesystem, chain: seq<Config>, k: nat)
    requires SpawnChain(fs, chain) && k + 1 < |chain|
    ensures Within(fs, chain[k + 1], chain[k]) && Sound(chain[k + 1])
  {
    assert Spawned(fs, chain, k);
    ValidateDecides(fs, chain[k], chain[k + 1]);
  }

  /** No descendant, at any depth, holds authority that any of its ancestors lacks. */
  lemma {:induction false} ChainAttenuates(fs: Filesystem, chain: seq<Config>, i: nat, j: nat)
    requires SpawnChain(fs, chain) && i < j < |chain|
    ensures Within(fs, chain[j], chain[i]) && Sound(chain[j])
    decreases j - i
  {
    LinkAttenuates(fs, chain, j - 1);
    if i < j - 1 {
      ChainAttenuates(fs, chain, i, j - 1);
      WithinIsTransitive(fs, chain[j], chain[j - 1], chain[i]);
    }
  }

  /**
   A fresh child validates exactly when its parent's three queue limits are non-zero; it has the
   parent's ceilings, no capability at all, and reaches no file.
   */
  lemma NewChildValidates(fs: Filesystem, parent: Config)
    ensures ValidateChildConfig(fs, parent, NewChildConfig(parent)).Pass? <==>
      parent.maxMailboxMessages > 0 && parent.maxSignalQueue > 0 && parent.maxMessageSize > 0
    ensures Sound(parent) ==> ValidateChildConfig(fs, parent, NewChildConfig(parent)).Pass?
    ensures forall c :: CapabilitiesWithin(NewChildConfig(parent), c)
    ensures forall path :: !CanReach(fs, NewChildConfig(parent), path)
    ensures Ceilings(NewChildConfig(parent)) == Ceilings(parent) && NewChildConfig(parent).maxFuel == parent.maxFuel
  {
    ValidateDecides(fs, parent, NewChildConfig(parent));
  }

  /** A remote node accepts exactly what its default configuration accepts as a child, on any filesystem. */
  lemma DistributedMeansDefaultChild(fs: Filesystem, c: Config)
    ensures ValidateDistributedConfig(c).Pass? <==> ValidateChildConfig(fs, DEFAULT, c).Pass?
  {
    if c.preopenedDirs != [] {
      assert CanDelegatePreopenDir(fs, DEFAULT, c.preopenedDirs[0].1).Refuse?;
    }
  }

  /** The fifteen ceilings of the default configuration, in the order of `Ceilings`. */
  const DEFAULT_CEILINGS: seq<nat> :=
    [10_000_000, 100_000, 1024, 1024, 1024, 1088, 1048576, 64, 64, 64, 16777216, 256, 1048576, 64, 256]

  predicate Powerless(c: Config) {
    !c.canCompileModules && !c.canCreateConfigs && !c.canSpawnProcesses && !c.canUseTlsCredentialHandles
  }

  /**
   A remote configuration is accepted exactly if it is sound, holds no capability and no directory,
   and stays below the default ceilings; its fuel does not matter.
   */
  lemma DistributedDecides(c: Config)
    ensures ValidateDistributedConfig(c).Pass? <==>
      Sound(c) && Powerless(c) && c.preopenedDirs == [] && Pointwise(Ceilings(c), DEFAULT_CEILINGS)
  {
    CeilingsMeanOrder(DEFAULT, c);
    assert Ceilings(DEFAULT) == DEFAULT_CEILINGS;
  }

  /** Everything spawned below a remotely spawned process stays within the receiver's default. */
  lemma RemoteChainStaysWithinDefault(fs: Filesystem, chain: seq<Config>, j: nat)
    requires SpawnChain(fs, chain) && j < |chain| && ValidateDistributedConfig(chain[0]).Pass?
    ensures Within(fs, chain[j], DEFAULT)
    ensures Powerless(chain[j]) && forall path :: !CanReach(fs, chain[j], path)
  {
    DistributedMeansDefaultChild(fs, chain[0]);
    ValidateDecides(fs, DEFAULT, chain[0]);
    if j > 0 {
      ChainAttenuates(fs, chain, 0, j);
      WithinIsTransitive(fs, chain[j], chain[0], DEFAULT);
    }
  }
}
