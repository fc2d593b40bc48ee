/** Process configurations and their validators over a fixed filesystem. */
module ProcessConfig {
  import opened Wrappers
  import Utf8

  type u32 = n: nat | n <= 0xFFFF_FFFF

  datatype Check = Pass | Refuse(reason: Reason)

  datatype Reason =
    | ZeroLimit(name: string) | RetainedOverflow | RetainedEntries | RetainedBytes
    | Capability(name: string) | Ceiling(name: string) | Fuel
    | Unresolved | NotADirectory | OutsideAuthority | HostLocalPreopen

  /** A canonical absolute path, as its components. */
  type Path = seq<string>

  datatype Filesystem = Filesystem(canonicalize: string -> Option<Path>, isDir: Path -> bool)

  datatype Config = Config(
    maxMemory: u64, maxFuel: Option<u64>,
    canCompileModules: bool, canCreateConfigs: bool, canSpawnProcesses: bool, canUseTlsCredentialHandles: bool,
    // (guest path, resolved path)
    preopenedDirs: seq<(string, string)>, commandLineArguments: seq<string>, environmentVariables: seq<(string, string)>,
    maxTableElements: u32, maxFileDescriptors: u32, maxNetworkConnections: u32,
    maxMailboxMessages: u32, maxSignalQueue: u32, maxMessageSize: u64, maxMessageResources: u32,
    maxModules: u32, maxConfigs: u32, maxModuleBytes: u64, maxConfigEntries: u32, maxConfigBytes: u64,
    maxSqliteConnections: u32, maxSqliteStatements: u32)

  const DEFAULT: Config := Config(
    10_000_000, None, false, false, false, false, [], [], [],
    100_000, 1024, 1024, 1024, 1088, 1048576, 64,
    64, 64, 16 * 1024 * 1024, 256, 1024 * 1024, 64, 256)

  // ---------------------------------------------------------------- retained values

  function ByteLen(s: string): nat { |Utf8.Encode(s)| }

  function TotalBytes(values: seq<string>): nat {
    if values == [] then 0 else TotalBytes(values[..|values| - 1]) + ByteLen(values[|values| - 1])
  }

  function PairBytes(values: seq<(string, string)>): nat {
    if values == [] then 0
    else
      var last := values[|values| - 1];
      PairBytes(values[..|values| - 1]) + ByteLen(last.0) + ByteLen(last.1)
  }

  function EntryCount(c: Config): nat { |c.commandLineArguments| + |c.environmentVariables| + |c.preopenedDirs| }

  function ByteCount(c: Config): nat {
    TotalBytes(c.commandLineArguments) + PairBytes(c.environmentVariables) + PairBytes(c.preopenedDirs)
  }

  /** The retained texts, one per entry; a pair is one entry. */
  function Entries(c: Config): seq<string> { c.commandLineArguments + Pairs(c.environmentVariables) + Pairs(c.preopenedDirs) }

  function Pairs(values: seq<(string, string)>): seq<string> {
    seq(|values|, i requires 0 <= i < |values| => values[i].0 + values[i].1)
  }

  function Concat(texts: seq<string>): string {
    if texts == [] then [] else Concat(texts[..|texts| - 1]) + texts[|texts| - 1]
  }

  lemma {:induction false} ConcatAppends(a: seq<string>, b: seq<string>)
    ensures Concat(a + b) == Concat(a) + Concat(b)
    decreases |b|
  {
    if b == [] {
      assert a + b == a;
    } else {
      ConcatAppends(a, b[..|b| - 1]);
      assert (a + b)[..|a + b| - 1] == a + b[..|b| - 1];
    }
  }

  lemma {:induction false} TotalBytesMean(values: seq<string>)
    ensures TotalBytes(values) == ByteLen(Concat(values))
  {
    if values != [] {
      TotalBytesMean(values[..|values| - 1]);
      Utf8.EncodeAppends(Concat(values[..|values| - 1]), values[|values| - 1]);
    }
  }

  lemma {:induction false} PairBytesMean(values: seq<(string, string)>)
    ensures PairBytes(values) == ByteLen(Concat(Pairs(values)))
  {
    if values != [] {
      var front, last := values[..|values| - 1], values[|values| - 1];
      PairBytesMean(front);
      assert Pairs(values)[..|values| - 1] == Pairs(front);
      Utf8.EncodeAppends(last.0, last.1);
      Utf8.EncodeAppends(Concat(Pairs(front)), last.0 + last.1);
    }
  }

  /** The entries counted are the retained texts, and the bytes those of their UTF-8 put one after the other. */
  lemma RetainedMeans(c: Config)
    ensures EntryCount(c) == |Entries(c)|
    ensures ByteCount(c) == |Utf8.Encode(Concat(Entries(c)))|
  {
    var args, env, dirs := c.commandLineArguments, Pairs(c.environmentVariables), Pairs(c.preopenedDirs);
    TotalBytesMean(args);
    PairBytesMean(c.environmentVariables);
    PairBytesMean(c.preopenedDirs);
    ConcatAppends(args, env);
    ConcatAppends(args + env, dirs);
    Utf8.EncodeAppends(Concat(args), Concat(env));
    Utf8.EncodeAppends(Concat(args + env), Concat(dirs));
  }

  predicate RetainedFit(c: Config, ceiling: Config) {
    EntryCount(c) <= ceiling.maxConfigEntries && ByteCount(c) <= ceiling.maxConfigBytes
  }

  /** The verdict on retained values, from unbounded totals. */
  function RetainedCheck(c: Config, ceiling: Config): (r: Check)
    ensures r.Pass? <==> RetainedFit(c, ceiling)
  {
    if EntryCount(c) > U64_MAX then Refuse(RetainedOverflow)
    else if EntryCount(c) > ceiling.maxConfigEntries then Refuse(RetainedEntries)
    else if ByteCount(c) > U64_MAX then Refuse(RetainedOverflow)
    else if ByteCount(c) > ceiling.maxConfigBytes then Refuse(RetainedBytes)
    else Pass
  }

  /** `None` stands for an overflow of the 64-bit byte count. */
  function CheckedAdd(bytes: u64, more: nat): Option<u64> {
    if bytes + more <= U64_MAX then Some(bytes + more) else None
  }

  lemma {:induction false} TotalBytesGrow(values: seq<string>, k: nat)
    requires k <= |values|
    ensures TotalBytes(values[..k]) <= TotalBytes(values)
    decreases |values|
  {
    if k < |values| {
      var front := values[..|values| - 1];
      TotalBytesGrow(front, k);
      assert front[..k] == values[..k];
    } else {
      assert values[..k] == values;
    }
  }

  lemma {:induction false} PairBytesGrow(values: seq<(string, string)>, k: nat)
    requires k <= |values|
    ensures PairBytes(values[..k]) <= PairBytes(values)
    decreases |values|
  {
    if k < |values| {
      var front := values[..|values| - 1];
      PairBytesGrow(front, k);
      assert front[..k] == values[..k];
    } else {
      assert values[..k] == values;
    }
  }

  method AddStrings(start: u64, values: seq<string>) returns (bytes: Option<u64>)
    ensures bytes == CheckedAdd(start, TotalBytes(values))
  {
    var sum: u64 := start;
    for k := 0 to |values|
      invariant sum == start + TotalBytes(values[..k])
    {
      assert values[..k + 1][..k] == values[..k];
      TotalBytesGrow(values, k + 1);
      var next := CheckedAdd(sum, ByteLen(values[k]));
      if next.None? {
        return None;
      }
      sum := next.value;
    }
    assert values[..|values|] == values;
    return Some(sum);
  }

  method AddPairs(start: u64, values: seq<(string, string)>) returns (bytes: Option<u64>)
    ensures bytes == CheckedAdd(start, PairBytes(values))
  {
    var sum: u64 := start;
    for k := 0 to |values|
      invariant sum == start + PairBytes(values[..k])
    {
      assert values[..k + 1][..k] == values[..k];
      PairBytesGrow(values, k + 1);
      var key := CheckedAdd(sum, ByteLen(values[k].0));
      if key.None? {
        return None;
      }
      var pair := CheckedAdd(key.value, ByteLen(values[k].1));
      if pair.None? {
        return None;
      }
      sum := pair.value;
    }
    assert values[..|values|] == values;
    return Some(sum);
  }

  /**
   `validate_retained_values_against`: three accumulating loops with checked additions accept
   exactly the configurations whose unbounded totals fit; overflow is one way of not fitting.
   */
  method ValidateRetainedValuesAgainst(c: Config, ceiling: Config) returns (r: Check)
    ensures r == RetainedCheck(c, ceiling)
  {
    if EntryCount(c) > U64_MAX {
      return Refuse(RetainedOverflow);
    }
    if EntryCount(c) > ceiling.maxConfigEntries {
      return Refuse(RetainedEntries);
    }
    var bytes := AddStrings(0, c.commandLineArguments);
    if bytes.None? {
      return Refuse(RetainedOverflow);
    }
    bytes := AddPairs(bytes.value, c.environmentVariables);
    if bytes.None? {
      return Refuse(RetainedOverflow);
    }
    bytes := AddPairs(bytes.value, c.preopenedDirs);
    if bytes.None? {
      return Refuse(RetainedOverflow);
    }
    if bytes.value > ceiling.maxConfigBytes {
      return Refuse(RetainedBytes);
    }
    return Pass;
  }

  // ---------------------------------------------------------------- validators

  /** `validate_runtime_limits`, with the retained values judged by what the loops compute. */
  function ValidateRuntimeLimits(c: Config): Check {
    if c.maxMailboxMessages == 0 then Refuse(ZeroLimit("max_mailbox_messages"))
    else if c.maxSignalQueue == 0 then Refuse(ZeroLimit("max_signal_queue"))
    else if c.maxMessageSize == 0 then Refuse(ZeroLimit("max_message_size"))
    else RetainedCheck(c, c)
  }

  function CanDelegatePreopenDir(fs: Filesystem, parent: Config, dir: string): Check {
    var requested := fs.canonicalize(dir);
    if requested.None? then Refuse(Unresolved)
    else if !fs.isDir(requested.value) then Refuse(NotADirectory)
    else if exists k :: 0 <= k < |parent.preopenedDirs| && Covers(fs, parent.preopenedDirs[k].1, requested.value) then Pass
    else Refuse(OutsideAuthority)
  }

  /** The directory `dir` resolves to is `path` or one of its ancestors. */
  predicate Covers(fs: Filesystem, dir: string, path: Path) {
    var q := fs.canonicalize(dir);
    q.Some? && fs.isDir(q.value) && q.value <= path
  }

  /** The first refusal among the child's preopens. */
  function ValidatePreopens(fs: Filesystem, parent: Config, dirs: seq<(string, string)>): (r: Check)
    ensures r.Pass? <==> forall k :: 0 <= k < |dirs| ==> CanDelegatePreopenDir(fs, parent, dirs[k].1).Pass?
  {
    if dirs == [] then Pass
    else
      var first := CanDelegatePreopenDir(fs, parent, dirs[0].1);
      if first.Refuse? then first
      else
        assert forall k :: 0 < k < |dirs| ==> dirs[k] == dirs[1..][k - 1];
        ValidatePreopens(fs, parent, dirs[1..])
  }

  function ValidateCapabilities(parent: Config, child: Config): Check {
    if child.canCompileModules && !parent.canCompileModules then Refuse(Capability("compile-module"))
    else if child.canCreateConfigs && !parent.canCreateConfigs then Refuse(Capability("create-config"))
    else if child.canSpawnProcesses && !parent.canSpawnProcesses then Refuse(Capability("spawn"))
    else if child.canUseTlsCredentialHandles && !parent.canUseTlsCredentialHandles then Refuse(Capability("TLS credential-handle"))
    else Pass
  }

  function ValidateFuel(parent: Option<u64>, child: Option<u64>): Check {
    match (parent, child)
    case (Some(p), Some(c)) => if c <= p then Pass else Refuse(Fuel)
    case (Some(_), None) => Refuse(Fuel)
    case (None, _) => Pass
  }

  /** The ceilings other than memory and fuel, in the order they are compared. */
  function ValidateCeilings(parent: Config, child: Config): Check {
    if child.maxTableElements > parent.maxTableElements then Refuse(Ceiling("max_table_elements"))
    else if child.maxFileDescriptors > parent.maxFileDescriptors then Refuse(Ceiling("max_file_descriptors"))
    else if child.maxNetworkConnections > parent.maxNetworkConnections then Refuse(Ceiling("max_network_connections"))
    else if child.maxMailboxMessages > parent.maxMailboxMessages then Refuse(Ceiling("max_mailbox_messages"))
    else if child.maxSignalQueue > parent.maxSignalQueue then Refuse(Ceiling("max_signal_queue"))
    else if child.maxMessageSize > parent.maxMessageSize then Refuse(Ceiling("max_message_size"))
    else if child.maxMessageResources > parent.maxMessageResources then Refuse(Ceiling("max_message_resources"))
    else if child.maxModules > parent.maxModules then Refuse(Ceiling("max_modules"))
    else if child.maxConfigs > parent.maxConfigs then Refuse(Ceiling("max_configs"))
    else if child.maxModuleBytes > parent.maxModuleBytes then Refuse(Ceiling("max_module_bytes"))
    else if child.maxConfigEntries > parent.maxConfigEntries then Refuse(Ceiling("max_config_entries"))
    else if child.maxConfigBytes > parent.maxConfigBytes then Refuse(Ceiling("max_config_bytes"))
    else if child.maxSqliteConnections > parent.maxSqliteConnections then Refuse(Ceiling("max_sqlite_connections"))
    else if child.maxSqliteStatements > parent.maxSqliteStatements then Refuse(Ceiling("max_sqlite_statements"))
    else Pass
  }

  function Then(first: Check, second: Check): Check { if first.Refuse? then first else second }

  /** `validate_child_config`. */
  function ValidateChildConfig(fs: Filesystem, parent: Config, child: Config): Check {
    Then(ValidateRuntimeLimits(child),
    Then(ValidateCapabilities(parent, child),
    Then(if child.maxMemory > parent.maxMemory then Refuse(Ceiling("max_memory")) else Pass,
    Then(ValidateFuel(parent.maxFuel, child.maxFuel),
    Then(ValidateCeilings(parent, child),
         ValidatePreopens(fs, parent, child.preopenedDirs))))))
  }

  /** `validate_distributed_config`: it has no fuel comparison and refuses every preopen. */
  function ValidateDistributedConfig(c: Config): Check {
    Then(ValidateRuntimeLimits(c),
    Then(ValidateCapabilities(DEFAULT, c),
    Then(if c.maxMemory > DEFAULT.maxMemory then Refuse(Ceiling("max_memory")) else Pass,
    Then(ValidateCeilings(DEFAULT, c),
         if c.preopenedDirs != [] then Refuse(HostLocalPreopen) else Pass))))
  }

  /** `new_child_config`: the parent's ceilings, no capability and no retained value. */
  function NewChildConfig(parent: Config): Config {
    parent.(canCompileModules := false, canCreateConfigs := false, canSpawnProcesses := false,
            canUseTlsCredentialHandles := false,
            preopenedDirs := [], commandLineArguments := [], environmentVariables := [])
  }
}
