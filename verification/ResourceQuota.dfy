/** Process resource accounting: open counts under ceilings, shared by reference. */
module ResourceQuota {
  datatype QuotaOp =
    | ReserveFile | ReleaseFile | ReserveConnection | ReleaseConnection
    | ReserveDns | ReleaseDns | ReserveHandle | ReleaseHandle

  function FileUnits(op: QuotaOp): int {
    match op
    case ReserveFile => 1 case ReleaseFile => -1
    case ReserveHandle => 1 case ReleaseHandle => -1
    case _ => 0
  }

  function NetworkUnits(op: QuotaOp): int {
    match op
    case ReserveConnection => 1 case ReleaseConnection => -1
    case ReserveHandle => 1 case ReleaseHandle => -1
    case _ => 0
  }

  function DnsUnits(op: QuotaOp): int {
    match op
    case ReserveDns => 1 case ReleaseDns => -1
    case _ => 0
  }

  /** Net units moved by those operations of a run that took effect. */
  function Moved(units: QuotaOp -> int, ops: seq<QuotaOp>, effects: seq<bool>): int
    requires |effects| <= |ops|
  {
    if effects == [] then 0
    else
      var last := |effects| - 1;
      Moved(units, ops, effects[..last]) + (if effects[last] then units(ops[last]) else 0)
  }

  lemma MovedSnoc(units: QuotaOp -> int, ops: seq<QuotaOp>, effects: seq<bool>, effect: bool)
    requires |effects| < |ops|
    ensures Moved(units, ops, effects + [effect]) == Moved(units, ops, effects) + (if effect then units(ops[|effects|]) else 0)
  {
    assert (effects + [effect])[..|effects|] == effects;
  }

  datatype Counts = Counts(
    openFileDescriptors: nat, openNetworkConnections: nat, openDnsIterators: nat,
    maxFileDescriptors: nat, maxNetworkConnections: nat, maxDnsIterators: nat)
  {
    /** Nothing is over its ceiling. */
    predicate Valid() {
      && openFileDescriptors <= maxFileDescriptors
      && openNetworkConnections <= maxNetworkConnections
      && openDnsIterators <= maxDnsIterators
    }

    /** How many more network handles fit under both ceilings. */
    function Room(): int {
      var files, connections := maxFileDescriptors - openFileDescriptors, maxNetworkConnections - openNetworkConnections;
      if files < connections then files else connections
    }

    /** `n` network handles more: one descriptor and one network unit each. */
    function Plus(n: nat): Counts {
      this.(openFileDescriptors := openFileDescriptors + n, openNetworkConnections := openNetworkConnections + n)
    }

    function Minus(n: nat): Counts
      requires n <= openFileDescriptors && n <= openNetworkConnections
    {
      this.(openFileDescriptors := openFileDescriptors - n, openNetworkConnections := openNetworkConnections - n)
    }

    predicate FitsLimits(files: nat, connections: nat) {
      openFileDescriptors <= files && openNetworkConnections <= connections && openDnsIterators <= connections
    }

    function WithLimits(files: nat, connections: nat): Counts {
      this.(maxFileDescriptors := files, maxNetworkConnections := connections, maxDnsIterators := connections)
    }
  }

  class ResourceStats {
    var counts: Counts

    constructor (maxFileDescriptors: nat, maxNetworkConnections: nat)
      ensures counts == Counts(0, 0, 0, maxFileDescriptors, maxNetworkConnections, maxNetworkConnections)
    {
      counts := Counts(0, 0, 0, maxFileDescriptors, maxNetworkConnections, maxNetworkConnections);
    }

    method ReserveFileDescriptor() returns (ok: bool)
      modifies this
      ensures ok <==> old(counts).openFileDescriptors < old(counts).maxFileDescriptors
      ensures counts == if ok then old(counts).(openFileDescriptors := old(counts).openFileDescriptors + 1) else old(counts)
    {
      if counts.openFileDescriptors >= counts.maxFileDescriptors {
        return false;
      }
      counts := counts.(openFileDescriptors := counts.openFileDescriptors + 1);
      return true;
    }

    /** The network-handle quota: one descriptor and one network unit, or neither. */
    method ReserveHandle() returns (ok: bool)
      modifies this
      ensures ok <==> old(counts).Room() > 0
      ensures counts == if ok then old(counts).Plus(1) else old(counts)
    {
      if counts.openFileDescriptors >= counts.maxFileDescriptors || counts.openNetworkConnections >= counts.maxNetworkConnections {
        return false;
      }
      counts := counts.(openFileDescriptors := counts.openFileDescriptors + 1,
                        openNetworkConnections := counts.openNetworkConnections + 1);
      return true;
    }

    method ReleaseHandle() returns (ok: bool)
      modifies this
      ensures ok <==> old(counts).openFileDescriptors > 0 && old(counts).openNetworkConnections > 0
      ensures counts == if ok then old(counts).Minus(1) else old(counts)
    {
      if counts.openFileDescriptors == 0 || counts.openNetworkConnections == 0 {
        return false;
      }
      counts := counts.(openFileDescriptors := counts.openFileDescriptors - 1,
                        openNetworkConnections := counts.openNetworkConnections - 1);
      return true;
    }

    /** Dropping `n` leases. */
    method DropLeases(n: nat)
      requires n <= counts.openFileDescriptors && n <= counts.openNetworkConnections
      modifies this
      ensures counts == old(counts).Minus(n)
    {
      for k := 0 to n
        invariant counts == old(counts).Minus(k)
      {
        var _ := ReleaseHandle();
      }
    }

    /** One operation of the file, connection, DNS or handle quota; says whether it took effect. */
    method Perform(op: QuotaOp) returns (effect: bool)
      requires counts.Valid()
      modifies this
      ensures counts.Valid()
      ensures effect <==> Permitted(op, old(counts))
      ensures counts == if effect then Applied(op, old(counts)) else old(counts)
    {
      match op {
        case ReserveFile =>
          effect := ReserveFileDescriptor();
        case ReleaseFile =>
          effect := counts.openFileDescriptors > 0;
          if effect {
            counts := counts.(openFileDescriptors := counts.openFileDescriptors - 1);
          }
        case ReserveConnection =>
          effect := counts.openNetworkConnections < counts.maxNetworkConnections;
          if effect {
            counts := counts.(openNetworkConnections := counts.openNetworkConnections + 1);
          }
        case ReleaseConnection =>
          effect := counts.openNetworkConnections > 0;
          if effect {
            counts := counts.(openNetworkConnections := counts.openNetworkConnections - 1);
          }
        case ReserveDns =>
          effect := counts.openDnsIterators < counts.maxDnsIterators;
          if effect {
            counts := counts.(openDnsIterators := counts.openDnsIterators + 1);
          }
        case ReleaseDns =>
          effect := counts.openDnsIterators > 0;
          if effect {
            counts := counts.(openDnsIterators := counts.openDnsIterators - 1);
          }
        case ReserveHandle =>
          effect := ReserveHandle();
        case ReleaseHandle =>
          effect := ReleaseHandle();
      }
    }

    /** Over every run the ceilings hold and the counts are what the effective operations add up to. */
    method Run(ops: seq<QuotaOp>) returns (effects: seq<bool>)
      requires counts.Valid()
      modifies this
      ensures counts.Valid() && |effects| == |ops|
      ensures counts.openFileDescriptors == old(counts).openFileDescriptors + Moved(FileUnits, ops, effects)
      ensures counts.openNetworkConnections == old(counts).openNetworkConnections + Moved(NetworkUnits, ops, effects)
      ensures counts.openDnsIterators == old(counts).openDnsIterators + Moved(DnsUnits, ops, effects)
    {
      effects := [];
      for k := 0 to |ops|
        invariant counts.Valid() && |effects| == k
        invariant counts.openFileDescriptors == old(counts).openFileDescriptors + Moved(FileUnits, ops, effects)
        invariant counts.openNetworkConnections == old(counts).openNetworkConnections + Moved(NetworkUnits, ops, effects)
        invariant counts.openDnsIterators == old(counts).openDnsIterators + Moved(DnsUnits, ops, effects)
      {
        var effect := Perform(ops[k]);
        MovedSnoc(FileUnits, ops, effects, effect);
        MovedSnoc(NetworkUnits, ops, effects, effect);
        MovedSnoc(DnsUnits, ops, effects, effect);
        effects := effects + [effect];
      }
    }

    method SetLimits(files: nat, connections: nat)
      requires counts.FitsLimits(files, connections)
      modifies this
      ensures counts.Valid() && counts == old(counts).WithLimits(files, connections)
    {
      counts := counts.WithLimits(files, connections);
    }

    /**
     `NetworkHandleLease::transfer_to`: the lease's unit moves from this quota to `target` in one
     piece, or both quotas stay as they were.
     */
    method TransferLease(target: ResourceStats) returns (ok: bool)
      modifies this, target
      ensures ok <==>
        || target == this
        || (old(target.counts).Room() > 0 && old(counts).openFileDescriptors > 0 && old(counts).openNetworkConnections > 0)
      ensures ok && target != this ==> counts == old(counts).Minus(1) && target.counts == old(target.counts).Plus(1)
      ensures !ok || target == this ==> counts == old(counts) && target.counts == old(target.counts)
    {
      if target == this {
        return true;
      }
      ok := target.ReserveHandle();
      if ok {
        ok := ReleaseHandle();
        if !ok {
          var _ := target.ReleaseHandle();
        }
      }
    }
  }

  predicate Permitted(op: QuotaOp, c: Counts) {
    match op
    case ReserveFile => c.openFileDescriptors < c.maxFileDescriptors
    case ReleaseFile => c.openFileDescriptors > 0
    case ReserveConnection => c.openNetworkConnections < c.maxNetworkConnections
    case ReleaseConnection => c.openNetworkConnections > 0
    case ReserveDns => c.openDnsIterators < c.maxDnsIterators
    case ReleaseDns => c.openDnsIterators > 0
    case ReserveHandle => c.Room() > 0
    case ReleaseHandle => c.openFileDescriptors > 0 && c.openNetworkConnections > 0
  }

  function Applied(op: QuotaOp, c: Counts): Counts
    requires Permitted(op, c)
  {
    c.(openFileDescriptors := c.openFileDescriptors + FileUnits(op),
       openNetworkConnections := c.openNetworkConnections + NetworkUnits(op),
       openDnsIterators := c.openDnsIterators + DnsUnits(op))
  }

  datatype SqliteCounts = SqliteCounts(openConnections: nat, openStatements: nat, maxConnections: nat, maxStatements: nat) {
    predicate Valid() { openConnections <= maxConnections && openStatements <= maxStatements }

    predicate FitsLimits(connections: nat, statements: nat) { openConnections <= connections && openStatements <= statements }
  }

  class SqliteStats {
    var counts: SqliteCounts

    constructor (maxConnections: nat, maxStatements: nat)
      ensures counts == SqliteCounts(0, 0, maxConnections, maxStatements)
    {
      counts := SqliteCounts(0, 0, maxConnections, maxStatements);
    }

    method SetLimits(connections: nat, statements: nat)
      requires counts.FitsLimits(connections, statements)
      modifies this
      ensures counts.Valid() && counts == old(counts).(maxConnections := connections, maxStatements := statements)
    {
      counts := counts.(maxConnections := connections, maxStatements := statements);
    }
  }
}
