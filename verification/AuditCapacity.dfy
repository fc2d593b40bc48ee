/** When the reserved channel slot exists, and what happens when it does not. */
module AuditCapacity {
  import opened Wrappers
  import opened AuditModel
  import opened AuditInvariants
  import AuditTheorems
  import AuditEmitAlone
  import opened AuditProgress

  ghost predicate Reachable(s: State) {
    exists states, steps :: IsRun(states, steps) && s == states[|steps|]
  }

  lemma StartIsReachable(s: State)
    requires Init(s)
    ensures Reachable(s)
  {
    var states, steps: seq<Step> := [s], [];
    assert IsRun(states, steps) && s == states[|steps|];
  }

  lemma Reach(s: State, step: Step)
    requires Reachable(s) && Wf(s) && Enabled(s, step)
    ensures Reachable(Apply(s, step))
  {
    var states, steps :| IsRun(states, steps) && s == states[|steps|];
    var states', steps' := states + [Apply(s, step)], steps + [step];
    forall i | 0 <= i < |steps'| ensures StepAt(states', steps', i) {
      if i < |steps| {
        assert StepAt(states, steps, i);
      }
    }
    assert IsRun(states', steps') && Apply(s, step) == states'[|steps'|];
  }

  lemma {:induction false} ReachAlong(s: State, steps: seq<Step>, s': State)
    requires Reachable(s) && Path(s, steps, s')
    ensures Reachable(s')
    decreases |steps|
  {
    if steps != [] {
      Reach(s, steps[0]);
      ReachAlong(Apply(s, steps[0]), steps[1..], s');
    }
  }

  // ---------------------------------------------------------------- filling the channel

  predicate Largest(config: Config) { config.HasSender() && config.EventCapacity() == USIZE_MAX }

  function Base(n: nat): Counters { Counters(n, n, 0, 0, 0, 0, 0, 0, 0, 0, n, 0, n, false, true, false) }

  /** `n` emits, of threads below `n`, have been accepted; the writer has not been scheduled. */
  predicate Filled(f: State, n: nat) {
    && Largest(f.config) && f.c == Base(n) && |f.queue| == n && !f.handlesDropped
    && f.barriers == [] && f.current == None && f.lock == None && f.writer.pc.WriterIdle?
    && forall t :: t in f.threads ==> t < n && f.threads[t].EmitCall?
  }

  /** An undisturbed emit of thread `n` is accepted. */
  lemma OneMore(f: State, n: nat) returns (g: State)
    requires Filled(f, n) && n < USIZE_MAX && Reachable(f)
    ensures Reachable(g) && Filled(g, n + 1) && g.config == f.config
  {
    var begun := Apply(f, BeginEmit(n));
    Reach(f, BeginEmit(n));
    var states, steps :| IsRun(states, steps) && begun == states[|steps|];
    var more;
    more, g := AuditEmitAlone.UndisturbedEmit(states, steps, |steps|, n);
    ReachAlong(begun, more, g);
  }

  lemma {:induction false} Fills(config: Config, n: nat) returns (f: State)
    requires Largest(config) && config.queueCapacity <= USIZE_MAX && n <= USIZE_MAX
    ensures Reachable(f) && f.config == config && Filled(f, n)
  {
    if n == 0 {
      f := State(config, Base(0), [], false, [], None, None, map[], Writer(WriterIdle, false, 1),
                 History([], [], 0, [], 0, 0, false));
      StartIsReachable(f);
    } else {
      var g := Fills(config, n - 1);
      f := OneMore(g, n - 1);
    }
  }

  // ---------------------------------------------------------------- flushing a full channel

  /** Where a flush that leads a new barrier goes next, until it finds the channel full. */
  function Lead(pc: FlushPc): FlushPc {
    var M := USIZE_MAX;
    match pc
    case FlushStart => FlushLoop(M)
    case FlushLoop(_) => FlushLocked(M)
    case FlushLocked(_) => FlushCreating(M)
    case FlushCreating(_) => FlushPublishing(M, 0)
    case FlushPublishing(_, _) => FlushChosen(M, 0, true)
    case FlushChosen(_, _, _) => FlushSending(M, 0)
    case _ => FullUnpend(0)
  }

  predicate Leading(pc: FlushPc) {
    var M := USIZE_MAX;
    || pc.FlushStart? || pc == FlushLoop(M) || pc == FlushLocked(M) || pc == FlushCreating(M)
    || pc == FlushPublishing(M, 0) || pc == FlushChosen(M, 0, true) || pc == FlushSending(M, 0)
  }

  /** A flush by thread `USIZE_MAX` of a channel that holds that many events. */
  function Flushing(f: State, pc: FlushPc): State {
    var M := USIZE_MAX;
    var created := !(pc.FlushStart? || pc.FlushLoop? || pc.FlushLocked? || pc.FlushCreating?);
    f.(c := Base(M).(flushPending := created && !pc.FlushPublishing?),
       barriers := if created then [Barrier(M, None, None)] else [],
       current := if created then Some(0) else None,
       lock := if pc.FlushLocked? || pc.FlushCreating? || pc.FlushPublishing? then Some(M) else None,
       threads := f.threads[M := FlushCall(false, EnqueuedCalls(f.threads), pc)])
  }

  lemma LeaderMoves(f: State, pc: FlushPc)
    requires Filled(f, USIZE_MAX) && Leading(pc)
    ensures var s := Flushing(f, pc);
      && FlushWf(s, pc) && CurrentWf(s) && !FlushBlocked(s, pc, pc.FlushSending?)
      && FlushNext(s, pc, pc.FlushSending?) == Lead(pc)
      && !FlushSends(s, pc) && !FlushCloses(s, pc)
  {
  }

  lemma LeaderWrites(f: State, pc: FlushPc)
    requires Filled(f, USIZE_MAX) && Leading(pc)
    ensures var s, s' := Flushing(f, pc), Flushing(f, Lead(pc));
      && FlushWf(s, pc) && CurrentWf(s)
      && FlushCounters(s, pc) == s'.c && FlushBarriers(s, pc) == s'.barriers
      && FlushLock(s, USIZE_MAX, pc, pc.FlushSending?) == s'.lock
  {
    LeaderMoves(f, pc);
  }

  lemma FlushMidStep(f: State, pc: FlushPc)
    requires Filled(f, USIZE_MAX) && Leading(pc)
    ensures var s := Flushing(f, pc);
      && Wf(s) && Enabled(s, FlushStep(USIZE_MAX, pc.FlushSending?))
      && DoFlush(s, USIZE_MAX, pc, pc.FlushSending?) == Flushing(f, Lead(pc))
  {
    LeaderMoves(f, pc);
    LeaderWrites(f, pc);
  }

  function FlushDistance(pc: FlushPc): nat {
    match pc
    case FlushStart => 7 case FlushLoop(_) => 6 case FlushLocked(_) => 5 case FlushCreating(_) => 4
    case FlushPublishing(_, _) => 3 case FlushChosen(_, _, _) => 2 case FlushSending(_, _) => 1 case _ => 0
  }

  lemma {:induction false} LeadsToFull(f: State, pc: FlushPc)
    requires Filled(f, USIZE_MAX) && Leading(pc) && Reachable(Flushing(f, pc))
    ensures Reachable(Flushing(f, FullUnpend(0)))
    decreases FlushDistance(pc)
  {
    FlushMidStep(f, pc);
    Reach(Flushing(f, pc), FlushStep(USIZE_MAX, pc.FlushSending?));
    if Lead(pc) != FullUnpend(0) {
      LeadsToFull(f, Lead(pc));
    }
  }

  /** With an event capacity of the largest word the extra slot is missing, and a flush finds the channel full. */
  lemma FullIsReachable(config: Config) returns (s: State)
    requires Largest(config) && config.queueCapacity <= USIZE_MAX
    ensures Reachable(s) && s.config == config
    ensures USIZE_MAX in s.threads && InFull(s.threads[USIZE_MAX])
  {
    var f := Fills(config, USIZE_MAX);
    Reach(f, BeginFlush(USIZE_MAX, false));
    assert Apply(f, BeginFlush(USIZE_MAX, false)) == Flushing(f, FlushStart);
    LeadsToFull(f, FlushStart);
    s := Flushing(f, FullUnpend(0));
  }

  /** Both `Full` branches are dead if and only if the channel has its extra slot, or does not exist. */
  lemma FullIsDeadExactly(config: Config)
    requires config.queueCapacity <= USIZE_MAX
    ensures config.SlotReserved() <==>
      forall s :: Reachable(s) && s.config == config ==> forall t :: t in s.threads ==> !InFull(s.threads[t])
  {
    if config.SlotReserved() {
      forall s, t | Reachable(s) && s.config == config && t in s.threads ensures !InFull(s.threads[t]) {
        var states, steps :| IsRun(states, steps) && s == states[|steps|];
        AuditTheorems.ConfigStays(states, steps, |steps|);
        AuditTheorems.SendsSucceed(states, steps, |steps|, t);
      }
    } else {
      var s := FullIsReachable(config);
    }
  }
}
