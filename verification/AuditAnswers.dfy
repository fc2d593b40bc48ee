/**
 What flush calls return: their barrier's outcome, which is `Flushed` unless a sink call failed
 or the barrier's leader gave up.
 */
module AuditAnswers {
  import opened Wrappers
  import opened AuditModel
  import opened AuditInvariants
  import Emit = AuditEmitSteps
  import FlushCalls = AuditFlushSteps
  import WriterThread = AuditWriterSteps
  import AuditTheorems

  // ---------------------------------------------------------------- every run

  /** A call returns its barrier's outcome; without one, its deadline passed or there is no channel. */
  predicate AnswerOk(s: State, pc: FlushPc)
    requires FlushWf(s, pc)
  {
    pc.FlushDone? ==>
      match pc.via
      case Some(b) => s.barriers[b].outcome == Some(pc.result)
      case None =>
        || pc.result.TimedOut?
        || (pc.result.Flushed? && !s.config.enabled)
        || (pc.result.Closed? && s.config.enabled && !s.config.writerStarted)
  }

  predicate AnswersOk(s: State)
    requires Wf(s)
  {
    forall t :: t in s.threads && s.threads[t].FlushCall? ==> AnswerOk(s, s.threads[t].flush)
  }

  predicate NeverClosed(s: State) { forall b :: 0 <= b < |s.barriers| ==> s.barriers[b].outcome != Some(Closed) }

  /** With the extra slot no leader ever times a barrier out. */
  predicate NeverGivenUp(s: State) {
    s.config.SlotReserved() ==> forall b :: 0 <= b < |s.barriers| ==> s.barriers[b].outcome != Some(TimedOut)
  }

  /** The lock is with a call that will release it. */
  predicate LockHeld(s: State) {
    s.lock.Some? ==> s.lock.value in s.threads && HoldsLock(s.threads[s.lock.value])
  }

  predicate Answered(s: State) { Wf(s) && AnswersOk(s) && NeverClosed(s) && NeverGivenUp(s) && LockHeld(s) }

  lemma CallerAnswers(s: State, t: Id, expired: bool)
    requires FlushCalls.FlushFrom(s, t, expired) && InvExit(s) && LeadersOk(s)
    ensures var s' := FlushCalls.After(s, t, expired);
      && t in s'.threads && s'.threads[t].FlushCall? && FlushWf(s', s'.threads[t].flush)
      && AnswerOk(s', s'.threads[t].flush)
  {
    FlushCalls.KeepsWf(s, t, expired);
    assert !InGone(s.threads[t]);
    if Leads(s.threads[t]).Some? {
      assert LeaderOk(s, Leads(s.threads[t]).value);
    }
  }

  lemma FlushKeepsClosed(s: State, t: Id, expired: bool)
    requires FlushCalls.FlushFrom(s, t, expired) && InvExit(s) && InvNoFull(s) && NeverClosed(s) && NeverGivenUp(s)
    ensures NeverClosed(FlushCalls.After(s, t, expired)) && NeverGivenUp(FlushCalls.After(s, t, expired))
  {
    assert !InGone(s.threads[t]) && (s.config.SlotReserved() ==> !InFull(s.threads[t]));
  }

  lemma FlushKeepsLock(s: State, t: Id, expired: bool)
    requires FlushCalls.FlushFrom(s, t, expired) && InvLock(s) && LockHeld(s)
    ensures LockHeld(FlushCalls.After(s, t, expired))
  {
    FlushCalls.Frame(s, t, expired);
  }

  /** The part of the invariant these answers rest on. */
  predicate Basis(s: State) {
    Wf(s) && InvExit(s) && InvLock(s) && InvOwner(s) && InvBarriers(s) && InvNoFull(s) && Covered(s)
  }

  predicate Covered(s: State)
    requires Wf(s)
  {
    forall t :: t in s.threads && s.threads[t].FlushCall? ==> CoverOk(s, s.threads[t])
  }

  lemma HasBasis(s: State)
    requires Inv(s)
    ensures Basis(s)
  {
    forall t | t in s.threads && s.threads[t].FlushCall? ensures CoverOk(s, s.threads[t]) {
      assert FlushOk(s, s.threads[t]);
    }
  }

  lemma OthersAnswer(s: State, t: Id, expired: bool, u: Id)
    requires FlushCalls.FlushFrom(s, t, expired) && u != t && u in s.threads && s.threads[u].FlushCall?
    requires AnswerOk(s, s.threads[u].flush)
    ensures var s' := FlushCalls.After(s, t, expired);
      u in s'.threads && s'.threads[u].FlushCall? && FlushWf(s', s'.threads[u].flush) && AnswerOk(s', s'.threads[u].flush)
  {
    FlushCalls.Frame(s, t, expired);
    FlushCalls.BarriersGrow(s, t, expired);
  }

  lemma FlushAnswersOk(s: State, t: Id, expired: bool)
    requires FlushCalls.FlushFrom(s, t, expired) && InvExit(s) && LeadersOk(s) && AnswersOk(s)
    ensures var s' := FlushCalls.After(s, t, expired); Wf(s') && AnswersOk(s')
  {
    var s' := FlushCalls.After(s, t, expired);
    FlushCalls.KeepsWf(s, t, expired);
    forall u | u in s'.threads && s'.threads[u].FlushCall? ensures AnswerOk(s', s'.threads[u].flush) {
      if u == t {
        CallerAnswers(s, t, expired);
      } else {
        OthersAnswer(s, t, expired, u);
      }
    }
  }

  lemma FlushAnswers(s: State, t: Id, expired: bool)
    requires FlushCalls.FlushFrom(s, t, expired) && Basis(s) && Answered(s)
    ensures Answered(FlushCalls.After(s, t, expired))
  {
    FlushAnswersOk(s, t, expired);
    FlushKeepsClosed(s, t, expired);
    FlushKeepsLock(s, t, expired);
  }

  lemma EmitAnswers(s: State, t: Id, spurious: bool)
    requires Emit.EmitFrom(s, t) && Answered(s)
    ensures Answered(Emit.After(s, t, spurious))
  {
    var s' := Emit.After(s, t, spurious);
    Emit.Frame(s, t, spurious);
    forall u | u in s'.threads && s'.threads[u].FlushCall?
      ensures FlushWf(s', s'.threads[u].flush) && AnswerOk(s', s'.threads[u].flush)
    {
      assert AnswerOk(s, s.threads[u].flush);
    }
  }

  lemma WriterAnswers(s: State, ok: bool)
    requires WriterThread.WriterFrom(s) && Basis(s) && Answered(s)
    ensures Answered(WriterThread.After(s, ok))
  {
    var s' := WriterThread.After(s, ok);
    WriterThread.Frame(s, ok);
    WriterThread.BarriersGrow(s, ok);
    WriterThread.KeepsBarriers(s, ok);
    forall u | u in s'.threads && s'.threads[u].FlushCall? ensures AnswerOk(s', s'.threads[u].flush) {
      assert AnswerOk(s, s.threads[u].flush);
    }
  }

  lemma BeginAnswers(s: State, t: Id, th: Thread)
    requires Answered(s) && t !in s.threads && WriterThread.Fresh(th)
    ensures Answered(WriterThread.Begin(s, t, th))
  {
    var s' := WriterThread.Begin(s, t, th);
    forall u | u in s'.threads && s'.threads[u].FlushCall?
      ensures FlushWf(s', s'.threads[u].flush) && AnswerOk(s', s'.threads[u].flush)
    {
      if u != t {
        assert AnswerOk(s, s.threads[u].flush);
      }
    }
  }

  lemma DropAnswers(s: State)
    requires Answered(s)
    ensures Answered(s.(handlesDropped := true))
  {
    var s' := s.(handlesDropped := true);
    forall u | u in s'.threads && s'.threads[u].FlushCall?
      ensures FlushWf(s', s'.threads[u].flush) && AnswerOk(s', s'.threads[u].flush)
    {
      assert AnswerOk(s, s.threads[u].flush);
    }
  }

  lemma StepAnswers(s: State, step: Step)
    requires Basis(s) && Answered(s) && Enabled(s, step)
    ensures Answered(Apply(s, step))
  {
    match step
    case BeginEmit(t) => BeginAnswers(s, t, EmitCall(EmitStart));
    case BeginFlush(t, closing) =>
      BeginAnswers(s, t, FlushCall(closing, EnqueuedCalls(s.threads), if closing then CloseStart else FlushStart));
    case EmitStep(t, spurious) => EmitAnswers(s, t, spurious);
    case FlushStep(t, expired) => FlushAnswers(s, t, expired);
    case WriterStep(ok) => WriterAnswers(s, ok);
    case DropHandles => DropAnswers(s);
  }

  lemma BasisOf(states: seq<State>, steps: seq<Step>, i: nat)
    requires IsRun(states, steps) && i < |states|
    ensures Basis(states[i])
  {
    AuditTheorems.RunsKeepInv(states, steps, i);
    HasBasis(states[i]);
  }

  lemma NextAnswers(states: seq<State>, steps: seq<Step>, i: nat)
    requires IsRun(states, steps) && 0 < i < |states| && Answered(states[i - 1])
    ensures Answered(states[i])
  {
    BasisOf(states, steps, i - 1);
    assert StepAt(states, steps, i - 1);
    StepAnswers(states[i - 1], steps[i - 1]);
  }

  lemma {:induction false} RunsKeepAnswers(states: seq<State>, steps: seq<Step>, i: nat)
    requires IsRun(states, steps) && i < |states|
    ensures Answered(states[i])
    decreases i
  {
    if i > 0 {
      RunsKeepAnswers(states, steps, i - 1);
      NextAnswers(states, steps, i);
    }
  }

  // ---------------------------------------------------------------- runs in which no sink call fails

  /** The step is a call into the sink that fails. */
  predicate SinkFails(s: State, step: Step) {
    step == WriterStep(false) && (s.writer.pc.WriterWriting? || s.writer.pc.WriterSinkFlushing?)
  }

  /** Up to state `i` every call into the sink worked. */
  predicate SinkWorked(states: seq<State>, steps: seq<Step>, i: nat)
    requires i < |states| == |steps| + 1
  {
    forall k :: 0 <= k < i ==> !SinkFails(states[k], steps[k])
  }

  /** The writer is not on its way from a failure. */
  predicate CleanWriter(w: Writer) {
    && !w.batchFailed
    && !(|| w.pc.WriterSkipping? || w.pc.WriterWriteFailed? || w.pc.WriterSickening? || w.pc.WriterFlushFailed?
         || w.pc.WriterFlushCounted? || w.pc.WriterFlushSickening?)
    && (w.pc.WriterSinkFlushing? ==> w.pc.wasHealthy)
    && (w.pc.WriterFinishing? || w.pc.WriterCompleting? ==> w.pc.succeeded)
  }

  /** No trace of a failed sink call. */
  predicate Clean(s: State) {
    && (s.config.HasSender() ==> s.c.sinkHealthy)
    && CleanWriter(s.writer)
    && forall b :: 0 <= b < |s.barriers| ==> s.barriers[b].outcome != Some(SinkFailed)
  }

  lemma FlushKeepsClean(s: State, t: Id, expired: bool)
    requires FlushCalls.FlushFrom(s, t, expired) && InvExit(s) && Clean(s)
    ensures Clean(FlushCalls.After(s, t, expired))
  {
    assert !InGone(s.threads[t]);
  }

  lemma EmitKeepsClean(s: State, t: Id, spurious: bool)
    requires Emit.EmitFrom(s, t) && InvExit(s) && Clean(s)
    ensures Clean(Emit.After(s, t, spurious))
  {
    assert !InGone(s.threads[t]);
  }

  lemma WriterKeepsClean(s: State, ok: bool)
    requires WriterThread.WriterFrom(s) && InvExit(s) && Clean(s) && !SinkFails(s, WriterStep(ok))
    ensures Clean(WriterThread.After(s, ok))
  {
  }

  lemma StepKeepsClean(s: State, step: Step)
    requires Wf(s) && InvExit(s) && Clean(s) && Enabled(s, step) && !SinkFails(s, step)
    ensures Clean(Apply(s, step))
  {
    match step
    case EmitStep(t, spurious) => EmitKeepsClean(s, t, spurious);
    case FlushStep(t, expired) => FlushKeepsClean(s, t, expired);
    case WriterStep(ok) => WriterKeepsClean(s, ok);
    case _ =>
  }

  lemma NextKeepsClean(states: seq<State>, steps: seq<Step>, i: nat)
    requires IsRun(states, steps) && 0 < i < |states| && Clean(states[i - 1]) && !SinkFails(states[i - 1], steps[i - 1])
    ensures Clean(states[i])
  {
    BasisOf(states, steps, i - 1);
    assert StepAt(states, steps, i - 1);
    StepKeepsClean(states[i - 1], steps[i - 1]);
  }

  lemma {:induction false} RunsKeepClean(states: seq<State>, steps: seq<Step>, i: nat)
    requires IsRun(states, steps) && i < |states| && SinkWorked(states, steps, i)
    ensures Clean(states[i])
    decreases i
  {
    if i > 0 {
      RunsKeepClean(states, steps, i - 1);
      NextKeepsClean(states, steps, i);
    }
  }

  predicate ReturnedWith(th: Thread, o: FlushOutcome) { th.FlushCall? && th.flush.FlushDone? && th.flush.result == o }

  /** Every returned call says what its barrier says, and without a failed sink call none says `SinkFailed`. */
  lemma AnswersAreOutcomes(states: seq<State>, steps: seq<Step>, i: nat, t: Id)
    requires IsRun(states, steps) && i < |states|
    requires t in states[i].threads && states[i].threads[t].FlushCall? && states[i].threads[t].flush.FlushDone?
    ensures var s, pc := states[i], states[i].threads[t].flush;
      match pc.via
      case Some(b) => b < |s.barriers| && s.barriers[b].outcome == Some(pc.result)
      case None =>
        || pc.result == TimedOut
        || (pc.result == Flushed && !s.config.enabled)
        || (pc.result == Closed && s.config.enabled && !s.config.writerStarted)
    ensures SinkWorked(states, steps, i) ==> states[i].threads[t].flush.result != SinkFailed
  {
    RunsKeepAnswers(states, steps, i);
    assert AnswerOk(states[i], states[i].threads[t].flush);
    if SinkWorked(states, steps, i) {
      RunsKeepClean(states, steps, i);
    }
  }

  /** Without a failed sink call no barrier reports one, and the sink stays available to every emit. */
  lemma NoFailureNoBlame(states: seq<State>, steps: seq<Step>, i: nat)
    requires IsRun(states, steps) && i < |states| && SinkWorked(states, steps, i)
    ensures var s := states[i];
      && (forall b :: 0 <= b < |s.barriers| ==> s.barriers[b].outcome != Some(SinkFailed))
      && (s.config.HasSender() ==> s.c.sinkHealthy)
  {
    RunsKeepClean(states, steps, i);
  }

  // ---------------------------------------------------------------- after a failed sink call

  /** The writer will write nothing more and complete no further barrier with `Flushed`. */
  predicate Broken(s: State) {
    var pc := s.writer.pc;
    || pc.WriterWriteFailed? || pc.WriterSickening? || pc.WriterFlushFailed? || pc.WriterFlushCounted? || pc.WriterFlushSickening?
    || (&& !s.c.sinkHealthy && !pc.WriterWriting?
        && (pc.WriterSinkFlushing? ==> !pc.wasHealthy) && (pc.WriterFinishing? || pc.WriterCompleting? ==> !pc.succeeded))
  }

  /** No new record, and no outcome is `Flushed` that was not before. */
  predicate NothingMore(s: State, s': State) {
    && s'.h.records == s.h.records && |s.barriers| <= |s'.barriers|
    && forall b :: 0 <= b < |s'.barriers| && s'.barriers[b].outcome == Some(Flushed) ==>
         b < |s.barriers| && s.barriers[b].outcome == Some(Flushed)
  }

  lemma EmitStaysBroken(s: State, t: Id, spurious: bool)
    requires Emit.EmitFrom(s, t) && Broken(s)
    ensures Broken(Emit.After(s, t, spurious)) && NothingMore(s, Emit.After(s, t, spurious))
  {
    Emit.Frame(s, t, spurious);
  }

  lemma FlushStaysBroken(s: State, t: Id, expired: bool)
    requires FlushCalls.FlushFrom(s, t, expired) && Broken(s)
    ensures Broken(FlushCalls.After(s, t, expired)) && NothingMore(s, FlushCalls.After(s, t, expired))
  {
    FlushCalls.Frame(s, t, expired);
  }

  lemma WriterStaysBroken(s: State, ok: bool)
    requires WriterThread.WriterFrom(s) && Broken(s)
    ensures Broken(WriterThread.After(s, ok)) && NothingMore(s, WriterThread.After(s, ok))
  {
  }

  lemma StepStaysBroken(s: State, step: Step)
    requires Wf(s) && Enabled(s, step) && Broken(s)
    ensures Broken(Apply(s, step)) && NothingMore(s, Apply(s, step))
  {
    match step
    case EmitStep(t, spurious) => EmitStaysBroken(s, t, spurious);
    case FlushStep(t, expired) => FlushStaysBroken(s, t, expired);
    case WriterStep(ok) => WriterStaysBroken(s, ok);
    case _ =>
  }

  lemma FailureBreaks(s: State, step: Step)
    requires Wf(s) && Enabled(s, step) && SinkFails(s, step)
    ensures Broken(Apply(s, step)) && NothingMore(s, Apply(s, step))
  {
  }

  lemma NextStaysBroken(states: seq<State>, steps: seq<Step>, i: nat)
    requires IsRun(states, steps) && 0 < i < |states| && (Broken(states[i - 1]) || SinkFails(states[i - 1], steps[i - 1]))
    ensures Broken(states[i]) && NothingMore(states[i - 1], states[i])
  {
    assert StepAt(states, steps, i - 1);
    if Broken(states[i - 1]) {
      StepStaysBroken(states[i - 1], steps[i - 1]);
    } else {
      FailureBreaks(states[i - 1], steps[i - 1]);
    }
  }

  /** After one failed sink call nothing is ever written again and no later barrier reports `Flushed`. */
  lemma {:induction false} FailStop(states: seq<State>, steps: seq<Step>, i: nat, j: nat)
    requires IsRun(states, steps) && i < j < |states| && SinkFails(states[i], steps[i])
    ensures Broken(states[j]) && NothingMore(states[i], states[j])
    decreases j
  {
    if i + 1 < j {
      FailStop(states, steps, i, j - 1);
    }
    NextStaysBroken(states, steps, j);
  }

  /** A failed batch leaves the sink unavailable by the time a flush is handled. */
  predicate BatchOk(s: State) {
    && (s.writer.batchFailed ==> !s.c.sinkHealthy || s.writer.pc.WriterWriteFailed? || s.writer.pc.WriterSickening?)
    && (s.writer.pc.WriterSinkFlushing? && s.writer.pc.wasHealthy ==> !s.writer.batchFailed)
  }

  lemma StepKeepsBatch(s: State, step: Step)
    requires Wf(s) && Enabled(s, step) && BatchOk(s)
    ensures BatchOk(Apply(s, step))
  {
    match step
    case EmitStep(t, spurious) => EmitKeepsBatch(s, t, spurious);
    case FlushStep(t, expired) => FlushCalls.Frame(s, t, expired); FlushOnlySickens(s, s.threads[t].flush);
    case _ =>
  }

  lemma EmitKeepsBatch(s: State, t: Id, spurious: bool)
    requires Emit.EmitFrom(s, t) && BatchOk(s)
    ensures BatchOk(Emit.After(s, t, spurious))
  {
    Emit.Frame(s, t, spurious);
  }

  lemma FlushOnlySickens(s: State, pc: FlushPc)
    ensures FlushCounters(s, pc).sinkHealthy ==> s.c.sinkHealthy
  {
  }

  /**
   So the writer's `batch_failed` never changes an outcome: in every state of every run in which a
   sink flush is under way that began with an available sink, it is not set.
   */
  lemma {:induction false} BatchFlagIsRedundant(states: seq<State>, steps: seq<Step>, i: nat)
    requires IsRun(states, steps) && i < |states|
    ensures BatchOk(states[i])
    ensures var w := states[i].writer; w.pc.WriterSinkFlushing? && w.pc.wasHealthy ==> !w.batchFailed
    decreases i
  {
    if i > 0 {
      BatchFlagIsRedundant(states, steps, i - 1);
      assert StepAt(states, steps, i - 1);
      StepKeepsBatch(states[i - 1], steps[i - 1]);
    }
  }

  // ---------------------------------------------------------------- calls that can no longer succeed

  /** The call leads this barrier and is timing it out. */
  predicate GivesUp(th: Thread, b: BarrierId) { th.FlushCall? && InFull(th) && BarrierOf(th.flush) == Some(b) }

  predicate GivenUp(s: State, b: BarrierId) {
    || (b < |s.barriers| && s.barriers[b].outcome == Some(TimedOut))
    || exists u :: u in s.threads && GivesUp(s.threads[u], b)
  }

  /** The flush call has returned something else, its deadline has passed, or its barrier is given up. */
  predicate Doomed(s: State, th: Thread) {
    th.FlushCall? &&
    match th.flush
    case FlushExpired => true
    case FlushDone(o, _, _) => o != Flushed
    case _ => BarrierOf(th.flush).Some? && GivenUp(s, BarrierOf(th.flush).value)
  }

  lemma StepLeavesGivenUp(s: State, step: Step, b: BarrierId)
    requires Wf(s) && Enabled(s, step) && LeadersOk(s) && GivenUp(s, b)
    ensures GivenUp(Apply(s, step), b)
  {
    var s' := Apply(s, step);
    if !(b < |s.barriers| && s.barriers[b].outcome == Some(TimedOut)) {
      var u :| u in s.threads && GivesUp(s.threads[u], b);
      assert LeaderOk(s, b);
      if step.FlushStep? && step.id == u && s.threads[u].flush.FullComplete? {
        assert s'.barriers[b].outcome == Some(TimedOut);
      } else {
        assert u in s'.threads && GivesUp(s'.threads[u], b);
      }
    }
  }

  /** A step of another call leaves this one where it is. */
  lemma StepOfOther(s: State, step: Step, t: Id)
    requires Wf(s) && Enabled(s, step) && t in s.threads && !(step.FlushStep? && step.id == t) && s.threads[t].FlushCall?
    ensures t in Apply(s, step).threads && Apply(s, step).threads[t] == s.threads[t]
  {
  }

  lemma GivenUpOutcome(s: State, b: BarrierId)
    requires LeadersOk(s) && GivenUp(s, b) && b < |s.barriers|
    ensures s.barriers[b].outcome == None || s.barriers[b].outcome == Some(TimedOut)
  {
    if s.barriers[b].outcome != Some(TimedOut) {
      var u :| u in s.threads && GivesUp(s.threads[u], b);
      assert LeaderOk(s, b);
    }
  }

  lemma DoomedGoesNowhere(s: State, th: Thread, expired: bool)
    requires th.FlushCall? && FlushWf(s, th.flush) && CurrentWf(s) && !InGone(th) && Doomed(s, th) && !th.flush.FlushDone?
    requires BarrierOf(th.flush).Some? ==>
      var o := s.barriers[BarrierOf(th.flush).value].outcome; o == None || o == Some(TimedOut)
    ensures var pc' := FlushNext(s, th.flush, expired);
      || pc'.FlushExpired? || (pc'.FlushDone? && pc'.result != Flushed)
      || (!pc'.FlushDone? && BarrierOf(pc').Some? && BarrierOf(pc') == BarrierOf(th.flush))
  {
  }

  lemma CallerStaysDoomed(s: State, t: Id, expired: bool)
    requires FlushCalls.FlushFrom(s, t, expired) && InvExit(s) && LeadersOk(s) && Doomed(s, s.threads[t])
    ensures var s' := FlushCalls.After(s, t, expired); t in s'.threads && Doomed(s', s'.threads[t])
  {
    var pc := s.threads[t].flush;
    assert !InGone(s.threads[t]);
    if BarrierOf(pc).Some? {
      GivenUpOutcome(s, BarrierOf(pc).value);
      StepLeavesGivenUp(s, FlushStep(t, expired), BarrierOf(pc).value);
    }
    DoomedGoesNowhere(s, s.threads[t], expired);
  }

  /** No step, of whatever kind, saves a doomed call. */
  lemma StaysDoomed(s: State, step: Step, t: Id)
    requires Basis(s) && Enabled(s, step) && t in s.threads && Doomed(s, s.threads[t])
    ensures t in Apply(s, step).threads && Doomed(Apply(s, step), Apply(s, step).threads[t])
  {
    if step.FlushStep? && step.id == t {
      CallerStaysDoomed(s, t, step.expired);
    } else {
      StepOfOther(s, step, t);
      var pc := s.threads[t].flush;
      if BarrierOf(pc).Some? && !pc.FlushDone? {
        StepLeavesGivenUp(s, step, BarrierOf(pc).value);
      }
    }
  }

  // ---------------------------------------------------------------- steps on which nothing goes wrong

  /** How far a flush call is from its answer, when it leads a barrier of its own. */
  function Rank(th: Thread): nat {
    if th.EmitCall? then 0 else
    match th.flush
    case CloseStart => 15 case CloseMarked => 14 case CloseDraining => 13 case CloseReady => 12
    case FlushStart => 11 case FlushAwaitOlder(_, _) => 10 case FlushLoop(_) => 9
    case FlushLocked(_) => 8 case FlushCreating(_) => 7 case FlushPublishing(_, _) => 6
    case FlushChosen(_, _, leader) => if leader then 5 else 11
    case FlushSending(_, _) => 4 case FlushAwait(_, _) => 3
    case _ => 0
  }

  predicate Fine(s: State) { Answered(s) && Clean(s) }

  /** No call that could still succeed is lost or set back. */
  predicate Onward(s: State, s': State) {
    forall t :: t in s.threads && s.threads[t].FlushCall? && !Doomed(s, s.threads[t]) ==>
      t in s'.threads && s'.threads[t].FlushCall? && !Doomed(s', s'.threads[t]) && Rank(s'.threads[t]) <= Rank(s.threads[t])
  }

  predicate Good(s: State, s': State) { Fine(s) ==> Fine(s') && Onward(s, s') }

  lemma GoodTogether(s: State, mid: State, s': State)
    requires Good(s, mid) && Good(mid, s')
    ensures Good(s, s')
  {
  }

  lemma WriterIsGood(s: State)
    requires WriterThread.WriterFrom(s) && Basis(s)
    ensures Good(s, WriterThread.After(s, true))
  {
    if Fine(s) {
      var s' := WriterThread.After(s, true);
      WriterAnswers(s, true);
      WriterKeepsClean(s, true);
      WriterGivesUpNothing(s);
    }
  }

  lemma WriterGivesUpNothing(s: State)
    requires WriterThread.WriterFrom(s)
    ensures WriterThread.After(s, true).threads == s.threads
    ensures forall b :: GivenUp(WriterThread.After(s, true), b) ==> GivenUp(s, b)
  {
  }

  lemma EmitIsGood(s: State, t: Id)
    requires Emit.EmitFrom(s, t) && Basis(s)
    ensures Good(s, Emit.After(s, t, false))
  {
    if Fine(s) {
      var s' := Emit.After(s, t, false);
      Emit.Frame(s, t, false);
      EmitAnswers(s, t, false);
      EmitKeepsClean(s, t, false);
      forall b: BarrierId | GivenUp(s', b) ensures GivenUp(s, b) {
        if !(b < |s'.barriers| && s'.barriers[b].outcome == Some(TimedOut)) {
          var u :| u in s'.threads && GivesUp(s'.threads[u], b);
          assert u in s.threads && GivesUp(s.threads[u], b);
        }
      }
    }
  }

  lemma FlushGivesUpNothing(s: State, t: Id, b: BarrierId)
    requires FlushCalls.FlushFrom(s, t, false) && GivenUp(FlushCalls.After(s, t, false), b)
    ensures GivenUp(s, b)
  {
    var s' := FlushCalls.After(s, t, false);
    FlushCalls.Frame(s, t, false);
    if b < |s'.barriers| && s'.barriers[b].outcome == Some(TimedOut) {
      if !(b < |s.barriers| && s.barriers[b].outcome == Some(TimedOut)) {
        assert GivesUp(s.threads[t], b);
      }
    } else {
      var u :| u in s'.threads && GivesUp(s'.threads[u], b);
      assert u in s.threads && GivesUp(s.threads[u], b);
    }
  }

  /** The call does not lead, and if it drains the emitters there are none left. */
  predicate MayAdvance(s: State, th: Thread) {
    && th.FlushCall? && !th.flush.FlushDone? && Leads(th) == None
    && (th.flush.CloseDraining? ==> Active(s.c.admission) == 0)
  }

  /** Where a call goes whose barrier, if it has one, is not given up. */
  lemma CallerGoesOn(s: State, th: Thread)
    requires th.FlushCall? && FlushWf(s, th.flush) && CurrentWf(s) && CoverOk(s, th) && s.config.HasSender()
    requires !FlushBlocked(s, th.flush, false) && !InGone(th) && !InFull(th) && !Doomed(s, th)
    requires NeverClosed(s) && Clean(s) && (th.flush.FlushLocked? ==> !CanJoin(s))
    ensures var pc' := FlushNext(s, th.flush, false);
      && !pc'.FlushExpired? && (pc'.FlushDone? ==> pc'.result == Flushed)
      && Rank(th.(flush := pc')) <= Rank(th)
      && (MayAdvance(s, th) ==> Rank(th.(flush := pc')) < Rank(th))
      && (BarrierOf(pc').Some? ==> BarrierOf(pc') == BarrierOf(th.flush) || BarrierOf(pc').value == |s.barriers|)
  {
  }

  lemma FreshIsNotGivenUp(s: State)
    requires Wf(s)
    ensures !GivenUp(s, |s.barriers|)
  {
  }

  lemma CallerIsNotLost(s: State, t: Id)
    requires FlushCalls.FlushFrom(s, t, false) && Basis(s) && s.config.HasSender() && Fine(s) && !Doomed(s, s.threads[t])
    requires s.threads[t].flush.FlushLocked? ==> !CanJoin(s)
    ensures var s' := FlushCalls.After(s, t, false);
      && t in s'.threads && !Doomed(s', s'.threads[t]) && Rank(s'.threads[t]) <= Rank(s.threads[t])
      && (MayAdvance(s, s.threads[t]) ==> Rank(s'.threads[t]) < Rank(s.threads[t]))
  {
    var s' := FlushCalls.After(s, t, false);
    assert !InGone(s.threads[t]) && CoverOk(s, s.threads[t]);
    assert !InFull(s.threads[t]) by {
      assert InFull(s.threads[t]) ==> GivesUp(s.threads[t], BarrierOf(s.threads[t].flush).value);
    }
    CallerGoesOn(s, s.threads[t]);
    FreshIsNotGivenUp(s);
    var pc' := s'.threads[t].flush;
    if BarrierOf(pc').Some? && GivenUp(s', BarrierOf(pc').value) {
      FlushGivesUpNothing(s, t, BarrierOf(pc').value);
    }
  }

  lemma FlushIsGood(s: State, t: Id)
    requires FlushCalls.FlushFrom(s, t, false) && Basis(s) && s.config.HasSender()
    requires s.threads[t].flush.FlushLocked? ==> !CanJoin(s)
    ensures Good(s, FlushCalls.After(s, t, false))
  {
    if Fine(s) {
      var s' := FlushCalls.After(s, t, false);
      FlushCalls.Frame(s, t, false);
      FlushAnswers(s, t, false);
      FlushKeepsClean(s, t, false);
      forall u | u in s.threads && s.threads[u].FlushCall? && !Doomed(s, s.threads[u])
        ensures u in s'.threads && s'.threads[u].FlushCall? && !Doomed(s', s'.threads[u]) && Rank(s'.threads[u]) <= Rank(s.threads[u])
      {
        if u == t {
          CallerIsNotLost(s, t);
        } else {
          var pc := s.threads[u].flush;
          if BarrierOf(pc).Some? && GivenUp(s', BarrierOf(pc).value) {
            FlushGivesUpNothing(s, t, BarrierOf(pc).value);
          }
        }
      }
    }
  }
}
