/** Every counter of the dispatcher is the number of calls, or of events, it is named after. */
module AuditTally {
  import opened Wrappers
  import opened AuditModel
  import Sizes = AuditInvariants
  import AuditTheorems
  import AuditAnswers

  /** The call has been counted under outcome `o`. */
  predicate CountedAs(o: EmitOutcome, th: Thread) {
    th.EmitCall? &&
    (|| th.emit == EmitLeaving(o) || th.emit == EmitDone(o)
     || (o.DroppedClosed? && (th.emit.GoneClosed? || th.emit.GoneAdmission? || th.emit.GoneHealth?)))
  }

  predicate Attempted(th: Thread) { th.EmitCall? && !th.emit.EmitStart? }

  function Tally(threads: map<Id, Thread>, o: EmitOutcome): set<Id> {
    set t | t in threads && CountedAs(o, threads[t])
  }

  function Attempts(threads: map<Id, Thread>): set<Id> { set t | t in threads && Attempted(threads[t]) }

  /** The counter behind an outcome; the writer adds its own skips to one of them. */
  function CounterOf(s: State, o: EmitOutcome): int {
    match o
    case Enqueued => s.c.eventEpoch
    case DroppedDisabled => s.c.droppedDisabled
    case DroppedFull => s.c.droppedFull
    case DroppedClosed => s.c.droppedClosed
    case DroppedSinkUnavailable => s.c.droppedSinkUnavailable - s.h.skipped
  }

  predicate InvTally(s: State) {
    && (forall o :: CounterOf(s, o) == |Tally(s.threads, o)|)
    && s.c.attempted == |Attempts(s.threads)|
  }

  /** Events taken off the channel that are neither written, failed nor skipped yet. */
  predicate Undecided(pc: WriterPc) {
    pc.WriterReceived? || pc.WriterCounted? || pc.WriterSkipping? || pc.WriterWriting? || pc.WriterWriteFailed?
  }

  predicate InvFate(s: State) {
    s.h.consumed + s.c.flushFailures + One(s.writer.pc.WriterFlushCounted?) ==
    |s.h.records| + s.c.sinkFailures + s.h.skipped + One(Undecided(s.writer.pc))
  }

  lemma TallyAfter(m: map<Id, Thread>, t: Id, th: Thread, o: EmitOutcome)
    ensures |Tally(m[t := th], o)| + One(t in m && CountedAs(o, m[t])) == |Tally(m, o)| + One(CountedAs(o, th))
  {
    Sizes.SizeAfter(Tally(m, o), Tally(m[t := th], o), t);
  }

  lemma AttemptsAfter(m: map<Id, Thread>, t: Id, th: Thread)
    ensures |Attempts(m[t := th])| + One(t in m && Attempted(m[t])) == |Attempts(m)| + One(Attempted(th))
  {
    Sizes.SizeAfter(Attempts(m), Attempts(m[t := th]), t);
  }

  lemma EmitMoves(s: State, t: Id, spurious: bool, o: EmitOutcome)
    requires t in s.threads && s.threads[t].EmitCall? && !Returned(s.threads[t])
    ensures var s' := DoEmit(s, t, s.threads[t].emit, spurious);
      && CounterOf(s', o) + One(CountedAs(o, s.threads[t])) == CounterOf(s, o) + One(CountedAs(o, s'.threads[t]))
      && s'.c.attempted + One(Attempted(s.threads[t])) == s.c.attempted + One(Attempted(s'.threads[t]))
  {
  }

  lemma EmitKeepsTally(s: State, t: Id, spurious: bool)
    requires t in s.threads && s.threads[t].EmitCall? && !Returned(s.threads[t])
    requires InvTally(s)
    ensures InvTally(DoEmit(s, t, s.threads[t].emit, spurious))
  {
    var s' := DoEmit(s, t, s.threads[t].emit, spurious);
    forall o ensures CounterOf(s', o) == |Tally(s'.threads, o)| {
      EmitMoves(s, t, spurious, o);
      TallyAfter(s.threads, t, s'.threads[t], o);
    }
    EmitMoves(s, t, spurious, Enqueued);
    AttemptsAfter(s.threads, t, s'.threads[t]);
  }

  /** Steps that leave the emit calls and their counters alone. */
  lemma OthersKeepTally(s: State, s': State, t: Id, th: Thread)
    requires InvTally(s) && s'.threads == s.threads[t := th]
    requires t in s.threads ==> s.threads[t].FlushCall?
    requires th.FlushCall? || th.emit.EmitStart?
    requires s'.c.attempted == s.c.attempted && forall o :: CounterOf(s', o) == CounterOf(s, o)
    ensures InvTally(s')
  {
    forall o ensures CounterOf(s', o) == |Tally(s'.threads, o)| {
      TallyAfter(s.threads, t, th, o);
    }
    AttemptsAfter(s.threads, t, th);
  }

  lemma FlushKeepsTally(s: State, t: Id, expired: bool)
    requires Wf(s) && Enabled(s, FlushStep(t, expired)) && InvTally(s) && InvFate(s)
    ensures InvTally(Apply(s, FlushStep(t, expired))) && InvFate(Apply(s, FlushStep(t, expired)))
  {
    var s' := Apply(s, FlushStep(t, expired));
    AuditTheorems.FlushCalls.Frame(s, t, expired);
    OthersKeepTally(s, s', t, s'.threads[t]);
  }

  lemma WriterKeepsTally(s: State, ok: bool)
    requires Wf(s) && !WriterBlocked(s) && InvTally(s)
    ensures InvTally(DoWriter(s, ok))
  {
    var s' := DoWriter(s, ok);
    assert s'.threads == s.threads;
    forall o ensures CounterOf(s', o) == CounterOf(s, o) { WriterMoves(s, ok, o); }
  }

  lemma WriterMoves(s: State, ok: bool, o: EmitOutcome)
    requires WriterWf(s)
    ensures CounterOf(DoWriter(s, ok), o) == CounterOf(s, o)
  {
  }

  lemma WriterKeepsFate(s: State, ok: bool)
    requires WriterWf(s) && InvFate(s)
    ensures InvFate(DoWriter(s, ok))
  {
  }

  lemma StepKeepsTally(s: State, step: Step)
    requires Wf(s) && Enabled(s, step) && InvTally(s) && InvFate(s)
    ensures InvTally(Apply(s, step)) && InvFate(Apply(s, step))
  {
    match step
    case BeginEmit(t) => OthersKeepTally(s, Apply(s, step), t, EmitCall(EmitStart));
    case BeginFlush(t, _) => OthersKeepTally(s, Apply(s, step), t, Apply(s, step).threads[t]);
    case EmitStep(t, spurious) => EmitKeepsTally(s, t, spurious); AuditTheorems.Emit.LeavesWriterCounters(s, t, spurious);
    case FlushStep(t, expired) => FlushKeepsTally(s, t, expired);
    case WriterStep(ok) => WriterKeepsTally(s, ok); WriterKeepsFate(s, ok);
    case DropHandles =>
      var s' := Apply(s, step);
      assert forall o :: CounterOf(s', o) == CounterOf(s, o);
  }

  lemma {:induction false} RunsKeepTally(states: seq<State>, steps: seq<Step>, i: nat)
    requires IsRun(states, steps) && i < |states|
    ensures InvTally(states[i]) && InvFate(states[i])
    decreases i
  {
    if i == 0 {
      var s := states[0];
      assert forall o :: Tally(s.threads, o) == {};
      assert Attempts(s.threads) == {};
    } else {
      RunsKeepTally(states, steps, i - 1);
      assert StepAt(states, steps, i - 1);
      StepKeepsTally(states[i - 1], steps[i - 1]);
    }
  }

  function Calls(s: State, o: EmitOutcome): set<Id> { set t | t in s.threads && s.threads[t] == EmitCall(EmitDone(o)) }

  /**
   At quiescence each counter is the number of emit calls that returned the outcome it is named
   after, and every event taken off the channel was written, failed, or was skipped by the writer.
   */
  lemma CountersMatchOutcomes(states: seq<State>, steps: seq<Step>, i: nat)
    requires IsRun(states, steps) && i < |states| && AuditTheorems.Quiescent(states[i])
    ensures var s := states[i]; var c := s.c;
      && c.enqueued == |Calls(s, Enqueued)|
      && c.droppedDisabled == |Calls(s, DroppedDisabled)|
      && c.droppedFull == |Calls(s, DroppedFull)|
      && c.droppedClosed == |Calls(s, DroppedClosed)|
      && c.droppedSinkUnavailable == |Calls(s, DroppedSinkUnavailable)| + s.h.skipped
      && c.enqueued == c.written + (c.sinkFailures - c.flushFailures) + s.h.skipped + c.queueDepth
  {
    var s := states[i];
    RunsKeepTally(states, steps, i);
    AuditTheorems.Conservation(states, steps, i);
    AuditTheorems.RunsKeepInv(states, steps, i);
    QuiescentTallies(s);
    assert Sizes.InvQueue(s) && |Sizes.EventsOf(s.queue)| == |s.h.sent| - s.h.consumed;
  }

  lemma QuiescentTallies(s: State)
    requires AuditTheorems.Quiescent(s) && InvTally(s)
    ensures CounterOf(s, Enqueued) == |Calls(s, Enqueued)| && s.c.droppedDisabled == |Calls(s, DroppedDisabled)|
    ensures s.c.droppedFull == |Calls(s, DroppedFull)| && s.c.droppedClosed == |Calls(s, DroppedClosed)|
    ensures s.c.droppedSinkUnavailable == |Calls(s, DroppedSinkUnavailable)| + s.h.skipped
  {
    QuiescentTally(s, Enqueued);
    QuiescentTally(s, DroppedDisabled);
    QuiescentTally(s, DroppedFull);
    QuiescentTally(s, DroppedClosed);
    QuiescentTally(s, DroppedSinkUnavailable);
  }

  lemma QuiescentTally(s: State, o: EmitOutcome)
    requires AuditTheorems.Quiescent(s) && InvTally(s)
    ensures CounterOf(s, o) == |Calls(s, o)|
  {
    assert Tally(s.threads, o) == Calls(s, o);
  }

  // ---------------------------------------------------------------- flush calls and the sink

  /** The call has timed out and been counted. */
  predicate TimedOutCall(th: Thread) {
    th.FlushCall? && (th.flush.FullComplete? || (th.flush.FlushDone? && th.flush.result.TimedOut?))
  }

  function Timeouts(threads: map<Id, Thread>): set<Id> { set t | t in threads && TimedOutCall(threads[t]) }

  predicate InvTimeouts(s: State) { s.c.flushTimeouts == |Timeouts(s.threads)| }

  lemma TimeoutsAfter(m: map<Id, Thread>, t: Id, th: Thread)
    ensures |Timeouts(m[t := th])| + One(t in m && TimedOutCall(m[t])) == |Timeouts(m)| + One(TimedOutCall(th))
  {
    Sizes.SizeAfter(Timeouts(m), Timeouts(m[t := th]), t);
  }

  lemma FlushMovesTimeouts(s: State, th: Thread, expired: bool)
    requires th.FlushCall? && FlushWf(s, th.flush) && CurrentWf(s) && !FlushBlocked(s, th.flush, expired)
    ensures FlushCounters(s, th.flush).flushTimeouts + One(TimedOutCall(th)) ==
      s.c.flushTimeouts + One(TimedOutCall(th.(flush := FlushNext(s, th.flush, expired))))
  {
  }

  lemma OthersKeepTimeouts(s: State, s': State, t: Id, th: Thread)
    requires InvTimeouts(s) && s'.threads == s.threads[t := th] && s'.c.flushTimeouts == s.c.flushTimeouts
    requires !TimedOutCall(th) && (t in s.threads ==> !TimedOutCall(s.threads[t]))
    ensures InvTimeouts(s')
  {
    TimeoutsAfter(s.threads, t, th);
  }

  lemma FlushKeepsTimeouts(s: State, t: Id, expired: bool)
    requires Wf(s) && Enabled(s, FlushStep(t, expired)) && InvTimeouts(s)
    ensures InvTimeouts(Apply(s, FlushStep(t, expired)))
  {
    FlushMovesTimeouts(s, s.threads[t], expired);
    TimeoutsAfter(s.threads, t, Apply(s, FlushStep(t, expired)).threads[t]);
  }

  lemma EmitKeepsTimeouts(s: State, t: Id, spurious: bool)
    requires Enabled(s, EmitStep(t, spurious)) && InvTimeouts(s)
    ensures InvTimeouts(DoEmit(s, t, s.threads[t].emit, spurious))
  {
    OthersKeepTimeouts(s, DoEmit(s, t, s.threads[t].emit, spurious), t, EmitCall(EmitNext(s, s.threads[t].emit, spurious)));
  }

  lemma StepKeepsTimeouts(s: State, step: Step)
    requires Wf(s) && Enabled(s, step) && InvTimeouts(s)
    ensures InvTimeouts(Apply(s, step))
  {
    var s' := Apply(s, step);
    match step
    case BeginEmit(t) => OthersKeepTimeouts(s, s', t, s'.threads[t]);
    case BeginFlush(t, _) => OthersKeepTimeouts(s, s', t, s'.threads[t]);
    case EmitStep(t, spurious) => EmitKeepsTimeouts(s, t, spurious);
    case FlushStep(t, expired) => FlushKeepsTimeouts(s, t, expired);
    case _ =>
  }

  /** In every state the timeout counter is the number of flush and close calls that timed out. */
  lemma {:induction false} TimeoutsAreCounted(states: seq<State>, steps: seq<Step>, i: nat)
    requires IsRun(states, steps) && i < |states|
    ensures states[i].c.flushTimeouts == |Timeouts(states[i].threads)|
    decreases i
  {
    if i == 0 {
      assert Timeouts(states[0].threads) == {};
    } else {
      TimeoutsAreCounted(states, steps, i - 1);
      assert StepAt(states, steps, i - 1);
      StepKeepsTimeouts(states[i - 1], steps[i - 1]);
    }
  }

  /** Failed sink calls, and failed sink flushes, among the first `i` steps. */
  function Failures(states: seq<State>, steps: seq<Step>, i: nat): nat
    requires i < |states| == |steps| + 1
  {
    if i == 0 then 0
    else Failures(states, steps, i - 1) + One(AuditAnswers.SinkFails(states[i - 1], steps[i - 1]))
  }

  function FlushFailures(states: seq<State>, steps: seq<Step>, i: nat): nat
    requires i < |states| == |steps| + 1
  {
    if i == 0 then 0
    else FlushFailures(states, steps, i - 1)
         + One(AuditAnswers.SinkFails(states[i - 1], steps[i - 1]) && states[i - 1].writer.pc.WriterSinkFlushing?)
  }

  /** Failures the writer has met and not yet counted. */
  function Uncounted(pc: WriterPc): nat { One(pc.WriterWriteFailed? || pc.WriterFlushFailed?) }
  function UncountedFlushes(pc: WriterPc): nat { One(pc.WriterFlushFailed? || pc.WriterFlushCounted?) }

  lemma WriterCountsFailures(s: State, ok: bool)
    ensures WriterCounters(s).sinkFailures + Uncounted(WriterNext(s, ok)) ==
      s.c.sinkFailures + Uncounted(s.writer.pc) + One(AuditAnswers.SinkFails(s, WriterStep(ok)))
  {
  }

  lemma WriterCountsFlushFailures(s: State, ok: bool)
    ensures WriterCounters(s).flushFailures + UncountedFlushes(WriterNext(s, ok)) ==
      s.c.flushFailures + UncountedFlushes(s.writer.pc)
      + One(AuditAnswers.SinkFails(s, WriterStep(ok)) && s.writer.pc.WriterSinkFlushing?)
  {
  }

  lemma StepCountsFailures(s: State, step: Step)
    requires Wf(s) && Enabled(s, step)
    ensures var s', failed := Apply(s, step), AuditAnswers.SinkFails(s, step);
      && s'.c.sinkFailures + Uncounted(s'.writer.pc) == s.c.sinkFailures + Uncounted(s.writer.pc) + One(failed)
      && s'.c.flushFailures + UncountedFlushes(s'.writer.pc) ==
         s.c.flushFailures + UncountedFlushes(s.writer.pc) + One(failed && s.writer.pc.WriterSinkFlushing?)
  {
    match step
    case EmitStep(t, spurious) => AuditTheorems.Emit.LeavesWriterCounters(s, t, spurious); AuditTheorems.Emit.Frame(s, t, spurious);
    case FlushStep(t, expired) => AuditTheorems.FlushCalls.Frame(s, t, expired);
    case WriterStep(ok) => WriterCountsFailures(s, ok); WriterCountsFlushFailures(s, ok);
    case _ =>
  }

  /** In every state the failure counters are the numbers of sink calls, and of sink flushes, that failed. */
  lemma {:induction false} FailuresAreCounted(states: seq<State>, steps: seq<Step>, i: nat)
    requires IsRun(states, steps) && i < |states|
    ensures var s := states[i];
      && s.c.sinkFailures + Uncounted(s.writer.pc) == Failures(states, steps, i)
      && s.c.flushFailures + UncountedFlushes(s.writer.pc) == FlushFailures(states, steps, i)
    decreases i
  {
    if i > 0 {
      FailuresAreCounted(states, steps, i - 1);
      assert StepAt(states, steps, i - 1);
      StepCountsFailures(states[i - 1], steps[i - 1]);
    }
  }

  // ---------------------------------------------------------------- the closed flag

  /** A close call that has marked the dispatcher closed. */
  predicate HasClosed(th: Thread) {
    th.FlushCall? && th.closing && !th.flush.CloseStart? && !th.flush.CloseMarked?
  }

  /** Who closed: nobody could start the writer, a close call went through, or the writer ended. */
  predicate ClosedBySomeone(s: State) {
    && s.config.enabled
    && (!s.config.writerStarted || s.writer.pc.WriterExited? || exists t :: t in s.threads && HasClosed(s.threads[t]))
  }

  /** Only a close call is about to mark, and only where there is something to close. */
  predicate MarksRightly(config: Config, th: Thread) {
    && (th.FlushCall? && (th.flush.CloseStart? || th.flush.CloseMarked?) ==> th.closing)
    && (th.FlushCall? && th.flush.CloseMarked? ==> config.enabled)
  }

  predicate InvClosed(s: State) {
    && (s.c.closed <==> ClosedBySomeone(s))
    && forall t :: t in s.threads ==> MarksRightly(s.config, s.threads[t])
  }

  lemma CallKeepsClosed(s: State, s': State, t: Id, th: Thread)
    requires InvClosed(s) && s'.threads == s.threads[t := th] && s'.config == s.config && s'.writer == s.writer
    requires MarksRightly(s.config, th)
    requires s'.c.closed <==> s.c.closed || (s.config.enabled && HasClosed(th))
    requires t in s.threads && HasClosed(s.threads[t]) ==> HasClosed(th)
    ensures InvClosed(s')
  {
    if u :| u in s.threads && HasClosed(s.threads[u]) {
      assert u in s'.threads && HasClosed(s'.threads[u]);
    }
    if HasClosed(th) {
      assert t in s'.threads && HasClosed(s'.threads[t]);
    }
  }

  lemma FlushMovesClosed(s: State, th: Thread, expired: bool)
    requires th.FlushCall? && FlushWf(s, th.flush) && CurrentWf(s) && !FlushBlocked(s, th.flush, expired) && !Sizes.InGone(th)
    requires MarksRightly(s.config, th) && (s.config.enabled && HasClosed(th) ==> s.c.closed)
    ensures var th' := th.(flush := FlushNext(s, th.flush, expired));
      && MarksRightly(s.config, th')
      && (FlushCounters(s, th.flush).closed <==> s.c.closed || (s.config.enabled && HasClosed(th')))
      && (HasClosed(th) ==> HasClosed(th'))
  {
  }

  lemma FlushKeepsClosed(s: State, t: Id, expired: bool)
    requires Wf(s) && Enabled(s, FlushStep(t, expired)) && InvClosed(s) && Sizes.InvExit(s)
    ensures InvClosed(Apply(s, FlushStep(t, expired)))
  {
    var s' := Apply(s, FlushStep(t, expired));
    FlushMovesClosed(s, s.threads[t], expired);
    AuditTheorems.FlushCalls.Frame(s, t, expired);
    CallKeepsClosed(s, s', t, s'.threads[t]);
  }

  lemma EmitKeepsClosed(s: State, t: Id, spurious: bool)
    requires Wf(s) && Enabled(s, EmitStep(t, spurious)) && InvClosed(s) && Sizes.InvExit(s)
    ensures InvClosed(Apply(s, EmitStep(t, spurious)))
  {
    var s' := Apply(s, EmitStep(t, spurious));
    assert !Sizes.InGone(s.threads[t]);
    AuditTheorems.Emit.Frame(s, t, spurious);
    CallKeepsClosed(s, s', t, s'.threads[t]);
  }

  lemma WriterKeepsClosed(s: State, ok: bool)
    requires Wf(s) && !WriterBlocked(s) && InvClosed(s) && Sizes.InvExit(s)
    ensures InvClosed(DoWriter(s, ok))
  {
    var s' := DoWriter(s, ok);
    assert s.config.HasSender();
    assert s'.threads == s.threads && s'.config == s.config;
  }

  lemma StepKeepsClosed(s: State, step: Step)
    requires Wf(s) && Enabled(s, step) && InvClosed(s) && Sizes.InvExit(s)
    ensures InvClosed(Apply(s, step))
  {
    match step
    case BeginEmit(t) => CallKeepsClosed(s, Apply(s, step), t, EmitCall(EmitStart));
    case BeginFlush(t, _) => CallKeepsClosed(s, Apply(s, step), t, Apply(s, step).threads[t]);
    case EmitStep(t, spurious) => EmitKeepsClosed(s, t, spurious);
    case FlushStep(t, expired) => FlushKeepsClosed(s, t, expired);
    case WriterStep(ok) => WriterKeepsClosed(s, ok);
    case DropHandles => assert Apply(s, step).threads == s.threads;
  }

  /** In every state the closed flag is up exactly if the writer could not be started, a close call has raised it, or the writer ended. */
  lemma {:induction false} ClosedFlagMeans(states: seq<State>, steps: seq<Step>, i: nat)
    requires IsRun(states, steps) && i < |states|
    ensures InvClosed(states[i]) && (states[i].c.closed <==> ClosedBySomeone(states[i]))
    decreases i
  {
    if i > 0 {
      ClosedFlagMeans(states, steps, i - 1);
      AuditAnswers.BasisOf(states, steps, i - 1);
      assert StepAt(states, steps, i - 1);
      StepKeepsClosed(states[i - 1], steps[i - 1]);
    }
  }
}
