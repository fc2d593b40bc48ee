/** What every run of the audit dispatcher guarantees. */
module AuditTheorems {
  import opened Wrappers
  import opened AuditModel
  import opened AuditInvariants
  import Emit = AuditEmitSteps
  import FlushCalls = AuditFlushSteps
  import WriterThread = AuditWriterSteps

  lemma InitIsInv(s: State)
    requires Init(s)
    ensures Inv(s)
  {
    assert forall k :: Members(s.threads, k) == {};
  }

  lemma StepKeepsInv(s: State, step: Step)
    requires Inv(s) && Enabled(s, step)
    ensures Inv(Apply(s, step))
  {
    match step
    case BeginEmit(t) => WriterThread.BeginKeepsInv(s, t, EmitCall(EmitStart));
    case BeginFlush(t, closing) =>
      WriterThread.BeginKeepsInv(s, t, FlushCall(closing, EnqueuedCalls(s.threads),
                                                 if closing then CloseStart else FlushStart));
    case EmitStep(t, spurious) => Emit.EmitKeepsInv(s, t, spurious);
    case FlushStep(t, expired) => FlushCalls.FlushKeepsInv(s, t, expired);
    case WriterStep(ok) => WriterThread.WriterKeepsInv(s, ok);
    case DropHandles => WriterThread.DropKeepsInv(s);
  }

  lemma NextKeepsInv(states: seq<State>, steps: seq<Step>, i: nat)
    requires IsRun(states, steps) && 0 < i < |states| && Inv(states[i - 1])
    ensures Inv(states[i])
  {
    assert StepAt(states, steps, i - 1);
    StepKeepsInv(states[i - 1], steps[i - 1]);
  }

  /** The invariant holds in every state of every run; in particular every step is defined. */
  lemma {:induction false} RunsKeepInv(states: seq<State>, steps: seq<Step>, i: nat)
    requires IsRun(states, steps) && i < |states|
    ensures Inv(states[i])
    decreases i
  {
    if i == 0 {
      InitIsInv(states[0]);
    } else {
      RunsKeepInv(states, steps, i - 1);
      NextKeepsInv(states, steps, i);
    }
  }

  // ---------------------------------------------------------------- one state

  /** The event is in the sink, and the sink was flushed after it was written. */
  predicate Durable(s: State, e: Id) {
    exists i :: 0 <= i < s.h.flushedUpTo && i < |s.h.records| && s.h.records[i] == Record(i + 1, e)
  }

  /** A barrier that reports `Flushed` made every event below its epoch durable. */
  lemma FlushedBarrierCovers(s: State, b: BarrierId, e: Id)
    requires Inv(s) && b < |s.barriers| && s.barriers[b].outcome == Some(Flushed)
    requires e in s.h.bumped[..s.barriers[b].epoch]
    ensures Durable(s, e)
  {
    assert BarrierOk(s, s.barriers[b]);
    var n := s.barriers[b].sentAt.value;
    assert e in s.h.sent[..n];
    var i :| 0 <= i < n && s.h.sent[..n][i] == e;
    assert s.h.records[i] == Record(i + 1, s.h.sent[i]);
  }

  predicate ReturnedFlushed(th: Thread) {
    th.FlushCall? && th.flush.FlushDone? && th.flush.result == Flushed
  }

  lemma FlushedCallCovers(s: State, t: Id, e: Id)
    requires Inv(s) && t in s.threads && ReturnedFlushed(s.threads[t])
    requires e in s.threads[t].seen
    ensures Durable(s, e)
  {
    var th := s.threads[t];
    assert FlushOk(s, th);
    assert e in s.h.bumped;
    assert s.config.enabled;
    var b := th.flush.via.value;
    assert e in s.h.bumped[..th.flush.required];
    assert th.flush.required <= s.barriers[b].epoch <= |s.h.bumped| by { assert BarrierOk(s, s.barriers[b]); }
    assert s.h.bumped[..th.flush.required] <= s.h.bumped[..s.barriers[b].epoch];
    FlushedBarrierCovers(s, b, e);
  }

  lemma FlushedCloseCovers(s: State, t: Id, e: Id)
    requires Inv(s) && t in s.threads && ReturnedFlushed(s.threads[t]) && s.threads[t].closing
    requires e in EnqueuedCalls(s.threads)
    ensures Durable(s, e)
  {
    var th := s.threads[t];
    assert FlushOk(s, th);
    assert EmitOk(s, e, s.threads[e].emit);
    assert s.config.enabled;
    var b := th.flush.via.value;
    assert s.barriers[b].epoch <= |s.h.bumped| by { assert BarrierOk(s, s.barriers[b]); }
    assert s.h.bumped[..|s.h.bumped|] == s.h.bumped;
    FlushedBarrierCovers(s, b, e);
  }

  /**
   No caller ever sees a closed channel, and none sees a full one while the channel has its extra
   slot; `AuditCapacity.FullIsDeadExactly` shows that this condition is exact.
   */
  lemma SendsSucceed(states: seq<State>, steps: seq<Step>, i: nat, t: Id)
    requires IsRun(states, steps) && i < |states| && t in states[i].threads
    ensures var s := states[i];
      && (states[0].config.SlotReserved() ==> !InFull(s.threads[t])) && !InGone(s.threads[t])
      && |s.queue| <= s.config.EventCapacity() + 1 && SingleFlush(s.queue)
      && |EventsOf(s.queue)| <= s.config.EventCapacity()
  {
    RunsKeepInv(states, steps, i);
    ConfigStays(states, steps, i);
    EventsOfLength(states[i].queue);
  }

  lemma {:induction false} ConfigStays(states: seq<State>, steps: seq<Step>, i: nat)
    requires IsRun(states, steps) && i < |states|
    ensures states[i].config == states[0].config
    decreases i
  {
    if i > 0 {
      ConfigStays(states, steps, i - 1);
      assert StepAt(states, steps, i - 1);
    }
  }

  /** `flush_pending` is raised only while the newest barrier has no outcome. */
  lemma PendingMeansIncomplete(states: seq<State>, steps: seq<Step>, i: nat)
    requires IsRun(states, steps) && i < |states| && states[i].c.flushPending
    ensures var s := states[i];
      && s.current.Some? && s.current.value < |s.barriers| && s.barriers[s.current.value].outcome == None
      && forall b :: 0 <= b < |s.barriers| && b != s.current.value ==> s.barriers[b].outcome.Some?
  {
    RunsKeepInv(states, steps, i);
  }

  /** The admission word is exactly the closed bit plus the number of calls holding a guard. */
  lemma AdmissionWord(states: seq<State>, steps: seq<Step>, i: nat)
    requires IsRun(states, steps) && i < |states|
    ensures var s := states[i];
      && IsClosed(s.c.admission) == s.h.closeRequested
      && Active(s.c.admission) == N(s, Guard)
      && s.c.admission < USIZE_MODULUS
  {
    RunsKeepInv(states, steps, i);
  }

  /** Records carry the sequence numbers 1, 2, 3, ... and follow channel order without a gap. */
  lemma RecordsInOrder(states: seq<State>, steps: seq<Step>, i: nat, k: nat)
    requires IsRun(states, steps) && i < |states| && k < |states[i].h.records|
    ensures var h := states[i].h;
      k < |h.sent| && h.records[k] == Record(k + 1, h.sent[k])
  {
    RunsKeepInv(states, steps, i);
  }

  /** No emit is between two counters, and neither is the writer. */
  predicate Quiescent(s: State) {
    && (forall t :: t in s.threads && s.threads[t].EmitCall? ==> s.threads[t].emit.EmitStart? || s.threads[t].emit.EmitDone?)
    && (s.writer.pc.WriterIdle? || s.writer.pc.WriterExited?)
  }

  /** At quiescence every attempt is accounted for exactly once. */
  lemma Conservation(states: seq<State>, steps: seq<Step>, i: nat)
    requires IsRun(states, steps) && i < |states| && Quiescent(states[i])
    ensures var c := states[i].c;
      && c.flushFailures <= c.sinkFailures
      && c.attempted == c.written + (c.sinkFailures - c.flushFailures) + c.droppedDisabled + c.droppedFull
                        + c.droppedClosed + c.droppedSinkUnavailable + c.queueDepth
      && c.enqueued == c.eventEpoch == |states[i].h.sent|
      && c.queueDepth == |EventsOf(states[i].queue)|
      && c.written == |states[i].h.records|
  {
    RunsKeepInv(states, steps, i);
    QuiescentIsEmpty(states[i]);
    QuiescentBalance(states[i]);
  }

  lemma QuiescentIsEmpty(s: State)
    requires Quiescent(s)
    ensures N(s, Uncounted) == N(s, Reserved) == N(s, Counted) == N(s, Bumping) == 0
  {
    assert Members(s.threads, Uncounted) == {};
    assert Members(s.threads, Reserved) == {};
    assert Members(s.threads, Counted) == {};
    assert Members(s.threads, Bumping) == {};
  }

  lemma QuiescentBalance(s: State)
    requires InvDepth(s) && InvCounts(s) && (s.writer.pc.WriterIdle? || s.writer.pc.WriterExited?)
    requires N(s, Uncounted) == N(s, Reserved) == N(s, Counted) == N(s, Bumping) == 0
    ensures var c := s.c;
      && c.flushFailures <= c.sinkFailures
      && c.attempted == c.written + (c.sinkFailures - c.flushFailures) + c.droppedDisabled + c.droppedFull
                        + c.droppedClosed + c.droppedSinkUnavailable + c.queueDepth
      && c.enqueued == c.eventEpoch == |s.h.sent|
      && c.queueDepth == |EventsOf(s.queue)|
      && c.written == |s.h.records|
  {
  }

  // ---------------------------------------------------------------- whole runs

  /** What a call observed when it began stays with it. */
  lemma StepKeepsSeen(s: State, step: Step, t: Id)
    requires Wf(s) && Enabled(s, step) && t in s.threads
    ensures var s' := Apply(s, step);
      && t in s'.threads
      && (s.threads[t].FlushCall? ==> s'.threads[t].FlushCall? && s'.threads[t].seen == s.threads[t].seen)
      && (Returned(s.threads[t]) ==> s'.threads[t] == s.threads[t])
  {
    match step
    case EmitStep(u, spurious) => Emit.Frame(s, u, spurious);
    case FlushStep(u, expired) => FlushCalls.Frame(s, u, expired);
    case WriterStep(ok) => WriterThread.Frame(s, ok);
    case _ =>
  }

  lemma StepOfRunKeepsSeen(states: seq<State>, steps: seq<Step>, i: nat, t: Id)
    requires IsRun(states, steps) && i < |steps| && t in states[i].threads
    ensures t in states[i + 1].threads
    ensures states[i].threads[t].FlushCall? ==>
      states[i + 1].threads[t].FlushCall? && states[i + 1].threads[t].seen == states[i].threads[t].seen
    ensures Returned(states[i].threads[t]) ==> states[i + 1].threads[t] == states[i].threads[t]
  {
    RunsKeepInv(states, steps, i);
    assert StepAt(states, steps, i);
    StepKeepsSeen(states[i], steps[i], t);
  }

  lemma {:induction false} SeenStays(states: seq<State>, steps: seq<Step>, i: nat, j: nat, t: Id)
    requires IsRun(states, steps) && i <= j < |states| && t in states[i].threads
    ensures t in states[j].threads
    ensures states[i].threads[t].FlushCall? ==>
      states[j].threads[t].FlushCall? && states[j].threads[t].seen == states[i].threads[t].seen
    ensures Returned(states[i].threads[t]) ==> states[j].threads[t] == states[i].threads[t]
    decreases j
  {
    if i < j {
      SeenStays(states, steps, i, j - 1, t);
      StepOfRunKeepsSeen(states, steps, j - 1, t);
    }
  }

  /**
   If a flush call begun at step `i` has returned `Flushed` by state `j` -- leading, joining
   another caller's barrier, or after earlier leaders timed out -- then every event whose
   `emit` had returned `Enqueued` before the call began is in the sink, followed by a sink flush.
   */
  lemma FlushedMeansDurable(states: seq<State>, steps: seq<Step>, i: nat, j: nat, t: Id, e: Id)
    requires IsRun(states, steps) && i < j < |states|
    requires steps[i].BeginFlush? && steps[i].id == t
    requires t in states[j].threads && ReturnedFlushed(states[j].threads[t])
    requires e in EnqueuedCalls(states[i].threads)
    ensures Durable(states[j], e)
  {
    assert StepAt(states, steps, i);
    SeenStays(states, steps, i + 1, j, t);
    RunsKeepInv(states, steps, j);
    FlushedCallCovers(states[j], t, e);
  }

  predicate SameAndQuiet(s: State, s': State) {
    Quiet(s') && EnqueuedCalls(s'.threads) == EnqueuedCalls(s.threads)
  }

  lemma BeginKeepsQuiet(s: State, t: Id, th: Thread)
    requires Quiet(s) && t !in s.threads && WriterThread.Fresh(th)
    ensures SameAndQuiet(s, s.(threads := s.threads[t := th]))
  {
    CountAfter(s.threads, t, th, Guard);
  }

  lemma EmitKeepsQuiet(s: State, t: Id, spurious: bool)
    requires InvAdmission(s) && Quiet(s) && Emit.EmitFrom(s, t)
    ensures SameAndQuiet(s, Emit.After(s, t, spurious))
  {
    Emit.KeepsQuiet(s, t, spurious);
    Emit.Frame(s, t, spurious);
    if In(Guard, s.threads[t]) {
      MemberCounts(s, t, Guard);
    }
  }

  lemma FlushKeepsQuiet(s: State, t: Id, expired: bool)
    requires Quiet(s) && FlushCalls.FlushFrom(s, t, expired)
    ensures SameAndQuiet(s, FlushCalls.After(s, t, expired))
  {
    FlushCalls.KeepsQuiet(s, t, expired);
    FlushCalls.Frame(s, t, expired);
  }

  lemma StepKeepsQuiet(s: State, step: Step)
    requires Wf(s) && InvAdmission(s) && Enabled(s, step) && Quiet(s)
    ensures SameAndQuiet(s, Apply(s, step))
  {
    match step
    case BeginEmit(t) => BeginKeepsQuiet(s, t, EmitCall(EmitStart));
    case BeginFlush(t, closing) => BeginKeepsQuiet(s, t, Apply(s, step).threads[t]);
    case EmitStep(t, spurious) => EmitKeepsQuiet(s, t, spurious);
    case FlushStep(t, expired) => FlushKeepsQuiet(s, t, expired);
    case WriterStep(ok) => WriterThread.Frame(s, ok);
    case DropHandles =>
  }

  lemma StepOfRunKeepsQuiet(states: seq<State>, steps: seq<Step>, i: nat)
    requires IsRun(states, steps) && i < |steps| && Quiet(states[i])
    ensures SameAndQuiet(states[i], states[i + 1])
  {
    RunsKeepInv(states, steps, i);
    assert StepAt(states, steps, i);
    StepKeepsQuiet(states[i], steps[i]);
  }

  lemma {:induction false} QuietStays(states: seq<State>, steps: seq<Step>, i: nat, j: nat)
    requires IsRun(states, steps) && i <= j < |states| && Quiet(states[i])
    ensures Quiet(states[j]) && EnqueuedCalls(states[j].threads) == EnqueuedCalls(states[i].threads)
    decreases j
  {
    if i < j {
      QuietStays(states, steps, i, j - 1);
      StepOfRunKeepsQuiet(states, steps, j - 1);
    }
  }

  /**
   Once some `close_and_flush` has returned `Flushed`, every emit that has returned or will ever
   return `Enqueued`, however it raced the close, had already returned it and is durable.
   */
  lemma CloseMeansAllDurable(states: seq<State>, steps: seq<Step>, i: nat, j: nat, t: Id, e: Id)
    requires IsRun(states, steps) && i <= j < |states|
    requires t in states[i].threads && ReturnedFlushed(states[i].threads[t]) && states[i].threads[t].closing
    requires e in EnqueuedCalls(states[j].threads)
    ensures e in EnqueuedCalls(states[i].threads) && Durable(states[i], e)
  {
    RunsKeepInv(states, steps, i);
    assert FlushOk(states[i], states[i].threads[t]);
    assert Drained(states[i].threads[t]);
    QuietStays(states, steps, i, j);
    FlushedCloseCovers(states[i], t, e);
  }
}
