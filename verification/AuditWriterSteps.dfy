/** Every atomic operation of the writer, and starting or ending calls, keeps the invariant. */
module AuditWriterSteps {
  import opened Wrappers
  import opened AuditModel
  import opened AuditInvariants

  function After(s: State, ok: bool): State
    requires WriterWf(s)
  {
    DoWriter(s, ok)
  }

  predicate WriterFrom(s: State) { Wf(s) && !WriterBlocked(s) }

  lemma Frame(s: State, ok: bool)
    requires WriterFrom(s)
    ensures var s' := After(s, ok); var c := s'.c;
      && s'.threads == s.threads && s'.config == s.config && s'.handlesDropped == s.handlesDropped
      && s'.current == s.current && s'.lock == s.lock
      && s'.h.sent == s.h.sent && s'.h.bumped == s.h.bumped
      && (s.h.closeRequested ==> s'.h.closeRequested)
      && c.attempted == s.c.attempted && c.enqueued == s.c.enqueued && c.eventEpoch == s.c.eventEpoch
      && c.droppedDisabled == s.c.droppedDisabled && c.droppedFull == s.c.droppedFull
      && c.droppedClosed == s.c.droppedClosed
  {
  }

  lemma KeepsAdmission(s: State, ok: bool)
    requires WriterFrom(s)
    requires InvAdmission(s)
    ensures InvAdmission(After(s, ok))
  {
    Frame(s, ok);
  }

  /** Taking the head of the channel moves one event from the channel to the writer. */
  lemma KeepsQueue(s: State, ok: bool)
    requires WriterFrom(s)
    requires InvQueue(s)
    ensures InvQueue(After(s, ok))
  {
    Frame(s, ok);
    if s.writer.pc.WriterIdle? && s.queue != [] && s.queue[0].Event? {
      assert EventsOf(s.queue) == [s.queue[0].event] + EventsOf(s.queue[1..]);
      assert |EventsOf(s.queue)| == |s.h.sent| - s.h.consumed;
      assert EventsOf(s.queue)[1..] == s.h.sent[s.h.consumed..][1..] == s.h.sent[s.h.consumed + 1..];
    }
  }

  /** A reserved slot is freed exactly when the writer counts the event it received. */
  lemma MovesDepth(s: State, ok: bool)
    requires WriterWf(s)
    requires s.writer.pc.WriterReceived? ==> s.c.queueDepth >= 1
    ensures var s' := After(s, ok);
      && s'.c.queueDepth + One(s.writer.pc.WriterReceived?) == s.c.queueDepth
      && |EventsOf(s'.queue)| + One(s'.writer.pc.WriterReceived?) == |EventsOf(s.queue)|
  {
  }

  lemma KeepsDepth(s: State, ok: bool)
    requires WriterFrom(s)
    requires InvDepth(s)
    ensures InvDepth(After(s, ok))
  {
    Frame(s, ok);
    MovesDepth(s, ok);
  }

  /** What the writer adds to its own totals. */
  lemma MovesWritten(s: State, ok: bool)
    ensures var c, c', pc, pc' := s.c, WriterCounters(s), s.writer.pc, WriterNext(s, ok);
      c'.written + One(pc'.WriterWrote?) + |s.h.records| ==
      c.written + One(pc.WriterWrote?) + |WriterHistory(s, ok).records|
  {
  }

  /** A failed flush is a sink failure before it is a flush failure. */
  lemma MovesFailures(s: State, ok: bool)
    ensures var c, c', pc, pc' := s.c, WriterCounters(s), s.writer.pc, WriterNext(s, ok);
      c'.flushFailures + One(pc'.WriterFlushCounted?) - c'.sinkFailures
      <= c.flushFailures + One(pc.WriterFlushCounted?) - c.sinkFailures
  {
  }

  /** Everything taken off the channel is written, failed, dropped or still in hand. */
  lemma Balances(s: State, ok: bool)
    requires s.writer.pc.WriterReceived? ==> s.c.queueDepth >= 1
    ensures var c', pc, pc' := WriterCounters(s), s.writer.pc, WriterNext(s, ok);
      Accounted(s.c, pc) + c'.flushFailures + One(pc'.WriterFlushCounted?) ==
      Accounted(c', pc') + s.c.flushFailures + One(pc.WriterFlushCounted?)
  {
    if WriterBarrier(s.writer.pc).Some? {
      FlushBalances(s, ok);
    } else {
      EventBalances(s, ok);
    }
  }

  lemma FlushBalances(s: State, ok: bool)
    requires WriterBarrier(s.writer.pc).Some?
    ensures var c', pc, pc' := WriterCounters(s), s.writer.pc, WriterNext(s, ok);
      && c'.sinkFailures + s.c.flushFailures + One(pc.WriterFlushCounted?)
         == s.c.sinkFailures + c'.flushFailures + One(pc'.WriterFlushCounted?)
      && c'.written == s.c.written && c'.droppedSinkUnavailable == s.c.droppedSinkUnavailable && c'.queueDepth == s.c.queueDepth
      && !InHand(pc) && !InHand(pc')
  {
  }

  lemma EventBalances(s: State, ok: bool)
    requires WriterBarrier(s.writer.pc) == None
    requires s.writer.pc.WriterReceived? ==> s.c.queueDepth >= 1
    ensures var c', pc, pc' := WriterCounters(s), s.writer.pc, WriterNext(s, ok);
      && c'.flushFailures == s.c.flushFailures && !pc.WriterFlushCounted? && !pc'.WriterFlushCounted?
      && Accounted(s.c, pc) == Accounted(c', pc')
  {
  }

  function Accounted(c: Counters, pc: WriterPc): nat {
    c.written + c.sinkFailures + c.droppedSinkUnavailable + c.queueDepth + One(InHand(pc))
  }

  lemma KeepsCounts(s: State, ok: bool)
    requires WriterFrom(s)
    requires InvCounts(s) && InvDepth(s)
    ensures InvCounts(After(s, ok))
  {
    Frame(s, ok);
    MovesWritten(s, ok);
    MovesFailures(s, ok);
    Balances(s, ok);
  }

  lemma KeepsLogs(s: State, ok: bool)
    requires WriterFrom(s)
    requires InvLogs(s)
    ensures InvLogs(After(s, ok))
  {
    Frame(s, ok);
  }

  lemma BarriersGrow(s: State, ok: bool)
    requires WriterFrom(s)
    ensures var s' := After(s, ok);
      && |s'.barriers| == |s.barriers|
      && (!s.writer.pc.WriterCompleting? ==> s'.barriers == s.barriers)
      && forall b :: 0 <= b < |s.barriers| ==>
           && s'.barriers[b].epoch == s.barriers[b].epoch && s'.barriers[b].sentAt == s.barriers[b].sentAt
           && (s.barriers[b].outcome.Some? ==> s'.barriers[b].outcome == s.barriers[b].outcome)
           && (WriterBarrier(s.writer.pc) != Some(b) ==> s'.barriers[b] == s.barriers[b])
  {
  }

  lemma KeepsBarriers(s: State, ok: bool)
    requires WriterFrom(s)
    requires InvBarriers(s) && InvLock(s) && InvOwner(s)
    ensures InvBarriers(After(s, ok)) && InvLock(After(s, ok))
  {
    Frame(s, ok);
    BarriersGrow(s, ok);
  }

  /** The writer picks up a flush command only from the channel's head. */
  lemma NextBarrier(s: State, ok: bool)
    requires WriterFrom(s)
    ensures var b := WriterBarrier(After(s, ok).writer.pc);
      b.Some? ==>
        if s.writer.pc.WriterIdle? then s.queue != [] && s.queue[0] == Flush(b.value)
        else b == WriterBarrier(s.writer.pc)
  {
  }

  lemma KeepsLeaders(s: State, ok: bool)
    requires WriterFrom(s)
    requires InvOwner(s)
    ensures LeadersOk(After(s, ok)) && OneLeader(After(s, ok))
  {
    Frame(s, ok);
    BarriersGrow(s, ok);
  }

  lemma KeepsFlushes(s: State, ok: bool)
    requires WriterFrom(s)
    requires FlushesOk(s) && WriterOk(s) && SingleFlush(s.queue)
    ensures FlushesOk(After(s, ok))
  {
    var s' := After(s, ok);
    BarriersGrow(s, ok);
    if s.writer.pc.WriterIdle? && s.queue != [] {
      assert forall i :: 0 <= i < |s'.queue| ==> s'.queue[i] == s.queue[i + 1];
    }
  }

  lemma KeepsWriter(s: State, ok: bool)
    requires WriterFrom(s)
    requires FlushesOk(s) && WriterOk(s) && SingleFlush(s.queue)
    ensures WriterOk(After(s, ok))
  {
    BarriersGrow(s, ok);
    NextBarrier(s, ok);
  }

  lemma KeepsOwner(s: State, ok: bool)
    requires WriterFrom(s)
    requires InvOwner(s) && InvQueue(s)
    ensures InvOwner(After(s, ok))
  {
    KeepsLeaders(s, ok);
    KeepsFlushes(s, ok);
    KeepsWriter(s, ok);
  }

  /** The writer takes a barrier from the channel and keeps it until it completes it. */
  lemma StaysHeld(s: State, ok: bool, b: BarrierId)
    requires WriterFrom(s) && b < |s.barriers|
    requires Held(s, b)
    ensures var s' := After(s, ok); b < |s'.barriers| && (s'.barriers[b].outcome.Some? || Held(s', b))
  {
    var s' := After(s, ok);
    Frame(s, ok);
    BarriersGrow(s, ok);
    if Flush(b) in s.queue && s.writer.pc.WriterIdle? {
      var i :| 0 <= i < |s.queue| && s.queue[i] == Flush(b);
      if i > 0 {
        assert s'.queue[i - 1] == Flush(b);
      }
    }
  }

  lemma KeepsHeld(s: State, ok: bool)
    requires WriterFrom(s)
    requires InvHeld(s)
    ensures InvHeld(After(s, ok))
  {
    var s' := After(s, ok);
    BarriersGrow(s, ok);
    forall b | 0 <= b < |s'.barriers| && s'.barriers[b].outcome == None ensures Held(s', b) {
      StaysHeld(s, ok, b);
    }
  }

  lemma KeepsPending(s: State, ok: bool)
    requires WriterFrom(s)
    requires InvPending(s) && InvOwner(s)
    ensures InvPending(After(s, ok))
  {
    var s' := After(s, ok);
    Frame(s, ok);
    BarriersGrow(s, ok);
    if s.writer.pc.WriterCompleting? {
      assert s'.barriers[s.writer.pc.barrier].outcome.Some?;
    } else if s.writer.pc.WriterFinishing? {
      assert s'.writer.pc.WriterCompleting?;
    }
  }

  lemma KeepsEpochs(s: State, ok: bool)
    requires WriterFrom(s)
    requires InvEpochs(s) && InvOwner(s) && InvSink(s)
    ensures InvEpochs(After(s, ok))
  {
    var s' := After(s, ok);
    Frame(s, ok);
    BarriersGrow(s, ok);
    forall b | 0 <= b < |s'.barriers| ensures BarrierOk(s', s'.barriers[b]) {
      assert BarrierOk(s, s.barriers[b]);
    }
  }

  lemma KeepsRecords(s: State, ok: bool)
    requires WriterFrom(s)
    requires InvSink(s) && InvQueue(s)
    ensures var s' := After(s, ok);
      && s'.h.flushedUpTo <= |s'.h.records| <= s'.h.consumed <= |s'.h.sent|
      && s.h.flushedUpTo <= s'.h.flushedUpTo
      && forall i :: 0 <= i < |s'.h.records| ==> s'.h.records[i] == Record(i + 1, s'.h.sent[i])
  {
    Frame(s, ok);
    if s.writer.pc.WriterIdle? && s.queue != [] && s.queue[0].Event? {
      assert |EventsOf(s.queue)| >= 1;
    }
  }

  lemma KeepsSink(s: State, ok: bool)
    requires WriterFrom(s)
    requires InvSink(s) && InvQueue(s)
    ensures InvSink(After(s, ok))
  {
    KeepsRecords(s, ok);
    if s.writer.pc.WriterIdle? && s.queue != [] && s.queue[0].Event? {
      assert EventsOf(s.queue)[0] == s.queue[0].event;
    }
  }

  lemma KeepsFlush(s: State, ok: bool)
    requires WriterFrom(s)
    requires InvFlush(s) && InvBarriers(s) && InvOwner(s)
    ensures Wf(After(s, ok)) && InvFlush(After(s, ok))
  {
    var s' := After(s, ok);
    Frame(s, ok);
    BarriersGrow(s, ok);
    assert Wf(s') by { NextBarrier(s, ok); }
    forall u | u in s'.threads && s'.threads[u].FlushCall? ensures FlushOk(s', s'.threads[u]) {
      assert FlushOk(s, s.threads[u]);
    }
  }

  lemma KeepsExit(s: State, ok: bool)
    requires WriterFrom(s)
    requires InvExit(s) && InvNoFull(s)
    ensures InvExit(After(s, ok)) && InvNoFull(After(s, ok))
  {
    Frame(s, ok);
  }

  lemma WriterKeepsInv(s: State, ok: bool)
    requires WriterFrom(s) && Inv(s)
    ensures Inv(After(s, ok))
  {
    KeepsAdmission(s, ok);
    KeepsQueue(s, ok);
    KeepsDepth(s, ok);
    KeepsCounts(s, ok);
    KeepsLogs(s, ok);
    KeepsBarriers(s, ok);
    KeepsOwner(s, ok);
    KeepsHeld(s, ok);
    KeepsPending(s, ok);
    KeepsEpochs(s, ok);
    KeepsSink(s, ok);
    KeepsFlush(s, ok);
    KeepsExit(s, ok);
  }

  // ---------------------------------------------------------------- calls starting and ending

  predicate Fresh(th: Thread) {
    match th
    case EmitCall(pc) => pc.EmitStart?
    case FlushCall(_, _, pc) => pc.CloseStart? || pc.FlushStart?
  }

  function Begin(s: State, t: Id, th: Thread): State { s.(threads := s.threads[t := th]) }

  lemma BeginKeepsCounts(s: State, t: Id, th: Thread)
    requires t !in s.threads && Fresh(th)
    requires InvAdmission(s) && InvDepth(s) && InvCounts(s)
    ensures var s' := Begin(s, t, th); InvAdmission(s') && InvDepth(s') && InvCounts(s') && N(s', Guard) == N(s, Guard)
  {
    CountAfter(s.threads, t, th, Guard);
    CountAfter(s.threads, t, th, Reserved);
    CountAfter(s.threads, t, th, Counted);
    CountAfter(s.threads, t, th, Uncounted);
    CountAfter(s.threads, t, th, Bumping);
  }

  lemma BeginKeepsCalls(s: State, t: Id, th: Thread)
    requires t !in s.threads && Fresh(th) && !s.handlesDropped
    requires InvLogs(s) && InvLock(s) && InvExit(s) && InvNoFull(s)
    ensures var s' := Begin(s, t, th); InvLogs(s') && InvLock(s') && InvExit(s') && InvNoFull(s')
  {
  }

  lemma BeginKeepsBarriers(s: State, t: Id, th: Thread)
    requires t !in s.threads && Fresh(th)
    requires InvBarriers(s) && InvOwner(s)
    ensures var s' := Begin(s, t, th); InvBarriers(s') && InvOwner(s')
  {
  }

  lemma BeginKeepsHeld(s: State, t: Id, th: Thread)
    requires t !in s.threads && Fresh(th)
    requires InvHeld(s)
    ensures InvHeld(Begin(s, t, th))
  {
    var s' := Begin(s, t, th);
    forall b | 0 <= b < |s'.barriers| && s'.barriers[b].outcome == None ensures Held(s', b) {
      if Led(s.threads, b) {
        var u :| u in s.threads && Leads(s.threads[u]) == Some(b);
        assert u in s'.threads && Leads(s'.threads[u]) == Some(b);
      }
    }
  }

  lemma BeginKeepsPending(s: State, t: Id, th: Thread)
    requires t !in s.threads && Fresh(th)
    requires InvPending(s)
    ensures InvPending(Begin(s, t, th))
  {
    var s' := Begin(s, t, th);
    assert forall u :: u in s'.threads ==> u == t || (u in s.threads && s'.threads[u] == s.threads[u]);
    assert forall u :: u in s.threads ==> u in s'.threads && s'.threads[u] == s.threads[u];
  }

  lemma BeginKeepsFlush(s: State, t: Id, th: Thread)
    requires t !in s.threads && Fresh(th)
    requires th.FlushCall? ==> th.seen == EnqueuedCalls(s.threads) && th.closing == th.flush.CloseStart?
    requires Wf(s) && InvFlush(s) && InvLogs(s)
    requires N(Begin(s, t, th), Guard) == N(s, Guard)
    ensures var s' := Begin(s, t, th); Wf(s') && InvFlush(s')
  {
    var s' := Begin(s, t, th);
    assert Wf(s');
    forall u | u in s'.threads && s'.threads[u].FlushCall? ensures FlushOk(s', s'.threads[u]) {
      if u != t {
        assert FlushOk(s, s.threads[u]);
      } else {
        assert forall e :: e in th.seen ==> EmitOk(s, e, s.threads[e].emit);
      }
    }
  }

  lemma BeginKeepsSink(s: State, t: Id, th: Thread)
    requires InvQueue(s) && InvEpochs(s) && InvSink(s)
    ensures var s' := Begin(s, t, th); InvQueue(s') && InvEpochs(s') && InvSink(s')
  {
    var s' := Begin(s, t, th);
    forall b | 0 <= b < |s'.barriers| ensures BarrierOk(s', s'.barriers[b]) {
      assert BarrierOk(s, s.barriers[b]);
    }
  }

  lemma BeginKeepsInv(s: State, t: Id, th: Thread)
    requires t !in s.threads && Fresh(th) && !s.handlesDropped
    requires th.FlushCall? ==> th.seen == EnqueuedCalls(s.threads) && th.closing == th.flush.CloseStart?
    requires Inv(s)
    ensures Inv(Begin(s, t, th))
  {
    BeginKeepsCounts(s, t, th);
    BeginKeepsCalls(s, t, th);
    BeginKeepsBarriers(s, t, th);
    BeginKeepsHeld(s, t, th);
    BeginKeepsPending(s, t, th);
    BeginKeepsFlush(s, t, th);
    BeginKeepsSink(s, t, th);
  }

  lemma DropKeepsFlush(s: State)
    requires Wf(s) && InvFlush(s)
    ensures var s' := s.(handlesDropped := true); Wf(s') && InvFlush(s')
  {
    var s' := s.(handlesDropped := true);
    assert Wf(s');
    forall u | u in s'.threads && s'.threads[u].FlushCall? ensures FlushOk(s', s'.threads[u]) {
      assert FlushOk(s, s.threads[u]);
    }
  }

  lemma DropKeepsBarriers(s: State)
    requires InvLock(s) && InvBarriers(s) && InvOwner(s) && InvPending(s) && InvEpochs(s)
    ensures var s' := s.(handlesDropped := true);
      InvLock(s') && InvBarriers(s') && InvOwner(s') && InvPending(s') && InvEpochs(s')
  {
    var s' := s.(handlesDropped := true);
    forall b | 0 <= b < |s'.barriers| ensures BarrierOk(s', s'.barriers[b]) {
      assert BarrierOk(s, s.barriers[b]);
    }
  }

  lemma DropKeepsHeld(s: State)
    requires InvHeld(s)
    ensures InvHeld(s.(handlesDropped := true))
  {
    var s' := s.(handlesDropped := true);
    forall b | 0 <= b < |s'.barriers| && s'.barriers[b].outcome == None ensures Held(s', b) {
      assert Held(s, b);
    }
  }

  lemma DropKeepsSink(s: State)
    requires InvAdmission(s) && InvQueue(s) && InvDepth(s) && InvCounts(s) && InvSink(s)
    ensures var s' := s.(handlesDropped := true);
      InvAdmission(s') && InvQueue(s') && InvDepth(s') && InvCounts(s') && InvSink(s')
  {
  }

  lemma DropKeepsInv(s: State)
    requires Inv(s) && Enabled(s, DropHandles)
    ensures Inv(s.(handlesDropped := true))
  {
    DropKeepsFlush(s);
    DropKeepsBarriers(s);
    DropKeepsHeld(s);
    DropKeepsSink(s);
  }
}
