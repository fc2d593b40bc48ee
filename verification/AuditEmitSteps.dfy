/** Every atomic operation of `emit` keeps the invariant. */
module AuditEmitSteps {
  import opened Wrappers
  import opened AuditModel
  import opened AuditInvariants

  predicate EmitFrom(s: State, t: Id) {
    t in s.threads && s.threads[t].EmitCall? && !Returned(s.threads[t])
  }

  function After(s: State, t: Id, spurious: bool): State
    requires EmitFrom(s, t)
  {
    DoEmit(s, t, s.threads[t].emit, spurious)
  }

  /** An emit step rewrites only its own thread. */
  lemma Frame(s: State, t: Id, spurious: bool)
    requires EmitFrom(s, t)
    ensures var s' := After(s, t, spurious);
      && t in s'.threads && s'.threads[t].EmitCall? && s'.threads == s.threads[t := s'.threads[t]]
      && s'.config == s.config && s'.barriers == s.barriers && s'.current == s.current && s'.lock == s.lock
      && s'.writer == s.writer && s'.handlesDropped == s.handlesDropped
      && s'.c.flushPending == s.c.flushPending
      && s'.h == s.h.(sent := s'.h.sent, bumped := s'.h.bumped, closeRequested := s'.h.closeRequested)
  {
  }

  lemma Counts(s: State, t: Id, spurious: bool, k: Class)
    requires EmitFrom(s, t)
    ensures var s' := After(s, t, spurious);
      t in s'.threads && N(s', k) + One(In(k, s.threads[t])) == N(s, k) + One(In(k, s'.threads[t]))
    ensures In(k, s.threads[t]) ==> N(s, k) >= 1
  {
    var s' := After(s, t, spurious);
    Frame(s, t, spurious);
    CountAfter(s.threads, t, s'.threads[t], k);
    if In(k, s.threads[t]) {
      MemberCounts(s, t, k);
    }
  }

  lemma KeepsAdmission(s: State, t: Id, spurious: bool)
    requires EmitFrom(s, t)
    requires InvAdmission(s) && InvExit(s)
    ensures InvAdmission(After(s, t, spurious))
  {
    Counts(s, t, spurious, Guard);
  }

  lemma KeepsQueue(s: State, t: Id, spurious: bool)
    requires EmitFrom(s, t)
    requires InvQueue(s)
    ensures InvQueue(After(s, t, spurious))
  {
    EventsOfPush(s.queue, Event(t));
    assert (s.h.sent + [t])[s.h.consumed..] == s.h.sent[s.h.consumed..] + [t];
  }

  /** How one step moves the counters, in terms of the classes its call leaves and enters. */
  lemma MovesDepth(s: State, t: Id, spurious: bool)
    requires EmitFrom(s, t)
    requires In(Reserved, s.threads[t]) ==> s.c.queueDepth >= 1
    requires s.c.queueDepth <= s.config.EventCapacity()
    ensures var s' := After(s, t, spurious);
      && t in s'.threads
      && s'.c.queueDepth + One(In(Reserved, s.threads[t])) ==
         s.c.queueDepth + One(In(Reserved, s'.threads[t])) + |s'.h.sent| - |s.h.sent|
      && s'.c.queueDepth <= s.config.EventCapacity()
  {
  }

  lemma MovesEnqueued(s: State, t: Id, spurious: bool)
    requires EmitFrom(s, t)
    requires In(Counted, s.threads[t]) ==> s.c.enqueued >= 1
    ensures var s' := After(s, t, spurious);
      && t in s'.threads
      && s'.c.enqueued + One(In(Counted, s.threads[t])) ==
         s.c.enqueued + One(In(Counted, s'.threads[t])) + |s'.h.sent| - |s.h.sent|
  {
  }

  lemma MovesLogs(s: State, t: Id, spurious: bool)
    requires EmitFrom(s, t)
    ensures var s' := After(s, t, spurious);
      && t in s'.threads
      && s'.c.eventEpoch - s.c.eventEpoch == |s'.h.bumped| - |s.h.bumped|
      && |s'.h.sent| - |s.h.sent| + One(In(Bumping, s.threads[t])) ==
         |s'.h.bumped| - |s.h.bumped| + One(In(Bumping, s'.threads[t]))
      && (|| (s'.queue == s.queue && s'.h.sent == s.h.sent)
          || (s'.queue == s.queue + [Event(t)] && |s'.h.sent| == |s.h.sent| + 1))
  {
  }

  /** Every drop counter, the depth and the uncounted calls move so that nothing is lost. */
  lemma Balances(s: State, t: Id, spurious: bool)
    requires EmitFrom(s, t)
    requires In(Reserved, s.threads[t]) ==> s.c.queueDepth >= 1
    ensures var s' := After(s, t, spurious); var c, c' := s.c, s'.c;
      && t in s'.threads
      && Dropped(c') + c'.queueDepth + One(In(Uncounted, s'.threads[t])) + c.attempted ==
         Dropped(c) + c.queueDepth + One(In(Uncounted, s.threads[t])) + c'.attempted
  {
  }

  lemma LeavesWriterCounters(s: State, t: Id, spurious: bool)
    requires EmitFrom(s, t)
    ensures var c, c' := s.c, After(s, t, spurious).c;
      c'.written == c.written && c'.sinkFailures == c.sinkFailures && c'.flushFailures == c.flushFailures
  {
  }

  function Dropped(c: Counters): nat {
    c.droppedDisabled + c.droppedFull + c.droppedClosed + c.droppedSinkUnavailable
  }

  lemma KeepsDepth(s: State, t: Id, spurious: bool)
    requires EmitFrom(s, t)
    requires InvDepth(s) && InvCounts(s)
    ensures InvDepth(After(s, t, spurious))
  {
    Frame(s, t, spurious);
    Counts(s, t, spurious, Reserved);
    Counts(s, t, spurious, Counted);
    MovesDepth(s, t, spurious);
    MovesLogs(s, t, spurious);
    EventsOfPush(s.queue, Event(t));
  }

  lemma KeepsCounts(s: State, t: Id, spurious: bool)
    requires EmitFrom(s, t)
    requires InvCounts(s) && InvDepth(s)
    ensures InvCounts(After(s, t, spurious))
  {
    Frame(s, t, spurious);
    Counts(s, t, spurious, Reserved);
    Counts(s, t, spurious, Counted);
    Counts(s, t, spurious, Bumping);
    Counts(s, t, spurious, Uncounted);
    MovesEnqueued(s, t, spurious);
    MovesLogs(s, t, spurious);
    LeavesWriterCounters(s, t, spurious);
    Balances(s, t, spurious);
  }

  lemma KeepsLogs(s: State, t: Id, spurious: bool)
    requires EmitFrom(s, t)
    requires InvLogs(s) && InvExit(s)
    ensures InvLogs(After(s, t, spurious))
  {
    Frame(s, t, spurious);
  }

  lemma KeepsBarriers(s: State, t: Id, spurious: bool)
    requires EmitFrom(s, t)
    requires InvLock(s) && InvBarriers(s)
    ensures var s' := After(s, t, spurious); InvLock(s') && InvBarriers(s')
  {
    Frame(s, t, spurious);
  }

  lemma KeepsPending(s: State, t: Id, spurious: bool)
    requires EmitFrom(s, t)
    requires InvPending(s)
    ensures InvPending(After(s, t, spurious))
  {
    var s' := After(s, t, spurious);
    Frame(s, t, spurious);
    assert s'.threads.Keys == s.threads.Keys;
    assert forall u :: u in s.threads ==> Flagging(s'.threads[u]) == Flagging(s.threads[u]);
  }

  lemma KeepsOwner(s: State, t: Id, spurious: bool)
    requires EmitFrom(s, t)
    requires InvOwner(s)
    ensures InvOwner(After(s, t, spurious))
  {
    Frame(s, t, spurious);
  }

  lemma KeepsHeld(s: State, t: Id, spurious: bool)
    requires EmitFrom(s, t)
    requires InvHeld(s)
    ensures InvHeld(After(s, t, spurious))
  {
    var s' := After(s, t, spurious);
    Frame(s, t, spurious);
    forall b | 0 <= b < |s'.barriers| && s'.barriers[b].outcome == None ensures Held(s', b) {
      if Led(s.threads, b) {
        var u :| u in s.threads && Leads(s.threads[u]) == Some(b);
        assert u in s'.threads && Leads(s'.threads[u]) == Some(b);
      }
    }
  }

  lemma KeepsEpochs(s: State, t: Id, spurious: bool)
    requires EmitFrom(s, t)
    requires InvEpochs(s)
    ensures InvEpochs(After(s, t, spurious))
  {
    var s' := After(s, t, spurious);
    forall b | 0 <= b < |s'.barriers| ensures BarrierOk(s', s'.barriers[b]) {
      assert BarrierOk(s, s.barriers[b]);
      LogsGrow(s, s', s.barriers[b]);
    }
  }

  /** Growing both logs at the end keeps what a barrier says. */
  lemma LogsGrow(s: State, s': State, b: Barrier)
    requires BarrierOk(s, b)
    requires s.h.sent <= s'.h.sent && s.h.bumped <= s'.h.bumped && s.h.flushedUpTo <= s'.h.flushedUpTo
    ensures BarrierOk(s', b)
  {
    assert s'.h.bumped[..b.epoch] == s.h.bumped[..b.epoch];
    if b.sentAt.Some? {
      assert s'.h.sent[..b.sentAt.value] == s.h.sent[..b.sentAt.value];
    }
  }

  lemma KeepsSink(s: State, t: Id, spurious: bool)
    requires EmitFrom(s, t)
    requires InvSink(s) && InvExit(s)
    ensures InvSink(After(s, t, spurious))
  {
    Frame(s, t, spurious);
    assert !InGone(s.threads[t]);
  }

  lemma KeepsFlush(s: State, t: Id, spurious: bool)
    requires EmitFrom(s, t)
    requires Wf(s) && InvFlush(s) && InvAdmission(s)
    ensures var s' := After(s, t, spurious); Wf(s') && InvFlush(s')
  {
    var s' := After(s, t, spurious);
    Frame(s, t, spurious);
    KeepsQuiet(s, t, spurious);
    forall u | u in s'.threads && s'.threads[u].FlushCall? ensures FlushOk(s', s'.threads[u]) {
      assert s'.threads[u] == s.threads[u] && FlushOk(s, s.threads[u]);
      FlushStays(s, s', s.threads[u]);
    }
  }

  /** Once closed with no guard alive, no guard appears and no event is counted. */
  lemma KeepsQuiet(s: State, t: Id, spurious: bool)
    requires EmitFrom(s, t)
    requires InvAdmission(s)
    ensures var s' := After(s, t, spurious);
      && (s.h.closeRequested ==> s'.h.closeRequested)
      && (Quiet(s) ==> Quiet(s') && s'.h.bumped == s.h.bumped)
      && s.h.bumped <= s'.h.bumped
  {
    Counts(s, t, spurious, Guard);
  }

  lemma FlushStays(s: State, s': State, th: Thread)
    requires th.FlushCall? && FlushWf(s, th.flush) && FlushOk(s, th)
    requires s'.config == s.config && s'.barriers == s.barriers
    requires s.h.bumped <= s'.h.bumped
    requires s.h.closeRequested ==> s'.h.closeRequested
    requires Quiet(s) ==> Quiet(s') && s'.h.bumped == s.h.bumped
    ensures FlushOk(s', th)
  {
    assert forall r :: 0 <= r <= |s.h.bumped| ==> s'.h.bumped[..r] == s.h.bumped[..r];
  }

  lemma KeepsExit(s: State, t: Id, spurious: bool)
    requires EmitFrom(s, t)
    requires InvExit(s) && InvAdmission(s)
    ensures InvExit(After(s, t, spurious))
  {
    Frame(s, t, spurious);
    if s.threads[t].emit.EmitEntering? {
      assert !s.config.HasSender() ==> IsClosed(s.c.admission);
    }
  }

  /** An emitter that holds a reservation always finds room in the channel. */
  lemma RoomForEvent(s: State, t: Id)
    requires EmitFrom(s, t) && s.threads[t].emit.EmitSending?
    requires InvDepth(s) && InvQueue(s)
    ensures |s.queue| <= s.config.EventCapacity()
    ensures s.config.EventCapacity() < USIZE_MAX ==> |s.queue| < s.config.ChannelCapacity()
  {
    MemberCounts(s, t, Reserved);
    EventsOfLength(s.queue);
  }

  lemma KeepsNoFull(s: State, t: Id, spurious: bool)
    requires EmitFrom(s, t)
    requires InvNoFull(s) && InvDepth(s) && InvQueue(s) && InvExit(s)
    ensures InvNoFull(After(s, t, spurious))
  {
    Frame(s, t, spurious);
    if s.threads[t].emit.EmitSending? {
      assert NeedsSender(s.threads[t]);
      RoomForEvent(s, t);
    }
  }

  lemma EmitKeepsInv(s: State, t: Id, spurious: bool)
    requires EmitFrom(s, t)
    requires Inv(s)
    ensures Inv(After(s, t, spurious))
  {
    KeepsAdmission(s, t, spurious);
    KeepsQueue(s, t, spurious);
    KeepsDepth(s, t, spurious);
    KeepsCounts(s, t, spurious);
    KeepsLogs(s, t, spurious);
    KeepsBarriers(s, t, spurious);
    KeepsPending(s, t, spurious);
    KeepsOwner(s, t, spurious);
    KeepsHeld(s, t, spurious);
    KeepsEpochs(s, t, spurious);
    KeepsSink(s, t, spurious);
    KeepsFlush(s, t, spurious);
    KeepsExit(s, t, spurious);
    KeepsNoFull(s, t, spurious);
  }
}
