/** Every atomic operation of `flush_with_timeout` and `close_and_flush` keeps the invariant. */
module AuditFlushSteps {
  import opened Wrappers
  import opened AuditModel
  import opened AuditInvariants
  import Emit = AuditEmitSteps

  predicate FlushFrom(s: State, t: Id, expired: bool) {
    Wf(s) && t in s.threads && s.threads[t].FlushCall? && !FlushBlocked(s, s.threads[t].flush, expired)
  }

  function After(s: State, t: Id, expired: bool): State
    requires FlushFrom(s, t, expired)
  {
    DoFlush(s, t, s.threads[t].flush, expired)
  }

  lemma FrameCounters(s: State, pc: FlushPc)
    ensures var c := FlushCounters(s, pc);
      c == s.c.(admission := c.admission, closed := c.closed, sinkHealthy := c.sinkHealthy,
                flushPending := c.flushPending, flushTimeouts := c.flushTimeouts)
  {
  }

  /** A flush step rewrites only its own thread and leaves the event counters alone. */
  lemma Frame(s: State, t: Id, expired: bool)
    requires FlushFrom(s, t, expired)
    ensures var s' := After(s, t, expired); var c := s'.c;
      && t in s'.threads && s'.threads[t].FlushCall? && s'.threads == s.threads[t := s'.threads[t]]
      && s'.config == s.config && s'.writer == s.writer && s'.handlesDropped == s.handlesDropped
      && s'.h == s.h.(closeRequested := s'.h.closeRequested)
      && c == s.c.(admission := c.admission, closed := c.closed, sinkHealthy := c.sinkHealthy,
                   flushPending := c.flushPending, flushTimeouts := c.flushTimeouts)
  {
    var s' := After(s, t, expired);
    FrameCounters(s, s.threads[t].flush);
    assert s'.c == FlushCounters(s, s.threads[t].flush);
  }

  lemma Counts(s: State, t: Id, expired: bool, k: Class)
    requires FlushFrom(s, t, expired)
    ensures N(After(s, t, expired), k) == N(s, k)
  {
    var s' := After(s, t, expired);
    Frame(s, t, expired);
    CountAfter(s.threads, t, s'.threads[t], k);
  }

  lemma KeepsAdmission(s: State, t: Id, expired: bool)
    requires FlushFrom(s, t, expired)
    requires InvAdmission(s)
    ensures InvAdmission(After(s, t, expired))
  {
    Counts(s, t, expired, Guard);
  }

  lemma KeepsQueue(s: State, t: Id, expired: bool)
    requires FlushFrom(s, t, expired)
    requires InvQueue(s) && InvOwner(s)
    ensures InvQueue(After(s, t, expired))
  {
    if FlushSends(s, s.threads[t].flush) {
      LeaderFindsNoFlush(s, t);
      EventsOfPush(s.queue, Flush(s.threads[t].flush.barrier));
    }
  }

  /** While a barrier is still with its leader, no flush command is in the channel. */
  lemma LeaderFindsNoFlush(s: State, t: Id)
    requires t in s.threads && Leads(s.threads[t]).Some? && InvOwner(s)
    ensures NoFlush(s.queue) && WriterBarrier(s.writer.pc) == None
  {
    var b := Leads(s.threads[t]).value;
    assert Pending(s, b) && s.barriers[b].sentAt == None;
  }

  lemma KeepsDepth(s: State, t: Id, expired: bool)
    requires FlushFrom(s, t, expired)
    requires InvDepth(s)
    ensures InvDepth(After(s, t, expired))
  {
    Frame(s, t, expired);
    Counts(s, t, expired, Reserved);
    if FlushSends(s, s.threads[t].flush) {
      EventsOfPush(s.queue, Flush(s.threads[t].flush.barrier));
    }
  }

  lemma KeepsCounts(s: State, t: Id, expired: bool)
    requires FlushFrom(s, t, expired)
    requires InvCounts(s)
    ensures InvCounts(After(s, t, expired))
  {
    Frame(s, t, expired);
    Counts(s, t, expired, Counted);
    Counts(s, t, expired, Bumping);
    Counts(s, t, expired, Uncounted);
  }

  lemma KeepsLogs(s: State, t: Id, expired: bool)
    requires FlushFrom(s, t, expired)
    requires InvLogs(s) && InvExit(s)
    ensures InvLogs(After(s, t, expired))
  {
    Frame(s, t, expired);
  }

  lemma KeepsLock(s: State, t: Id, expired: bool)
    requires FlushFrom(s, t, expired)
    requires InvLock(s)
    ensures InvLock(After(s, t, expired))
  {
    Frame(s, t, expired);
  }

  /** Barriers are only appended, stamped or completed. */
  lemma BarriersGrow(s: State, t: Id, expired: bool)
    requires FlushFrom(s, t, expired)
    ensures var s' := After(s, t, expired);
      && |s.barriers| <= |s'.barriers| <= |s.barriers| + 1
      && (|s'.barriers| > |s.barriers| <==> s.threads[t].flush.FlushCreating?)
      && forall b :: 0 <= b < |s.barriers| ==>
           && s'.barriers[b].epoch == s.barriers[b].epoch
           && (s.barriers[b].outcome.Some? ==> s'.barriers[b].outcome == s.barriers[b].outcome)
  {
  }

  lemma KeepsWf(s: State, t: Id, expired: bool)
    requires FlushFrom(s, t, expired)
    ensures Wf(After(s, t, expired))
  {
    Frame(s, t, expired);
    BarriersGrow(s, t, expired);
  }

  lemma KeepsBarriers(s: State, t: Id, expired: bool)
    requires FlushFrom(s, t, expired)
    requires InvBarriers(s) && InvLock(s)
    ensures InvBarriers(After(s, t, expired))
  {
    Frame(s, t, expired);
    KeepsWf(s, t, expired);
    BarriersGrow(s, t, expired);
  }

  /** The barrier a step touches is the caller's own, and pending. */
  lemma OwnBarrier(s: State, t: Id, expired: bool)
    requires FlushFrom(s, t, expired)
    requires InvOwner(s)
    ensures forall b :: 0 <= b < |s.barriers| && Leads(s.threads[t]) != Some(b) ==>
      After(s, t, expired).barriers[b] == s.barriers[b]
  {
    BarriersGrow(s, t, expired);
  }

  lemma NoLeaderWhileCreating(s: State, t: Id)
    requires t in s.threads && s.threads[t].FlushCall? && s.threads[t].flush.FlushCreating?
    requires InvBarriers(s) && InvOwner(s)
    ensures forall u :: u in s.threads ==> Leads(s.threads[u]) == None
    ensures NoFlush(s.queue) && WriterBarrier(s.writer.pc) == None
  {
  }

  /** A leader stays on its barrier, which nobody else stamps, until it is sent or given up. */
  lemma LeaderMoves(s: State, t: Id, expired: bool)
    requires FlushFrom(s, t, expired)
    requires Leads(s.threads[t]).Some?
    ensures var s' := After(s, t, expired);
      && t in s'.threads && !s.threads[t].flush.FlushCreating?
      && (Leads(s'.threads[t]).Some? ==> Leads(s'.threads[t]) == Leads(s.threads[t]) && s'.barriers == s.barriers)
  {
  }

  lemma KeepsLeaders(s: State, t: Id, expired: bool)
    requires FlushFrom(s, t, expired)
    requires InvOwner(s) && InvBarriers(s)
    ensures var s' := After(s, t, expired); LeadersOk(s') && OneLeader(s')
  {
    var s' := After(s, t, expired);
    Frame(s, t, expired);
    if s.threads[t].flush.FlushCreating? {
      NoLeaderWhileCreating(s, t);
    } else if Leads(s.threads[t]).Some? {
      LeaderMoves(s, t, expired);
    } else {
      Bystander(s, t, expired);
    }
  }

  lemma KeepsOwner(s: State, t: Id, expired: bool)
    requires FlushFrom(s, t, expired)
    requires InvOwner(s) && InvBarriers(s) && InvQueue(s)
    ensures InvOwner(After(s, t, expired))
  {
    Frame(s, t, expired);
    KeepsLeaders(s, t, expired);
    BarriersGrow(s, t, expired);
    OwnBarrier(s, t, expired);
    if Leads(s.threads[t]).Some? {
      LeaderFindsNoFlush(s, t);
      EventsOfLength(s.queue);
    } else if s.threads[t].flush.FlushCreating? {
      NoLeaderWhileCreating(s, t);
    }
  }

  /** A leader gives its barrier up only by sending or completing it: the barrier it creates always covers its own events. */
  lemma LeaderHandsOn(s: State, t: Id, expired: bool)
    requires FlushFrom(s, t, expired) && CoverOk(s, s.threads[t])
    requires Leads(s.threads[t]).Some?
    ensures var s', b := After(s, t, expired), Leads(s.threads[t]).value;
      t in s'.threads && (Leads(s'.threads[t]) == Some(b) || Flush(b) in s'.queue || s'.barriers[b].outcome.Some?)
  {
  }

  /** Only sending changes the channel, and only by adding to it. */
  lemma QueueGrows(s: State, t: Id, expired: bool)
    requires FlushFrom(s, t, expired)
    ensures s.queue <= After(s, t, expired).queue
  {
  }

  lemma StaysHeld(s: State, t: Id, expired: bool, b: BarrierId)
    requires FlushFrom(s, t, expired) && CoverOk(s, s.threads[t])
    requires b < |s.barriers| && Held(s, b)
    ensures var s' := After(s, t, expired); b < |s'.barriers| && (s'.barriers[b].outcome.Some? || Held(s', b))
  {
    var s' := After(s, t, expired);
    Frame(s, t, expired);
    BarriersGrow(s, t, expired);
    QueueGrows(s, t, expired);
    if Led(s.threads, b) {
      var u :| u in s.threads && Leads(s.threads[u]) == Some(b);
      if u == t {
        LeaderHandsOn(s, t, expired);
      } else {
        assert u in s'.threads && Leads(s'.threads[u]) == Some(b);
      }
    } else if Flush(b) in s.queue {
      var i :| 0 <= i < |s.queue| && s.queue[i] == Flush(b);
      assert s'.queue[i] == Flush(b);
    }
  }

  lemma KeepsHeld(s: State, t: Id, expired: bool)
    requires FlushFrom(s, t, expired)
    requires InvHeld(s) && InvFlush(s)
    ensures InvHeld(After(s, t, expired))
  {
    var s' := After(s, t, expired);
    Frame(s, t, expired);
    BarriersGrow(s, t, expired);
    assert FlushOk(s, s.threads[t]);
    forall b | 0 <= b < |s'.barriers| && s'.barriers[b].outcome == None ensures Held(s', b) {
      if b < |s.barriers| {
        StaysHeld(s, t, expired, b);
      } else {
        assert Leads(s'.threads[t]) == Some(b);
      }
    }
  }

  /** A call that neither leads nor creates a barrier touches no barrier and no flag. */
  lemma Bystander(s: State, t: Id, expired: bool)
    requires FlushFrom(s, t, expired)
    requires Leads(s.threads[t]) == None && !s.threads[t].flush.FlushCreating?
    ensures var s' := After(s, t, expired);
      && s'.barriers == s.barriers && s'.c.flushPending == s.c.flushPending
      && t in s'.threads && !Flagging(s.threads[t]) && !Flagging(s'.threads[t])
      && Leads(s'.threads[t]) == None
  {
  }

  lemma BystanderFlags(s: State, t: Id, expired: bool)
    requires FlushFrom(s, t, expired)
    requires InvPending(s) && Leads(s.threads[t]) == None && !s.threads[t].flush.FlushCreating?
    ensures InvPending(After(s, t, expired))
  {
    var s' := After(s, t, expired);
    Frame(s, t, expired);
    Bystander(s, t, expired);
    assert s'.threads.Keys == s.threads.Keys;
    assert forall u :: u in s.threads ==> Flagging(s'.threads[u]) == Flagging(s.threads[u]);
  }

  lemma CreatorFlags(s: State, t: Id, expired: bool)
    requires FlushFrom(s, t, expired)
    requires InvPending(s) && InvBarriers(s) && s.threads[t].flush.FlushCreating?
    ensures InvPending(After(s, t, expired))
  {
    var s' := After(s, t, expired);
    assert t in s'.threads && Flagging(s'.threads[t]);
    assert s'.c == s.c && !s.c.flushPending;
  }

  /** A leader raises and lowers the flag in step with its own program counter, until it completes the barrier. */
  lemma LeaderMovesFlag(s: State, t: Id, expired: bool)
    requires FlushFrom(s, t, expired) && Leads(s.threads[t]).Some?
    requires s.barriers[Leads(s.threads[t]).value].outcome == None
    requires s.c.flushPending <==> !Flagging(s.threads[t])
    ensures var s', b := After(s, t, expired), Leads(s.threads[t]).value;
      && |s'.barriers| == |s.barriers| && t in s'.threads
      && (if s.threads[t].flush.FullComplete? || s.threads[t].flush.GoneComplete?
          then s'.barriers[b].outcome.Some? && !s'.c.flushPending
          else s'.barriers[b].outcome == None && (s'.c.flushPending <==> !Flagging(s'.threads[t])))
  {
  }

  /** Only the leader moves the flag of an unsent barrier. */
  lemma LeaderFlags(s: State, t: Id, expired: bool)
    requires FlushFrom(s, t, expired)
    requires InvPending(s) && InvOwner(s) && InvBarriers(s) && Leads(s.threads[t]).Some?
    ensures InvPending(After(s, t, expired))
  {
    var s' := After(s, t, expired);
    var b := Leads(s.threads[t]).value;
    LeaderFindsNoFlush(s, t);
    assert LeaderOk(s, b);
    assert forall u :: u in s.threads && u != t ==> !Flagging(s.threads[u]);
    assert s.c.flushPending <==> !Flagging(s.threads[t]);
    LeaderMovesFlag(s, t, expired);
    OnlyFlagger(s, s', t);
    assert s'.writer == s.writer;
  }

  /** Where no other call is flagging, a step of `t` leaves `t` the only one that may be. */
  lemma OnlyFlagger(s: State, s': State, t: Id)
    requires t in s.threads && t in s'.threads && s'.threads == s.threads[t := s'.threads[t]]
    requires forall u :: u in s.threads && u != t ==> !Flagging(s.threads[u])
    ensures (forall u :: u in s'.threads ==> !Flagging(s'.threads[u])) <==> !Flagging(s'.threads[t])
  {
  }

  lemma KeepsPending(s: State, t: Id, expired: bool)
    requires FlushFrom(s, t, expired)
    requires InvPending(s) && InvOwner(s) && InvBarriers(s)
    ensures InvPending(After(s, t, expired))
  {
    if Leads(s.threads[t]).Some? {
      LeaderFlags(s, t, expired);
    } else if s.threads[t].flush.FlushCreating? {
      CreatorFlags(s, t, expired);
    } else {
      BystanderFlags(s, t, expired);
    }
  }

  lemma KeepsEpochs(s: State, t: Id, expired: bool)
    requires FlushFrom(s, t, expired)
    requires InvEpochs(s) && InvCounts(s) && InvLogs(s) && InvOwner(s)
    ensures InvEpochs(After(s, t, expired))
  {
    var s' := After(s, t, expired);
    Frame(s, t, expired);
    forall b | 0 <= b < |s'.barriers| ensures BarrierOk(s', s'.barriers[b]) {
      if b < |s.barriers| {
        assert BarrierOk(s, s.barriers[b]);
        if FlushSends(s, s.threads[t].flush) {
          assert LeaderOk(s, s.threads[t].flush.barrier);
          assert s.h.sent[..|s.h.sent|] == s.h.sent;
        }
      }
    }
  }

  lemma KeepsSink(s: State, t: Id, expired: bool)
    requires FlushFrom(s, t, expired)
    requires InvSink(s) && InvExit(s)
    ensures InvSink(After(s, t, expired))
  {
    Frame(s, t, expired);
    assert !InGone(s.threads[t]);
  }

  lemma KeepsQuiet(s: State, t: Id, expired: bool)
    requires FlushFrom(s, t, expired)
    ensures var s' := After(s, t, expired);
      (s.h.closeRequested ==> s'.h.closeRequested) && (Quiet(s) ==> Quiet(s'))
  {
    Counts(s, t, expired, Guard);
  }

  lemma OthersKeepFlush(s: State, t: Id, expired: bool, u: Id)
    requires FlushFrom(s, t, expired)
    requires InvFlush(s) && u in s.threads && u != t && s.threads[u].FlushCall?
    ensures FlushWf(After(s, t, expired), s.threads[u].flush) && FlushOk(After(s, t, expired), s.threads[u])
  {
    Frame(s, t, expired);
    BarriersGrow(s, t, expired);
    KeepsQuiet(s, t, expired);
    assert FlushOk(s, s.threads[u]);
  }

  lemma CallerKeepsSeen(s: State, t: Id, expired: bool)
    requires FlushFrom(s, t, expired)
    requires SeenOk(s, s.threads[t]) && s.c.eventEpoch == |s.h.bumped|
    ensures SeenOk(After(s, t, expired), After(s, t, expired).threads[t])
  {
    Frame(s, t, expired);
    assert s.h.bumped[..|s.h.bumped|] == s.h.bumped;
  }

  /** A call that waited for its barrier returns that barrier's outcome. */
  lemma AwaitKeepsCover(s: State, t: Id, expired: bool)
    requires FlushFrom(s, t, expired) && s.threads[t].flush.FlushAwait?
    requires SeenOk(s, s.threads[t]) && CoverOk(s, s.threads[t])
    ensures var s' := After(s, t, expired); FlushWf(s', s'.threads[t].flush) && CoverOk(s', s'.threads[t])
  {
    var s', pc := After(s, t, expired), s.threads[t].flush;
    assert s'.barriers == s.barriers && s'.h == s.h && s'.config == s.config;
    assert s'.threads[t] == s.threads[t].(flush := FlushNext(s, pc, expired));
    assert RequiresOk(s, s.threads[t], pc.required);
  }

  lemma CallerKeepsCover(s: State, t: Id, expired: bool)
    requires FlushFrom(s, t, expired)
    requires SeenOk(s, s.threads[t]) && CoverOk(s, s.threads[t]) && s.c.eventEpoch == |s.h.bumped|
    ensures var s' := After(s, t, expired); FlushWf(s', s'.threads[t].flush) && CoverOk(s', s'.threads[t])
  {
    if s.threads[t].flush.FlushAwait? {
      AwaitKeepsCover(s, t, expired);
    } else {
      BarriersGrow(s, t, expired);
    }
  }

  lemma CallerKeepsClose(s: State, t: Id, expired: bool)
    requires FlushFrom(s, t, expired)
    requires CloseOk(s, s.threads[t]) && InvAdmission(s)
    ensures CloseOk(After(s, t, expired), After(s, t, expired).threads[t])
  {
    KeepsQuiet(s, t, expired);
  }

  lemma KeepsFlush(s: State, t: Id, expired: bool)
    requires FlushFrom(s, t, expired)
    requires InvFlush(s) && InvCounts(s) && InvAdmission(s)
    ensures var s' := After(s, t, expired); Wf(s') && InvFlush(s')
  {
    var s' := After(s, t, expired);
    Frame(s, t, expired);
    KeepsWf(s, t, expired);
    forall u | u in s'.threads && s'.threads[u].FlushCall? ensures FlushOk(s', s'.threads[u]) {
      if u == t {
        CallerKeepsSeen(s, t, expired);
        CallerKeepsCover(s, t, expired);
        CallerKeepsClose(s, t, expired);
      } else {
        OthersKeepFlush(s, t, expired, u);
      }
    }
  }

  lemma KeepsExit(s: State, t: Id, expired: bool)
    requires FlushFrom(s, t, expired)
    requires InvExit(s)
    ensures InvExit(After(s, t, expired))
  {
    Frame(s, t, expired);
  }

  /** A leader always finds room in the channel for its flush command. */
  lemma RoomForFlush(s: State, t: Id)
    requires t in s.threads && s.threads[t].FlushCall? && s.threads[t].flush.FlushSending?
    requires InvDepth(s) && InvOwner(s)
    ensures |s.queue| <= s.config.EventCapacity()
    ensures s.config.EventCapacity() < USIZE_MAX ==> |s.queue| < s.config.ChannelCapacity()
  {
    LeaderFindsNoFlush(s, t);
    EventsOfLength(s.queue);
  }

  lemma KeepsNoFull(s: State, t: Id, expired: bool)
    requires FlushFrom(s, t, expired)
    requires InvNoFull(s) && InvDepth(s) && InvOwner(s) && InvExit(s)
    ensures InvNoFull(After(s, t, expired))
  {
    Frame(s, t, expired);
    if s.threads[t].flush.FlushSending? {
      assert NeedsSender(s.threads[t]);
      RoomForFlush(s, t);
    }
  }

  lemma FlushKeepsInv(s: State, t: Id, expired: bool)
    requires FlushFrom(s, t, expired)
    requires Inv(s)
    ensures Inv(After(s, t, expired))
  {
    KeepsAdmission(s, t, expired);
    KeepsQueue(s, t, expired);
    KeepsDepth(s, t, expired);
    KeepsCounts(s, t, expired);
    KeepsLogs(s, t, expired);
    KeepsLock(s, t, expired);
    KeepsBarriers(s, t, expired);
    KeepsOwner(s, t, expired);
    KeepsHeld(s, t, expired);
    KeepsPending(s, t, expired);
    KeepsEpochs(s, t, expired);
    KeepsSink(s, t, expired);
    KeepsFlush(s, t, expired);
    KeepsExit(s, t, expired);
    KeepsNoFull(s, t, expired);
  }
}
