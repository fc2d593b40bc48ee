/** The inductive invariant of the audit dispatcher, one predicate per concern. */
module AuditInvariants {
  import opened Wrappers
  import opened AuditModel

  // ---------------------------------------------------------------- counting threads

  /** Classes of `emit` calls that a shared counter speaks about. */
  datatype Class =
    | Guard       // holds an `ActiveEmitter`
    | Reserved    // counted by `queue_depth`, event not in the channel
    | Counted     // counted by `enqueued`, event not in the channel
    | Uncounted   // counted by `attempted` and by no other total
    | Bumping     // event in the channel, epoch not yet counted

  predicate In(k: Class, th: Thread) {
    th.EmitCall? &&
    match k
    case Guard => !(th.emit.EmitStart? || th.emit.EmitAttempted? || th.emit.EmitEntering? || th.emit.EmitDone?)
    case Reserved => th.emit.EmitReserved? || th.emit.EmitSending? || th.emit.FullUndoDepth? || th.emit.GoneUndoDepth?
    case Counted =>
      || th.emit.EmitSending? || th.emit.FullUndoDepth? || th.emit.FullUndoEnqueued?
      || th.emit.GoneUndoDepth? || th.emit.GoneUndoEnqueued?
    case Uncounted =>
      || th.emit.EmitAttempted? || th.emit.EmitEntering? || th.emit.EmitAdmitted? || th.emit.EmitUnhealthy?
      || th.emit.EmitReserving? || th.emit.EmitFull? || th.emit.FullUndoEnqueued? || th.emit.FullCount?
      || th.emit.GoneUndoEnqueued? || th.emit.GoneCount?
    case Bumping => th.emit.EmitSent?
  }

  function Members(threads: map<Id, Thread>, k: Class): set<Id> {
    set t | t in threads && In(k, threads[t])
  }

  function N(s: State, k: Class): nat { |Members(s.threads, k)| }

  lemma SizeAfter(a: set<Id>, b: set<Id>, t: Id)
    requires a - {t} == b - {t}
    ensures |b| + One(t in a) == |a| + One(t in b)
  {
    assert |a| == |a - {t}| + One(t in a);
    assert |b| == |b - {t}| + One(t in b);
  }

  /** Moving one call changes each class count by what that call enters and leaves. */
  lemma CountAfter(m: map<Id, Thread>, t: Id, th: Thread, k: Class)
    ensures |Members(m[t := th], k)| + One(t in m && In(k, m[t])) == |Members(m, k)| + One(In(k, th))
  {
    SizeAfter(Members(m, k), Members(m[t := th], k), t);
  }

  lemma MemberCounts(s: State, t: Id, k: Class)
    requires t in s.threads && In(k, s.threads[t])
    ensures N(s, k) >= 1
  {
    assert t in Members(s.threads, k);
  }

  // ---------------------------------------------------------------- the channel

  function EventsOf(q: seq<Command>): seq<Id> {
    if q == [] then []
    else if q[0].Event? then [q[0].event] + EventsOf(q[1..])
    else EventsOf(q[1..])
  }

  lemma {:induction false} EventsOfPush(q: seq<Command>, c: Command)
    ensures EventsOf(q + [c]) == EventsOf(q) + (if c.Event? then [c.event] else [])
  {
    if q == [] {
      assert q + [c] == [c];
      assert [c][1..] == [];
    } else {
      assert (q + [c])[1..] == q[1..] + [c];
      EventsOfPush(q[1..], c);
    }
  }

  /** A flush command stands alone among events. */
  predicate SingleFlush(q: seq<Command>) {
    forall i, j :: 0 <= i < |q| && 0 <= j < |q| && q[i].Flush? && q[j].Flush? ==> i == j
  }

  predicate NoFlush(q: seq<Command>) {
    forall i :: 0 <= i < |q| ==> q[i].Event?
  }

  lemma {:induction false} EventsOfLength(q: seq<Command>)
    ensures |EventsOf(q)| <= |q|
    ensures NoFlush(q) ==> |EventsOf(q)| == |q|
    ensures SingleFlush(q) ==> |q| <= |EventsOf(q)| + 1
  {
    if q != [] {
      var rest := q[1..];
      EventsOfLength(rest);
      assert forall i :: 0 <= i < |rest| ==> rest[i] == q[i + 1];
      if SingleFlush(q) && q[0].Flush? {
        assert NoFlush(rest);
      }
      if SingleFlush(q) {
        assert SingleFlush(rest);
      }
    }
  }

  // ---------------------------------------------------------------- invariants

  /** The admission word is the closed bit plus the number of live guards, with no carry. */
  predicate InvAdmission(s: State) {
    && N(s, Guard) <= ACTIVE_EMITTERS_MASK
    && s.c.admission == (if s.h.closeRequested then ADMISSION_CLOSED else 0) + N(s, Guard)
    && (!s.config.HasSender() ==> s.h.closeRequested && N(s, Guard) == 0)
  }

  predicate InvQueue(s: State) {
    && s.h.consumed <= |s.h.sent|
    && EventsOf(s.queue) == s.h.sent[s.h.consumed..]
    && SingleFlush(s.queue)
  }

  predicate InvDepth(s: State) {
    && s.c.queueDepth == N(s, Reserved) + |EventsOf(s.queue)| + One(s.writer.pc.WriterReceived?)
    && s.c.queueDepth <= s.config.EventCapacity()
  }

  /** Events the writer took off `queue_depth` and has not yet counted anywhere. */
  predicate InHand(pc: WriterPc) {
    pc.WriterCounted? || pc.WriterSkipping? || pc.WriterWriting? || pc.WriterWrote? || pc.WriterWriteFailed?
  }

  predicate InvCounts(s: State) {
    var c := s.c;
    && c.enqueued == |s.h.sent| + N(s, Counted)
    && c.eventEpoch == |s.h.bumped|
    && |s.h.sent| == |s.h.bumped| + N(s, Bumping)
    && c.written + One(s.writer.pc.WriterWrote?) == |s.h.records|
    && c.flushFailures + One(s.writer.pc.WriterFlushCounted?) <= c.sinkFailures
    && c.attempted + c.flushFailures + One(s.writer.pc.WriterFlushCounted?) ==
       c.written + c.sinkFailures + c.droppedDisabled + c.droppedFull + c.droppedClosed
       + c.droppedSinkUnavailable + c.queueDepth + N(s, Uncounted) + One(InHand(s.writer.pc))
  }

  predicate EmitOk(s: State, t: Id, pc: EmitPc) {
    && (pc == EmitLeaving(Enqueued) || pc == EmitDone(Enqueued) ==> t in s.h.bumped)
    && (pc.EmitSent? ==> t in s.h.sent)
  }

  predicate InvLogs(s: State) {
    && (forall e :: e in s.h.bumped ==> e in s.h.sent)
    && (forall t :: t in s.threads && s.threads[t].EmitCall? ==> EmitOk(s, t, s.threads[t].emit))
    && (!s.config.HasSender() ==> s.h.sent == [] && s.queue == [])
  }

  /** The barrier a flush call is responsible for sending, if it leads one. */
  function Leads(th: Thread): Option<BarrierId> {
    if th.EmitCall? then None else
    match th.flush
    case FlushPublishing(_, b) => Some(b)
    case FlushChosen(_, b, true) => Some(b)
    case FlushSending(_, b) => Some(b)
    case FullUnpend(b) => Some(b)
    case FullExpire(b) => Some(b)
    case FullComplete(b) => Some(b)
    case GoneUnpend(b) => Some(b)
    case GoneMark(b) => Some(b)
    case GoneClose(b) => Some(b)
    case GoneSick(b) => Some(b)
    case GoneComplete(b) => Some(b)
    case _ => None
  }

  predicate HoldsLock(th: Thread) {
    th.FlushCall? && (th.flush.FlushLocked? || th.flush.FlushCreating? || th.flush.FlushPublishing?)
  }

  function WriterBarrier(pc: WriterPc): Option<BarrierId> {
    match pc
    case WriterFlushing(b) => Some(b)
    case WriterSinkFlushing(b, _) => Some(b)
    case WriterFlushFailed(b) => Some(b)
    case WriterFlushCounted(b) => Some(b)
    case WriterFlushSickening(b) => Some(b)
    case WriterFinishing(b, _) => Some(b)
    case WriterCompleting(b, _) => Some(b)
    case _ => None
  }

  /** `b` is the newest barrier and still waits for its outcome. */
  predicate Pending(s: State, b: BarrierId) {
    b + 1 == |s.barriers| && s.barriers[b].outcome == None
  }

  predicate InvLock(s: State) {
    forall t :: t in s.threads && HoldsLock(s.threads[t]) ==> s.lock == Some(t)
  }

  predicate InvBarriers(s: State) {
    && Wf(s)
    && s.current == (if s.barriers == [] then None else Some(|s.barriers| - 1))
    && (forall b :: 0 <= b < |s.barriers| - 1 ==> s.barriers[b].outcome.Some?)
    && (forall t :: t in s.threads && s.threads[t].FlushCall? && s.threads[t].flush.FlushCreating? ==>
          forall b :: 0 <= b < |s.barriers| ==> s.barriers[b].outcome.Some?)
  }

  predicate LeadersOk(s: State) {
    forall t :: t in s.threads && Leads(s.threads[t]).Some? ==> LeaderOk(s, Leads(s.threads[t]).value)
  }

  predicate LeaderOk(s: State, b: BarrierId) { Pending(s, b) && s.barriers[b].sentAt == None }

  predicate OneLeader(s: State) {
    forall t, u :: t in s.threads && u in s.threads && Leads(s.threads[t]).Some? && Leads(s.threads[u]).Some? ==> t == u
  }

  predicate FlushesOk(s: State) {
    forall i :: 0 <= i < |s.queue| && s.queue[i].Flush? ==>
      Pending(s, s.queue[i].barrier) && s.barriers[s.queue[i].barrier].sentAt == Some(s.h.consumed + i)
  }

  predicate WriterOk(s: State) {
    WriterBarrier(s.writer.pc).Some? ==>
      && Pending(s, WriterBarrier(s.writer.pc).value)
      && s.barriers[WriterBarrier(s.writer.pc).value].sentAt == Some(s.h.consumed)
      && NoFlush(s.queue)
  }

  /** Whoever leads, queues or handles a barrier has the pending one, and only one of them has it. */
  predicate InvOwner(s: State) {
    LeadersOk(s) && OneLeader(s) && FlushesOk(s) && WriterOk(s)
  }

  /** The barrier is with a leader, in the channel, or with the writer. */
  predicate Held(s: State, b: BarrierId) {
    || Led(s.threads, b)
    || Flush(b) in s.queue
    || WriterBarrier(s.writer.pc) == Some(b)
  }

  predicate Led(threads: map<Id, Thread>, b: BarrierId) {
    exists t :: t in threads && Leads(threads[t]) == Some(b)
  }

  /** Somebody still has the pending barrier, so that nobody waits in vain. */
  predicate InvHeld(s: State) {
    forall b :: 0 <= b < |s.barriers| && s.barriers[b].outcome == None ==> Held(s, b)
  }

  /** The pending flag is being raised or lowered right now. */
  predicate Flagging(th: Thread) {
    th.FlushCall? &&
    (|| th.flush.FlushPublishing? || th.flush.FullExpire? || th.flush.FullComplete? || th.flush.GoneMark?
     || th.flush.GoneClose? || th.flush.GoneSick? || th.flush.GoneComplete?)
  }

  predicate InvPending(s: State) {
    s.c.flushPending <==>
      && s.barriers != [] && s.barriers[|s.barriers| - 1].outcome == None
      && !s.writer.pc.WriterCompleting?
      && forall t :: t in s.threads ==> !Flagging(s.threads[t])
  }

  /** What a barrier's epoch and outcome say about the channel and the sink. */
  predicate BarrierOk(s: State, b: Barrier) {
    && b.epoch <= |s.h.bumped|
    && (b.sentAt.Some? ==>
          && b.sentAt.value <= |s.h.sent|
          && forall e :: e in s.h.bumped[..b.epoch] ==> e in s.h.sent[..b.sentAt.value])
    && (b.outcome == Some(Flushed) ==> b.sentAt.Some? && b.sentAt.value <= s.h.flushedUpTo)
  }

  predicate InvEpochs(s: State) {
    forall b :: 0 <= b < |s.barriers| ==> BarrierOk(s, s.barriers[b])
  }

  predicate InvSink(s: State) {
    && s.h.flushedUpTo <= |s.h.records| <= s.h.consumed <= |s.h.sent|
    && (forall i :: 0 <= i < |s.h.records| ==> s.h.records[i] == Record(i + 1, s.h.sent[i]))
    && SinkOk(s)
  }

  predicate SinkOk(s: State)
    requires s.h.consumed <= |s.h.sent|
  {
    var n, taken := |s.h.records|, s.h.consumed;
    match s.writer.pc
    case WriterReceived(e) =>
      && taken > 0 && e == s.h.sent[taken - 1] && n < taken
      && (s.c.sinkHealthy ==> n == taken - 1 && s.writer.nextSequence == taken)
    case WriterCounted(e) =>
      && taken > 0 && e == s.h.sent[taken - 1] && n < taken
      && (s.c.sinkHealthy ==> n == taken - 1 && s.writer.nextSequence == taken)
    case WriterSkipping(_) => n < taken && !s.c.sinkHealthy
    case WriterWriting(e, q) =>
      && taken > 0 && e == s.h.sent[taken - 1] && n == taken - 1 && q == taken
      && s.writer.nextSequence == taken + 1
    case WriterWriteFailed => n < taken
    case WriterSickening => n < taken
    case WriterSinkFlushing(_, wasHealthy) =>
      && (wasHealthy ==> n == taken)
      && (s.c.sinkHealthy ==> n == taken && s.writer.nextSequence == taken + 1)
    case WriterFlushSickening(_) => true
    case WriterFinishing(_, succeeded) =>
      && (succeeded ==> s.h.flushedUpTo == taken)
      && (s.c.sinkHealthy ==> n == taken && s.writer.nextSequence == taken + 1)
    case WriterCompleting(_, succeeded) =>
      && (succeeded ==> s.h.flushedUpTo == taken)
      && (s.c.sinkHealthy ==> n == taken && s.writer.nextSequence == taken + 1)
    case _ => s.c.sinkHealthy ==> n == taken && s.writer.nextSequence == taken + 1
  }

  /** The epoch a flush call must see covered, once it has loaded it. */
  function Required(pc: FlushPc): Option<nat> {
    match pc
    case FlushLoop(r) => Some(r)
    case FlushLocked(r) => Some(r)
    case FlushCreating(r) => Some(r)
    case FlushPublishing(r, _) => Some(r)
    case FlushChosen(r, _, _) => Some(r)
    case FlushSending(r, _) => Some(r)
    case FlushAwaitOlder(r, _) => Some(r)
    case FlushAwait(r, _) => Some(r)
    case _ => None
  }

  predicate Subset(seen: set<Id>, log: seq<Id>) { forall e :: e in seen ==> e in log }

  /** A close that has seen the guard count at zero and has not given up since. */
  predicate Drained(th: Thread) {
    th.FlushCall? && th.closing &&
    !(|| th.flush.CloseStart? || th.flush.CloseMarked? || th.flush.CloseDraining? || th.flush.FlushExpired?
      || (th.flush.FlushDone? && th.flush.result == TimedOut))
  }

  predicate Quiet(s: State) { s.h.closeRequested && N(s, Guard) == 0 }

  /** The emits a flush call must cover lie below the epoch it requires. */
  predicate SeenOk(s: State, th: Thread)
    requires th.FlushCall?
  {
    && Subset(th.seen, s.h.bumped)
    && (Required(th.flush).Some? ==> RequiresOk(s, th, Required(th.flush).value))
  }

  /** Nothing the call must cover lies above `r`; a close requires everything. */
  predicate RequiresOk(s: State, th: Thread, r: nat)
    requires th.FlushCall?
  {
    r <= |s.h.bumped| && Subset(th.seen, s.h.bumped[..r]) && (th.closing ==> r == |s.h.bumped|)
  }

  /** A call waits for, and returns the outcome of, a barrier that covers what it requires. */
  predicate CoverOk(s: State, th: Thread)
    requires th.FlushCall? && FlushWf(s, th.flush)
  {
    match th.flush
    case FlushPublishing(r, b) => r <= s.barriers[b].epoch
    case FlushChosen(r, b, leader) => leader ==> r <= s.barriers[b].epoch
    case FlushSending(r, b) => r <= s.barriers[b].epoch
    case FlushAwait(r, b) => r <= s.barriers[b].epoch
    case FlushDone(Flushed, r, via) => s.config.enabled ==>
      && via.Some? && s.barriers[via.value].outcome == Some(Flushed) && r <= s.barriers[via.value].epoch
      && RequiresOk(s, th, r)
    case _ => true
  }

  predicate CloseOk(s: State, th: Thread)
    requires th.FlushCall?
  {
    && (th.closing && (th.flush.CloseMarked? || th.flush.CloseDraining?) ==> s.h.closeRequested)
    && (Drained(th) ==> Quiet(s))
  }

  predicate FlushOk(s: State, th: Thread)
    requires th.FlushCall? && FlushWf(s, th.flush)
  {
    SeenOk(s, th) && CoverOk(s, th) && CloseOk(s, th)
  }

  predicate InvFlush(s: State)
    requires Wf(s)
  {
    forall t :: t in s.threads && s.threads[t].FlushCall? ==> FlushOk(s, s.threads[t])
  }

  predicate InGone(th: Thread) {
    match th
    case EmitCall(pc) =>
      || pc.GoneUndoDepth? || pc.GoneUndoEnqueued? || pc.GoneCount? || pc.GoneClosed? || pc.GoneAdmission? || pc.GoneHealth?
    case FlushCall(_, _, pc) => pc.GoneUnpend? || pc.GoneMark? || pc.GoneClose? || pc.GoneSick? || pc.GoneComplete?
  }

  predicate InFull(th: Thread) {
    match th
    case EmitCall(pc) => pc.FullUndoDepth? || pc.FullUndoEnqueued? || pc.FullCount?
    case FlushCall(_, _, pc) => pc.FullUnpend? || pc.FullExpire? || pc.FullComplete?
  }

  /** Calls between the first send attempt and their return need a live sender. */
  predicate NeedsSender(th: Thread) {
    match th
    case EmitCall(pc) => !(pc.EmitStart? || pc.EmitAttempted? || pc.EmitEntering? || pc.EmitDone?)
    case FlushCall(_, _, pc) => Required(pc).Some?
  }

  predicate InvExit(s: State) {
    && (s.handlesDropped ==> forall t :: t in s.threads ==> Returned(s.threads[t]))
    && (s.config.HasSender() && (s.writer.pc.WriterClosing? || s.writer.pc.WriterClosed? || s.writer.pc.WriterExited?) ==>
          s.handlesDropped)
    && (forall t :: t in s.threads ==> !InGone(s.threads[t]))
    && (forall t :: t in s.threads && NeedsSender(s.threads[t]) ==> s.config.HasSender())
    && (!s.config.HasSender() ==> s.writer.pc.WriterExited?)
  }

  predicate InvNoFull(s: State) {
    s.config.SlotReserved() ==> forall t :: t in s.threads ==> !InFull(s.threads[t])
  }

  predicate Inv(s: State) {
    && InvAdmission(s) && InvQueue(s) && InvDepth(s) && InvCounts(s) && InvLogs(s) && InvLock(s)
    && InvBarriers(s) && InvOwner(s) && InvHeld(s) && InvPending(s) && InvEpochs(s) && InvSink(s)
    && InvFlush(s) && InvExit(s) && InvNoFull(s)
  }
}
