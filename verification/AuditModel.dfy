/**
 The bounded audit dispatcher as a labelled transition system.

 Every step below is one atomic operation of the dispatcher: a load, store, add or
 compare-exchange on a shared counter, one lock acquisition, one channel operation, or one
 call into the sink.  Calls of `emit`, `flush_with_timeout` and `close_and_flush` are threads
 with program counters; the writer thread has its own.  Atomics are sequentially consistent
 and a deadline may pass at any point where the code reads the clock.
 */
module AuditModel {
  import opened Wrappers

  type Id = nat
  type BarrierId = nat

  const USIZE_MODULUS: nat := 0x1_0000_0000_0000_0000
  const USIZE_MAX: nat := USIZE_MODULUS - 1
  const ADMISSION_CLOSED: nat := 0x8000_0000_0000_0000
  const ACTIVE_EMITTERS_MASK: nat := ADMISSION_CLOSED - 1

  datatype EmitOutcome = Enqueued | DroppedDisabled | DroppedFull | DroppedClosed | DroppedSinkUnavailable
  datatype FlushOutcome = Flushed | TimedOut | Closed | SinkFailed

  /** `writerStarted` is false when the writer thread could not be spawned. */
  datatype Config = Config(enabled: bool, writerStarted: bool, queueCapacity: nat) {
    predicate HasSender() { enabled && writerStarted }
    function EventCapacity(): nat { if queueCapacity == 0 then 1 else queueCapacity }
    /** One physical slot more than the event capacity, saturating at the word size. */
    function ChannelCapacity(): nat {
      if EventCapacity() < USIZE_MAX then EventCapacity() + 1 else USIZE_MAX
    }
    /** The channel really has the extra slot, or there is no channel. */
    predicate SlotReserved() { EventCapacity() < USIZE_MAX || !HasSender() }
  }

  datatype Counters = Counters(
    attempted: nat, enqueued: nat, written: nat,
    droppedDisabled: nat, droppedFull: nat, droppedClosed: nat, droppedSinkUnavailable: nat,
    sinkFailures: nat, flushFailures: nat, flushTimeouts: nat,
    eventEpoch: nat, admission: nat, queueDepth: nat,
    flushPending: bool, sinkHealthy: bool, closed: bool)

  datatype Command = Event(event: Id) | Flush(barrier: BarrierId)

  /** `sentAt` remembers how many events had been sent when the flush command was. */
  datatype Barrier = Barrier(epoch: nat, outcome: Option<FlushOutcome>, sentAt: Option<nat>)

  datatype EmitPc =
    | EmitStart
    | EmitAttempted
    | EmitEntering(word: nat)
    | EmitAdmitted
    | EmitUnhealthy
    | EmitReserving
    | EmitFull
    | EmitReserved
    | EmitSending
    | EmitSent
    // the channel was full
    | FullUndoDepth | FullUndoEnqueued | FullCount
    // the receiver was gone
    | GoneUndoDepth | GoneUndoEnqueued | GoneCount | GoneClosed | GoneAdmission | GoneHealth
    | EmitLeaving(outcome: EmitOutcome)
    | EmitDone(outcome: EmitOutcome)

  datatype FlushPc =
    | CloseStart | CloseMarked | CloseDraining | CloseReady
    | FlushStart
    | FlushLoop(required: nat)
    | FlushLocked(required: nat)
    | FlushCreating(required: nat)
    | FlushPublishing(required: nat, barrier: BarrierId)
    | FlushChosen(required: nat, barrier: BarrierId, leader: bool)
    | FlushSending(required: nat, barrier: BarrierId)
    | FlushAwaitOlder(required: nat, barrier: BarrierId)
    | FlushAwait(required: nat, barrier: BarrierId)
    // the channel stayed full until the deadline
    | FullUnpend(barrier: BarrierId) | FullExpire(barrier: BarrierId) | FullComplete(barrier: BarrierId)
    // the receiver was gone
    | GoneUnpend(barrier: BarrierId) | GoneMark(barrier: BarrierId) | GoneClose(barrier: BarrierId)
    | GoneSick(barrier: BarrierId) | GoneComplete(barrier: BarrierId)
    | FlushExpired
    | FlushDone(result: FlushOutcome, required: nat, via: Option<BarrierId>)

  /** `seen` is the set of emits that had returned `Enqueued` when this call began. */
  datatype Thread =
    | EmitCall(emit: EmitPc)
    | FlushCall(closing: bool, seen: set<Id>, flush: FlushPc)

  datatype WriterPc =
    | WriterIdle
    | WriterReceived(event: Id)
    | WriterCounted(event: Id)
    | WriterSkipping(event: Id)
    | WriterWriting(event: Id, sequence: nat)
    | WriterWrote
    | WriterWriteFailed
    | WriterSickening
    | WriterFlushing(barrier: BarrierId)
    | WriterSinkFlushing(barrier: BarrierId, wasHealthy: bool)
    | WriterFlushFailed(barrier: BarrierId)
    | WriterFlushCounted(barrier: BarrierId)
    | WriterFlushSickening(barrier: BarrierId)
    | WriterFinishing(barrier: BarrierId, succeeded: bool)
    | WriterCompleting(barrier: BarrierId, succeeded: bool)
    | WriterClosing
    | WriterClosed
    | WriterExited

  datatype Writer = Writer(pc: WriterPc, batchFailed: bool, nextSequence: nat)

  /** What the sink holds: one record per successful write. */
  datatype Record = Record(sequence: nat, event: Id)

  /**
   History of a run, never read by a step.
   `sent` lists the events in channel order, `bumped` in the order their epoch was counted;
   `consumed` counts events taken off the channel; `flushedUpTo` is how many records had been
   written at the last successful sink flush; `skipped` counts events the writer took and dropped
   unwritten; `closeRequested` says the closed bit was ever set.
   */
  datatype History = History(
    sent: seq<Id>, bumped: seq<Id>, consumed: nat,
    records: seq<Record>, flushedUpTo: nat, skipped: nat, closeRequested: bool)

  datatype State = State(
    config: Config,
    c: Counters,
    queue: seq<Command>,
    handlesDropped: bool,
    barriers: seq<Barrier>,
    current: Option<BarrierId>,
    lock: Option<Id>,
    threads: map<Id, Thread>,
    writer: Writer,
    h: History)

  datatype Step =
    | BeginEmit(id: Id)
    | BeginFlush(id: Id, closing: bool)
    | EmitStep(id: Id, spurious: bool)
    | FlushStep(id: Id, expired: bool)
    | WriterStep(ok: bool)
    | DropHandles

  // ---------------------------------------------------------------- admission word

  predicate IsClosed(word: nat) { word >= ADMISSION_CLOSED }
  function Active(word: nat): nat { word % ADMISSION_CLOSED }
  function OrClosed(word: nat): nat { if IsClosed(word) then word else word + ADMISSION_CLOSED }
  function WrappingDecrement(word: nat): nat { if word == 0 then USIZE_MAX else word - 1 }

  // ---------------------------------------------------------------- initial state

  predicate Init(s: State) {
    && s.config.queueCapacity <= USIZE_MAX
    && s.c == Counters(0, 0, 0, 0, 0, 0, 0, 0, 0, 0, 0,
                       if s.config.HasSender() then 0 else ADMISSION_CLOSED, 0, false,
                       s.config.HasSender() || !s.config.enabled,
                       s.config.enabled && !s.config.writerStarted)
    && s.queue == [] && !s.handlesDropped && s.barriers == [] && s.current == None && s.lock == None
    && s.threads == map[]
    && s.writer == Writer(if s.config.HasSender() then WriterIdle else WriterExited, false, 1)
    && s.h == History([], [], 0, [], 0, 0, !s.config.HasSender())
  }

  // ---------------------------------------------------------------- steps

  predicate Returned(th: Thread) {
    match th
    case EmitCall(pc) => pc.EmitDone?
    case FlushCall(_, _, pc) => pc.FlushDone?
  }

  function EnqueuedCalls(threads: map<Id, Thread>): set<Id> {
    set t | t in threads && threads[t] == EmitCall(EmitDone(Enqueued))
  }

  predicate Refused(word: nat) {
    IsClosed(word) || Active(word) == ACTIVE_EMITTERS_MASK
  }

  predicate ReceiverGone(s: State) { s.writer.pc == WriterExited }
  predicate ChannelFull(s: State) { |s.queue| >= s.config.ChannelCapacity() }

  // Each step is given by where its program counter goes and by what it does to each piece
  // of shared state.

  /** Control flow of `emit`; `spurious` lets the weak compare-exchange fail. */
  function EmitNext(s: State, pc: EmitPc, spurious: bool): EmitPc {
    match pc
    case EmitStart => EmitAttempted
    case EmitAttempted => if s.config.enabled then EmitEntering(s.c.admission) else EmitDone(DroppedDisabled)
    case EmitEntering(word) =>
      if Refused(word) then EmitDone(DroppedClosed)
      else if EmitEnters(s, pc, spurious) then EmitAdmitted
      else EmitEntering(s.c.admission)
    case EmitAdmitted =>
      if !s.config.HasSender() then EmitLeaving(DroppedClosed)
      else if s.c.sinkHealthy then EmitReserving else EmitUnhealthy
    case EmitUnhealthy => EmitLeaving(DroppedSinkUnavailable)
    case EmitReserving => if s.c.queueDepth < s.config.EventCapacity() then EmitReserved else EmitFull
    case EmitFull => EmitLeaving(DroppedFull)
    case EmitReserved => EmitSending
    case EmitSending =>
      if ReceiverGone(s) then GoneUndoDepth else if ChannelFull(s) then FullUndoDepth else EmitSent
    case EmitSent => EmitLeaving(Enqueued)
    case FullUndoDepth => FullUndoEnqueued
    case FullUndoEnqueued => FullCount
    case FullCount => EmitLeaving(DroppedFull)
    case GoneUndoDepth => GoneUndoEnqueued
    case GoneUndoEnqueued => GoneCount
    case GoneCount => GoneClosed
    case GoneClosed => GoneAdmission
    case GoneAdmission => GoneHealth
    case GoneHealth => EmitLeaving(DroppedClosed)
    case EmitLeaving(o) => EmitDone(o)
    case EmitDone(_) => pc
  }

  /** The compare-exchange on the admission word succeeds. */
  predicate EmitEnters(s: State, pc: EmitPc, spurious: bool) {
    pc.EmitEntering? && !Refused(pc.word) && s.c.admission == pc.word && !spurious
  }

  function EmitCounters(s: State, pc: EmitPc, spurious: bool): Counters {
    var c := s.c;
    match pc
    case EmitStart => c.(attempted := c.attempted + 1)
    case EmitAttempted => if s.config.enabled then c else c.(droppedDisabled := c.droppedDisabled + 1)
    case EmitEntering(word) =>
      if Refused(word) then c.(droppedClosed := c.droppedClosed + 1)
      else if EmitEnters(s, pc, spurious) then c.(admission := c.admission + 1)
      else c
    case EmitAdmitted => if s.config.HasSender() then c else c.(droppedClosed := c.droppedClosed + 1)
    case EmitUnhealthy => c.(droppedSinkUnavailable := c.droppedSinkUnavailable + 1)
    case EmitReserving =>
      if c.queueDepth < s.config.EventCapacity() then c.(queueDepth := c.queueDepth + 1) else c
    case EmitFull => c.(droppedFull := c.droppedFull + 1)
    case EmitReserved => c.(enqueued := c.enqueued + 1)
    case EmitSent => c.(eventEpoch := c.eventEpoch + 1)
    case FullUndoDepth => c.(queueDepth := WrappingDecrement(c.queueDepth))
    case FullUndoEnqueued => c.(enqueued := WrappingDecrement(c.enqueued))
    case FullCount => c.(droppedFull := c.droppedFull + 1)
    case GoneUndoDepth => c.(queueDepth := WrappingDecrement(c.queueDepth))
    case GoneUndoEnqueued => c.(enqueued := WrappingDecrement(c.enqueued))
    case GoneCount => c.(droppedClosed := c.droppedClosed + 1)
    case GoneClosed => c.(closed := true)
    case GoneAdmission => c.(admission := OrClosed(c.admission))
    case GoneHealth => c.(sinkHealthy := false)
    case EmitLeaving(_) => c.(admission := WrappingDecrement(c.admission))
    case _ => c
  }

  predicate EmitSends(s: State, pc: EmitPc) {
    pc.EmitSending? && !ReceiverGone(s) && !ChannelFull(s)
  }

  function EmitHistory(s: State, t: Id, pc: EmitPc): History {
    if EmitSends(s, pc) then s.h.(sent := s.h.sent + [t])
    else if pc.EmitSent? then s.h.(bumped := s.h.bumped + [t])
    else if pc.GoneAdmission? then s.h.(closeRequested := true)
    else s.h
  }

  /** One atomic operation of `emit`. */
  function DoEmit(s: State, t: Id, pc: EmitPc, spurious: bool): State {
    s.(c := EmitCounters(s, pc, spurious),
       queue := if EmitSends(s, pc) then s.queue + [Event(t)] else s.queue,
       h := EmitHistory(s, t, pc),
       threads := s.threads[t := EmitCall(EmitNext(s, pc, spurious))])
  }

  /** A flush call waits for the lock, or for an outcome while its deadline has not passed. */
  predicate FlushBlocked(s: State, pc: FlushPc, expired: bool) {
    match pc
    case FlushLoop(_) => !expired && s.lock != None
    case FlushAwaitOlder(_, b) => !expired && b < |s.barriers| && s.barriers[b].outcome == None
    case FlushAwait(_, b) => !expired && b < |s.barriers| && s.barriers[b].outcome == None
    case FlushDone(_, _, _) => true
    case _ => false
  }

  /** The barrier a flush call refers to. */
  function BarrierOf(pc: FlushPc): Option<BarrierId> {
    match pc
    case FlushPublishing(_, b) => Some(b)
    case FlushChosen(_, b, _) => Some(b)
    case FlushSending(_, b) => Some(b)
    case FlushAwaitOlder(_, b) => Some(b)
    case FlushAwait(_, b) => Some(b)
    case FullUnpend(b) => Some(b)
    case FullExpire(b) => Some(b)
    case FullComplete(b) => Some(b)
    case GoneUnpend(b) => Some(b)
    case GoneMark(b) => Some(b)
    case GoneClose(b) => Some(b)
    case GoneSick(b) => Some(b)
    case GoneComplete(b) => Some(b)
    case FlushDone(_, _, via) => via
    case _ => None
  }

  /** Barrier names in use are always allocated; see `Wf`. */
  predicate FlushWf(s: State, pc: FlushPc) {
    BarrierOf(pc).Some? ==> BarrierOf(pc).value < |s.barriers|
  }

  predicate CurrentWf(s: State) { s.current.Some? ==> s.current.value < |s.barriers| }

  /** The barrier under the lock still waits for its outcome, so that a call may join it. */
  predicate CanJoin(s: State)
    requires CurrentWf(s)
  {
    s.current.Some? && s.barriers[s.current.value].outcome == None
  }

  /** Control flow of `flush_with_timeout` and `close_and_flush`. */
  function FlushNext(s: State, pc: FlushPc, expired: bool): FlushPc
    requires FlushWf(s, pc) && CurrentWf(s)
  {
    match pc
    case CloseStart => if s.config.enabled then CloseMarked else FlushDone(Flushed, 0, None)
    case CloseMarked => CloseDraining
    case CloseDraining =>
      if Active(s.c.admission) == 0 then CloseReady else if expired then FlushExpired else CloseDraining
    case CloseReady => if expired then FlushExpired else FlushStart
    case FlushStart =>
      if !s.config.enabled then FlushDone(Flushed, 0, None)
      else if !s.config.HasSender() then FlushDone(Closed, 0, None)
      else FlushLoop(s.c.eventEpoch)
    case FlushLoop(r) => if expired then FlushExpired else FlushLocked(r)
    case FlushLocked(r) => if CanJoin(s) then FlushChosen(r, s.current.value, false) else FlushCreating(r)
    case FlushCreating(r) => FlushPublishing(r, |s.barriers|)
    case FlushPublishing(r, b) => FlushChosen(r, b, true)
    case FlushChosen(r, b, leader) =>
      if s.barriers[b].epoch < r then FlushAwaitOlder(r, b)
      else if leader then FlushSending(r, b) else FlushAwait(r, b)
    case FlushSending(r, b) =>
      if ReceiverGone(s) then GoneUnpend(b)
      else if !ChannelFull(s) then FlushAwait(r, b)
      else if expired then FullUnpend(b) else pc
    case FlushAwaitOlder(r, b) =>
      (match s.barriers[b].outcome
       case None => FlushExpired
       case Some(TimedOut) => FlushExpired
       case Some(Closed) => FlushDone(Closed, r, Some(b))
       case Some(_) => FlushLoop(r))
    case FlushAwait(r, b) =>
      (match s.barriers[b].outcome
       case None => FlushExpired
       case Some(TimedOut) => FlushExpired
       case Some(o) => FlushDone(o, r, Some(b)))
    case FullUnpend(b) => FullExpire(b)
    case FullExpire(b) => FullComplete(b)
    case FullComplete(b) => FlushDone(TimedOut, 0, Some(b))
    case GoneUnpend(b) => GoneMark(b)
    case GoneMark(b) => GoneClose(b)
    case GoneClose(b) => GoneSick(b)
    case GoneSick(b) => GoneComplete(b)
    case GoneComplete(b) => FlushDone(Closed, 0, Some(b))
    case FlushExpired => FlushDone(TimedOut, 0, None)
    case FlushDone(_, _, _) => pc
  }

  /** The call sets the closed bit of the admission word. */
  predicate FlushCloses(s: State, pc: FlushPc) {
    (pc.CloseStart? && s.config.enabled) || pc.GoneClose?
  }

  function FlushCounters(s: State, pc: FlushPc): Counters {
    var c := s.c;
    if FlushCloses(s, pc) then c.(admission := OrClosed(c.admission))
    else
      match pc
      case CloseMarked => c.(closed := true)
      case FlushPublishing(_, _) => c.(flushPending := true)
      case FullUnpend(_) => c.(flushPending := false)
      case FullExpire(_) => c.(flushTimeouts := c.flushTimeouts + 1)
      case GoneUnpend(_) => c.(flushPending := false)
      case GoneMark(_) => c.(closed := true)
      case GoneSick(_) => c.(sinkHealthy := false)
      case FlushExpired => c.(flushTimeouts := c.flushTimeouts + 1)
      case _ => c
  }

  predicate FlushSends(s: State, pc: FlushPc) {
    pc.FlushSending? && !ReceiverGone(s) && !ChannelFull(s)
  }

  /** `FlushBarrier::complete`: the first outcome stays. */
  function Complete(barriers: seq<Barrier>, b: BarrierId, o: FlushOutcome): seq<Barrier>
    requires b < |barriers|
  {
    if barriers[b].outcome == None then barriers[b := barriers[b].(outcome := Some(o))] else barriers
  }

  function FlushBarriers(s: State, pc: FlushPc): seq<Barrier>
    requires FlushWf(s, pc)
  {
    match pc
    case FlushCreating(_) => s.barriers + [Barrier(s.c.eventEpoch, None, None)]
    case FlushSending(_, b) =>
      if FlushSends(s, pc) then s.barriers[b := s.barriers[b].(sentAt := Some(|s.h.sent|))] else s.barriers
    case FullComplete(b) => Complete(s.barriers, b, TimedOut)
    case GoneComplete(b) => Complete(s.barriers, b, Closed)
    case _ => s.barriers
  }

  function FlushLock(s: State, t: Id, pc: FlushPc, expired: bool): Option<Id>
    requires CurrentWf(s)
  {
    match pc
    case FlushLoop(_) => if expired then s.lock else Some(t)
    case FlushLocked(_) => if CanJoin(s) then None else s.lock
    case FlushPublishing(_, _) => None
    case _ => s.lock
  }

  /** One atomic operation of `flush_with_timeout` or `close_and_flush`. */
  function DoFlush(s: State, t: Id, pc: FlushPc, expired: bool): State
    requires t in s.threads && s.threads[t].FlushCall? && FlushWf(s, pc) && CurrentWf(s)
  {
    s.(c := FlushCounters(s, pc),
       queue := if FlushSends(s, pc) then s.queue + [Flush(pc.barrier)] else s.queue,
       barriers := FlushBarriers(s, pc),
       current := if pc.FlushCreating? then Some(|s.barriers|) else s.current,
       lock := FlushLock(s, t, pc, expired),
       h := if FlushCloses(s, pc) then s.h.(closeRequested := true) else s.h,
       threads := s.threads[t := s.threads[t].(flush := FlushNext(s, pc, expired))])
  }

  predicate WriterWf(s: State) {
    s.writer.pc.WriterCompleting? ==> s.writer.pc.barrier < |s.barriers|
  }

  predicate WriterBlocked(s: State) {
    || (s.writer.pc.WriterIdle? && s.queue == [] && !s.handlesDropped)
    || s.writer.pc.WriterExited?
  }

  /** Control flow of `writer_loop`; `ok` is the sink's answer, a panic being `false`. */
  function WriterNext(s: State, ok: bool): WriterPc {
    match s.writer.pc
    case WriterIdle =>
      if s.queue == [] then WriterClosing
      else if s.queue[0].Event? then WriterReceived(s.queue[0].event)
      else WriterFlushing(s.queue[0].barrier)
    case WriterReceived(e) => WriterCounted(e)
    case WriterCounted(e) =>
      if s.c.sinkHealthy then WriterWriting(e, s.writer.nextSequence) else WriterSkipping(e)
    case WriterSkipping(_) => WriterIdle
    case WriterWriting(_, _) => if ok then WriterWrote else WriterWriteFailed
    case WriterWrote => WriterIdle
    case WriterWriteFailed => WriterSickening
    case WriterSickening => WriterIdle
    case WriterFlushing(b) => WriterSinkFlushing(b, s.c.sinkHealthy)
    case WriterSinkFlushing(b, wasHealthy) =>
      if ok then WriterFinishing(b, wasHealthy && !s.writer.batchFailed) else WriterFlushFailed(b)
    case WriterFlushFailed(b) => WriterFlushCounted(b)
    case WriterFlushCounted(b) => WriterFlushSickening(b)
    case WriterFlushSickening(b) => WriterFinishing(b, false)
    case WriterFinishing(b, succeeded) => WriterCompleting(b, succeeded)
    case WriterCompleting(_, _) => WriterIdle
    case WriterClosing => WriterClosed
    case WriterClosed => WriterExited
    case WriterExited => WriterExited
  }

  function WriterCounters(s: State): Counters {
    var c := s.c;
    match s.writer.pc
    case WriterReceived(_) => c.(queueDepth := WrappingDecrement(c.queueDepth))
    case WriterSkipping(_) => c.(droppedSinkUnavailable := c.droppedSinkUnavailable + 1)
    case WriterWrote => c.(written := c.written + 1)
    case WriterWriteFailed => c.(sinkFailures := c.sinkFailures + 1)
    case WriterSickening => c.(sinkHealthy := false)
    case WriterFlushFailed(_) => c.(sinkFailures := c.sinkFailures + 1)
    case WriterFlushCounted(_) => c.(flushFailures := c.flushFailures + 1)
    case WriterFlushSickening(_) => c.(sinkHealthy := false)
    case WriterFinishing(_, _) => c.(flushPending := false)
    case WriterClosing => c.(admission := OrClosed(c.admission))
    case WriterClosed => c.(closed := true)
    case _ => c
  }

  /** The local variables `batch_failed` and `next_sequence`. */
  function WriterLocals(s: State, ok: bool): Writer {
    var w := s.writer;
    match w.pc
    case WriterCounted(_) =>
      if s.c.sinkHealthy then w.(nextSequence := w.nextSequence + 1) else w.(batchFailed := true)
    case WriterWriting(_, _) => if ok then w else w.(batchFailed := true)
    case WriterSinkFlushing(_, _) => if ok then w.(batchFailed := false) else w
    case WriterFlushSickening(_) => w.(batchFailed := false)
    case _ => w
  }

  function WriterHistory(s: State, ok: bool): History {
    match s.writer.pc
    case WriterIdle =>
      if s.queue != [] && s.queue[0].Event? then s.h.(consumed := s.h.consumed + 1) else s.h
    case WriterSkipping(_) => s.h.(skipped := s.h.skipped + 1)
    case WriterWriting(e, n) => if ok then s.h.(records := s.h.records + [Record(n, e)]) else s.h
    case WriterSinkFlushing(_, _) => if ok then s.h.(flushedUpTo := |s.h.records|) else s.h
    case WriterClosing => s.h.(closeRequested := true)
    case _ => s.h
  }

  /** One atomic operation of `writer_loop`. */
  function DoWriter(s: State, ok: bool): State
    requires WriterWf(s)
  {
    s.(c := WriterCounters(s),
       queue := if s.writer.pc.WriterIdle? && s.queue != [] then s.queue[1..] else s.queue,
       barriers := if s.writer.pc.WriterCompleting?
                   then Complete(s.barriers, s.writer.pc.barrier, if s.writer.pc.succeeded then Flushed else SinkFailed)
                   else s.barriers,
       h := WriterHistory(s, ok),
       writer := WriterLocals(s, ok).(pc := WriterNext(s, ok)))
  }

  // ---------------------------------------------------------------- transition system

  /** Every barrier name in use is allocated, so that every step is defined. */
  predicate Wf(s: State) {
    && CurrentWf(s)
    && WriterWf(s)
    && forall t :: t in s.threads && s.threads[t].FlushCall? ==> FlushWf(s, s.threads[t].flush)
  }

  predicate Enabled(s: State, step: Step) {
    match step
    case BeginEmit(t) => t !in s.threads && !s.handlesDropped
    case BeginFlush(t, _) => t !in s.threads && !s.handlesDropped
    case EmitStep(t, _) => t in s.threads && s.threads[t].EmitCall? && !Returned(s.threads[t])
    case FlushStep(t, expired) =>
      t in s.threads && s.threads[t].FlushCall? && !FlushBlocked(s, s.threads[t].flush, expired)
    case WriterStep(_) => !WriterBlocked(s)
    case DropHandles => !s.handlesDropped && forall t :: t in s.threads ==> Returned(s.threads[t])
  }

  function Apply(s: State, step: Step): State
    requires Wf(s) && Enabled(s, step)
  {
    match step
    case BeginEmit(t) => s.(threads := s.threads[t := EmitCall(EmitStart)])
    case BeginFlush(t, closing) =>
      s.(threads := s.threads[t := FlushCall(closing, EnqueuedCalls(s.threads),
                                             if closing then CloseStart else FlushStart)])
    case EmitStep(t, spurious) => DoEmit(s, t, s.threads[t].emit, spurious)
    case FlushStep(t, expired) => DoFlush(s, t, s.threads[t].flush, expired)
    case WriterStep(ok) => DoWriter(s, ok)
    case DropHandles => s.(handlesDropped := true)
  }

  /** A run: `states[i + 1]` follows `states[i]` by `steps[i]`, from an initial state. */
  ghost predicate IsRun(states: seq<State>, steps: seq<Step>) {
    && |states| == |steps| + 1
    && Init(states[0])
    && forall i :: 0 <= i < |steps| ==> StepAt(states, steps, i)
  }

  ghost predicate StepAt(states: seq<State>, steps: seq<Step>, i: nat)
    requires |states| == |steps| + 1 && i < |steps|
  {
    Wf(states[i]) && Enabled(states[i], steps[i]) && states[i + 1] == Apply(states[i], steps[i])
  }
}
