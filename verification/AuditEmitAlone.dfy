/** An emit that nobody disturbs does in one go what its outcome says. */
module AuditEmitAlone {
  import opened Wrappers
  import opened AuditModel
  import opened AuditInvariants
  import opened AuditProgress
  import Emit = AuditEmitSteps
  import AuditTheorems

  // ---------------------------------------------------------------- what the whole call does

  /** The first reason to drop the event, if there is one. */
  function Verdict(s: State): EmitOutcome {
    if !s.config.enabled then DroppedDisabled
    else if IsClosed(s.c.admission) || Active(s.c.admission) == ACTIVE_EMITTERS_MASK then DroppedClosed
    else if !s.c.sinkHealthy then DroppedSinkUnavailable
    else if s.c.queueDepth >= s.config.EventCapacity() || |s.queue| >= s.config.ChannelCapacity() then DroppedFull
    else Enqueued
  }

  function Tallied(c: Counters, o: EmitOutcome): Counters {
    match o
    case Enqueued => c.(enqueued := c.enqueued + 1, queueDepth := c.queueDepth + 1, eventEpoch := c.eventEpoch + 1)
    case DroppedDisabled => c.(droppedDisabled := c.droppedDisabled + 1)
    case DroppedFull => c.(droppedFull := c.droppedFull + 1)
    case DroppedClosed => c.(droppedClosed := c.droppedClosed + 1)
    case DroppedSinkUnavailable => c.(droppedSinkUnavailable := c.droppedSinkUnavailable + 1)
  }

  /** One attempt, counted once under its outcome; an accepted event is last in the channel. */
  function EmittedAs(s: State, t: Id, o: EmitOutcome): State {
    s.(c := Tallied(s.c.(attempted := s.c.attempted + 1), o),
       queue := if o.Enqueued? then s.queue + [Event(t)] else s.queue,
       h := if o.Enqueued? then s.h.(sent := s.h.sent + [t], bumped := s.h.bumped + [t]) else s.h,
       threads := s.threads[t := EmitCall(EmitDone(o))])
  }

  // ---------------------------------------------------------------- on the way

  predicate InChannel(pc: EmitPc) { pc.EmitSent? || pc == EmitLeaving(Enqueued) || pc == EmitDone(Enqueued) }

  function At(s: State, t: Id, pc: EmitPc, c: Counters): State {
    var sent, bumped := InChannel(pc), InChannel(pc) && !pc.EmitSent?;
    s.(c := c,
       queue := if sent then s.queue + [Event(t)] else s.queue,
       h := s.h.(sent := if sent then s.h.sent + [t] else s.h.sent, bumped := if bumped then s.h.bumped + [t] else s.h.bumped),
       threads := s.threads[t := EmitCall(pc)])
  }

  /** The counters while the call is at `pc`. */
  function Midway(c: Counters, pc: EmitPc): Counters {
    var begun := c.(attempted := c.attempted + 1);
    var guarded := begun.(admission := c.admission + 1);
    match pc
    case EmitStart => c
    case EmitAttempted => begun
    case EmitEntering(_) => begun
    case EmitReserved => guarded.(queueDepth := c.queueDepth + 1)
    case EmitSending => guarded.(queueDepth := c.queueDepth + 1, enqueued := c.enqueued + 1)
    case EmitSent => guarded.(queueDepth := c.queueDepth + 1, enqueued := c.enqueued + 1)
    case FullUndoDepth => guarded.(queueDepth := c.queueDepth + 1, enqueued := c.enqueued + 1)
    case FullUndoEnqueued => guarded.(enqueued := c.enqueued + 1)
    case EmitLeaving(o) => Tallied(guarded, o)
    case EmitDone(o) => Tallied(begun, o)
    case _ => guarded
  }

  /** The places an emit with this verdict passes. */
  predicate OnTheWay(s: State, pc: EmitPc) {
    var o := Verdict(s);
    var open := !o.DroppedDisabled? && !o.DroppedClosed?;
    var room := s.c.queueDepth < s.config.EventCapacity();
    match pc
    case EmitStart => true
    case EmitAttempted => true
    case EmitEntering(word) => !o.DroppedDisabled? && word == s.c.admission
    case EmitAdmitted => open
    case EmitUnhealthy => o.DroppedSinkUnavailable?
    case EmitReserving => o.DroppedFull? || o.Enqueued?
    case EmitFull => o.DroppedFull? && !room
    case EmitReserved => (o.DroppedFull? || o.Enqueued?) && room
    case EmitSending => (o.DroppedFull? || o.Enqueued?) && room
    case EmitSent => o.Enqueued?
    case FullUndoDepth => o.DroppedFull?
    case FullUndoEnqueued => o.DroppedFull?
    case FullCount => o.DroppedFull?
    case EmitLeaving(q) => open && q == o
    case _ => false
  }

  function Left(pc: EmitPc): nat {
    match pc
    case EmitStart => 12 case EmitAttempted => 11 case EmitEntering(_) => 10 case EmitAdmitted => 9 case EmitReserving => 8
    case EmitReserved => 7 case EmitSending => 6 case FullUndoDepth => 5 case FullUndoEnqueued => 4 case FullCount => 3
    case EmitSent => 2 case EmitUnhealthy => 2 case EmitFull => 2 case EmitLeaving(_) => 1
    case _ => 0
  }

  /** What the other calls leave an emit to find. */
  predicate Undisturbed(s: State) {
    (s.config.HasSender() || !s.config.enabled || IsClosed(s.c.admission)) && !(s.config.HasSender() && ReceiverGone(s))
  }

  /** The state `m` in which the call is at `pc`, as far as the call can see. */
  predicate Sees(s: State, m: State, pc: EmitPc) {
    m.config == s.config && m.writer == s.writer && m.c == Midway(s.c, pc) && (pc.EmitSending? ==> m.queue == s.queue)
  }

  lemma GoesOnward(s: State, m: State, pc: EmitPc)
    requires Undisturbed(s) && OnTheWay(s, pc) && Sees(s, m, pc)
    ensures var next := EmitNext(m, pc, false);
      && (OnTheWay(s, next) || next == EmitDone(Verdict(s))) && Left(next) < Left(pc)
      && (EmitSends(m, pc) <==> pc.EmitSending? && next.EmitSent?)
      && (InChannel(next) <==> InChannel(pc) || EmitSends(m, pc))
  {
  }

  predicate Outside(pc: EmitPc) { pc.EmitStart? || pc.EmitAttempted? || pc.EmitEntering? }

  predicate Undoing(pc: EmitPc) { pc.FullUndoDepth? || pc.FullUndoEnqueued? || pc.FullCount? || pc.EmitLeaving? }

  lemma CountsOutside(s: State, m: State, pc: EmitPc)
    requires Undisturbed(s) && OnTheWay(s, pc) && Sees(s, m, pc) && Outside(pc)
    ensures EmitCounters(m, pc, false) == Midway(s.c, EmitNext(m, pc, false))
  {
  }

  lemma CountsUndoing(s: State, m: State, pc: EmitPc)
    requires Undisturbed(s) && OnTheWay(s, pc) && Sees(s, m, pc) && Undoing(pc)
    ensures EmitCounters(m, pc, false) == Midway(s.c, EmitNext(m, pc, false))
  {
  }

  lemma CountsInside(s: State, m: State, pc: EmitPc)
    requires Undisturbed(s) && OnTheWay(s, pc) && Sees(s, m, pc) && !Outside(pc) && !Undoing(pc)
    ensures EmitCounters(m, pc, false) == Midway(s.c, EmitNext(m, pc, false))
  {
  }

  /** The event enters the channel, and the two logs, exactly where the call passes. */
  lemma SendsOnward(s: State, t: Id, pc: EmitPc, m: State)
    requires m == At(s, t, pc, m.c)
    requires EmitSends(m, pc) ==> pc.EmitSending? && EmitNext(m, pc, false).EmitSent?
    requires InChannel(EmitNext(m, pc, false)) <==> InChannel(pc) || EmitSends(m, pc)
    requires !pc.EmitDone? && !pc.GoneAdmission? && !EmitNext(m, pc, false).GoneUndoDepth?
    ensures DoEmit(m, t, pc, false) == At(s, t, EmitNext(m, pc, false), EmitCounters(m, pc, false))
  {
    var m', goal := DoEmit(m, t, pc, false), At(s, t, EmitNext(m, pc, false), EmitCounters(m, pc, false));
    assert m'.threads == goal.threads;
    assert m'.queue == goal.queue;
    assert m'.h == goal.h;
  }

  lemma StepsOnward(s: State, t: Id, pc: EmitPc) returns (next: EmitPc)
    requires Undisturbed(s) && OnTheWay(s, pc)
    ensures OnTheWay(s, next) || next == EmitDone(Verdict(s))
    ensures Left(next) < Left(pc)
    ensures DoEmit(At(s, t, pc, Midway(s.c, pc)), t, pc, false) == At(s, t, next, Midway(s.c, next))
  {
    var m := At(s, t, pc, Midway(s.c, pc));
    GoesOnward(s, m, pc);
    if Outside(pc) {
      CountsOutside(s, m, pc);
    } else if Undoing(pc) {
      CountsUndoing(s, m, pc);
    } else {
      CountsInside(s, m, pc);
    }
    next := EmitNext(m, pc, false);
    SendsOnward(s, t, pc, m);
  }

  lemma AtIsWf(s: State, t: Id, pc: EmitPc, c: Counters)
    requires Wf(s) && t in s.threads && s.threads[t].EmitCall? && !pc.EmitDone?
    ensures Wf(At(s, t, pc, c)) && Enabled(At(s, t, pc, c), EmitStep(t, false))
  {
    var m := At(s, t, pc, c);
    assert forall u :: u in m.threads && m.threads[u].FlushCall? ==> u in s.threads && m.threads[u] == s.threads[u];
  }

  predicate Alone(steps: seq<Step>, t: Id) { forall k :: 0 <= k < |steps| ==> steps[k] == EmitStep(t, false) }

  lemma FirstStep(s: State, t: Id, pc: EmitPc, m: State) returns (first: seq<Step>, next: EmitPc, m': State)
    requires Wf(s) && t in s.threads && s.threads[t].EmitCall? && Undisturbed(s) && OnTheWay(s, pc)
    requires m == At(s, t, pc, Midway(s.c, pc))
    ensures m' == At(s, t, next, Midway(s.c, next)) && Path(m, first, m') && Alone(first, t)
    ensures OnTheWay(s, next) || next == EmitDone(Verdict(s))
    ensures Left(next) < Left(pc)
  {
    AtIsWf(s, t, pc, m.c);
    next := StepsOnward(s, t, pc);
    m' := At(s, t, next, Midway(s.c, next));
    first := [EmitStep(t, false)];
    OneStep(m, EmitStep(t, false));
  }

  lemma AloneTogether(first: seq<Step>, second: seq<Step>, t: Id)
    requires Alone(first, t) && Alone(second, t)
    ensures Alone(first + second, t)
  {
  }

  lemma {:induction false} Arrives(s: State, t: Id, pc: EmitPc, m: State) returns (steps: seq<Step>, end: State)
    requires Wf(s) && t in s.threads && s.threads[t].EmitCall? && Undisturbed(s) && OnTheWay(s, pc)
    requires m == At(s, t, pc, Midway(s.c, pc))
    ensures end == At(s, t, EmitDone(Verdict(s)), Midway(s.c, EmitDone(Verdict(s)))) && Path(m, steps, end) && Alone(steps, t)
    decreases Left(pc)
  {
    var first, next, mid := FirstStep(s, t, pc, m);
    steps, end := first, mid;
    if next != EmitDone(Verdict(s)) {
      var rest;
      rest, end := Arrives(s, t, next, mid);
      PathTrans(m, first, mid, rest, end);
      AloneTogether(first, rest, t);
      steps := first + rest;
    }
  }

  /** Where the way begins and where it ends. */
  lemma Ends(s: State, t: Id, o: EmitOutcome)
    requires t in s.threads && s.threads[t] == EmitCall(EmitStart)
    ensures At(s, t, EmitStart, Midway(s.c, EmitStart)) == s && OnTheWay(s, EmitStart)
    ensures At(s, t, EmitDone(o), Midway(s.c, EmitDone(o))) == EmittedAs(s, t, o)
  {
  }

  lemma CallsAreUndisturbed(s: State, t: Id)
    requires Inv(s) && t in s.threads && !Returned(s.threads[t])
    ensures Undisturbed(s) && Wf(s)
  {
  }

  /**
   From any state of any run, an emit that has just begun and runs alone returns the first reason
   to drop its event, or `Enqueued`; it counts one attempt and that one outcome, leaves every
   other counter and the admission word as they were, and appends its event only if it is accepted.
   */
  lemma UndisturbedEmit(states: seq<State>, steps: seq<Step>, i: nat, t: Id) returns (more: seq<Step>, s': State)
    requires IsRun(states, steps) && i < |states| && t in states[i].threads && states[i].threads[t] == EmitCall(EmitStart)
    ensures Path(states[i], more, s') && Alone(more, t) && s' == EmittedAs(states[i], t, Verdict(states[i]))
  {
    var s := states[i];
    AuditTheorems.RunsKeepInv(states, steps, i);
    CallsAreUndisturbed(s, t);
    Ends(s, t, Verdict(s));
    more, s' := Arrives(s, t, EmitStart, s);
  }

  /**
   In every state of every run of a dispatcher with its extra slot, the next emit is accepted exactly
   if admission is open, the sink is available and fewer events are queued than the capacity asked
   for, where a capacity of zero counts as one.
   */
  lemma AcceptedBelowCapacity(states: seq<State>, steps: seq<Step>, i: nat)
    requires IsRun(states, steps) && i < |states|
    requires states[i].config.HasSender() && states[i].config.SlotReserved()
    requires !states[i].h.closeRequested && states[i].c.sinkHealthy && N(states[i], Guard) < ACTIVE_EMITTERS_MASK
    ensures Verdict(states[i]) ==
      if states[i].c.queueDepth < Max(1, states[i].config.queueCapacity) then Enqueued else DroppedFull
  {
    AuditTheorems.RunsKeepInv(states, steps, i);
    RoomBelowCapacity(states[i]);
  }

  lemma RoomBelowCapacity(s: State)
    requires InvAdmission(s) && InvQueue(s) && InvDepth(s) && s.config.HasSender() && s.config.SlotReserved()
    requires !s.h.closeRequested && s.c.sinkHealthy && N(s, Guard) < ACTIVE_EMITTERS_MASK
    ensures Verdict(s) == if s.c.queueDepth < Max(1, s.config.queueCapacity) then Enqueued else DroppedFull
  {
    EventsOfLength(s.queue);
  }
}
