/** While no sink call fails, exactly the flush calls that are not doomed can still return `Flushed`. */
module AuditCompletion {
  import opened Wrappers
  import opened AuditModel
  import opened AuditInvariants
  import opened AuditAnswers
  import opened AuditProgress
  import Emit = AuditEmitSteps
  import FlushCalls = AuditFlushSteps
  import AuditTheorems

  // ---------------------------------------------------------------- emitters leave

  /** How many steps an emit that holds a guard has left at most. */
  function EmitStage(pc: EmitPc): nat {
    match pc
    case EmitAdmitted => 11 case EmitReserving => 10 case EmitReserved => 9 case EmitSending => 8
    case GoneUndoDepth => 7 case GoneUndoEnqueued => 6 case GoneCount => 5 case GoneClosed => 4 case GoneAdmission => 3
    case GoneHealth => 2
    case FullUndoDepth => 7 case FullUndoEnqueued => 6 case FullCount => 5
    case EmitSent => 2 case EmitUnhealthy => 2 case EmitFull => 2
    case EmitLeaving(_) => 1
    case _ => 0
  }

  /** The flush calls and the lock are as they were. */
  predicate FlushesStay(s: State, s': State) {
    && s'.lock == s.lock && s'.barriers == s.barriers
    && forall t :: t in s.threads && s.threads[t].FlushCall? ==> t in s'.threads && s'.threads[t] == s.threads[t]
  }

  lemma EmitStagesFall(s: State, u: Id)
    requires Emit.EmitFrom(s, u) && In(Guard, s.threads[u])
    ensures var s' := Emit.After(s, u, false);
      && u in s'.threads && s'.threads[u].EmitCall? && EmitStage(s'.threads[u].emit) < EmitStage(s.threads[u].emit)
      && (In(Guard, s'.threads[u]) || s'.threads[u].emit.EmitDone?)
  {
  }

  lemma GuardSteps(s: State, u: Id) returns (first: seq<Step>, s': State)
    requires Running(s) && u in s.threads && In(Guard, s.threads[u])
    ensures Path(s, first, s') && Smooth(first) && Running(s') && FlushesStay(s, s') && Good(s, s')
    ensures u in s'.threads && s'.threads[u].EmitCall? && EmitStage(s'.threads[u].emit) < EmitStage(s.threads[u].emit)
    ensures N(s', Guard) + (if In(Guard, s'.threads[u]) then 0 else 1) == N(s, Guard)
  {
    s' := Emit.After(s, u, false);
    EmitStagesFall(s, u);
    Emit.Frame(s, u, false);
    Emit.Counts(s, u, false, Guard);
    Emit.EmitKeepsInv(s, u, false);
    HasBasis(s);
    EmitIsGood(s, u);
    first := [EmitStep(u, false)];
    OneStep(s, EmitStep(u, false));
  }

  /** An emit that holds a guard releases it on its own. */
  lemma {:induction false} GuardLeaves(s: State, u: Id) returns (steps: seq<Step>, s': State)
    requires Running(s) && u in s.threads && In(Guard, s.threads[u])
    ensures Path(s, steps, s') && Smooth(steps) && Running(s') && FlushesStay(s, s') && Good(s, s')
    ensures N(s', Guard) + 1 == N(s, Guard)
    decreases EmitStage(s.threads[u].emit)
  {
    steps, s' := GuardSteps(s, u);
    if In(Guard, s'.threads[u]) {
      var first, mid := steps, s';
      var rest;
      rest, s' := GuardLeaves(mid, u);
      GoodTogether(s, mid, s');
      PathTrans(s, first, mid, rest, s');
      SmoothTogether(first, rest);
      steps := first + rest;
    }
  }

  lemma {:induction false} GuardsLeave(s: State) returns (steps: seq<Step>, s': State)
    requires Running(s)
    ensures Path(s, steps, s') && Smooth(steps) && Running(s') && FlushesStay(s, s') && Good(s, s')
    ensures Active(s'.c.admission) == 0
    decreases N(s, Guard)
  {
    if u :| u in Members(s.threads, Guard) {
      var first, mid := GuardLeaves(s, u);
      var rest;
      rest, s' := GuardsLeave(mid);
      GoodTogether(s, mid, s');
      PathTrans(s, first, mid, rest, s');
      SmoothTogether(first, rest);
      steps := first + rest;
    } else {
      assert Members(s.threads, Guard) == {};
      steps, s' := [], s;
    }
  }

  // ---------------------------------------------------------------- the lock is released

  lemma HolderMoves(s: State, h: Id)
    requires Wf(s) && h in s.threads && HoldsLock(s.threads[h]) && (s.threads[h].flush.FlushLocked? ==> !CanJoin(s))
    ensures FlushCalls.FlushFrom(s, h, false)
    ensures var s' := FlushCalls.After(s, h, false);
      && h in s'.threads && Rank(s'.threads[h]) < Rank(s.threads[h])
      && (s'.lock == None || (HoldsLock(s'.threads[h]) && !s'.threads[h].flush.FlushLocked?))
  {
  }

  lemma HolderStep(s: State, h: Id) returns (first: seq<Step>, s': State)
    requires Running(s) && h in s.threads && HoldsLock(s.threads[h])
    requires s.threads[h].flush.FlushLocked? ==> !CanJoin(s)
    ensures Path(s, first, s') && Smooth(first) && Running(s') && Good(s, s') && OnlyMoves(s.threads, s'.threads, h)
    ensures h in s'.threads && Rank(s'.threads[h]) < Rank(s.threads[h])
    ensures s'.lock == None || (HoldsLock(s'.threads[h]) && !s'.threads[h].flush.FlushLocked?)
  {
    HolderMoves(s, h);
    first, s' := FlushRuns(s, h);
  }

  /** Whoever holds the lock, with no barrier left to join, publishes one of its own and releases it. */
  lemma {:induction false} LockFrees(s: State, h: Id) returns (steps: seq<Step>, s': State)
    requires Running(s) && h in s.threads && HoldsLock(s.threads[h])
    requires s.threads[h].flush.FlushLocked? ==> !CanJoin(s)
    ensures Path(s, steps, s') && Smooth(steps) && Running(s') && Good(s, s') && OnlyMoves(s.threads, s'.threads, h)
    ensures s'.lock == None
    decreases Rank(s.threads[h])
  {
    steps, s' := HolderStep(s, h);
    if s'.lock != None {
      var first, mid := steps, s';
      var rest;
      rest, s' := LockFrees(mid, h);
      GoodTogether(s, mid, s');
      PathTrans(s, first, mid, rest, s');
      SmoothTogether(first, rest);
      steps := first + rest;
    }
  }

  // ---------------------------------------------------------------- the call itself

  predicate AllComplete(s: State) { forall b :: 0 <= b < |s.barriers| ==> s.barriers[b].outcome.Some? }

  /** The call is still under way and may yet return `Flushed`. */
  predicate Hopeful(s: State, t: Id) {
    t in s.threads && s.threads[t].FlushCall? && !s.threads[t].flush.FlushDone? && !Doomed(s, s.threads[t])
  }

  predicate Free(s: State, th: Thread)
    requires CurrentWf(s)
  {
    && MayAdvance(s, th) && !FlushBlocked(s, th.flush, false) && (th.flush.FlushLocked? ==> !CanJoin(s))
  }

  lemma CallSteps(s: State, t: Id) returns (first: seq<Step>, s': State)
    requires Running(s) && Fine(s) && Hopeful(s, t) && Free(s, s.threads[t])
    ensures Path(s, first, s') && Smooth(first) && Running(s') && Good(s, s')
    ensures t in s'.threads && Rank(s'.threads[t]) < Rank(s.threads[t])
  {
    HasBasis(s);
    CallerIsNotLost(s, t);
    first, s' := FlushRuns(s, t);
  }

  /** Whatever the call waits for can be brought about by others. */
  lemma Unblocks(s: State, t: Id) returns (steps: seq<Step>, s': State)
    requires Running(s) && Fine(s) && Hopeful(s, t) && AllComplete(s) && Unled(s.threads)
    ensures Path(s, steps, s') && Smooth(steps) && Running(s') && Good(s, s')
    ensures t in s'.threads && s'.threads[t] == s.threads[t] && Free(s', s'.threads[t])
  {
    if s.threads[t].flush.CloseDraining? {
      steps, s' := GuardsLeave(s);
    } else if s.threads[t].flush.FlushLoop? && s.lock.Some? {
      steps, s' := LockFrees(s, s.lock.value);
    } else {
      steps, s' := [], s;
    }
  }

  lemma Advances(s: State, t: Id) returns (steps: seq<Step>, s': State)
    requires Running(s) && Fine(s) && Hopeful(s, t) && AllComplete(s) && Unled(s.threads)
    ensures Path(s, steps, s') && Smooth(steps) && Running(s') && Good(s, s')
    ensures t in s'.threads && Rank(s'.threads[t]) < Rank(s.threads[t])
  {
    var first, mid := Unblocks(s, t);
    var rest;
    rest, s' := CallSteps(mid, t);
    GoodTogether(s, mid, s');
    PathTrans(s, first, mid, rest, s');
    SmoothTogether(first, rest);
    steps := first + rest;
  }

  lemma {:induction false} Completes(s: State, t: Id) returns (steps: seq<Step>, s': State)
    requires Running(s) && Fine(s) && t in s.threads && s.threads[t].FlushCall? && !Doomed(s, s.threads[t])
    ensures Path(s, steps, s') && Smooth(steps) && t in s'.threads && ReturnedWith(s'.threads[t], Flushed)
    decreases Rank(s.threads[t])
  {
    var first, mid := BarriersComplete(s);
    steps, s' := first, mid;
    if !mid.threads[t].flush.FlushDone? {
      var second, next := Advances(mid, t);
      GoodTogether(s, mid, next);
      PathTrans(s, first, mid, second, next);
      SmoothTogether(first, second);
      var rest;
      rest, s' := Completes(next, t);
      PathTrans(s, first + second, next, rest, s');
      SmoothTogether(first + second, rest);
      steps := first + second + rest;
    }
  }

  lemma CallsRun(s: State, t: Id)
    requires Inv(s) && s.config.HasSender() && t in s.threads && !Returned(s.threads[t])
    ensures Running(s)
  {
  }

  /**
   In every state of every run in which no sink call has failed, every flush or close call that is
   not doomed has a continuation, in which no deadline passes and nothing fails, that ends with the
   call returning `Flushed`.
   */
  lemma FlushSucceeds(states: seq<State>, steps: seq<Step>, i: nat, t: Id) returns (more: seq<Step>, s': State)
    requires IsRun(states, steps) && i < |states| && SinkWorked(states, steps, i) && states[i].config.HasSender()
    requires t in states[i].threads && states[i].threads[t].FlushCall? && !Doomed(states[i], states[i].threads[t])
    ensures Path(states[i], more, s') && Smooth(more) && t in s'.threads && ReturnedWith(s'.threads[t], Flushed)
  {
    var s := states[i];
    if s.threads[t].flush.FlushDone? {
      more, s' := [], s;
    } else {
      AuditTheorems.RunsKeepInv(states, steps, i);
      RunsKeepAnswers(states, steps, i);
      RunsKeepClean(states, steps, i);
      CallsRun(s, t);
      more, s' := Completes(s, t);
    }
  }

  lemma {:induction false} DoomedAlongPath(s: State, more: seq<Step>, s': State, t: Id)
    requires Inv(s) && Path(s, more, s') && t in s.threads && Doomed(s, s.threads[t])
    ensures t in s'.threads && Doomed(s', s'.threads[t])
    decreases |more|
  {
    if more != [] {
      HasBasis(s);
      StaysDoomed(s, more[0], t);
      AuditTheorems.StepKeepsInv(s, more[0]);
      DoomedAlongPath(Apply(s, more[0]), more[1..], s', t);
    }
  }

  /** And no continuation at all, smooth or not, makes a doomed call return `Flushed`. */
  lemma DoomedNeverSucceeds(states: seq<State>, steps: seq<Step>, i: nat, t: Id, more: seq<Step>, s': State)
    requires IsRun(states, steps) && i < |states| && t in states[i].threads && Doomed(states[i], states[i].threads[t])
    requires Path(states[i], more, s')
    ensures t in s'.threads && !ReturnedWith(s'.threads[t], Flushed)
  {
    AuditTheorems.RunsKeepInv(states, steps, i);
    DoomedAlongPath(states[i], more, s', t);
  }

  /** So while no sink call has failed, a call can still return `Flushed` if and only if it is not doomed. */
  lemma SuccessIsDecided(states: seq<State>, steps: seq<Step>, i: nat, t: Id)
    requires IsRun(states, steps) && i < |states| && SinkWorked(states, steps, i) && states[i].config.HasSender()
    requires t in states[i].threads && states[i].threads[t].FlushCall?
    ensures !Doomed(states[i], states[i].threads[t]) <==>
      exists more, s' :: Path(states[i], more, s') && Smooth(more) && t in s'.threads && ReturnedWith(s'.threads[t], Flushed)
  {
    if Doomed(states[i], states[i].threads[t]) {
      forall more, s' | Path(states[i], more, s') ensures t in s'.threads && !ReturnedWith(s'.threads[t], Flushed) {
        DoomedNeverSucceeds(states, steps, i, t, more, s');
      }
    } else {
      var more, s' := FlushSucceeds(states, steps, i, t);
    }
  }

  /** With the extra channel slot only the call's own deadline dooms it while no sink call fails. */
  lemma OnlyDeadlinesDoom(states: seq<State>, steps: seq<Step>, i: nat, t: Id)
    requires IsRun(states, steps) && i < |states| && SinkWorked(states, steps, i)
    requires states[i].config.HasSender() && states[i].config.SlotReserved()
    requires t in states[i].threads && states[i].threads[t].FlushCall?
    ensures Doomed(states[i], states[i].threads[t]) <==>
      states[i].threads[t].flush.FlushExpired? || ReturnedWith(states[i].threads[t], TimedOut)
  {
    RunsKeepAnswers(states, steps, i);
    RunsKeepClean(states, steps, i);
    BasisOf(states, steps, i);
    assert AnswerOk(states[i], states[i].threads[t].flush);
  }

  // ---------------------------------------------------------------- deadlines

  /** How many of its own steps a flush call takes at most once its deadline has passed. */
  function StepsToReturn(pc: FlushPc): nat {
    match pc
    case FlushLocked(_) => 10 case FlushCreating(_) => 9 case FlushPublishing(_, _) => 8 case FlushChosen(_, _, _) => 7
    case FlushSending(_, _) => 6
    case GoneUnpend(_) => 5 case GoneMark(_) => 4 case GoneClose(_) => 3 case GoneSick(_) => 2 case GoneComplete(_) => 1
    case FullUnpend(_) => 3 case FullExpire(_) => 2 case FullComplete(_) => 1
    case CloseStart => 7 case CloseMarked => 6 case CloseDraining => 5 case CloseReady => 4
    case FlushStart => 3 case FlushAwaitOlder(_, _) => 3 case FlushAwait(_, _) => 2 case FlushLoop(_) => 2
    case FlushExpired => 1
    case FlushDone(_, _, _) => 0
  }

  lemma LateCallMoves(s: State, pc: FlushPc)
    requires FlushWf(s, pc) && CurrentWf(s) && !pc.FlushDone?
    ensures !FlushBlocked(s, pc, true) && StepsToReturn(FlushNext(s, pc, true)) < StepsToReturn(pc)
  {
  }

  predicate LateSteps(steps: seq<Step>, t: Id) { forall k :: 0 <= k < |steps| ==> steps[k] == FlushStep(t, true) }

  lemma {:induction false} LateCallReturns(s: State, t: Id) returns (steps: seq<Step>, s': State)
    requires Wf(s) && t in s.threads && s.threads[t].FlushCall?
    ensures Path(s, steps, s') && LateSteps(steps, t) && |steps| <= StepsToReturn(s.threads[t].flush)
    ensures t in s'.threads && s'.threads[t].FlushCall? && s'.threads[t].flush.FlushDone?
    decreases StepsToReturn(s.threads[t].flush)
  {
    if s.threads[t].flush.FlushDone? {
      steps, s' := [], s;
    } else {
      LateCallMoves(s, s.threads[t].flush);
      var next := FlushCalls.After(s, t, true);
      FlushCalls.KeepsWf(s, t, true);
      OneStep(s, FlushStep(t, true));
      var rest;
      rest, s' := LateCallReturns(next, t);
      PathTrans(s, [FlushStep(t, true)], next, rest, s');
      steps := [FlushStep(t, true)] + rest;
    }
  }

  /** Whatever the others do or hold, a flush or close call whose deadline has passed returns within ten steps of its own. */
  lemma DeadlinesHold(states: seq<State>, steps: seq<Step>, i: nat, t: Id) returns (more: seq<Step>, s': State)
    requires IsRun(states, steps) && i < |states| && t in states[i].threads && states[i].threads[t].FlushCall?
    ensures Path(states[i], more, s') && LateSteps(more, t) && |more| <= 10
    ensures t in s'.threads && Returned(s'.threads[t])
  {
    BasisOf(states, steps, i);
    more, s' := LateCallReturns(states[i], t);
  }
}
