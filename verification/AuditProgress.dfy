/** No flush call waits in vain: whoever has the barrier it waits for can always complete it. */
module AuditProgress {
  import opened Wrappers
  import opened AuditModel
  import opened AuditInvariants
  import Emit = AuditEmitSteps
  import FlushCalls = AuditFlushSteps
  import WriterThread = AuditWriterSteps
  import AuditTheorems
  import opened AuditAnswers

  /** Taking these steps one after the other leads from `s` to `s'`. */
  ghost predicate Path(s: State, steps: seq<Step>, s': State)
    decreases |steps|
  {
    if steps == [] then s' == s
    else Wf(s) && Enabled(s, steps[0]) && Path(Apply(s, steps[0]), steps[1..], s')
  }

  lemma {:induction false} PathTrans(s: State, first: seq<Step>, mid: State, second: seq<Step>, s': State)
    requires Path(s, first, mid) && Path(mid, second, s')
    ensures Path(s, first + second, s')
    decreases |first|
  {
    if first == [] {
      assert first + second == second;
    } else {
      PathTrans(Apply(s, first[0]), first[1..], mid, second, s');
      assert (first + second)[1..] == first[1..] + second;
    }
  }

  /** Steps of the writer and of calls, with no deadline passing, no sink failing and no spurious retry. */
  predicate Smooth(steps: seq<Step>) {
    forall i :: 0 <= i < |steps| ==>
      steps[i] == WriterStep(true) || (steps[i].FlushStep? && !steps[i].expired) || (steps[i].EmitStep? && !steps[i].spurious)
  }

  lemma OneStep(s: State, step: Step)
    requires Wf(s) && Enabled(s, step)
    ensures Path(s, [step], Apply(s, step))
  {
    assert [step][1..] == [];
  }

  lemma SmoothTogether(first: seq<Step>, second: seq<Step>)
    requires Smooth(first) && Smooth(second)
    ensures Smooth(first + second)
  {
  }

  // ---------------------------------------------------------------- the writer

  /** How many steps the writer has left with what it holds. */
  function Stage(pc: WriterPc): nat {
    match pc
    case WriterFlushing(_) => 7
    case WriterSinkFlushing(_, _) => 6 case WriterReceived(_) => 6
    case WriterFlushFailed(_) => 5 case WriterCounted(_) => 5
    case WriterFlushCounted(_) => 4 case WriterWriting(_, _) => 4
    case WriterFlushSickening(_) => 3 case WriterWriteFailed => 3
    case WriterFinishing(_, _) => 2 case WriterSickening => 2
    case WriterCompleting(_, _) => 1 case WriterWrote => 1 case WriterSkipping(_) => 1
    case _ => 0
  }

  function Work(s: State): nat { 8 * |s.queue| + Stage(s.writer.pc) }

  predicate Running(s: State) { Inv(s) && s.config.HasSender() && !s.handlesDropped }

  predicate Drained(s: State) { s.writer.pc.WriterIdle? && s.queue == [] }

  lemma WriterWorks(s: State)
    requires WriterThread.WriterFrom(s) && !(s.writer.pc.WriterIdle? && s.queue == [])
    requires !(s.writer.pc.WriterClosing? || s.writer.pc.WriterClosed?)
    ensures Work(WriterThread.After(s, true)) < Work(s)
  {
  }

  /** The outcomes given so far stay, and no barrier is added. */
  predicate OutcomesStay(s: State, s': State) {
    && |s'.barriers| == |s.barriers|
    && forall b :: 0 <= b < |s.barriers| && s.barriers[b].outcome.Some? ==> s'.barriers[b].outcome == s.barriers[b].outcome
  }

  lemma WriterMoves(s: State) returns (first: seq<Step>, s': State)
    requires Running(s) && !Drained(s)
    ensures Path(s, first, s') && Smooth(first)
    ensures Running(s') && Work(s') < Work(s) && s'.threads == s.threads && OutcomesStay(s, s') && Good(s, s')
  {
    HasBasis(s);
    WriterIsGood(s);
    s' := WriterThread.After(s, true);
    WriterWorks(s);
    WriterThread.Frame(s, true);
    WriterThread.BarriersGrow(s, true);
    WriterThread.WriterKeepsInv(s, true);
    first := [WriterStep(true)];
    OneStep(s, WriterStep(true));
  }

  /** The writer alone empties the channel. */
  lemma {:induction false} WriterDrains(s: State) returns (steps: seq<Step>, s': State)
    requires Running(s)
    ensures Path(s, steps, s') && Smooth(steps)
    ensures Running(s') && Drained(s') && s'.threads == s.threads && OutcomesStay(s, s') && Good(s, s')
    decreases Work(s)
  {
    if Drained(s) {
      steps, s' := [], s;
    } else {
      var first, next := WriterMoves(s);
      var rest;
      rest, s' := WriterDrains(next);
      steps := first + rest;
      GoodTogether(s, next, s');
      PathTrans(s, first, next, rest, s');
      SmoothTogether(first, rest);
    }
  }

  // ---------------------------------------------------------------- the leader

  function LeaderStage(th: Thread): nat
    requires Leads(th).Some?
  {
    match th.flush
    case FlushPublishing(_, _) => 3
    case FlushChosen(_, _, _) => 2
    case FullUnpend(_) => 3
    case FullExpire(_) => 2
    case _ => 1
  }

  /** With room in the channel a leader sends its barrier, or completes the one it has given up. */
  lemma LeaderAdvances(s: State, t: Id)
    requires FlushCalls.FlushFrom(s, t, false) && CoverOk(s, s.threads[t]) && Leads(s.threads[t]).Some?
    requires s.queue == [] && !ReceiverGone(s) && !InGone(s.threads[t])
    ensures var s', b := FlushCalls.After(s, t, false), Leads(s.threads[t]).value;
      && t in s'.threads && |s'.barriers| == |s.barriers|
      && (Leads(s'.threads[t]).Some? ==>
            Leads(s'.threads[t]) == Some(b) && LeaderStage(s'.threads[t]) < LeaderStage(s.threads[t]) && s'.queue == [])
  {
  }

  lemma LeaderMayMove(s: State, t: Id)
    requires Running(s) && t in s.threads && Leads(s.threads[t]).Some?
    ensures FlushCalls.FlushFrom(s, t, false) && CoverOk(s, s.threads[t]) && !InGone(s.threads[t])
  {
    assert FlushOk(s, s.threads[t]);
    assert !FlushBlocked(s, s.threads[t].flush, false);
  }

  predicate Unled(threads: map<Id, Thread>) { forall t :: t in threads ==> Leads(threads[t]) == None }

  /** A leader that stops leading leaves no other behind. */
  lemma LastLeader(s: State, s': State, t: Id)
    requires OneLeader(s) && t in s.threads && Leads(s.threads[t]).Some?
    requires t in s'.threads && s'.threads == s.threads[t := s'.threads[t]] && Leads(s'.threads[t]) == None
    ensures Unled(s'.threads)
  {
    forall u | u in s'.threads ensures Leads(s'.threads[u]) == None {
      if u != t {
        assert u in s.threads && !Leads(s.threads[u]).Some?;
      }
    }
  }

  /** Every call but `t` stays where it is. */
  predicate OnlyMoves(threads: map<Id, Thread>, threads': map<Id, Thread>, t: Id) {
    forall u :: u in threads && u != t ==> u in threads' && threads'[u] == threads[u]
  }

  lemma Together(s: State, mid: State, s': State, t: Id)
    requires OnlyMoves(s.threads, mid.threads, t) && OnlyMoves(mid.threads, s'.threads, t)
    requires OutcomesStay(s, mid) && OutcomesStay(mid, s')
    ensures OnlyMoves(s.threads, s'.threads, t) && OutcomesStay(s, s')
  {
  }

  /** One step of a flush call whose deadline has not passed and which joins nobody. */
  lemma FlushRuns(s: State, t: Id) returns (first: seq<Step>, s': State)
    requires Running(s) && FlushCalls.FlushFrom(s, t, false) && (s.threads[t].flush.FlushLocked? ==> !CanJoin(s))
    ensures s' == FlushCalls.After(s, t, false) && Path(s, first, s') && Smooth(first)
    ensures Running(s') && OnlyMoves(s.threads, s'.threads, t) && Good(s, s')
  {
    HasBasis(s);
    FlushIsGood(s, t);
    s' := FlushCalls.After(s, t, false);
    FlushCalls.Frame(s, t, false);
    FlushCalls.FlushKeepsInv(s, t, false);
    first := [FlushStep(t, false)];
    OneStep(s, FlushStep(t, false));
  }

  /** What a leader's step leaves, in terms of where it stood. */
  lemma LeaderMoves(s: State, t: Id)
    requires Running(s) && Drained(s) && t in s.threads && Leads(s.threads[t]).Some?
    ensures FlushCalls.FlushFrom(s, t, false)
    ensures var s' := FlushCalls.After(s, t, false);
      && OutcomesStay(s, s') && t in s'.threads
      && if Leads(s'.threads[t]) == None then Unled(s'.threads)
         else Drained(s') && LeaderStage(s'.threads[t]) < LeaderStage(s.threads[t])
  {
    LeaderMayMove(s, t);
    LeaderAdvances(s, t);
    FlushCalls.Frame(s, t, false);
    FlushCalls.BarriersGrow(s, t, false);
    var s' := FlushCalls.After(s, t, false);
    if Leads(s'.threads[t]) == None {
      LastLeader(s, s', t);
    }
  }

  lemma LeaderStep(s: State, t: Id) returns (first: seq<Step>, s': State)
    requires Running(s) && Drained(s) && t in s.threads && Leads(s.threads[t]).Some?
    ensures Path(s, first, s') && Smooth(first)
    ensures Running(s') && OutcomesStay(s, s') && t in s'.threads && OnlyMoves(s.threads, s'.threads, t) && Good(s, s')
    ensures if Leads(s'.threads[t]) == None then Unled(s'.threads)
            else Drained(s') && LeaderStage(s'.threads[t]) < LeaderStage(s.threads[t])
  {
    LeaderMoves(s, t);
    first, s' := FlushRuns(s, t);
  }

  lemma {:induction false} LeaderDelivers(s: State, t: Id) returns (steps: seq<Step>, s': State)
    requires Running(s) && Drained(s) && t in s.threads && Leads(s.threads[t]).Some?
    ensures Path(s, steps, s') && Smooth(steps)
    ensures Running(s') && OutcomesStay(s, s') && Unled(s'.threads) && OnlyMoves(s.threads, s'.threads, t) && Good(s, s')
    decreases LeaderStage(s.threads[t])
  {
    var first, next := LeaderStep(s, t);
    steps, s' := first, next;
    if Leads(next.threads[t]).Some? {
      var rest;
      rest, s' := LeaderDelivers(next, t);
      steps := first + rest;
      Together(s, next, s', t);
      GoodTogether(s, next, s');
      PathTrans(s, first, next, rest, s');
      SmoothTogether(first, rest);
    }
  }

  // ---------------------------------------------------------------- the waiting call

  /** The call is parked on a barrier. */
  function WaitsFor(th: Thread): Option<BarrierId> {
    if th.EmitCall? then None else
    match th.flush
    case FlushAwait(_, b) => Some(b)
    case FlushAwaitOlder(_, b) => Some(b)
    case _ => None
  }

  /** A drained channel without a leader leaves no barrier without an outcome. */
  lemma NothingPending(s: State)
    requires Running(s) && Drained(s) && Unled(s.threads)
    ensures forall b :: 0 <= b < |s.barriers| ==> s.barriers[b].outcome.Some?
  {
    forall b | 0 <= b < |s.barriers| ensures s.barriers[b].outcome.Some? {
      if s.barriers[b].outcome == None {
        assert Held(s, b);
      }
    }
  }

  lemma NoLeader(s: State)
    requires !exists t :: t in s.threads && Leads(s.threads[t]).Some?
    ensures Unled(s.threads)
  {
    forall t | t in s.threads ensures Leads(s.threads[t]) == None {
      assert !Leads(s.threads[t]).Some?;
    }
  }

  /** Callers that do not lead are left where they are. */
  predicate OthersStay(s: State, s': State) {
    forall u :: u in s.threads && Leads(s.threads[u]) == None ==> u in s'.threads && s'.threads[u] == s.threads[u]
  }

  /** The leader sends and the writer drains again. */
  lemma LeaderCompletes(s: State, t: Id) returns (steps: seq<Step>, s': State)
    requires Running(s) && Drained(s) && t in s.threads && Leads(s.threads[t]).Some?
    ensures Path(s, steps, s') && Smooth(steps)
    ensures Running(s') && Drained(s') && Unled(s'.threads) && OutcomesStay(s, s') && OthersStay(s, s') && Good(s, s')
  {
    var first, mid := LeaderDelivers(s, t);
    var second;
    second, s' := WriterDrains(mid);
    GoodTogether(s, mid, s');
    PathTrans(s, first, mid, second, s');
    SmoothTogether(first, second);
    steps := first + second;
  }

  /** From any state the writer and, if there is one, the leader can give every barrier its outcome. */
  lemma BarriersComplete(s: State) returns (steps: seq<Step>, s': State)
    requires Running(s)
    ensures Path(s, steps, s') && Smooth(steps) && Running(s') && OthersStay(s, s') && Good(s, s')
    ensures Drained(s') && Unled(s'.threads)
    ensures |s'.barriers| == |s.barriers| && forall b :: 0 <= b < |s.barriers| ==> s'.barriers[b].outcome.Some?
  {
    var first, mid := WriterDrains(s);
    if t :| t in mid.threads && Leads(mid.threads[t]).Some? {
      var second;
      second, s' := LeaderCompletes(mid, t);
      GoodTogether(s, mid, s');
      PathTrans(s, first, mid, second, s');
      SmoothTogether(first, second);
      steps := first + second;
    } else {
      NoLeader(mid);
      steps, s' := first, mid;
    }
    NothingPending(s');
  }

  /** A call whose barrier has its outcome can go on. */
  lemma GoesOn(s: State, t: Id)
    requires Wf(s) && t in s.threads && WaitsFor(s.threads[t]).Some?
    requires s.barriers[WaitsFor(s.threads[t]).value].outcome.Some?
    ensures Enabled(s, FlushStep(t, false))
    ensures var s' := Apply(s, FlushStep(t, false)); t in s'.threads && WaitsFor(s'.threads[t]) == None
  {
  }

  lemma WaitersMayRun(s: State, t: Id)
    requires Inv(s) && t in s.threads && WaitsFor(s.threads[t]).Some?
    ensures Running(s) && WaitsFor(s.threads[t]).value < |s.barriers| && Leads(s.threads[t]) == None
  {
    assert NeedsSender(s.threads[t]) && !Returned(s.threads[t]);
  }

  /**
   In every state of every run a call that waits for a barrier has a continuation, in which no
   deadline passes and nothing fails, after which the barrier has its outcome and the call goes on.
   */
  lemma NoWaitInVain(states: seq<State>, steps: seq<Step>, i: nat, t: Id) returns (more: seq<Step>, s': State)
    requires IsRun(states, steps) && i < |states|
    requires t in states[i].threads && WaitsFor(states[i].threads[t]).Some?
    ensures Path(states[i], more, s') && Smooth(more)
    ensures t in s'.threads && s'.threads[t] == states[i].threads[t]
    ensures var b := WaitsFor(states[i].threads[t]).value; b < |s'.barriers| && s'.barriers[b].outcome.Some?
    ensures Wf(s') && Enabled(s', FlushStep(t, false))
    ensures var s'' := Apply(s', FlushStep(t, false)); t in s''.threads && WaitsFor(s''.threads[t]) == None
  {
    AuditTheorems.RunsKeepInv(states, steps, i);
    WaitersMayRun(states[i], t);
    more, s' := BarriersComplete(states[i]);
    GoesOn(s', t);
  }
}
