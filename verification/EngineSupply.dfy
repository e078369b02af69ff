/**
 * The supply of threads while the settings stay fixed: enough workers for the requests at hand, never
 * more than wanted, and none of them ever waits with a timeout or leaves.
 */
module EngineSupply {
  import opened Engine
  import opened EnginePlaces
  import opened EngineCounters
  import opened EngineThreads
  import opened Options
  import Q = PriLists

  /** Steps that change no setting, and thread creations that succeed. */
  ghost predicate Fixed(a: Action) {
    && !a.DoSetMinParallel? && !a.DoSetMaxParallel? && !a.DoSetMaxIdle?
    && (a.DoStartThread? ==> a.created)
  }

  ghost predicate Loyal(w: Worker) {
    w == Ready || w == Waiting(false) || w == Woken(false) || w.Executing?
  }

  ghost predicate NoShrink(stack: seq<Frame>) {
    forall k :: 0 <= k < |stack| ==> !stack[k].Shrink?
  }

  /** All workers ever started are there to stay. */
  ghost predicate Manned(s: State) {
    && s.pool.wanted <= s.pool.maxIdle
    && s.pool.started == |s.pool.workers| + Owed(s.stack)
    && (forall w :: 0 <= w < |s.pool.workers| ==> Loyal(s.pool.workers[w]))
    && Quit !in Q.Items(s.pool.reqq)
    && NoShrink(s.stack)
  }

  /** What the main thread has read so far is still right, or errs to the side of starting a thread. */
  ghost predicate ReadsOk(s: State, x: Start) {
    match x
    case Gate => true
    case Sum(started, npending, nreqs) =>
      && s.pool.started < s.pool.wanted
      && (started.Some? ==> started.value == s.pool.started)
      && (npending.Some? ==> npending.value <= s.pool.npending)
      && (nreqs.Some? ==> nreqs.value == s.pool.nreqs)
    case Create => s.pool.started < s.pool.wanted
    case Created => s.pool.started < s.pool.wanted
  }

  /** One request may be without its thread while the main thread is about to see to it. */
  ghost function Debt(stack: seq<Frame>): nat {
    if stack == [] then 0
    else match Last(stack)
      case Submitted(_) => 1
      case PushGroup(_) => 1
      case Poll(Counting(_)) => 1
      case _ => 0
  }

  ghost function Min(a: int, b: int): int {
    if a < b then a else b
  }

  ghost predicate Supplied(s: State) {
    && s.pool.started <= s.pool.wanted
    && s.pool.started >= Min(s.pool.wanted, s.pool.nreqs - s.pool.npending - Debt(s.stack))
    && (AtStart(s) ==> ReadsOk(s, StartOf(s)))
  }

  /** There are never more threads than wanted, not even while a new one is not counted. */
  lemma WorkersWanted(s: State)
    requires Manned(s) && Supplied(s)
    ensures |s.pool.workers| <= s.pool.wanted
  {
  }

  lemma WorkerShiftKeepsManned(s: State, t: State, w: nat)
    requires Manned(s) && |s.pool.workers| <= s.pool.wanted && Signalled(t) && WorkerShift(s, t, w)
    ensures Manned(t)
  {
    assert t.pool.idle <= |t.pool.workers|;
    if !Q.IsEmpty(s.pool.reqq) {
      Q.RestItems(s.pool.reqq);
    }
  }

  ghost predicate WorkerStep(a: Action) {
    a.DoWorkerShift? || a.DoPublish? || a.DoSpuriousWake? || a.DoTimeout? || a.DoLeave?
  }

  ghost predicate StartStep(a: Action) {
    a.DoPassGate? || a.DoReadCounter? || a.DoDecide? || a.DoStartThread? || a.DoCountThread?
  }

  ghost predicate MainStep(a: Action) {
    || a.DoPublishGroup? || a.DoPollShift? || a.DoPollCount? || a.DoUnlink? || a.DoDestroy?
    || a.DoPollResume? || a.DoLoopTest? || a.DoLoopWake? || a.DoShrinkTest? || a.DoShrinkCount?
  }

  /** What the main thread notices of a step of a worker. */
  ghost predicate Noticed(s: State, t: State) {
    && t.stack == s.stack
    && t.pool.wanted == s.pool.wanted && t.pool.maxIdle == s.pool.maxIdle && t.pool.nreqs == s.pool.nreqs
    && t.pool.npending >= s.pool.npending
  }

  lemma ShiftIsNoticed(s: State, t: State, w: nat)
    requires WorkerShift(s, t, w)
    ensures Noticed(s, t) && t.pool.started == s.pool.started
  {
  }

  lemma WorkersAreNoticed(s: State, t: State, w: nat)
    requires Publish(s, t, w) || SpuriousWake(s, t, w) || Timeout(s, t, w) || Leave(s, t, w)
    ensures Noticed(s, t) && (Leave(s, t, w) || t.pool.started == s.pool.started)
  {
  }

  lemma OtherWorkersKeepManned(s: State, t: State, w: nat)
    requires Manned(s) && (Publish(s, t, w) || SpuriousWake(s, t, w) || Timeout(s, t, w) || Leave(s, t, w))
    ensures Manned(t)
  {
  }

  lemma ThreadKeepsManned(s: State, t: State)
    requires Stacked(s) && Manned(s) && (StartThread(s, t, true) || CountThread(s, t))
    ensures Manned(t)
  {
  }

  lemma SubmitKeepsManned(s: State, t: State, pri: int, wake: Option<nat>)
    requires Manned(s) && SubmitOrdinary(s, t, pri, wake)
    ensures Manned(t)
  {
    Q.PushItems(s.pool.reqq, Q.QueueOf(pri), R(|s.stages|));
  }

  lemma FixedKeepsSettings(s: State, a: Action, t: State)
    requires Next(s, a, t) && Fixed(a)
    ensures t.pool.wanted == s.pool.wanted && t.pool.maxIdle == s.pool.maxIdle
  {
  }

  lemma CallsKeepNoShrink(s: State, a: Action, t: State)
    requires NoShrink(s.stack) && Next(s, a, t) && Fixed(a) && !ChangesStaff(a) && UserMayCall(s)
    ensures NoShrink(t.stack)
  {
  }

  lemma StartsKeepNoShrink(s: State, t: State, c: Counter)
    requires NoShrink(s.stack) && (PassGate(s, t) || ReadCounter(s, t, c) || Decide(s, t))
    ensures NoShrink(t.stack)
  {
  }

  lemma PollsKeepNoShrink(s: State, t: State, b: bool)
    requires NoShrink(s.stack)
    requires PublishGroup(s, t) || PollShift(s, t) || PollCount(s, t) || PollResume(s, t, b) || LoopTest(s, t)
             || LoopWake(s, t, b)
    ensures NoShrink(t.stack)
  {
  }

  lemma FinishesKeepNoShrink(s: State, t: State)
    requires NoShrink(s.stack) && (Unlink(s, t) || Destroy(s, t))
    ensures NoShrink(t.stack)
  {
  }

  lemma StepsKeepNoShrink(s: State, a: Action, t: State)
    requires NoShrink(s.stack) && Next(s, a, t) && Fixed(a) && !ChangesStaff(a) && !UserMayCall(s)
    ensures NoShrink(t.stack)
  {
    if a.DoPassGate? || a.DoDecide? {
      StartsKeepNoShrink(s, t, Requests);
    } else if a.DoReadCounter? {
      StartsKeepNoShrink(s, t, a.counter);
    } else if a.DoUnlink? || a.DoDestroy? {
      FinishesKeepNoShrink(s, t);
    } else {
      PollsKeepNoShrink(s, t, if a.DoPollResume? then a.again else a.DoLoopWake? && a.interrupted);
    }
  }

  lemma OthersKeepNoShrink(s: State, a: Action, t: State)
    requires NoShrink(s.stack) && Next(s, a, t) && Fixed(a) && !ChangesStaff(a)
    ensures NoShrink(t.stack)
  {
    if UserMayCall(s) {
      CallsKeepNoShrink(s, a, t);
    } else {
      StepsKeepNoShrink(s, a, t);
    }
  }

  lemma OthersKeepManned(s: State, a: Action, t: State)
    requires Stacked(s) && Manned(s) && Next(s, a, t) && Fixed(a) && !ChangesStaff(a)
    ensures Manned(t)
  {
    OthersLeaveStaff(s, a, t);
    OthersOweTheSame(s, a, t);
    OthersKeepNoShrink(s, a, t);
    FixedKeepsSettings(s, a, t);
  }

  lemma NeverShrinks(s: State, t: State, wake: Option<nat>)
    requires Manned(s)
    ensures !ShrinkTest(s, t, wake) && !ShrinkCount(s, t)
  {
  }

  lemma WorkersKeepManned(s: State, a: Action, t: State)
    requires Manned(s) && Supplied(s) && Signalled(t) && Next(s, a, t) && WorkerStep(a)
    ensures Manned(t)
  {
    if a.DoWorkerShift? {
      WorkersWanted(s);
      WorkerShiftKeepsManned(s, t, a.w);
    } else {
      OtherWorkersKeepManned(s, t, a.w);
    }
  }

  /** No worker leaves or waits with a timeout, because there are never more of them than may be idle. */
  lemma KeepsManned(s: State, a: Action, t: State)
    requires Stacked(s) && Manned(s) && Supplied(s) && Signalled(t) && Next(s, a, t) && Fixed(a)
    ensures Manned(t)
  {
    if !ChangesStaff(a) {
      OthersKeepManned(s, a, t);
    } else if WorkerStep(a) {
      WorkersKeepManned(s, a, t);
    } else if a.DoSubmitOrdinary? {
      SubmitKeepsManned(s, t, a.pri, a.wake);
    } else if a.DoStartThread? || a.DoCountThread? {
      ThreadKeepsManned(s, t);
    } else {
      NeverShrinks(s, t, if a.DoShrinkTest? then a.wake else None);
    }
  }

  lemma StartKeepsSupplied(s: State, t: State, c: Counter)
    requires Stacked(s) && Supplied(s)
    requires PassGate(s, t) || ReadCounter(s, t, c) || Decide(s, t)
    ensures Supplied(t)
  {
  }

  lemma ThreadKeepsSupplied(s: State, t: State)
    requires Stacked(s) && Supplied(s) && (StartThread(s, t, true) || CountThread(s, t))
    ensures Supplied(t)
  {
  }

  lemma StartStepKeepsSupplied(s: State, a: Action, t: State)
    requires Stacked(s) && Supplied(s) && Next(s, a, t) && Fixed(a) && StartStep(a)
    ensures Supplied(t)
  {
    if a.DoStartThread? || a.DoCountThread? {
      ThreadKeepsSupplied(s, t);
    } else {
      StartKeepsSupplied(s, t, if a.DoReadCounter? then a.counter else Requests);
    }
  }

  lemma UserKeepsSupplied(s: State, a: Action, t: State)
    requires Supplied(s) && Next(s, a, t) && Fixed(a)
    requires !WorkerStep(a) && !StartStep(a) && !MainStep(a)
    ensures Supplied(t)
  {
  }

  lemma PollKeepsSupplied(s: State, t: State)
    requires Stacked(s) && Supplied(s) && (PublishGroup(s, t) || PollShift(s, t) || PollCount(s, t))
    ensures Supplied(t)
  {
  }

  lemma FinishKeepsSupplied(s: State, t: State)
    requires Stacked(s) && Supplied(s) && (Unlink(s, t) || Destroy(s, t))
    ensures Supplied(t)
  {
  }

  lemma LoopKeepsSupplied(s: State, t: State, b: bool)
    requires Stacked(s) && Supplied(s) && (PollResume(s, t, b) || LoopTest(s, t) || LoopWake(s, t, b))
    ensures Supplied(t)
  {
  }

  lemma MainKeepsSupplied(s: State, a: Action, t: State)
    requires Stacked(s) && Manned(s) && Supplied(s) && Next(s, a, t) && MainStep(a)
    ensures Supplied(t)
  {
    if a.DoPublishGroup? || a.DoPollShift? || a.DoPollCount? {
      PollKeepsSupplied(s, t);
    } else if a.DoUnlink? || a.DoDestroy? {
      FinishKeepsSupplied(s, t);
    } else if a.DoShrinkTest? || a.DoShrinkCount? {
      NeverShrinks(s, t, if a.DoShrinkTest? then a.wake else None);
    } else {
      LoopKeepsSupplied(s, t, if a.DoPollResume? then a.again else a.DoLoopWake? && a.interrupted);
    }
  }

  lemma WorkerKeepsSupplied(s: State, a: Action, t: State)
    requires Manned(s) && Supplied(s) && Next(s, a, t) && WorkerStep(a)
    ensures Supplied(t)
  {
    if a.DoWorkerShift? {
      ShiftIsNoticed(s, t, a.w);
    } else {
      WorkersAreNoticed(s, t, a.w);
    }
  }

  /** Work conservation: after every step there are as many threads as wanted or as there is work for. */
  lemma KeepsSupplied(s: State, a: Action, t: State)
    requires Stacked(s) && Manned(s) && Supplied(s) && Next(s, a, t) && Fixed(a)
    ensures Supplied(t)
  {
    if StartStep(a) {
      StartStepKeepsSupplied(s, a, t);
    } else if WorkerStep(a) {
      WorkerKeepsSupplied(s, a, t);
    } else if MainStep(a) {
      MainKeepsSupplied(s, a, t);
    } else {
      UserKeepsSupplied(s, a, t);
    }
  }
}
