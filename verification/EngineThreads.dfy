/** The accounts of threads: how many are started, and how many may sleep without a timeout. */
module EngineThreads {
  import opened Counting
  import opened Engine
  import opened EnginePlaces
  import opened EngineCounters
  import opened Options
  import Q = PriLists

  // ----- started threads -----

  ghost predicate IsLive(w: Worker) { !w.Gone? }

  /**
   * What `started` has too many or too few: a quit request is counted off right after it is queued,
   * and a new thread is counted right after it is created.
   */
  ghost function Owed(stack: seq<Frame>): int {
    if stack == [] then 0
    else match Last(stack)
      case Shrink(counting) => if counting then 1 else 0
      case Submitted(start) => if start == Created then -1 else 0
      case Poll(Starting(start)) => if start == Created then -1 else 0
      case _ => 0
  }

  /** `started` counts the live workers that no quit request waits for. */
  ghost predicate Staffed(s: State) {
    s.pool.started == Count(s.pool.workers, IsLive) - Q.Items(s.pool.reqq)[Quit] + Owed(s.stack)
  }

  ghost predicate ChangesStaff(a: Action) {
    a.DoSubmitOrdinary? || a.DoStartThread? || a.DoCountThread? || a.DoShrinkTest? || a.DoShrinkCount?
    || a.DoWorkerShift? || a.DoPublish? || a.DoSpuriousWake? || a.DoTimeout? || a.DoLeave?
  }

  lemma WakeKeepsLive(workers: seq<Worker>, wake: Option<nat>)
    requires WakeOk(workers, wake)
    ensures Count(Wake(workers, wake), IsLive) == Count(workers, IsLive)
  {
    if wake.Some? {
      CountUpdate(workers, wake.value, Woken(false), IsLive);
    }
  }

  lemma ShrinkKeepsStaffed(s: State, t: State, wake: Option<nat>)
    requires Stacked(s) && Staffed(s) && ShrinkTest(s, t, wake)
    ensures Staffed(t)
  {
    WakeKeepsLive(s.pool.workers, wake);
    Q.PushItems(s.pool.reqq, Q.ETP_NUM_PRI - 1, Quit);
  }

  lemma SubmitKeepsStaffed(s: State, t: State, pri: int, wake: Option<nat>)
    requires Staffed(s) && SubmitOrdinary(s, t, pri, wake)
    ensures Staffed(t)
  {
    WakeKeepsLive(s.pool.workers, wake);
    Q.PushItems(s.pool.reqq, Q.QueueOf(pri), R(|s.stages|));
  }

  lemma StartKeepsStaffed(s: State, t: State, created: bool)
    requires Stacked(s) && Staffed(s) && StartThread(s, t, created)
    ensures Staffed(t)
  {
    CountAppend(s.pool.workers, Ready, IsLive);
  }

  lemma CountKeepsStaffed(s: State, t: State)
    requires Stacked(s) && Staffed(s) && (ShrinkCount(s, t) || CountThread(s, t))
    ensures Staffed(t)
  {
  }

  lemma ShiftKeepsStaffed(s: State, t: State, w: nat)
    requires Staffed(s) && WorkerShift(s, t, w)
    ensures Staffed(t)
  {
    CountUpdate(s.pool.workers, w, t.pool.workers[w], IsLive);
    if !Q.IsEmpty(s.pool.reqq) {
      Q.RestItems(s.pool.reqq);
    }
  }

  lemma WorkerKeepsStaffed(s: State, t: State, w: nat)
    requires Staffed(s) && (Publish(s, t, w) || SpuriousWake(s, t, w) || Timeout(s, t, w) || Leave(s, t, w))
    ensures Staffed(t)
  {
    CountUpdate(s.pool.workers, w, t.pool.workers[w], IsLive);
  }

  lemma OthersLeaveStaff(s: State, a: Action, t: State)
    requires Next(s, a, t) && !ChangesStaff(a)
    ensures t.pool.workers == s.pool.workers && t.pool.reqq == s.pool.reqq && t.pool.started == s.pool.started
  {
  }

  lemma CallsOweTheSame(s: State, a: Action, t: State)
    requires Next(s, a, t) && !ChangesStaff(a) && UserMayCall(s)
    ensures Owed(t.stack) == Owed(s.stack) == 0
  {
  }

  lemma StartsOweTheSame(s: State, t: State, c: Counter)
    requires Stacked(s) && (PassGate(s, t) || ReadCounter(s, t, c) || Decide(s, t))
    ensures Owed(t.stack) == Owed(s.stack) == 0
  {
  }

  lemma PollsOweTheSame(s: State, t: State, b: bool)
    requires Stacked(s)
    requires PublishGroup(s, t) || PollShift(s, t) || PollCount(s, t) || PollResume(s, t, b) || LoopTest(s, t)
             || LoopWake(s, t, b)
    ensures Owed(t.stack) == Owed(s.stack) == 0
  {
  }

  lemma FinishesOweTheSame(s: State, t: State)
    requires Stacked(s) && (ReturnFromCallback(s, t) || Unlink(s, t) || Destroy(s, t))
    ensures Owed(t.stack) == Owed(s.stack) == 0
  {
  }

  lemma OthersOweTheSame(s: State, a: Action, t: State)
    requires Stacked(s) && Next(s, a, t) && !ChangesStaff(a)
    ensures Owed(t.stack) == Owed(s.stack) == 0
  {
    if UserMayCall(s) {
      CallsOweTheSame(s, a, t);
    } else if a.DoPassGate? || a.DoDecide? {
      StartsOweTheSame(s, t, Requests);
    } else if a.DoReadCounter? {
      StartsOweTheSame(s, t, a.counter);
    } else if a.DoReturnFromCallback? || a.DoUnlink? || a.DoDestroy? {
      FinishesOweTheSame(s, t);
    } else {
      PollsOweTheSame(s, t, if a.DoPollResume? then a.again else a.DoLoopWake? && a.interrupted);
    }
  }

  /** Started threads stay accounted for, whether they are asked to leave or time out. */
  lemma KeepsStaffed(s: State, a: Action, t: State)
    requires Stacked(s) && Staffed(s) && Next(s, a, t)
    ensures Staffed(t)
  {
    if !ChangesStaff(a) {
      OthersLeaveStaff(s, a, t);
      OthersOweTheSame(s, a, t);
    } else if a.DoSubmitOrdinary? {
      SubmitKeepsStaffed(s, t, a.pri, a.wake);
    } else if a.DoStartThread? {
      StartKeepsStaffed(s, t, a.created);
    } else if a.DoShrinkTest? {
      ShrinkKeepsStaffed(s, t, a.wake);
    } else if a.DoShrinkCount? || a.DoCountThread? {
      CountKeepsStaffed(s, t);
    } else if a.DoWorkerShift? {
      ShiftKeepsStaffed(s, t, a.w);
    } else {
      WorkerKeepsStaffed(s, t, a.w);
    }
  }

  // ----- idle threads -----

  ghost predicate IsResting(w: Worker) { w == Waiting(false) }

  /** No more than `max_idle` workers sleep without a timeout. */
  ghost predicate Rested(s: State) {
    Count(s.pool.workers, IsResting) <= if s.pool.maxIdle < 0 then 0 else s.pool.maxIdle
  }

  lemma {:induction false} RestingAreIdle(workers: seq<Worker>)
    ensures Count(workers, IsResting) <= Count(workers, IsIdle)
  {
    if workers != [] {
      RestingAreIdle(workers[..|workers| - 1]);
    }
  }

  lemma ShiftKeepsRested(s: State, t: State, w: nat)
    requires Signalled(t) && Rested(s) && WorkerShift(s, t, w)
    ensures Rested(t)
  {
    CountUpdate(s.pool.workers, w, t.pool.workers[w], IsResting);
    RestingAreIdle(t.pool.workers);
  }

  lemma WakesKeepRested(s: State, t: State, w: nat)
    requires Rested(s) && (Publish(s, t, w) || SpuriousWake(s, t, w) || Timeout(s, t, w) || Leave(s, t, w))
    ensures Rested(t)
  {
    CountUpdate(s.pool.workers, w, t.pool.workers[w], IsResting);
  }

  lemma PushKeepsRested(s: State, a: Action, t: State)
    requires Rested(s) && Next(s, a, t)
    requires a.DoSubmitOrdinary? || a.DoShrinkTest?
    ensures Rested(t)
  {
    if a.wake.Some? {
      CountUpdate(s.pool.workers, a.wake.value, Woken(false), IsResting);
    }
  }

  lemma OthersKeepRested(s: State, a: Action, t: State)
    requires Rested(s) && Next(s, a, t) && LeavesWorkers(a) && !a.DoSetMaxIdle?
    ensures Rested(t)
  {
    assert t.pool.workers == s.pool.workers && t.pool.maxIdle == s.pool.maxIdle;
  }

  /** As long as `max_idle` is not changed, the limit on sleepers without a timeout holds. */
  lemma KeepsRested(s: State, a: Action, t: State)
    requires Signalled(s) && Rested(s) && Next(s, a, t) && !a.DoSetMaxIdle?
    ensures Rested(t)
  {
    if LeavesWorkers(a) {
      OthersKeepRested(s, a, t);
    } else if a.DoWorkerShift? {
      KeepsSignalled(s, a, t);
      ShiftKeepsRested(s, t, a.w);
    } else if a.DoStartThread? {
      CountAppend(s.pool.workers, Ready, IsResting);
    } else if a.DoSubmitOrdinary? || a.DoShrinkTest? {
      PushKeepsRested(s, a, t);
    } else {
      WakesKeepRested(s, t, a.w);
    }
  }

  // ----- what threads are started for -----

  /** What the main thread knows while it decides: the counters it has read can only err to the safe side. */
  ghost predicate Deciding(s: State, x: Start) {
    match x
    case Gate => true
    case Sum(started, npending, nreqs) =>
      && s.pool.started < s.pool.wanted
      && (started.Some? ==> s.pool.started <= started.value)
      && (npending.Some? ==> npending.value >= 0)
      && (nreqs.Some? ==> nreqs.value == s.pool.nreqs)
    case Create => s.pool.started < s.pool.wanted && s.pool.started < s.pool.nreqs
    case Created => s.pool.started < s.pool.wanted && s.pool.started < s.pool.nreqs
  }

  ghost predicate Needed(s: State) {
    AtStart(s) ==> Deciding(s, StartOf(s))
  }

  lemma DecisionsKeepNeeded(s: State, t: State, c: Counter)
    requires Stacked(s) && Counters(s) && Needed(s) && (PassGate(s, t) || ReadCounter(s, t, c) || Decide(s, t))
    ensures Needed(t)
  {
  }

  lemma StartsKeepNeeded(s: State, t: State, created: bool)
    requires Stacked(s) && Needed(s) && (StartThread(s, t, created) || CountThread(s, t))
    ensures Needed(t)
  {
  }

  lemma ShiftKeepsNeeded(s: State, t: State, w: nat)
    requires Needed(s) && WorkerShift(s, t, w)
    ensures Needed(t)
  {
  }

  lemma WorkersKeepNeeded(s: State, t: State, w: nat)
    requires Needed(s) && (Publish(s, t, w) || SpuriousWake(s, t, w) || Timeout(s, t, w) || Leave(s, t, w))
    ensures Needed(t)
  {
  }

  ghost predicate NamesRequests(a: Action) {
    a.DoSubmitOrdinary? || a.DoSubmitGroup? || a.DoAdd? || a.DoCancel? || a.DoCancelMembers?
  }

  lemma RequestCallsKeepNeeded(s: State, a: Action, t: State)
    requires Next(s, a, t) && UserMayCall(s) && NamesRequests(a)
    ensures Needed(t)
  {
  }

  lemma OtherCallsKeepNeeded(s: State, a: Action, t: State)
    requires Next(s, a, t) && UserMayCall(s) && !NamesRequests(a)
    requires !a.DoWorkerShift? && !a.DoPublish? && !a.DoSpuriousWake? && !a.DoTimeout? && !a.DoLeave?
    ensures Needed(t)
  {
  }

  lemma PollsKeepNeeded(s: State, t: State, b: bool)
    requires Stacked(s)
    requires PublishGroup(s, t) || PollShift(s, t) || PollCount(s, t) || PollResume(s, t, b) || LoopTest(s, t)
             || LoopWake(s, t, b)
    ensures Needed(t)
  {
  }

  lemma FinishesKeepNeeded(s: State, a: Action, t: State)
    requires Stacked(s) && Next(s, a, t)
    requires a.DoReturnFromCallback? || a.DoUnlink? || a.DoDestroy? || a.DoShrinkTest? || a.DoShrinkCount?
    ensures Needed(t)
  {
  }

  lemma OthersKeepNeeded(s: State, a: Action, t: State)
    requires Stacked(s) && Needed(s) && Next(s, a, t) && !UserMayCall(s)
    requires !a.DoWorkerShift? && !a.DoPublish? && !a.DoSpuriousWake? && !a.DoTimeout? && !a.DoLeave?
    requires !a.DoPassGate? && !a.DoReadCounter? && !a.DoDecide? && !a.DoStartThread? && !a.DoCountThread?
    ensures Needed(t)
  {
    if a.DoReturnFromCallback? || a.DoUnlink? || a.DoDestroy? || a.DoShrinkTest? || a.DoShrinkCount? {
      FinishesKeepNeeded(s, a, t);
    } else {
      PollsKeepNeeded(s, t, if a.DoPollResume? then a.again else a.DoLoopWake? && a.interrupted);
    }
  }

  lemma KeepsNeeded(s: State, a: Action, t: State)
    requires Stacked(s) && Counters(s) && Needed(s) && Next(s, a, t)
    ensures Needed(t)
  {
    if a.DoWorkerShift? {
      ShiftKeepsNeeded(s, t, a.w);
    } else if a.DoPublish? || a.DoSpuriousWake? || a.DoTimeout? || a.DoLeave? {
      WorkersKeepNeeded(s, t, a.w);
    } else if UserMayCall(s) {
      if NamesRequests(a) {
        RequestCallsKeepNeeded(s, a, t);
      } else {
        OtherCallsKeepNeeded(s, a, t);
      }
    } else if a.DoPassGate? || a.DoReadCounter? || a.DoDecide? {
      DecisionsKeepNeeded(s, t, if a.DoReadCounter? then a.counter else Requests);
    } else if a.DoStartThread? || a.DoCountThread? {
      StartsKeepNeeded(s, t, a.DoStartThread? && a.created);
    } else {
      OthersKeepNeeded(s, a, t);
    }
  }

  // ----- timeouts -----

  /** A worker gives up exactly if its wait timed out and there is nothing to do. */
  lemma GivesUp(s: State, t: State, w: nat)
    requires WorkerShift(s, t, w)
    ensures w < |s.pool.workers| && w < |t.pool.workers|
    ensures t.pool.workers[w].TimedOut? <==> s.pool.workers[w] == Woken(true) && Q.IsEmpty(s.pool.reqq)
    ensures t.pool.workers[w].Waiting? ==> (t.pool.workers[w].timed <==> t.pool.idle > t.pool.maxIdle)
    ensures Q.IsEmpty(s.pool.reqq) ==> t.pool.workers[w].Waiting? || t.pool.workers[w].TimedOut?
  {
  }

  /**
   * A worker that waits with a timeout can run out of it and leave while nothing is queued, unless the
   * main thread is just counting a new one. It is then counted as idle and as started no more.
   */
  lemma IdleThreadLeaves(s: State, w: nat) returns (t: State, u: State, v: State)
    requires w < |s.pool.workers| && s.pool.workers[w] == Waiting(true) && Q.IsEmpty(s.pool.reqq)
    requires !(AtStart(s) && StartOf(s) == Created)
    ensures Next(s, DoTimeout(w), t) && Next(t, DoWorkerShift(w), u) && Next(u, DoLeave(w), v)
    ensures v == s.(pool := s.pool.(started := s.pool.started - 1, idle := s.pool.idle - 1,
                                    workers := s.pool.workers[w := Gone]))
  {
    t := s.(pool := s.pool.(workers := s.pool.workers[w := Woken(true)]));
    u := t.(pool := t.pool.(idle := t.pool.idle - 1, workers := t.pool.workers[w := TimedOut]));
    v := u.(pool := u.pool.(started := u.pool.started - 1, workers := u.pool.workers[w := Gone]));
    assert v.pool.workers == s.pool.workers[w := Gone];
  }
}
