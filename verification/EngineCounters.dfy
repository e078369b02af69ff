/** The pool's counters, the notification of the main thread, and the wakes of idle workers. */
module EngineCounters {
  import opened Counting
  import opened Engine
  import opened EnginePlaces
  import opened Options
  import Q = PriLists

  // ----- the counters -----

  ghost predicate Counters(s: State) {
    && s.pool.nreqs == Count(s.stages, InFlight)
    && s.pool.npending == Count(s.stages, IsPending)
    && s.pool.nready == Count(s.stages, IsQueued) - s.pool.quits
  }

  lemma StageChange(stages: seq<Stage>, r: nat, x: Stage)
    requires r < |stages|
    ensures Count(stages[r := x], InFlight) + (if InFlight(stages[r]) then 1 else 0) ==
            Count(stages, InFlight) + if InFlight(x) then 1 else 0
    ensures Count(stages[r := x], IsPending) + (if IsPending(stages[r]) then 1 else 0) ==
            Count(stages, IsPending) + if IsPending(x) then 1 else 0
    ensures Count(stages[r := x], IsQueued) + (if IsQueued(stages[r]) then 1 else 0) ==
            Count(stages, IsQueued) + if IsQueued(x) then 1 else 0
  {
    CountUpdate(stages, r, x, InFlight);
    CountUpdate(stages, r, x, IsPending);
    CountUpdate(stages, r, x, IsQueued);
  }

  lemma StageAdded(stages: seq<Stage>, x: Stage)
    ensures Count(stages + [x], InFlight) == Count(stages, InFlight) + if InFlight(x) then 1 else 0
    ensures Count(stages + [x], IsPending) == Count(stages, IsPending) + if IsPending(x) then 1 else 0
    ensures Count(stages + [x], IsQueued) == Count(stages, IsQueued) + if IsQueued(x) then 1 else 0
  {
    CountAppend(stages, x, InFlight);
    CountAppend(stages, x, IsPending);
    CountAppend(stages, x, IsQueued);
  }

  lemma PollShiftKeepsCounters(s: State, t: State)
    requires Places(s) && Counters(s) && PollShift(s, t)
    ensures Counters(t)
  {
    if !Q.IsEmpty(s.pool.resq) {
      Q.RestItems(s.pool.resq);
      StageChange(s.stages, Q.Front(s.pool.resq), Taken(|s.stack| - 1));
    }
  }

  lemma PollCountKeepsCounters(s: State, t: State)
    requires Places(s) && Counters(s) && PollCount(s, t)
    ensures Counters(t)
  {
    assert FrameMatches(s, |s.stack| - 1);
    var r := Last(s.stack).step.id;
    StageChange(s.stages, r, t.stages[r]);
  }

  lemma PublishGroupKeepsCounters(s: State, t: State)
    requires Places(s) && Counters(s) && PublishGroup(s, t)
    ensures Counters(t)
  {
    assert FrameMatches(s, |s.stack| - 1);
    StageChange(s.stages, Last(s.stack).id, InResults);
  }

  lemma OutsideKeepsCounters(s: State, t: State)
    requires Places(s) && Counters(s) && s.stack != [] && Last(s.stack).Finish?
    requires Last(s.stack).part == AfterCallback && Known(s, Last(s.stack).id)
    requires s.reqs[Last(s.stack).id].group.Some? ==> Known(s, s.reqs[Last(s.stack).id].group.value)
    requires t == Outside(s)
    ensures Counters(t)
  {
    assert FrameMatches(s, |s.stack| - 1);
    StageChange(s.stages, Last(s.stack).id, Unlinked(|s.stack| - 1));
  }

  lemma FinishesKeepsCounters(s: State, t: State, g: nat)
    requires Counters(s) && Known(s, g) && s.stages[g].Delayed? && t == Finishes(s, g)
    ensures Counters(t)
  {
    StageChange(s.stages, g, Finishing(|s.stack|));
  }

  lemma UnlinkKeepsCounters(s: State, t: State)
    requires Places(s) && Flagged(s) && Counters(s) && Unlink(s, t)
    ensures Counters(t)
  {
    OutsideKeepsCounters(s, Outside(s));
    if t != Outside(s) {
      UnlinkFinishesDelayed(s, t);
      FinishesKeepsCounters(Outside(s), t, s.reqs[Last(s.stack).id].group.value);
    }
  }

  lemma DestroyKeepsCounters(s: State, t: State)
    requires Places(s) && Counters(s) && Destroy(s, t)
    ensures Counters(t)
  {
    assert FrameMatches(s, |s.stack| - 1);
    StageChange(s.stages, Last(s.stack).id, Stage.Destroyed);
  }

  lemma PublishKeepsCounters(s: State, t: State, w: nat)
    requires Places(s) && Counters(s) && Publish(s, t, w)
    ensures Counters(t)
  {
    assert WorkerMatches(s, w);
    StageChange(s.stages, s.pool.workers[w].id, InResults);
  }

  lemma WorkerShiftKeepsCounters(s: State, t: State, w: nat)
    requires Places(s) && Counters(s) && WorkerShift(s, t, w)
    ensures Counters(t)
  {
    if !Q.IsEmpty(s.pool.reqq) {
      Q.RestItems(s.pool.reqq);
      match Q.Front(s.pool.reqq)
      case Quit =>
      case R(r) => StageChange(s.stages, r, Running(w));
    }
  }

  lemma QuietKeepsCounters(s: State, a: Action, t: State)
    requires Counters(s) && Next(s, a, t) && Quiet(a)
    ensures Counters(t)
  {
    QuietIsStill(s, a, t);
  }

  lemma SubmitKeepsCounters(s: State, a: Action, t: State)
    requires Counters(s) && Next(s, a, t)
    requires a.DoSubmitOrdinary? || a.DoSubmitGroup?
    ensures Counters(t)
  {
    StageAdded(s.stages, if a.DoSubmitOrdinary? then Queued else Announced(|s.stack|));
  }

  lemma MainKeepsCounters(s: State, a: Action, t: State)
    requires Places(s) && Flagged(s) && Counters(s) && Next(s, a, t)
    requires a.DoPublishGroup? || a.DoReturnFromCallback? || a.DoPollShift? || a.DoPollCount? || a.DoUnlink?
             || a.DoDestroy?
    ensures Counters(t)
  {
    match a
    case DoPollShift => PollShiftKeepsCounters(s, t);
    case DoPollCount => PollCountKeepsCounters(s, t);
    case DoPublishGroup => PublishGroupKeepsCounters(s, t);
    case DoReturnFromCallback =>
    case DoUnlink => UnlinkKeepsCounters(s, t);
    case DoDestroy => DestroyKeepsCounters(s, t);
  }

  /** What is counted is conserved by every step. */
  lemma KeepsCounters(s: State, a: Action, t: State)
    requires Places(s) && Flagged(s) && Counters(s) && Next(s, a, t)
    ensures Counters(t)
  {
    if Quiet(a) {
      QuietKeepsCounters(s, a, t);
    } else if a.DoSubmitOrdinary? || a.DoSubmitGroup? {
      SubmitKeepsCounters(s, a, t);
    } else if a.DoWorkerShift? {
      WorkerShiftKeepsCounters(s, t, a.w);
    } else if a.DoPublish? {
      PublishKeepsCounters(s, t, a.w);
    } else {
      MainKeepsCounters(s, a, t);
    }
  }

  // ----- the counters and the contents of the queues -----

  ghost predicate IsExecuting(w: Worker) { w.Executing? }

  /** The ordinary requests in the request queue. */
  ghost function Ordinaries(p: Pool): int {
    Q.Total(p.reqq) - Q.Items(p.reqq)[Quit]
  }

  /** A request between the two critical sections that count it and queue it, or take it and count it down. */
  ghost function Between(stack: seq<Frame>): nat {
    if stack == [] then 0
    else match Last(stack)
      case PushGroup(_) => 1
      case Poll(Counting(_)) => 1
      case _ => 0
  }

  ghost predicate Balanced(s: State) {
    && s.pool.nreqs == Ordinaries(s.pool) + Count(s.pool.workers, IsExecuting) + Q.Total(s.pool.resq) + Between(s.stack)
    && s.pool.npending == Q.Total(s.pool.resq)
    && s.pool.nready == Ordinaries(s.pool) - s.pool.quits
  }

  lemma QuietQueue(p: Pool, q: Pool)
    requires SameQueue(p.reqq, q.reqq)
    ensures Ordinaries(q) == Ordinaries(p)
  {
    if q.reqq != p.reqq {
      Q.PushItems(p.reqq, Q.ETP_NUM_PRI - 1, Quit);
    }
  }

  lemma {:induction false} QuietWorkers(was: seq<Worker>, now: seq<Worker>)
    requires PlainWorkers(was, now)
    ensures Count(now, IsExecuting) == Count(was, IsExecuting)
    decreases |now|
  {
    if now != [] {
      var n := |now| - 1;
      QuietWorkers(if |was| == |now| then was[..n] else was, now[..n]);
    }
  }

  /** Neither a plain frame nor a suspended one stands between two critical sections. */
  lemma QuietStack(s: State, t: State)
    requires Stacked(s) && PlainStack(s.stack, t.stack)
    ensures Between(t.stack) == Between(s.stack)
  {
  }

  lemma StillKeepsBalanced(s: State, t: State)
    requires Stacked(s) && Balanced(s) && Still(s, t)
    ensures Balanced(t)
  {
    QuietStack(s, t);
    QuietQueue(s.pool, t.pool);
    QuietWorkers(s.pool.workers, t.pool.workers);
  }

  lemma SubmitKeepsBalanced(s: State, t: State, pri: int, wake: Option<nat>)
    requires Balanced(s) && SubmitOrdinary(s, t, pri, wake)
    ensures Balanced(t)
  {
    Q.PushItems(s.pool.reqq, Q.QueueOf(pri), R(|s.stages|));
    QuietWorkers(s.pool.workers, t.pool.workers);
  }

  lemma SubmitGroupKeepsBalanced(s: State, t: State)
    requires Balanced(s) && SubmitGroup(s, t)
    ensures Balanced(t)
  {
  }

  lemma WorkerShiftKeepsBalanced(s: State, t: State, w: nat)
    requires Balanced(s) && WorkerShift(s, t, w)
    ensures Balanced(t)
  {
    CountUpdate(s.pool.workers, w, t.pool.workers[w], IsExecuting);
    if !Q.IsEmpty(s.pool.reqq) {
      Q.RestItems(s.pool.reqq);
    }
  }

  lemma PublishKeepsBalanced(s: State, t: State, w: nat)
    requires Balanced(s) && Publish(s, t, w)
    ensures Balanced(t)
  {
    var r := s.pool.workers[w].id;
    CountUpdate(s.pool.workers, w, Ready, IsExecuting);
    Q.PushItems(s.pool.resq, s.reqs[r].queue, r);
  }

  lemma PollShiftKeepsBalanced(s: State, t: State)
    requires Stacked(s) && Balanced(s) && PollShift(s, t)
    ensures Balanced(t)
  {
    if !Q.IsEmpty(s.pool.resq) {
      Q.RestItems(s.pool.resq);
    }
  }

  lemma PollCountKeepsBalanced(s: State, t: State)
    requires Balanced(s) && PollCount(s, t)
    ensures Balanced(t)
  {
  }

  lemma PublishGroupKeepsBalanced(s: State, t: State)
    requires Stacked(s) && Balanced(s) && PublishGroup(s, t)
    ensures Balanced(t)
  {
    Q.PushItems(s.pool.resq, s.reqs[Last(s.stack).id].queue, Last(s.stack).id);
  }

  lemma UnlinkKeepsBalanced(s: State, t: State)
    requires Balanced(s) && Unlink(s, t)
    ensures Balanced(t)
  {
  }

  lemma FinishKeepsBalanced(s: State, t: State)
    requires Stacked(s) && Balanced(s) && (ReturnFromCallback(s, t) || Destroy(s, t))
    ensures Balanced(t)
  {
  }

  /** The counters keep matching the contents of the queues and the executing workers. */
  lemma KeepsBalanced(s: State, a: Action, t: State)
    requires Stacked(s) && Balanced(s) && Next(s, a, t)
    ensures Balanced(t)
  {
    if Quiet(a) {
      QuietIsStill(s, a, t);
      StillKeepsBalanced(s, t);
    } else if a.DoSubmitOrdinary? {
      SubmitKeepsBalanced(s, t, a.pri, a.wake);
    } else if a.DoSubmitGroup? {
      SubmitGroupKeepsBalanced(s, t);
    } else if a.DoWorkerShift? {
      WorkerShiftKeepsBalanced(s, t, a.w);
    } else if a.DoPublish? {
      PublishKeepsBalanced(s, t, a.w);
    } else if a.DoPollShift? {
      PollShiftKeepsBalanced(s, t);
    } else if a.DoPollCount? {
      PollCountKeepsBalanced(s, t);
    } else if a.DoPublishGroup? {
      PublishGroupKeepsBalanced(s, t);
    } else if a.DoUnlink? {
      UnlinkKeepsBalanced(s, t);
    } else {
      FinishKeepsBalanced(s, t);
    }
  }

  // ----- the notification -----

  /** Want and done alternate, starting with want. */
  ghost predicate Alternates(log: seq<Note>) {
    forall i :: 0 <= i < |log| ==> log[i] == if i % 2 == 0 then Want else Done
  }

  /** The descriptor is readable if and only if there are results, which was the last thing to be told. */
  ghost predicate Notified(s: State) {
    && UnitOk(s.notice.fd)
    && Alternates(s.notice.log)
    && s.notice.avail == (if Q.IsEmpty(s.pool.resq) then 0 else Unit(s.notice.fd))
    && |s.notice.log| % 2 == if Q.IsEmpty(s.pool.resq) then 0 else 1
  }

  lemma PublishedKeepsNotified(s: State, r: nat)
    requires Notified(s) && Known(s, r)
    ensures Notified(Published(s, r))
  {
    Q.PushItems(s.pool.resq, s.reqs[r].queue, r);
  }

  lemma PollShiftKeepsNotified(s: State, t: State)
    requires Notified(s) && PollShift(s, t)
    ensures Notified(t)
  {
  }

  lemma SameResultsKeepNotified(s: State, t: State)
    requires Notified(s) && t.notice == s.notice && t.pool.resq == s.pool.resq
    ensures Notified(t)
  {
  }

  lemma OthersLeaveResults(s: State, a: Action, t: State)
    requires Next(s, a, t) && !Quiet(a) && !a.DoPublish? && !a.DoPublishGroup? && !a.DoPollShift?
    ensures t.notice == s.notice && t.pool.resq == s.pool.resq
  {
  }

  lemma KeepsNotified(s: State, a: Action, t: State)
    requires Notified(s) && Next(s, a, t)
    ensures Notified(t)
  {
    if a.DoPublish? {
      PublishedKeepsNotified(s, s.pool.workers[a.w].id);
    } else if a.DoPublishGroup? {
      PublishedKeepsNotified(s, Last(s.stack).id);
    } else if a.DoPollShift? {
      PollShiftKeepsNotified(s, t);
    } else {
      if Quiet(a) {
        QuietIsStill(s, a, t);
      } else {
        OthersLeaveResults(s, a, t);
      }
      SameResultsKeepNotified(s, t);
    }
  }

  // ----- idle workers -----

  /** A worker sleeps unsignalled only if enough others are awake for all queued requests. */
  ghost predicate Signalled(s: State) {
    && s.pool.idle == Count(s.pool.workers, IsIdle)
    && (Count(s.pool.workers, IsWaiting) > 0 ==> Q.Total(s.pool.reqq) <= Count(s.pool.workers, IsWoken))
  }

  lemma WorkerChange(workers: seq<Worker>, w: nat, x: Worker)
    requires w < |workers|
    ensures Count(workers[w := x], IsIdle) + (if IsIdle(workers[w]) then 1 else 0) ==
            Count(workers, IsIdle) + if IsIdle(x) then 1 else 0
    ensures Count(workers[w := x], IsWaiting) + (if IsWaiting(workers[w]) then 1 else 0) ==
            Count(workers, IsWaiting) + if IsWaiting(x) then 1 else 0
    ensures Count(workers[w := x], IsWoken) + (if IsWoken(workers[w]) then 1 else 0) ==
            Count(workers, IsWoken) + if IsWoken(x) then 1 else 0
  {
    CountUpdate(workers, w, x, IsIdle);
    CountUpdate(workers, w, x, IsWaiting);
    CountUpdate(workers, w, x, IsWoken);
  }

  /** A push with a wake keeps the balance. */
  lemma PushWakes(s: State, t: State, p: nat, x: Item, wake: Option<nat>)
    requires Signalled(s) && WakeOk(s.pool.workers, wake) && p < |s.pool.reqq|
    requires t.pool.reqq == Q.Push(s.pool.reqq, p, x) && t.pool.workers == Wake(s.pool.workers, wake)
    requires t.pool.idle == s.pool.idle
    ensures Signalled(t)
  {
    Q.PushItems(s.pool.reqq, p, x);
    match wake
    case None => CountAll(s.pool.workers, IsWaiting);
    case Some(w) => WorkerChange(s.pool.workers, w, Woken(false));
  }

  lemma TakeKeepsSignalled(s: State, t: State, w: nat)
    requires Signalled(s) && WorkerShift(s, t, w) && !Q.IsEmpty(s.pool.reqq)
    ensures Signalled(t)
  {
    WorkerChange(s.pool.workers, w, t.pool.workers[w]);
    Q.RestItems(s.pool.reqq);
  }

  lemma WaitKeepsSignalled(s: State, t: State, w: nat)
    requires Signalled(s) && WorkerShift(s, t, w) && Q.IsEmpty(s.pool.reqq)
    ensures Signalled(t)
  {
    WorkerChange(s.pool.workers, w, t.pool.workers[w]);
    Q.EmptyTotal(s.pool.reqq);
  }

  lemma WorkerKeepsSignalled(s: State, t: State, w: nat)
    requires Signalled(s) && (Publish(s, t, w) || SpuriousWake(s, t, w) || Timeout(s, t, w) || Leave(s, t, w))
    ensures Signalled(t)
  {
    WorkerChange(s.pool.workers, w, t.pool.workers[w]);
  }

  lemma SubmitKeepsSignalled(s: State, t: State, pri: int, wake: Option<nat>)
    requires Signalled(s) && SubmitOrdinary(s, t, pri, wake)
    ensures Signalled(t)
  {
    PushWakes(s, t, Q.QueueOf(pri), R(|s.stages|), wake);
  }

  lemma ShrinkKeepsSignalled(s: State, t: State, wake: Option<nat>)
    requires Signalled(s) && ShrinkTest(s, t, wake)
    ensures Signalled(t)
  {
    if s.pool.started > s.pool.wanted {
      PushWakes(s, t, Q.ETP_NUM_PRI - 1, Quit, wake);
    }
  }

  lemma StartKeepsSignalled(s: State, t: State, created: bool)
    requires Signalled(s) && StartThread(s, t, created)
    ensures Signalled(t)
  {
    CountAppend(s.pool.workers, Ready, IsIdle);
    CountAppend(s.pool.workers, Ready, IsWaiting);
    CountAppend(s.pool.workers, Ready, IsWoken);
  }

  /** The steps that neither queue a request nor change a worker. */
  ghost predicate LeavesWorkers(a: Action) {
    !a.DoSubmitOrdinary? && !a.DoShrinkTest? && !a.DoStartThread? && !a.DoWorkerShift? && !a.DoPublish?
    && !a.DoSpuriousWake? && !a.DoTimeout? && !a.DoLeave?
  }

  lemma OthersKeepSignalled(s: State, a: Action, t: State)
    requires Signalled(s) && Next(s, a, t) && LeavesWorkers(a)
    ensures Signalled(t)
  {
    assert t.pool.workers == s.pool.workers && t.pool.reqq == s.pool.reqq && t.pool.idle == s.pool.idle;
  }

  lemma WorkersKeepSignalled(s: State, a: Action, t: State)
    requires Signalled(s) && Next(s, a, t)
    requires a.DoWorkerShift? || a.DoPublish? || a.DoSpuriousWake? || a.DoTimeout? || a.DoLeave?
    ensures Signalled(t)
  {
    if !a.DoWorkerShift? {
      WorkerKeepsSignalled(s, t, a.w);
    } else if Q.IsEmpty(s.pool.reqq) {
      WaitKeepsSignalled(s, t, a.w);
    } else {
      TakeKeepsSignalled(s, t, a.w);
    }
  }

  /** No step leaves a queued request without an awake worker while another one sleeps. */
  lemma KeepsSignalled(s: State, a: Action, t: State)
    requires Signalled(s) && Next(s, a, t)
    ensures Signalled(t)
  {
    if LeavesWorkers(a) {
      OthersKeepSignalled(s, a, t);
    } else if a.DoSubmitOrdinary? {
      SubmitKeepsSignalled(s, t, a.pri, a.wake);
    } else if a.DoShrinkTest? {
      ShrinkKeepsSignalled(s, t, a.wake);
    } else if a.DoStartThread? {
      StartKeepsSignalled(s, t, a.created);
    } else {
      WorkersKeepSignalled(s, a, t);
    }
  }

  // ----- the event loop -----

  /** A blocked event loop has a request to wait for. */
  ghost predicate Awaiting(s: State) {
    IsTop(s, EventLoop(true)) ==> s.pool.nreqs > 0
  }

  lemma WorkerKeepsAwaiting(s: State, t: State, w: nat)
    requires Awaiting(s) && (WorkerShift(s, t, w) || Publish(s, t, w))
    ensures Awaiting(t)
  {
  }

  lemma PollKeepsAwaiting(s: State, t: State)
    requires Stacked(s) && (PollShift(s, t) || PollCount(s, t))
    ensures Awaiting(t)
  {
  }

  lemma FinishKeepsAwaiting(s: State, t: State)
    requires Stacked(s) && (ReturnFromCallback(s, t) || Unlink(s, t) || Destroy(s, t))
    ensures Awaiting(t)
  {
  }

  lemma SubmitKeepsAwaiting(s: State, a: Action, t: State)
    requires Stacked(s) && Next(s, a, t)
    requires a.DoSubmitOrdinary? || a.DoSubmitGroup? || a.DoPublishGroup?
    ensures Awaiting(t)
  {
  }

  lemma LoopTestKeepsAwaiting(s: State, t: State)
    requires Stacked(s) && Counters(s) && LoopTest(s, t)
    ensures Awaiting(t)
  {
  }

  /** Only the test of the event loop makes it block. */
  lemma BlocksOnlyByTest(s: State, a: Action, t: State)
    requires Next(s, a, t) && Quiet(a) && !a.DoLoopTest? && IsTop(t, EventLoop(true))
    requires Stacked(s)
    ensures IsTop(s, EventLoop(true))
  {
  }

  lemma MovesKeepAwaiting(s: State, a: Action, t: State)
    requires Stacked(s) && Awaiting(s) && Next(s, a, t) && !Quiet(a)
    ensures Awaiting(t)
  {
    if a.DoWorkerShift? || a.DoPublish? {
      WorkerKeepsAwaiting(s, t, a.w);
    } else if a.DoPollShift? || a.DoPollCount? {
      PollKeepsAwaiting(s, t);
    } else if a.DoReturnFromCallback? || a.DoUnlink? || a.DoDestroy? {
      FinishKeepsAwaiting(s, t);
    } else {
      SubmitKeepsAwaiting(s, a, t);
    }
  }

  lemma KeepsAwaiting(s: State, a: Action, t: State)
    requires Stacked(s) && Counters(s) && Awaiting(s) && Next(s, a, t)
    ensures Awaiting(t)
  {
    if !Quiet(a) {
      MovesKeepAwaiting(s, a, t);
    } else if a.DoLoopTest? {
      LoopTestKeepsAwaiting(s, t);
    } else {
      QuietIsStill(s, a, t);
      if IsTop(t, EventLoop(true)) {
        BlocksOnlyByTest(s, a, t);
      }
    }
  }
}
