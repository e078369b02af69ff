/**
 * The thread pool, the request groups and the event loop as a state machine, with one step for each
 * critical section of the worker threads and for each step of the main thread between two of them.
 */
module Engine {
  import opened Members
  import opened Options
  import Q = PriLists

  // ----- requests -----

  /** Where a request is. The main thread handles a request in a frame of its stack. */
  datatype Stage =
    | Announced(frame: nat)  // a group that is counted, but not yet in the result queue
    | Queued
    | Running(worker: nat)
    | InResults
    | Taken(frame: nat)      // shifted from the result queue, but still counted
    | Delayed                // a group that waits for its members
    | Finishing(frame: nat)
    | Unlinked(frame: nat)   // no longer a member of its group
    | Destroyed

  ghost predicate IsQueued(x: Stage) { x.Queued? }

  ghost predicate IsPending(x: Stage) { x.InResults? }

  /** The stages in which a request is counted. */
  ghost predicate InFlight(x: Stage) {
    x.Announced? || x.Queued? || x.Running? || x.InResults? || x.Taken?
  }

  // ----- threads -----

  datatype Item = Quit | R(id: nat)

  datatype Worker =
    | Ready                     // about to take the request lock
    | Waiting(timed: bool)
    | Woken(timedOut: bool)     // no longer waiting, but still counted as idle
    | Executing(id: nat)
    | TimedOut                  // about to leave, still counted as started
    | Gone

  ghost predicate IsWaiting(w: Worker) { w.Waiting? }

  ghost predicate IsWoken(w: Worker) { w.Woken? }

  ghost predicate IsIdle(w: Worker) { w.Waiting? || w.Woken? }

  // ----- the main thread -----

  /** The parts of deciding whether to start a thread; the three counters are read in any order. */
  datatype Start =
    | Gate
    | Sum(started: Option<int>, npending: Option<int>, nreqs: Option<int>)
    | Create
    | Created                   // the new thread may already run, but is not counted yet

  datatype FinishStep = InCallback | AfterCallback | Destroying

  datatype PollStep = Starting(start: Start) | Shifting | Counting(id: nat) | Dispatched

  datatype Frame =
    | EventLoop(blocked: bool)
    | Poll(step: PollStep)
    | Finish(id: nat, part: FinishStep)
    | PushGroup(id: nat)
    | Submitted(start: Start)
    | Shrink(counting: bool)

  // ----- the notification of the main thread -----

  datatype Note = Want | Done

  /** An event counter is reset by a read; a pipe or socket gets `unit` bytes and a read takes up to nine. */
  datatype Descriptor = EventCounter | Bytes(unit: nat)

  ghost predicate UnitOk(fd: Descriptor) {
    fd.Bytes? ==> 1 <= fd.unit <= 9
  }

  ghost function Unit(fd: Descriptor): nat {
    if fd.EventCounter? then 1 else fd.unit
  }

  // ----- the state -----

  datatype Pool = Pool(
    reqq: Q.Lists<Item>, resq: Q.Lists<nat>,
    nreqs: int, nready: int, npending: int, started: int, idle: int,
    wanted: int, maxIdle: int,
    workers: seq<Worker>,
    quits: nat)                 // quit requests taken so far

  datatype Notice = Notice(fd: Descriptor, avail: nat, log: seq<Note>)

  datatype State = State(pool: Pool, notice: Notice, stages: seq<Stage>, reqs: seq<Request>, stack: seq<Frame>)

  datatype Config = Config(fd: Descriptor, wanted: nat, maxIdle: nat)

  ghost predicate Init(s: State, c: Config) {
    && UnitOk(c.fd)
    && s == State(Pool(Q.Empty(), Q.Empty(), 0, 0, 0, 0, 0, c.wanted, c.maxIdle, [], 0),
                  Notice(c.fd, 0, []), [], [], [])
  }

  /** Is `r` the number of a request, with a priority that the queues have? */
  ghost predicate Known(s: State, r: nat) {
    && |s.stages| == |s.reqs|
    && r < |s.reqs|
    && s.reqs[r].queue < |s.pool.resq|
  }

  ghost predicate IsTop(s: State, f: Frame) {
    s.stack != [] && s.stack[|s.stack| - 1] == f
  }

  ghost function Last(stack: seq<Frame>): Frame
    requires stack != []
  {
    stack[|stack| - 1]
  }

  ghost function Pop(stack: seq<Frame>): seq<Frame>
    requires stack != []
  {
    stack[..|stack| - 1]
  }

  /** The stack with a new top frame in place of the old one. */
  ghost function Retop(stack: seq<Frame>, f: Frame): seq<Frame>
    requires stack != []
  {
    stack[|stack| - 1 := f]
  }

  // ----- the queues and the signals -----

  /** The wake of one waiting worker, if there is one. */
  ghost predicate WakeOk(workers: seq<Worker>, wake: Option<nat>) {
    match wake
    case None => forall w :: 0 <= w < |workers| ==> !workers[w].Waiting?
    case Some(w) => w < |workers| && workers[w].Waiting?
  }

  ghost function Wake(workers: seq<Worker>, wake: Option<nat>): seq<Worker> {
    if wake.Some? && wake.value < |workers| then workers[wake.value := Woken(false)] else workers
  }

  // What each critical section does to the counters and the queues

  ghost function AddRequest(p: Pool, queue: nat, r: nat): Pool
    requires queue < |p.reqq|
  {
    p.(nreqs := p.nreqs + 1, nready := p.nready + 1, reqq := Q.Push(p.reqq, queue, R(r)))
  }

  ghost function AddQuit(p: Pool): Pool
    requires |p.reqq| == Q.ETP_NUM_PRI
  {
    p.(reqq := Q.Push(p.reqq, Q.ETP_NUM_PRI - 1, Quit))
  }

  ghost function TakeRequest(p: Pool): Pool
    requires !Q.IsEmpty(p.reqq)
  {
    p.(nready := p.nready - 1, reqq := Q.Rest(p.reqq))
  }

  ghost function AddResult(p: Pool, queue: nat, r: nat): Pool
    requires queue < |p.resq|
  {
    p.(npending := p.npending + 1, resq := Q.Push(p.resq, queue, r))
  }

  ghost function TakeResult(p: Pool): Pool
    requires !Q.IsEmpty(p.resq)
  {
    p.(npending := p.npending - 1, resq := Q.Rest(p.resq))
  }

  ghost function Wanted(n: Notice): Notice {
    n.(avail := n.avail + Unit(n.fd), log := n.log + [Want])
  }

  ghost function Finished(n: Notice): Notice {
    n.(avail := if n.fd.EventCounter? || n.avail <= 9 then 0 else n.avail - 9, log := n.log + [Done])
  }

  /** Request `r` enters the result queue; the first one there is announced. */
  ghost function Published(s: State, r: nat): State
    requires Known(s, r)
  {
    s.(pool := AddResult(s.pool, s.reqs[r].queue, r),
       notice := if Q.IsEmpty(s.pool.resq) then Wanted(s.notice) else s.notice,
       stages := s.stages[r := InResults])
  }

  // ----- the user's calls, allowed outside of the library and in callbacks -----

  ghost predicate UserMayCall(s: State) {
    s.stack == [] || (Last(s.stack).Finish? && Last(s.stack).part == InCallback)
  }

  /** An ordinary request is counted and queued in one critical section, then a thread may be started. */
  ghost predicate SubmitOrdinary(s: State, t: State, pri: int, wake: Option<nat>) {
    && UserMayCall(s)
    && WakeOk(s.pool.workers, wake)
    && |s.pool.reqq| == Q.ETP_NUM_PRI
    && var p := AddRequest(s.pool, Q.QueueOf(pri), |s.stages|);
    && t == s.(pool := p.(workers := Wake(p.workers, wake)),
               stages := s.stages + [Queued],
               reqs := s.reqs + [NewRequest(Ordinary, Q.QueueOf(pri))],
               stack := s.stack + [Submitted(Gate)])
  }

  /** A group is counted in one critical section and published in the next. */
  ghost predicate SubmitGroup(s: State, t: State) {
    && UserMayCall(s)
    && t == s.(pool := s.pool.(nreqs := s.pool.nreqs + 1),
               stages := s.stages + [Announced(|s.stack|)],
               reqs := s.reqs + [NewRequest(Group, Q.QueueOf(Q.ETP_PRI_MAX))],
               stack := s.stack + [PushGroup(|s.stages|)])
  }

  ghost predicate PublishGroup(s: State, t: State) {
    && s.stack != [] && Last(s.stack).PushGroup?
    && Known(s, Last(s.stack).id)
    && t == Published(s, Last(s.stack).id).(stack := Pop(s.stack))
  }

  // Membership, which the user keeps acyclic

  ghost predicate MayGain(x: Stage) { x.InResults? || x.Delayed? }

  ghost predicate MayJoin(x: Stage) {
    x.Queued? || x.Running? || x.InResults? || x.Delayed? || x.Finishing?
  }

  ghost predicate Add(s: State, t: State, g: nat, r: nat) {
    && UserMayCall(s)
    && Known(s, g) && Known(s, r)
    && s.reqs[g].kind == Group && MayGain(s.stages[g])
    && s.reqs[r].group == None && MayJoin(s.stages[r])
    && !Reaches(s.reqs, r, g)
    && t == s.(reqs := Joined(s.reqs, g, r))
  }

  /** Cancels a request and all its members. */
  ghost predicate Cancel(s: State, t: State, r: nat) {
    && UserMayCall(s) && Known(s, r) && !s.stages[r].Destroyed?
    && t == s.(reqs := Marked(s.reqs, iset x: nat | Reaches(s.reqs, r, x)))
  }

  /** Cancels all members of a group, but not the group. */
  ghost predicate CancelMembers(s: State, t: State, g: nat) {
    && UserMayCall(s) && Known(s, g) && !s.stages[g].Destroyed?
    && t == s.(reqs := Marked(s.reqs, iset x: nat | x != g && Reaches(s.reqs, g, x)))
  }

  ghost predicate EnterLoop(s: State, t: State) {
    UserMayCall(s) && t == s.(stack := s.stack + [EventLoop(false)])
  }

  ghost predicate CallPoll(s: State, t: State) {
    UserMayCall(s) && t == s.(stack := s.stack + [Poll(Starting(Gate))])
  }

  ghost predicate SetMinParallel(s: State, t: State, n: nat) {
    UserMayCall(s) && t == if s.pool.wanted < n then s.(pool := s.pool.(wanted := n)) else s
  }

  ghost predicate SetMaxParallel(s: State, t: State, n: nat) {
    && UserMayCall(s)
    && t == s.(pool := if s.pool.wanted > n then s.pool.(wanted := n) else s.pool,
               stack := s.stack + [Shrink(false)])
  }

  ghost predicate SetMaxIdle(s: State, t: State, n: nat) {
    UserMayCall(s) && t == s.(pool := s.pool.(maxIdle := n))
  }

  ghost predicate ReturnFromCallback(s: State, t: State) {
    && s.stack != [] && Last(s.stack).Finish? && Last(s.stack).part == InCallback
    && t == s.(stack := Retop(s.stack, Finish(Last(s.stack).id, AfterCallback)))
  }

  // ----- starting threads -----

  ghost predicate AtStart(s: State) {
    && s.stack != []
    && match Last(s.stack)
       case Submitted(_) => true
       case Poll(Starting(_)) => true
       case _ => false
  }

  ghost function StartOf(s: State): Start
    requires AtStart(s)
  {
    match Last(s.stack)
    case Submitted(start) => start
    case Poll(Starting(start)) => start
  }

  ghost function WithStart(s: State, start: Start): State
    requires AtStart(s)
  {
    s.(stack := Retop(s.stack, if Last(s.stack).Submitted? then Submitted(start) else Poll(Starting(start))))
  }

  /** The decision is made: a submit returns, a poll goes on with the result queue. */
  ghost function StartDone(s: State): State
    requires AtStart(s)
  {
    s.(stack := if Last(s.stack).Submitted? then Pop(s.stack) else Retop(s.stack, Poll(Shifting)))
  }

  ghost predicate PassGate(s: State, t: State) {
    && AtStart(s) && StartOf(s) == Gate
    && t == if s.pool.started >= s.pool.wanted then StartDone(s) else WithStart(s, Sum(None, None, None))
  }

  datatype Counter = StartedThreads | PendingResults | Requests

  ghost predicate ReadCounter(s: State, t: State, c: Counter) {
    && AtStart(s) && StartOf(s).Sum?
    && var x := StartOf(s);
    match c
    case StartedThreads => x.started.None? && t == WithStart(s, x.(started := Some(s.pool.started)))
    case PendingResults => x.npending.None? && t == WithStart(s, x.(npending := Some(s.pool.npending)))
    case Requests => x.nreqs.None? && t == WithStart(s, x.(nreqs := Some(s.pool.nreqs)))
  }

  ghost predicate Decide(s: State, t: State) {
    && AtStart(s) && StartOf(s).Sum?
    && var x := StartOf(s);
    && x.started.Some? && x.npending.Some? && x.nreqs.Some?
    && t == if 0 <= x.started.value + x.npending.value - x.nreqs.value then StartDone(s) else WithStart(s, Create)
  }

  /** A thread that is created runs at once; one that is not is done without. */
  ghost predicate StartThread(s: State, t: State, created: bool) {
    && AtStart(s) && StartOf(s) == Create
    && t == if created then WithStart(s, Created).(pool := s.pool.(workers := s.pool.workers + [Ready]))
            else StartDone(s)
  }

  ghost predicate CountThread(s: State, t: State) {
    && AtStart(s) && StartOf(s) == Created
    && t == StartDone(s).(pool := s.pool.(started := s.pool.started + 1))
  }

  // ----- polling and finishing -----

  ghost predicate PollShift(s: State, t: State) {
    && IsTop(s, Poll(Shifting))
    && if Q.IsEmpty(s.pool.resq) then t == s.(stack := Pop(s.stack))
       else
         var r := Q.Front(s.pool.resq);
         && Known(s, r)
         && t == s.(pool := TakeResult(s.pool),
                    notice := if Q.IsEmpty(Q.Rest(s.pool.resq)) then Finished(s.notice) else s.notice,
                    stages := s.stages[r := Taken(|s.stack| - 1)],
                    reqs := s.reqs[r := s.reqs[r].(polls := s.reqs[r].polls + 1)],
                    stack := Retop(s.stack, Poll(Counting(r))))
  }

  /** Request `r` begins to finish: its callback runs unless it is cancelled. */
  ghost function Finishes(s: State, r: nat): State
    requires Known(s, r)
  {
    var q := s.reqs[r];
    s.(stages := s.stages[r := Finishing(|s.stack|)],
       reqs := s.reqs[r := q.(finishes := q.finishes + 1,
                              callbacks := if q.cancelled then q.callbacks else q.callbacks + 1)],
       stack := s.stack + [Finish(r, if q.cancelled then AfterCallback else InCallback)])
  }

  /** The request is counted down; a group that has members is delayed, all others finish. */
  ghost predicate PollCount(s: State, t: State) {
    && s.stack != [] && Last(s.stack).Poll? && Last(s.stack).step.Counting?
    && var r := Last(s.stack).step.id;
    && Known(s, r)
    && var d := s.(pool := s.pool.(nreqs := s.pool.nreqs - 1));
    t == if s.reqs[r].kind == Group && s.reqs[r].size != 0
         then d.(stages := s.stages[r := Delayed], reqs := s.reqs[r := s.reqs[r].(delayed := true)],
                 stack := Retop(s.stack, Poll(Starting(Gate))))
         else Finishes(d.(stack := Retop(s.stack, Poll(Dispatched))), r)
  }

  /** The finished request at the top leaves its group, to which it goes on pointing. */
  ghost function Outside(s: State): State
    requires s.stack != [] && Last(s.stack).Finish? && Known(s, Last(s.stack).id)
    requires s.reqs[Last(s.stack).id].group.Some? ==> Known(s, s.reqs[Last(s.stack).id].group.value)
  {
    var r := Last(s.stack).id;
    s.(stages := s.stages[r := Unlinked(|s.stack| - 1)],
       reqs := if s.reqs[r].group.Some? then Left(s.reqs, s.reqs[r].group.value, r) else s.reqs,
       stack := Retop(s.stack, Finish(r, Destroying)))
  }

  /** After it the group finishes if it has no members left and is flagged as delayed. */
  ghost predicate Unlink(s: State, t: State) {
    && s.stack != [] && Last(s.stack).Finish? && Last(s.stack).part == AfterCallback
    && Known(s, Last(s.stack).id)
    && var group := s.reqs[Last(s.stack).id].group;
    && (group.Some? ==> Known(s, group.value))
    && var e := Outside(s);
    t == if group.Some? && e.reqs[group.value].size == 0 && e.reqs[group.value].delayed
         then Finishes(e, group.value) else e
  }

  ghost predicate Destroy(s: State, t: State) {
    && s.stack != [] && Last(s.stack).Finish? && Last(s.stack).part == Destroying
    && var r := Last(s.stack).id;
    && Known(s, r)
    && t == s.(stages := s.stages[r := Stage.Destroyed],
               reqs := s.reqs[r := s.reqs[r].(destroys := s.reqs[r].destroys + 1)],
               stack := Pop(s.stack))
  }

  /** After a finish the poll goes on, or returns because of a limit or of the callback's result. */
  ghost predicate PollResume(s: State, t: State, again: bool) {
    && IsTop(s, Poll(Dispatched))
    && t == s.(stack := if again then Retop(s.stack, Poll(Starting(Gate))) else Pop(s.stack))
  }

  /** The event loop blocks as long as requests are counted. */
  ghost predicate LoopTest(s: State, t: State) {
    && IsTop(s, EventLoop(false))
    && t == s.(stack := if s.pool.nreqs == 0 then Pop(s.stack) else Retop(s.stack, EventLoop(true)))
  }

  ghost predicate LoopWake(s: State, t: State, interrupted: bool) {
    && IsTop(s, EventLoop(true))
    && (s.notice.avail > 0 || interrupted)
    && t == s.(stack := Retop(s.stack, EventLoop(false)) + [Poll(Starting(Gate))])
  }

  ghost predicate ShrinkTest(s: State, t: State, wake: Option<nat>) {
    && IsTop(s, Shrink(false))
    && WakeOk(s.pool.workers, wake)
    && |s.pool.reqq| == Q.ETP_NUM_PRI
    && t == if s.pool.started > s.pool.wanted
            then s.(pool := AddQuit(s.pool).(workers := Wake(s.pool.workers, wake)),
                    stack := Retop(s.stack, Shrink(true)))
            else s.(stack := Pop(s.stack))
  }

  ghost predicate ShrinkCount(s: State, t: State) {
    && IsTop(s, Shrink(true))
    && t == s.(pool := s.pool.(started := s.pool.started - 1), stack := Retop(s.stack, Shrink(false)))
  }

  // ----- the workers -----

  /** One round under the request lock: a worker takes a request, waits, or leaves after a timeout. */
  ghost predicate WorkerShift(s: State, t: State, w: nat) {
    && w < |s.pool.workers|
    && var me := s.pool.workers[w];
    && (me.Ready? || me.Woken?)
    && var p := if me.Woken? then s.pool.(idle := s.pool.idle - 1) else s.pool;
    if Q.IsEmpty(p.reqq) then
      if me == Woken(true) then t == s.(pool := p.(workers := p.workers[w := TimedOut]))
      else t == s.(pool := p.(idle := p.idle + 1, workers := p.workers[w := Waiting(p.idle + 1 > p.maxIdle)]))
    else
      var q := TakeRequest(p);
      match Q.Front(p.reqq)
      case Quit => t == s.(pool := q.(workers := p.workers[w := Gone], quits := p.quits + 1))
      case R(r) => Known(s, r) && t == s.(pool := q.(workers := p.workers[w := Executing(r)]),
                           stages := s.stages[r := Running(w)])
  }

  /** The result of an executed request is published. */
  ghost predicate Publish(s: State, t: State, w: nat) {
    && w < |s.pool.workers| && s.pool.workers[w].Executing? && Known(s, s.pool.workers[w].id)
    && var d := Published(s, s.pool.workers[w].id);
    t == d.(pool := d.pool.(workers := s.pool.workers[w := Ready]))
  }

  ghost predicate SpuriousWake(s: State, t: State, w: nat) {
    && w < |s.pool.workers| && s.pool.workers[w].Waiting?
    && t == s.(pool := s.pool.(workers := s.pool.workers[w := Woken(false)]))
  }

  ghost predicate Timeout(s: State, t: State, w: nat) {
    && w < |s.pool.workers| && s.pool.workers[w] == Waiting(true)
    && t == s.(pool := s.pool.(workers := s.pool.workers[w := Woken(true)]))
  }

  /** The thread that creates another one holds the lock that a worker needs to leave. */
  ghost predicate Leave(s: State, t: State, w: nat) {
    && w < |s.pool.workers| && s.pool.workers[w] == TimedOut
    && !(AtStart(s) && StartOf(s) == Created)
    && t == s.(pool := s.pool.(started := s.pool.started - 1, workers := s.pool.workers[w := Gone]))
  }

  // ----- all steps -----

  datatype Action =
    | DoSubmitOrdinary(pri: int, wake: Option<nat>) | DoSubmitGroup | DoPublishGroup
    | DoAdd(group: nat, member: nat) | DoCancel(id: nat) | DoCancelMembers(id: nat)
    | DoEnterLoop | DoCallPoll | DoSetMinParallel(n: nat) | DoSetMaxParallel(n: nat) | DoSetMaxIdle(n: nat)
    | DoReturnFromCallback
    | DoPassGate | DoReadCounter(counter: Counter) | DoDecide | DoStartThread(created: bool) | DoCountThread
    | DoPollShift | DoPollCount | DoUnlink | DoDestroy | DoPollResume(again: bool)
    | DoLoopTest | DoLoopWake(interrupted: bool) | DoShrinkTest(wake: Option<nat>) | DoShrinkCount
    | DoWorkerShift(w: nat) | DoPublish(w: nat) | DoSpuriousWake(w: nat) | DoTimeout(w: nat) | DoLeave(w: nat)

  ghost predicate Next(s: State, a: Action, t: State) {
    match a
    case DoSubmitOrdinary(pri, wake) => SubmitOrdinary(s, t, pri, wake)
    case DoSubmitGroup => SubmitGroup(s, t)
    case DoPublishGroup => PublishGroup(s, t)
    case DoAdd(g, r) => Add(s, t, g, r)
    case DoCancel(r) => Cancel(s, t, r)
    case DoCancelMembers(g) => CancelMembers(s, t, g)
    case DoEnterLoop => EnterLoop(s, t)
    case DoCallPoll => CallPoll(s, t)
    case DoSetMinParallel(n) => SetMinParallel(s, t, n)
    case DoSetMaxParallel(n) => SetMaxParallel(s, t, n)
    case DoSetMaxIdle(n) => SetMaxIdle(s, t, n)
    case DoReturnFromCallback => ReturnFromCallback(s, t)
    case DoPassGate => PassGate(s, t)
    case DoReadCounter(c) => ReadCounter(s, t, c)
    case DoDecide => Decide(s, t)
    case DoStartThread(created) => StartThread(s, t, created)
    case DoCountThread => CountThread(s, t)
    case DoPollShift => PollShift(s, t)
    case DoPollCount => PollCount(s, t)
    case DoUnlink => Unlink(s, t)
    case DoDestroy => Destroy(s, t)
    case DoPollResume(again) => PollResume(s, t, again)
    case DoLoopTest => LoopTest(s, t)
    case DoLoopWake(interrupted) => LoopWake(s, t, interrupted)
    case DoShrinkTest(wake) => ShrinkTest(s, t, wake)
    case DoShrinkCount => ShrinkCount(s, t)
    case DoWorkerShift(w) => WorkerShift(s, t, w)
    case DoPublish(w) => Publish(s, t, w)
    case DoSpuriousWake(w) => SpuriousWake(s, t, w)
    case DoTimeout(w) => Timeout(s, t, w)
    case DoLeave(w) => Leave(s, t, w)
  }
}
