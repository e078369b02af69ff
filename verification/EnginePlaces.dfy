/** Every request is in exactly one place: the frames, the workers and the queues agree with its stage. */
module EnginePlaces {
  import opened Engine
  import opened Members
  import opened Options
  import Q = PriLists

  /** A frame below the top waits for the frame above it to return. */
  ghost predicate Suspended(f: Frame) {
    match f
    case EventLoop(blocked) => !blocked
    case Poll(step) => step.Dispatched?
    case Finish(_, part) => part != AfterCallback
    case _ => false
  }

  /** The stage of the request that frame number `k` handles. */
  ghost predicate FrameMatches(s: State, k: nat)
    requires k < |s.stack|
  {
    match s.stack[k]
    case Finish(r, part) => r < |s.stages| && s.stages[r] == if part == Destroying then Unlinked(k) else Finishing(k)
    case PushGroup(r) => r < |s.stages| && s.stages[r] == Announced(k)
    case Poll(Counting(r)) => r < |s.stages| && s.stages[r] == Taken(k)
    case _ => true
  }

  /** The frame or the worker that handles request `r`. */
  ghost predicate StageMatches(s: State, r: nat)
    requires r < |s.stages|
  {
    match s.stages[r]
    case Announced(k) => k < |s.stack| && s.stack[k] == PushGroup(r)
    case Taken(k) => k < |s.stack| && s.stack[k] == Poll(Counting(r))
    case Finishing(k) => k < |s.stack| && s.stack[k].Finish? && s.stack[k].id == r && s.stack[k].part != Destroying
    case Unlinked(k) => k < |s.stack| && s.stack[k] == Finish(r, Destroying)
    case Running(w) => w < |s.pool.workers| && s.pool.workers[w] == Executing(r)
    case _ => true
  }

  ghost predicate WorkerMatches(s: State, w: nat)
    requires w < |s.pool.workers|
  {
    s.pool.workers[w].Executing? ==>
      s.pool.workers[w].id < |s.stages| && s.stages[s.pool.workers[w].id] == Running(w)
  }

  ghost predicate Stacked(s: State) {
    && (forall k :: 0 <= k < |s.stack| - 1 ==> Suspended(s.stack[k]))
    && (forall k :: 0 <= k < |s.stack| ==> FrameMatches(s, k))
  }

  ghost predicate Placed(s: State) {
    && (forall r :: 0 <= r < |s.stages| ==> StageMatches(s, r))
    && (forall w :: 0 <= w < |s.pool.workers| ==> WorkerMatches(s, w))
  }

  ghost predicate Sized(s: State) {
    && |s.pool.reqq| == Q.ETP_NUM_PRI && |s.pool.resq| == Q.ETP_NUM_PRI
    && |s.stages| == |s.reqs|
    && (forall r :: 0 <= r < |s.reqs| ==> s.reqs[r].queue < Q.ETP_NUM_PRI)
  }

  /** Each queue holds exactly the requests of its stage, once each. */
  ghost predicate Queues(s: State) {
    && (forall r: nat :: Q.Items(s.pool.reqq)[R(r)] == if r < |s.stages| && s.stages[r].Queued? then 1 else 0)
    && (forall r: nat :: Q.Items(s.pool.resq)[r] == if r < |s.stages| && s.stages[r].InResults? then 1 else 0)
  }

  // ----- steps that move no request -----

  /** A frame that handles no request. */
  ghost predicate Plain(f: Frame) {
    !f.Finish? && !f.PushGroup? && !(f.Poll? && f.step.Counting?)
  }

  /** The request that a frame handles, if there is one. */
  ghost function FrameId(f: Frame): nat {
    match f
    case Finish(r, _) => r
    case PushGroup(r) => r
    case Poll(Counting(r)) => r
    case _ => 0
  }

  /** Only plain frames come and go, and what is covered by a new frame is suspended. */
  ghost predicate PlainStack(was: seq<Frame>, now: seq<Frame>) {
    var n := |was|;
    || now == was
    || (|now| == n + 1 && (forall k :: 0 <= k < n ==> now[k] == was[k])
        && Plain(now[n]) && (n > 0 ==> Suspended(was[n - 1])))
    || (n > 0 && Plain(was[n - 1]) && n - 1 <= |now| <= n + 1
        && (forall k :: 0 <= k < n - 1 ==> now[k] == was[k])
        && (forall k :: n - 1 <= k < |now| ==> Plain(now[k]))
        && (|now| == n + 1 ==> Suspended(now[n - 1])))
  }

  ghost predicate PlainWorkers(was: seq<Worker>, now: seq<Worker>) {
    && |was| <= |now|
    && (forall w :: 0 <= w < |was| ==> now[w] == was[w] || (!was[w].Executing? && !now[w].Executing?))
    && (forall w :: |was| <= w < |now| ==> !now[w].Executing?)
  }

  ghost predicate SameQueue(q: Q.Lists<Item>, r: Q.Lists<Item>) {
    r == q || (|q| == Q.ETP_NUM_PRI && r == Q.Push(q, Q.ETP_NUM_PRI - 1, Quit))
  }

  /** The steps that leave every request where it is. */
  ghost predicate Quiet(a: Action) {
    !(a.DoSubmitOrdinary? || a.DoSubmitGroup? || a.DoPublishGroup? || a.DoReturnFromCallback? || a.DoPollShift?
      || a.DoPollCount? || a.DoUnlink? || a.DoDestroy? || a.DoWorkerShift? || a.DoPublish?)
  }

  ghost predicate Still(s: State, t: State) {
    && t.stages == s.stages && |t.reqs| == |s.reqs|
    && (forall r :: 0 <= r < |s.reqs| ==> t.reqs[r].queue == s.reqs[r].queue)
    && t.notice == s.notice && t.pool.resq == s.pool.resq
    && t.pool.nreqs == s.pool.nreqs && t.pool.nready == s.pool.nready && t.pool.npending == s.pool.npending
    && t.pool.quits == s.pool.quits
    && SameQueue(s.pool.reqq, t.pool.reqq)
    && PlainStack(s.stack, t.stack) && PlainWorkers(s.pool.workers, t.pool.workers)
  }

  lemma AddIsStill(s: State, t: State, g: nat, r: nat)
    requires Add(s, t, g, r)
    ensures Still(s, t)
  {
  }

  lemma CancelsAreStill(s: State, t: State, r: nat)
    requires Cancel(s, t, r) || CancelMembers(s, t, r)
    ensures Still(s, t)
  {
  }

  lemma CallsAreStill(s: State, t: State, n: nat)
    requires EnterLoop(s, t) || CallPoll(s, t) || SetMinParallel(s, t, n) || SetMaxParallel(s, t, n)
             || SetMaxIdle(s, t, n)
    ensures Still(s, t)
  {
  }

  lemma DecisionsAreStill(s: State, t: State, c: Counter)
    requires PassGate(s, t) || ReadCounter(s, t, c) || Decide(s, t)
    ensures Still(s, t)
  {
  }

  lemma StartsAreStill(s: State, t: State, created: bool)
    requires StartThread(s, t, created) || CountThread(s, t)
    ensures Still(s, t)
  {
  }

  lemma LoopsAreStill(s: State, t: State, b: bool)
    requires PollResume(s, t, b) || LoopTest(s, t) || LoopWake(s, t, b)
    ensures Still(s, t)
  {
  }

  lemma ShrinksAreStill(s: State, t: State, wake: Option<nat>)
    requires ShrinkTest(s, t, wake) || ShrinkCount(s, t)
    ensures Still(s, t)
  {
  }

  lemma WakesAreStill(s: State, t: State, w: nat)
    requires SpuriousWake(s, t, w) || Timeout(s, t, w) || Leave(s, t, w)
    ensures Still(s, t)
  {
  }

  lemma QuietIsStill(s: State, a: Action, t: State)
    requires Next(s, a, t) && Quiet(a)
    ensures Still(s, t)
  {
    match a
    case DoAdd(g, r) => AddIsStill(s, t, g, r);
    case DoCancel(r) => CancelsAreStill(s, t, r);
    case DoCancelMembers(g) => CancelsAreStill(s, t, g);
    case DoEnterLoop => CallsAreStill(s, t, 0);
    case DoCallPoll => CallsAreStill(s, t, 0);
    case DoSetMinParallel(n) => CallsAreStill(s, t, n);
    case DoSetMaxParallel(n) => CallsAreStill(s, t, n);
    case DoSetMaxIdle(n) => CallsAreStill(s, t, n);
    case DoPassGate => DecisionsAreStill(s, t, Requests);
    case DoReadCounter(c) => DecisionsAreStill(s, t, c);
    case DoDecide => DecisionsAreStill(s, t, Requests);
    case DoStartThread(created) => StartsAreStill(s, t, created);
    case DoCountThread => StartsAreStill(s, t, true);
    case DoPollResume(again) => LoopsAreStill(s, t, again);
    case DoLoopTest => LoopsAreStill(s, t, true);
    case DoLoopWake(interrupted) => LoopsAreStill(s, t, interrupted);
    case DoShrinkTest(wake) => ShrinksAreStill(s, t, wake);
    case DoShrinkCount => ShrinksAreStill(s, t, None);
    case DoSpuriousWake(w) => WakesAreStill(s, t, w);
    case DoTimeout(w) => WakesAreStill(s, t, w);
    case DoLeave(w) => WakesAreStill(s, t, w);
  }

  ghost predicate Places(s: State) {
    Sized(s) && Stacked(s) && Placed(s) && Queues(s)
  }

  // ----- what may change when a single request moves -----

  ghost predicate AtFrame(x: Stage, k: nat) {
    x == Announced(k) || x == Taken(k) || x == Finishing(k) || x == Unlinked(k)
  }

  /** Frame `k` afterwards: as before and without request `r`, or in agreement with the new stages. */
  ghost predicate FrameOk(s: State, t: State, r: nat, k: nat)
    requires k < |t.stack|
  {
    && ((k < |s.stack| && t.stack[k] == s.stack[k] && (r < |s.stages| ==> !AtFrame(s.stages[r], k)))
        || FrameMatches(t, k))
    && (k < |t.stack| - 1 ==> (k < |s.stack| - 1 && t.stack[k] == s.stack[k]) || Suspended(t.stack[k]))
  }

  /** Frame `k` before: it stays, or it handled no request or request `r`. */
  ghost predicate FrameLeft(s: State, t: State, r: nat, k: nat)
    requires k < |s.stack|
  {
    (k < |t.stack| && t.stack[k] == s.stack[k]) || Plain(s.stack[k]) || FrameId(s.stack[k]) == r
  }

  ghost predicate WorkerOk(s: State, t: State, r: nat, w: nat)
    requires w < |t.pool.workers|
  {
    || (w < |s.pool.workers| && t.pool.workers[w] == s.pool.workers[w]
        && (r < |s.stages| ==> s.stages[r] != Running(w)))
    || WorkerMatches(t, w)
  }

  ghost predicate WorkerLeft(s: State, t: State, r: nat, w: nat)
    requires w < |s.pool.workers|
  {
    || (w < |t.pool.workers| && t.pool.workers[w] == s.pool.workers[w])
    || (s.pool.workers[w].Executing? ==> s.pool.workers[w].id == r)
  }

  /** No request but `r` moves, if there is a request of that number. */
  ghost predicate MovesOnly(s: State, t: State, r: nat) {
    && (|t.stages| == |s.stages| || (r == |s.stages| && |t.stages| == r + 1))
    && (forall x :: 0 <= x < |s.stages| && x != r ==> t.stages[x] == s.stages[x])
    && (r < |t.stages| ==> StageMatches(t, r))
    && (forall k :: 0 <= k < |t.stack| ==> FrameOk(s, t, r, k))
    && (forall k :: 0 <= k < |s.stack| ==> FrameLeft(s, t, r, k))
    && (forall w :: 0 <= w < |t.pool.workers| ==> WorkerOk(s, t, r, w))
    && (forall w :: 0 <= w < |s.pool.workers| ==> WorkerLeft(s, t, r, w))
  }

  lemma MoveKeepsFrame(s: State, t: State, r: nat, k: nat)
    requires Stacked(s) && MovesOnly(s, t, r) && k < |t.stack|
    ensures FrameMatches(t, k) && (k < |t.stack| - 1 ==> Suspended(t.stack[k]))
  {
    assert FrameOk(s, t, r, k);
    if k < |s.stack| {
      assert FrameMatches(s, k);
    }
  }

  lemma MoveKeepsStage(s: State, t: State, r: nat, x: nat)
    requires Placed(s) && MovesOnly(s, t, r) && x < |t.stages|
    ensures StageMatches(t, x)
  {
    if x != r {
      assert x < |s.stages| && StageMatches(s, x);
      match s.stages[x]
      case Announced(k) => assert FrameLeft(s, t, r, k);
      case Taken(k) => assert FrameLeft(s, t, r, k);
      case Finishing(k) => assert FrameLeft(s, t, r, k);
      case Unlinked(k) => assert FrameLeft(s, t, r, k);
      case Running(w) => assert WorkerLeft(s, t, r, w);
      case _ =>
    }
  }

  lemma MoveKeepsWorker(s: State, t: State, r: nat, w: nat)
    requires Placed(s) && MovesOnly(s, t, r) && w < |t.pool.workers|
    ensures WorkerMatches(t, w)
  {
    assert WorkerOk(s, t, r, w);
    if w < |s.pool.workers| {
      assert WorkerMatches(s, w);
    }
  }

  lemma MoveKeepsPlaces(s: State, t: State, r: nat)
    requires Places(s) && MovesOnly(s, t, r) && Sized(t) && Queues(t)
    ensures Places(t)
  {
    forall k | 0 <= k < |t.stack|
      ensures FrameMatches(t, k) && (k < |t.stack| - 1 ==> Suspended(t.stack[k]))
    {
      MoveKeepsFrame(s, t, r, k);
    }
    forall x | 0 <= x < |t.stages|
      ensures StageMatches(t, x)
    {
      MoveKeepsStage(s, t, r, x);
    }
    forall w | 0 <= w < |t.pool.workers|
      ensures WorkerMatches(t, w)
    {
      MoveKeepsWorker(s, t, r, w);
    }
  }

  lemma StillKeepsPlaces(s: State, t: State)
    requires Places(s) && Still(s, t)
    ensures Places(t)
  {
    if t.pool.reqq != s.pool.reqq {
      Q.PushItems(s.pool.reqq, Q.ETP_NUM_PRI - 1, Quit);
    }
    MoveKeepsPlaces(s, t, |s.stages|);
  }

  // ----- steps that move a request -----

  lemma ShiftedResult(s: State, t: State, x: Stage)
    requires Queues(s) && !Q.IsEmpty(s.pool.resq) && !x.Queued? && !x.InResults?
    requires t.pool.reqq == s.pool.reqq && t.pool.resq == Q.Rest(s.pool.resq)
    requires Q.Front(s.pool.resq) < |s.stages| ==> t.stages == s.stages[Q.Front(s.pool.resq) := x]
    ensures Q.Front(s.pool.resq) < |s.stages| && s.stages[Q.Front(s.pool.resq)].InResults? && Queues(t)
  {
    Q.RestItems(s.pool.resq);
  }

  lemma ShiftedRequest(s: State, t: State, r: nat, x: Stage)
    requires Queues(s) && !Q.IsEmpty(s.pool.reqq) && Q.Front(s.pool.reqq) == R(r) && !x.Queued? && !x.InResults?
    requires t.pool.reqq == Q.Rest(s.pool.reqq) && t.pool.resq == s.pool.resq
    requires r < |s.stages| ==> t.stages == s.stages[r := x]
    ensures r < |s.stages| && s.stages[r].Queued? && Queues(t)
  {
    Q.RestItems(s.pool.reqq);
  }

  lemma PushedResult(s: State, t: State, r: nat, p: nat)
    requires Queues(s) && r < |s.stages| && !s.stages[r].Queued? && !s.stages[r].InResults? && p < |s.pool.resq|
    requires t.pool.reqq == s.pool.reqq && t.pool.resq == Q.Push(s.pool.resq, p, r)
    requires t.stages == s.stages[r := InResults]
    ensures Queues(t)
  {
    Q.PushItems(s.pool.resq, p, r);
  }

  lemma PushedRequest(s: State, t: State, p: nat)
    requires Queues(s) && p < |s.pool.reqq|
    requires t.pool.reqq == Q.Push(s.pool.reqq, p, R(|s.stages|)) && t.pool.resq == s.pool.resq
    requires t.stages == s.stages + [Queued]
    ensures Queues(t)
  {
    Q.PushItems(s.pool.reqq, p, R(|s.stages|));
  }

  lemma SubmitKeepsPlaces(s: State, t: State, pri: int, wake: Option<nat>)
    requires Places(s) && SubmitOrdinary(s, t, pri, wake)
    ensures Places(t)
  {
    PushedRequest(s, t, Q.QueueOf(pri));
    MoveKeepsPlaces(s, t, |s.stages|);
  }

  lemma SubmitGroupKeepsPlaces(s: State, t: State)
    requires Places(s) && SubmitGroup(s, t)
    ensures Places(t)
  {
    MoveKeepsPlaces(s, t, |s.stages|);
  }

  lemma PublishGroupKeepsPlaces(s: State, t: State)
    requires Places(s) && PublishGroup(s, t)
    ensures Places(t)
  {
    assert FrameMatches(s, |s.stack| - 1);
    var r := Last(s.stack).id;
    PushedResult(s, t, r, s.reqs[r].queue);
    MoveKeepsPlaces(s, t, r);
  }

  lemma PublishKeepsPlaces(s: State, t: State, w: nat)
    requires Places(s) && Publish(s, t, w)
    ensures Places(t)
  {
    assert WorkerMatches(s, w);
    var r := s.pool.workers[w].id;
    PushedResult(s, t, r, s.reqs[r].queue);
    MoveKeepsPlaces(s, t, r);
  }

  lemma ReturnKeepsPlaces(s: State, t: State)
    requires Places(s) && ReturnFromCallback(s, t)
    ensures Places(t)
  {
    assert FrameMatches(s, |s.stack| - 1);
    MoveKeepsPlaces(s, t, Last(s.stack).id);
  }

  lemma PollTakesResult(s: State, t: State)
    requires Places(s) && PollShift(s, t) && !Q.IsEmpty(s.pool.resq)
    ensures Places(t)
  {
    ShiftedResult(s, t, Taken(|s.stack| - 1));
    MoveKeepsPlaces(s, t, Q.Front(s.pool.resq));
  }

  lemma PollShiftKeepsPlaces(s: State, t: State)
    requires Places(s) && PollShift(s, t)
    ensures Places(t)
  {
    if Q.IsEmpty(s.pool.resq) {
      MoveKeepsPlaces(s, t, |s.stages|);
    } else {
      PollTakesResult(s, t);
    }
  }

  lemma PollDelays(s: State, t: State, r: nat)
    requires Places(s) && PollCount(s, t) && r == Last(s.stack).step.id && t.stages == s.stages[r := Delayed]
    ensures Places(t)
  {
    assert FrameMatches(s, |s.stack| - 1);
    MoveKeepsPlaces(s, t, r);
  }

  lemma PollFinishes(s: State, t: State, r: nat)
    requires Places(s) && PollCount(s, t) && r == Last(s.stack).step.id && t.stages != s.stages[r := Delayed]
    ensures Places(t)
  {
    assert FrameMatches(s, |s.stack| - 1);
    MoveKeepsPlaces(s, t, r);
  }

  lemma PollCountKeepsPlaces(s: State, t: State)
    requires Places(s) && PollCount(s, t)
    ensures Places(t)
  {
    var r := Last(s.stack).step.id;
    if t.stages == s.stages[r := Delayed] {
      PollDelays(s, t, r);
    } else {
      PollFinishes(s, t, r);
    }
  }

  lemma OutsideKeepsPlaces(s: State, t: State)
    requires Places(s) && s.stack != [] && Last(s.stack).Finish? && Last(s.stack).part == AfterCallback
    requires Known(s, Last(s.stack).id)
    requires s.reqs[Last(s.stack).id].group.Some? ==> Known(s, s.reqs[Last(s.stack).id].group.value)
    requires t == Outside(s)
    ensures Places(t)
  {
    assert FrameMatches(s, |s.stack| - 1);
    MoveKeepsPlaces(s, t, Last(s.stack).id);
  }

  lemma FinishesKeepsPlaces(s: State, t: State, g: nat)
    requires Places(s) && Known(s, g) && s.stages[g].Delayed? && t == Finishes(s, g)
    requires s.stack != [] && Suspended(Last(s.stack))
    ensures Places(t)
  {
    MoveKeepsPlaces(s, t, g);
  }

  /** A group that is flagged as delayed and has members left is in the stage of this name. */
  ghost predicate Flagged(s: State) {
    && |s.stages| == |s.reqs|
    && forall g :: 0 <= g < |s.reqs| && s.reqs[g].delayed && s.reqs[g].size > 0 ==> s.stages[g].Delayed?
  }

  /** The flag that an unlinking tests is right: the group is delayed, and nothing else finishes it. */
  lemma UnlinkFinishesDelayed(s: State, t: State)
    requires Places(s) && Flagged(s) && Unlink(s, t) && t != Outside(s)
    ensures var g := s.reqs[Last(s.stack).id].group.value;
            s.stages[g].Delayed? && Outside(s).stages[g].Delayed? && t == Finishes(Outside(s), g)
  {
    assert FrameMatches(s, |s.stack| - 1);
    var r := Last(s.stack).id;
    var g := s.reqs[r].group.value;
    LeftIs(s.reqs, g, r, g);
    assert s.reqs[g].delayed && s.reqs[g].size > 0;
  }

  lemma UnlinkKeepsPlaces(s: State, t: State)
    requires Places(s) && Flagged(s) && Unlink(s, t)
    ensures Places(t)
  {
    var e := Outside(s);
    OutsideKeepsPlaces(s, e);
    if t != e {
      UnlinkFinishesDelayed(s, t);
      FinishesKeepsPlaces(e, t, s.reqs[Last(s.stack).id].group.value);
    }
  }

  lemma DestroyKeepsPlaces(s: State, t: State)
    requires Places(s) && Destroy(s, t)
    ensures Places(t)
  {
    assert FrameMatches(s, |s.stack| - 1);
    MoveKeepsPlaces(s, t, Last(s.stack).id);
  }

  lemma TakeKeepsPlaces(s: State, t: State, w: nat)
    requires Places(s) && WorkerShift(s, t, w)
    requires !Q.IsEmpty(s.pool.reqq) && Q.Front(s.pool.reqq).R?
    ensures Places(t)
  {
    ShiftedRequest(s, t, Q.Front(s.pool.reqq).id, Running(w));
    MoveKeepsPlaces(s, t, Q.Front(s.pool.reqq).id);
  }

  lemma RestKeepsPlaces(s: State, t: State, w: nat)
    requires Places(s) && WorkerShift(s, t, w)
    requires Q.IsEmpty(s.pool.reqq) || Q.Front(s.pool.reqq).Quit?
    ensures Places(t)
  {
    if !Q.IsEmpty(s.pool.reqq) {
      Q.RestItems(s.pool.reqq);
    }
    MoveKeepsPlaces(s, t, |s.stages|);
  }

  lemma WorkerShiftKeepsPlaces(s: State, t: State, w: nat)
    requires Places(s) && WorkerShift(s, t, w)
    ensures Places(t)
  {
    if Q.IsEmpty(s.pool.reqq) || Q.Front(s.pool.reqq).Quit? {
      RestKeepsPlaces(s, t, w);
    } else {
      TakeKeepsPlaces(s, t, w);
    }
  }

  lemma MainKeepsPlaces(s: State, a: Action, t: State)
    requires Places(s) && Flagged(s) && Next(s, a, t)
    requires a.DoPublishGroup? || a.DoReturnFromCallback? || a.DoPollShift? || a.DoPollCount? || a.DoUnlink?
             || a.DoDestroy?
    ensures Places(t)
  {
    match a
    case DoPublishGroup => PublishGroupKeepsPlaces(s, t);
    case DoReturnFromCallback => ReturnKeepsPlaces(s, t);
    case DoPollShift => PollShiftKeepsPlaces(s, t);
    case DoPollCount => PollCountKeepsPlaces(s, t);
    case DoUnlink => UnlinkKeepsPlaces(s, t);
    case DoDestroy => DestroyKeepsPlaces(s, t);
  }

  lemma QuietKeepsPlaces(s: State, a: Action, t: State)
    requires Places(s) && Next(s, a, t) && Quiet(a)
    ensures Places(t)
  {
    QuietIsStill(s, a, t);
    StillKeepsPlaces(s, t);
  }

  /** Every step leaves every request in exactly one place. */
  lemma KeepsPlaces(s: State, a: Action, t: State)
    requires Places(s) && Flagged(s) && Next(s, a, t)
    ensures Places(t)
  {
    if Quiet(a) {
      QuietKeepsPlaces(s, a, t);
    } else if a.DoSubmitOrdinary? {
      SubmitKeepsPlaces(s, t, a.pri, a.wake);
    } else if a.DoSubmitGroup? {
      SubmitGroupKeepsPlaces(s, t);
    } else if a.DoWorkerShift? {
      WorkerShiftKeepsPlaces(s, t, a.w);
    } else if a.DoPublish? {
      PublishKeepsPlaces(s, t, a.w);
    } else {
      MainKeepsPlaces(s, a, t);
    }
  }
}
