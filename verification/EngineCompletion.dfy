/**
 * From every state of a run with fixed settings the engine can go on without a call of the user until
 * the main thread has returned; the effort that is left falls on the way.
 */
module EngineCompletion {
  import opened Engine
  import opened EngineCounters
  import opened EngineGroups
  import opened EngineHistories
  import opened EngineLoops
  import opened EnginePlaces
  import opened EngineRuns
  import opened EngineSupply
  import opened Members
  import opened Options
  import Q = PriLists

  // ----- the effort left -----

  ghost function Rank(x: Stage): nat {
    match x
    case Announced(_) => 7
    case Queued => 7
    case Running(_) => 6
    case InResults => 5
    case Taken(_) => 4
    case Delayed => 3
    case Finishing(_) => 2
    case Unlinked(_) => 1
    case Destroyed => 0
  }

  ghost function Effort(stages: seq<Stage>): nat {
    if stages == [] then 0 else Effort(stages[..|stages| - 1]) + Rank(stages[|stages| - 1])
  }

  lemma {:induction false} EffortUpdate(stages: seq<Stage>, r: nat, x: Stage)
    requires r < |stages|
    ensures Effort(stages[r := x]) + Rank(stages[r]) == Effort(stages) + Rank(x)
    decreases |stages|
  {
    var n := |stages| - 1;
    if r < n {
      EffortUpdate(stages[..n], r, x);
      assert stages[r := x][..n] == stages[..n][r := x];
    } else {
      assert stages[r := x][..n] == stages[..n];
    }
  }

  // ----- going on -----

  /** The steps that are no calls of the user, with thread creations that succeed. */
  ghost predicate OwnStep(a: Action) {
    && !a.DoSubmitOrdinary? && !a.DoSubmitGroup? && !a.DoAdd? && !a.DoCancel? && !a.DoCancelMembers?
    && !a.DoEnterLoop? && !a.DoCallPoll?
    && Fixed(a)
  }

  ghost predicate Steps(ss: seq<State>, acts: seq<Action>) {
    && |ss| == |acts| + 1
    && forall i {:trigger acts[i]} :: 0 <= i < |acts| ==> OwnStep(acts[i]) && Next(ss[i], acts[i], ss[i + 1])
  }

  ghost predicate CanGo(s: State, t: State) {
    exists ss, acts :: Steps(ss, acts) && ss[0] == s && ss[|acts|] == t
  }

  lemma GoNowhere(s: State)
    ensures CanGo(s, s)
  {
    assert Steps([s], []);
  }

  lemma GoOne(s: State, a: Action, t: State)
    requires OwnStep(a) && Next(s, a, t)
    ensures CanGo(s, t)
  {
    assert Steps([s, t], [a]);
    assert [s, t][0] == s && [s, t][|[a]|] == t;
  }

  lemma StepsJoin(ss: seq<State>, acts: seq<Action>, ss': seq<State>, acts': seq<Action>)
    requires Steps(ss, acts) && Steps(ss', acts') && ss[|acts|] == ss'[0]
    ensures Steps(ss + ss'[1..], acts + acts') && (ss + ss'[1..])[0] == ss[0]
    ensures (ss + ss'[1..])[|acts + acts'|] == ss'[|acts'|]
  {
    var all, both := ss + ss'[1..], acts + acts';
    forall i | 0 <= i < |both|
      ensures OwnStep(both[i]) && Next(all[i], both[i], all[i + 1])
    {
      if i < |acts| {
        assert both[i] == acts[i] && all[i] == ss[i] && all[i + 1] == ss[i + 1];
      } else {
        var j := i - |acts|;
        assert both[i] == acts'[j] && all[i] == ss'[j] && all[i + 1] == ss'[j + 1];
      }
    }
  }

  lemma GoTrans(s: State, t: State, u: State)
    requires CanGo(s, t) && CanGo(t, u)
    ensures CanGo(s, u)
  {
    var ss, acts :| Steps(ss, acts) && ss[0] == s && ss[|acts|] == t;
    var ss', acts' :| Steps(ss', acts') && ss'[0] == t && ss'[|acts'|] == u;
    StepsJoin(ss, acts, ss', acts');
  }

  /** An event loop at the bottom of the stack stays there until it returns with nothing counted. */
  ghost predicate KeepsBottom(s: State, t: State) {
    IsLoopAt(s.stack, 0) ==> IsLoopAt(t.stack, 0) || (t.stack == [] && t.pool.nreqs == 0)
  }

  /** The engine can go from `s` to `t` on its own. */
  ghost predicate Reached(s: State, t: State, wanted: int) {
    CanGo(s, t) && Served(t, wanted) && KeepsBottom(s, t)
  }

  lemma ReachedOne(s: State, a: Action, t: State, wanted: int)
    requires Served(s, wanted) && OwnStep(a) && Next(s, a, t)
    ensures Reached(s, t, wanted)
  {
    GoOne(s, a, t);
    KeepsServed(s, a, t, wanted);
    if IsLoopAt(s.stack, 0) && !IsLoopAt(t.stack, 0) {
      LoopEnds(s, a, t, 0);
    }
  }

  lemma ReachedTrans(s: State, t: State, u: State, wanted: int)
    requires Reached(s, t, wanted) && Reached(t, u, wanted) && t.stack != []
    ensures Reached(s, u, wanted)
  {
    GoTrans(s, t, u);
  }

  // ----- deciding whether to start a thread -----

  ghost function Unread(x: Start): nat {
    match x
    case Gate => 6
    case Sum(started, npending, nreqs) =>
      2 + (if started.None? then 1 else 0) + (if npending.None? then 1 else 0) + if nreqs.None? then 1 else 0
    case Create => 1
    case Created => 0
  }

  /** One step of the decision, which is over or comes closer to its end. */
  lemma DecisionStep(s: State) returns (a: Action, t: State)
    requires AtStart(s)
    ensures OwnStep(a) && Next(s, a, t) && t.stages == s.stages && t.pool.resq == s.pool.resq
    ensures t.stack == StartDone(s).stack
            || (AtStart(t) && StartDone(t).stack == StartDone(s).stack && Unread(StartOf(t)) < Unread(StartOf(s)))
  {
    match StartOf(s)
    case Gate =>
      a := DoPassGate;
      t := if s.pool.started >= s.pool.wanted then StartDone(s) else WithStart(s, Sum(None, None, None));
    case Sum(started, npending, nreqs) =>
      a, t := SumStep(s);
    case Create =>
      a := DoStartThread(true);
      t := WithStart(s, Created).(pool := s.pool.(workers := s.pool.workers + [Ready]));
    case Created =>
      a := DoCountThread;
      t := StartDone(s).(pool := s.pool.(started := s.pool.started + 1));
  }

  lemma SumStep(s: State) returns (a: Action, t: State)
    requires AtStart(s) && StartOf(s).Sum?
    ensures OwnStep(a) && Next(s, a, t) && t.stages == s.stages && t.pool.resq == s.pool.resq
    ensures t.stack == StartDone(s).stack
            || (AtStart(t) && StartDone(t).stack == StartDone(s).stack && Unread(StartOf(t)) < Unread(StartOf(s)))
  {
    var x := StartOf(s);
    if x.started.None? {
      a := DoReadCounter(StartedThreads);
      t := WithStart(s, x.(started := Some(s.pool.started)));
    } else if x.npending.None? {
      a := DoReadCounter(PendingResults);
      t := WithStart(s, x.(npending := Some(s.pool.npending)));
    } else if x.nreqs.None? {
      a := DoReadCounter(Requests);
      t := WithStart(s, x.(nreqs := Some(s.pool.nreqs)));
    } else {
      a := DoDecide;
      t := if 0 <= x.started.value + x.npending.value - x.nreqs.value then StartDone(s) else WithStart(s, Create);
    }
  }

  /** The decision comes to its end, which leaves requests and results alone. */
  lemma {:induction false} DecisionEnds(s: State, wanted: int) returns (t: State)
    requires Served(s, wanted) && AtStart(s)
    ensures Reached(s, t, wanted) && t.stack == StartDone(s).stack
    ensures t.stages == s.stages && t.pool.resq == s.pool.resq
    decreases Unread(StartOf(s))
  {
    var a, u := DecisionStep(s);
    ReachedOne(s, a, u, wanted);
    if u.stack == StartDone(s).stack {
      t := u;
    } else {
      t := DecisionEnds(u, wanted);
      ReachedTrans(s, u, t, wanted);
    }
  }

  // ----- steps that lower the effort -----

  ghost predicate Lowers(s: State, a: Action, t: State) {
    OwnStep(a) && Next(s, a, t) && Effort(t.stages) < Effort(s.stages)
  }

  lemma TakesResult(s: State) returns (t: State)
    requires Places(s) && IsTop(s, Poll(Shifting)) && !Q.IsEmpty(s.pool.resq)
    ensures Lowers(s, DoPollShift, t)
  {
    Q.RestItems(s.pool.resq);
    var r := Q.Front(s.pool.resq);
    t := s.(pool := TakeResult(s.pool),
            notice := if Q.IsEmpty(Q.Rest(s.pool.resq)) then Finished(s.notice) else s.notice,
            stages := s.stages[r := Taken(|s.stack| - 1)],
            reqs := s.reqs[r := s.reqs[r].(polls := s.reqs[r].polls + 1)],
            stack := Retop(s.stack, Poll(Counting(r))));
    TakingLowers(s, t);
  }

  lemma TakingLowers(s: State, t: State)
    requires Queues(s) && PollShift(s, t) && !Q.IsEmpty(s.pool.resq)
    ensures Effort(t.stages) < Effort(s.stages)
  {
    ShiftedResult(s, t, Taken(|s.stack| - 1));
    EffortUpdate(s.stages, Q.Front(s.pool.resq), Taken(|s.stack| - 1));
  }

  lemma CountsDown(s: State) returns (t: State)
    requires Places(s) && s.stack != [] && Last(s.stack).Poll? && Last(s.stack).step.Counting?
    ensures Lowers(s, DoPollCount, t)
  {
    assert FrameMatches(s, |s.stack| - 1);
    var r := Last(s.stack).step.id;
    var d := s.(pool := s.pool.(nreqs := s.pool.nreqs - 1));
    t := if s.reqs[r].kind == Group && s.reqs[r].size != 0
         then d.(stages := s.stages[r := Delayed], reqs := s.reqs[r := s.reqs[r].(delayed := true)],
                 stack := Retop(s.stack, Poll(Starting(Gate))))
         else Finishes(d.(stack := Retop(s.stack, Poll(Dispatched))), r);
    CountingLowers(s, t);
  }

  lemma CountingLowers(s: State, t: State)
    requires Stacked(s) && PollCount(s, t)
    ensures Effort(t.stages) < Effort(s.stages)
  {
    assert FrameMatches(s, |s.stack| - 1);
    EffortUpdate(s.stages, Last(s.stack).step.id, t.stages[Last(s.stack).step.id]);
  }

  lemma PublishesGroup(s: State) returns (t: State)
    requires Places(s) && s.stack != [] && Last(s.stack).PushGroup?
    ensures Lowers(s, DoPublishGroup, t)
  {
    assert FrameMatches(s, |s.stack| - 1);
    var r := Last(s.stack).id;
    t := Published(s, r).(stack := Pop(s.stack));
    EffortUpdate(s.stages, r, InResults);
  }

  lemma DestroysRequest(s: State) returns (t: State)
    requires Places(s) && s.stack != [] && Last(s.stack).Finish? && Last(s.stack).part == Destroying
    ensures Lowers(s, DoDestroy, t)
  {
    assert FrameMatches(s, |s.stack| - 1);
    var r := Last(s.stack).id;
    t := s.(stages := s.stages[r := Stage.Destroyed],
            reqs := s.reqs[r := s.reqs[r].(destroys := s.reqs[r].destroys + 1)],
            stack := Pop(s.stack));
    DestroyingLowers(s, t);
  }

  lemma DestroyingLowers(s: State, t: State)
    requires Stacked(s) && Destroy(s, t)
    ensures Effort(t.stages) < Effort(s.stages)
  {
    assert FrameMatches(s, |s.stack| - 1);
    EffortUpdate(s.stages, Last(s.stack).id, Stage.Destroyed);
  }

  /** The request at the top is known, and so is its group. */
  lemma TopIsKnown(s: State)
    requires Places(s) && Grouped(s) && s.stack != [] && Last(s.stack).Finish?
    ensures var r := Last(s.stack).id;
            Known(s, r) && (s.reqs[r].group.Some? ==> Known(s, s.reqs[r].group.value))
  {
    assert FrameMatches(s, |s.stack| - 1);
    assert MemberOk(s, Last(s.stack).id);
  }

  lemma Unlinks(s: State) returns (t: State)
    requires Places(s) && Grouped(s) && s.stack != [] && Last(s.stack).Finish?
    requires Last(s.stack).part == AfterCallback
    ensures Lowers(s, DoUnlink, t)
  {
    TopIsKnown(s);
    var group, e := s.reqs[Last(s.stack).id].group, Outside(s);
    t := if group.Some? && e.reqs[group.value].size == 0 && e.reqs[group.value].delayed
         then Finishes(e, group.value) else e;
    GroupedAreFlagged(s);
    UnlinkingLowers(s, t);
  }

  lemma UnlinkingLowers(s: State, t: State)
    requires Places(s) && Flagged(s) && Unlink(s, t)
    ensures Effort(t.stages) < Effort(s.stages)
  {
    LeavingLowers(s);
    if t != Outside(s) {
      UnlinkFinishesDelayed(s, t);
      FinishingLowers(Outside(s), t, s.reqs[Last(s.stack).id].group.value);
    }
  }

  lemma FinishingLowers(s: State, t: State, g: nat)
    requires Known(s, g) && s.stages[g].Delayed? && t == Finishes(s, g)
    ensures Effort(t.stages) < Effort(s.stages)
  {
    EffortUpdate(s.stages, g, Finishing(|s.stack|));
  }

  lemma LeavingLowers(s: State)
    requires Stacked(s) && s.stack != [] && Last(s.stack).Finish? && Last(s.stack).part == AfterCallback
    requires Known(s, Last(s.stack).id)
    requires s.reqs[Last(s.stack).id].group.Some? ==> Known(s, s.reqs[Last(s.stack).id].group.value)
    ensures Effort(Outside(s).stages) < Effort(s.stages)
  {
    assert FrameMatches(s, |s.stack| - 1);
    EffortUpdate(s.stages, Last(s.stack).id, Unlinked(|s.stack| - 1));
  }

  lemma Publishes(s: State, t: State, w: nat)
    requires Places(s) && Publish(s, t, w)
    ensures Lowers(s, DoPublish(w), t)
  {
    assert WorkerMatches(s, w);
    EffortUpdate(s.stages, s.pool.workers[w].id, InResults);
  }

  lemma ShiftsDoNotRaise(s: State, t: State, w: nat)
    requires Places(s) && WorkerShift(s, t, w)
    ensures Effort(t.stages) <= Effort(s.stages)
  {
    if !Q.IsEmpty(s.pool.reqq) && Q.Front(s.pool.reqq).R? {
      ShiftedRequest(s, t, Q.Front(s.pool.reqq).id, Running(w));
      EffortUpdate(s.stages, Q.Front(s.pool.reqq).id, Running(w));
    }
  }

  // ----- what the main thread does next -----

  /** There is less to do, or the main thread has returned. */
  ghost predicate Closer(s: State, t: State, wanted: int) {
    Reached(s, t, wanted) && (Effort(t.stages) < Effort(s.stages) || (t.stages == s.stages && t.stack == []))
  }

  lemma CloserOne(s: State, a: Action, t: State, wanted: int)
    requires Served(s, wanted) && Lowers(s, a, t)
    ensures Closer(s, t, wanted)
  {
    ReachedOne(s, a, t, wanted);
  }

  lemma CloserTrans(s: State, t: State, u: State, wanted: int)
    requires Reached(s, t, wanted) && t.stages == s.stages && t.stack != [] && Closer(t, u, wanted)
    ensures Closer(s, u, wanted)
  {
    ReachedTrans(s, t, u, wanted);
  }

  /** A finish at the top goes on until the request has left its group, or is destroyed. */
  lemma FinishGoesOn(s: State, wanted: int) returns (t: State)
    requires Served(s, wanted) && s.stack != [] && Last(s.stack).Finish?
    ensures Closer(s, t, wanted)
  {
    match Last(s.stack).part
    case Destroying =>
      t := DestroysRequest(s);
      CloserOne(s, DoDestroy, t, wanted);
    case AfterCallback =>
      t := Unlinks(s);
      CloserOne(s, DoUnlink, t, wanted);
    case InCallback =>
      var u := s.(stack := Retop(s.stack, Finish(Last(s.stack).id, AfterCallback)));
      ReachedOne(s, DoReturnFromCallback, u, wanted);
      t := Unlinks(u);
      CloserOne(u, DoUnlink, t, wanted);
      CloserTrans(s, u, t, wanted);
  }

  /** A poll at its start takes a result, if there is one. */
  lemma PollTakes(s: State, wanted: int) returns (t: State)
    requires Served(s, wanted) && !Q.IsEmpty(s.pool.resq)
    requires s.stack != [] && Last(s.stack).Poll? && Last(s.stack).step.Starting?
    ensures Closer(s, t, wanted)
  {
    var u := DecisionEnds(s, wanted);
    t := TakesResult(u);
    CloserOne(u, DoPollShift, t, wanted);
    CloserTrans(s, u, t, wanted);
  }

  lemma Blocks(s: State) returns (t: State)
    requires IsTop(s, EventLoop(false)) && s.pool.nreqs != 0
    ensures Next(s, DoLoopTest, t) && IsTop(t, EventLoop(true)) && t.stages == s.stages
  {
    t := s.(stack := Retop(s.stack, EventLoop(true)));
  }

  lemma Wakes(s: State) returns (t: State)
    requires IsTop(s, EventLoop(true)) && s.notice.avail > 0
    ensures Next(s, DoLoopWake(false), t) && t.stages == s.stages && t.pool.resq == s.pool.resq
    ensures t.stack != [] && Last(t.stack) == Poll(Starting(Gate))
  {
    t := s.(stack := Retop(s.stack, EventLoop(false)) + [Poll(Starting(Gate))]);
  }

  /** A blocked event loop is woken and polls a result, or a worker makes one. */
  lemma BlockedGoesOn(s: State, wanted: int) returns (t: State)
    requires Served(s, wanted) && wanted >= 1 && IsTop(s, EventLoop(true))
    ensures Closer(s, t, wanted)
  {
    if s.notice.avail > 0 {
      var u := Wakes(s);
      ReachedOne(s, DoLoopWake(false), u, wanted);
      t := PollTakes(u, wanted);
      CloserTrans(s, u, t, wanted);
    } else {
      t := WorkerGoesOn(s, wanted);
    }
  }

  lemma WorkerGoesOn(s: State, wanted: int) returns (t: State)
    requires Served(s, wanted) && wanted >= 1 && LooksStuck(s)
    ensures Closer(s, t, wanted)
  {
    var w, u;
    w, u, t := StuckIsServed(s);
    if u == s {
      PublishGoesOn(s, t, w, wanted);
    } else {
      ReachedOne(s, DoWorkerShift(w), u, wanted);
      ShiftsDoNotRaise(s, u, w);
      ShiftKeepsStack(s, u, w);
      PublishGoesOn(u, t, w, wanted);
      ReachedTrans(s, u, t, wanted);
    }
  }

  lemma PublishGoesOn(s: State, t: State, w: nat, wanted: int)
    requires Served(s, wanted) && Next(s, DoPublish(w), t)
    ensures Reached(s, t, wanted) && Effort(t.stages) < Effort(s.stages)
  {
    Publishes(s, t, w);
    CloserOne(s, DoPublish(w), t, wanted);
  }

  lemma ShiftKeepsStack(s: State, t: State, w: nat)
    requires WorkerShift(s, t, w)
    ensures t.stack == s.stack
  {
  }

  /** The frame at the top returns, and nothing else changes. */
  ghost predicate Pops(s: State, a: Action, t: State) {
    OwnStep(a) && Next(s, a, t) && t.stages == s.stages && s.stack != [] && t.stack == Pop(s.stack)
  }

  lemma LoopPops(s: State) returns (t: State)
    requires IsTop(s, EventLoop(false)) && s.pool.nreqs == 0
    ensures Pops(s, DoLoopTest, t)
  {
    t := s.(stack := Pop(s.stack));
  }

  lemma EmptyPollPops(s: State) returns (t: State)
    requires IsTop(s, Poll(Shifting)) && Q.IsEmpty(s.pool.resq)
    ensures Pops(s, DoPollShift, t)
  {
    t := s.(stack := Pop(s.stack));
  }

  lemma LimitPops(s: State) returns (t: State)
    requires IsTop(s, Poll(Dispatched))
    ensures Pops(s, DoPollResume(false), t)
  {
    t := s.(stack := Pop(s.stack));
  }

  /** The frame at the top returns before anything is done. */
  ghost predicate Returned(s: State, t: State, wanted: int) {
    Reached(s, t, wanted) && t.stages == s.stages && |t.stack| < |s.stack|
  }

  lemma ReturnedOne(s: State, a: Action, t: State, wanted: int)
    requires Served(s, wanted) && Pops(s, a, t)
    ensures Returned(s, t, wanted)
  {
    ReachedOne(s, a, t, wanted);
  }

  lemma ShiftingGoesOn(s: State, wanted: int) returns (t: State)
    requires Served(s, wanted) && IsTop(s, Poll(Shifting))
    ensures Closer(s, t, wanted) || Returned(s, t, wanted)
  {
    if Q.IsEmpty(s.pool.resq) {
      t := EmptyPollPops(s);
      ReturnedOne(s, DoPollShift, t, wanted);
    } else {
      t := TakesResult(s);
      CloserOne(s, DoPollShift, t, wanted);
    }
  }

  lemma PollGoesOn(s: State, wanted: int) returns (t: State)
    requires Served(s, wanted) && s.stack != [] && Last(s.stack).Poll?
    ensures Closer(s, t, wanted) || Returned(s, t, wanted)
  {
    match Last(s.stack).step
    case Starting(_) =>
      var u := DecisionEnds(s, wanted);
      t := ShiftingGoesOn(u, wanted);
      ReachedTrans(s, u, t, wanted);
    case Shifting =>
      t := ShiftingGoesOn(s, wanted);
    case Counting(r) =>
      t := CountGoesOn(s, wanted);
    case Dispatched =>
      t := LimitGoesOn(s, wanted);
  }

  lemma CountGoesOn(s: State, wanted: int) returns (t: State)
    requires Served(s, wanted) && s.stack != [] && Last(s.stack).Poll? && Last(s.stack).step.Counting?
    ensures Closer(s, t, wanted)
  {
    t := CountsDown(s);
    CloserOne(s, DoPollCount, t, wanted);
  }

  lemma LimitGoesOn(s: State, wanted: int) returns (t: State)
    requires Served(s, wanted) && IsTop(s, Poll(Dispatched))
    ensures Returned(s, t, wanted)
  {
    t := LimitPops(s);
    ReturnedOne(s, DoPollResume(false), t, wanted);
  }

  lemma LoopGoesOn(s: State, wanted: int) returns (t: State)
    requires Served(s, wanted) && wanted >= 1 && s.stack != [] && Last(s.stack).EventLoop?
    ensures Closer(s, t, wanted) || Returned(s, t, wanted)
  {
    if Last(s.stack).blocked {
      t := BlockedGoesOn(s, wanted);
    } else if s.pool.nreqs == 0 {
      t := LoopPops(s);
      ReturnedOne(s, DoLoopTest, t, wanted);
    } else {
      var u := Blocks(s);
      ReachedOne(s, DoLoopTest, u, wanted);
      t := BlockedGoesOn(u, wanted);
      CloserTrans(s, u, t, wanted);
    }
  }

  lemma NoShrinkOnTop(s: State, wanted: int)
    requires Supply(s, wanted) && s.stack != []
    ensures !Last(s.stack).Shrink?
  {
  }

  /** Whatever frame is at the top: there is less to do soon, or the frame returns. */
  lemma TopGoesOn(s: State, wanted: int) returns (t: State)
    requires Served(s, wanted) && wanted >= 1 && s.stack != []
    ensures Closer(s, t, wanted) || Returned(s, t, wanted)
  {
    NoShrinkOnTop(s, wanted);
    match Last(s.stack)
    case EventLoop(_) =>
      t := LoopGoesOn(s, wanted);
    case Poll(_) =>
      t := PollGoesOn(s, wanted);
    case Finish(_, _) =>
      t := FinishGoesOn(s, wanted);
    case PushGroup(_) =>
      t := PublishesGroup(s);
      CloserOne(s, DoPublishGroup, t, wanted);
    case Submitted(_) =>
      t := DecisionEnds(s, wanted);
  }

  lemma {:induction false} GoesOn(s: State, wanted: int) returns (t: State)
    requires Served(s, wanted) && wanted >= 1 && s.stack != []
    ensures Closer(s, t, wanted)
    decreases |s.stack|
  {
    t := TopGoesOn(s, wanted);
    if !Closer(s, t, wanted) {
      var u := t;
      t := GoesOn(u, wanted);
      CloserTrans(s, u, t, wanted);
    }
  }

  /** Every state leads to one in which the main thread has returned. */
  lemma {:induction false} ComesBack(s: State, wanted: int) returns (t: State)
    requires Served(s, wanted) && wanted >= 1
    ensures Reached(s, t, wanted) && t.stack == []
    decreases Effort(s.stages)
  {
    if s.stack == [] {
      GoNowhere(s);
      t := s;
    } else {
      var u := GoesOn(s, wanted);
      if u.stack == [] {
        t := u;
      } else {
        t := ComesBack(u, wanted);
        ReachedTrans(s, u, t, wanted);
      }
    }
  }

  // ----- over runs -----

  lemma RunJoin(c: Config, ss: seq<State>, acts: seq<Action>, ss': seq<State>, acts': seq<Action>)
    requires Run(c, ss, acts) && Steps(ss', acts') && ss'[0] == ss[|acts|]
    ensures Run(c, ss + ss'[1..], acts + acts')
    ensures (ss + ss'[1..])[|acts + acts'|] == ss'[|acts'|]
  {
    var all, both := ss + ss'[1..], acts + acts';
    forall i | 0 <= i < |both|
      ensures Next(all[i], both[i], all[i + 1])
    {
      if i < |acts| {
        assert both[i] == acts[i] && all[i] == ss[i] && all[i + 1] == ss[i + 1];
      } else {
        var j := i - |acts|;
        assert both[i] == acts'[j] && all[i] == ss'[j] && all[i + 1] == ss'[j + 1];
      }
    }
  }

  /**
   * With fixed settings that want a thread, every run can go on, without another call of the user,
   * until the main thread has returned. If it is in an event loop of the outermost level, every
   * request has then been polled, finished and destroyed, and called unless it was cancelled in time.
   */
  lemma CanComplete(c: Config, ss: seq<State>, acts: seq<Action>) returns (ss': seq<State>, acts': seq<Action>)
    requires Run(c, ss, acts) && Steady(c, acts) && c.wanted >= 1
    ensures Run(c, ss', acts') && ss <= ss' && acts <= acts'
    ensures forall k :: |acts| <= k < |acts'| ==> OwnStep(acts'[k])
    ensures ss'[|acts'|].stack == []
    ensures ss[|acts|].stack != [] && ss[|acts|].stack[0].EventLoop? ==>
              forall r :: 0 <= r < |ss'[|acts'|].reqs| ==>
                var q := ss'[|acts'|].reqs[r];
                && q.polls == 1 && q.finishes == 1 && q.destroys == 1
                && q.callbacks == if CancelledInTime(ss', acts', |acts'|, r) then 0 else 1
  {
    var s := ss[|acts|];
    RunServed(c, ss, acts, |acts|);
    var t := ComesBack(s, c.wanted);
    var more, moreActs :| Steps(more, moreActs) && more[0] == s && more[|moreActs|] == t;
    RunJoin(c, ss, acts, more, moreActs);
    ss', acts' := ss + more[1..], acts + moreActs;
    if IsLoopAt(s.stack, 0) {
      forall r: nat | r < |t.reqs|
        ensures var q := t.reqs[r];
                && q.polls == 1 && q.finishes == 1 && q.destroys == 1
                && q.callbacks == if CancelledInTime(ss', acts', |acts'|, r) then 0 else 1
      {
        Quiescence(c, ss', acts', |acts'|, r);
      }
    }
  }
}
