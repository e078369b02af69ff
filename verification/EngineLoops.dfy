/** When the event loop, a poll and a shrinking of the pool return to their caller. */
module EngineLoops {
  import opened Engine
  import opened EngineHistories
  import opened EnginePlaces
  import opened EngineRuns
  import opened Members
  import Q = PriLists

  // ----- frames below the top -----

  lemma MovesLeaveBelow(s: State, a: Action, t: State, k: nat)
    requires Next(s, a, t) && !Quiet(a) && k + 1 < |s.stack|
    ensures k < |t.stack| && t.stack[k] == s.stack[k]
  {
  }

  /** Only the frame at the top changes or goes. */
  lemma BelowStays(s: State, a: Action, t: State, k: nat)
    requires Next(s, a, t) && k + 1 < |s.stack|
    ensures k < |t.stack| && t.stack[k] == s.stack[k]
  {
    if Quiet(a) {
      QuietIsStill(s, a, t);
    } else {
      MovesLeaveBelow(s, a, t, k);
    }
  }

  // ----- the event loop -----

  ghost predicate IsLoopAt(stack: seq<Frame>, k: nat) {
    k < |stack| && stack[k].EventLoop?
  }

  lemma MovesLeaveLoop(s: State, a: Action, t: State, k: nat)
    requires Next(s, a, t) && !Quiet(a) && k + 1 == |s.stack| && IsLoopAt(s.stack, k)
    ensures IsLoopAt(t.stack, k)
  {
  }

  lemma OnlyTestEndsLoop(s: State, a: Action, t: State, k: nat)
    requires Next(s, a, t) && Quiet(a) && k + 1 == |s.stack| && IsLoopAt(s.stack, k) && !IsLoopAt(t.stack, k)
    ensures a.DoLoopTest?
  {
  }

  lemma TestEndsLoop(s: State, t: State, k: nat)
    requires LoopTest(s, t) && k + 1 == |s.stack| && !IsLoopAt(t.stack, k)
    ensures s.pool.nreqs == 0 && t.pool.nreqs == 0 && t.stack == s.stack[..k]
  {
  }

  lemma LoopEnds(s: State, a: Action, t: State, k: nat)
    requires Next(s, a, t) && IsLoopAt(s.stack, k) && !IsLoopAt(t.stack, k)
    ensures s.pool.nreqs == 0 && t.pool.nreqs == 0 && t.stack == s.stack[..k]
  {
    if k + 1 < |s.stack| {
      BelowStays(s, a, t, k);
    } else if Quiet(a) {
      OnlyTestEndsLoop(s, a, t, k);
      TestEndsLoop(s, t, k);
    } else {
      MovesLeaveLoop(s, a, t, k);
    }
  }

  /** An event loop, nested in callbacks or not, returns only when no request is counted any more. */
  lemma LoopReturns(c: Config, ss: seq<State>, acts: seq<Action>, i: nat, k: nat)
    requires Run(c, ss, acts) && i < |acts|
    requires k < |ss[i].stack| && ss[i].stack[k].EventLoop?
    requires k >= |ss[i + 1].stack| || !ss[i + 1].stack[k].EventLoop?
    ensures ss[i].pool.nreqs == 0 && ss[i + 1].pool.nreqs == 0
  {
    LoopEnds(ss[i], acts[i], ss[i + 1], k);
  }

  /** From its call up to its return, the frame of an outermost event loop stays at the bottom. */
  lemma {:induction false} LoopStays(c: Config, ss: seq<State>, acts: seq<Action>, i: nat, j: nat)
    requires Run(c, ss, acts) && i < j < |ss| && acts[i].DoEnterLoop? && ss[i].stack == []
    requires forall k :: i < k < j ==> ss[k].stack != []
    ensures IsLoopAt(ss[j].stack, 0) || (ss[j].stack == [] && ss[j].pool.nreqs == 0)
    decreases j
  {
    if j == i + 1 {
      assert Next(ss[i], acts[i], ss[i + 1]);
    } else {
      LoopStays(c, ss, acts, i, j - 1);
      if !IsLoopAt(ss[j].stack, 0) {
        LoopEnds(ss[j - 1], acts[j - 1], ss[j], 0);
      }
    }
  }

  /**
   * An outermost event loop drains everything: when it returns, every request ever submitted was
   * polled, finished and destroyed exactly once, and called unless it was cancelled in time.
   */
  lemma LoopDrains(c: Config, ss: seq<State>, acts: seq<Action>, i: nat, j: nat, r: nat)
    requires Run(c, ss, acts) && i < j < |ss| && acts[i].DoEnterLoop?
    requires ss[i].stack == [] && ss[j].stack == [] && forall k :: i < k < j ==> ss[k].stack != []
    requires r < |ss[j].reqs|
    ensures var q := ss[j].reqs[r];
            && q.polls == 1 && q.finishes == 1 && q.destroys == 1
            && q.callbacks == if CancelledInTime(ss, acts, j, r) then 0 else 1
  {
    LoopStays(c, ss, acts, i, j);
    Quiescence(c, ss, acts, j, r);
  }

  // ----- a poll -----

  lemma MovesEndPoll(s: State, a: Action, t: State)
    requires Next(s, a, t) && !Quiet(a) && s.stack != [] && Last(s.stack).Poll? && |t.stack| < |s.stack|
    ensures Last(s.stack) == Poll(Shifting) && Q.IsEmpty(s.pool.resq)
  {
  }

  lemma QuietEndsPoll(s: State, a: Action, t: State)
    requires Next(s, a, t) && Quiet(a) && s.stack != [] && Last(s.stack).Poll? && |t.stack| < |s.stack|
    ensures Last(s.stack) == Poll(Dispatched) && a == DoPollResume(false)
  {
  }

  /** A poll returns when there are no results left, or at a limit right after a finish. */
  lemma PollReturns(s: State, a: Action, t: State)
    requires Next(s, a, t) && s.stack != [] && Last(s.stack).Poll? && |t.stack| < |s.stack|
    ensures Q.IsEmpty(s.pool.resq) || (Last(s.stack) == Poll(Dispatched) && a == DoPollResume(false))
  {
    if Quiet(a) {
      QuietEndsPoll(s, a, t);
    } else {
      MovesEndPoll(s, a, t);
    }
  }

  ghost predicate IsPollAt(stack: seq<Frame>, k: nat) {
    k < |stack| && stack[k].Poll?
  }

  lemma MovesLeavePoll(s: State, a: Action, t: State)
    requires Next(s, a, t) && !Quiet(a) && s.stack != [] && Last(s.stack).Poll?
    ensures |t.stack| < |s.stack| || IsPollAt(t.stack, |s.stack| - 1)
  {
  }

  lemma QuietLeavesPoll(s: State, a: Action, t: State)
    requires Next(s, a, t) && Quiet(a) && s.stack != [] && Last(s.stack).Poll?
    ensures |t.stack| < |s.stack| || IsPollAt(t.stack, |s.stack| - 1)
  {
  }

  lemma PollStays(s: State, a: Action, t: State, k: nat)
    requires Next(s, a, t) && IsPollAt(s.stack, k) && |t.stack| > k
    ensures IsPollAt(t.stack, k)
  {
    if k + 1 < |s.stack| {
      BelowStays(s, a, t, k);
    } else if Quiet(a) {
      QuietLeavesPoll(s, a, t);
    } else {
      MovesLeavePoll(s, a, t);
    }
  }

  lemma {:induction false} PollRuns(c: Config, ss: seq<State>, acts: seq<Action>, i: nat, j: nat)
    requires Run(c, ss, acts) && i < j < |ss| && acts[i].DoCallPoll?
    requires forall k :: i < k <= j ==> |ss[k].stack| > |ss[i].stack|
    ensures IsPollAt(ss[j].stack, |ss[i].stack|)
    decreases j
  {
    if j == i + 1 {
      assert Next(ss[i], acts[i], ss[i + 1]);
    } else {
      PollRuns(c, ss, acts, i, j - 1);
      PollStays(ss[j - 1], acts[j - 1], ss[j], |ss[i].stack|);
    }
  }

  /** What a caller of a poll may rely on: it left no results, or stopped at a limit right after a finish. */
  lemma CalledPollReturns(c: Config, ss: seq<State>, acts: seq<Action>, i: nat, j: nat)
    requires Run(c, ss, acts) && i + 1 < j < |ss| && acts[i].DoCallPoll?
    requires |ss[j].stack| <= |ss[i].stack| && forall k :: i < k < j ==> |ss[k].stack| > |ss[i].stack|
    ensures Q.IsEmpty(ss[j - 1].pool.resq)
            || (IsTop(ss[j - 1], Poll(Dispatched)) && acts[j - 1] == DoPollResume(false))
  {
    var n := |ss[i].stack|;
    PollRuns(c, ss, acts, i, j - 1);
    if |ss[j - 1].stack| > n + 1 {
      BelowStays(ss[j - 1], acts[j - 1], ss[j], n);
    }
    PollReturns(ss[j - 1], acts[j - 1], ss[j]);
  }

  // ----- a smaller pool -----

  lemma ShrinkStep(s: State, a: Action, t: State)
    requires Next(s, a, t) && s.stack != [] && Last(s.stack).Shrink?
    ensures t.pool.wanted == s.pool.wanted
    ensures if |t.stack| < |s.stack| then t.pool.started <= t.pool.wanted
            else |t.stack| == |s.stack| && Last(t.stack).Shrink?
  {
  }

  lemma ShrinkBegins(s: State, a: Action, t: State)
    requires Next(s, a, t) && a.DoSetMaxParallel?
    ensures |t.stack| == |s.stack| + 1 && Last(t.stack).Shrink? && t.pool.wanted <= a.n
  {
  }

  ghost predicate ShrinksTo(s: State, n: nat, height: nat) {
    height > 0 && |s.stack| == height && s.stack[height - 1].Shrink? && s.pool.wanted <= n
  }

  lemma ShrinkStays(s: State, a: Action, t: State, n: nat, height: nat)
    requires Next(s, a, t) && ShrinksTo(s, n, height) && |t.stack| >= height
    ensures ShrinksTo(t, n, height)
  {
    ShrinkStep(s, a, t);
  }

  lemma {:induction false} ShrinkRuns(c: Config, ss: seq<State>, acts: seq<Action>, i: nat, j: nat)
    requires Run(c, ss, acts) && i < j < |ss| && acts[i].DoSetMaxParallel?
    requires forall k :: i < k <= j ==> |ss[k].stack| > |ss[i].stack|
    ensures ShrinksTo(ss[j], acts[i].n, |ss[i].stack| + 1)
    decreases j
  {
    if j == i + 1 {
      ShrinkBegins(ss[i], acts[i], ss[i + 1]);
    } else {
      ShrinkRuns(c, ss, acts, i, j - 1);
      ShrinkStays(ss[j - 1], acts[j - 1], ss[j], acts[i].n, |ss[i].stack| + 1);
    }
  }

  /** The call that lowers the limit of threads returns when no more than that are started. */
  lemma ShrinkReturns(c: Config, ss: seq<State>, acts: seq<Action>, i: nat, j: nat)
    requires Run(c, ss, acts) && i + 1 < j < |ss| && acts[i].DoSetMaxParallel?
    requires |ss[j].stack| <= |ss[i].stack| && forall k :: i < k < j ==> |ss[k].stack| > |ss[i].stack|
    ensures ss[j].pool.started <= ss[j].pool.wanted <= acts[i].n
  {
    ShrinkRuns(c, ss, acts, i, j - 1);
    ShrinkStep(ss[j - 1], acts[j - 1], ss[j]);
  }

  // ----- the settings -----

  /** The number of threads wanted is raised by one call and lowered by another, and changes by nothing else. */
  lemma SettingsFollow(s: State, a: Action, t: State)
    requires Next(s, a, t)
    ensures t.pool.wanted == (if a.DoSetMinParallel? && a.n > s.pool.wanted then a.n
                              else if a.DoSetMaxParallel? && a.n < s.pool.wanted then a.n
                              else s.pool.wanted)
    ensures t.pool.maxIdle == if a.DoSetMaxIdle? then a.n else s.pool.maxIdle
  {
    if !a.DoSetMinParallel? && !a.DoSetMaxParallel? && !a.DoSetMaxIdle? {
      OthersKeepSettings(s, a, t);
    }
  }

  lemma OthersKeepSettings(s: State, a: Action, t: State)
    requires Next(s, a, t) && !a.DoSetMinParallel? && !a.DoSetMaxParallel? && !a.DoSetMaxIdle?
    ensures t.pool.wanted == s.pool.wanted && t.pool.maxIdle == s.pool.maxIdle
  {
  }
}
