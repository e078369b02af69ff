/** What a run tells of each request: how it was submitted, whether it was cancelled, and whether it was called. */
module EngineHistories {
  import opened Engine
  import opened EngineGroups
  import opened EnginePlaces
  import opened EngineOrder
  import opened EngineRuns
  import opened Members
  import opened Options
  import Q = PriLists

  // ----- one step, seen from one request -----

  ghost predicate Cancels(s: State, a: Action, r: nat) {
    || (a.DoCancel? && Reaches(s.reqs, a.id, r))
    || (a.DoCancelMembers? && r != a.id && Reaches(s.reqs, a.id, r))
  }

  /** Kind and priority stay, only a cancellation cancels, and the callback goes with the finish. */
  ghost predicate StepOk(s: State, a: Action, t: State, r: nat)
    requires r < |s.reqs|
  {
    && r < |t.reqs|
    && var q, p := s.reqs[r], t.reqs[r];
    && p.kind == q.kind && p.queue == q.queue
    && (p.cancelled <==> q.cancelled || Cancels(s, a, r))
    && ((p.finishes == q.finishes && p.callbacks == q.callbacks)
        || (p.finishes == q.finishes + 1 && p.callbacks == q.callbacks + if q.cancelled then 0 else 1))
  }

  lemma AddStepOk(s: State, a: Action, t: State, r: nat)
    requires Next(s, a, t) && a.DoAdd? && r < |s.reqs|
    ensures StepOk(s, a, t, r)
  {
  }

  lemma UnlinkStepOk(s: State, a: Action, t: State, r: nat)
    requires Next(s, a, t) && a.DoUnlink? && r < |s.reqs|
    ensures StepOk(s, a, t, r)
  {
    assert SameRest(s.reqs[r], Outside(s).reqs[r]);
  }

  lemma CancelsStepOk(s: State, a: Action, t: State, r: nat)
    requires Next(s, a, t) && (a.DoCancel? || a.DoCancelMembers?) && r < |s.reqs|
    ensures StepOk(s, a, t, r)
  {
  }

  lemma PollsStepOk(s: State, a: Action, t: State, r: nat)
    requires Next(s, a, t) && (a.DoPollShift? || a.DoPollCount? || a.DoDestroy?) && r < |s.reqs|
    ensures StepOk(s, a, t, r)
  {
  }

  lemma SubmitsStepOk(s: State, a: Action, t: State, r: nat)
    requires Next(s, a, t) && (a.DoSubmitOrdinary? || a.DoSubmitGroup?) && r < |s.reqs|
    ensures StepOk(s, a, t, r)
  {
  }

  lemma EveryStepOk(s: State, a: Action, t: State, r: nat)
    requires Places(s) && Next(s, a, t) && r < |s.reqs|
    ensures StepOk(s, a, t, r)
  {
    if !MovesReqs(a) {
      MildSteps(s, a, t);
    } else if a.DoAdd? {
      AddStepOk(s, a, t, r);
    } else if a.DoUnlink? {
      UnlinkStepOk(s, a, t, r);
    } else if a.DoCancel? || a.DoCancelMembers? {
      CancelsStepOk(s, a, t, r);
    } else if a.DoPollShift? || a.DoPollCount? || a.DoDestroy? {
      PollsStepOk(s, a, t, r);
    } else {
      SubmitsStepOk(s, a, t, r);
    }
  }

  lemma OtherStepsAddNone(s: State, a: Action, t: State)
    requires Next(s, a, t) && MovesReqs(a) && !a.DoSubmitOrdinary? && !a.DoSubmitGroup?
    ensures |t.reqs| == |s.reqs|
  {
  }

  /** A request that was not there before was submitted by this step; nothing has happened to it. */
  lemma NewRequestIs(s: State, a: Action, t: State, r: nat)
    requires Places(s) && Next(s, a, t) && |s.reqs| <= r < |t.reqs|
    ensures r == |s.reqs| && (a.DoSubmitOrdinary? || a.DoSubmitGroup?)
    ensures var q := t.reqs[r];
            && (if a.DoSubmitOrdinary? then q.kind == Ordinary && q.queue == Q.QueueOf(a.pri)
                else q.kind == Group && q.queue == 8)
            && !q.cancelled && !q.delayed && q.group == None && q.members == [] && q.size == 0
            && q.polls == 0 && q.finishes == 0 && q.callbacks == 0 && q.destroys == 0
  {
    if !MovesReqs(a) {
      MildSteps(s, a, t);
    } else if !a.DoSubmitOrdinary? && !a.DoSubmitGroup? {
      OtherStepsAddNone(s, a, t);
    }
  }

  /** What no step changes or takes back, in a run. */
  lemma RunKeeps(c: Config, ss: seq<State>, acts: seq<Action>, k: nat, r: nat)
    requires Run(c, ss, acts) && k < |acts| && r < |ss[k].reqs|
    ensures r < |ss[k + 1].reqs|
    ensures var q, p := ss[k].reqs[r], ss[k + 1].reqs[r];
            p.kind == q.kind && p.queue == q.queue && p.finishes >= q.finishes
  {
    RunInv(c, ss, acts, k);
    EveryStepOk(ss[k], acts[k], ss[k + 1], r);
  }

  // ----- the callback -----

  lemma OthersFinishNone(s: State, a: Action, t: State, r: nat)
    requires Next(s, a, t) && MovesReqs(a) && !a.DoPollCount? && !a.DoUnlink? && r < |s.reqs|
    ensures r < |t.reqs| && t.reqs[r].finishes == s.reqs[r].finishes
  {
    if a.DoAdd? {
      AddStepOk(s, a, t, r);
    }
  }

  lemma UnlinkShows(s: State, t: State, r: nat)
    requires Unlink(s, t) && r < |s.reqs| == |t.reqs| && t.reqs[r].finishes > s.reqs[r].finishes
    ensures |t.stack| == |s.stack| + 1
    ensures IsTop(t, Finish(r, if s.reqs[r].cancelled then AfterCallback else InCallback))
  {
    assert SameRest(s.reqs[r], Outside(s).reqs[r]);
  }

  /** The finish of a request begins with its callback or, if it is cancelled, after it. */
  lemma FinishShows(s: State, a: Action, t: State, r: nat)
    requires Places(s) && Next(s, a, t) && r < |s.reqs| && r < |t.reqs| && t.reqs[r].finishes > s.reqs[r].finishes
    ensures |t.stack| == |s.stack| + 1
    ensures IsTop(t, Finish(r, if s.reqs[r].cancelled then AfterCallback else InCallback))
  {
    if !MovesReqs(a) {
      MildSteps(s, a, t);
    } else if a.DoUnlink? {
      UnlinkShows(s, t, r);
    } else if !a.DoPollCount? {
      OthersFinishNone(s, a, t, r);
    }
  }

  lemma QuietEntersNoCallback(s: State, a: Action, t: State, r: nat)
    requires Next(s, a, t) && Quiet(a) && |t.stack| > |s.stack|
    ensures !IsTop(t, Finish(r, InCallback))
  {
  }

  lemma OthersEnterNoCallback(s: State, a: Action, t: State, r: nat)
    requires Next(s, a, t) && !Quiet(a) && !a.DoPollCount? && !a.DoUnlink? && |t.stack| > |s.stack|
    ensures !IsTop(t, Finish(r, InCallback))
  {
  }

  lemma UnlinkEnters(s: State, t: State, r: nat)
    requires Unlink(s, t) && |t.stack| > |s.stack| && IsTop(t, Finish(r, InCallback))
    ensures r < |s.reqs| == |t.reqs| && t.reqs[r].callbacks == s.reqs[r].callbacks + 1
  {
    assert SameRest(s.reqs[r], Outside(s).reqs[r]);
  }

  lemma CountEnters(s: State, t: State, r: nat)
    requires PollCount(s, t) && |t.stack| > |s.stack| && IsTop(t, Finish(r, InCallback))
    ensures r < |s.reqs| == |t.reqs| && t.reqs[r].callbacks == s.reqs[r].callbacks + 1
  {
  }

  lemma EntersCallback(s: State, a: Action, t: State, r: nat)
    requires Next(s, a, t) && |t.stack| > |s.stack| && IsTop(t, Finish(r, InCallback))
    ensures r < |s.reqs| && r < |t.reqs| && t.reqs[r].callbacks == s.reqs[r].callbacks + 1
  {
    if Quiet(a) {
      QuietEntersNoCallback(s, a, t, r);
    } else if a.DoUnlink? {
      UnlinkEnters(s, t, r);
    } else if a.DoPollCount? {
      CountEnters(s, t, r);
    } else {
      OthersEnterNoCallback(s, a, t, r);
    }
  }

  /** In every run the callback of a request runs at the steps that put the main thread into it, and only then. */
  lemma CallbackHasControl(c: Config, ss: seq<State>, acts: seq<Action>, i: nat, r: nat)
    requires Run(c, ss, acts) && i < |acts| && r < |ss[i].reqs|
    ensures r < |ss[i + 1].reqs|
    ensures ss[i + 1].reqs[r].callbacks > ss[i].reqs[r].callbacks <==>
              |ss[i + 1].stack| > |ss[i].stack| && IsTop(ss[i + 1], Finish(r, InCallback))
  {
    RunInv(c, ss, acts, i);
    EveryStepOk(ss[i], acts[i], ss[i + 1], r);
    if ss[i + 1].reqs[r].callbacks > ss[i].reqs[r].callbacks {
      FinishShows(ss[i], acts[i], ss[i + 1], r);
    }
    if |ss[i + 1].stack| > |ss[i].stack| && IsTop(ss[i + 1], Finish(r, InCallback)) {
      EntersCallback(ss[i], acts[i], ss[i + 1], r);
    }
  }

  // ----- how a request was submitted -----

  lemma RunSubmits(c: Config, ss: seq<State>, acts: seq<Action>, k: nat)
    requires Run(c, ss, acts) && k < |acts| && (acts[k].DoSubmitOrdinary? || acts[k].DoSubmitGroup?)
    ensures |ss[k].reqs| < |ss[k + 1].reqs|
    ensures var q := ss[k + 1].reqs[|ss[k].reqs|];
            if acts[k].DoSubmitOrdinary? then q.kind == Ordinary && q.queue == Q.QueueOf(acts[k].pri)
            else q.kind == Group && q.queue == 8
  {
    RunInv(c, ss, acts, k);
    SubmitsAdd(ss[k], acts[k], ss[k + 1]);
    NewRequestIs(ss[k], acts[k], ss[k + 1], |ss[k].reqs|);
  }

  lemma SubmitsAdd(s: State, a: Action, t: State)
    requires Next(s, a, t) && (a.DoSubmitOrdinary? || a.DoSubmitGroup?)
    ensures |s.reqs| < |t.reqs|
  {
  }

  lemma {:induction false} SubmittedStays(c: Config, ss: seq<State>, acts: seq<Action>, k: nat, i: nat)
    requires Run(c, ss, acts) && k < i < |ss| && (acts[k].DoSubmitOrdinary? || acts[k].DoSubmitGroup?)
    ensures |ss[k].reqs| < |ss[i].reqs|
    ensures var q := ss[i].reqs[|ss[k].reqs|];
            if acts[k].DoSubmitOrdinary? then q.kind == Ordinary && q.queue == Q.QueueOf(acts[k].pri)
            else q.kind == Group && q.queue == 8
    decreases i
  {
    if k == i - 1 {
      RunSubmits(c, ss, acts, k);
    } else {
      SubmittedStays(c, ss, acts, k, i - 1);
      RunKeeps(c, ss, acts, i - 1, |ss[k].reqs|);
    }
  }

  /** A submission is there to stay, so a later one gets a higher number. */
  lemma {:induction false} RequestsOnlyGrow(c: Config, ss: seq<State>, acts: seq<Action>, k: nat, i: nat)
    requires Run(c, ss, acts) && k <= i < |ss|
    ensures |ss[k].reqs| <= |ss[i].reqs|
    decreases i
  {
    if k < i {
      RequestsOnlyGrow(c, ss, acts, k, i - 1);
      if |ss[i - 1].reqs| > 0 {
        RunKeeps(c, ss, acts, i - 1, |ss[i - 1].reqs| - 1);
      }
    }
  }

  /**
   * Workers take ordinary requests by the priority that they were submitted with, clamped to the
   * range of priorities, and among equals in the order of submission.
   */
  lemma TakenAsSubmitted(c: Config, ss: seq<State>, acts: seq<Action>, i: nat, k: nat, l: nat)
    requires Run(c, ss, acts) && i < |acts| && acts[i].DoWorkerShift? && k < i && l < i && k != l
    requires acts[k].DoSubmitOrdinary? && -128 <= acts[k].pri <= 123
    requires acts[l].DoSubmitOrdinary? && -128 <= acts[l].pri <= 123
    requires var r, x := |ss[k].reqs|, |ss[l].reqs|;
             && r < |ss[i].stages| && ss[i].stages[r].Queued? && !ss[i + 1].stages[r].Queued?
             && x < |ss[i].stages| && ss[i].stages[x].Queued?
    ensures Q.Clamped(acts[l].pri) < Q.Clamped(acts[k].pri)
            || (Q.Clamped(acts[l].pri) == Q.Clamped(acts[k].pri) && k < l)
  {
    SubmittedStays(c, ss, acts, k, i);
    SubmittedStays(c, ss, acts, l, i);
    Q.QueueOfClamps(acts[k].pri);
    Q.QueueOfClamps(acts[l].pri);
    LaterIsHigher(c, ss, acts, k, l);
    LaterIsHigher(c, ss, acts, l, k);
    WorkerTakesBest(c, ss, acts, i, |ss[k].reqs|, |ss[l].reqs|);
  }

  /** A thread that is told to leave is not kept by requests of less than the highest priority. */
  lemma QuitsGoFirst(c: Config, ss: seq<State>, acts: seq<Action>, i: nat, k: nat)
    requires Run(c, ss, acts) && i < |acts| && acts[i].DoWorkerShift? && k < i
    requires acts[k].DoSubmitOrdinary? && -128 <= acts[k].pri <= 123
    requires var r := |ss[k].reqs|; r < |ss[i].stages| && ss[i].stages[r].Queued? && !ss[i + 1].stages[r].Queued?
    ensures acts[k].pri < 4 ==> Quit !in Q.Items(ss[i].pool.reqq)
  {
    SubmittedStays(c, ss, acts, k, i);
    Q.QueueOfClamps(acts[k].pri);
    RunInv(c, ss, acts, i);
    RunQuitsOnTop(c, ss, acts, i);
    QuitsFirst(ss[i], ss[i + 1], acts[i].w, |ss[k].reqs|);
  }

  lemma LaterIsHigher(c: Config, ss: seq<State>, acts: seq<Action>, k: nat, l: nat)
    requires Run(c, ss, acts) && k < |acts| && l < |acts|
    requires acts[k].DoSubmitOrdinary? || acts[k].DoSubmitGroup?
    ensures k < l ==> |ss[k].reqs| < |ss[l].reqs|
  {
    if k < l {
      SubmittedStays(c, ss, acts, k, l);
    }
  }

  // ----- groups are not executed -----

  ghost predicate ForWorkers(x: Stage) {
    x.Queued? || x.Running?
  }

  lemma MovesBringNone(s: State, a: Action, t: State, r: nat)
    requires Next(s, a, t) && !Quiet(a) && !a.DoWorkerShift? && r < |s.stages| && r < |t.stages|
    requires ForWorkers(t.stages[r])
    ensures ForWorkers(s.stages[r])
  {
  }

  lemma ShiftBringsNone(s: State, t: State, w: nat, r: nat)
    requires Places(s) && WorkerShift(s, t, w) && r < |s.stages| && r < |t.stages| && ForWorkers(t.stages[r])
    ensures ForWorkers(s.stages[r])
  {
    if !Q.IsEmpty(s.pool.reqq) && Q.Front(s.pool.reqq).R? {
      ShiftedRequest(s, t, Q.Front(s.pool.reqq).id, Running(w));
    }
  }

  lemma WorkersGetNoGroup(s: State, a: Action, t: State, r: nat)
    requires Places(s) && Places(t) && Next(s, a, t) && r < |t.stages|
    requires r < |s.stages| && ForWorkers(s.stages[r]) ==> s.reqs[r].kind == Ordinary
    ensures ForWorkers(t.stages[r]) ==> t.reqs[r].kind == Ordinary
  {
    if ForWorkers(t.stages[r]) {
      if r < |s.stages| {
        if Quiet(a) {
          QuietIsStill(s, a, t);
        } else if a.DoWorkerShift? {
          ShiftBringsNone(s, t, a.w, r);
        } else {
          MovesBringNone(s, a, t, r);
        }
        EveryStepOk(s, a, t, r);
      } else {
        NewRequestIs(s, a, t, r);
        NewGroupIsAnnounced(s, a, t);
      }
    }
  }

  lemma NewGroupIsAnnounced(s: State, a: Action, t: State)
    requires |s.stages| == |s.reqs| && Next(s, a, t) && (a.DoSubmitOrdinary? || a.DoSubmitGroup?)
    ensures |t.stages| == |s.reqs| + 1 && (a.DoSubmitGroup? ==> t.stages[|s.reqs|].Announced?)
  {
  }

  lemma {:induction false} OnlyOrdinaryExecute(c: Config, ss: seq<State>, acts: seq<Action>, i: nat, r: nat)
    requires Run(c, ss, acts) && i < |ss| && r < |ss[i].stages|
    ensures r < |ss[i].reqs| && (ForWorkers(ss[i].stages[r]) ==> ss[i].reqs[r].kind == Ordinary)
    decreases i
  {
    if i > 0 {
      if r < |ss[i - 1].stages| {
        OnlyOrdinaryExecute(c, ss, acts, i - 1, r);
      }
      RunWorkersGetNoGroup(c, ss, acts, i - 1, r);
    }
  }

  lemma RunWorkersGetNoGroup(c: Config, ss: seq<State>, acts: seq<Action>, i: nat, r: nat)
    requires Run(c, ss, acts) && i < |acts| && r < |ss[i + 1].stages|
    requires r < |ss[i].stages| && r < |ss[i].reqs| && ForWorkers(ss[i].stages[r]) ==> ss[i].reqs[r].kind == Ordinary
    ensures r < |ss[i + 1].reqs| && (ForWorkers(ss[i + 1].stages[r]) ==> ss[i + 1].reqs[r].kind == Ordinary)
  {
    RunInv(c, ss, acts, i);
    RunInv(c, ss, acts, i + 1);
    WorkersGetNoGroup(ss[i], acts[i], ss[i + 1], r);
  }

  // ----- what may be added -----

  /** While the user has control, no request is between two critical sections of the main thread. */
  lemma NoneBetween(s: State, r: nat)
    requires Places(s) && UserHasControl(s) && r < |s.stages|
    ensures !s.stages[r].Announced? && !s.stages[r].Taken?
  {
    assert StageMatches(s, r);
  }

  /**
   * Whenever the user has control, an unfinished request that is in no group can be added to any
   * unfinished group that it does not contain.
   */
  lemma AddPossible(c: Config, ss: seq<State>, acts: seq<Action>, i: nat, g: nat, r: nat) returns (t: State)
    requires Run(c, ss, acts) && i < |ss| && UserHasControl(ss[i])
    requires g < |ss[i].reqs| && r < |ss[i].reqs| && ss[i].reqs[g].kind == Group && ss[i].reqs[r].group == None
    requires ss[i].reqs[g].finishes == 0 && ss[i].reqs[r].finishes == 0 && !Reaches(ss[i].reqs, r, g)
    ensures Next(ss[i], DoAdd(g, r), t)
  {
    RunInv(c, ss, acts, i);
    var s := ss[i];
    assert HistoryOk(s.stages[g], s.reqs[g]) && HistoryOk(s.stages[r], s.reqs[r]);
    NoneBetween(s, g);
    NoneBetween(s, r);
    OnlyOrdinaryExecute(c, ss, acts, i, g);
    t := s.(reqs := Joined(s.reqs, g, r));
  }

  // ----- what is cancelled, and what is called -----

  /** Did a cancellation before state `i` reach the request? */
  ghost predicate CancelledBefore(ss: seq<State>, acts: seq<Action>, i: nat, r: nat)
    requires i <= |acts| < |ss|
  {
    exists k {:trigger acts[k]} :: 0 <= k < i && Cancels(ss[k], acts[k], r)
  }

  lemma CancelledLast(ss: seq<State>, acts: seq<Action>, i: nat, r: nat)
    requires 0 < i <= |acts| < |ss|
    ensures CancelledBefore(ss, acts, i, r) <==>
            CancelledBefore(ss, acts, i - 1, r) || Cancels(ss[i - 1], acts[i - 1], r)
  {
    if k :| 0 <= k < i && Cancels(ss[k], acts[k], r) {
      assert k == i - 1 || CancelledBefore(ss, acts, i - 1, r);
    }
    if CancelledBefore(ss, acts, i - 1, r) {
      var k :| 0 <= k < i - 1 && Cancels(ss[k], acts[k], r);
      assert Cancels(ss[k], acts[k], r);
    }
    if Cancels(ss[i - 1], acts[i - 1], r) {
      assert 0 <= i - 1 < i;
    }
  }

  lemma ReachedExists(s: State, a: Action, r: nat)
    requires Cancels(s, a, r)
    ensures r < |s.reqs|
  {
    var p :| Path(s.reqs, p) && p[0] == a.id && p[|p| - 1] == r;
  }

  lemma {:induction false} CancelledSoFar(c: Config, ss: seq<State>, acts: seq<Action>, i: nat, r: nat)
    requires Run(c, ss, acts) && i < |ss|
    ensures CancelledBefore(ss, acts, i, r) <==> r < |ss[i].reqs| && ss[i].reqs[r].cancelled
    decreases i
  {
    if i > 0 {
      CancelledSoFar(c, ss, acts, i - 1, r);
      CancelledLast(ss, acts, i, r);
      RunInv(c, ss, acts, i - 1);
      var s, a, t := ss[i - 1], acts[i - 1], ss[i];
      if r < |s.reqs| {
        EveryStepOk(s, a, t, r);
      } else {
        if Cancels(s, a, r) {
          ReachedExists(s, a, r);
        }
        if r < |t.reqs| {
          NewRequestIs(s, a, t, r);
        }
      }
    }
  }

  /** A request is cancelled if and only if one of the cancellations so far reached it. */
  lemma CancelledExactly(c: Config, ss: seq<State>, acts: seq<Action>, i: nat, r: nat)
    requires Run(c, ss, acts) && i < |ss| && r < |ss[i].reqs|
    ensures ss[i].reqs[r].cancelled <==>
              exists k {:trigger acts[k]} ::
                && 0 <= k < i
                && ((acts[k].DoCancel? && Reaches(ss[k].reqs, acts[k].id, r))
                    || (acts[k].DoCancelMembers? && r != acts[k].id && Reaches(ss[k].reqs, acts[k].id, r)))
  {
    CancelledSoFar(c, ss, acts, i, r);
    if CancelledBefore(ss, acts, i, r) {
      var k :| 0 <= k < i && Cancels(ss[k], acts[k], r);
      assert Cancels(ss[k], acts[k], r);
    }
    if k :| && 0 <= k < i
            && ((acts[k].DoCancel? && Reaches(ss[k].reqs, acts[k].id, r))
                || (acts[k].DoCancelMembers? && r != acts[k].id && Reaches(ss[k].reqs, acts[k].id, r))) {
      assert Cancels(ss[k], acts[k], r);
    }
  }

  /** Did a cancellation before state `i` reach the request while it had not begun to finish? */
  ghost predicate CancelledInTime(ss: seq<State>, acts: seq<Action>, i: nat, r: nat)
    requires i <= |acts| < |ss|
  {
    exists k {:trigger acts[k]} ::
      0 <= k < i && Cancels(ss[k], acts[k], r) && r < |ss[k].reqs| && ss[k].reqs[r].finishes == 0
  }

  lemma InTimeLast(ss: seq<State>, acts: seq<Action>, i: nat, r: nat)
    requires 0 < i <= |acts| < |ss|
    ensures CancelledInTime(ss, acts, i, r) <==>
            CancelledInTime(ss, acts, i - 1, r)
            || (Cancels(ss[i - 1], acts[i - 1], r) && r < |ss[i - 1].reqs| && ss[i - 1].reqs[r].finishes == 0)
  {
    if k :| 0 <= k < i && Cancels(ss[k], acts[k], r) && r < |ss[k].reqs| && ss[k].reqs[r].finishes == 0 {
      assert k == i - 1 || CancelledInTime(ss, acts, i - 1, r);
    }
    if CancelledInTime(ss, acts, i - 1, r) {
      var k :| 0 <= k < i - 1 && Cancels(ss[k], acts[k], r) && r < |ss[k].reqs| && ss[k].reqs[r].finishes == 0;
      assert Cancels(ss[k], acts[k], r);
    }
  }

  /** Before its finish a request is cancelled exactly if it was in time; with it the callback is settled. */
  ghost predicate Settled(q: Request, inTime: bool) {
    if q.finishes == 0 then q.callbacks == 0 && (q.cancelled <==> inTime)
    else q.callbacks == if inTime then 0 else 1
  }

  lemma StepKeepsSettled(s: State, a: Action, t: State, r: nat, inTime: bool)
    requires Places(s) && Histories(s) && Histories(t) && Next(s, a, t) && r < |t.reqs|
    requires if r < |s.reqs| then Settled(s.reqs[r], inTime) else !inTime
    ensures Settled(t.reqs[r], inTime || (Cancels(s, a, r) && r < |s.reqs| && s.reqs[r].finishes == 0))
  {
    if r < |s.reqs| {
      EveryStepOk(s, a, t, r);
      assert HistoryOk(s.stages[r], s.reqs[r]) && HistoryOk(t.stages[r], t.reqs[r]);
      CancelsDoNotFinish(s, a, t, r);
    } else {
      NewRequestIs(s, a, t, r);
    }
  }

  lemma CancelsDoNotFinish(s: State, a: Action, t: State, r: nat)
    requires Next(s, a, t) && r < |s.reqs|
    ensures Cancels(s, a, r) ==> r < |t.reqs| && t.reqs[r].finishes == s.reqs[r].finishes
  {
  }

  lemma {:induction false} AlwaysSettled(c: Config, ss: seq<State>, acts: seq<Action>, i: nat, r: nat)
    requires Run(c, ss, acts) && i < |ss|
    ensures if r < |ss[i].reqs| then Settled(ss[i].reqs[r], CancelledInTime(ss, acts, i, r))
            else !CancelledInTime(ss, acts, i, r)
    decreases i
  {
    if i > 0 {
      AlwaysSettled(c, ss, acts, i - 1, r);
      InTimeLast(ss, acts, i, r);
      RunInv(c, ss, acts, i - 1);
      RunInv(c, ss, acts, i);
      var s, a, t := ss[i - 1], acts[i - 1], ss[i];
      if r < |t.reqs| {
        StepKeepsSettled(s, a, t, r, CancelledInTime(ss, acts, i - 1, r));
      } else if r < |s.reqs| {
        EveryStepOk(s, a, t, r);
      }
    }
  }

  /**
   * The callback of a request runs with its finish, exactly once, unless a cancellation reached the
   * request before; and nothing but such a cancellation keeps it from running.
   */
  lemma CalledExactly(c: Config, ss: seq<State>, acts: seq<Action>, i: nat, r: nat)
    requires Run(c, ss, acts) && i < |ss| && r < |ss[i].reqs|
    ensures ss[i].reqs[r].callbacks ==
              if ss[i].reqs[r].finishes == 0
                 || exists k {:trigger acts[k]} ::
                      && 0 <= k < i && r < |ss[k].reqs| && ss[k].reqs[r].finishes == 0
                      && ((acts[k].DoCancel? && Reaches(ss[k].reqs, acts[k].id, r))
                          || (acts[k].DoCancelMembers? && r != acts[k].id && Reaches(ss[k].reqs, acts[k].id, r)))
              then 0 else 1
  {
    AlwaysSettled(c, ss, acts, i, r);
    if CancelledInTime(ss, acts, i, r) {
      var k :| 0 <= k < i && Cancels(ss[k], acts[k], r) && r < |ss[k].reqs| && ss[k].reqs[r].finishes == 0;
      assert Cancels(ss[k], acts[k], r);
    }
    if k :| && 0 <= k < i && r < |ss[k].reqs| && ss[k].reqs[r].finishes == 0
            && ((acts[k].DoCancel? && Reaches(ss[k].reqs, acts[k].id, r))
                || (acts[k].DoCancelMembers? && r != acts[k].id && Reaches(ss[k].reqs, acts[k].id, r))) {
      assert Cancels(ss[k], acts[k], r);
    }
  }

  /** After a cancellation, the callbacks of all that it reaches stay silent, unless they began before. */
  lemma CancelSilences(c: Config, ss: seq<State>, acts: seq<Action>, i: nat, j: nat, r: nat, x: nat)
    requires Run(c, ss, acts) && i < j < |ss|
    requires acts[i] == DoCancel(r) || (acts[i] == DoCancelMembers(r) && x != r)
    requires x < |ss[i].reqs| && Reaches(ss[i].reqs, r, x) && ss[i].reqs[x].finishes == 0
    ensures x < |ss[j].reqs| && ss[j].reqs[x].callbacks == 0
  {
    RequestsOnlyGrow(c, ss, acts, i, j);
    AlwaysSettled(c, ss, acts, j, x);
    assert Cancels(ss[i], acts[i], x);
  }

  lemma {:induction false} FinishesOnlyGrow(c: Config, ss: seq<State>, acts: seq<Action>, k: nat, i: nat, r: nat)
    requires Run(c, ss, acts) && k <= i < |ss| && r < |ss[k].reqs|
    ensures r < |ss[i].reqs| && ss[k].reqs[r].finishes <= ss[i].reqs[r].finishes
    decreases i
  {
    if k < i {
      FinishesOnlyGrow(c, ss, acts, k, i - 1, r);
      RunKeeps(c, ss, acts, i - 1, r);
    }
  }

  /** A request that is cancelled before it finishes never runs its callback. */
  lemma CancelledNeverCalled(c: Config, ss: seq<State>, acts: seq<Action>, i: nat, j: nat, r: nat)
    requires Run(c, ss, acts) && i <= j < |ss|
    requires r < |ss[i].reqs| && ss[i].reqs[r].cancelled && ss[i].reqs[r].finishes == 0
    ensures r < |ss[j].reqs| && ss[j].reqs[r].callbacks == 0
  {
    CancelledSoFar(c, ss, acts, i, r);
    var k :| 0 <= k < i && Cancels(ss[k], acts[k], r);
    ReachedExists(ss[k], acts[k], r);
    FinishesOnlyGrow(c, ss, acts, k, i, r);
    RequestsOnlyGrow(c, ss, acts, i, j);
    AlwaysSettled(c, ss, acts, j, r);
    assert CancelledInTime(ss, acts, j, r) by {
      assert Cancels(ss[k], acts[k], r);
    }
  }

  // ----- quiescence -----

  /**
   * Once no request is counted and no finish is in progress, every request was polled, finished and
   * destroyed exactly once, and its callback ran, unless a cancellation reached it before its finish.
   */
  lemma Quiescence(c: Config, ss: seq<State>, acts: seq<Action>, i: nat, r: nat)
    requires Run(c, ss, acts) && i < |ss|
    requires ss[i].pool.nreqs == 0
    requires forall k :: 0 <= k < |ss[i].stack| ==> !ss[i].stack[k].Finish?
    requires r < |ss[i].reqs|
    ensures var q := ss[i].reqs[r];
            && q.polls == 1 && q.finishes == 1 && q.destroys == 1
            && q.members == [] && q.size == 0 && q.first == None
            && q.callbacks == if CancelledInTime(ss, acts, i, r) then 0 else 1
  {
    RunInv(c, ss, acts, i);
    Uncounted(ss[i], r);
    assert HistoryOk(ss[i].stages[r], ss[i].reqs[r]);
    assert GroupOk(ss[i], r) && ListOk(ss[i].reqs, r);
    AlwaysSettled(c, ss, acts, i, r);
  }
}
