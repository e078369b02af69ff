/** What holds over whole runs of the engine. */
module EngineRuns {
  import opened Counting
  import opened Engine
  import opened EnginePlaces
  import opened EngineCounters
  import opened EngineGroups
  import opened EngineOrder
  import opened EngineSupply
  import opened EngineThreads
  import opened Members
  import opened Options
  import Q = PriLists

  /** A run from the start: state `i` becomes state `i + 1` by action `i`. */
  ghost predicate Run(c: Config, ss: seq<State>, acts: seq<Action>) {
    && |ss| == |acts| + 1
    && Init(ss[0], c)
    && forall i {:trigger acts[i]} :: 0 <= i < |acts| ==> Next(ss[i], acts[i], ss[i + 1])
  }

  ghost predicate Inv(s: State) {
    && Places(s) && Counters(s) && Balanced(s) && Notified(s) && Signalled(s) && Awaiting(s)
    && Grouped(s) && DelayOk(s) && Histories(s) && Acyclic(s.reqs) && Ordered(s) && Staffed(s)
  }

  lemma InitInv(s: State, c: Config)
    requires Init(s, c)
    ensures Inv(s)
  {
    InitQueues(s, c);
    InitThreads(s, c);
    assert Ranked(s.reqs, []);
  }

  lemma InitQueues(s: State, c: Config)
    requires Init(s, c)
    ensures Places(s) && Balanced(s) && Notified(s)
  {
    Q.EmptyTotal(s.pool.reqq);
    Q.EmptyTotal(s.pool.resq);
  }

  lemma InitThreads(s: State, c: Config)
    requires Init(s, c)
    ensures Counters(s) && Signalled(s) && Awaiting(s) && Staffed(s) && Ordered(s)
  {
    Q.EmptyTotal(s.pool.reqq);
  }

  lemma KeepsInv(s: State, a: Action, t: State)
    requires Inv(s) && Next(s, a, t)
    ensures Inv(t)
  {
    GroupedAreFlagged(s);
    KeepsPlaces(s, a, t);
    KeepsCounters(s, a, t);
    KeepsBalanced(s, a, t);
    KeepsNotified(s, a, t);
    KeepsSignalled(s, a, t);
    KeepsAwaiting(s, a, t);
    KeepsGrouped(s, a, t);
    KeepsDelayOk(s, a, t);
    KeepsHistories(s, a, t);
    KeepsAcyclic(s, a, t);
    KeepsOrdered(s, a, t);
    KeepsStaffed(s, a, t);
  }

  lemma {:induction false} RunInv(c: Config, ss: seq<State>, acts: seq<Action>, i: nat)
    requires Run(c, ss, acts) && i < |ss|
    ensures Inv(ss[i])
    decreases i
  {
    if i == 0 {
      InitInv(ss[0], c);
    } else {
      RunInv(c, ss, acts, i - 1);
      KeepsInv(ss[i - 1], acts[i - 1], ss[i]);
    }
  }

  // ----- the order of execution -----

  /** Whenever a worker takes a request, it has the highest priority, and of those it was submitted first. */
  lemma WorkerTakesBest(c: Config, ss: seq<State>, acts: seq<Action>, i: nat, r: nat, x: nat)
    requires Run(c, ss, acts) && i < |acts| && acts[i].DoWorkerShift?
    requires r < |ss[i].stages| && ss[i].stages[r].Queued? && !ss[i + 1].stages[r].Queued?
    requires x < |ss[i].stages| && ss[i].stages[x].Queued? && x != r
    ensures var q := ss[i].reqs; q[x].queue < q[r].queue || (q[x].queue == q[r].queue && r < x)
  {
    RunInv(c, ss, acts, i);
    TakesBest(ss[i], ss[i + 1], acts[i].w, r, x);
  }

  lemma {:induction false} RunResultsPlaced(c: Config, ss: seq<State>, acts: seq<Action>, i: nat)
    requires Run(c, ss, acts) && i < |ss|
    ensures ResultsPlaced(ss[i])
    decreases i
  {
    if i > 0 {
      RunResultsPlaced(c, ss, acts, i - 1);
      KeepsResultsPlaced(ss[i - 1], acts[i - 1], ss[i]);
    }
  }

  /** Whenever a poll takes a result, no other result belongs to a request of higher priority. */
  lemma PolledBest(c: Config, ss: seq<State>, acts: seq<Action>, i: nat, r: nat, x: nat)
    requires Run(c, ss, acts) && i < |acts| && acts[i].DoPollShift?
    requires r < |ss[i].stages| && ss[i].stages[r].InResults? && !ss[i + 1].stages[r].InResults?
    requires x < |ss[i].stages| && ss[i].stages[x].InResults?
    ensures r < |ss[i].reqs| && x < |ss[i].reqs| && ss[i].reqs[x].queue <= ss[i].reqs[r].queue
  {
    RunInv(c, ss, acts, i);
    RunResultsPlaced(c, ss, acts, i);
    PollTakesBest(ss[i], ss[i + 1], r, x);
  }

  lemma {:induction false} RunQuitsOnTop(c: Config, ss: seq<State>, acts: seq<Action>, i: nat)
    requires Run(c, ss, acts) && i < |ss|
    ensures QuitsOnTop(ss[i])
    decreases i
  {
    if i > 0 {
      RunQuitsOnTop(c, ss, acts, i - 1);
      KeepsQuitsOnTop(ss[i - 1], acts[i - 1], ss[i]);
    }
  }

  // ----- idle threads -----

  lemma StepKeepsRested(c: Config, ss: seq<State>, acts: seq<Action>, i: nat)
    requires Run(c, ss, acts) && i < |acts| && Rested(ss[i]) && !acts[i].DoSetMaxIdle?
    ensures Rested(ss[i + 1])
  {
    RunInv(c, ss, acts, i);
    KeepsRested(ss[i], acts[i], ss[i + 1]);
  }

  /** While `max_idle` is not set anew, no more than that many workers ever sleep without a timeout. */
  lemma {:induction false} RunRested(c: Config, ss: seq<State>, acts: seq<Action>, i: nat)
    requires Run(c, ss, acts) && i < |ss| && forall k :: 0 <= k < i ==> !acts[k].DoSetMaxIdle?
    ensures Rested(ss[i])
    decreases i
  {
    if i > 0 {
      RunRested(c, ss, acts, i - 1);
      StepKeepsRested(c, ss, acts, i - 1);
    }
  }

  // ----- what threads are started for -----

  lemma {:induction false} RunNeeded(c: Config, ss: seq<State>, acts: seq<Action>, i: nat)
    requires Run(c, ss, acts) && i < |ss|
    ensures Needed(ss[i])
    decreases i
  {
    if i > 0 {
      RunNeeded(c, ss, acts, i - 1);
      RunInv(c, ss, acts, i - 1);
      KeepsNeeded(ss[i - 1], acts[i - 1], ss[i]);
    }
  }

  /**
   * However the reads of the counters interleave with the workers: a thread is only created while
   * fewer are started than wanted, and fewer than requests are counted.
   */
  lemma ThreadsForWork(c: Config, ss: seq<State>, acts: seq<Action>, i: nat)
    requires Run(c, ss, acts) && i < |acts| && acts[i].DoStartThread?
    ensures ss[i].pool.started < ss[i].pool.wanted && ss[i].pool.started < ss[i].pool.nreqs
  {
    RunNeeded(c, ss, acts, i);
    assert Next(ss[i], acts[i], ss[i + 1]);
  }

  // ----- quiescence -----

  /** A delayed group contains a request whose finish is under way, if no request is counted. */
  lemma {:induction false} DelayedReachesFinishing(s: State, rank: seq<nat>, g: nat) returns (m: nat)
    requires Inv(s) && s.pool.nreqs == 0 && Ranked(s.reqs, rank)
    requires g < |s.stages| && s.stages[g].Delayed?
    ensures m < |s.stages| && s.stages[m].Finishing? && Reaches(s.reqs, g, m)
    decreases rank[g]
  {
    CountAll(s.stages, InFlight);
    m := s.reqs[g].members[0];
    assert ListOk(s.reqs, g) && PlaceOk(s.reqs, g, 0);
    assert m in s.reqs[g].members && MemberOk(s, m);
    if s.stages[m].Delayed? {
      var deeper := DelayedReachesFinishing(s, rank, m);
      ReachesFirst(s.reqs, g, m, deeper);
      m := deeper;
    } else {
      assert Path(s.reqs, [g, m]);
      assert [g, m][0] == g && [g, m][1] == m;
    }
  }

  /** The requests of the finishes in progress. */
  ghost predicate OnStack(s: State, r: nat) {
    exists k :: 0 <= k < |s.stack| && s.stack[k].Finish? && s.stack[k].id == r
  }

  /**
   * When no request is counted, each request is destroyed, is finishing on the stack, or is a delayed
   * group around one that is finishing on the stack.
   */
  lemma Uncounted(s: State, r: nat)
    requires Inv(s) && s.pool.nreqs == 0 && r < |s.stages|
    ensures s.stages[r].Destroyed? || OnStack(s, r)
            || (s.stages[r].Delayed? && exists m :: Reaches(s.reqs, r, m) && OnStack(s, m))
  {
    CountAll(s.stages, InFlight);
    assert StageMatches(s, r);
    if s.stages[r].Delayed? {
      var rank :| Ranked(s.reqs, rank);
      var m := DelayedReachesFinishing(s, rank, r);
      assert StageMatches(s, m);
      assert OnStack(s, m);
    }
  }

  // ----- the life of a group -----

  /** The list of a group holds exactly the requests that joined it and have not left it. */
  lemma ListedIffJoined(s: State, g: nat, m: nat)
    requires Grouped(s) && g < |s.reqs| && m < |s.reqs|
    ensures m in s.reqs[g].members <==> s.reqs[m].group == Some(g) && !HasLeft(s.stages[m])
  {
    assert ListOk(s.reqs, g) && MemberOk(s, m);
    MembersPoint(s.reqs, g);
  }

  /**
   * At any time all lists are well linked, through exactly the requests that joined the group and have
   * not left it, and `size` is their number. A request has finished at most once, and only after it was
   * shifted from the result queue. When a group finishes, all that ever joined it have finished before.
   */
  lemma GroupLife(c: Config, ss: seq<State>, acts: seq<Action>, i: nat, g: nat)
    requires Run(c, ss, acts) && i < |ss| && g < |ss[i].reqs|
    ensures |ss[i].stages| == |ss[i].reqs| && ListsOk(ss[i].reqs)
    ensures var q := ss[i].reqs[g];
            && (forall m :: 0 <= m < |ss[i].reqs| ==>
                  (m in q.members <==> ss[i].reqs[m].group == Some(g) && !HasLeft(ss[i].stages[m])))
            && q.finishes <= 1 && q.destroys <= q.finishes <= q.polls <= 1
            && (q.finishes == 1 ==> q.size == 0 && q.first == None)
    ensures forall m :: 0 <= m < |ss[i].reqs| && ss[i].reqs[m].group == Some(g) && ss[i].reqs[g].finishes == 1 ==>
              ss[i].reqs[m].finishes == 1
  {
    RunInv(c, ss, acts, i);
    var s := ss[i];
    assert HistoryOk(s.stages[g], s.reqs[g]) && GroupOk(s, g) && ListOk(s.reqs, g);
    forall m | 0 <= m < |s.reqs|
      ensures m in s.reqs[g].members <==> s.reqs[m].group == Some(g) && !HasLeft(s.stages[m])
      ensures s.reqs[m].group == Some(g) && s.reqs[g].finishes == 1 ==> s.reqs[m].finishes == 1
    {
      ListedIffJoined(s, g, m);
      assert HistoryOk(s.stages[m], s.reqs[m]);
    }
  }

  /** In every run, the flag that the unlinking of a member tests means that the group waits for it. */
  lemma FlagMeansDelayed(c: Config, ss: seq<State>, acts: seq<Action>, i: nat, g: nat)
    requires Run(c, ss, acts) && i < |ss| && g < |ss[i].reqs| && ss[i].reqs[g].members != []
    ensures |ss[i].stages| == |ss[i].reqs|
    ensures ss[i].reqs[g].delayed <==> ss[i].stages[g].Delayed?
  {
    RunInv(c, ss, acts, i);
    assert GroupOk(ss[i], g);
  }

  // ----- the supply of threads and the event loop -----

  /** The settings stay fixed, with no fewer threads allowed to be idle than are wanted. */
  ghost predicate Steady(c: Config, acts: seq<Action>) {
    c.wanted <= c.maxIdle && forall k :: 0 <= k < |acts| ==> Fixed(acts[k])
  }

  ghost predicate Supply(s: State, wanted: int) {
    Manned(s) && Supplied(s) && s.pool.wanted == wanted
  }

  lemma InitSupply(s: State, c: Config)
    requires Init(s, c) && c.wanted <= c.maxIdle
    ensures Supply(s, c.wanted)
  {
    Q.EmptyTotal(s.pool.reqq);
  }

  ghost predicate Served(s: State, wanted: int) {
    Inv(s) && Supply(s, wanted)
  }

  lemma KeepsSupply(s: State, a: Action, t: State, wanted: int)
    requires Inv(s) && Supply(s, wanted) && Next(s, a, t) && Fixed(a)
    ensures Supply(t, wanted)
  {
    KeepsSignalled(s, a, t);
    KeepsManned(s, a, t);
    KeepsSupplied(s, a, t);
    FixedKeepsSettings(s, a, t);
  }

  lemma KeepsServed(s: State, a: Action, t: State, wanted: int)
    requires Served(s, wanted) && Next(s, a, t) && Fixed(a)
    ensures Served(t, wanted)
  {
    KeepsInv(s, a, t);
    KeepsSupply(s, a, t, wanted);
  }

  lemma {:induction false} RunServed(c: Config, ss: seq<State>, acts: seq<Action>, i: nat)
    requires Run(c, ss, acts) && i < |ss| && Steady(c, acts)
    ensures Served(ss[i], c.wanted)
    decreases i
  {
    if i == 0 {
      InitInv(ss[0], c);
      InitSupply(ss[0], c);
    } else {
      RunServed(c, ss, acts, i - 1);
      KeepsServed(ss[i - 1], acts[i - 1], ss[i], c.wanted);
    }
  }

  /** No worker times out, and outside of a submit or poll there are threads for all the work, up to the limit. */
  lemma WorkConservation(c: Config, ss: seq<State>, acts: seq<Action>, i: nat)
    requires Run(c, ss, acts) && i < |ss|
    requires Steady(c, acts)
    ensures forall w :: 0 <= w < |ss[i].pool.workers| ==>
              var x := ss[i].pool.workers[w]; x != Waiting(true) && x != Woken(true) && x != TimedOut && x != Gone
    ensures ss[i].pool.started <= c.wanted && |ss[i].pool.workers| <= c.wanted
    ensures Debt(ss[i].stack) == 0 ==>
              ss[i].pool.started >= Min(c.wanted, ss[i].pool.nreqs - ss[i].pool.npending)
  {
    RunServed(c, ss, acts, i);
    WorkersWanted(ss[i]);
    forall w | 0 <= w < |ss[i].pool.workers|
      ensures Loyal(ss[i].pool.workers[w])
    {
    }
  }

  /** The event loop is blocked, with nothing to read. */
  ghost predicate LooksStuck(s: State) {
    IsTop(s, EventLoop(true)) && s.notice.avail == 0
  }

  /** Then no request is in a frame or in the result queue, so one is queued or executing. */
  lemma StuckHasWork(s: State) returns (r: nat)
    requires Inv(s) && LooksStuck(s)
    ensures r < |s.stages| && (s.stages[r].Queued? || s.stages[r].Running?)
  {
    CountAll(s.stages, InFlight);
    r :| 0 <= r < |s.stages| && InFlight(s.stages[r]);
    assert StageMatches(s, r);
    Q.EmptyTotal(s.pool.resq);
    assert Q.Items(s.pool.resq)[r] == 0;
  }

  /** A queued request has an awake worker that is about to take one. */
  lemma QueuedHasWorker(s: State, r: nat) returns (w: nat)
    requires Inv(s) && LooksStuck(s) && Supply(s, s.pool.wanted) && s.pool.wanted >= 1
    requires r < |s.stages| && s.stages[r].Queued? && forall x :: 0 <= x < |s.stages| ==> !s.stages[x].Running?
    ensures w < |s.pool.workers| && (s.pool.workers[w].Ready? || s.pool.workers[w] == Woken(false))
    ensures !Q.IsEmpty(s.pool.reqq)
  {
    Q.EmptyTotal(s.pool.reqq);
    assert R(r) in Q.Items(s.pool.reqq);
    Q.EmptyTotal(s.pool.resq);
    assert s.pool.started >= 1;
    w := 0;
    assert Loyal(s.pool.workers[0]) && WorkerMatches(s, 0);
    if IsWaiting(s.pool.workers[0]) {
      CountAll(s.pool.workers, IsWaiting);
      CountAll(s.pool.workers, IsWoken);
      w :| 0 <= w < |s.pool.workers| && IsWoken(s.pool.workers[w]);
      assert Loyal(s.pool.workers[w]);
    }
  }

  lemma Taking(s: State, w: nat) returns (u: State)
    requires Places(s) && w < |s.pool.workers| && !Q.IsEmpty(s.pool.reqq) && Q.Front(s.pool.reqq).R?
    requires s.pool.workers[w].Ready? || s.pool.workers[w].Woken?
    ensures Next(s, DoWorkerShift(w), u)
    ensures w < |u.pool.workers| && u.pool.workers[w].Executing? && u.stack == s.stack
  {
    Q.RestItems(s.pool.reqq);
    var me := s.pool.workers[w];
    var p := if me.Woken? then s.pool.(idle := s.pool.idle - 1) else s.pool;
    var r := Q.Front(s.pool.reqq).id;
    var q := p.(nready := p.nready - 1, reqq := Q.Rest(p.reqq));
    u := s.(pool := q.(workers := p.workers[w := Executing(r)]), stages := s.stages[r := Running(w)]);
  }

  lemma Publishing(s: State, w: nat) returns (t: State)
    requires Places(s) && Notified(s) && w < |s.pool.workers| && s.pool.workers[w].Executing?
    ensures Next(s, DoPublish(w), t) && t.stack == s.stack && t.notice.avail > 0
  {
    assert WorkerMatches(s, w);
    var r := s.pool.workers[w].id;
    var d := Published(s, r);
    t := d.(pool := d.pool.(workers := s.pool.workers[w := Ready]));
    PublishedKeepsNotified(s, r);
    Q.PushItems(s.pool.resq, s.reqs[r].queue, r);
  }

  /** Some worker publishes its request, or takes one and publishes that, and makes the descriptor readable. */
  lemma StuckIsServed(s: State) returns (w: nat, u: State, t: State)
    requires Inv(s) && LooksStuck(s) && Supply(s, s.pool.wanted) && s.pool.wanted >= 1
    ensures u == s || Next(s, DoWorkerShift(w), u)
    ensures Next(u, DoPublish(w), t)
    ensures t.notice.avail > 0 && t.stack == s.stack
  {
    u := s;
    if r :| 0 <= r < |s.stages| && s.stages[r].Running? {
      assert StageMatches(s, r);
      w := s.stages[r].worker;
    } else {
      var r := StuckHasWork(s);
      w := QueuedHasWorker(s, r);
      Q.RestItems(s.pool.reqq);
      u := Taking(s, w);
      GroupedAreFlagged(s);
      KeepsPlaces(s, DoWorkerShift(w), u);
      KeepsNotified(s, DoWorkerShift(w), u);
    }
    t := Publishing(u, w);
  }

  /**
   * The event loop is never stuck. With fixed settings that want a thread, whenever it is blocked with
   * nothing to read, one or two steps of one worker wake it.
   */
  lemma NeverStuck(c: Config, ss: seq<State>, acts: seq<Action>, i: nat)
    returns (w: nat, u: State, t: State)
    requires Run(c, ss, acts) && i < |ss|
    requires Steady(c, acts) && c.wanted >= 1
    requires LooksStuck(ss[i])
    ensures u == ss[i] || Next(ss[i], DoWorkerShift(w), u)
    ensures Next(u, DoPublish(w), t)
    ensures t.notice.avail > 0 && t.stack == ss[i].stack
  {
    RunServed(c, ss, acts, i);
    w, u, t := StuckIsServed(ss[i]);
  }

  // ----- what the steps take for granted -----

  /** The requests that the steps find in frames, workers and queues always exist. */
  lemma GuardsHold(s: State)
    requires Inv(s)
    ensures !Q.IsEmpty(s.pool.resq) ==> Known(s, Q.Front(s.pool.resq))
    ensures !Q.IsEmpty(s.pool.reqq) && Q.Front(s.pool.reqq).R? ==> Known(s, Q.Front(s.pool.reqq).id)
    ensures forall w :: 0 <= w < |s.pool.workers| && s.pool.workers[w].Executing? ==> Known(s, s.pool.workers[w].id)
    ensures forall k :: 0 <= k < |s.stack| && !Plain(s.stack[k]) ==>
              Known(s, FrameId(s.stack[k]))
              && (s.reqs[FrameId(s.stack[k])].group.Some? ==> Known(s, s.reqs[FrameId(s.stack[k])].group.value))
  {
    if !Q.IsEmpty(s.pool.resq) {
      Q.RestItems(s.pool.resq);
    }
    if !Q.IsEmpty(s.pool.reqq) {
      Q.RestItems(s.pool.reqq);
    }
    forall w | 0 <= w < |s.pool.workers| && s.pool.workers[w].Executing?
      ensures Known(s, s.pool.workers[w].id)
    {
      assert WorkerMatches(s, w);
    }
    forall k | 0 <= k < |s.stack| && !Plain(s.stack[k])
      ensures Known(s, FrameId(s.stack[k]))
      ensures s.reqs[FrameId(s.stack[k])].group.Some? ==> Known(s, s.reqs[FrameId(s.stack[k])].group.value)
    {
      assert FrameMatches(s, k);
      assert MemberOk(s, FrameId(s.stack[k]));
    }
  }

  // ----- what the user may call -----

  /** Outside of the library, or in a callback. */
  ghost predicate UserHasControl(s: State) {
    s.stack == [] || (Last(s.stack).Finish? && Last(s.stack).part == InCallback)
  }

  /** A request can be submitted with any priority; if a worker waits, one of them is woken. */
  lemma SubmitPossible(s: State, pri: int) returns (wake: Option<nat>, t: State)
    requires Inv(s) && UserHasControl(s)
    ensures Next(s, DoSubmitOrdinary(pri, wake), t)
  {
    wake := None;
    if w :| 0 <= w < |s.pool.workers| && s.pool.workers[w].Waiting? {
      wake := Some(w);
    }
    var p := AddRequest(s.pool, Q.QueueOf(pri), |s.stages|);
    t := s.(pool := p.(workers := Wake(p.workers, wake)),
            stages := s.stages + [Queued],
            reqs := s.reqs + [NewRequest(Ordinary, Q.QueueOf(pri))],
            stack := s.stack + [Submitted(Gate)]);
  }

  /** Groups can be submitted, loops and polls can be nested, and settings can be changed at any such time. */
  lemma CallPossible(s: State, a: Action) returns (t: State)
    requires UserHasControl(s)
    requires a.DoSubmitGroup? || a.DoEnterLoop? || a.DoCallPoll? || a.DoSetMinParallel? || a.DoSetMaxParallel?
             || a.DoSetMaxIdle?
    ensures Next(s, a, t)
  {
    match a
    case DoSubmitGroup =>
      t := s.(pool := s.pool.(nreqs := s.pool.nreqs + 1),
              stages := s.stages + [Announced(|s.stack|)],
              reqs := s.reqs + [NewRequest(Group, Q.QueueOf(Q.ETP_PRI_MAX))],
              stack := s.stack + [PushGroup(|s.stages|)]);
    case DoEnterLoop => t := s.(stack := s.stack + [EventLoop(false)]);
    case DoCallPoll => t := s.(stack := s.stack + [Poll(Starting(Gate))]);
    case DoSetMinParallel(n) => t := if s.pool.wanted < n then s.(pool := s.pool.(wanted := n)) else s;
    case DoSetMaxParallel(n) =>
      t := s.(pool := if s.pool.wanted > n then s.pool.(wanted := n) else s.pool, stack := s.stack + [Shrink(false)]);
    case DoSetMaxIdle(n) => t := s.(pool := s.pool.(maxIdle := n));
  }

  /** Any request can be cancelled until it is destroyed, and so can its members. */
  lemma CancelPossible(s: State, r: nat) returns (t: State, u: State)
    requires Inv(s) && UserHasControl(s) && r < |s.reqs| && s.reqs[r].destroys == 0
    ensures Next(s, DoCancel(r), t) && Next(s, DoCancelMembers(r), u)
  {
    assert HistoryOk(s.stages[r], s.reqs[r]);
    t := s.(reqs := Marked(s.reqs, iset x: nat | Reaches(s.reqs, r, x)));
    u := s.(reqs := Marked(s.reqs, iset x: nat | x != r && Reaches(s.reqs, r, x)));
  }
}
