/** The order in which the workers take the requests. */
module EngineOrder {
  import opened Engine
  import opened EnginePlaces
  import opened Options
  import Q = PriLists

  /** A queued request is in the list of its priority, behind those submitted before it. */
  ghost predicate ItemOk(s: State, p: nat, i: nat)
    requires p < |s.pool.reqq| && i < |s.pool.reqq[p]|
  {
    var l := s.pool.reqq[p];
    l[i].R? ==>
      && l[i].id < |s.reqs| && s.reqs[l[i].id].queue == p
      && forall j :: 0 <= j < i && l[j].R? ==> l[j].id < l[i].id
  }

  ghost predicate Ordered(s: State) {
    forall p, i :: 0 <= p < |s.pool.reqq| && 0 <= i < |s.pool.reqq[p]| ==> ItemOk(s, p, i)
  }

  /** The queue is the same, and the requests keep their priorities. */
  ghost predicate SamePriorities(s: State, t: State) {
    && |s.reqs| <= |t.reqs|
    && forall r :: 0 <= r < |s.reqs| ==> t.reqs[r].queue == s.reqs[r].queue
  }

  lemma SubmitsKeepPriorities(s: State, t: State, pri: int, wake: Option<nat>)
    requires SubmitOrdinary(s, t, pri, wake) || SubmitGroup(s, t)
    ensures SamePriorities(s, t)
  {
  }

  lemma UnlinkKeepsPriorities(s: State, t: State)
    requires Unlink(s, t)
    ensures SamePriorities(s, t)
  {
  }

  lemma FramesKeepPriorities(s: State, t: State)
    requires PublishGroup(s, t) || ReturnFromCallback(s, t) || PollShift(s, t) || PollCount(s, t) || Destroy(s, t)
    ensures SamePriorities(s, t)
  {
  }

  lemma WorkersKeepPriorities(s: State, t: State, w: nat)
    requires WorkerShift(s, t, w) || Publish(s, t, w)
    ensures SamePriorities(s, t)
  {
  }

  lemma StepKeepsPriorities(s: State, a: Action, t: State)
    requires Next(s, a, t)
    ensures SamePriorities(s, t)
  {
    if Quiet(a) {
      QuietIsStill(s, a, t);
    } else if a.DoSubmitOrdinary? {
      SubmitsKeepPriorities(s, t, a.pri, a.wake);
    } else if a.DoSubmitGroup? {
      SubmitsKeepPriorities(s, t, 0, None);
    } else if a.DoUnlink? {
      UnlinkKeepsPriorities(s, t);
    } else if a.DoWorkerShift? || a.DoPublish? {
      WorkersKeepPriorities(s, t, a.w);
    } else {
      FramesKeepPriorities(s, t);
    }
  }

  lemma SameQueueKeepsOrdered(s: State, t: State)
    requires Ordered(s) && SamePriorities(s, t)
    requires t.pool.reqq == s.pool.reqq
    ensures Ordered(t)
  {
    forall p, i | 0 <= p < |t.pool.reqq| && 0 <= i < |t.pool.reqq[p]|
      ensures ItemOk(t, p, i)
    {
      assert ItemOk(s, p, i);
    }
  }

  lemma PushKeepsOrdered(s: State, t: State, q: nat, x: Item)
    requires Ordered(s) && SamePriorities(s, t) && q < |s.pool.reqq|
    requires t.pool.reqq == Q.Push(s.pool.reqq, q, x)
    requires x.R? ==> x.id == |s.reqs| < |t.reqs| && t.reqs[x.id].queue == q
    ensures Ordered(t)
  {
    forall p, i | 0 <= p < |t.pool.reqq| && 0 <= i < |t.pool.reqq[p]|
      ensures ItemOk(t, p, i)
    {
      if i < |s.pool.reqq[p]| {
        assert ItemOk(s, p, i);
      }
      forall j | 0 <= j < i
        ensures t.pool.reqq[p][j] == s.pool.reqq[p][j] && ItemOk(s, p, j)
      {
      }
    }
  }

  lemma RestKeepsOrdered(s: State, t: State)
    requires Ordered(s) && SamePriorities(s, t) && !Q.IsEmpty(s.pool.reqq)
    requires t.pool.reqq == Q.Rest(s.pool.reqq)
    ensures Ordered(t)
  {
    var top := Q.Top(s.pool.reqq);
    forall p, i | 0 <= p < |t.pool.reqq| && 0 <= i < |t.pool.reqq[p]|
      ensures ItemOk(t, p, i)
    {
      assert ItemOk(s, p, if p == top then i + 1 else i);
    }
  }

  lemma OthersLeaveRequests(s: State, a: Action, t: State)
    requires Next(s, a, t) && !a.DoSubmitOrdinary? && !a.DoShrinkTest? && !a.DoWorkerShift?
    ensures t.pool.reqq == s.pool.reqq
  {
  }

  lemma ShrinkKeepsOrdered(s: State, t: State, wake: Option<nat>)
    requires Ordered(s) && SamePriorities(s, t) && ShrinkTest(s, t, wake)
    ensures Ordered(t)
  {
    if t.pool.reqq == s.pool.reqq {
      SameQueueKeepsOrdered(s, t);
    } else {
      PushKeepsOrdered(s, t, Q.ETP_NUM_PRI - 1, Quit);
    }
  }

  lemma ShiftKeepsOrdered(s: State, t: State, w: nat)
    requires Ordered(s) && SamePriorities(s, t) && WorkerShift(s, t, w)
    ensures Ordered(t)
  {
    if Q.IsEmpty(s.pool.reqq) {
      SameQueueKeepsOrdered(s, t);
    } else {
      RestKeepsOrdered(s, t);
    }
  }

  lemma KeepsOrdered(s: State, a: Action, t: State)
    requires |s.stages| == |s.reqs| && Ordered(s) && Next(s, a, t)
    ensures Ordered(t)
  {
    StepKeepsPriorities(s, a, t);
    if a.DoSubmitOrdinary? {
      PushKeepsOrdered(s, t, Q.QueueOf(a.pri), R(|s.stages|));
    } else if a.DoShrinkTest? {
      ShrinkKeepsOrdered(s, t, a.wake);
    } else if a.DoWorkerShift? {
      ShiftKeepsOrdered(s, t, a.w);
    } else {
      OthersLeaveRequests(s, a, t);
      SameQueueKeepsOrdered(s, t);
    }
  }

  lemma {:induction false} InSomeList<T>(q: Q.Lists<T>, n: nat, x: T) returns (p: nat)
    requires n <= |q| && x in Q.ItemsBelow(q, n)
    ensures p < n && x in q[p]
    decreases n
  {
    if x in q[n - 1] {
      p := n - 1;
    } else {
      p := InSomeList(q, n - 1, x);
    }
  }

  /** A worker takes the request with the highest priority, and of those the one submitted first. */
  lemma FrontIsBest(s: State, r: nat, x: nat)
    requires Places(s) && Ordered(s)
    requires !Q.IsEmpty(s.pool.reqq) && Q.Front(s.pool.reqq) == R(r)
    requires x < |s.stages| && s.stages[x].Queued? && x != r
    ensures r < |s.reqs|
    ensures s.reqs[x].queue < s.reqs[r].queue || (s.reqs[x].queue == s.reqs[r].queue && r < x)
  {
    var q := s.pool.reqq;
    assert ItemOk(s, Q.Top(q), 0);
    assert R(x) in Q.Items(q);
    var p := InSomeList(q, |q|, R(x));
    var i :| 0 <= i < |q[p]| && q[p][i] == R(x);
    assert ItemOk(s, p, i);
  }

  /** The same about the step of the worker. */
  lemma TakesBest(s: State, t: State, w: nat, r: nat, x: nat)
    requires Places(s) && Ordered(s) && WorkerShift(s, t, w)
    requires r < |s.stages| && s.stages[r].Queued? && !t.stages[r].Queued?
    requires x < |s.stages| && s.stages[x].Queued? && x != r
    ensures r < |s.reqs| && x < |s.reqs|
    ensures s.reqs[x].queue < s.reqs[r].queue || (s.reqs[x].queue == s.reqs[r].queue && r < x)
  {
    FrontIsBest(s, r, x);
  }

  // ----- the order in which results are polled -----

  ghost predicate ResultOk(s: State, p: nat, i: nat)
    requires p < |s.pool.resq| && i < |s.pool.resq[p]|
  {
    s.pool.resq[p][i] < |s.reqs| && s.reqs[s.pool.resq[p][i]].queue == p
  }

  /** A result is in the list of the priority that its request has. */
  ghost predicate ResultsPlaced(s: State) {
    forall p, i :: 0 <= p < |s.pool.resq| && 0 <= i < |s.pool.resq[p]| ==> ResultOk(s, p, i)
  }

  lemma SameResultsStayPlaced(s: State, t: State)
    requires ResultsPlaced(s) && SamePriorities(s, t) && t.pool.resq == s.pool.resq
    ensures ResultsPlaced(t)
  {
    forall p, i | 0 <= p < |t.pool.resq| && 0 <= i < |t.pool.resq[p]|
      ensures ResultOk(t, p, i)
    {
      assert ResultOk(s, p, i);
    }
  }

  lemma PushedResultsPlaced(s: State, t: State, r: nat)
    requires ResultsPlaced(s) && SamePriorities(s, t) && Known(s, r)
    requires t.pool.resq == Q.Push(s.pool.resq, s.reqs[r].queue, r)
    ensures ResultsPlaced(t)
  {
    forall p, i | 0 <= p < |t.pool.resq| && 0 <= i < |t.pool.resq[p]|
      ensures ResultOk(t, p, i)
    {
      if i < |s.pool.resq[p]| {
        assert ResultOk(s, p, i);
      }
    }
  }

  lemma RestResultsPlaced(s: State, t: State)
    requires ResultsPlaced(s) && SamePriorities(s, t) && PollShift(s, t)
    ensures ResultsPlaced(t)
  {
    if !Q.IsEmpty(s.pool.resq) {
      var top := Q.Top(s.pool.resq);
      forall p, i | 0 <= p < |t.pool.resq| && 0 <= i < |t.pool.resq[p]|
        ensures ResultOk(t, p, i)
      {
        assert ResultOk(s, p, if p == top then i + 1 else i);
      }
    } else {
      SameResultsStayPlaced(s, t);
    }
  }

  lemma OthersLeaveResults(s: State, a: Action, t: State)
    requires Next(s, a, t) && !a.DoPublish? && !a.DoPublishGroup? && !a.DoPollShift?
    ensures t.pool.resq == s.pool.resq
  {
  }

  lemma KeepsResultsPlaced(s: State, a: Action, t: State)
    requires ResultsPlaced(s) && Next(s, a, t)
    ensures ResultsPlaced(t)
  {
    StepKeepsPriorities(s, a, t);
    if a.DoPublish? {
      PushedResultsPlaced(s, t, s.pool.workers[a.w].id);
    } else if a.DoPublishGroup? {
      PushedResultsPlaced(s, t, Last(s.stack).id);
    } else if a.DoPollShift? {
      RestResultsPlaced(s, t);
    } else {
      OthersLeaveResults(s, a, t);
      SameResultsStayPlaced(s, t);
    }
  }

  /** A poll takes a result of the highest priority that any result has. */
  lemma PollTakesBest(s: State, t: State, r: nat, x: nat)
    requires Places(s) && ResultsPlaced(s) && PollShift(s, t)
    requires r < |s.stages| && s.stages[r].InResults? && !t.stages[r].InResults?
    requires x < |s.stages| && s.stages[x].InResults?
    ensures r < |s.reqs| && x < |s.reqs| && s.reqs[x].queue <= s.reqs[r].queue
  {
    var q := s.pool.resq;
    assert x in Q.Items(q);
    var p := InSomeList(q, |q|, x);
    var i :| 0 <= i < |q[p]| && q[p][i] == x;
    assert ResultOk(s, p, i) && ResultOk(s, Q.Top(q), 0);
  }

  // ----- the requests to leave -----

  /** The requests to leave are in the list of the highest priority. */
  ghost predicate QuitsOnTop(s: State) {
    |s.pool.reqq| == Q.ETP_NUM_PRI && forall p :: 0 <= p < Q.ETP_NUM_PRI - 1 ==> Quit !in s.pool.reqq[p]
  }

  lemma PushesKeepQuitsOnTop(s: State, a: Action, t: State)
    requires QuitsOnTop(s) && Next(s, a, t) && (a.DoSubmitOrdinary? || a.DoShrinkTest?)
    ensures QuitsOnTop(t)
  {
  }

  lemma ShiftKeepsQuitsOnTop(s: State, t: State, w: nat)
    requires QuitsOnTop(s) && WorkerShift(s, t, w)
    ensures QuitsOnTop(t)
  {
    if !Q.IsEmpty(s.pool.reqq) {
      var top := Q.Top(s.pool.reqq);
      assert forall x :: x in s.pool.reqq[top][1..] ==> x in s.pool.reqq[top];
    }
  }

  lemma KeepsQuitsOnTop(s: State, a: Action, t: State)
    requires QuitsOnTop(s) && Next(s, a, t)
    ensures QuitsOnTop(t)
  {
    if a.DoSubmitOrdinary? || a.DoShrinkTest? {
      PushesKeepQuitsOnTop(s, a, t);
    } else if a.DoWorkerShift? {
      ShiftKeepsQuitsOnTop(s, t, a.w);
    } else {
      OthersLeaveRequests(s, a, t);
    }
  }

  /** A worker takes no request of less than the highest priority while a request to leave is queued. */
  lemma QuitsFirst(s: State, t: State, w: nat, r: nat)
    requires Places(s) && Ordered(s) && QuitsOnTop(s) && WorkerShift(s, t, w)
    requires r < |s.stages| && s.stages[r].Queued? && !t.stages[r].Queued?
    ensures r < |s.reqs| && (s.reqs[r].queue < Q.ETP_NUM_PRI - 1 ==> Quit !in Q.Items(s.pool.reqq))
  {
    var q := s.pool.reqq;
    assert ItemOk(s, Q.Top(q), 0);
    if Quit in Q.Items(q) {
      var p := InSomeList(q, |q|, Quit);
    }
  }
}
