/** Group membership, and what has happened to each request by the time it is in a stage. */
module EngineGroups {
  import opened Engine
  import opened EnginePlaces
  import opened Members
  import opened Options
  import Q = PriLists

  /** The request has left its group for good. */
  ghost predicate HasLeft(x: Stage) { x.Unlinked? || x.Destroyed? }

  ghost predicate MayHaveMembers(x: Stage) { x.InResults? || x.Taken? || x.Delayed? }

  /** A request is in the list of its group from the day it joins until it is unlinked. */
  ghost predicate MemberOk(s: State, r: nat)
    requires |s.stages| == |s.reqs| && r < |s.reqs|
  {
    s.reqs[r].group.Some? ==>
      && s.reqs[r].group.value < |s.reqs|
      && (r in s.reqs[s.reqs[r].group.value].members <==> !HasLeft(s.stages[r]))
  }

  /** Only a group that has not begun to finish has members; only a delayed one is flagged, and stays so. */
  ghost predicate GroupOk(s: State, g: nat)
    requires |s.stages| == |s.reqs| && g < |s.reqs|
  {
    var q, x := s.reqs[g], s.stages[g];
    && (q.members != [] ==> q.kind == Group && MayHaveMembers(x))
    && (q.delayed ==> x.Delayed? || x.Finishing? || HasLeft(x))
  }

  /** A delayed group is flagged and waits for a member. */
  ghost predicate DelayOk(s: State)
    requires |s.stages| == |s.reqs|
  {
    forall g :: 0 <= g < |s.reqs| && s.stages[g].Delayed? ==> s.reqs[g].delayed && s.reqs[g].members != []
  }

  /** All lists are well linked, and hold exactly the requests that have joined their group and not left it. */
  ghost predicate Grouped(s: State) {
    && |s.stages| == |s.reqs|
    && ListsOk(s.reqs)
    && (forall r :: 0 <= r < |s.reqs| ==> MemberOk(s, r))
    && (forall g :: 0 <= g < |s.reqs| ==> GroupOk(s, g))
  }

  /** A group with a member and the flag set is in stage `Delayed`. */
  lemma GroupedAreFlagged(s: State)
    requires Grouped(s)
    ensures Flagged(s)
  {
    forall g | 0 <= g < |s.reqs| && s.reqs[g].delayed && s.reqs[g].size > 0
      ensures s.stages[g].Delayed?
    {
      assert ListOk(s.reqs, g) && GroupOk(s, g);
    }
  }

  // ----- steps that only move a request before its finish -----

  ghost predicate Early(x: Stage) { x.Announced? || x.Queued? || x.Running? || x.InResults? }

  ghost predicate Mild(s: State, t: State) {
    && t.reqs == s.reqs && |t.stages| == |s.stages|
    && forall r :: 0 <= r < |s.stages| ==>
         t.stages[r] == s.stages[r] || (Early(s.stages[r]) && Early(t.stages[r]) && !s.stages[r].InResults?)
  }

  lemma MildKeepsGrouped(s: State, t: State)
    requires Grouped(s) && Mild(s, t)
    ensures Grouped(t)
  {
    forall r | 0 <= r < |t.reqs|
      ensures MemberOk(t, r) && GroupOk(t, r)
    {
      assert MemberOk(s, r) && GroupOk(s, r);
    }
  }

  // ----- steps that touch no links -----

  /** The stage of a request, together with its flag, that leaves the agreement with its links as it is. */
  ghost predicate Agrees(s: State, t: State, r: nat)
    requires |s.stages| == |s.reqs| && |t.stages| == |t.reqs| && r < |s.reqs| && r < |t.reqs|
  {
    && SameLinks(s.reqs[r], t.reqs[r])
    && (HasLeft(t.stages[r]) <==> HasLeft(s.stages[r]))
    && GroupOk(t, r)
  }

  lemma AgreeingKeepGrouped(s: State, t: State)
    requires Grouped(s) && |t.stages| == |t.reqs| && |s.reqs| <= |t.reqs|
    requires forall r :: 0 <= r < |s.reqs| ==> Agrees(s, t, r)
    requires forall r :: |s.reqs| <= r < |t.reqs| ==> Unconnected(t.reqs[r])
    ensures Grouped(t)
  {
    forall r | 0 <= r < |s.reqs|
      ensures SameLinks(s.reqs[r], t.reqs[r])
    {
      assert Agrees(s, t, r);
    }
    SameLinksKeepLists(s.reqs, t.reqs);
    forall r | 0 <= r < |t.reqs|
      ensures MemberOk(t, r) && GroupOk(t, r)
    {
      if r < |s.reqs| {
        assert Agrees(s, t, r) && MemberOk(s, r);
        if t.reqs[r].group.Some? {
          assert Agrees(s, t, t.reqs[r].group.value);
        }
      }
    }
  }

  lemma AppendKeepsGrouped(s: State, t: State, kind: Kind, queue: nat, x: Stage)
    requires Grouped(s) && t.reqs == s.reqs + [NewRequest(kind, queue)] && t.stages == s.stages + [x] && Early(x)
    ensures Grouped(t)
  {
    forall r | 0 <= r < |s.reqs|
      ensures Agrees(s, t, r)
    {
      assert GroupOk(s, r);
    }
    AgreeingKeepGrouped(s, t);
  }

  lemma MarkedKeepsGrouped(s: State, t: State, marks: iset<nat>)
    requires Grouped(s) && t.reqs == Marked(s.reqs, marks) && t.stages == s.stages
    ensures Grouped(t)
  {
    forall r | 0 <= r < |s.reqs|
      ensures Agrees(s, t, r)
    {
      assert GroupOk(s, r);
    }
    AgreeingKeepGrouped(s, t);
  }

  lemma PollShiftKeepsGrouped(s: State, t: State)
    requires Places(s) && Grouped(s) && PollShift(s, t)
    ensures Grouped(t)
  {
    if !Q.IsEmpty(s.pool.resq) {
      ShiftedResult(s, t, Taken(|s.stack| - 1));
    }
    forall r | 0 <= r < |s.reqs|
      ensures Agrees(s, t, r)
    {
      assert GroupOk(s, r);
    }
    AgreeingKeepGrouped(s, t);
  }

  lemma PollCountKeepsGrouped(s: State, t: State)
    requires Places(s) && Grouped(s) && PollCount(s, t)
    ensures Grouped(t)
  {
    assert FrameMatches(s, |s.stack| - 1);
    forall r | 0 <= r < |s.reqs|
      ensures Agrees(s, t, r)
    {
      assert GroupOk(s, r) && ListOk(s.reqs, r);
    }
    AgreeingKeepGrouped(s, t);
  }

  lemma FinishesKeepsGrouped(s: State, t: State, g: nat)
    requires Grouped(s) && Known(s, g) && t == Finishes(s, g)
    requires s.reqs[g].members == [] && !HasLeft(s.stages[g])
    ensures Grouped(t)
  {
    forall r | 0 <= r < |s.reqs|
      ensures Agrees(s, t, r)
    {
      assert GroupOk(s, r);
    }
    AgreeingKeepGrouped(s, t);
  }

  lemma DestroyKeepsGrouped(s: State, t: State)
    requires Places(s) && Grouped(s) && Destroy(s, t)
    ensures Grouped(t)
  {
    assert FrameMatches(s, |s.stack| - 1);
    forall r | 0 <= r < |s.reqs|
      ensures Agrees(s, t, r)
    {
      assert GroupOk(s, r);
    }
    AgreeingKeepGrouped(s, t);
  }

  // ----- joining -----

  lemma JoinKeepsMember(s: State, t: State, g: nat, r: nat, x: nat)
    requires Grouped(s) && g < |s.reqs| && r < |s.reqs| && g != r && s.reqs[r].group == None && x < |s.reqs|
    requires s.reqs[g].kind == Group && MayGain(s.stages[g]) && MayJoin(s.stages[r])
    requires t.stages == s.stages && t.reqs == Joined(s.reqs, g, r)
    ensures MemberOk(t, x) && GroupOk(t, x)
  {
    assert MemberOk(s, x) && GroupOk(s, x);
    NewIsNoMember(s.reqs, g, r);
    JoinedIs(s.reqs, g, r, x);
    JoinedIs(s.reqs, g, r, g);
    if s.reqs[x].group.Some? {
      JoinedIs(s.reqs, g, r, s.reqs[x].group.value);
    }
  }

  /** Joining keeps the lists well linked and holding what has joined and not left. */
  lemma AddKeepsGrouped(s: State, t: State, g: nat, r: nat)
    requires Grouped(s) && Add(s, t, g, r)
    ensures Grouped(t)
  {
    ReachesSelf(s.reqs, r);
    JoinedKeepsLists(s.reqs, g, r);
    forall x | 0 <= x < |s.reqs|
      ensures MemberOk(t, x) && GroupOk(t, x)
    {
      JoinKeepsMember(s, t, g, r, x);
    }
  }

  // ----- leaving -----

  /** The request at the top is in the list of its group. */
  lemma LeaverIsMember(s: State, r: nat) returns (k: nat)
    requires Grouped(s) && r < |s.reqs| && s.stages[r].Finishing? && s.reqs[r].group.Some?
    ensures var g := s.reqs[r].group.value;
            g < |s.reqs| && g != r && k < |s.reqs[g].members| && s.reqs[g].members[k] == r
  {
    assert MemberOk(s, r);
    var g := s.reqs[r].group.value;
    assert GroupOk(s, g);
    k :| 0 <= k < |s.reqs[g].members| && s.reqs[g].members[k] == r;
  }

  lemma LeaveKeepsMember(s: State, t: State, g: nat, k: nat, j: nat, x: nat)
    requires Grouped(s) && g < |s.reqs| && k < |s.reqs[g].members| && s.reqs[g].members[k] < |s.reqs|
    requires s.reqs[g].members[k] != g && s.stages[s.reqs[g].members[k]].Finishing?
    requires t.reqs == Left(s.reqs, g, s.reqs[g].members[k])
    requires t.stages == s.stages[s.reqs[g].members[k] := Unlinked(j)]
    requires x < |s.reqs|
    ensures MemberOk(t, x) && GroupOk(t, x)
  {
    var ms := s.reqs[g].members;
    assert MemberOk(s, x) && GroupOk(s, x) && ListOk(s.reqs, g) && PlaceOk(s.reqs, g, k);
    RemoveIs(ms, k);
    LeftIs(s.reqs, g, ms[k], x);
    LeftIs(s.reqs, g, ms[k], g);
    if s.reqs[x].group.Some? {
      LeftIs(s.reqs, g, ms[k], s.reqs[x].group.value);
    }
  }

  lemma AloneKeepsGrouped(s: State, t: State, r: nat, j: nat)
    requires Grouped(s) && r < |s.reqs| && s.reqs[r].group == None && s.stages[r].Finishing?
    requires t.reqs == s.reqs && t.stages == s.stages[r := Unlinked(j)]
    ensures Grouped(t)
  {
    forall x | 0 <= x < |s.reqs|
      ensures MemberOk(t, x) && GroupOk(t, x)
    {
      assert MemberOk(s, x) && GroupOk(s, x);
    }
  }

  lemma OutsideKeepsGrouped(s: State, t: State)
    requires Places(s) && Grouped(s) && s.stack != [] && Last(s.stack).Finish? && Last(s.stack).part == AfterCallback
    requires Known(s, Last(s.stack).id)
    requires s.reqs[Last(s.stack).id].group.Some? ==> Known(s, s.reqs[Last(s.stack).id].group.value)
    requires t == Outside(s)
    ensures Grouped(t)
  {
    assert FrameMatches(s, |s.stack| - 1);
    var r := Last(s.stack).id;
    if s.reqs[r].group.None? {
      AloneKeepsGrouped(s, t, r, |s.stack| - 1);
    } else {
      var k := LeaverIsMember(s, r);
      LeftKeepsLists(s.reqs, s.reqs[r].group.value, k);
      forall x | 0 <= x < |s.reqs|
        ensures MemberOk(t, x) && GroupOk(t, x)
      {
        LeaveKeepsMember(s, t, s.reqs[r].group.value, k, |s.stack| - 1, x);
      }
    }
  }

  lemma UnlinkKeepsGrouped(s: State, t: State)
    requires Places(s) && Grouped(s) && Unlink(s, t)
    ensures Grouped(t)
  {
    var e := Outside(s);
    OutsideKeepsGrouped(s, e);
    if t != e {
      GroupedAreFlagged(s);
      UnlinkFinishesDelayed(s, t);
      var g := s.reqs[Last(s.stack).id].group.value;
      assert ListOk(e.reqs, g);
      FinishesKeepsGrouped(e, t, g);
    }
  }

  // ----- all steps -----

  ghost predicate MovesReqs(a: Action) {
    || a.DoSubmitOrdinary? || a.DoSubmitGroup? || a.DoAdd? || a.DoCancel? || a.DoCancelMembers?
    || a.DoPollShift? || a.DoPollCount? || a.DoUnlink? || a.DoDestroy?
  }

  lemma WorkerShiftIsMild(s: State, t: State, w: nat)
    requires Places(s) && WorkerShift(s, t, w)
    ensures Mild(s, t)
  {
    if !Q.IsEmpty(s.pool.reqq) {
      Q.RestItems(s.pool.reqq);
    }
  }

  lemma QuietStepsAreMild(s: State, a: Action, t: State)
    requires |s.stages| == |s.reqs| && Next(s, a, t) && Quiet(a) && !MovesReqs(a)
    ensures Mild(s, t)
  {
    QuietIsStill(s, a, t);
    QuietLeavesReqs(s, a, t);
  }

  lemma QuietLeavesReqs(s: State, a: Action, t: State)
    requires Next(s, a, t) && Quiet(a) && !MovesReqs(a)
    ensures t.reqs == s.reqs
  {
  }

  lemma PublishIsMild(s: State, t: State, w: nat)
    requires Places(s) && Publish(s, t, w)
    ensures Mild(s, t)
  {
    assert WorkerMatches(s, w);
  }

  lemma FrameStepsAreMild(s: State, t: State)
    requires Places(s) && (PublishGroup(s, t) || ReturnFromCallback(s, t))
    ensures Mild(s, t)
  {
    assert FrameMatches(s, |s.stack| - 1);
  }

  lemma MildSteps(s: State, a: Action, t: State)
    requires Places(s) && Next(s, a, t) && !MovesReqs(a)
    ensures Mild(s, t)
  {
    if a.DoWorkerShift? {
      WorkerShiftIsMild(s, t, a.w);
    } else if a.DoPublish? {
      PublishIsMild(s, t, a.w);
    } else if a.DoPublishGroup? || a.DoReturnFromCallback? {
      FrameStepsAreMild(s, t);
    } else {
      QuietStepsAreMild(s, a, t);
    }
  }

  /** Every list stays well linked and goes on holding what has joined and not left. */
  lemma KeepsGrouped(s: State, a: Action, t: State)
    requires Places(s) && Grouped(s) && Next(s, a, t)
    ensures Grouped(t)
  {
    if !MovesReqs(a) {
      MildSteps(s, a, t);
      MildKeepsGrouped(s, t);
    } else {
      ReqStepKeepsGrouped(s, a, t);
    }
  }

  lemma ReqStepKeepsGrouped(s: State, a: Action, t: State)
    requires Places(s) && Grouped(s) && Next(s, a, t) && MovesReqs(a)
    ensures Grouped(t)
  {
    match a
    case DoSubmitOrdinary(pri, _) => AppendKeepsGrouped(s, t, Ordinary, Q.QueueOf(pri), Queued);
    case DoSubmitGroup => AppendKeepsGrouped(s, t, Group, Q.QueueOf(Q.ETP_PRI_MAX), Announced(|s.stack|));
    case DoAdd(g, r) => AddKeepsGrouped(s, t, g, r);
    case DoCancel(r) => MarkedKeepsGrouped(s, t, iset x: nat | Reaches(s.reqs, r, x));
    case DoCancelMembers(g) => MarkedKeepsGrouped(s, t, iset x: nat | x != g && Reaches(s.reqs, g, x));
    case DoPollShift => PollShiftKeepsGrouped(s, t);
    case DoPollCount => PollCountKeepsGrouped(s, t);
    case DoUnlink => UnlinkKeepsGrouped(s, t);
    case DoDestroy => DestroyKeepsGrouped(s, t);
  }

  // ----- delayed groups -----

  /** A delayed group that loses its last member finishes. */
  lemma UnlinkKeepsDelayOk(s: State, t: State)
    requires Places(s) && Grouped(s) && DelayOk(s) && Unlink(s, t)
    ensures |t.stages| == |t.reqs| && DelayOk(t)
  {
    assert FrameMatches(s, |s.stack| - 1);
    var r, e := Last(s.stack).id, Outside(s);
    OutsideKeepsGrouped(s, e);
    forall g | 0 <= g < |t.reqs| && t.stages[g].Delayed?
      ensures t.reqs[g].delayed && t.reqs[g].members != []
    {
      assert s.stages[g].Delayed? && e.stages[g].Delayed?;
      assert ListOk(e.reqs, g);
      if s.reqs[r].group.Some? {
        LeftIs(s.reqs, s.reqs[r].group.value, r, g);
      }
    }
  }

  lemma PollCountKeepsDelayOk(s: State, t: State)
    requires Grouped(s) && DelayOk(s) && PollCount(s, t)
    ensures |t.stages| == |t.reqs| && DelayOk(t)
  {
    assert ListOk(s.reqs, Last(s.stack).step.id);
  }

  lemma AddKeepsDelayOk(s: State, t: State, g: nat, r: nat)
    requires Grouped(s) && DelayOk(s) && Add(s, t, g, r)
    ensures |t.stages| == |t.reqs| && DelayOk(t)
  {
    forall x | 0 <= x < |t.reqs| && t.stages[x].Delayed?
      ensures t.reqs[x].delayed && t.reqs[x].members != []
    {
      JoinedMembers(s.reqs, g, r, x);
    }
  }

  /** A step that brings no group into the stage, and takes no flag and no member away. */
  ghost predicate Harmless(s: State, t: State)
    requires |s.stages| == |s.reqs|
  {
    && |t.stages| == |t.reqs| && |s.reqs| <= |t.reqs|
    && forall g :: 0 <= g < |t.reqs| && t.stages[g].Delayed? ==>
         g < |s.reqs| && s.stages[g].Delayed? && t.reqs[g].delayed == s.reqs[g].delayed
         && t.reqs[g].members == s.reqs[g].members
  }

  lemma PollShiftIsHarmless(s: State, t: State)
    requires |s.stages| == |s.reqs| && PollShift(s, t)
    ensures Harmless(s, t)
  {
  }

  lemma OtherReqStepsAreHarmless(s: State, a: Action, t: State)
    requires |s.stages| == |s.reqs| && Next(s, a, t)
    requires MovesReqs(a) && !a.DoUnlink? && !a.DoPollCount? && !a.DoAdd? && !a.DoPollShift?
    ensures Harmless(s, t)
  {
  }

  lemma ReqStepKeepsDelayOk(s: State, a: Action, t: State)
    requires Places(s) && Grouped(s) && DelayOk(s) && Next(s, a, t) && MovesReqs(a)
    ensures |t.stages| == |t.reqs| && DelayOk(t)
  {
    if a.DoUnlink? {
      UnlinkKeepsDelayOk(s, t);
    } else if a.DoPollCount? {
      PollCountKeepsDelayOk(s, t);
    } else if a.DoAdd? {
      AddKeepsDelayOk(s, t, a.group, a.member);
    } else if a.DoPollShift? {
      PollShiftIsHarmless(s, t);
    } else {
      OtherReqStepsAreHarmless(s, a, t);
    }
  }

  /** A delayed group always has an unfinished member. */
  lemma KeepsDelayOk(s: State, a: Action, t: State)
    requires Places(s) && Grouped(s) && DelayOk(s) && Next(s, a, t)
    ensures |t.stages| == |t.reqs| && DelayOk(t)
  {
    if MovesReqs(a) {
      ReqStepKeepsDelayOk(s, a, t);
    } else {
      MildSteps(s, a, t);
    }
  }

  // ----- what has happened to a request -----

  /**
   * Polled, finished and destroyed at most once each, in this order; and with each
   * finish the callback runs, except for a cancelled request.
   */
  ghost predicate HistoryOk(x: Stage, q: Request) {
    && q.polls == (if x.Taken? || x.Delayed? || x.Finishing? || HasLeft(x) then 1 else 0)
    && q.finishes == (if x.Finishing? || HasLeft(x) then 1 else 0)
    && q.destroys == (if x.Destroyed? then 1 else 0)
    && q.callbacks <= q.finishes
    && (q.callbacks < q.finishes ==> q.cancelled)
  }

  ghost predicate Histories(s: State) {
    && |s.stages| == |s.reqs|
    && forall r :: 0 <= r < |s.reqs| ==> HistoryOk(s.stages[r], s.reqs[r])
  }

  lemma PollShiftKeepsHistories(s: State, t: State)
    requires Places(s) && Histories(s) && PollShift(s, t)
    ensures Histories(t)
  {
    if !Q.IsEmpty(s.pool.resq) {
      Q.RestItems(s.pool.resq);
    }
  }

  lemma PollCountKeepsHistories(s: State, t: State)
    requires Places(s) && Histories(s) && PollCount(s, t)
    ensures Histories(t)
  {
    assert FrameMatches(s, |s.stack| - 1);
  }

  lemma OutsideKeepsHistories(s: State, t: State)
    requires Places(s) && Histories(s) && s.stack != [] && Last(s.stack).Finish?
    requires Last(s.stack).part == AfterCallback && Known(s, Last(s.stack).id)
    requires s.reqs[Last(s.stack).id].group.Some? ==> Known(s, s.reqs[Last(s.stack).id].group.value)
    requires t == Outside(s)
    ensures Histories(t)
  {
    assert FrameMatches(s, |s.stack| - 1);
    forall r | 0 <= r < |t.reqs|
      ensures HistoryOk(t.stages[r], t.reqs[r])
    {
      assert HistoryOk(s.stages[r], s.reqs[r]) && SameRest(s.reqs[r], t.reqs[r]);
    }
  }

  lemma FinishesKeepsHistories(s: State, t: State, g: nat)
    requires Histories(s) && Known(s, g) && s.stages[g].Delayed? && t == Finishes(s, g)
    ensures Histories(t)
  {
  }

  lemma UnlinkKeepsHistories(s: State, t: State)
    requires Places(s) && Flagged(s) && Histories(s) && Unlink(s, t)
    ensures Histories(t)
  {
    OutsideKeepsHistories(s, Outside(s));
    if t != Outside(s) {
      UnlinkFinishesDelayed(s, t);
      FinishesKeepsHistories(Outside(s), t, s.reqs[Last(s.stack).id].group.value);
    }
  }

  lemma DestroyKeepsHistories(s: State, t: State)
    requires Places(s) && Histories(s) && Destroy(s, t)
    ensures Histories(t)
  {
    assert FrameMatches(s, |s.stack| - 1);
  }

  lemma AddKeepsHistories(s: State, t: State, g: nat, r: nat)
    requires Histories(s) && Add(s, t, g, r)
    ensures Histories(t)
  {
    forall x | 0 <= x < |t.reqs|
      ensures HistoryOk(t.stages[x], t.reqs[x])
    {
      assert HistoryOk(s.stages[x], s.reqs[x]) && SameRest(s.reqs[x], t.reqs[x]);
    }
  }

  lemma CancelsKeepHistories(s: State, t: State, r: nat)
    requires Histories(s) && (Cancel(s, t, r) || CancelMembers(s, t, r))
    ensures Histories(t)
  {
  }

  lemma SubmitsKeepHistories(s: State, t: State, pri: int, wake: Option<nat>)
    requires Histories(s) && (SubmitOrdinary(s, t, pri, wake) || SubmitGroup(s, t))
    ensures Histories(t)
  {
  }

  lemma ReqStepKeepsHistories(s: State, a: Action, t: State)
    requires Places(s) && Flagged(s) && Histories(s) && Next(s, a, t) && MovesReqs(a)
    ensures Histories(t)
  {
    match a
    case DoSubmitOrdinary(pri, wake) => SubmitsKeepHistories(s, t, pri, wake);
    case DoSubmitGroup => SubmitsKeepHistories(s, t, 0, None);
    case DoAdd(g, r) => AddKeepsHistories(s, t, g, r);
    case DoCancel(r) => CancelsKeepHistories(s, t, r);
    case DoCancelMembers(g) => CancelsKeepHistories(s, t, g);
    case DoPollShift => PollShiftKeepsHistories(s, t);
    case DoPollCount => PollCountKeepsHistories(s, t);
    case DoUnlink => UnlinkKeepsHistories(s, t);
    case DoDestroy => DestroyKeepsHistories(s, t);
  }

  lemma MildKeepsHistories(s: State, t: State)
    requires Histories(s) && Mild(s, t)
    ensures Histories(t)
  {
  }

  /** The counts of what has happened to a request are determined by its stage. */
  lemma KeepsHistories(s: State, a: Action, t: State)
    requires Places(s) && Flagged(s) && Histories(s) && Next(s, a, t)
    ensures Histories(t)
  {
    if MovesReqs(a) {
      ReqStepKeepsHistories(s, a, t);
    } else {
      MildSteps(s, a, t);
      MildKeepsHistories(s, t);
    }
  }

  // ----- nesting -----

  /** A new member that does not contain its group leaves the nesting acyclic. */
  lemma AddKeepsAcyclic(s: State, t: State, g: nat, r: nat)
    requires Acyclic(s.reqs) && Add(s, t, g, r)
    ensures Acyclic(t.reqs)
  {
    JoinedKeepsAcyclic(s.reqs, g, r);
  }

  lemma UnlinkKeepsAcyclic(s: State, t: State)
    requires Places(s) && Grouped(s) && Acyclic(s.reqs) && Unlink(s, t)
    ensures Acyclic(t.reqs)
  {
    assert FrameMatches(s, |s.stack| - 1);
    var r, e := Last(s.stack).id, Outside(s);
    if s.reqs[r].group.Some? {
      var k := LeaverIsMember(s, r);
      LeftHasFewer(s.reqs, s.reqs[r].group.value, k);
    }
    FewerKeepAcyclic(s.reqs, e.reqs);
    FewerKeepAcyclic(e.reqs, t.reqs);
  }

  lemma OtherReqStepsKeepMembers(s: State, a: Action, t: State)
    requires Next(s, a, t) && MovesReqs(a) && !a.DoAdd? && !a.DoUnlink?
    ensures |s.reqs| <= |t.reqs|
    ensures forall g :: 0 <= g < |s.reqs| ==> t.reqs[g].members == s.reqs[g].members
    ensures forall g :: |s.reqs| <= g < |t.reqs| ==> t.reqs[g].members == []
  {
  }

  lemma KeepsAcyclic(s: State, a: Action, t: State)
    requires Places(s) && Grouped(s) && Acyclic(s.reqs) && Next(s, a, t)
    ensures Acyclic(t.reqs)
  {
    if !MovesReqs(a) {
      MildSteps(s, a, t);
    } else if a.DoAdd? {
      AddKeepsAcyclic(s, t, a.group, a.member);
    } else if a.DoUnlink? {
      UnlinkKeepsAcyclic(s, t);
    } else {
      OtherReqStepsKeepMembers(s, a, t);
      FewerKeepAcyclic(s.reqs, t.reqs);
    }
  }
}
