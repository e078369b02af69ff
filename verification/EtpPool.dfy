/**
 * The two halves of the pool object, one for each lock: what is done to the fields in each critical
 * section, and that this is what the steps of the engine do to the pool.
 */
module EtpPools {
  import opened Requests
  import opened ReqQueue
  import Q = PriLists
  import E = Engine

  ghost function ItemOf(r: Req): E.Item {
    if r.quit then E.Quit else E.R(r.id)
  }

  ghost function IdOf(r: Req): nat {
    r.id
  }

  /** The first thing that a submit does: the priority becomes the number of a queue. */
  method ClampPriority(req: Req)
    requires -128 <= req.pri < 128
    modifies req`pri
    ensures req.pri == Q.QueueOf(old(req.pri))
  {
    req.pri := Q.SignedChar(req.pri - Q.ETP_PRI_MIN);
    if req.pri < Q.ETP_PRI_MIN - Q.ETP_PRI_MIN {
      req.pri := Q.ETP_PRI_MIN - Q.ETP_PRI_MIN;
    }
    if req.pri > Q.ETP_PRI_MAX - Q.ETP_PRI_MIN {
      req.pri := Q.ETP_PRI_MAX - Q.ETP_PRI_MIN;
    }
  }

  // ----- what the critical sections do, on lists -----

  lemma RequestAdded(l: Q.Lists<Req>, p: E.Pool, pri: nat, req: Req)
    requires pri < |l| && p.reqq == Q.MapLists(l, ItemOf)
    ensures Q.MapLists(Q.Push(l, pri, req), ItemOf) == Q.Push(p.reqq, pri, ItemOf(req))
  {
    Q.MapPush(l, ItemOf, pri, req);
  }

  lemma RequestTaken(l: Q.Lists<Req>, p: E.Pool)
    requires p.reqq == Q.MapLists(l, ItemOf)
    ensures Q.IsEmpty(p.reqq) <==> Q.IsEmpty(l)
    ensures !Q.IsEmpty(l) ==> Q.Front(p.reqq) == ItemOf(Q.Front(l)) && Q.MapLists(Q.Rest(l), ItemOf) == Q.Rest(p.reqq)
  {
    Q.MapShift(l, ItemOf);
  }

  lemma ResultAdded(l: Q.Lists<Req>, p: E.Pool, pri: nat, req: Req)
    requires pri < |l| && p.resq == Q.MapLists(l, IdOf)
    ensures Q.MapLists(Q.Push(l, pri, req), IdOf) == Q.Push(p.resq, pri, req.id)
    ensures Q.IsEmpty(p.resq) <==> Q.Total(l) == 0
  {
    Q.MapPush(l, IdOf, pri, req);
    Q.MapTop(l, IdOf, |l|);
    Q.EmptyTotal(l);
  }

  lemma ResultTaken(l: Q.Lists<Req>, p: E.Pool)
    requires p.resq == Q.MapLists(l, IdOf)
    ensures Q.IsEmpty(p.resq) <==> Q.IsEmpty(l)
    ensures !Q.IsEmpty(l) ==> Q.Front(p.resq) == Q.Front(l).id && Q.MapLists(Q.Rest(l), IdOf) == Q.Rest(p.resq)
    ensures !Q.IsEmpty(l) ==> (Q.IsEmpty(Q.Rest(p.resq)) <==> Q.Total(Q.Rest(l)) == 0)
  {
    Q.MapShift(l, IdOf);
  }

  /** The fields under the request lock. */
  class RequestSide {
    const queue: ReqQueue
    var nreqs: int
    var nready: int

    ghost predicate Shows(p: E.Pool)
      reads this, queue
    {
      p.reqq == Q.MapLists(queue.lists, ItemOf) && p.nreqs == nreqs && p.nready == nready
    }

    constructor ()
      ensures queue.Valid() && queue.lists == Q.Empty() && nreqs == 0 && nready == 0
    {
      queue := new ReqQueue();
      nreqs, nready := 0, 0;
    }

    method CountAndPush(req: Req)
      requires queue.Valid() && 0 <= req.pri < Q.ETP_NUM_PRI && req !in queue.lists[req.pri]
      modifies this, queue, queue.qs, queue.qe, req`next
      modifies (if queue.qe[req.pri] == null then {} else {queue.qe[req.pri]})`next
      ensures queue.Valid() && queue.lists == Q.Push(old(queue.lists), req.pri, req)
      ensures nreqs == old(nreqs) + 1 && nready == old(nready) + 1
    {
      nreqs := nreqs + 1;
      nready := nready + 1;
      var _ := queue.Push(req);
    }

    /** An ordinary request is counted and queued. */
    method AddRequest(req: Req, ghost p: E.Pool)
      requires queue.Valid() && 0 <= req.pri < Q.ETP_NUM_PRI && req !in queue.lists[req.pri]
      requires Shows(p) && !req.quit
      modifies this, queue, queue.qs, queue.qe, req`next
      modifies (if queue.qe[req.pri] == null then {} else {queue.qe[req.pri]})`next
      ensures queue.Valid() && Shows(E.AddRequest(p, req.pri, req.id))
    {
      RequestAdded(queue.lists, p, req.pri, req);
      CountAndPush(req);
    }

    /** A request to leave is queued, but not counted. */
    method AddQuit(req: Req, ghost p: E.Pool)
      requires queue.Valid() && req.pri == Q.ETP_NUM_PRI - 1 && req !in queue.lists[req.pri]
      requires Shows(p) && req.quit
      modifies this, queue, queue.qs, queue.qe, req`next
      modifies (if queue.qe[req.pri] == null then {} else {queue.qe[req.pri]})`next
      ensures queue.Valid() && Shows(E.AddQuit(p))
    {
      RequestAdded(queue.lists, p, req.pri, req);
      var _ := queue.Push(req);
    }

    /** A worker takes a request, if there is one, and counts it as no longer ready, whatever it is. */
    method TakeRequest(ghost p: E.Pool) returns (req: Req?)
      requires queue.Valid() && Shows(p)
      modifies this, queue, queue.qs, queue.qe
      ensures queue.Valid()
      ensures req == null <==> Q.IsEmpty(p.reqq)
      ensures req == null ==> Shows(p)
      ensures req != null ==> ItemOf(req) == Q.Front(p.reqq) && Shows(E.TakeRequest(p))
    {
      RequestTaken(queue.lists, p);
      req := queue.Shift();
      if req != null {
        nready := nready - 1;
      }
    }

    /** A polled request is no longer counted. */
    method CountDown(ghost p: E.Pool)
      requires Shows(p)
      modifies this
      ensures Shows(p.(nreqs := p.nreqs - 1))
    {
      nreqs := nreqs - 1;
    }
  }

  /** The fields under the result lock. */
  class ResultSide {
    const queue: ReqQueue
    var npending: int

    ghost predicate Shows(p: E.Pool)
      reads this, queue
    {
      p.resq == Q.MapLists(queue.lists, IdOf) && p.npending == npending
    }

    constructor ()
      ensures queue.Valid() && queue.lists == Q.Empty() && npending == 0
    {
      queue := new ReqQueue();
      npending := 0;
    }

    method CountAndPush(req: Req) returns (before: int)
      requires queue.Valid() && 0 <= req.pri < Q.ETP_NUM_PRI && req !in queue.lists[req.pri]
      modifies this, queue, queue.qs, queue.qe, req`next
      modifies (if queue.qe[req.pri] == null then {} else {queue.qe[req.pri]})`next
      ensures queue.Valid() && queue.lists == Q.Push(old(queue.lists), req.pri, req)
      ensures npending == old(npending) + 1 && before == old(Q.Total(queue.lists))
    {
      npending := npending + 1;
      before := queue.Push(req);
    }

    /** A result is published; the first one calls for a poll. */
    method AddResult(req: Req, ghost p: E.Pool) returns (wantPoll: bool)
      requires queue.Valid() && 0 <= req.pri < Q.ETP_NUM_PRI && req !in queue.lists[req.pri]
      requires Shows(p)
      modifies this, queue, queue.qs, queue.qe, req`next
      modifies (if queue.qe[req.pri] == null then {} else {queue.qe[req.pri]})`next
      ensures queue.Valid() && Shows(E.AddResult(p, req.pri, req.id))
      ensures wantPoll <==> Q.IsEmpty(p.resq)
    {
      ResultAdded(queue.lists, p, req.pri, req);
      var before := CountAndPush(req);
      wantPoll := before == 0;
    }

    /** A poll takes a result, if there is one; the last one ends the call for a poll. */
    method TakeResult(ghost p: E.Pool) returns (req: Req?, donePoll: bool)
      requires queue.Valid() && Shows(p)
      modifies this, queue, queue.qs, queue.qe
      ensures queue.Valid()
      ensures req == null <==> Q.IsEmpty(p.resq)
      ensures req == null ==> Shows(p) && !donePoll
      ensures req != null ==> req.id == Q.Front(p.resq) && Shows(E.TakeResult(p))
      ensures req != null ==> (donePoll <==> Q.IsEmpty(Q.Rest(p.resq)))
    {
      ResultTaken(queue.lists, p);
      req := queue.Shift();
      donePoll := false;
      if req != null {
        npending := npending - 1;
        donePoll := queue.size == 0;
      }
    }
  }
}
