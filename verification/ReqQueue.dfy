/** The request object, with the fields that the queues and the groups link it by. */
module Requests {

  class Req {
    /** The number that tells requests apart, and whether this one asks a worker to leave. */
    const id: nat
    const quit: bool
    var pri: int
    var next: Req?
    var grp: Req?
    var grpFirst: Req?
    var grpPrev: Req?
    var grpNext: Req?
    var size: int
    var delayed: bool
    var cancelled: bool

    constructor (id: nat, quit: bool, pri: int)
      ensures this.id == id && this.quit == quit && this.pri == pri
      ensures grp == null && grpFirst == null && grpPrev == null && grpNext == null
      ensures size == 0 && !delayed && !cancelled
    {
      this.id, this.quit, this.pri := id, quit, pri;
      next, grp, grpFirst, grpPrev, grpNext := null, null, null, null, null;
      size, delayed, cancelled := 0, false, false;
    }
  }
}

/** The linked lists that hold the nine FIFO lists of a priority queue. */
module ReqQueue {
  import opened PriLists
  import opened Requests

  /** The requests of `l` are chained through `next`, from `head` to `tail`, and have priority `p`. */
  ghost predicate Chained(p: nat, l: seq<Req>, head: Req?, tail: Req?)
    reads l`pri, l`next
  {
    && (forall i :: 0 <= i < |l| ==> l[i].pri == p)
    && (forall i, j :: 0 <= i < j < |l| ==> l[i] != l[j])
    && if l == [] then head == null && tail == null
       else
         && head == l[0] && tail == l[|l| - 1] && l[|l| - 1].next == null
         && forall i :: 0 <= i < |l| - 1 ==> l[i].next == l[i + 1]
  }

  class ReqQueue {
    var qs: array<Req?>
    var qe: array<Req?>
    var size: int
    ghost var lists: Lists<Req>

    ghost predicate Linked()
      reads this, qs, qe, set p, i | 0 <= p < |lists| && 0 <= i < |lists[p]| :: lists[p][i]
    {
      && qs != qe && qs.Length == ETP_NUM_PRI && qe.Length == ETP_NUM_PRI && |lists| == ETP_NUM_PRI
      && forall p :: 0 <= p < ETP_NUM_PRI ==> Chained(p, lists[p], qs[p], qe[p])
    }

    ghost predicate Valid()
      reads this, qs, qe, set p, i | 0 <= p < |lists| && 0 <= i < |lists[p]| :: lists[p][i]
    {
      Linked() && size == Total(lists)
    }

    constructor ()
      ensures Valid() && lists == Empty() && fresh(qs) && fresh(qe)
    {
      qs := new Req?[ETP_NUM_PRI](_ => null);
      qe := new Req?[ETP_NUM_PRI](_ => null);
      size := 0;
      lists := Empty();
      EmptyTotal(Empty<Req>());
    }

    /** Links the request to the end of the list of its priority. */
    method Link(req: Req)
      requires Linked() && 0 <= req.pri < ETP_NUM_PRI && req !in lists[req.pri]
      modifies `lists, qs, qe, req`next, (if qe[req.pri] == null then {} else {qe[req.pri]})`next
      ensures Linked()
      ensures lists == PriLists.Push(old(lists), req.pri, req)
    {
      var pri: nat := req.pri;
      ghost var was := lists;
      lists := PriLists.Push(lists, pri, req);
      req.next := null;
      if qe[pri] != null {
        qe[pri].next := req;
        qe[pri] := req;
      } else {
        qe[pri] := req;
        qs[pri] := req;
      }
      assert Chained(pri, was[pri] + [req], qs[pri], qe[pri]);
      forall p | 0 <= p < ETP_NUM_PRI && p != pri
        ensures Chained(p, lists[p], qs[p], qe[p])
      {
        assert old(Chained(p, lists[p], qs[p], qe[p])) && lists[p] == was[p];
      }
    }

    /** Unlinks the first request of a list. */
    method Unlink(pri: nat) returns (req: Req)
      requires Linked() && pri < ETP_NUM_PRI && lists[pri] != []
      modifies `lists, qs, qe
      ensures Linked()
      ensures req == old(lists[pri][0]) && lists == old(lists)[pri := old(lists[pri])[1..]]
    {
      req := qs[pri];
      assert req == lists[pri][0];
      assert |lists[pri]| > 1 ==> req.next == lists[pri][1];
      qs[pri] := req.next;
      if qs[pri] == null {
        qe[pri] := null;
      }
      assert Chained(pri, lists[pri][1..], qs[pri], qe[pri]);
      lists := lists[pri := lists[pri][1..]];
    }

    /** Appends the request to the list of its priority and returns the old size. */
    method Push(req: Req) returns (before: int)
      requires Valid() && 0 <= req.pri < ETP_NUM_PRI && req !in lists[req.pri]
      modifies this, qs, qe, req`next, (if qe[req.pri] == null then {} else {qe[req.pri]})`next
      ensures Valid() && qs == old(qs) && qe == old(qe)
      ensures lists == PriLists.Push(old(lists), req.pri, req)
      ensures before == old(Total(lists))
    {
      PushItems(lists, req.pri, req);
      Link(req);
      before := size;
      size := size + 1;
    }

    /** Takes the oldest request of the highest priority; the scan of the lists never runs out. */
    method Shift() returns (req: Req?)
      requires Valid()
      modifies this, qs, qe
      ensures Valid() && qs == old(qs) && qe == old(qe)
      ensures req == null <==> old(IsEmpty(lists))
      ensures req == null ==> lists == old(lists)
      ensures req != null ==> req == old(Front(lists)) && lists == old(Rest(lists))
    {
      EmptyTotal(lists);
      if size == 0 {
        return null;
      }
      RestItems(lists);
      size := size - 1;
      var pri := ETP_NUM_PRI;
      while pri != 0
        invariant 0 <= pri <= ETP_NUM_PRI
        invariant forall p :: pri <= p < ETP_NUM_PRI ==> lists[p] == []
      {
        pri := pri - 1;
        if qs[pri] != null {
          assert pri == Top(lists);
          req := Unlink(pri);
          return;
        }
      }
      assert false;
    }
  }
}
