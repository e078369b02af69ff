/** The group links of the request objects, which mirror those of the engine, and cancellation along them. */
module GroupLists {
  import opened Members
  import opened Options
  import opened Requests

  // ----- the objects and the engine's requests -----

  ghost predicate Points(objs: seq<Req>, x: Req?, o: Option<nat>) {
    match o
    case None => x == null
    case Some(k) => k < |objs| && x == objs[k]
  }

  /** What is of interest here of an object. */
  datatype Links = Links(grp: Req?, first: Req?, prev: Req?, next: Req?, size: int, cancelled: bool, delayed: bool)

  ghost function LinksOf(x: Req): Links
    reads x
  {
    Links(x.grp, x.grpFirst, x.grpPrev, x.grpNext, x.size, x.cancelled, x.delayed)
  }

  /** Object number `i` with links `x` corresponds to the request `q`. */
  ghost predicate Mirror(objs: seq<Req>, i: nat, x: Links, q: Request)
    requires i < |objs|
  {
    && objs[i].id == i
    && Points(objs, x.grp, q.group) && Points(objs, x.first, q.first)
    && Points(objs, x.prev, q.prev) && Points(objs, x.next, q.next)
    && x.size == q.size && x.cancelled == q.cancelled && x.delayed == q.delayed
  }

  /** The objects have the links, the sizes and the flags of the requests. */
  ghost predicate Mirrors(objs: seq<Req>, reqs: seq<Request>)
    reads objs
  {
    && |objs| == |reqs|
    && forall i :: 0 <= i < |objs| ==> Mirror(objs, i, LinksOf(objs[i]), reqs[i])
  }

  ghost predicate Has(objs: seq<Req>, x: Req) {
    x.id < |objs| && objs[x.id] == x
  }

  // ----- the lists -----

  /** The group's list runs through exactly the requests of `ms`, in order, and its size is their number. */
  ghost predicate Lists(grp: Req, ms: seq<Req>)
    reads grp, ms
  {
    && grp.size == |ms|
    && grp.grpFirst == (if ms == [] then null else ms[0])
    && forall i :: 0 <= i < |ms| ==> Member(grp, ms, i)
  }

  ghost predicate Member(grp: Req, ms: seq<Req>, i: nat)
    requires i < |ms|
    reads ms
  {
    && ms[i].grp == grp
    && ms[i].grpPrev == (if i == 0 then null else ms[i - 1])
    && ms[i].grpNext == (if i + 1 == |ms| then null else ms[i + 1])
  }

  /** The objects with these numbers. */
  ghost function Objects(objs: seq<Req>, ids: seq<nat>): (ms: seq<Req>)
    requires forall i :: 0 <= i < |ids| ==> ids[i] < |objs|
    ensures |ms| == |ids| && forall i :: 0 <= i < |ids| ==> ms[i] == objs[ids[i]]
  {
    seq(|ids|, i requires 0 <= i < |ids| => objs[ids[i]])
  }

  /** `lists` gives the list of each object: well linked, and no object is twice in it or in two of them. */
  ghost predicate WellLinked(objs: seq<Req>, lists: seq<seq<Req>>)
    reads objs, set g, i | 0 <= g < |lists| && 0 <= i < |lists[g]| :: lists[g][i]
  {
    && |lists| == |objs|
    && (forall g :: 0 <= g < |objs| ==> Lists(objs[g], lists[g]))
    && forall g, i, h, j :: 0 <= g < |lists| && 0 <= i < |lists[g]| && 0 <= h < |lists| && 0 <= j < |lists[h]| ==>
         lists[g][i] == lists[h][j] ==> g == h && i == j
  }

  ghost predicate InRange(reqs: seq<Request>) {
    forall g, i :: 0 <= g < |reqs| && 0 <= i < |reqs[g].members| ==> reqs[g].members[i] < |reqs|
  }

  ghost function ListObjects(objs: seq<Req>, reqs: seq<Request>): (lists: seq<seq<Req>>)
    requires |objs| == |reqs| && InRange(reqs)
    ensures |lists| == |objs| && forall g :: 0 <= g < |objs| ==> lists[g] == Objects(objs, reqs[g].members)
  {
    seq(|objs|, g requires 0 <= g < |objs| => Objects(objs, reqs[g].members))
  }

  lemma ListsInRange(reqs: seq<Request>)
    requires ListsOk(reqs)
    ensures InRange(reqs)
  {
    forall g, i | 0 <= g < |reqs| && 0 <= i < |reqs[g].members|
      ensures reqs[g].members[i] < |reqs|
    {
      assert ListOk(reqs, g) && PlaceOk(reqs, g, i);
    }
  }

  lemma MirroredList(objs: seq<Req>, reqs: seq<Request>, g: nat)
    requires Mirrors(objs, reqs) && ListsOk(reqs) && InRange(reqs) && g < |objs|
    ensures Lists(objs[g], Objects(objs, reqs[g].members))
  {
    assert Mirror(objs, g, LinksOf(objs[g]), reqs[g]) && ListOk(reqs, g);
    var ms := reqs[g].members;
    forall i | 0 <= i < |ms|
      ensures Member(objs[g], Objects(objs, ms), i)
    {
      assert PlaceOk(reqs, g, i) && Mirror(objs, ms[i], LinksOf(objs[ms[i]]), reqs[ms[i]]);
    }
  }

  lemma MirroredOnce(objs: seq<Req>, reqs: seq<Request>, g: nat, i: nat, h: nat, j: nat)
    requires Mirrors(objs, reqs) && ListsOk(reqs) && InRange(reqs)
    requires g < |objs| && i < |reqs[g].members| && h < |objs| && j < |reqs[h].members|
    requires objs[reqs[g].members[i]] == objs[reqs[h].members[j]]
    ensures g == h && i == j
  {
    var m, n := reqs[g].members[i], reqs[h].members[j];
    assert Mirror(objs, m, LinksOf(objs[m]), reqs[m]) && Mirror(objs, n, LinksOf(objs[n]), reqs[n]);
    ListsDisjoint(reqs, g, h, m);
    assert ListOk(reqs, g);
  }

  /** The objects of the engine's lists form doubly linked lists, one for each group, that share nothing. */
  lemma MirroredLists(objs: seq<Req>, reqs: seq<Request>)
    requires Mirrors(objs, reqs) && ListsOk(reqs)
    ensures InRange(reqs) && WellLinked(objs, ListObjects(objs, reqs))
  {
    ListsInRange(reqs);
    var lists := ListObjects(objs, reqs);
    forall g | 0 <= g < |objs|
      ensures Lists(objs[g], lists[g])
    {
      MirroredList(objs, reqs, g);
    }
    forall g, i, h, j | 0 <= g < |lists| && 0 <= i < |lists[g]| && 0 <= h < |lists| && 0 <= j < |lists[h]|
                        && lists[g][i] == lists[h][j]
      ensures g == h && i == j
    {
      MirroredOnce(objs, reqs, g, i, h, j);
    }
  }

  // ----- joining and leaving -----

  ghost predicate Numbered(objs: seq<Req>) {
    forall i :: 0 <= i < |objs| ==> objs[i].id == i
  }

  lemma MirrorsAreNumbered(objs: seq<Req>, reqs: seq<Request>)
    requires Mirrors(objs, reqs)
    ensures Numbered(objs)
  {
    forall i | 0 <= i < |objs|
      ensures objs[i].id == i
    {
      assert Mirror(objs, i, LinksOf(objs[i]), reqs[i]);
    }
  }

  ghost function AllLinks(objs: seq<Req>): (l: seq<Links>)
    reads objs
    ensures |l| == |objs| && forall i :: 0 <= i < |objs| ==> l[i] == LinksOf(objs[i])
  {
    seq(|objs|, i requires 0 <= i < |objs| reads objs => LinksOf(objs[i]))
  }

  /** What a join does to object `x`, with `first` the first member before. */
  ghost predicate JoinedObject(grp: Req, req: Req, first: Req?, x: Req, was: Links, now: Links) {
    && now.grp == (if x == req then grp else was.grp)
    && now.next == (if x == req then first else was.next)
    && now.prev == (if x == first then req else if x == req then null else was.prev)
    && now.first == (if x == grp then req else was.first)
    && now.size == was.size + (if x == grp then 1 else 0)
    && now.cancelled == was.cancelled && now.delayed == was.delayed
  }

  lemma JoinedMirror(objs: seq<Req>, was: seq<Links>, reqs: seq<Request>, g: nat, r: nat, i: nat, now: Links,
                     q: Request)
    requires Numbered(objs) && |objs| == |was| == |reqs| && g < |objs| && r < |objs| && i < |objs|
    requires Mirror(objs, i, was[i], reqs[i]) && Points(objs, was[g].first, reqs[g].first)
    requires JoinedObject(objs[g], objs[r], was[g].first, objs[i], was[i], now)
    requires JoinedFields(reqs, g, r, i, q) && SameRest(reqs[i], q)
    ensures Mirror(objs, i, now, q)
  {
  }

  lemma JoinedMirrors(objs: seq<Req>, was: seq<Links>, reqs: seq<Request>, g: nat, r: nat)
    requires Numbered(objs) && |objs| == |was| == |reqs| && g < |objs| && r < |objs|
    requires forall i :: 0 <= i < |objs| ==> Mirror(objs, i, was[i], reqs[i])
    requires forall i :: 0 <= i < |objs| ==>
               JoinedObject(objs[g], objs[r], was[g].first, objs[i], was[i], LinksOf(objs[i]))
    ensures Mirrors(objs, Joined(reqs, g, r))
  {
    assert Mirror(objs, g, was[g], reqs[g]);
    forall i | 0 <= i < |objs|
      ensures Mirror(objs, i, LinksOf(objs[i]), Joined(reqs, g, r)[i])
    {
      JoinedIs(reqs, g, r, i);
      JoinedMirror(objs, was, reqs, g, r, i, LinksOf(objs[i]), Joined(reqs, g, r)[i]);
    }
  }

  /** Adds a request at the front of the list: the objects do what the engine's requests do. */
  method GrpAdd(grp: Req, req: Req, ghost objs: seq<Req>, ghost reqs: seq<Request>)
    requires Mirrors(objs, reqs) && Has(objs, grp) && Has(objs, req)
    modifies grp`size, grp`grpFirst, req`grp, req`grpPrev, req`grpNext
    modifies (if grp.grpFirst == null then {} else {grp.grpFirst})`grpPrev
    ensures Mirrors(objs, Joined(reqs, grp.id, req.id))
  {
    MirrorsAreNumbered(objs, reqs);
    ghost var was := AllLinks(objs);
    grp.size := grp.size + 1;
    req.grp := grp;
    req.grpPrev := null;
    req.grpNext := grp.grpFirst;
    if grp.grpFirst != null {
      grp.grpFirst.grpPrev := req;
    }
    grp.grpFirst := req;
    forall i | 0 <= i < |objs|
      ensures JoinedObject(grp, req, old(grp.grpFirst), objs[i], was[i], LinksOf(objs[i]))
    {
      ghost var x := objs[i];
      assert was[i] == old(LinksOf(x));
    }
    JoinedMirrors(objs, was, reqs, grp.id, req.id);
  }

  /** What a leave does to object `x`, with the neighbours that the request had before. */
  ghost predicate LeftObject(grp: Req, req: Req, prev: Req?, next: Req?, x: Req, was: Links, now: Links) {
    Unhooked(grp, req, prev, next, x, was, now.(size := was.size)) && now.size == was.size - (if x == grp then 1 else 0)
  }

  /** The same without the count. */
  ghost predicate Unhooked(grp: Req, req: Req, prev: Req?, next: Req?, x: Req, was: Links, now: Links) {
    && now.grp == was.grp
    && now.prev == (if x == next then prev else was.prev)
    && now.next == (if x == prev then next else was.next)
    && now.first == (if x == grp && was.first == req then next else was.first)
    && now.size == was.size && now.cancelled == was.cancelled && now.delayed == was.delayed
  }

  lemma LeftMirror(objs: seq<Req>, was: seq<Links>, reqs: seq<Request>, g: nat, r: nat, i: nat, now: Links,
                   q: Request)
    requires Numbered(objs) && |objs| == |was| == |reqs| && g < |objs| && r < |objs| && i < |objs|
    requires Mirror(objs, i, was[i], reqs[i])
    requires Points(objs, was[r].prev, reqs[r].prev) && Points(objs, was[r].next, reqs[r].next)
    requires LeftObject(objs[g], objs[r], was[r].prev, was[r].next, objs[i], was[i], now)
    requires LeftFields(reqs, g, r, Remove(reqs[g].members, r), i, q) && SameRest(reqs[i], q)
    ensures Mirror(objs, i, now, q)
  {
  }

  lemma LeftMirrors(objs: seq<Req>, was: seq<Links>, reqs: seq<Request>, g: nat, r: nat)
    requires Numbered(objs) && |objs| == |was| == |reqs| && g < |objs| && r < |objs|
    requires forall i :: 0 <= i < |objs| ==> Mirror(objs, i, was[i], reqs[i])
    requires forall i :: 0 <= i < |objs| ==>
               LeftObject(objs[g], objs[r], was[r].prev, was[r].next, objs[i], was[i], LinksOf(objs[i]))
    ensures Mirrors(objs, Left(reqs, g, r))
  {
    assert Mirror(objs, r, was[r], reqs[r]);
    forall i | 0 <= i < |objs|
      ensures Mirror(objs, i, LinksOf(objs[i]), Left(reqs, g, r)[i])
    {
      LeftIs(reqs, g, r, i);
      LeftMirror(objs, was, reqs, g, r, i, LinksOf(objs[i]), Left(reqs, g, r)[i]);
    }
  }

  /** The request whose group pointer is set points to a request of the engine. */
  lemma GroupOf(objs: seq<Req>, reqs: seq<Request>, req: Req)
    requires Mirrors(objs, reqs) && Has(objs, req) && req.grp != null
    ensures Has(objs, req.grp) && reqs[req.id].group == Some(req.grp.id)
  {
    assert Mirror(objs, req.id, LinksOf(objs[req.id]), reqs[req.id]);
    var g := reqs[req.id].group.value;
    assert Mirror(objs, g, LinksOf(objs[g]), reqs[g]);
  }

  /** Counts a member down. Says whether that was the last one that the group is delayed for. */
  method GrpDec(grp: Req) returns (finish: bool)
    modifies grp`size
    ensures grp.size == old(grp.size) - 1
    ensures finish <==> grp.size == 0 && grp.delayed
  {
    grp.size := grp.size - 1;
    finish := grp.size == 0 && grp.delayed;
  }

  /** Takes a request out of the list of its group. */
  method Unhook(req: Req, grp: Req, ghost objs: seq<Req>)
    requires req.grp == grp
    modifies grp`grpFirst
    modifies (if req.grpNext == null then {} else {req.grpNext})`grpPrev
    modifies (if req.grpPrev == null then {} else {req.grpPrev})`grpNext
    ensures forall i :: 0 <= i < |objs| ==>
              Unhooked(grp, req, old(req.grpPrev), old(req.grpNext), objs[i], old(AllLinks(objs))[i], LinksOf(objs[i]))
  {
    ghost var prev, next := req.grpPrev, req.grpNext;
    if req.grpNext != null {
      req.grpNext.grpPrev := req.grpPrev;
    }
    assert req.grpPrev == prev;
    if req.grpPrev != null {
      req.grpPrev.grpNext := req.grpNext;
    }
    assert req.grpNext == next;
    if grp.grpFirst == req {
      grp.grpFirst := req.grpNext;
    }
    forall i | 0 <= i < |objs|
      ensures Unhooked(grp, req, prev, next, objs[i], old(AllLinks(objs))[i], LinksOf(objs[i]))
    {
      ghost var x := objs[i];
      assert old(AllLinks(objs))[i] == old(LinksOf(x));
    }
  }

  /**
   * Unlinks a finished member and counts it down: the objects do what the engine's requests do. Says
   * whether the group has to be finished next: it has no members left and is flagged as delayed.
   */
  method Unlink(req: Req, ghost objs: seq<Req>, ghost reqs: seq<Request>) returns (finish: bool)
    requires Mirrors(objs, reqs) && Has(objs, req) && req.grp != null
    modifies req.grp`size, req.grp`grpFirst
    modifies (if req.grpNext == null then {} else {req.grpNext})`grpPrev
    modifies (if req.grpPrev == null then {} else {req.grpPrev})`grpNext
    ensures req.grp == old(req.grp) && reqs[req.id].group == Some(req.grp.id) && req.grp.id < |reqs|
    ensures Mirrors(objs, Left(reqs, req.grp.id, req.id))
    ensures var t := Left(reqs, req.grp.id, req.id);
            finish <==> t[req.grp.id].size == 0 && t[req.grp.id].delayed
  {
    MirrorsAreNumbered(objs, reqs);
    GroupOf(objs, reqs, req);
    ghost var was := AllLinks(objs);
    var grp := req.grp;
    Unhook(req, grp, objs);
    ghost var unhooked := AllLinks(objs);
    finish := GrpDec(grp);
    forall i | 0 <= i < |objs|
      ensures LeftObject(grp, req, was[req.id].prev, was[req.id].next, objs[i], was[i], LinksOf(objs[i]))
    {
      ghost var x := objs[i];
      assert Unhooked(grp, req, was[req.id].prev, was[req.id].next, x, was[i], unhooked[i]);
    }
    LeftMirrors(objs, was, reqs, grp.id, req.id);
    assert Mirror(objs, grp.id, LinksOf(grp), Left(reqs, grp.id, req.id)[grp.id]);
  }

  /** Flags a group that was polled while it has members: the object does what the engine's request does. */
  method Delay(req: Req, ghost objs: seq<Req>, ghost reqs: seq<Request>)
    requires Mirrors(objs, reqs) && Has(objs, req)
    modifies req`delayed
    ensures Mirrors(objs, reqs[req.id := reqs[req.id].(delayed := true)])
  {
    MirrorsAreNumbered(objs, reqs);
    req.delayed := true;
    forall i | 0 <= i < |objs|
      ensures Mirror(objs, i, LinksOf(objs[i]), reqs[req.id := reqs[req.id].(delayed := true)][i])
    {
      assert old(Mirror(objs, i, LinksOf(objs[i]), reqs[i]));
    }
  }

  // ----- cancellation -----

  ghost function ObjectAt(objs: seq<Req>, ms: seq<nat>, i: nat): Req? {
    if i < |ms| && ms[i] < |objs| then objs[ms[i]] else null
  }

  /** Following the links of each group meets its members in order. */
  ghost predicate Linked(objs: seq<Req>, reqs: seq<Request>)
    reads objs`grpFirst, objs`grpNext
  {
    && |objs| == |reqs| && Numbered(objs)
    && (forall g :: 0 <= g < |objs| ==> objs[g].grpFirst == ObjectAt(objs, reqs[g].members, 0))
    && forall g, i :: 0 <= g < |reqs| && 0 <= i < |reqs[g].members| ==>
         reqs[g].members[i] < |objs| && objs[reqs[g].members[i]].grpNext == ObjectAt(objs, reqs[g].members, i + 1)
  }

  lemma MirrorsAreLinked(objs: seq<Req>, reqs: seq<Request>)
    requires Mirrors(objs, reqs) && ListsOk(reqs)
    ensures Linked(objs, reqs)
  {
    MirrorsAreNumbered(objs, reqs);
    forall g | 0 <= g < |objs|
      ensures objs[g].grpFirst == ObjectAt(objs, reqs[g].members, 0)
    {
      assert Mirror(objs, g, LinksOf(objs[g]), reqs[g]) && ListOk(reqs, g);
    }
    forall g, i | 0 <= g < |reqs| && 0 <= i < |reqs[g].members|
      ensures reqs[g].members[i] < |objs|
      ensures objs[reqs[g].members[i]].grpNext == ObjectAt(objs, reqs[g].members, i + 1)
    {
      assert ListOk(reqs, g) && PlaceOk(reqs, g, i);
      assert Mirror(objs, reqs[g].members[i], LinksOf(objs[reqs[g].members[i]]), reqs[reqs[g].members[i]]);
    }
  }

  /** Marks the request and its members at all depths, and nothing else. */
  method Cancel(req: Req, ghost objs: seq<Req>, ghost reqs: seq<Request>, ghost rank: seq<nat>)
    requires Ranked(reqs, rank) && Linked(objs, reqs) && Has(objs, req)
    modifies objs`cancelled
    ensures forall x :: 0 <= x < |objs| ==>
              objs[x].cancelled == (old(objs[x].cancelled) || Covers(reqs, rank, req.id, x))
    decreases rank[req.id], 1
  {
    req.cancelled := true;
    GrpCancel(req, objs, reqs, rank);
  }

  /** Marks the members of the group at all depths, and nothing else. */
  method GrpCancel(grp: Req, ghost objs: seq<Req>, ghost reqs: seq<Request>, ghost rank: seq<nat>)
    requires Ranked(reqs, rank) && Linked(objs, reqs) && Has(objs, grp)
    modifies objs`cancelled
    ensures forall x :: 0 <= x < |objs| ==>
              objs[x].cancelled ==
              (old(objs[x].cancelled) || Within(reqs, rank, grp.id, |reqs[grp.id].members|, x))
    decreases rank[grp.id], 0
  {
    ghost var k := 0;
    ghost var ms := reqs[grp.id].members;
    var member := grp.grpFirst;
    while member != null
      invariant 0 <= k <= |ms| && Linked(objs, reqs)
      invariant member == ObjectAt(objs, ms, k)
      invariant forall x :: 0 <= x < |objs| ==>
                  objs[x].cancelled == (old(objs[x].cancelled) || Within(reqs, rank, grp.id, k, x))
      decreases |ms| - k
    {
      assert member.id == ms[k];
      Cancel(member, objs, reqs, rank);
      member := member.grpNext;
      k := k + 1;
    }
  }

  /** Cancels a request: the objects do what the engine's requests do. */
  method EioCancel(req: Req, ghost objs: seq<Req>, ghost reqs: seq<Request>)
    requires Mirrors(objs, reqs) && ListsOk(reqs) && Acyclic(reqs) && Has(objs, req)
    modifies objs`cancelled
    ensures Mirrors(objs, Marked(reqs, iset x: nat | Reaches(reqs, req.id, x)))
  {
    MirrorsAreLinked(objs, reqs);
    ghost var rank :| Ranked(reqs, rank);
    Cancel(req, objs, reqs, rank);
    ghost var marks := iset x: nat | Reaches(reqs, req.id, x);
    forall i | 0 <= i < |objs|
      ensures Mirror(objs, i, LinksOf(objs[i]), Marked(reqs, marks)[i])
    {
      assert old(Mirror(objs, i, LinksOf(objs[i]), reqs[i]));
      CoversIffReaches(reqs, rank, req.id, i);
    }
  }

  /** Cancels the members of a group: the objects do what the engine's requests do. */
  method EioGrpCancel(grp: Req, ghost objs: seq<Req>, ghost reqs: seq<Request>)
    requires Mirrors(objs, reqs) && ListsOk(reqs) && Acyclic(reqs) && Has(objs, grp)
    modifies objs`cancelled
    ensures Mirrors(objs, Marked(reqs, iset x: nat | x != grp.id && Reaches(reqs, grp.id, x)))
  {
    MirrorsAreLinked(objs, reqs);
    ghost var rank :| Ranked(reqs, rank);
    GrpCancel(grp, objs, reqs, rank);
    ghost var marks := iset x: nat | x != grp.id && Reaches(reqs, grp.id, x);
    forall i | 0 <= i < |objs|
      ensures Mirror(objs, i, LinksOf(objs[i]), Marked(reqs, marks)[i])
    {
      assert old(Mirror(objs, i, LinksOf(objs[i]), reqs[i]));
      WithinIffReaches(reqs, rank, grp.id, i);
    }
  }
}
