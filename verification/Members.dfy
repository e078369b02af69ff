/** The requests with their group links, and what joining, leaving and cancelling do to them. */
module Members {
  import opened Counting
  import opened Options

  datatype Kind = Ordinary | Group

  /** A request refers to others by their numbers. `members` is what the links of a group run through. */
  datatype Request = Request(
    kind: Kind, queue: nat, cancelled: bool, delayed: bool,
    group: Option<nat>, first: Option<nat>, prev: Option<nat>, next: Option<nat>, size: int,
    members: seq<nat>,
    polls: nat, finishes: nat, callbacks: nat, destroys: nat)  // what has happened to it

  ghost function NewRequest(kind: Kind, queue: nat): Request {
    Request(kind, queue, false, false, None, None, None, None, 0, [], 0, 0, 0, 0)
  }

  // ----- joining and leaving -----

  /** The two requests differ at most in their links. */
  ghost predicate SameRest(q: Request, p: Request) {
    && p.kind == q.kind && p.queue == q.queue && p.cancelled == q.cancelled && p.delayed == q.delayed
    && p.polls == q.polls && p.finishes == q.finishes && p.callbacks == q.callbacks && p.destroys == q.destroys
  }

  /** The two requests do not differ in their links. */
  ghost predicate SameLinks(q: Request, p: Request) {
    && p.group == q.group && p.first == q.first && p.prev == q.prev && p.next == q.next
    && p.size == q.size && p.members == q.members
  }

  ghost function SetPrev(reqs: seq<Request>, x: Option<nat>, prev: Option<nat>): (t: seq<Request>)
    ensures |t| == |reqs| && forall m :: 0 <= m < |reqs| ==> SameRest(reqs[m], t[m])
  {
    if x.Some? && x.value < |reqs| then reqs[x.value := reqs[x.value].(prev := prev)] else reqs
  }

  ghost function SetNext(reqs: seq<Request>, x: Option<nat>, next: Option<nat>): (t: seq<Request>)
    ensures |t| == |reqs| && forall m :: 0 <= m < |reqs| ==> SameRest(reqs[m], t[m])
  {
    if x.Some? && x.value < |reqs| then reqs[x.value := reqs[x.value].(next := next)] else reqs
  }

  /** Request `r` becomes the first member of group `g`. */
  ghost function Joined(reqs: seq<Request>, g: nat, r: nat): (t: seq<Request>)
    requires g < |reqs| && r < |reqs|
    ensures |t| == |reqs| && forall m :: 0 <= m < |reqs| ==> SameRest(reqs[m], t[m])
  {
    var linked := reqs[r := reqs[r].(group := Some(g), prev := None, next := reqs[g].first)];
    var t := SetPrev(linked, reqs[g].first, Some(r));
    t[g := t[g].(first := Some(r), size := t[g].size + 1, members := [r] + t[g].members)]
  }

  ghost function Remove(ms: seq<nat>, r: nat): seq<nat> {
    if r in ms then (var k :| 0 <= k < |ms| && ms[k] == r; Without(ms, k)) else ms
  }

  /** Request `r` is unlinked from group `g`. Its own links stay as they are. */
  ghost function Left(reqs: seq<Request>, g: nat, r: nat): (t: seq<Request>)
    requires g < |reqs| && r < |reqs|
    ensures |t| == |reqs| && forall m :: 0 <= m < |reqs| ==> SameRest(reqs[m], t[m])
  {
    var t := SetNext(SetPrev(reqs, reqs[r].next, reqs[r].prev), reqs[r].prev, reqs[r].next);
    t[g := t[g].(first := if t[g].first == Some(r) then reqs[r].next else t[g].first,
                 size := t[g].size - 1, members := Remove(t[g].members, r))]
  }

  // ----- the lists -----

  ghost function At(ms: seq<nat>, i: int): Option<nat> {
    if 0 <= i < |ms| then Some(ms[i]) else None
  }

  ghost predicate Distinct(ms: seq<nat>) {
    forall i, j :: 0 <= i < j < |ms| ==> ms[i] != ms[j]
  }

  /** Place `i` of the list of group `g`: a request that points to the group and to its neighbours. */
  ghost predicate PlaceOk(reqs: seq<Request>, g: nat, i: nat)
    requires g < |reqs| && i < |reqs[g].members|
  {
    var ms := reqs[g].members;
    && ms[i] < |reqs|
    && reqs[ms[i]].group == Some(g)
    && reqs[ms[i]].prev == At(ms, i - 1)
    && reqs[ms[i]].next == At(ms, i + 1)
  }

  /** The doubly linked list of the group runs through its members, once each, and `size` is their number. */
  ghost predicate ListOk(reqs: seq<Request>, g: nat)
    requires g < |reqs|
  {
    && reqs[g].first == At(reqs[g].members, 0)
    && reqs[g].size == |reqs[g].members|
    && Distinct(reqs[g].members)
    && forall i :: 0 <= i < |reqs[g].members| ==> PlaceOk(reqs, g, i)
  }

  ghost predicate ListsOk(reqs: seq<Request>) {
    forall g :: 0 <= g < |reqs| ==> ListOk(reqs, g)
  }

  ghost predicate Unconnected(q: Request) {
    q.group == None && q.first == None && q.size == 0 && q.members == [] && !q.delayed
  }

  /** Steps that touch no links, and new requests, keep every list well linked. */
  lemma SameLinksKeepLists(reqs: seq<Request>, t: seq<Request>)
    requires ListsOk(reqs) && |reqs| <= |t|
    requires forall m :: 0 <= m < |reqs| ==> SameLinks(reqs[m], t[m])
    requires forall m :: |reqs| <= m < |t| ==> Unconnected(t[m])
    ensures ListsOk(t)
  {
    forall g | 0 <= g < |t|
      ensures ListOk(t, g)
    {
      if g < |reqs| {
        assert ListOk(reqs, g) && SameLinks(reqs[g], t[g]);
        forall i | 0 <= i < |t[g].members|
          ensures PlaceOk(t, g, i)
        {
          assert PlaceOk(reqs, g, i) && SameLinks(reqs[reqs[g].members[i]], t[reqs[g].members[i]]);
        }
      }
    }
  }

  // ----- a join, field by field -----

  ghost predicate JoinedFields(reqs: seq<Request>, g: nat, r: nat, m: nat, q: Request)
    requires g < |reqs| && r < |reqs| && m < |reqs|
  {
    && q.group == (if m == r then Some(g) else reqs[m].group)
    && q.next == (if m == r then reqs[g].first else reqs[m].next)
    && q.prev == (if reqs[g].first == Some(m) then Some(r) else if m == r then None else reqs[m].prev)
    && q.first == (if m == g then Some(r) else reqs[m].first)
    && q.size == reqs[m].size + (if m == g then 1 else 0)
    && q.members == (if m == g then [r] + reqs[m].members else reqs[m].members)
  }

  lemma JoinedIs(reqs: seq<Request>, g: nat, r: nat, m: nat)
    requires g < |reqs| && r < |reqs| && m < |reqs|
    ensures JoinedFields(reqs, g, r, m, Joined(reqs, g, r)[m])
  {
  }

  lemma JoinedOwnPlace(reqs: seq<Request>, t: seq<Request>, g: nat, r: nat, i: nat)
    requires g < |reqs| && r < |reqs| && |t| == |reqs| && reqs[r].group == None && ListOk(reqs, g)
    requires forall m :: 0 <= m < |reqs| ==> JoinedFields(reqs, g, r, m, t[m])
    requires reqs[g].first != Some(r) && i <= |reqs[g].members|
    ensures t[g].members == [r] + reqs[g].members && PlaceOk(t, g, i)
  {
    var ms := reqs[g].members;
    assert t[g].members == [r] + ms by {
      assert JoinedFields(reqs, g, r, g, t[g]);
    }
    assert At(t[g].members, i - 1) == if i == 0 then None else if i == 1 then Some(r) else At(ms, i - 2);
    assert At(t[g].members, i + 1) == At(ms, i);
    if i == 0 {
      assert JoinedFields(reqs, g, r, r, t[r]);
    } else {
      assert PlaceOk(reqs, g, i - 1);
      assert JoinedFields(reqs, g, r, ms[i - 1], t[ms[i - 1]]);
    }
  }

  lemma JoinedOtherPlace(reqs: seq<Request>, t: seq<Request>, g: nat, r: nat, h: nat, i: nat)
    requires g < |reqs| && r < |reqs| && |t| == |reqs| && reqs[r].group == None && ListsOk(reqs)
    requires forall m :: 0 <= m < |reqs| ==> JoinedFields(reqs, g, r, m, t[m])
    requires h < |reqs| && h != g && i < |reqs[h].members|
    ensures t[h].members == reqs[h].members && PlaceOk(t, h, i)
  {
    assert JoinedFields(reqs, g, r, h, t[h]);
    assert ListOk(reqs, h) && ListOk(reqs, g);
    assert PlaceOk(reqs, h, i);
    assert JoinedFields(reqs, g, r, reqs[h].members[i], t[reqs[h].members[i]]);
    assert reqs[g].members != [] ==> PlaceOk(reqs, g, 0);
  }

  lemma MembersPoint(reqs: seq<Request>, g: nat)
    requires g < |reqs| && ListOk(reqs, g)
    ensures forall m :: m in reqs[g].members ==> m < |reqs| && reqs[m].group == Some(g)
  {
    forall m | m in reqs[g].members
      ensures m < |reqs| && reqs[m].group == Some(g)
    {
      var i :| 0 <= i < |reqs[g].members| && reqs[g].members[i] == m;
      assert PlaceOk(reqs, g, i);
    }
  }

  lemma NewIsNoMember(reqs: seq<Request>, g: nat, r: nat)
    requires g < |reqs| && r < |reqs| && ListOk(reqs, g) && reqs[r].group == None
    ensures r !in reqs[g].members && reqs[g].first != Some(r)
  {
    MembersPoint(reqs, g);
    assert reqs[g].first.Some? ==> reqs[g].first.value in reqs[g].members;
  }

  /** A join keeps every list well linked. */
  lemma JoinedKeepsLists(reqs: seq<Request>, g: nat, r: nat)
    requires ListsOk(reqs) && g < |reqs| && r < |reqs| && g != r && reqs[r].group == None
    ensures ListsOk(Joined(reqs, g, r))
  {
    var t := Joined(reqs, g, r);
    assert ListOk(reqs, g);
    NewIsNoMember(reqs, g, r);
    forall m | 0 <= m < |reqs|
      ensures JoinedFields(reqs, g, r, m, t[m])
    {
      JoinedIs(reqs, g, r, m);
    }
    JoinedListsOk(reqs, t, g, r);
  }

  lemma JoinedListsOk(reqs: seq<Request>, t: seq<Request>, g: nat, r: nat)
    requires ListsOk(reqs) && g < |reqs| && r < |reqs| && |t| == |reqs| && reqs[r].group == None
    requires forall m :: 0 <= m < |reqs| ==> JoinedFields(reqs, g, r, m, t[m])
    requires r !in reqs[g].members && reqs[g].first != Some(r)
    ensures ListsOk(t)
  {
    forall h | 0 <= h < |t|
      ensures ListOk(t, h)
    {
      assert JoinedFields(reqs, g, r, h, t[h]);
      assert ListOk(reqs, h);
      forall i | 0 <= i < |t[h].members|
        ensures PlaceOk(t, h, i)
      {
        if h == g {
          JoinedOwnPlace(reqs, t, g, r, i);
        } else {
          JoinedOtherPlace(reqs, t, g, r, h, i);
        }
      }
    }
  }

  // ----- leaving, field by field -----

  ghost predicate LeftFields(reqs: seq<Request>, g: nat, r: nat, ms: seq<nat>, m: nat, q: Request)
    requires g < |reqs| && r < |reqs| && m < |reqs|
  {
    && q.group == reqs[m].group
    && q.prev == (if reqs[r].next == Some(m) then reqs[r].prev else reqs[m].prev)
    && q.next == (if reqs[r].prev == Some(m) then reqs[r].next else reqs[m].next)
    && q.first == (if m == g && reqs[m].first == Some(r) then reqs[r].next else reqs[m].first)
    && q.size == reqs[m].size - (if m == g then 1 else 0)
    && q.members == (if m == g then ms else reqs[m].members)
  }

  lemma LeftIs(reqs: seq<Request>, g: nat, r: nat, m: nat)
    requires g < |reqs| && r < |reqs| && m < |reqs|
    ensures LeftFields(reqs, g, r, Remove(reqs[g].members, r), m, Left(reqs, g, r)[m])
  {
  }

  lemma RemoveIs(ms: seq<nat>, k: nat)
    requires Distinct(ms) && k < |ms|
    ensures Remove(ms, ms[k]) == Without(ms, k)
    ensures Distinct(Without(ms, k)) && ms[k] !in Without(ms, k)
    ensures forall m :: m != ms[k] ==> (m in Without(ms, k) <==> m in ms)
  {
    forall m | m != ms[k] && m in ms
      ensures m in Without(ms, k)
    {
      var j :| 0 <= j < |ms| && ms[j] == m;
      assert Without(ms, k)[if j < k then j else j - 1] == m;
    }
  }

  lemma LeftOwnPlace(reqs: seq<Request>, t: seq<Request>, g: nat, k: nat, i: nat)
    requires g < |reqs| && |t| == |reqs| && ListOk(reqs, g) && k < |reqs[g].members| && reqs[g].members[k] < |reqs|
    requires forall m :: 0 <= m < |reqs| ==>
               LeftFields(reqs, g, reqs[g].members[k], Without(reqs[g].members, k), m, t[m])
    requires i < |reqs[g].members| - 1
    ensures t[g].members == Without(reqs[g].members, k) && PlaceOk(t, g, i)
  {
    var ms := reqs[g].members;
    var rest := Without(ms, k);
    var j := if i < k then i else i + 1;
    assert t[g].members == rest by {
      assert LeftFields(reqs, g, ms[k], rest, g, t[g]);
    }
    assert rest[i] == ms[j];
    assert PlaceOk(reqs, g, k) && PlaceOk(reqs, g, j);
    assert LeftFields(reqs, g, ms[k], rest, ms[j], t[ms[j]]);
    assert At(rest, i + 1) == if j + 1 == k then At(ms, k + 1) else At(ms, j + 1);
    assert At(rest, i - 1) == if j - 1 == k then At(ms, k - 1) else At(ms, j - 1);
  }

  lemma LeftOtherPlace(reqs: seq<Request>, t: seq<Request>, g: nat, k: nat, h: nat, i: nat)
    requires g < |reqs| && |t| == |reqs| && ListsOk(reqs) && k < |reqs[g].members| && reqs[g].members[k] < |reqs|
    requires forall m :: 0 <= m < |reqs| ==>
               LeftFields(reqs, g, reqs[g].members[k], Without(reqs[g].members, k), m, t[m])
    requires h < |reqs| && h != g && i < |reqs[h].members|
    ensures t[h].members == reqs[h].members && PlaceOk(t, h, i)
  {
    var ms := reqs[g].members;
    assert LeftFields(reqs, g, ms[k], Without(ms, k), h, t[h]);
    assert ListOk(reqs, g) && ListOk(reqs, h);
    assert PlaceOk(reqs, h, i) && PlaceOk(reqs, g, k);
    assert LeftFields(reqs, g, ms[k], Without(ms, k), reqs[h].members[i], t[reqs[h].members[i]]);
    assert k > 0 ==> PlaceOk(reqs, g, k - 1);
    assert k + 1 < |ms| ==> PlaceOk(reqs, g, k + 1);
  }

  lemma LeftEnds(reqs: seq<Request>, t: seq<Request>, g: nat, k: nat)
    requires g < |reqs| && |t| == |reqs| && ListOk(reqs, g) && k < |reqs[g].members| && reqs[g].members[k] < |reqs|
    requires LeftFields(reqs, g, reqs[g].members[k], Without(reqs[g].members, k), g, t[g])
    ensures t[g].first == At(t[g].members, 0) && t[g].size == |t[g].members| && Distinct(t[g].members)
  {
    assert PlaceOk(reqs, g, k);
    RemoveIs(reqs[g].members, k);
  }

  /** Unlinking a member keeps every list well linked. */
  lemma LeftKeepsLists(reqs: seq<Request>, g: nat, k: nat)
    requires ListsOk(reqs) && g < |reqs| && k < |reqs[g].members|
    ensures reqs[g].members[k] < |reqs| && ListsOk(Left(reqs, g, reqs[g].members[k]))
    ensures Left(reqs, g, reqs[g].members[k])[g].members == Without(reqs[g].members, k)
  {
    assert ListOk(reqs, g);
    assert PlaceOk(reqs, g, k);
    var r := reqs[g].members[k];
    var t := Left(reqs, g, r);
    RemoveIs(reqs[g].members, k);
    forall m | 0 <= m < |reqs|
      ensures LeftFields(reqs, g, r, Without(reqs[g].members, k), m, t[m])
    {
      LeftIs(reqs, g, r, m);
    }
    assert LeftFields(reqs, g, r, Without(reqs[g].members, k), g, t[g]);
    LeftListsOk(reqs, t, g, k);
  }

  lemma LeftHasFewer(reqs: seq<Request>, g: nat, k: nat)
    requires ListsOk(reqs) && g < |reqs| && k < |reqs[g].members| && reqs[g].members[k] < |reqs|
    ensures forall h :: 0 <= h < |reqs| ==>
              forall m :: m in Left(reqs, g, reqs[g].members[k])[h].members ==> m in reqs[h].members
  {
    assert ListOk(reqs, g);
    RemoveIs(reqs[g].members, k);
    forall h | 0 <= h < |reqs|
      ensures forall m :: m in Left(reqs, g, reqs[g].members[k])[h].members ==> m in reqs[h].members
    {
      LeftIs(reqs, g, reqs[g].members[k], h);
    }
  }

  lemma LeftListsOk(reqs: seq<Request>, t: seq<Request>, g: nat, k: nat)
    requires g < |reqs| && |t| == |reqs| && ListsOk(reqs) && k < |reqs[g].members| && reqs[g].members[k] < |reqs|
    requires forall m :: 0 <= m < |reqs| ==>
               LeftFields(reqs, g, reqs[g].members[k], Without(reqs[g].members, k), m, t[m])
    ensures ListsOk(t)
  {
    forall h | 0 <= h < |t|
      ensures ListOk(t, h)
    {
      assert LeftFields(reqs, g, reqs[g].members[k], Without(reqs[g].members, k), h, t[h]);
      assert ListOk(reqs, h);
      if h == g {
        LeftEnds(reqs, t, g, k);
      }
      forall i | 0 <= i < |t[h].members|
        ensures PlaceOk(t, h, i)
      {
        if h == g {
          LeftOwnPlace(reqs, t, g, k, i);
        } else {
          LeftOtherPlace(reqs, t, g, k, h, i);
        }
      }
    }
  }

  /** No request is a member of two groups, so the lists share nothing. */
  lemma ListsDisjoint(reqs: seq<Request>, g: nat, h: nat, m: nat)
    requires ListsOk(reqs) && g < |reqs| && h < |reqs|
    requires m in reqs[g].members && m in reqs[h].members
    ensures g == h
  {
    assert ListOk(reqs, g) && ListOk(reqs, h);
    MembersPoint(reqs, g);
    MembersPoint(reqs, h);
  }

  // ----- nesting -----

  ghost predicate Path(reqs: seq<Request>, p: seq<nat>) {
    && p != []
    && (forall i :: 0 <= i < |p| ==> p[i] < |reqs|)
    && forall i :: 0 <= i < |p| - 1 ==> p[i + 1] in reqs[p[i]].members
  }

  /** Is `y` the request `x` or a member of it, at any depth? */
  ghost predicate Reaches(reqs: seq<Request>, x: nat, y: nat) {
    exists p :: Path(reqs, p) && p[0] == x && p[|p| - 1] == y
  }

  lemma ReachesFirst(reqs: seq<Request>, u: nat, v: nat, x: nat)
    requires u < |reqs| && v in reqs[u].members && Reaches(reqs, v, x)
    ensures Reaches(reqs, u, x)
  {
    var p :| Path(reqs, p) && p[0] == v && p[|p| - 1] == x;
    var q := [u] + p;
    assert Path(reqs, q) && q[0] == u && q[|q| - 1] == x;
  }

  lemma ReachesSelf(reqs: seq<Request>, x: nat)
    requires x < |reqs|
    ensures Reaches(reqs, x, x)
  {
    assert Path(reqs, [x]);
  }

  /** Members have a lower rank than their group. */
  ghost predicate Ranked(reqs: seq<Request>, rank: seq<nat>) {
    && |rank| == |reqs|
    && forall g, i :: 0 <= g < |reqs| && 0 <= i < |reqs[g].members| ==>
         reqs[g].members[i] < |reqs| && rank[reqs[g].members[i]] < rank[g]
  }

  ghost predicate Acyclic(reqs: seq<Request>) {
    exists rank :: Ranked(reqs, rank)
  }

  ghost function Raised(reqs: seq<Request>, rank: seq<nat>, g: nat, step: nat): (t: seq<nat>)
    requires |rank| == |reqs|
    ensures |t| == |rank|
    ensures forall i :: 0 <= i < |rank| ==> t[i] == rank[i] + if Reaches(reqs, i, g) then step else 0
  {
    seq(|rank|, i requires 0 <= i < |rank| => rank[i] + if Reaches(reqs, i, g) then step else 0)
  }

  lemma RaisedEdge(reqs: seq<Request>, rank: seq<nat>, g: nat, r: nat, u: nat, i: nat)
    requires Ranked(reqs, rank) && g < |reqs| && r < |reqs| && u < |reqs| && i < |reqs[u].members|
    ensures var v := reqs[u].members[i]; var t := Raised(reqs, rank, g, rank[r] + 1);
            v < |reqs| && t[v] < t[u]
  {
    if Reaches(reqs, reqs[u].members[i], g) {
      ReachesFirst(reqs, u, reqs[u].members[i], g);
    }
  }

  lemma RaisedRanks(reqs: seq<Request>, t: seq<Request>, rank: seq<nat>, g: nat, r: nat)
    requires Ranked(reqs, rank) && g < |reqs| && r < |reqs| && !Reaches(reqs, r, g) && |t| == |reqs|
    requires forall u :: 0 <= u < |t| ==> t[u].members == if u == g then [r] + reqs[u].members else reqs[u].members
    ensures Ranked(t, Raised(reqs, rank, g, rank[r] + 1))
  {
    var rank' := Raised(reqs, rank, g, rank[r] + 1);
    ReachesSelf(reqs, g);
    forall u, i | 0 <= u < |t| && 0 <= i < |t[u].members|
      ensures t[u].members[i] < |t| && rank'[t[u].members[i]] < rank'[u]
    {
      if u != g {
        RaisedEdge(reqs, rank, g, r, u, i);
      } else if i > 0 {
        RaisedEdge(reqs, rank, g, r, u, i - 1);
      }
    }
  }

  lemma JoinedMembers(reqs: seq<Request>, g: nat, r: nat, u: nat)
    requires g < |reqs| && r < |reqs| && u < |reqs|
    ensures Joined(reqs, g, r)[u].members == if u == g then [r] + reqs[u].members else reqs[u].members
  {
  }

  /** A new member that does not contain its group leaves the nesting acyclic. */
  lemma JoinedKeepsAcyclic(reqs: seq<Request>, g: nat, r: nat)
    requires Acyclic(reqs) && g < |reqs| && r < |reqs| && !Reaches(reqs, r, g)
    ensures Acyclic(Joined(reqs, g, r))
  {
    var rank :| Ranked(reqs, rank);
    forall u | 0 <= u < |reqs|
      ensures Joined(reqs, g, r)[u].members == if u == g then [r] + reqs[u].members else reqs[u].members
    {
      JoinedMembers(reqs, g, r, u);
    }
    RaisedRanks(reqs, Joined(reqs, g, r), rank, g, r);
  }

  /** With no new members the nesting stays acyclic. */
  lemma FewerKeepAcyclic(reqs: seq<Request>, t: seq<Request>)
    requires Acyclic(reqs) && |reqs| <= |t|
    requires forall g :: 0 <= g < |reqs| ==> forall m :: m in t[g].members ==> m in reqs[g].members
    requires forall g :: |reqs| <= g < |t| ==> t[g].members == []
    ensures Acyclic(t)
  {
    var rank :| Ranked(reqs, rank);
    var rank' := rank + seq(|t| - |reqs|, _ => 0);
    forall g, i | 0 <= g < |t| && 0 <= i < |t[g].members|
      ensures t[g].members[i] < |t| && rank'[t[g].members[i]] < rank'[g]
    {
      assert t[g].members[i] in reqs[g].members;
    }
    assert Ranked(t, rank');
  }

  // ----- cancelling -----

  ghost function Marked(reqs: seq<Request>, marks: iset<nat>): seq<Request> {
    seq(|reqs|, i requires 0 <= i < |reqs| => reqs[i].(cancelled := reqs[i].cancelled || i in marks))
  }

  /** Is `x` the request `r`, or is it met by going through the members of `r`, one after the other? */
  ghost predicate Covers(reqs: seq<Request>, rank: seq<nat>, r: nat, x: nat)
    requires Ranked(reqs, rank) && r < |reqs|
    decreases rank[r], 1
  {
    r == x || Within(reqs, rank, r, |reqs[r].members|, x)
  }

  /** Is `x` met by going through the first `k` members of `g`? */
  ghost predicate Within(reqs: seq<Request>, rank: seq<nat>, g: nat, k: nat, x: nat)
    requires Ranked(reqs, rank) && g < |reqs| && k <= |reqs[g].members|
    decreases rank[g], 0, k
  {
    k > 0 && (Within(reqs, rank, g, k - 1, x) || Covers(reqs, rank, reqs[g].members[k - 1], x))
  }

  lemma {:induction false} WithinIffMember(reqs: seq<Request>, rank: seq<nat>, g: nat, k: nat, x: nat)
    requires Ranked(reqs, rank) && g < |reqs| && k <= |reqs[g].members|
    ensures Within(reqs, rank, g, k, x) <==> exists i :: 0 <= i < k && Covers(reqs, rank, reqs[g].members[i], x)
    decreases k
  {
    if k > 0 {
      WithinIffMember(reqs, rank, g, k - 1, x);
    }
  }

  /** Going through the members covers exactly what chains of memberships lead to. */
  lemma {:induction false} CoversIffReaches(reqs: seq<Request>, rank: seq<nat>, r: nat, x: nat)
    requires Ranked(reqs, rank) && r < |reqs|
    ensures Covers(reqs, rank, r, x) <==> Reaches(reqs, r, x)
    decreases rank[r]
  {
    var ms := reqs[r].members;
    WithinIffMember(reqs, rank, r, |ms|, x);
    if Covers(reqs, rank, r, x) {
      if r == x {
        ReachesSelf(reqs, r);
      } else {
        var i :| 0 <= i < |ms| && Covers(reqs, rank, ms[i], x);
        CoversIffReaches(reqs, rank, ms[i], x);
        ReachesFirst(reqs, r, ms[i], x);
      }
    }
    forall p | Path(reqs, p) && p[0] == r && p[|p| - 1] == x
      ensures Covers(reqs, rank, r, x)
    {
      if |p| > 1 {
        var i :| 0 <= i < |ms| && ms[i] == p[1];
        assert Path(reqs, p[1..]) && p[1..][0] == p[1];
        CoversIffReaches(reqs, rank, p[1], x);
      }
    }
  }

  /** Below a request the rank is lower, so a group is not inside itself. */
  lemma {:induction false} CoversLowers(reqs: seq<Request>, rank: seq<nat>, r: nat, x: nat)
    requires Ranked(reqs, rank) && r < |reqs| && Covers(reqs, rank, r, x)
    ensures x < |reqs| && (x == r || rank[x] < rank[r])
    decreases rank[r]
  {
    if x != r {
      WithinIffMember(reqs, rank, r, |reqs[r].members|, x);
      var i :| 0 <= i < |reqs[r].members| && Covers(reqs, rank, reqs[r].members[i], x);
      CoversLowers(reqs, rank, reqs[r].members[i], x);
    }
  }

  /** The members of a group, at all depths, are what it reaches other than itself. */
  lemma WithinIffReaches(reqs: seq<Request>, rank: seq<nat>, g: nat, x: nat)
    requires Ranked(reqs, rank) && g < |reqs|
    ensures Within(reqs, rank, g, |reqs[g].members|, x) <==> x != g && Reaches(reqs, g, x)
  {
    CoversIffReaches(reqs, rank, g, x);
    WithinIffMember(reqs, rank, g, |reqs[g].members|, x);
    forall i | 0 <= i < |reqs[g].members| && Covers(reqs, rank, reqs[g].members[i], x)
      ensures x != g
    {
      CoversLowers(reqs, rank, reqs[g].members[i], x);
    }
  }
}
