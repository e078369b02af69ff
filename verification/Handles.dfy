/**
 * The reference-counted handles through which PHP resources reach libeio's requests, and the table of
 * handles of live requests, indexed by the address of the request.
 */
module Handles {
  import opened Counting
  import opened Options

  datatype Destroy = Original | Hook

  /** A live request: which one of all requests ever made, and its destroy callback. */
  datatype Request = Request(id: nat, destroy: Destroy)

  /** A handle, with the request that it was made for; a freed handle must not be used any more. */
  datatype Handle = Handle(req: Option<nat>, refs: int, original: Destroy, owner: nat, freed: bool)

  datatype World = World(
    ready: bool,
    live: map<nat, Request>,        // memory: the request at each address
    table: map<nat, nat>,           // address of a request to its handle
    handles: seq<Handle>,           // all handles ever made
    resources: seq<Option<nat>>,    // the handle of each resource, until it is released
    requests: nat,                  // how many requests were made so far
    destroyed: multiset<nat>)       // each request as often as its original destroy callback ran

  ghost predicate Alive(w: World, id: nat) {
    exists a :: a in w.live && w.live[a].id == id
  }

  ghost function PointsTo(h: nat): Option<nat> -> bool {
    (r: Option<nat>) => r == Some(h)
  }

  // ----- the invariant -----

  /** A table entry leads to the handle of the request that lives at the address now. */
  ghost predicate EntryOk(w: World, a: nat)
    requires a in w.table
  {
    && a in w.live
    && w.table[a] < |w.handles|
    && var h := w.handles[w.table[a]];
    && h.req == Some(a) && h.owner == w.live[a].id && h.original == Original
  }

  /** A handle counts its resources and the table, and is freed when neither is left. */
  ghost predicate HandleOk(w: World, h: nat)
    requires h < |w.handles|
  {
    && (w.handles[h].req.Some? ==> w.handles[h].req.value in w.table && w.table[w.handles[h].req.value] == h)
    && w.handles[h].refs == Count(w.resources, PointsTo(h)) + (if w.handles[h].req.Some? then 1 else 0)
    && (w.handles[h].freed <==> w.handles[h].refs == 0)
  }

  /** A request has the hook installed exactly if it is in the table. */
  ghost predicate RequestOk(w: World, a: nat)
    requires a in w.live
  {
    && w.live[a].id < w.requests
    && (w.live[a].destroy == Hook <==> a in w.table)
    && forall b :: b in w.live && w.live[b].id == w.live[a].id ==> a == b
  }

  ghost predicate Valid(w: World) {
    && (forall a :: a in w.table ==> EntryOk(w, a))
    && (forall h :: 0 <= h < |w.handles| ==> HandleOk(w, h))
    && (forall a :: a in w.live ==> RequestOk(w, a))
    && (forall r, h: nat :: 0 <= r < |w.resources| && w.resources[r] == Some(h) ==> h < |w.handles|)
    && (forall id: nat :: w.destroyed[id] == if id < w.requests && !Alive(w, id) then 1 else 0)
    && (!w.ready ==> w.table == map[])
  }

  // ----- what the functions do -----

  ghost function Released(h: Handle): Handle {
    h.(refs := h.refs - 1, freed := h.refs - 1 == 0)
  }

  ghost function Allocated(w: World, a: nat): World {
    w.(live := w.live[a := Request(w.requests, Original)], requests := w.requests + 1)
  }

  ghost function HandleFor(w: World, a: nat): nat {
    if a in w.table then w.table[a] else |w.handles|
  }

  ghost function Referenced(w: World, a: nat): World
    requires a in w.live && (a in w.table ==> w.table[a] < |w.handles|)
  {
    if a in w.table then
      var h := w.table[a];
      w.(handles := w.handles[h := w.handles[h].(refs := w.handles[h].refs + 1)])
    else
      w.(handles := w.handles + [Handle(Some(a), 2, w.live[a].destroy, w.live[a].id, false)],
         table := w.table[a := |w.handles|],
         live := w.live[a := w.live[a].(destroy := Hook)])
  }

  ghost function Registered(w: World, a: nat): World
    requires a in w.live && (a in w.table ==> w.table[a] < |w.handles|)
  {
    Referenced(w, a).(resources := w.resources + [Some(HandleFor(w, a))])
  }

  ghost function Dropped(w: World, r: nat): World
    requires r < |w.resources| && (w.resources[r].Some? ==> w.resources[r].value < |w.handles|)
  {
    match w.resources[r]
    case None => w
    case Some(h) =>
      w.(handles := w.handles[h := Released(w.handles[h])], resources := w.resources[r := None])
  }

  ghost function OriginalRun(w: World, a: nat): World
    requires a in w.live
  {
    w.(live := w.live - {a}, destroyed := w.destroyed + multiset{w.live[a].id})
  }

  ghost function Destroyed(w: World, a: nat): World
    requires a in w.live && (a in w.table ==> w.table[a] < |w.handles|)
  {
    if w.live[a].destroy == Original then OriginalRun(w, a)
    else if w.ready && a in w.table then
      var h := w.table[a];
      var d := w.(handles := w.handles[h := Released(w.handles[h].(req := None))], table := w.table - {a});
      if w.handles[h].original == Original then OriginalRun(d, a) else d
    else w
  }

  ghost function Invalidated(w: World, h: nat): Handle
    requires h < |w.handles|
  {
    if h in w.table.Values then Released(w.handles[h].(req := None)) else w.handles[h]
  }

  ghost function Reset(w: World): World
  {
    if !w.ready then w
    else
      w.(handles := seq(|w.handles|, h requires 0 <= h < |w.handles| => Invalidated(w, h)),
         live := map a | a in w.live ::
           if a in w.table && w.table[a] < |w.handles| then w.live[a].(destroy := w.handles[w.table[a]].original)
           else w.live[a],
         table := map[])
  }

  // ----- every operation keeps the invariant -----

  lemma AllocateKeepsValid(w: World, a: nat)
    requires Valid(w) && a !in w.live
    ensures Valid(Allocated(w, a))
  {
    var t := Allocated(w, a);
    forall id: nat
      ensures t.destroyed[id] == if id < t.requests && !Alive(t, id) then 1 else 0
    {
      assert t.live[a].id == w.requests;
      AllocatedAlive(w, a, id);
    }
    forall b | b in w.table
      ensures EntryOk(t, b)
    {
      assert EntryOk(w, b);
    }
    forall b | b in t.live
      ensures RequestOk(t, b)
    {
      assert b != a ==> RequestOk(w, b);
      forall c | c in t.live && c != a
        ensures RequestOk(w, c)
      {
      }
    }
    forall h | 0 <= h < |w.handles|
      ensures HandleOk(t, h)
    {
      assert HandleOk(w, h);
    }
  }

  lemma AllocatedAlive(w: World, a: nat, id: nat)
    requires Valid(w) && a !in w.live
    ensures Alive(Allocated(w, a), id) <==> Alive(w, id) || id == w.requests
  {
    var t := Allocated(w, a);
    assert t.live[a].id == w.requests;
    if Alive(w, id) {
      var b :| b in w.live && w.live[b].id == id;
      assert t.live[b].id == id;
    }
  }

  lemma ReferenceKeepsValid(w: World, a: nat)
    requires Valid(w) && a in w.live && w.ready
    ensures (a in w.table ==> w.table[a] < |w.handles|) && Valid(Registered(w, a))
  {
    if a in w.table {
      assert EntryOk(w, a);
    }
    assert RequestOk(w, a);
    var t := Registered(w, a);
    forall id: nat
      ensures Alive(t, id) <==> Alive(w, id)
    {
      if Alive(w, id) {
        var b :| b in w.live && w.live[b].id == id;
        assert t.live[b].id == id;
      }
    }
    forall h | 0 <= h < |t.handles|
      ensures HandleOk(t, h)
    {
      RegisterCounts(w, a, h);
    }
    forall b | b in t.table
      ensures EntryOk(t, b)
    {
      RegisterEntries(w, a, b);
    }
    forall b | b in t.live
      ensures RequestOk(t, b)
    {
      RegisterRequests(w, a, b);
    }
  }

  lemma RegisterEntries(w: World, a: nat, b: nat)
    requires Valid(w) && a in w.live && (a in w.table ==> w.table[a] < |w.handles|)
    requires b in Registered(w, a).table
    ensures EntryOk(Registered(w, a), b)
  {
    assert RequestOk(w, a);
    if b in w.table {
      assert EntryOk(w, b);
    }
  }

  lemma RegisterRequests(w: World, a: nat, b: nat)
    requires Valid(w) && a in w.live && (a in w.table ==> w.table[a] < |w.handles|)
    requires b in Registered(w, a).live
    ensures RequestOk(Registered(w, a), b)
  {
    assert RequestOk(w, b);
    if a in w.table {
      assert EntryOk(w, a) && RequestOk(w, a);
    }
  }

  lemma RegisterCounts(w: World, a: nat, h: nat)
    requires Valid(w) && a in w.live && (a in w.table ==> w.table[a] < |w.handles|)
    requires h < |Registered(w, a).handles|
    ensures HandleOk(Registered(w, a), h)
  {
    CountAppend(w.resources, Some(HandleFor(w, a)), PointsTo(h));
    if h < |w.handles| {
      assert HandleOk(w, h);
    } else {
      CountAll(w.resources, PointsTo(h));
    }
  }

  lemma DropKeepsValid(w: World, r: nat)
    requires Valid(w) && r < |w.resources|
    ensures (w.resources[r].Some? ==> w.resources[r].value < |w.handles|) && Valid(Dropped(w, r))
  {
    var t := Dropped(w, r);
    forall h | 0 <= h < |t.handles|
      ensures HandleOk(t, h)
    {
      CountUpdate(w.resources, r, None, PointsTo(h));
      assert HandleOk(w, h);
    }
    forall b | b in t.table
      ensures EntryOk(t, b)
    {
      assert EntryOk(w, b);
    }
    forall b | b in t.live
      ensures RequestOk(t, b)
    {
      assert RequestOk(w, b);
    }
    forall id: nat
      ensures Alive(t, id) <==> Alive(w, id)
    {
    }
  }

  /** With the hook in place or not, destroying a request ends in its original destroy callback. */
  lemma DestroyRunsOriginal(w: World, a: nat)
    requires Valid(w) && a in w.live
    ensures (a in w.table ==> w.table[a] < |w.handles|)
    ensures Destroyed(w, a).live == w.live - {a}
    ensures Destroyed(w, a).destroyed == w.destroyed + multiset{w.live[a].id}
    ensures Destroyed(w, a).table == w.table - {a}
  {
    assert RequestOk(w, a);
    if a in w.table {
      assert EntryOk(w, a);
    }
  }

  lemma DestroyedAlive(w: World, a: nat, id: nat)
    requires Valid(w) && a in w.live && (a in w.table ==> w.table[a] < |w.handles|)
    ensures Alive(Destroyed(w, a), id) <==> Alive(w, id) && id != w.live[a].id
  {
    DestroyRunsOriginal(w, a);
    assert RequestOk(w, a);
    if Alive(w, id) && id != w.live[a].id {
      var b :| b in w.live && w.live[b].id == id;
      assert Destroyed(w, a).live[b].id == id;
    }
  }

  lemma DestroyKeepsHandles(w: World, a: nat, h: nat)
    requires Valid(w) && a in w.live && h < |w.handles|
    ensures (a in w.table ==> w.table[a] < |w.handles|) && HandleOk(Destroyed(w, a), h)
  {
    DestroyRunsOriginal(w, a);
    assert HandleOk(w, h);
    if a in w.table {
      assert EntryOk(w, a);
      assert HandleOk(w, w.table[a]);
    }
  }

  lemma DestroyKeepsValid(w: World, a: nat)
    requires Valid(w) && a in w.live
    ensures (a in w.table ==> w.table[a] < |w.handles|) && Valid(Destroyed(w, a))
  {
    DestroyRunsOriginal(w, a);
    var t := Destroyed(w, a);
    assert Alive(w, w.live[a].id) && RequestOk(w, a);
    forall id: nat
      ensures t.destroyed[id] == if id < t.requests && !Alive(t, id) then 1 else 0
    {
      DestroyedAlive(w, a, id);
    }
    forall h | 0 <= h < |t.handles|
      ensures HandleOk(t, h)
    {
      DestroyKeepsHandles(w, a, h);
    }
    forall b | b in t.table
      ensures EntryOk(t, b)
    {
      assert EntryOk(w, b);
      if a in w.table {
        assert EntryOk(w, a);
      }
    }
    forall b | b in t.live
      ensures RequestOk(t, b)
    {
      assert RequestOk(w, b);
    }
  }

  lemma ResetKeepsValid(w: World)
    requires Valid(w)
    ensures Valid(Reset(w)) && (w.ready ==> forall a :: a in Reset(w).live ==> Reset(w).live[a].destroy == Original)
  {
    var t := Reset(w);
    if w.ready {
      forall a | a in w.live
        ensures t.live[a] == w.live[a].(destroy := Original) && RequestOk(w, a)
      {
        assert RequestOk(w, a);
        if a in w.table {
          assert EntryOk(w, a);
        }
      }
      forall a | a in t.live
        ensures RequestOk(t, a)
      {
        assert RequestOk(w, a);
      }
      forall id: nat
        ensures Alive(t, id) <==> Alive(w, id)
      {
        if Alive(w, id) {
          var b :| b in w.live && w.live[b].id == id;
          assert t.live[b].id == id;
        }
      }
      forall h | 0 <= h < |t.handles|
        ensures HandleOk(t, h)
      {
        InvalidatedWhenHeld(w, h);
        assert HandleOk(w, h);
      }
    }
  }

  lemma InvalidatedWhenHeld(w: World, h: nat)
    requires Valid(w) && h < |w.handles|
    ensures h in w.table.Values <==> w.handles[h].req.Some?
  {
    assert HandleOk(w, h);
    if h in w.table.Values {
      var a :| a in w.table && w.table[a] == h;
      assert EntryOk(w, a);
    }
  }

  // ----- runs -----

  datatype Op =
    | Allocate(a: nat) | Register(a: nat) | Drop(r: nat) | DestroyAt(a: nat) | ResetAll | Shutdown

  /** What libeio and PHP may call: they only name live requests and existing resources. */
  ghost predicate Allowed(w: World, op: Op) {
    match op
    case Allocate(a) => a !in w.live
    case Register(a) => a in w.live && w.ready && (a in w.table ==> w.table[a] < |w.handles|)
    case Drop(r) => r < |w.resources| && (w.resources[r].Some? ==> w.resources[r].value < |w.handles|)
    case DestroyAt(a) => a in w.live && (a in w.table ==> w.table[a] < |w.handles|)
    case ResetAll => true
    case Shutdown => true
  }

  ghost function Do(w: World, op: Op): World
    requires Allowed(w, op)
  {
    match op
    case Allocate(a) => Allocated(w, a)
    case Register(a) => Registered(w, a)
    case Drop(r) => Dropped(w, r)
    case DestroyAt(a) => Destroyed(w, a)
    case ResetAll => Reset(w)
    case Shutdown => Reset(w).(ready := false)
  }

  ghost function Start(): World {
    World(true, map[], map[], [], [], 0, multiset{})
  }

  ghost predicate Run(ws: seq<World>, ops: seq<Op>) {
    && |ws| == |ops| + 1
    && ws[0] == Start()
    && forall i {:trigger ops[i]} :: 0 <= i < |ops| ==> Allowed(ws[i], ops[i]) && ws[i + 1] == Do(ws[i], ops[i])
  }

  lemma DoKeepsValid(w: World, op: Op)
    requires Valid(w) && Allowed(w, op)
    ensures Valid(Do(w, op))
  {
    match op
    case Allocate(a) => AllocateKeepsValid(w, a);
    case Register(a) => ReferenceKeepsValid(w, a);
    case Drop(r) => DropKeepsValid(w, r);
    case DestroyAt(a) => DestroyKeepsValid(w, a);
    case ResetAll => ResetKeepsValid(w);
    case Shutdown =>
      ResetKeepsValid(w);
      ShutdownKeepsValid(Reset(w));
  }

  lemma ShutdownKeepsValid(w: World)
    requires Valid(w) && w.table == map[]
    ensures Valid(w.(ready := false))
  {
    var t := w.(ready := false);
    forall h | 0 <= h < |t.handles|
      ensures HandleOk(t, h)
    {
      assert HandleOk(w, h);
    }
    forall a | a in t.live
      ensures RequestOk(t, a)
    {
      assert RequestOk(w, a);
    }
    assert forall id: nat :: Alive(w, id) <==> Alive(t, id);
  }

  lemma {:induction false} RunValid(ws: seq<World>, ops: seq<Op>, i: nat)
    requires Run(ws, ops) && i < |ws|
    ensures Valid(ws[i])
    decreases i
  {
    if i > 0 {
      RunValid(ws, ops, i - 1);
      DoKeepsValid(ws[i - 1], ops[i - 1]);
    }
  }

  ghost function Fetch(w: World, r: nat): Option<nat> {
    if r < |w.resources| && w.resources[r].Some? && w.resources[r].value < |w.handles|
    then w.handles[w.resources[r].value].req
    else None
  }

  /** A resource leads to the live request that its handle was made for, or nowhere, and never through freed memory. */
  lemma FetchIsSafe(ws: seq<World>, ops: seq<Op>, i: nat, r: nat)
    requires Run(ws, ops) && i < |ws| && r < |ws[i].resources| && ws[i].resources[r].Some?
    ensures var w := ws[i]; var h := w.resources[r].value;
            && h < |w.handles| && !w.handles[h].freed
            && (Fetch(w, r).Some? ==>
                  && Fetch(w, r).value in w.live
                  && w.live[Fetch(w, r).value].id == w.handles[h].owner
                  && w.live[Fetch(w, r).value].destroy == Hook)
  {
    RunValid(ws, ops, i);
    var w := ws[i];
    var h := w.resources[r].value;
    CountAll(w.resources, PointsTo(h));
    assert HandleOk(w, h);
    if w.handles[h].req.Some? {
      assert EntryOk(w, w.handles[h].req.value) && RequestOk(w, w.handles[h].req.value);
    }
  }

  ghost function Owner(w: World, r: nat): Option<nat> {
    if r < |w.resources| && w.resources[r].Some? && w.resources[r].value < |w.handles|
    then Some(w.handles[w.resources[r].value].owner)
    else None
  }

  /** A resource keeps its owner until it is released. */
  lemma DoKeepsOwner(w: World, op: Op, r: nat)
    requires Valid(w) && Allowed(w, op) && r < |w.resources|
    ensures r < |Do(w, op).resources|
    ensures Do(w, op).resources[r].Some? ==> w.resources[r].Some? && Owner(Do(w, op), r) == Owner(w, r)
  {
  }

  lemma {:induction false} OwnerStays(ws: seq<World>, ops: seq<Op>, i: nat, j: nat, r: nat)
    requires Run(ws, ops) && i <= j < |ws| && r < |ws[i].resources|
    ensures r < |ws[j].resources|
    ensures ws[j].resources[r].Some? ==> ws[i].resources[r].Some? && Owner(ws[j], r) == Owner(ws[i], r)
    decreases j
  {
    if i < j {
      OwnerStays(ws, ops, i, j - 1, r);
      RunValid(ws, ops, j - 1);
      DoKeepsOwner(ws[j - 1], ops[j - 1], r);
    }
  }

  /**
   * A stale resource stays stale: once the request that it led to is destroyed, it leads nowhere, even
   * if a new request is made at the same address.
   */
  lemma StaleStaysStale(ws: seq<World>, ops: seq<Op>, i: nat, j: nat, r: nat)
    requires Run(ws, ops) && i <= j < |ws| && r < |ws[i].resources|
    requires Fetch(ws[i], r).Some? && Fetch(ws[i], r).value in ws[i].live
    requires !Alive(ws[j], ws[i].live[Fetch(ws[i], r).value].id)
    ensures Fetch(ws[j], r) == None
  {
    FetchIsSafe(ws, ops, i, r);
    OwnerStays(ws, ops, i, j, r);
    if Fetch(ws[j], r).Some? {
      FetchIsSafe(ws, ops, j, r);
    }
  }

  // ----- exactly when a fetch succeeds -----

  /** The operations that part a resource from its request while the request lives. */
  ghost predicate Parts(op: Op, r: nat) {
    op == Drop(r) || op == ResetAll || op == Shutdown
  }

  /** The resource holds the handle of the request with number `id`, at address `a`. */
  ghost predicate Leads(w: World, r: nat, a: nat, id: nat) {
    && r < |w.resources| && w.resources[r].Some? && w.resources[r].value < |w.handles|
    && w.handles[w.resources[r].value].req == Some(a)
    && w.handles[w.resources[r].value].owner == id
  }

  ghost predicate LivesAt(w: World, a: nat, id: nat) {
    a in w.live && w.live[a].id == id
  }

  lemma LeadsToLiving(w: World, r: nat, a: nat, id: nat)
    requires Valid(w) && Leads(w, r, a, id)
    ensures LivesAt(w, a, id) && a in w.table && w.table[a] == w.resources[r].value
  {
    assert HandleOk(w, w.resources[r].value) && EntryOk(w, a);
  }

  lemma RegisterLeads(w: World, a: nat)
    requires Valid(w) && a in w.live && w.ready
    ensures a in w.table ==> w.table[a] < |w.handles|
    ensures Leads(Registered(w, a), |w.resources|, a, w.live[a].id)
  {
    if a in w.table {
      assert EntryOk(w, a);
    }
  }

  /** A resource goes on leading to its request until one of these operations, or the end of the request. */
  lemma DoKeepsLeads(w: World, op: Op, r: nat, a: nat, id: nat)
    requires Valid(w) && Allowed(w, op) && Leads(w, r, a, id) && !Parts(op, r)
    ensures if op == DestroyAt(a) then !LivesAt(Do(w, op), a, id) && Fetch(Do(w, op), r) == None
            else Leads(Do(w, op), r, a, id)
  {
    LeadsToLiving(w, r, a, id);
    assert EntryOk(w, a) && RequestOk(w, a) && HandleOk(w, w.resources[r].value);
    match op
    case Register(b) => assert b in w.table ==> EntryOk(w, b);
    case DestroyAt(b) =>
      assert RequestOk(w, b);
      if b in w.table {
        assert EntryOk(w, b);
      }
      if b in w.table && b != a {
        DestroyLeavesOthers(w, a, b);
      }
    case _ =>
  }

  /** Two addresses in the table have different handles. */
  lemma DestroyLeavesOthers(w: World, a: nat, b: nat)
    requires Valid(w) && a in w.table && b in w.table && a != b
    ensures w.table[a] != w.table[b]
  {
    assert EntryOk(w, a) && EntryOk(w, b);
  }

  lemma PartingEnds(w: World, op: Op, r: nat, a: nat, id: nat)
    requires Valid(w) && Allowed(w, op) && Leads(w, r, a, id) && Parts(op, r)
    ensures Fetch(Do(w, op), r) == None
  {
    LeadsToLiving(w, r, a, id);
    assert w.ready;
    if op != Drop(r) {
      InvalidatedWhenHeld(w, w.resources[r].value);
    }
  }

  /** A resource that leads nowhere never leads anywhere again. */
  lemma NowhereStays(w: World, op: Op, r: nat)
    requires Valid(w) && Allowed(w, op) && r < |w.resources| && Fetch(w, r) == None
    ensures r < |Do(w, op).resources| && Fetch(Do(w, op), r) == None
  {
    if w.resources[r].Some? {
      var h := w.resources[r].value;
      assert HandleOk(w, h);
      match op
      case Register(b) => assert b in w.table ==> EntryOk(w, b);
      case DestroyAt(b) => assert b in w.table ==> EntryOk(w, b);
      case ResetAll => InvalidatedWhenHeld(w, h);
      case Shutdown => InvalidatedWhenHeld(w, h);
      case _ =>
    }
  }

  /** A request that is gone does not come back: a new one at its address has another number. */
  lemma GoneStaysGone(w: World, op: Op, a: nat, id: nat)
    requires Valid(w) && Allowed(w, op) && id < w.requests
    ensures id < Do(w, op).requests && (LivesAt(Do(w, op), a, id) ==> LivesAt(w, a, id))
  {
  }

  /** None of the operations from `i` up to `j` parts the resource from its request. */
  ghost predicate Intact(ops: seq<Op>, i: nat, j: nat, r: nat) {
    forall k :: i <= k < j && k < |ops| ==> !Parts(ops[k], r)
  }

  /** The resource leads to its request as long as nothing parted them and the request lives. */
  ghost predicate Tracked(w: World, intact: bool, r: nat, a: nat, id: nat) {
    && id < w.requests && r < |w.resources|
    && if intact && LivesAt(w, a, id) then Leads(w, r, a, id) else Fetch(w, r) == None
  }

  lemma DoKeepsTracked(w: World, op: Op, intact: bool, r: nat, a: nat, id: nat)
    requires Valid(w) && Allowed(w, op) && Tracked(w, intact, r, a, id)
    ensures Tracked(Do(w, op), intact && !Parts(op, r), r, a, id)
  {
    GoneStaysGone(w, op, a, id);
    if !intact || !LivesAt(w, a, id) {
      NowhereStays(w, op, r);
    } else if Parts(op, r) {
      PartingEnds(w, op, r, a, id);
    } else {
      DoKeepsLeads(w, op, r, a, id);
      DoKeepsValid(w, op);
      if op != DestroyAt(a) {
        LeadsToLiving(Do(w, op), r, a, id);
      }
    }
  }

  lemma {:induction false} LeadsWhileIntact(ws: seq<World>, ops: seq<Op>, i: nat, j: nat, r: nat, a: nat, id: nat)
    requires Run(ws, ops) && i <= j < |ws| && Leads(ws[i], r, a, id)
    ensures Tracked(ws[j], Intact(ops, i, j, r), r, a, id)
    decreases j
  {
    RunValid(ws, ops, j);
    if i == j {
      LeadsToLiving(ws[i], r, a, id);
      assert RequestOk(ws[i], a);
    } else {
      LeadsWhileIntact(ws, ops, i, j - 1, r, a, id);
      RunValid(ws, ops, j - 1);
      DoKeepsTracked(ws[j - 1], ops[j - 1], Intact(ops, i, j - 1, r), r, a, id);
      IntactLast(ops, i, j, r);
    }
  }

  lemma IntactLast(ops: seq<Op>, i: nat, j: nat, r: nat)
    requires i < j <= |ops|
    ensures Intact(ops, i, j, r) <==> Intact(ops, i, j - 1, r) && !Parts(ops[j - 1], r)
  {
  }

  /**
   * A fetch of a registered resource gives the request that was registered as long as that lives and
   * the resource was not released and no reset or shutdown happened, and nothing otherwise.
   */
  lemma FetchExactly(ws: seq<World>, ops: seq<Op>, i: nat, j: nat, a: nat)
    requires Run(ws, ops) && i < j < |ws| && ops[i] == Register(a)
    ensures a in ws[i].live
    ensures var r := |ws[i].resources|; var id := ws[i].live[a].id;
            Fetch(ws[j], r) ==
              if (forall k :: i < k < j ==> ops[k] != Drop(r) && ops[k] != ResetAll && ops[k] != Shutdown)
                 && a in ws[j].live && ws[j].live[a].id == id
              then Some(a) else None
  {
    RunValid(ws, ops, i);
    var r, id := |ws[i].resources|, ws[i].live[a].id;
    RegisterLeads(ws[i], a);
    LeadsWhileIntact(ws, ops, i + 1, j, r, a, id);
    assert Intact(ops, i + 1, j, r) <==>
           forall k :: i < k < j ==> ops[k] != Drop(r) && ops[k] != ResetAll && ops[k] != Shutdown;
  }

  /** Which calls are possible: there is nothing else that they depend on. */
  lemma AllowedExactly(w: World, op: Op)
    requires Valid(w)
    ensures Allowed(w, op) <==>
              match op
              case Allocate(a) => a !in w.live
              case Register(a) => a in w.live && w.ready
              case Drop(r) => r < |w.resources|
              case DestroyAt(a) => a in w.live
              case ResetAll => true
              case Shutdown => true
  {
    match op
    case Register(a) => assert a in w.table ==> EntryOk(w, a);
    case DestroyAt(a) => assert a in w.table ==> EntryOk(w, a);
    case _ =>
  }

  /** What a release does, and what it leaves alone. */
  lemma DropReleases(w: World, r: nat)
    requires Valid(w) && r < |w.resources|
    ensures w.resources[r].Some? ==> w.resources[r].value < |w.handles|
    ensures var t := Dropped(w, r);
            && |t.resources| == |w.resources| && t.resources[r] == None
            && (forall x :: 0 <= x < |w.resources| && x != r ==> t.resources[x] == w.resources[x])
            && |t.handles| == |w.handles|
            && (forall h :: 0 <= h < |w.handles| && w.resources[r] != Some(h) ==> t.handles[h] == w.handles[h])
            && (w.resources[r].Some? ==>
                  var h := w.resources[r].value;
                  && t.handles[h].refs == w.handles[h].refs - 1 && t.handles[h].req == w.handles[h].req
                  && (t.handles[h].freed <==> w.handles[h].refs == 1))
            && t.table == w.table && t.live == w.live && t.destroyed == w.destroyed && t.ready == w.ready
  {
  }

  /** After a shutdown nothing is registered, no request has the hook, and no resource leads anywhere. */
  lemma {:induction false} NothingAfterShutdown(ws: seq<World>, ops: seq<Op>, i: nat, j: nat)
    requires Run(ws, ops) && i < j < |ws| && ops[i] == Shutdown
    ensures !ws[j].ready && ws[j].table == map[]
    ensures forall a :: a in ws[j].live ==> ws[j].live[a].destroy == Original
    ensures forall r :: 0 <= r < |ws[j].resources| ==> Fetch(ws[j], r) == None
    ensures j < |ops| ==> !ops[j].Register?
    decreases j
  {
    if i < j - 1 {
      NothingAfterShutdown(ws, ops, i, j - 1);
    }
    RunValid(ws, ops, j);
    forall a | a in ws[j].live
      ensures ws[j].live[a].destroy == Original
    {
      assert RequestOk(ws[j], a);
    }
    forall r | 0 <= r < |ws[j].resources|
      ensures Fetch(ws[j], r) == None
    {
      if ws[j].resources[r].Some? {
        assert HandleOk(ws[j], ws[j].resources[r].value);
      }
    }
  }

  /** The original destroy callback of each request runs exactly once: when the request is destroyed. */
  lemma DestroyedOnce(ws: seq<World>, ops: seq<Op>, i: nat, id: nat)
    requires Run(ws, ops) && i < |ws| && id < ws[i].requests
    ensures ws[i].destroyed[id] == if Alive(ws[i], id) then 0 else 1
  {
    RunValid(ws, ops, i);
  }

  // ----- the loop of the reset -----

  /** The table and the handles refer to each other. */
  ghost predicate Tied(w: World) {
    && (forall a :: a in w.table ==>
          && a in w.live && w.table[a] < |w.handles|
          && var h := w.handles[w.table[a]]; h.req == Some(a) && h.original == Original && !h.freed)
    && forall h :: 0 <= h < |w.handles| && w.handles[h].req.Some? ==>
         w.handles[h].req.value in w.table && w.table[w.handles[h].req.value] == h
  }

  lemma ValidIsTied(w: World)
    requires Valid(w)
    ensures Tied(w)
  {
    forall a | a in w.table
      ensures EntryOk(w, a) && !w.handles[w.table[a]].freed
    {
      assert EntryOk(w, a) && HandleOk(w, w.table[a]);
    }
    forall h | 0 <= h < |w.handles| && w.handles[h].req.Some?
      ensures w.handles[h].req.value in w.table && w.table[w.handles[h].req.value] == h
    {
      assert HandleOk(w, h);
    }
  }

  /** The handles whose addresses are not in `todo` any more are cut off. */
  ghost predicate CutSoFar(w: World, todo: set<nat>, handles: seq<Handle>, live: map<nat, Request>) {
    && |handles| == |w.handles| && live.Keys == w.live.Keys
    && (forall h :: 0 <= h < |handles| ==>
          handles[h] == if w.handles[h].req.Some? && w.handles[h].req.value in w.table.Keys - todo
                        then Released(w.handles[h].(req := None)) else w.handles[h])
    && (forall a :: a in live ==>
          live[a] == if a in w.table.Keys - todo then w.live[a].(destroy := Original) else w.live[a])
  }

  /** A live request gets the destroy callback back that the handle has kept. */
  function Restored(live: map<nat, Request>, h: Handle): map<nat, Request> {
    if h.req.Some? && h.req.value in live
    then live[h.req.value := live[h.req.value].(destroy := h.original)] else live
  }

  lemma CutStep(w: World, todo: set<nat>, handles: seq<Handle>, live: map<nat, Request>, a: nat)
    requires Tied(w) && CutSoFar(w, todo, handles, live) && a in todo && todo <= w.table.Keys
    ensures w.table[a] < |handles| && handles[w.table[a]] == w.handles[w.table[a]]
    ensures !handles[w.table[a]].freed && handles[w.table[a]].req == Some(a) && a in live
    ensures CutSoFar(w, todo - {a}, handles[w.table[a] := Released(handles[w.table[a]].(req := None))],
                     Restored(live, handles[w.table[a]]))
  {
    forall h | 0 <= h < |handles| && w.handles[h].req == Some(a)
      ensures h == w.table[a]
    {
    }
  }

  lemma AllCut(w: World, handles: seq<Handle>, live: map<nat, Request>)
    requires Valid(w) && w.ready && CutSoFar(w, {}, handles, live)
    ensures w.(handles := handles, live := live, table := map[]) == Reset(w)
  {
    forall h | 0 <= h < |handles|
      ensures handles[h] == Invalidated(w, h)
    {
      InvalidatedWhenHeld(w, h);
      assert HandleOk(w, h);
    }
    forall a | a in live
      ensures live[a] == Reset(w).live[a]
    {
      if a in w.table {
        assert EntryOk(w, a);
      }
    }
  }

  // ----- the functions as they are written -----

  class HandleTable {
    var ready: bool
    var live: map<nat, Request>
    var table: map<nat, nat>
    var handles: seq<Handle>
    var resources: seq<Option<nat>>
    ghost var requests: nat
    ghost var destroyed: multiset<nat>

    ghost function W(): World
      reads this
    {
      World(ready, live, table, handles, resources, requests, destroyed)
    }

    constructor ()
      ensures W() == Start() && Valid(W())
    {
      ready, live, table, handles, resources := true, map[], map[], [], [];
      requests, destroyed := 0, multiset{};
    }

    method Release(h: nat)
      requires h < |handles| && !handles[h].freed
      modifies this`handles
      ensures handles == old(handles)[h := Released(old(handles)[h])]
    {
      handles := handles[h := handles[h].(refs := handles[h].refs - 1)];
      if handles[h].refs == 0 {
        handles := handles[h := handles[h].(freed := true)];
      }
    }

    /** The handle of a live request, made if it has none; the caller owns a reference. */
    method HandleRef(a: nat) returns (h: nat)
      requires Valid(W()) && a in live && ready
      modifies this
      ensures h == old(HandleFor(W(), a)) && a in old(live) && W() == Referenced(old(W()), a)
    {
      if a in table {
        assert EntryOk(W(), a);
        h := table[a];
      } else {
        h := |handles|;
        handles := handles + [Handle(Some(a), 1, Original, live[a].id, false)];
        table := table[a := h];
        handles := handles[h := handles[h].(original := live[a].destroy)];
        live := live[a := live[a].(destroy := Hook)];
      }
      handles := handles[h := handles[h].(refs := handles[h].refs + 1)];
    }

    method RegisterResource(a: nat) returns (r: nat)
      requires Valid(W()) && a in live && ready
      modifies this
      ensures r == |old(resources)| && a in old(live) && W() == Registered(old(W()), a) && Valid(W())
    {
      ReferenceKeepsValid(W(), a);
      var h := HandleRef(a);
      r := |resources|;
      resources := resources + [Some(h)];
    }

    method FetchReq(r: nat) returns (req: Option<nat>)
      requires Valid(W()) && r < |resources|
      ensures req == Fetch(W(), r)
    {
      match resources[r]
      case None => req := None;
      case Some(h) => req := handles[h].req;
    }

    method ReleaseResource(r: nat)
      requires Valid(W()) && r < |resources|
      modifies this
      ensures W() == Dropped(old(W()), r) && Valid(W())
    {
      DropKeepsValid(W(), r);
      match resources[r]
      case None =>
      case Some(h) =>
        CountAll(resources, PointsTo(h));
        assert HandleOk(W(), h);
        Release(h);
        resources := resources[r := None];
    }

    /** The destroy callback that libeio set: the memory of the request is free again. */
    method RunOriginal(a: nat)
      requires a in live
      modifies this`live, this`destroyed
      ensures W() == OriginalRun(old(W()), a)
    {
      destroyed := destroyed + multiset{live[a].id};
      live := live - {a};
    }

    /** The callback that replaces it while the request has a handle. */
    method DestroyHook(a: nat)
      requires Valid(W()) && a in live && live[a].destroy == Hook
      modifies this
      ensures a in old(live) && W() == Destroyed(old(W()), a)
    {
      assert RequestOk(W(), a);
      var original := None;
      if ready {
        if a in table {
          assert EntryOk(W(), a) && HandleOk(W(), table[a]);
          var h := table[a];
          original := Some(handles[h].original);
          handles := handles[h := handles[h].(req := None)];
          table := table - {a};
          Release(h);
        }
      }
      if original.Some? && original.value != Hook {
        RunOriginal(a);
      }
    }

    /** libeio destroys a request by calling whatever callback is installed. */
    method DestroyRequest(a: nat)
      requires Valid(W()) && a in live
      modifies this
      ensures a in old(live) && W() == Destroyed(old(W()), a) && Valid(W())
      ensures a !in live && destroyed == old(destroyed) + multiset{old(live[a].id)}
    {
      DestroyKeepsValid(W(), a);
      DestroyRunsOriginal(W(), a);
      match live[a].destroy
      case Original => RunOriginal(a);
      case Hook => DestroyHook(a);
    }

    /** One round of the reset: a handle is cut off. */
    method CutHandle(h: nat)
      requires h < |handles| && !handles[h].freed && (handles[h].req.Some? ==> handles[h].req.value in live)
      modifies this`handles, this`live
      ensures handles == old(handles)[h := Released(old(handles[h]).(req := None))]
      ensures live == Restored(old(live), old(handles[h]))
    {
      if handles[h].req.Some? {
        var a := handles[h].req.value;
        live := live[a := live[a].(destroy := handles[h].original)];
      }
      handles := handles[h := handles[h].(req := None)];
      Release(h);
    }

    /** One round of the loop: the handle of the request at `a`. */
    method CutEntry(a: nat, ghost w: World, todo: set<nat>) returns (rest: set<nat>)
      requires Tied(w) && table == w.table && CutSoFar(w, todo, handles, live) && a in todo && todo <= w.table.Keys
      modifies this`handles, this`live
      ensures rest <= w.table.Keys && |rest| < |todo|
      ensures CutSoFar(w, rest, handles, live)
    {
      CutStep(w, todo, handles, live, a);
      CutHandle(table[a]);
      rest := todo - {a};
    }

    method CutHandles(ghost w: World)
      requires Tied(w) && handles == w.handles && live == w.live && table == w.table
      modifies this`handles, this`live
      ensures CutSoFar(w, {}, handles, live)
    {
      var todo := table.Keys;
      while todo != {}
        invariant todo <= w.table.Keys
        invariant CutSoFar(w, todo, handles, live)
        decreases |todo|
      {
        var a :| a in todo;
        todo := CutEntry(a, w, todo);
      }
    }

    /** Cuts all handles off from their requests, which get their own destroy callbacks back. */
    method HandlesReset()
      requires Valid(W())
      modifies this
      ensures W() == Reset(old(W())) && Valid(W())
    {
      ResetKeepsValid(W());
      if ready {
        ValidIsTied(W());
        CutHandles(W());
        AllCut(old(W()), handles, live);
        table := map[];
      }
    }

    method ModuleShutdown()
      requires Valid(W())
      modifies this
      ensures W() == Do(old(W()), Shutdown) && Valid(W())
    {
      if ready {
        DoKeepsValid(W(), Shutdown);
        HandlesReset();
        ready := false;
      }
    }
  }
}
