/** A priority queue as a list of FIFO lists, one for each priority, and its plainer reference form. */
module PriLists {
  import opened Counting
  import opened Options

  const ETP_PRI_MIN: int := -4
  const ETP_PRI_MAX: int := 4
  const ETP_NUM_PRI: nat := 9

  /** The queue of priority `p` is element `p`. */
  type Lists<T> = seq<seq<T>>

  ghost function Empty<T>(): Lists<T> {
    seq(ETP_NUM_PRI, _ => [])
  }

  ghost function Push<T>(q: Lists<T>, pri: nat, x: T): (r: Lists<T>)
    requires pri < |q|
    ensures |r| == |q|
  {
    q[pri := q[pri] + [x]]
  }

  /** One more than the highest priority below `n` with a request, or 0. */
  ghost function TopBelow<T>(q: Lists<T>, n: nat): (k: nat)
    requires n <= |q|
    ensures k <= n
    ensures k > 0 ==> q[k - 1] != []
    ensures forall p :: k <= p < n ==> q[p] == []
  {
    if n == 0 then 0 else if q[n - 1] != [] then n else TopBelow(q, n - 1)
  }

  ghost predicate IsEmpty<T>(q: Lists<T>) {
    forall p :: 0 <= p < |q| ==> q[p] == []
  }

  /** The priority that a shift serves. */
  ghost function Top<T>(q: Lists<T>): (p: nat)
    requires !IsEmpty(q)
    ensures p < |q| && q[p] != []
    ensures forall p' :: p < p' < |q| ==> q[p'] == []
  {
    TopBelow(q, |q|) - 1
  }

  ghost function Front<T>(q: Lists<T>): T
    requires !IsEmpty(q)
  {
    q[Top(q)][0]
  }

  ghost function Rest<T>(q: Lists<T>): (r: Lists<T>)
    requires !IsEmpty(q)
    ensures |r| == |q|
  {
    q[Top(q) := q[Top(q)][1..]]
  }

  /** The requests of the first `n` priorities, with their multiplicities. */
  ghost function ItemsBelow<T>(q: Lists<T>, n: nat): multiset<T>
    requires n <= |q|
  {
    if n == 0 then multiset{} else ItemsBelow(q, n - 1) + multiset(q[n - 1])
  }

  ghost function Items<T>(q: Lists<T>): multiset<T> {
    ItemsBelow(q, |q|)
  }

  ghost function Total<T>(q: Lists<T>): nat {
    |Items(q)|
  }

  lemma MultisetCancel<T>(a: multiset<T>, b: multiset<T>, m: multiset<T>)
    requires a + m == b + m
    ensures a == b
  {
    forall e | e in a + b
      ensures a[e] == b[e]
    {
      assert (a + m)[e] == (b + m)[e];
    }
  }

  lemma MultisetSwap<T>(a: multiset<T>, b: multiset<T>, c: multiset<T>)
    ensures a + b + c == a + c + b
  {
  }

  lemma {:induction false} ItemsUpdate<T>(q: Lists<T>, p: nat, l: seq<T>, n: nat)
    requires p < |q| && n <= |q|
    ensures p >= n ==> ItemsBelow(q[p := l], n) == ItemsBelow(q, n)
    ensures p < n ==> ItemsBelow(q[p := l], n) + multiset(q[p]) == ItemsBelow(q, n) + multiset(l)
    decreases n
  {
    if n > 0 {
      ItemsUpdate(q, p, l, n - 1);
      if p < n - 1 {
        assert q[p := l][n - 1] == q[n - 1];
        MultisetSwap(ItemsBelow(q[p := l], n - 1), multiset(q[n - 1]), multiset(q[p]));
        MultisetSwap(ItemsBelow(q, n - 1), multiset(q[n - 1]), multiset(l));
      } else if p == n - 1 {
        MultisetSwap(ItemsBelow(q, p), multiset(q[p]), multiset(l));
      }
    }
  }

  lemma PushItems<T>(q: Lists<T>, p: nat, x: T)
    requires p < |q|
    ensures Items(Push(q, p, x)) == Items(q) + multiset{x}
    ensures !IsEmpty(Push(q, p, x))
    ensures Total(Push(q, p, x)) == Total(q) + 1
  {
    ItemsUpdate(q, p, q[p] + [x], |q|);
    assert multiset(q[p] + [x]) == multiset(q[p]) + multiset{x};
    MultisetCancel(Items(Push(q, p, x)), Items(q) + multiset{x}, multiset(q[p]));
    assert Push(q, p, x)[p] != [];
  }

  lemma RestItems<T>(q: Lists<T>)
    requires !IsEmpty(q)
    ensures Front(q) in Items(q)
    ensures Items(q) == Items(Rest(q)) + multiset{Front(q)}
    ensures Total(q) == Total(Rest(q)) + 1
  {
    var p := Top(q);
    ItemsUpdate(q, p, q[p][1..], |q|);
    assert q[p] == [q[p][0]] + q[p][1..];
    assert multiset(q[p]) == multiset{q[p][0]} + multiset(q[p][1..]);
    MultisetCancel(Items(q), Items(Rest(q)) + multiset{q[p][0]}, multiset(q[p][1..]));
  }

  lemma {:induction false} EmptyItems<T>(q: Lists<T>, n: nat)
    requires n <= |q|
    ensures (forall p :: 0 <= p < n ==> q[p] == []) <==> ItemsBelow(q, n) == multiset{}
    decreases n
  {
    if n > 0 {
      EmptyItems(q, n - 1);
      if q[n - 1] != [] {
        assert q[n - 1][0] in ItemsBelow(q, n);
      }
    }
  }

  lemma EmptyTotal<T>(q: Lists<T>)
    ensures IsEmpty(q) <==> Items(q) == multiset{}
    ensures IsEmpty(q) <==> Total(q) == 0
  {
    EmptyItems(q, |q|);
  }

  // ----- applying a function to every request -----

  ghost function MapLists<T, U>(q: Lists<T>, f: T -> U): (r: Lists<U>)
    ensures |r| == |q|
    ensures forall p :: 0 <= p < |q| ==> r[p] == Map(q[p], f)
  {
    seq(|q|, p requires 0 <= p < |q| => Map(q[p], f))
  }

  lemma MapPush<T, U>(q: Lists<T>, f: T -> U, p: nat, x: T)
    requires p < |q|
    ensures MapLists(Push(q, p, x), f) == Push(MapLists(q, f), p, f(x))
  {
    assert Map(q[p] + [x], f) == Map(q[p], f) + [f(x)];
  }

  lemma {:induction false} MapTop<T, U>(q: Lists<T>, f: T -> U, n: nat)
    requires n <= |q|
    ensures TopBelow(MapLists(q, f), n) == TopBelow(q, n)
    ensures IsEmpty(MapLists(q, f)) <==> IsEmpty(q)
    decreases n
  {
    assert forall p :: 0 <= p < |q| ==> |MapLists(q, f)[p]| == |q[p]|;
    if n > 0 {
      MapTop(q, f, n - 1);
    }
  }

  lemma MapRest<T, U>(q: Lists<T>, f: T -> U)
    requires !IsEmpty(q)
    ensures !IsEmpty(MapLists(q, f))
    ensures Front(MapLists(q, f)) == f(Front(q))
    ensures MapLists(Rest(q), f) == Rest(MapLists(q, f))
  {
    MapTop(q, f, |q|);
    var p := Top(q);
    assert Map(q[p][1..], f) == Map(q[p], f)[1..];
  }

  /** A shift of the images answers the image of what a shift answers. */
  lemma MapShift<T, U>(q: Lists<T>, f: T -> U)
    ensures IsEmpty(MapLists(q, f)) <==> IsEmpty(q)
    ensures !IsEmpty(q) ==> Front(MapLists(q, f)) == f(Front(q)) && MapLists(Rest(q), f) == Rest(MapLists(q, f))
    ensures !IsEmpty(q) ==> (IsEmpty(Rest(MapLists(q, f))) <==> Total(Rest(q)) == 0)
  {
    MapTop(q, f, |q|);
    if !IsEmpty(q) {
      MapRest(q, f);
      MapTop(Rest(q), f, |q|);
      EmptyTotal(Rest(q));
    }
  }

  // ----- priorities -----

  /** A value reduced to a `signed char`. */
  function SignedChar(x: int): (r: int)
    ensures -128 <= r < 128
  {
    (x + 128) % 256 - 128
  }

  /** The queue that a submitted priority selects: shifted to start at 0, then clamped. */
  function QueueOf(pri: int): (q: nat)
    ensures q < ETP_NUM_PRI
  {
    var shifted := SignedChar(pri - ETP_PRI_MIN);
    if shifted < 0 then 0 else if shifted > ETP_PRI_MAX - ETP_PRI_MIN then ETP_PRI_MAX - ETP_PRI_MIN else shifted
  }

  /** What the clamp is for: out of range priorities count as the nearest one in range. */
  function Clamped(pri: int): int {
    if pri < ETP_PRI_MIN then ETP_PRI_MIN else if pri > ETP_PRI_MAX then ETP_PRI_MAX else pri
  }

  /** The clamp does its job exactly for the priorities whose shift does not wrap. */
  lemma QueueOfClamps(pri: int)
    requires -128 <= pri < 128
    ensures QueueOf(pri) as int + ETP_PRI_MIN == Clamped(pri) <==> pri <= 127 + ETP_PRI_MIN
  {
  }

  /** The largest priorities end up in the lowest queue. */
  lemma HighPriorityWraps()
    ensures QueueOf(124) == 0 && Clamped(124) == ETP_PRI_MAX
  {
  }

  // ----- the reference: one log of requests in arrival order -----

  datatype Entry<T> = Entry(pri: nat, item: T)

  /** Does entry `k` beat all others: highest priority, then earliest? */
  ghost predicate Best<T>(log: seq<Entry<T>>, k: nat) {
    && k < |log|
    && (forall j :: 0 <= j < |log| ==> log[j].pri <= log[k].pri)
    && (forall j :: 0 <= j < k ==> log[j].pri < log[k].pri)
  }

  /** The items of the log with priority `p`, in order. */
  ghost function Filter<T>(log: seq<Entry<T>>, p: nat): seq<T> {
    if log == [] then []
    else
      var front, last := log[..|log| - 1], log[|log| - 1];
      Filter(front, p) + if last.pri == p then [last.item] else []
  }

  /** The queue `q` holds what the log holds. */
  ghost predicate Represents<T>(q: Lists<T>, log: seq<Entry<T>>) {
    && |q| == ETP_NUM_PRI
    && Total(q) == |log|
    && (forall k :: 0 <= k < |log| ==> log[k].pri < ETP_NUM_PRI)
    && (forall p :: 0 <= p < ETP_NUM_PRI ==> q[p] == Filter(log, p))
  }

  lemma {:induction false} FilterConcat<T>(a: seq<Entry<T>>, b: seq<Entry<T>>, p: nat)
    ensures Filter(a + b, p) == Filter(a, p) + Filter(b, p)
    decreases |b|
  {
    if b == [] {
      assert a + b == a;
    } else {
      assert (a + b)[..|a + b| - 1] == a + b[..|b| - 1];
      FilterConcat(a, b[..|b| - 1], p);
    }
  }

  lemma {:induction false} FilterNone<T>(log: seq<Entry<T>>, p: nat)
    ensures Filter(log, p) == [] <==> forall j :: 0 <= j < |log| ==> log[j].pri != p
  {
    if log != [] {
      FilterNone(log[..|log| - 1], p);
    }
  }

  lemma FilterAround<T>(log: seq<Entry<T>>, k: nat, p: nat)
    requires k < |log|
    ensures Filter(log, p) ==
              Filter(log[..k], p) + (if log[k].pri == p then [log[k].item] else []) + Filter(log[k + 1..], p)
  {
    assert log == log[..k + 1] + log[k + 1..];
    FilterConcat(log[..k + 1], log[k + 1..], p);
    assert log[..k + 1][..k] == log[..k];
  }

  /** Removing entry `k` changes only the list of its own priority, which loses one item. */
  lemma FilterRemove<T>(log: seq<Entry<T>>, k: nat, p: nat)
    requires k < |log|
    ensures p != log[k].pri ==> Filter(Without(log, k), p) == Filter(log, p)
    ensures p == log[k].pri && Filter(log[..k], p) == [] ==>
              Filter(log, p) == [log[k].item] + Filter(Without(log, k), p)
  {
    FilterAround(log, k, p);
    FilterConcat(log[..k], log[k + 1..], p);
  }

  lemma PushRepresents<T>(q: Lists<T>, log: seq<Entry<T>>, pri: nat, x: T)
    requires Represents(q, log) && pri < ETP_NUM_PRI
    ensures Represents(Push(q, pri, x), log + [Entry(pri, x)])
  {
    assert (log + [Entry(pri, x)])[..|log|] == log;
    PushItems(q, pri, x);
  }

  /** The log entry that the front of the queue stands for is the best one. */
  lemma FrontIsBest<T>(q: Lists<T>, log: seq<Entry<T>>) returns (k: nat)
    requires Represents(q, log) && log != []
    ensures !IsEmpty(q)
    ensures Best(log, k) && log[k].pri == Top(q) && Filter(log[..k], Top(q)) == []
  {
    EmptyTotal(q);
    var p := Top(q);
    FilterNone(log, p);
    forall j | 0 <= j < |log|
      ensures log[j].pri <= p
    {
      FilterNone(log, log[j].pri);
    }
    k := FirstOf(log, p);
    FilterNone(log[..k], p);
  }

  lemma RestList<T>(q: Lists<T>, log: seq<Entry<T>>, k: nat, p: nat)
    requires |q| == ETP_NUM_PRI && !IsEmpty(q) && p < ETP_NUM_PRI
    requires k < |log| && log[k].pri == Top(q) && Filter(log[..k], Top(q)) == []
    requires q[p] == Filter(log, p)
    ensures Rest(q)[p] == Filter(Without(log, k), p)
    ensures p == Top(q) ==> Front(q) == log[k].item
  {
    FilterRemove(log, k, p);
  }

  /** A shift removes the best entry of the log. */
  lemma ShiftRepresents<T>(q: Lists<T>, log: seq<Entry<T>>) returns (k: nat)
    requires Represents(q, log) && log != []
    ensures !IsEmpty(q)
    ensures Best(log, k) && log[k].item == Front(q)
    ensures Represents(Rest(q), Without(log, k))
  {
    k := FrontIsBest(q, log);
    RestItems(q);
    forall p | 0 <= p < ETP_NUM_PRI
      ensures Rest(q)[p] == Filter(Without(log, k), p)
    {
      RestList(q, log, k, p);
    }
    RestList(q, log, k, Top(q));
    forall j | 0 <= j < |log| - 1
      ensures Without(log, k)[j].pri < ETP_NUM_PRI
    {
      assert Without(log, k)[j] in log;
    }
  }

  lemma FirstOf<T>(log: seq<Entry<T>>, p: nat) returns (k: nat)
    requires exists j :: 0 <= j < |log| && log[j].pri == p
    ensures k < |log| && log[k].pri == p && forall j :: 0 <= j < k ==> log[j].pri != p
  {
    k := 0;
    while log[k].pri != p
      invariant k < |log| && forall j :: 0 <= j < k ==> log[j].pri != p
      decreases |log| - k
    {
      k := k + 1;
    }
  }

  // ----- runs of pushes and shifts -----

  datatype Op<T> = PushOp(pri: nat, item: T) | ShiftOp

  /** What an operation returns: a push the size before it, a shift the request it took. */
  datatype Answer<T> = Pushed(before: nat) | Shifted(found: Option<T>)

  ghost predicate OpsOk<T>(ops: seq<Op<T>>) {
    forall i :: 0 <= i < |ops| && ops[i].PushOp? ==> ops[i].pri < ETP_NUM_PRI
  }

  ghost function Step<T>(q: Lists<T>, op: Op<T>): (r: (Lists<T>, Answer<T>))
    requires |q| == ETP_NUM_PRI && OpsOk([op])
    ensures |r.0| == ETP_NUM_PRI
  {
    match op
    case PushOp(p, x) => assert [op][0] == op; (Push(q, p, x), Pushed(Total(q)))
    case ShiftOp => if IsEmpty(q) then (q, Shifted(None)) else (Rest(q), Shifted(Some(Front(q))))
  }

  /** The queue after the operations, and all answers. */
  ghost function Run<T>(ops: seq<Op<T>>): (r: (Lists<T>, seq<Answer<T>>))
    requires OpsOk(ops)
    ensures |r.0| == ETP_NUM_PRI && |r.1| == |ops|
  {
    if ops == [] then (Empty(), [])
    else
      var before := Run(ops[..|ops| - 1]);
      var step := Step(before.0, ops[|ops| - 1]);
      (step.0, before.1 + [step.1])
  }

  /** One operation on the log: append, or remove the best entry. */
  ghost predicate LogStep<T>(log: seq<Entry<T>>, op: Op<T>, log': seq<Entry<T>>, a: Answer<T>) {
    match op
    case PushOp(p, x) => log' == log + [Entry(p, x)] && a == Pushed(|log|)
    case ShiftOp =>
      if log == [] then log' == log && a == Shifted(None)
      else exists k: nat :: Best(log, k) && log' == Without(log, k) && a == Shifted(Some(log[k].item))
  }

  /** The answers are those of operations on a log that was empty at first and is `log` at the end. */
  ghost predicate LogRun<T(!new)>(ops: seq<Op<T>>, answers: seq<Answer<T>>, log: seq<Entry<T>>)
    requires |answers| == |ops|
  {
    if ops == [] then log == []
    else
      var n := |ops| - 1;
      exists before :: LogRun(ops[..n], answers[..n], before) && LogStep(before, ops[n], log, answers[n])
  }

  lemma StepRefines<T>(q: Lists<T>, log: seq<Entry<T>>, op: Op<T>) returns (log': seq<Entry<T>>)
    requires Represents(q, log) && OpsOk([op])
    ensures LogStep(log, op, log', Step(q, op).1) && Represents(Step(q, op).0, log')
  {
    assert [op][0] == op;
    match op
    case PushOp(p, x) =>
      PushRepresents(q, log, p, x);
      log' := log + [Entry(p, x)];
    case ShiftOp =>
      EmptyTotal(q);
      log' := log;
      if log != [] {
        var k := ShiftRepresents(q, log);
        log' := Without(log, k);
      }
  }

  /**
   * Nine lists behave like one log: in every run each push answers the number of requests held,
   * and each shift takes the oldest of those with the highest priority.
   */
  lemma {:induction false} RunRefines<T(!new)>(ops: seq<Op<T>>) returns (log: seq<Entry<T>>)
    requires OpsOk(ops)
    ensures LogRun(ops, Run(ops).1, log) && Represents(Run(ops).0, log)
  {
    if ops == [] {
      log := [];
      EmptyTotal(Empty<T>());
    } else {
      var front, last := ops[..|ops| - 1], ops[|ops| - 1];
      assert OpsOk([last]);
      var before := RunRefines(front);
      log := StepRefines(Run(front).0, before, last);
      assert Run(ops).1[..|front|] == Run(front).1;
    }
  }
}
