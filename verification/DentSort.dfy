/**
 * The two-pass sort of directory entries: an MSD radix pass that stops at small partitions,
 * then an insertion sort whose inner loop has no lower bound check.
 */
module DentSort {
  import opened Bits
  import opened Counting
  import opened Dirents

  /** Slots of the radix pass's bit list and of its stacks. */
  const SLOTS: nat := 9 + INO_BITS

  // ----- rearranging part of an array -----

  /** `now` is `was` with the entries of `[lo, hi)` permuted. */
  ghost predicate Rearranged(was: seq<Dirent>, now: seq<Dirent>, lo: nat, hi: nat) {
    && lo <= hi <= |was| == |now|
    && multiset(now) == multiset(was)
    && forall k :: 0 <= k < lo || hi <= k < |was| ==> now[k] == was[k]
  }

  lemma RearrangedSlice(was: seq<Dirent>, now: seq<Dirent>, lo: nat, hi: nat)
    requires Rearranged(was, now, lo, hi)
    ensures multiset(now[lo..hi]) == multiset(was[lo..hi])
  {
    assert now[..lo] == was[..lo] && now[hi..] == was[hi..];
    ThreeParts(now, lo, hi);
    ThreeParts(was, lo, hi);
    forall x
      ensures multiset(now[lo..hi])[x] == multiset(was[lo..hi])[x]
    {
      assert multiset(now)[x] == multiset(was)[x];
    }
  }

  lemma ThreeParts(s: seq<Dirent>, lo: nat, hi: nat)
    requires lo <= hi <= |s|
    ensures multiset(s) == multiset(s[..lo]) + multiset(s[lo..hi]) + multiset(s[hi..])
  {
    assert s == s[..lo] + s[lo..hi] + s[hi..];
  }

  lemma RearrangedElement(was: seq<Dirent>, now: seq<Dirent>, lo: nat, hi: nat, i: nat) returns (j: nat)
    requires Rearranged(was, now, lo, hi)
    requires i < |now|
    ensures j < |was| && now[i] == was[j]
    ensures if lo <= i < hi then lo <= j < hi else j == i
  {
    if lo <= i < hi {
      RearrangedSlice(was, now, lo, hi);
      assert now[i] == now[lo..hi][i - lo];
      assert now[i] in multiset(was[lo..hi]);
      assert now[i] in was[lo..hi];
      var k :| 0 <= k < hi - lo && was[lo..hi][k] == now[i];
      j := lo + k;
    } else {
      j := i;
    }
  }

  lemma RearrangedTrans(first: seq<Dirent>, second: seq<Dirent>, third: seq<Dirent>,
                        lo: nat, hi: nat, l: nat, h: nat)
    requires Rearranged(first, second, lo, hi) && Rearranged(second, third, l, h)
    requires lo <= l && h <= hi
    ensures Rearranged(first, third, lo, hi)
  {
  }

  lemma SwapRearranges(was: seq<Dirent>, now: seq<Dirent>, a: nat, b: nat, lo: nat, hi: nat)
    requires lo <= a < hi <= |was| && lo <= b < hi
    requires now == was[a := was[b]][b := was[a]]
    ensures Rearranged(was, now, lo, hi)
  {
  }

  method Swap(dents: array<Dirent>, a: nat, b: nat)
    requires a < dents.Length && b < dents.Length
    modifies dents
    ensures dents[..] == old(dents[..])[a := old(dents[b])][b := old(dents[a])]
  {
    var tmp := dents[a];
    dents[a] := dents[b];
    dents[b] := tmp;
  }

  // ----- vocabulary of the radix pass -----

  /** Everything before `p` has digits no larger than everything from `p` up to `size`. */
  ghost predicate SplitAt(d: seq<Dirent>, size: nat, ks: seq<nat>, p: nat)
    requires size <= |d|
  {
    forall i, j :: 0 <= i < p <= j < size ==> Digits(d[i], ks, 0) <= Digits(d[j], ks, 0)
  }

  /** The entries of `[lo, hi)` share the digits `ks[from..]`. */
  ghost predicate Uniform(d: seq<Dirent>, ks: seq<nat>, lo: nat, hi: nat, from: nat)
    requires hi <= |d| && from <= |ks|
  {
    forall i, j :: lo <= i < hi && lo <= j < hi ==> Digits(d[i], ks, from) == Digits(d[j], ks, from)
  }

  /** Below `q`, entries at least `EIO_SORT_CUTOFF - 1` places apart have ordered digits. */
  ghost predicate DoneUpTo(d: seq<Dirent>, ks: seq<nat>, q: nat)
    requires q <= |d|
  {
    forall i, j :: 0 <= i < i + EIO_SORT_CUTOFF - 1 <= j < q ==> Digits(d[i], ks, 0) <= Digits(d[j], ks, 0)
  }

  /** One slot of the stacks: a partition and a pointer into the bit list. */
  datatype Segment = Segment(base: nat, end: nat, bit: nat)

  /**
   * The partitions still to be visited, the next one on top: they tile the entries from `from`
   * up to `size`, start at split points and share all digits above their bit pointer. The slot of
   * a partition plus its bit pointer never exceeds the number of key bits.
   */
  ghost predicate Pending(d: seq<Dirent>, size: nat, ks: seq<nat>, stk: seq<Segment>, from: nat)
    requires size <= |d|
  {
    && from == (if |stk| == 0 then size else stk[|stk| - 1].base)
    && forall s :: 0 <= s < |stk| ==> PendingSlot(d, size, ks, stk, s, from)
  }

  ghost predicate PendingSlot(d: seq<Dirent>, size: nat, ks: seq<nat>, stk: seq<Segment>, s: nat, from: nat)
    requires size <= |d| && s < |stk|
  {
    var g := stk[s];
    && 1 <= g.bit && s + g.bit <= |ks|
    && g.end == (if s == 0 then size else stk[s - 1].base)
    && from <= g.base <= g.end <= size
    && SplitAt(d, size, ks, g.base)
    && Uniform(d, ks, g.base, g.end, g.bit)
  }

  /** The work left on the stack: a partition at bit pointer b is split at most `2^b - 1` times. */
  ghost function Work(stk: seq<Segment>): nat {
    if stk == [] then 0 else Work(stk[..|stk| - 1]) + Pow2(stk[|stk| - 1].bit)
  }

  // ----- rearranging one range leaves the rest of the pass intact -----

  lemma RearrangedKeepsSplit(was: seq<Dirent>, now: seq<Dirent>, lo: nat, hi: nat, size: nat, ks: seq<nat>, p: nat)
    requires Rearranged(was, now, lo, hi) && hi <= size <= |was|
    requires SplitAt(was, size, ks, p) && (p <= lo || hi <= p)
    ensures SplitAt(now, size, ks, p)
  {
    forall i, j | 0 <= i < p <= j < size
      ensures Digits(now[i], ks, 0) <= Digits(now[j], ks, 0)
    {
      var i' := RearrangedElement(was, now, lo, hi, i);
      var j' := RearrangedElement(was, now, lo, hi, j);
    }
  }

  lemma RearrangedKeepsUniform(was: seq<Dirent>, now: seq<Dirent>, lo: nat, hi: nat, ks: seq<nat>,
                               l: nat, h: nat, from: nat)
    requires Rearranged(was, now, lo, hi)
    requires h <= |was| && from <= |ks|
    requires Uniform(was, ks, l, h, from) && (hi <= l || (l == lo && h == hi))
    ensures Uniform(now, ks, l, h, from)
  {
    forall i, j | l <= i < h && l <= j < h
      ensures Digits(now[i], ks, from) == Digits(now[j], ks, from)
    {
      var i' := RearrangedElement(was, now, lo, hi, i);
      var j' := RearrangedElement(was, now, lo, hi, j);
    }
  }

  lemma RearrangedKeepsDone(was: seq<Dirent>, now: seq<Dirent>, lo: nat, hi: nat, ks: seq<nat>)
    requires Rearranged(was, now, lo, hi)
    requires DoneUpTo(was, ks, lo)
    ensures DoneUpTo(now, ks, lo)
  {
    forall i, j | 0 <= i < i + EIO_SORT_CUTOFF - 1 <= j < lo
      ensures Digits(now[i], ks, 0) <= Digits(now[j], ks, 0)
    {
      assert now[i] == was[i] && now[j] == was[j];
    }
  }

  lemma RearrangedKeepsPending(was: seq<Dirent>, now: seq<Dirent>, lo: nat, hi: nat, size: nat, ks: seq<nat>,
                               stk: seq<Segment>)
    requires Rearranged(was, now, lo, hi) && hi <= size <= |was|
    requires Pending(was, size, ks, stk, hi)
    ensures Pending(now, size, ks, stk, hi)
  {
    forall s | 0 <= s < |stk|
      ensures PendingSlot(now, size, ks, stk, s, hi)
    {
      assert PendingSlot(was, size, ks, stk, s, hi);
      RearrangedKeepsSplit(was, now, lo, hi, size, ks, stk[s].base);
      RearrangedKeepsUniform(was, now, lo, hi, ks, stk[s].base, stk[s].end, stk[s].bit);
    }
  }

  /** Splitting a uniform partition on its next bit gives a split point and two uniform halves. */
  lemma BitPartition(d: seq<Dirent>, size: nat, ks: seq<nat>, lo: nat, mid: nat, hi: nat, bit: nat)
    requires lo <= mid <= hi <= size <= |d| && 1 <= bit <= |ks|
    requires SplitAt(d, size, ks, lo) && SplitAt(d, size, ks, hi)
    requires Uniform(d, ks, lo, hi, bit)
    requires forall i :: lo <= i < mid ==> !EntBit(d[i], ks[bit - 1])
    requires forall i :: mid <= i < hi ==> EntBit(d[i], ks[bit - 1])
    ensures SplitAt(d, size, ks, mid)
    ensures Uniform(d, ks, lo, mid, bit - 1) && Uniform(d, ks, mid, hi, bit - 1)
  {
    forall i, j | 0 <= i < mid <= j < size
      ensures Digits(d[i], ks, 0) <= Digits(d[j], ks, 0)
    {
      if lo <= i && j < hi {
        assert Digits(d[i], ks, bit) == Digits(d[j], ks, bit);
        HighDigitsDecide(d[i], d[j], ks, 0, bit - 1);
      }
    }
  }

  /** A finished partition extends the finished part of the array. */
  lemma FinishPartition(d: seq<Dirent>, size: nat, ks: seq<nat>, lo: nat, hi: nat)
    requires lo <= hi <= size <= |d|
    requires SplitAt(d, size, ks, lo) && DoneUpTo(d, ks, lo)
    requires hi - lo < EIO_SORT_CUTOFF || Uniform(d, ks, lo, hi, 0)
    ensures DoneUpTo(d, ks, hi)
  {
  }

  lemma FinishHalves(d: seq<Dirent>, size: nat, ks: seq<nat>, lo: nat, mid: nat, hi: nat)
    requires lo <= mid <= hi <= size <= |d|
    requires SplitAt(d, size, ks, lo) && SplitAt(d, size, ks, mid) && DoneUpTo(d, ks, lo)
    requires Uniform(d, ks, lo, mid, 0) && Uniform(d, ks, mid, hi, 0)
    ensures DoneUpTo(d, ks, hi)
  {
    FinishPartition(d, size, ks, lo, mid);
    FinishPartition(d, size, ks, mid, hi);
  }

  /** What one bit partition of the current range does to the radix pass's invariants. */
  lemma Repartitioned(was: seq<Dirent>, now: seq<Dirent>, size: nat, ks: seq<nat>, lo: nat, mid: nat, hi: nat,
                      bit: nat, stk: seq<Segment>)
    requires Rearranged(was, now, lo, hi) && lo <= mid <= hi <= size <= |was|
    requires 1 <= bit <= |ks|
    requires forall i :: lo <= i < mid ==> !EntBit(now[i], ks[bit - 1])
    requires forall i :: mid <= i < hi ==> EntBit(now[i], ks[bit - 1])
    requires SplitAt(was, size, ks, lo) && DoneUpTo(was, ks, lo) && Uniform(was, ks, lo, hi, bit)
    requires Pending(was, size, ks, stk, hi)
    ensures SplitAt(now, size, ks, lo) && SplitAt(now, size, ks, mid) && DoneUpTo(now, ks, lo)
    ensures Uniform(now, ks, lo, mid, bit - 1) && Uniform(now, ks, mid, hi, bit - 1)
    ensures Pending(now, size, ks, stk, hi)
  {
    PendingStartsSplit(was, size, ks, stk, hi);
    RearrangedKeepsSplit(was, now, lo, hi, size, ks, lo);
    RearrangedKeepsSplit(was, now, lo, hi, size, ks, hi);
    RearrangedKeepsUniform(was, now, lo, hi, ks, lo, hi, bit);
    RearrangedKeepsDone(was, now, lo, hi, ks);
    RearrangedKeepsPending(was, now, lo, hi, size, ks, stk);
    BitPartition(now, size, ks, lo, mid, hi, bit);
  }

  // ----- the stack of partitions -----

  lemma PendingPop(d: seq<Dirent>, size: nat, ks: seq<nat>, stk: seq<Segment>)
    requires size <= |d| && |stk| > 0
    requires Pending(d, size, ks, stk, stk[|stk| - 1].base)
    ensures var n := |stk| - 1; var g := stk[n];
            && g.base <= g.end <= size && 1 <= g.bit && n + g.bit <= |ks|
            && SplitAt(d, size, ks, g.base) && Uniform(d, ks, g.base, g.end, g.bit)
            && Pending(d, size, ks, stk[..n], g.end)
            && Work(stk) == Work(stk[..n]) + Pow2(g.bit)
  {
    var n := |stk| - 1;
    var from := stk[n].base;
    assert PendingSlot(d, size, ks, stk, n, from);
    forall s | 0 <= s < n
      ensures PendingSlot(d, size, ks, stk[..n], s, stk[n].end)
    {
      assert PendingSlot(d, size, ks, stk, s, from);
      PendingOrdered(d, size, ks, stk, from, s, n - 1);
    }
  }

  /** Lower slots of the stack lie further to the right. */
  lemma {:induction false} PendingOrdered(d: seq<Dirent>, size: nat, ks: seq<nat>, stk: seq<Segment>,
                                          from: nat, lower: nat, upper: nat)
    requires size <= |d| && Pending(d, size, ks, stk, from)
    requires lower <= upper < |stk|
    ensures stk[upper].base <= stk[lower].base
    decreases upper
  {
    if lower < upper {
      assert PendingSlot(d, size, ks, stk, upper, from);
      PendingOrdered(d, size, ks, stk, from, lower, upper - 1);
    }
  }

  lemma PendingStartsSplit(d: seq<Dirent>, size: nat, ks: seq<nat>, stk: seq<Segment>, from: nat)
    requires size <= |d| && Pending(d, size, ks, stk, from)
    ensures from <= size && SplitAt(d, size, ks, from)
  {
    if |stk| > 0 {
      assert PendingSlot(d, size, ks, stk, |stk| - 1, from);
    }
  }

  /** A pushed half and the half at hand are as much work as the range that they come from. */
  lemma PushedWork(stk: seq<Segment>, g: Segment)
    ensures Work(stk + [g]) == Work(stk) + Pow2(g.bit)
    ensures Work(stk + [g]) + Pow2(g.bit) == Work(stk) + Pow2(g.bit + 1)
  {
    assert (stk + [g])[..|stk|] == stk;
  }

  lemma PendingPush(d: seq<Dirent>, size: nat, ks: seq<nat>, stk: seq<Segment>, a: nat, from: nat, bit: nat)
    requires size <= |d| && Pending(d, size, ks, stk, from)
    requires a <= from <= size && 1 <= bit && |stk| + bit <= |ks|
    requires SplitAt(d, size, ks, a) && Uniform(d, ks, a, from, bit)
    ensures Pending(d, size, ks, stk + [Segment(a, from, bit)], a)
  {
    var stk' := stk + [Segment(a, from, bit)];
    assert stk'[..|stk|] == stk;
    forall s | 0 <= s < |stk'|
      ensures PendingSlot(d, size, ks, stk', s, a)
    {
      if s < |stk| {
        assert PendingSlot(d, size, ks, stk, s, from);
      }
    }
  }

  // ----- the radix pass -----

  /** The list of bits to test: slot 0 is the sentinel 0 and a significant level is stored plus one. */
  ghost predicate BitList(bits: seq<nat>, ks: seq<nat>) {
    && |ks| < |bits| == SLOTS
    && bits[0] == 0
    && forall i :: 1 <= i <= |ks| ==> bits[i] == ks[i - 1] + 1
  }

  method PrepareBits(scoreBits: Score, inodeBits: Inode) returns (bits: array<nat>, top: nat)
    ensures fresh(bits)
    ensures top == |AllKeyLevels(scoreBits, inodeBits)|
    ensures BitList(bits[..], AllKeyLevels(scoreBits, inodeBits))
  {
    bits := new nat[SLOTS];
    bits[0] := 0;
    var bit := 1;
    for level := 0 to INO_BITS + SCORE_BITS
      invariant bit == 1 + |KeyLevels(scoreBits, inodeBits, level)|
      invariant bits[0] == 0
      invariant forall i :: 1 <= i < bit ==> bits[i] == KeyLevels(scoreBits, inodeBits, level)[i - 1] + 1
    {
      if LevelBit(scoreBits, inodeBits, level) {
        bits[bit] := level + 1;
        bit := bit + 1;
      }
    }
    top := bit - 1;
  }

  /** Moves the entries of `[lo, hi)` with a clear bit before those with a set bit. */
  method BitPartitionInPlace(dents: array<Dirent>, lo: nat, hi: nat, level: nat) returns (mid: nat)
    requires lo < hi <= dents.Length
    modifies dents
    ensures lo <= mid <= hi
    ensures Rearranged(old(dents[..]), dents[..], lo, hi)
    ensures forall i :: lo <= i < mid ==> !EntBit(dents[i], level)
    ensures forall i :: mid <= i < hi ==> EntBit(dents[i], level)
  {
    var a, b := lo, hi;
    while b > a
      invariant lo <= a <= b <= hi
      invariant Rearranged(old(dents[..]), dents[..], lo, hi)
      invariant forall i :: lo <= i < a ==> !EntBit(dents[i], level)
      invariant forall i :: b <= i < hi ==> EntBit(dents[i], level)
      decreases b - a
    {
      if !EntBit(dents[a], level) {
        a := a + 1;
      } else {
        b := b - 1;
        if !EntBit(dents[b], level) {
          ghost var was := dents[..];
          Swap(dents, a, b);
          SwapRearranges(was, dents[..], a, b, lo, hi);
          RearrangedTrans(old(dents[..]), was, dents[..], lo, hi, lo, hi);
          a := a + 1;
        }
      }
    }
    mid := a;
  }

  /**
   * One round of the inner loop: partitions the current range on its next bit and, unless that was
   * the last bit, pushes the right half.
   */
  method SplitOnce(dents: array<Dirent>, size: nat, bits: seq<nat>, stk: array<Segment>, stkIdx: nat,
                   base: nat, end: nat, bit: nat, ghost ks: seq<nat>)
    returns (a: nat, next: nat)
    requires base < end <= size <= dents.Length && stk.Length == SLOTS
    requires BitList(bits, ks) && 1 <= bit && stkIdx + bit <= |ks|
    requires DoneUpTo(dents[..], ks, base) && SplitAt(dents[..], size, ks, base)
    requires Uniform(dents[..], ks, base, end, bit)
    requires Pending(dents[..], size, ks, stk[..stkIdx], end)
    modifies dents, stk
    ensures base <= a <= end && next == bit - 1
    ensures Rearranged(old(dents[..]), dents[..], base, end)
    ensures stk[..stkIdx] == old(stk[..stkIdx])
    ensures next == 0 ==> DoneUpTo(dents[..], ks, end) && Pending(dents[..], size, ks, stk[..stkIdx], end)
    ensures next == 0 ==> Work(stk[..stkIdx]) < Work(old(stk[..stkIdx])) + Pow2(bit)
    ensures next != 0 ==> DoneUpTo(dents[..], ks, base) && SplitAt(dents[..], size, ks, base)
    ensures next != 0 ==> Uniform(dents[..], ks, base, a, next)
    ensures next != 0 ==> Pending(dents[..], size, ks, stk[..stkIdx + 1], a)
    ensures next != 0 ==> Work(stk[..stkIdx + 1]) + Pow2(next) == Work(old(stk[..stkIdx])) + Pow2(bit)
  {
    ghost var was := dents[..];
    ghost var below := stk[..stkIdx];
    a := BitPartitionInPlace(dents, base, end, bits[bit] - 1);
    ghost var now := dents[..];
    Repartitioned(was, now, size, ks, base, a, end, bit, below);
    next := bit - 1;
    if bits[next] == 0 {
      FinishHalves(now, size, ks, base, a, end);
    } else {
      PendingPush(now, size, ks, below, a, end, next);
      PushedWork(below, Segment(a, end, next));
      stk[stkIdx] := Segment(a, end, next);
      assert stk[..stkIdx + 1] == below + [Segment(a, end, next)];
      assert dents[..] == now;
    }
  }

  /**
   * Visits the partition popped from slot `top` of the stacks: splits it bit by bit, pushing the
   * right half and continuing with the left one, until it is small or no key bits are left.
   */
  method SplitDown(dents: array<Dirent>, size: nat, bits: seq<nat>, stk: array<Segment>, top: nat, popped: Segment,
                   ghost ks: seq<nat>)
    returns (stkIdx: nat, ghost from: nat)
    requires popped.base <= popped.end <= size <= dents.Length && stk.Length == SLOTS
    requires BitList(bits, ks) && 1 <= popped.bit && top + popped.bit <= |ks|
    requires DoneUpTo(dents[..], ks, popped.base) && SplitAt(dents[..], size, ks, popped.base)
    requires Uniform(dents[..], ks, popped.base, popped.end, popped.bit)
    requires Pending(dents[..], size, ks, stk[..top], popped.end)
    modifies dents, stk
    ensures stkIdx < |ks| && from <= size
    ensures Rearranged(old(dents[..]), dents[..], 0, size)
    ensures Pending(dents[..], size, ks, stk[..stkIdx], from)
    ensures DoneUpTo(dents[..], ks, from)
    ensures Work(stk[..stkIdx]) < Work(old(stk[..top])) + Pow2(popped.bit)
  {
    stkIdx := top;
    var base, end, bit := popped.base, popped.end, popped.bit;
    ghost var work := Work(stk[..top]) + Pow2(bit);

    while true
      invariant base <= end <= size && 1 <= bit && stkIdx + bit <= |ks|
      invariant Rearranged(old(dents[..]), dents[..], 0, size)
      invariant DoneUpTo(dents[..], ks, base) && SplitAt(dents[..], size, ks, base)
      invariant Uniform(dents[..], ks, base, end, bit)
      invariant Pending(dents[..], size, ks, stk[..stkIdx], end)
      invariant Work(stk[..stkIdx]) + Pow2(bit) == work
      decreases bit
    {
      if end - base < EIO_SORT_CUTOFF {
        FinishPartition(dents[..], size, ks, base, end);
        break;
      }
      ghost var was := dents[..];
      var a;
      a, bit := SplitOnce(dents, size, bits, stk, stkIdx, base, end, bit, ks);
      RearrangedTrans(old(dents[..]), was, dents[..], 0, size, base, end);
      if bits[bit] == 0 {
        break;
      }
      stkIdx := stkIdx + 1;
      end := a;
    }
    from := end;
  }

  /** The outer loop of the radix pass: visits the partitions on the stacks until none is left. */
  method RadixPass(dents: array<Dirent>, size: nat, bits: seq<nat>, top: nat, ghost ks: seq<nat>)
    requires size <= dents.Length
    requires BitList(bits, ks) && 1 <= top == |ks|
    modifies dents
    ensures Rearranged(old(dents[..]), dents[..], 0, size)
    ensures DoneUpTo(dents[..], ks, size)
  {
    var stk := new Segment[SLOTS];
    var stkIdx: int := 0;
    stk[0] := Segment(0, size, top);
    ghost var from: nat := 0;
    assert stk[..1] == [] + [Segment(0, size, top)];
    PendingPush(dents[..], size, ks, [], 0, size, top);

    while 0 <= stkIdx
      invariant -1 <= stkIdx < |ks| && from <= size
      invariant Rearranged(old(dents[..]), dents[..], 0, size)
      invariant Pending(dents[..], size, ks, stk[..stkIdx + 1], from)
      invariant DoneUpTo(dents[..], ks, from)
      decreases Work(stk[..stkIdx + 1])
    {
      PendingPop(dents[..], size, ks, stk[..stkIdx + 1]);
      assert stk[..stkIdx + 1][..stkIdx] == stk[..stkIdx];
      ghost var was := dents[..];
      var pushed: int;
      pushed, from := SplitDown(dents, size, bits, stk, stkIdx, stk[stkIdx], ks);
      RearrangedTrans(old(dents[..]), was, dents[..], 0, size, 0, size);
      stkIdx := pushed - 1;
    }
  }

  /** A permutation of a covered array is covered. */
  lemma PermutationKeepsCovered(was: seq<Dirent>, now: seq<Dirent>, scoreBits: nat, inodeBits: nat)
    requires multiset(was) == multiset(now)
    requires Covered(was, scoreBits, inodeBits)
    ensures Covered(now, scoreBits, inodeBits)
  {
    assert |was| == |multiset(was)| == |multiset(now)| == |now|;
    forall i | 0 <= i < |now| ensures now[i] in was {
      assert now[i] in multiset(now);
    }
    forall i | 0 <= i < |now| ensures Within(now[i].inode, inodeBits) {
      var k :| 0 <= k < |was| && was[k] == now[i];
    }
    forall i, j, k: nat | 0 <= i < |now| && 0 <= j < |now| && !BitSet(scoreBits, k)
      ensures BitSet(now[i].score, k) <==> BitSet(now[j].score, k)
    {
      var i' :| 0 <= i' < |was| && was[i'] == now[i];
      var j' :| 0 <= j' < |was| && was[j'] == now[j];
    }
  }

  /** Ordered digits are ordered entries, so a finished radix pass leaves a nearly sorted array. */
  lemma DoneIsNearlySorted(was: seq<Dirent>, now: seq<Dirent>, size: nat, scoreBits: nat, inodeBits: nat)
    requires Rearranged(was, now, 0, size) && Covered(was[..size], scoreBits, inodeBits)
    requires DoneUpTo(now, AllKeyLevels(scoreBits, inodeBits), size)
    ensures NearlySorted(now[..size], EIO_SORT_CUTOFF - 1)
  {
    RearrangedSlice(was, now, 0, size);
    assert now[0..size] == now[..size] && was[0..size] == was[..size];
    PermutationKeepsCovered(was[..size], now[..size], scoreBits, inodeBits);
    forall i, j | 0 <= i < i + EIO_SORT_CUTOFF - 1 <= j < size
      ensures Leq(now[..size][i], now[..size][j])
    {
      DigitsDecideOrder(now[..size], i, j, scoreBits, inodeBits);
    }
  }

  /**
   * The radix pass. A size above `EIO_SORT_FAST` needs a nonzero mask: with no bit to test, the
   * first bit pointer is the sentinel itself and the C code steps below it.
   */
  method RadixSort(dents: array<Dirent>, size: nat, scoreBits: Score, inodeBits: Inode)
    requires size <= dents.Length
    requires Covered(dents[..size], scoreBits, inodeBits)
    requires size > EIO_SORT_FAST ==> scoreBits != 0 || inodeBits != 0
    modifies dents
    ensures Rearranged(old(dents[..]), dents[..], 0, size)
    ensures size > EIO_SORT_FAST ==> NearlySorted(dents[..size], EIO_SORT_CUTOFF - 1)
    ensures size <= EIO_SORT_FAST ==> dents[..] == old(dents[..])
  {
    if size <= EIO_SORT_FAST {
      return;
    }
    ghost var was := dents[..];
    assert was[..size] == dents[..size];
    KeyLevelsNonEmpty(scoreBits, inodeBits);
    var bits, bit := PrepareBits(scoreBits, inodeBits);
    RadixPass(dents, size, bits[..], bit, AllKeyLevels(scoreBits, inodeBits));
    DoneIsNearlySorted(was, dents[..], size, scoreBits, inodeBits);
    assert dents[..][..size] == dents[..size];
  }

  // ----- the insertion pass -----

  /** Does an entry come after `v` in the order? */
  ghost function GreaterThan(v: Dirent): Dirent -> bool {
    e => Less(v, e)
  }

  /** In a nearly sorted array few earlier entries come after a given one. */
  lemma FewGreater(d: seq<Dirent>, i: nat)
    requires i < |d| && NearlySorted(d, EIO_SORT_CUTOFF - 1)
    ensures Count(d[..i], GreaterThan(d[i])) <= EIO_SORT_CUTOFF - 2
  {
    if i >= EIO_SORT_CUTOFF - 1 {
      var cut := i - (EIO_SORT_CUTOFF - 2);
      assert d[..i] == d[..cut] + d[cut..i];
      CountConcat(d[..cut], d[cut..i], GreaterThan(d[i]));
      CountAll(d[..cut], GreaterThan(d[i]));
    }
  }

  /** `s` with the entry at `i` moved left to `at`. */
  ghost function Moved(s: seq<Dirent>, at: nat, i: nat): (r: seq<Dirent>)
    requires at <= i < |s|
    ensures |r| == |s|
  {
    s[..at] + [s[i]] + s[at..i] + s[i + 1..]
  }

  /** Where an insertion belongs: after all entries that are not greater. */
  ghost predicate InsertsAt(s: seq<Dirent>, at: nat, i: nat)
    requires at <= i < |s|
  {
    && (forall k :: 0 <= k < at ==> Leq(s[k], s[i]))
    && (forall k :: at <= k < i ==> Less(s[i], s[k]))
  }

  lemma MovedSorts(s: seq<Dirent>, at: nat, i: nat)
    requires at <= i < |s| && Sorted(s[..i]) && InsertsAt(s, at, i)
    ensures Sorted(Moved(s, at, i)[..i + 1])
  {
    assert Moved(s, at, i)[..i + 1] == s[..at] + [s[i]] + s[at..i];
    assert forall k :: 0 <= k < i ==> s[..i][k] == s[k];
  }

  lemma MovedRearranges(s: seq<Dirent>, at: nat, i: nat)
    requires at <= i < |s|
    ensures Rearranged(s, Moved(s, at, i), 0, i + 1)
  {
    assert s == s[..at] + s[at..i] + [s[i]] + s[i + 1..];
  }

  /** The entries an insertion moves are exactly the greater ones before it. */
  lemma MovedDistance(s: seq<Dirent>, at: nat, i: nat)
    requires at <= i < |s| && InsertsAt(s, at, i)
    ensures i - at == Count(s[..i], GreaterThan(s[i]))
  {
    assert s[..i] == s[..at] + s[at..i];
    CountConcat(s[..at], s[at..i], GreaterThan(s[i]));
    CountAll(s[..at], GreaterThan(s[i]));
    CountAll(s[at..i], GreaterThan(s[i]));
  }

  /** Swapping the minimum of the first entries to the front keeps an array nearly sorted. */
  lemma SentinelKeepsNearlySorted(was: seq<Dirent>, now: seq<Dirent>, min: nat)
    requires min < |was| && now == was[0 := was[min]][min := was[0]]
    requires NearlySorted(was, EIO_SORT_CUTOFF - 1)
    requires min == 0 || Less(was[min], was[0])
    requires forall k :: 0 <= k < |was| ==> Leq(was[min], was[k])
    ensures NearlySorted(now, EIO_SORT_CUTOFF - 1)
    ensures min <= EIO_SORT_CUTOFF - 2
  {
    forall i, j | 0 <= i < i + EIO_SORT_CUTOFF - 1 <= j < |now|
      ensures Leq(now[i], now[j])
    {
    }
  }

  /** Finds the least of the entries the C code scans, which is the least of all. */
  method FindMinimum(dents: array<Dirent>, size: nat) returns (min: nat)
    requires 1 <= size <= dents.Length
    requires size > EIO_SORT_FAST ==> NearlySorted(dents[..size], EIO_SORT_CUTOFF - 1)
    ensures min < size && (min == 0 || Less(dents[min], dents[0]))
    ensures forall k :: 0 <= k < size ==> Leq(dents[min], dents[k])
  {
    var scan := if size > EIO_SORT_FAST then EIO_SORT_CUTOFF + 1 else size;
    min := 0;
    var i := scan - 1;
    while i != 0
      invariant 0 <= i < scan && 0 <= min < scan
      invariant Leq(dents[min], dents[0])
      invariant min == 0 || Less(dents[min], dents[0])
      invariant forall k :: i < k < scan ==> Leq(dents[min], dents[k])
      decreases i
    {
      if Cmp(dents[i], dents[min]) < 0 {
        min := i;
      }
      i := i - 1;
    }
    forall k | 0 <= k < size
      ensures Leq(dents[min], dents[k])
    {
      if k >= scan {
        assert Leq(dents[..size][0], dents[..size][k]);
      }
    }
  }

  /** Moves the least entry to the front, as a sentinel for the insertion loop. */
  method PlaceSentinel(dents: array<Dirent>, size: nat)
    requires 1 <= size <= dents.Length
    requires size > EIO_SORT_FAST ==> NearlySorted(dents[..size], EIO_SORT_CUTOFF - 1)
    modifies dents
    ensures Rearranged(old(dents[..]), dents[..], 0, size)
    ensures forall k :: 0 <= k < size ==> Leq(dents[0], dents[k])
    ensures size > EIO_SORT_FAST ==> NearlySorted(dents[..size], EIO_SORT_CUTOFF - 1)
  {
    var min := FindMinimum(dents, size);
    ghost var was := dents[..];
    Swap(dents, 0, min);
    SwapRearranges(was, dents[..], 0, min, 0, size);
    if size > EIO_SORT_FAST {
      assert was[..size] == old(dents[..size]);
      assert dents[..size] == was[..size][0 := was[min]][min := was[0]];
      SentinelKeepsNearlySorted(was[..size], dents[..size], min);
    }
    assert forall k :: 0 <= k < size ==> dents[k] == was[k] || dents[k] == was[0] || dents[k] == was[min];
  }

  /**
   * Moves the entry at `i` left past all greater entries of the sorted prefix. The loop has no
   * bound on `j`: the front entry stops it.
   */
  method InsertOne(dents: array<Dirent>, i: nat) returns (ghost at: nat)
    requires 1 <= i < dents.Length
    requires Sorted(dents[..i]) && Leq(dents[0], dents[i])
    modifies dents
    ensures 1 <= at <= i && InsertsAt(old(dents[..]), at, i)
    ensures dents[..] == Moved(old(dents[..]), at, i)
  {
    ghost var was := dents[..];
    var value := dents[i];
    var j := i - 1;
    while Cmp(dents[j], value) > 0
      invariant 0 <= j < i
      invariant forall k :: 0 <= k <= j || i < k < dents.Length ==> dents[k] == was[k]
      invariant forall k :: j + 1 < k <= i ==> dents[k] == was[k - 1]
      invariant forall k :: j < k < i ==> Less(value, was[k])
      decreases j
    {
      dents[j + 1] := dents[j];
      j := j - 1;
    }
    dents[j + 1] := value;
    at := j + 1;
    forall k | 0 <= k < at
      ensures Leq(was[k], value)
    {
      assert was[..i][k] == was[k] && was[..i][j] == was[j];
    }
    assert dents[..] == Moved(was, at, i);
  }

  /** The state between two insertions: the first `i` entries are sorted, the others as placed. */
  ghost predicate Inserted(placed: seq<Dirent>, d: seq<Dirent>, i: nat) {
    && Rearranged(placed, d, 0, i)
    && Sorted(d[..i])
    && 0 < i && d[0] == placed[0]
  }

  /** What one insertion does to that state. */
  lemma InsertionStep(placed: seq<Dirent>, was: seq<Dirent>, at: nat, i: nat)
    requires Inserted(placed, was, i) && 1 <= at <= i < |placed| && InsertsAt(was, at, i)
    ensures Inserted(placed, Moved(was, at, i), i + 1)
    ensures i - at == Count(placed[..i], GreaterThan(placed[i]))
  {
    MovedSorts(was, at, i);
    MovedRearranges(was, at, i);
    MovedDistance(was, at, i);
    RearrangedSlice(placed, was, 0, i);
    assert placed[0..i] == placed[..i] && was[0..i] == was[..i];
    CountPermuted(was[..i], placed[..i], GreaterThan(placed[i]));
  }

  /** An insertion in a nearly sorted array moves few entries. */
  lemma InsertionShift(placed: seq<Dirent>, size: nat, shift: nat, i: nat)
    requires i < size <= |placed| && NearlySorted(placed[..size], EIO_SORT_CUTOFF - 1)
    requires shift == Count(placed[..i], GreaterThan(placed[i]))
    ensures shift <= EIO_SORT_CUTOFF - 2
  {
    FewGreater(placed[..size], i);
    assert placed[..size][..i] == placed[..i];
  }

  /** One round of the insertion pass; says how many entries it moved. */
  method InsertNext(dents: array<Dirent>, size: nat, i: nat, ghost placed: seq<Dirent>) returns (ghost moved: nat)
    requires 1 <= i < size <= dents.Length == |placed| && Inserted(placed, dents[..], i)
    requires Leq(placed[0], placed[i])
    requires size > EIO_SORT_FAST ==> NearlySorted(placed[..size], EIO_SORT_CUTOFF - 1)
    modifies dents
    ensures Inserted(placed, dents[..], i + 1)
    ensures moved == Count(placed[..i], GreaterThan(placed[i]))
    ensures size > EIO_SORT_FAST ==> moved <= EIO_SORT_CUTOFF - 2
  {
    ghost var was := dents[..];
    assert was[..i] == dents[..i] && was[i] == placed[i];
    ghost var at := InsertOne(dents, i);
    InsertionStep(placed, was, at, i);
    moved := i - at;
    if size > EIO_SORT_FAST {
      InsertionShift(placed, size, moved, i);
    }
  }

  /**
   * The insertion pass. `shifts[k]` is how many entries the insertion of entry `k + 1` moved;
   * after a radix pass that is at most `EIO_SORT_CUTOFF - 2`, so the pass is linear.
   */
  method InsertionSort(dents: array<Dirent>, size: nat) returns (ghost shifts: seq<nat>)
    requires 1 <= size <= dents.Length
    requires size > EIO_SORT_FAST ==> NearlySorted(dents[..size], EIO_SORT_CUTOFF - 1)
    modifies dents
    ensures Sorted(dents[..size])
    ensures Rearranged(old(dents[..]), dents[..], 0, size)
    ensures |shifts| == size - 1
    ensures size > EIO_SORT_FAST ==> forall k :: 0 <= k < |shifts| ==> shifts[k] <= EIO_SORT_CUTOFF - 2
  {
    PlaceSentinel(dents, size);
    ghost var placed := dents[..];
    shifts := [];
    var i := 1;
    while i < size
      invariant 1 <= i <= size && |shifts| == i - 1
      invariant Inserted(placed, dents[..], i)
      invariant size > EIO_SORT_FAST ==> forall k :: 0 <= k < |shifts| ==> shifts[k] <= EIO_SORT_CUTOFF - 2
    {
      ghost var moved := InsertNext(dents, size, i, placed);
      shifts := shifts + [moved];
      i := i + 1;
    }
    assert dents[..][..size] == dents[..size];
    RearrangedTrans(old(dents[..]), placed, dents[..], 0, size, 0, size);
  }

  /** Sorts the first `size` entries by (score, inode). */
  method Sort(dents: array<Dirent>, size: nat, scoreBits: Score, inodeBits: Inode)
    requires size <= dents.Length
    requires Covered(dents[..size], scoreBits, inodeBits)
    requires size > EIO_SORT_FAST ==> scoreBits != 0 || inodeBits != 0
    modifies dents
    ensures Sorted(dents[..size])
    ensures multiset(dents[..size]) == multiset(old(dents[..size]))
    ensures dents[size..] == old(dents[size..])
  {
    if size <= 1 {
      return;
    }
    ghost var was := dents[..];
    RadixSort(dents, size, scoreBits, inodeBits);
    ghost var mid := dents[..];
    ghost var shifts := InsertionSort(dents, size);
    RearrangedTrans(was, mid, dents[..], 0, size, 0, size);
    RearrangedSlice(was, dents[..], 0, size);
    assert dents[..][0..size] == dents[..size] && was[0..size] == old(dents[..size]);
  }
}
