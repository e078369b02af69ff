/** Directory entries, their order, and the bits a radix sort reads to establish that order. */
module Dirents {
  import opened Bits

  const EIO_SORT_CUTOFF: nat := 30
  const EIO_SORT_FAST: nat := 60

  const INO_BITS: nat := 64
  const SCORE_BITS: nat := 8

  /** The values of a 64-bit `eio_ino_t`. */
  type Inode = x: nat | x < 0x1_0000_0000_0000_0000

  /** The values a non-negative `signed char` can hold. */
  type Score = x: nat | x < 0x80

  /** `nameofs` and `namelen` select a name in the names buffer. */
  datatype Dirent = Dirent(nameofs: nat, namelen: nat, kind: nat, score: Score, inode: Inode)

  predicate Less(a: Dirent, b: Dirent) {
    a.score < b.score || (a.score == b.score && a.inode < b.inode)
  }

  predicate Leq(a: Dirent, b: Dirent) {
    !Less(b, a)
  }

  /** The comparison of the C code; the sign of its result is the order `Less`. */
  function Cmp(a: Dirent, b: Dirent): (r: int)
    ensures -0x80 <= r < 0x80
    ensures r < 0 <==> Less(a, b)
    ensures r > 0 <==> Less(b, a)
    ensures r == 0 <==> a.score == b.score && a.inode == b.inode
  {
    if a.score - b.score != 0 then a.score - b.score
    else if a.inode < b.inode then -1
    else if a.inode > b.inode then 1
    else 0
  }

  ghost predicate Sorted(d: seq<Dirent>) {
    forall i, j :: 0 <= i < j < |d| ==> Leq(d[i], d[j])
  }

  /** Entries at least `gap` places apart are in order. */
  ghost predicate NearlySorted(d: seq<Dirent>, gap: nat) {
    forall i, j :: 0 <= i < i + gap <= j < |d| ==> Leq(d[i], d[j])
  }

  /**
   * Bit `level` of the pair (score, inode): levels 0..63 are the bits of the inode and levels
   * 64..71 those of the score, so a higher level is more significant for the order.
   */
  predicate LevelBit(score: nat, inode: nat, level: nat) {
    if level < INO_BITS then BitSet(inode, level) else BitSet(score, level - INO_BITS)
  }

  predicate EntBit(e: Dirent, level: nat) {
    LevelBit(e.score, e.inode, level)
  }

  /** The significant levels below `upto`, in increasing order. */
  function KeyLevels(scoreBits: nat, inodeBits: nat, upto: nat): (ks: seq<nat>)
    ensures |ks| <= upto
    ensures forall i :: 0 <= i < |ks| ==> ks[i] < upto
  {
    if upto == 0 then []
    else
      var below := KeyLevels(scoreBits, inodeBits, upto - 1);
      if LevelBit(scoreBits, inodeBits, upto - 1) then below + [upto - 1] else below
  }

  function AllKeyLevels(scoreBits: nat, inodeBits: nat): seq<nat> {
    KeyLevels(scoreBits, inodeBits, INO_BITS + SCORE_BITS)
  }

  /**
   * What a caller of the sort promises: `inodeBits` has every bit that any inode has, and scores
   * differ only in bits of `scoreBits`.
   */
  ghost predicate Covered(d: seq<Dirent>, scoreBits: nat, inodeBits: nat) {
    && (forall i :: 0 <= i < |d| ==> Within(d[i].inode, inodeBits))
    && (forall i, j, k: nat :: 0 <= i < |d| && 0 <= j < |d| && !BitSet(scoreBits, k) ==>
          (BitSet(d[i].score, k) <==> BitSet(d[j].score, k)))
  }

  /** The number whose binary digits are the bits of `e` at the levels `ks[from..]`. */
  ghost function Digits(e: Dirent, ks: seq<nat>, from: nat): nat
    requires from <= |ks|
    decreases |ks| - from
  {
    if from == |ks| then 0
    else 2 * Digits(e, ks, from + 1) + if EntBit(e, ks[from]) then 1 else 0
  }

  /** A difference in high digits decides the comparison of all digits. */
  lemma {:induction false} HighDigitsDecide(a: Dirent, b: Dirent, ks: seq<nat>, lo: nat, hi: nat)
    requires lo <= hi <= |ks|
    requires Digits(a, ks, hi) < Digits(b, ks, hi)
    ensures Digits(a, ks, lo) < Digits(b, ks, lo)
    decreases hi - lo
  {
    if lo < hi {
      HighDigitsDecide(a, b, ks, lo + 1, hi);
    }
  }

  // ----- comparing digits is comparing (score, inode) -----

  ghost predicate UpperLess(a: Dirent, b: Dirent, level: nat) {
    if level < INO_BITS then
      a.score < b.score || (a.score == b.score && Shr(a.inode, level) < Shr(b.inode, level))
    else Shr(a.score, level - INO_BITS) < Shr(b.score, level - INO_BITS)
  }

  lemma PowersOfByteAndWord()
    ensures Pow2(7) == 0x80
    ensures Pow2(8) == 0x100
    ensures Pow2(64) == 0x1_0000_0000_0000_0000
  {
    assert Pow2(4) == 16;
    assert Pow2(8) == 0x100;
    assert Pow2(16) == 0x1_0000 by {
      assert Pow2(12) == 0x1000;
    }
    assert Pow2(24) == 0x100_0000 by { assert Pow2(20) == 0x10_0000; }
    assert Pow2(32) == 0x1_0000_0000 by { assert Pow2(28) == 0x1000_0000; }
    assert Pow2(40) == 0x100_0000_0000 by { assert Pow2(36) == 0x10_0000_0000; }
    assert Pow2(48) == 0x1_0000_0000_0000 by { assert Pow2(44) == 0x1000_0000_0000; }
    assert Pow2(56) == 0x100_0000_0000_0000 by { assert Pow2(52) == 0x10_0000_0000_0000; }
    assert Pow2(64) == 0x1_0000_0000_0000_0000 by { assert Pow2(60) == 0x1000_0000_0000_0000; }
  }

  /** One more level compares like one more digit. */
  lemma UpperStep(a: Dirent, b: Dirent, level: nat)
    requires level < INO_BITS + SCORE_BITS
    ensures UpperLess(a, b, level) <==>
            UpperLess(a, b, level + 1) ||
            (!UpperLess(b, a, level + 1) && !EntBit(a, level) && EntBit(b, level))
  {
    if level < INO_BITS {
      ShrStep(a.inode, level);
      ShrStep(b.inode, level);
      if level + 1 == INO_BITS {
        PowersOfByteAndWord();
        ShrExhausts(a.inode, INO_BITS);
        ShrExhausts(b.inode, INO_BITS);
      }
    } else {
      ShrStep(a.score, level - INO_BITS);
      ShrStep(b.score, level - INO_BITS);
    }
  }

  ghost predicate AgreeOffMask(a: Dirent, b: Dirent, scoreBits: nat, inodeBits: nat) {
    forall level: nat :: level < INO_BITS + SCORE_BITS && !LevelBit(scoreBits, inodeBits, level) ==>
      (EntBit(a, level) <==> EntBit(b, level))
  }

  /** `KeyLevels` grows as a prefix of the full list of levels. */
  lemma {:induction false} KeyLevelsPrefix(scoreBits: nat, inodeBits: nat, m: nat, n: nat)
    requires m <= n
    ensures KeyLevels(scoreBits, inodeBits, m) <= KeyLevels(scoreBits, inodeBits, n)
    decreases n
  {
    if m < n {
      KeyLevelsPrefix(scoreBits, inodeBits, m, n - 1);
    }
  }

  lemma {:induction false} DigitsCompareUpper(a: Dirent, b: Dirent, scoreBits: nat, inodeBits: nat, level: nat)
    requires level <= INO_BITS + SCORE_BITS
    requires AgreeOffMask(a, b, scoreBits, inodeBits)
    ensures |KeyLevels(scoreBits, inodeBits, level)| <= |AllKeyLevels(scoreBits, inodeBits)|
    ensures
      var ks := AllKeyLevels(scoreBits, inodeBits);
      var i := |KeyLevels(scoreBits, inodeBits, level)|;
      && (Digits(a, ks, i) < Digits(b, ks, i) <==> UpperLess(a, b, level))
      && (Digits(b, ks, i) < Digits(a, ks, i) <==> UpperLess(b, a, level))
    decreases INO_BITS + SCORE_BITS - level
  {
    var ks := AllKeyLevels(scoreBits, inodeBits);
    if level == INO_BITS + SCORE_BITS {
      PowersOfByteAndWord();
      ShrExhausts(a.score, SCORE_BITS);
      ShrExhausts(b.score, SCORE_BITS);
    } else {
      DigitsCompareUpper(a, b, scoreBits, inodeBits, level + 1);
      KeyLevelsPrefix(scoreBits, inodeBits, level + 1, INO_BITS + SCORE_BITS);
      UpperStep(a, b, level);
      UpperStep(b, a, level);
      var i := |KeyLevels(scoreBits, inodeBits, level)|;
      if LevelBit(scoreBits, inodeBits, level) {
        assert KeyLevels(scoreBits, inodeBits, level + 1)[i] == level;
        assert ks[i] == level;
      }
    }
  }

  /** On entries that the caller's masks cover, the digits at the key levels decide the order. */
  lemma DigitsDecideOrder(d: seq<Dirent>, i: nat, j: nat, scoreBits: nat, inodeBits: nat)
    requires i < |d| && j < |d|
    requires Covered(d, scoreBits, inodeBits)
    ensures
      var ks := AllKeyLevels(scoreBits, inodeBits);
      Digits(d[i], ks, 0) <= Digits(d[j], ks, 0) <==> Leq(d[i], d[j])
  {
    var a, b := d[i], d[j];
    forall level: nat | level < INO_BITS + SCORE_BITS && !LevelBit(scoreBits, inodeBits, level)
      ensures EntBit(a, level) <==> EntBit(b, level)
    {
      if level >= INO_BITS {
        assert !BitSet(scoreBits, level - INO_BITS);
      }
    }
    DigitsCompareUpper(a, b, scoreBits, inodeBits, 0);
    assert KeyLevels(scoreBits, inodeBits, 0) == [];
    assert Shr(a.inode, 0) == a.inode && Shr(b.inode, 0) == b.inode;
  }

  /** The sort has a bit to test exactly when one of the masks is nonzero. */
  lemma KeyLevelsNonEmpty(scoreBits: Score, inodeBits: Inode)
    ensures AllKeyLevels(scoreBits, inodeBits) != [] <==> scoreBits != 0 || inodeBits != 0
  {
    PowersOfByteAndWord();
    if scoreBits == 0 && inodeBits == 0 {
      NoKeyLevels(INO_BITS + SCORE_BITS);
    } else if inodeBits != 0 {
      var k := SomeBitSet(inodeBits);
      if k >= INO_BITS {
        Pow2Monotone(INO_BITS, k);
      }
      HasKeyLevel(scoreBits, inodeBits, k, INO_BITS + SCORE_BITS);
    } else {
      var k := SomeBitSet(scoreBits);
      if k >= SCORE_BITS {
        Pow2Monotone(SCORE_BITS, k);
      }
      HasKeyLevel(scoreBits, inodeBits, INO_BITS + k, INO_BITS + SCORE_BITS);
    }
  }

  lemma {:induction false} NoKeyLevels(upto: nat)
    ensures KeyLevels(0, 0, upto) == []
  {
    if upto > 0 {
      NoKeyLevels(upto - 1);
      if upto - 1 < INO_BITS {
        NoBitsInZero(upto - 1);
      } else {
        NoBitsInZero(upto - 1 - INO_BITS);
      }
    }
  }

  lemma {:induction false} HasKeyLevel(scoreBits: nat, inodeBits: nat, level: nat, upto: nat)
    requires level < upto && LevelBit(scoreBits, inodeBits, level)
    ensures level in KeyLevels(scoreBits, inodeBits, upto)
  {
    if level < upto - 1 {
      HasKeyLevel(scoreBits, inodeBits, level, upto - 1);
    }
  }
}
