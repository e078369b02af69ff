/** Reading a directory into a names buffer and sorted entries, and decoding the result for PHP. */
module Readdir {
  import opened Bits
  import opened CStrings
  import opened Counting
  import opened Dirents
  import DentSort

  const EIO_DT_UNKNOWN: nat := 0
  const EIO_DT_DIR: nat := 4
  const NAMES_ALLOC: nat := 4096 - 8 * 4
  const DENTS_ALLOC: nat := 128
  const DIRS_FIRST_SCORE_BITS: Score := 7

  /** What `readdir` returns: a name, an inode number and a `d_type` byte. */
  datatype RawEntry = RawEntry(name: string, ino: Inode, dtype: nat)

  /** A name as `struct dirent` can hold it. */
  predicate NameOk(name: string) {
    |name| < 0x1_0000 && NUL !in name
  }

  ghost predicate StreamOk(stream: seq<RawEntry>) {
    forall i :: 0 <= i < |stream| ==> NameOk(stream[i].name)
  }

  /** The readdir flags; `custom` stands for the bits reserved for applications. */
  datatype Flags = Flags(dents: bool, dirsFirst: bool, statOrder: bool, foundUnknown: bool, custom: nat)
  {
    predicate NonZero() {
      dents || dirsFirst || statOrder || foundUnknown || custom != 0
    }

    /** The sorting flags mean nothing unless entries are wanted. */
    function Effective(): Flags {
      if dents then this else this.(dirsFirst := false, statOrder := false)
    }
  }

  /** The character of a C string at `i`: its terminator at the end. */
  function At(name: string, i: nat): char
    requires i <= |name|
  {
    if i < |name| then name[i] else NUL
  }

  /** The test that skips `.` and `..`, evaluated left to right as in C. */
  predicate Kept(name: string)
    requires NUL !in name
  {
    At(name, 0) != '.' || (At(name, 1) != NUL && (At(name, 1) != '.' || At(name, 2) != NUL))
  }

  /** The values of `d_type` with an `EIO_DT_*` constant of the same value. */
  function KindOf(dtype: nat): nat {
    if dtype in {1, 2, 4, 6, 8, 10, 12, 14} then dtype else EIO_DT_UNKNOWN
  }

  predicate HasDot(name: string) {
    '.' in name
  }

  /** The sort class of an entry; `len` counts the terminator of the name. */
  function ScoreOf(name: string, kind: nat, dirsFirst: bool): (s: Score)
    ensures s <= 7
    ensures dirsFirst ==> (s == 0 <==> kind == EIO_DT_DIR)
    ensures !dirsFirst ==> s == 7
    ensures kind != EIO_DT_UNKNOWN && kind != EIO_DT_DIR ==> s == 7
  {
    var len := |name| + 1;
    if !dirsFirst then 7
    else if kind == EIO_DT_UNKNOWN then
      if At(name, 0) == '.' then 1
      else if !HasDot(name) then
        if len <= 2 then 4 - len else if len <= 4 then 4 else if len <= 7 then 5 else 6
      else 7
    else if kind == EIO_DT_DIR then 0
    else 7
  }

  /**
   * With `DIRS_FIRST`, directories come first, then the entries of unknown type, likely directories
   * before others: names with a leading dot, then names without a dot by length, in the classes of 1,
   * 2 to 3, 4 to 6 and more characters, then other names with a dot, in one class with known files.
   */
  lemma GuessOrder(a: string, b: string, kind: nat)
    requires a != "" && b != "" && kind != EIO_DT_UNKNOWN && kind != EIO_DT_DIR
    ensures var x, y := ScoreOf(a, EIO_DT_UNKNOWN, true), ScoreOf(b, EIO_DT_UNKNOWN, true);
            && ScoreOf(a, EIO_DT_DIR, true) < x <= ScoreOf(b, kind, true)
            && (a[0] == '.' ==> (x < y <==> b[0] != '.'))
            && ('.' !in a && '.' !in b ==>
                  (x < y <==> |a| <= 1 < |b| || |a| <= 3 < |b| || |a| <= 6 < |b|))
            && ('.' !in a && '.' in b && b[0] != '.' ==> x < y)
            && ('.' in a && a[0] != '.' <==> x == ScoreOf(b, kind, true))
  {
    assert a[0] in a && b[0] in b;
  }

  // ----- the specification: what the directory contains -----

  /** The entries of the stream that pass the test, in stream order. */
  ghost function KeptOf(stream: seq<RawEntry>): (r: seq<RawEntry>)
    requires StreamOk(stream)
  {
    if stream == [] then []
    else
      var last := stream[|stream| - 1];
      var front := KeptOf(stream[..|stream| - 1]);
      if Kept(last.name) then front + [last] else front
  }

  /** What is kept are exactly the entries other than `.` and `..`. */
  lemma {:induction false} KeptAreTheOthers(stream: seq<RawEntry>)
    requires StreamOk(stream)
    ensures StreamOk(KeptOf(stream))
    ensures forall e :: e in KeptOf(stream) <==> e in stream && e.name != "." && e.name != ".."
  {
    if stream != [] {
      var front, last := stream[..|stream| - 1], stream[|stream| - 1];
      KeptAreTheOthers(front);
      KeptIsNotDot(last.name);
      assert stream == front + [last];
    }
  }

  /** Each of them as often as in the stream. */
  lemma {:induction false} KeptAsOften(stream: seq<RawEntry>, e: RawEntry)
    requires StreamOk(stream)
    ensures multiset(KeptOf(stream))[e] == if e.name in {".", ".."} then 0 else multiset(stream)[e]
  {
    if stream != [] {
      var front, last := stream[..|stream| - 1], stream[|stream| - 1];
      KeptAsOften(front, e);
      KeptIsNotDot(last.name);
      assert stream == front + [last];
    }
  }

  lemma KeptIsNotDot(name: string)
    requires NUL !in name
    ensures Kept(name) <==> name != "." && name != ".."
  {
    if |name| > 0 { assert name[0] in name; }
    if |name| > 1 { assert name[1] in name; }
    if |name| > 2 { assert name[2] in name; }
    if |name| == 1 && name[0] == '.' { assert name == "."; }
    if |name| == 2 && name[0] == '.' && name[1] == '.' { assert name == ".."; }
  }

  /** The names buffer: every name followed by its terminator. */
  ghost function Packed(ks: seq<RawEntry>): string {
    if ks == [] then [] else Packed(ks[..|ks| - 1]) + ks[|ks| - 1].name + [NUL]
  }

  /** The entry made for `e` whose name is stored at `ofs`. */
  function MakeDirent(e: RawEntry, ofs: nat, dirsFirst: bool): (d: Dirent)
    ensures d.nameofs == ofs && d.namelen == |e.name| && d.inode == e.ino && d.kind == KindOf(e.dtype)
    ensures d.score == ScoreOf(e.name, d.kind, dirsFirst)
  {
    Dirent(ofs, |e.name|, KindOf(e.dtype), ScoreOf(e.name, KindOf(e.dtype), dirsFirst), e.ino)
  }

  ghost function DirentsOf(ks: seq<RawEntry>, dirsFirst: bool): (r: seq<Dirent>)
    ensures |r| == |ks|
  {
    if ks == [] then []
    else
      var front := ks[..|ks| - 1];
      DirentsOf(front, dirsFirst) + [MakeDirent(ks[|ks| - 1], |Packed(front)|, dirsFirst)]
  }

  ghost predicate AnyUnknown(ks: seq<RawEntry>) {
    exists i :: 0 <= i < |ks| && KindOf(ks[i].dtype) == EIO_DT_UNKNOWN
  }

  ghost function InodeMask(ks: seq<RawEntry>): nat {
    if ks == [] then 0 else Or(InodeMask(ks[..|ks| - 1]), ks[|ks| - 1].ino)
  }

  ghost predicate AllInodesZero(ks: seq<RawEntry>) {
    forall i :: 0 <= i < |ks| ==> ks[i].ino == 0
  }

  ghost function IsDirEntry(): RawEntry -> bool {
    (e: RawEntry) => KindOf(e.dtype) == EIO_DT_DIR
  }

  ghost function IsDirDirent(): Dirent -> bool {
    (d: Dirent) => d.kind == EIO_DT_DIR
  }

  /**
   * When the sort that follows reading steps below its bit list: it runs on more than
   * `EIO_SORT_FAST` entries with no score bits, and every inode number is 0.
   */
  ghost predicate SortUndefined(ks: seq<RawEntry>, flags: Flags) {
    && AllInodesZero(ks)
    && var f := flags.Effective();
       if f.statOrder then !f.dirsFirst && |ks| > EIO_SORT_FAST
       else f.dirsFirst && !f.foundUnknown && !AnyUnknown(ks) && Count(ks, IsDirEntry()) > EIO_SORT_FAST
  }

  lemma {:induction false} InodeMaskCovers(ks: seq<RawEntry>, i: nat)
    requires i < |ks|
    ensures Within(ks[i].ino, InodeMask(ks))
  {
    var front, last := ks[..|ks| - 1], ks[|ks| - 1];
    OrContains(InodeMask(front), last.ino);
    if i < |front| {
      InodeMaskCovers(front, i);
    }
  }

  lemma {:induction false} InodeMaskBounded(ks: seq<RawEntry>)
    ensures InodeMask(ks) < 0x1_0000_0000_0000_0000
    ensures InodeMask(ks) == 0 <==> AllInodesZero(ks)
  {
    if ks != [] {
      var front, last := ks[..|ks| - 1], ks[|ks| - 1];
      InodeMaskBounded(front);
      PowersOfByteAndWord();
      OrBounded(InodeMask(front), last.ino, 64);
      assert forall i :: 0 <= i < |front| ==> ks[i] == front[i];
    }
  }

  /** How many entries the sort after reading is given, and with which score mask. */
  ghost function SortSize(ks: seq<RawEntry>, flags: Flags): nat {
    var f := flags.Effective();
    if f.statOrder then |ks|
    else if !f.dirsFirst then 0
    else if f.foundUnknown || AnyUnknown(ks) then |ks|
    else Count(ks, IsDirEntry())
  }

  ghost function SortScoreBits(ks: seq<RawEntry>, flags: Flags): Score {
    var f := flags.Effective();
    if f.statOrder then if f.dirsFirst then DIRS_FIRST_SCORE_BITS else 0
    else if f.dirsFirst && (f.foundUnknown || AnyUnknown(ks)) then DIRS_FIRST_SCORE_BITS
    else 0
  }

  /** The undefined case is exactly a sort of more than `EIO_SORT_FAST` entries with no bit to test. */
  lemma SortUndefinedExactly(ks: seq<RawEntry>, flags: Flags)
    ensures InodeMask(ks) < 0x1_0000_0000_0000_0000
    ensures SortUndefined(ks, flags) <==>
              SortSize(ks, flags) > EIO_SORT_FAST && AllKeyLevels(SortScoreBits(ks, flags), InodeMask(ks)) == []
  {
    InodeMaskBounded(ks);
    KeyLevelsNonEmpty(SortScoreBits(ks, flags), InodeMask(ks));
  }

  /** It happens: many files whose inode numbers the system does not tell, listed in `STAT_ORDER`. */
  lemma SortUndefinedHappens()
    ensures SortUndefined(seq(61, _ => RawEntry("a", 0, 8)), Flags(true, false, true, false, 0))
  {
  }

  lemma {:induction false} OrBounded(x: nat, y: nat, k: nat)
    requires x < Pow2(k) && y < Pow2(k)
    ensures Or(x, y) < Pow2(k)
    ensures Or(x, y) == 0 <==> x == 0 && y == 0
    decreases k
  {
    if k > 0 && (x != 0 || y != 0) {
      OrBounded(x / 2, y / 2, k - 1);
    }
  }

  lemma AppendedName(front: string, name: string)
    ensures var all := front + name + [NUL];
            && all[|front|..|front| + |name|] == name && all[|front| + |name|] == NUL && all[..|front|] == front
  {
  }

  lemma PrefixSlice<T>(s: seq<T>, n: nat, a: nat, b: nat)
    requires a <= b <= n <= |s|
    ensures s[..n][a..b] == s[a..b]
  {
  }

  /** The entry `d`, made from entry `i`, selects its name in the names buffer. */
  ghost predicate Selects(ks: seq<RawEntry>, d: Dirent, dirsFirst: bool, i: nat)
    requires i < |ks|
  {
    && d == MakeDirent(ks[i], d.nameofs, dirsFirst)
    && d.nameofs + d.namelen < |Packed(ks)|
    && Packed(ks)[d.nameofs..d.nameofs + d.namelen] == ks[i].name
    && Packed(ks)[d.nameofs + d.namelen] == NUL
    && d.nameofs == |Packed(ks[..i])|
  }

  lemma GrowsAndSelects(front: seq<RawEntry>, last: RawEntry, d: Dirent, dirsFirst: bool, i: nat)
    requires i < |front| && Selects(front, d, dirsFirst, i)
    ensures Selects(front + [last], d, dirsFirst, i)
  {
    var ks, text := front + [last], Packed(front);
    assert ks[..|ks| - 1] == front && ks[..i] == front[..i];
    AppendedName(text, last.name);
    PrefixSlice(Packed(ks), |text|, d.nameofs, d.nameofs + d.namelen);
    assert Packed(ks)[d.nameofs + d.namelen] == Packed(ks)[..|text|][d.nameofs + d.namelen];
  }

  lemma LastSelects(front: seq<RawEntry>, last: RawEntry, dirsFirst: bool)
    ensures Selects(front + [last], MakeDirent(last, |Packed(front)|, dirsFirst), dirsFirst, |front|)
  {
    var ks := front + [last];
    assert ks[..|front|] == front;
    AppendedName(Packed(front), last.name);
  }

  /** Entry `i` selects its own name in the names buffer. */
  lemma {:induction false} DirentSelectsName(ks: seq<RawEntry>, dirsFirst: bool, i: nat)
    requires i < |ks|
    ensures Selects(ks, DirentsOf(ks, dirsFirst)[i], dirsFirst, i)
  {
    var front, last := ks[..|ks| - 1], ks[|ks| - 1];
    assert ks == front + [last];
    if i < |front| {
      DirentSelectsName(front, dirsFirst, i);
      GrowsAndSelects(front, last, DirentsOf(front, dirsFirst)[i], dirsFirst, i);
    } else {
      LastSelects(front, last, dirsFirst);
    }
  }

  lemma {:induction false} DirCounts(ks: seq<RawEntry>, dirsFirst: bool)
    ensures Count(DirentsOf(ks, dirsFirst), IsDirDirent()) == Count(ks, IsDirEntry())
  {
    if ks != [] {
      DirCounts(ks[..|ks| - 1], dirsFirst);
      CountAppend(DirentsOf(ks[..|ks| - 1], dirsFirst), DirentsOf(ks, dirsFirst)[|ks| - 1], IsDirDirent());
    }
  }

  // ----- the buffers -----

  method Realloc<T(0)>(a: array<T>, size: nat) returns (b: array<T>)
    requires a.Length <= size
    ensures fresh(b) && b.Length == size
    ensures forall k :: 0 <= k < a.Length ==> b[k] == a[k]
  {
    b := new T[size];
    for k := 0 to a.Length
      invariant forall i :: 0 <= i < k ==> b[i] == a[i]
    {
      b[k] := a[k];
    }
  }

  /** Doubles the names buffer until `len` more characters fit. */
  method EnsureNames(names: array<char>, namesoffs: nat, len: nat) returns (r: array<char>)
    requires namesoffs <= names.Length && 0 < names.Length
    ensures r == names || fresh(r)
    ensures namesoffs + len <= r.Length && names.Length <= r.Length
    ensures r[..namesoffs] == names[..namesoffs]
  {
    r := names;
    while namesoffs + len > r.Length
      invariant r == names || fresh(r)
      invariant names.Length <= r.Length
      invariant forall k :: 0 <= k < namesoffs ==> r[k] == names[k]
      decreases namesoffs + len - r.Length
    {
      r := Realloc(r, 2 * r.Length);
    }
  }

  /** Appends a name and its terminator to the names buffer, growing it as needed. */
  method AppendName(names: array<char>, namesoffs: nat, name: string) returns (r: array<char>)
    requires namesoffs <= names.Length && 0 < names.Length
    modifies names
    ensures r == names || fresh(r)
    ensures namesoffs + |name| + 1 <= r.Length
    ensures r[..namesoffs + |name| + 1] == old(names[..namesoffs]) + name + [NUL]
  {
    var len := |name| + 1;
    ghost var before := names[..namesoffs];
    r := EnsureNames(names, namesoffs, len);
    for k := 0 to len
      invariant r == names || fresh(r)
      invariant r[..namesoffs] == before
      invariant forall i :: 0 <= i < k ==> r[namesoffs + i] == At(name, i)
    {
      r[namesoffs + k] := At(name, k);
    }
    forall i | 0 <= i < len
      ensures r[namesoffs..namesoffs + len][i] == (name + [NUL])[i]
    {
      assert r[namesoffs + i] == At(name, i);
    }
    assert r[namesoffs..namesoffs + len] == name + [NUL];
    assert r[..namesoffs + len] == r[..namesoffs] + r[namesoffs..namesoffs + len];
  }

  /** Stores an entry behind the `dentoffs` entries already there, doubling a full array first. */
  method AppendDirent(dents: array<Dirent>, dentoffs: nat, d: Dirent) returns (r: array<Dirent>)
    requires dentoffs <= dents.Length && 0 < dents.Length
    modifies dents
    ensures r == dents || fresh(r)
    ensures dentoffs + 1 <= r.Length
    ensures r[..dentoffs + 1] == old(dents[..dentoffs]) + [d]
  {
    r := dents;
    if dentoffs == dents.Length {
      r := Realloc(dents, 2 * dents.Length);
    }
    r[dentoffs] := d;
  }

  // ----- sorting the entries -----

  /** What the flags promise about the order of the result. */
  ghost predicate Arranged(d: seq<Dirent>, ks: seq<RawEntry>, flags: Flags) {
    if flags.statOrder then Sorted(d)
    else if flags.dirsFirst then
      if flags.foundUnknown then Sorted(d) else DirsThenOthers(d)
    else d == DirentsOf(ks, false)
  }

  /** The directories come first, in inode order. */
  ghost predicate DirsThenOthers(d: seq<Dirent>) {
    exists m :: 0 <= m <= |d| && DirsUpTo(d, m)
  }

  ghost predicate DirsUpTo(d: seq<Dirent>, m: nat)
    requires m <= |d|
  {
    && (forall i :: 0 <= i < m ==> d[i].kind == EIO_DT_DIR)
    && (forall i :: m <= i < |d| ==> d[i].kind != EIO_DT_DIR)
    && (forall i, j :: 0 <= i < j < m ==> d[i].inode <= d[j].inode)
  }

  /** Moves the directories to the front by walking from both ends. */
  method PartitionDirs(dents: array<Dirent>, size: nat) returns (dir: nat)
    requires size <= dents.Length
    modifies dents
    ensures dir <= size
    ensures DentSort.Rearranged(old(dents[..]), dents[..], 0, size)
    ensures forall i :: 0 <= i < dir ==> dents[i].kind == EIO_DT_DIR
    ensures forall i :: dir <= i < size ==> dents[i].kind != EIO_DT_DIR
  {
    var oth := size;
    dir := 0;
    while oth > dir
      invariant 0 <= dir <= oth <= size
      invariant DentSort.Rearranged(old(dents[..]), dents[..], 0, size)
      invariant forall i :: 0 <= i < dir ==> dents[i].kind == EIO_DT_DIR
      invariant forall i :: oth <= i < size ==> dents[i].kind != EIO_DT_DIR
      decreases oth - dir
    {
      if dents[dir].kind == EIO_DT_DIR {
        dir := dir + 1;
      } else {
        oth := oth - 1;
        if dents[oth].kind == EIO_DT_DIR {
          ghost var was := dents[..];
          DentSort.Swap(dents, dir, oth);
          DentSort.SwapRearranges(was, dents[..], dir, oth, 0, size);
          DentSort.RearrangedTrans(old(dents[..]), was, dents[..], 0, size, 0, size);
          dir := dir + 1;
        }
      }
    }
  }

  /** The entry of a permuted result comes from a directory entry. */
  lemma DirentOrigin(d: seq<Dirent>, ks: seq<RawEntry>, dirsFirst: bool, i: nat) returns (k: nat)
    requires multiset(d) == multiset(DirentsOf(ks, dirsFirst)) && i < |d|
    ensures k < |ks| && d[i] == DirentsOf(ks, dirsFirst)[k]
    ensures d[i] == MakeDirent(ks[k], d[i].nameofs, dirsFirst)
  {
    assert d[i] in multiset(DirentsOf(ks, dirsFirst));
    k :| 0 <= k < |ks| && DirentsOf(ks, dirsFirst)[k] == d[i];
    DirentSelectsName(ks, dirsFirst, k);
  }

  lemma {:induction false} SmallHasNoHighBits(x: nat, n: nat, k: nat)
    requires x < Pow2(n) && n <= k
    ensures !BitSet(x, k)
    decreases k
  {
    if k > 0 {
      if n > 0 {
        SmallHasNoHighBits(x / 2, n - 1, k - 1);
      } else {
        SmallHasNoHighBits(x / 2, 0, k - 1);
      }
    }
  }

  /** The masks used for sorting cover the entries made from a directory. */
  lemma MasksCover(d: seq<Dirent>, all: seq<Dirent>, ks: seq<RawEntry>, dirsFirst: bool, scoreBits: Score)
    requires multiset(all) == multiset(DirentsOf(ks, dirsFirst))
    requires forall i :: 0 <= i < |d| ==> d[i] in all
    requires scoreBits == DIRS_FIRST_SCORE_BITS ||
             (scoreBits == 0 && forall i, j :: 0 <= i < |d| && 0 <= j < |d| ==> d[i].score == d[j].score)
    ensures Covered(d, scoreBits, InodeMask(ks))
  {
    forall i | 0 <= i < |d|
      ensures Within(d[i].inode, InodeMask(ks)) && d[i].score <= 7
    {
      var j :| 0 <= j < |all| && all[j] == d[i];
      var k := DirentOrigin(all, ks, dirsFirst, j);
      InodeMaskCovers(ks, k);
    }
    forall i, j, k: nat | 0 <= i < |d| && 0 <= j < |d| && !BitSet(scoreBits, k)
      ensures BitSet(d[i].score, k) <==> BitSet(d[j].score, k)
    {
      if scoreBits == DIRS_FIRST_SCORE_BITS {
        assert BitSet(7, 0) && BitSet(7, 1) && BitSet(7, 2);
        assert Pow2(3) == 8;
        SmallHasNoHighBits(d[i].score, 3, k);
        SmallHasNoHighBits(d[j].score, 3, k);
      }
    }
  }

  /** The order that sorting by (score, inode) gives in the directories-first case. */
  lemma SortedPrefixIsInodeOrder(d: seq<Dirent>, m: nat)
    requires m <= |d| && Sorted(d[..m])
    requires forall i :: 0 <= i < m ==> d[i].kind == EIO_DT_DIR && d[i].score == 0
    requires forall i :: m <= i < |d| ==> d[i].kind != EIO_DT_DIR
    ensures DirsThenOthers(d)
  {
    forall i, j | 0 <= i < j < m
      ensures d[i].inode <= d[j].inode
    {
      assert Leq(d[..m][i], d[..m][j]);
    }
    assert DirsUpTo(d, m);
  }

  /** Without an undefined sort, the masks are good for the directories alone. */
  lemma DirsOnlySortDefined(all: seq<Dirent>, m: nat, ks: seq<RawEntry>, flags: Flags)
    requires multiset(all) == multiset(DirentsOf(ks, true)) && m <= |all|
    requires forall i :: 0 <= i < m ==> all[i].kind == EIO_DT_DIR
    requires forall i :: m <= i < |all| ==> all[i].kind != EIO_DT_DIR
    requires flags.dirsFirst && !flags.statOrder && !flags.foundUnknown && !AnyUnknown(ks) && flags.dents
    requires !SortUndefined(ks, flags)
    ensures m > EIO_SORT_FAST ==> InodeMask(ks) != 0
  {
    DirCounts(ks, true);
    CountPermuted(all, DirentsOf(ks, true), IsDirDirent());
    assert all == all[..m] + all[m..];
    CountConcat(all[..m], all[m..], IsDirDirent());
    CountAll(all[..m], IsDirDirent());
    CountAll(all[m..], IsDirDirent());
    InodeMaskBounded(ks);
  }

  /** The final step of reading: sorts the entries as the flags ask. */
  method ArrangeDents(dents: array<Dirent>, count: nat, flags: Flags, inodeBits: Inode, ghost ks: seq<RawEntry>)
    requires count <= dents.Length && dents[..count] == DirentsOf(ks, flags.dirsFirst)
    requires inodeBits == InodeMask(ks)
    requires flags.Effective() == flags
    requires !SortUndefined(ks, flags)
    requires AnyUnknown(ks) ==> flags.foundUnknown
    modifies dents
    ensures multiset(dents[..count]) == multiset(DirentsOf(ks, flags.dirsFirst))
    ensures Arranged(dents[..count], ks, flags)
  {
    ghost var before := dents[..count];
    InodeMaskBounded(ks);
    if flags.statOrder {
      forall i | 0 <= i < count
        ensures dents[..count][i].score == ScoreOf(ks[i].name, KindOf(ks[i].dtype), flags.dirsFirst)
      {
        DirentSelectsName(ks, flags.dirsFirst, i);
      }
      MasksCover(dents[..count], dents[..count], ks, flags.dirsFirst,
                 if flags.dirsFirst then DIRS_FIRST_SCORE_BITS else 0);
      DentSort.Sort(dents, count, if flags.dirsFirst then DIRS_FIRST_SCORE_BITS else 0, inodeBits);
    } else if flags.dirsFirst {
      if flags.foundUnknown {
        MasksCover(dents[..count], dents[..count], ks, true, DIRS_FIRST_SCORE_BITS);
        DentSort.Sort(dents, count, DIRS_FIRST_SCORE_BITS, inodeBits);
      } else {
        SortDirsToFront(dents, count, flags, inodeBits, ks);
      }
    }
  }

  /** All types are known: directories go first and only they are sorted. */
  method SortDirsToFront(dents: array<Dirent>, count: nat, flags: Flags, inodeBits: Inode, ghost ks: seq<RawEntry>)
    requires count <= dents.Length && dents[..count] == DirentsOf(ks, true)
    requires inodeBits == InodeMask(ks)
    requires flags.dents && flags.dirsFirst && !flags.statOrder && !flags.foundUnknown
    requires !SortUndefined(ks, flags) && !AnyUnknown(ks)
    modifies dents
    ensures multiset(dents[..count]) == multiset(DirentsOf(ks, true))
    ensures DirsThenOthers(dents[..count])
  {
    ghost var was := dents[..];
    assert was[..count] == dents[..count];
    var dir := PartitionDirs(dents, count);
    ghost var mid := dents[..];
    label Partitioned:
    DirsReadyToSort(was, mid, dir, count, ks, flags);
    assert dents[..dir] == mid[..dir];
    DentSort.Sort(dents, dir, 0, inodeBits);
    assert mid[dir..] == old@Partitioned(dents[dir..]);
    SortedDirsAreArranged(mid, dents[..], dir, count, ks);
    assert dents[..][..count] == dents[..count];
  }

  lemma DirsReadyToSort(was: seq<Dirent>, mid: seq<Dirent>, dir: nat, count: nat, ks: seq<RawEntry>, flags: Flags)
    requires dir <= count <= |was| && was[..count] == DirentsOf(ks, true)
    requires DentSort.Rearranged(was, mid, 0, count)
    requires forall i :: 0 <= i < dir ==> mid[i].kind == EIO_DT_DIR
    requires forall i :: dir <= i < count ==> mid[i].kind != EIO_DT_DIR
    requires flags.dents && flags.dirsFirst && !flags.statOrder && !flags.foundUnknown
    requires !SortUndefined(ks, flags) && !AnyUnknown(ks)
    ensures multiset(mid[..count]) == multiset(DirentsOf(ks, true))
    ensures Covered(mid[..dir], 0, InodeMask(ks))
    ensures dir > EIO_SORT_FAST ==> InodeMask(ks) != 0
  {
    DentSort.RearrangedSlice(was, mid, 0, count);
    assert mid[0..count] == mid[..count] && was[0..count] == was[..count];
    DirsOnlySortDefined(mid[..count], dir, ks, flags);
    DirsScoreZero(mid[..count], dir, ks);
    assert mid[..dir] == mid[..count][..dir];
    MasksCover(mid[..dir], mid[..count], ks, true, 0);
  }

  lemma DirsScoreZero(d: seq<Dirent>, m: nat, ks: seq<RawEntry>)
    requires multiset(d) == multiset(DirentsOf(ks, true)) && m <= |d|
    requires forall i :: 0 <= i < m ==> d[i].kind == EIO_DT_DIR
    ensures forall i :: 0 <= i < m ==> d[i].score == 0 && d[i] in d
  {
    forall i | 0 <= i < m
      ensures d[i].score == 0
    {
      var k := DirentOrigin(d, ks, true, i);
    }
  }

  lemma SliceSplit<T>(s: seq<T>, a: nat, b: nat)
    requires a <= b <= |s|
    ensures s[..b] == s[..a] + s[a..][..b - a]
  {
  }

  lemma SamePrefixContents<T>(mid: seq<T>, now: seq<T>, dir: nat, count: nat)
    requires dir <= count <= |mid| == |now|
    requires multiset(now[..dir]) == multiset(mid[..dir]) && now[dir..] == mid[dir..]
    ensures multiset(now[..count]) == multiset(mid[..count])
  {
    SliceSplit(now, dir, count);
    SliceSplit(mid, dir, count);
  }

  lemma SortedDirsStay(mid: seq<Dirent>, now: seq<Dirent>, dir: nat, count: nat)
    requires dir <= count <= |mid| == |now|
    requires multiset(now[..dir]) == multiset(mid[..dir]) && now[dir..] == mid[dir..]
    requires forall i :: 0 <= i < dir ==> mid[i].kind == EIO_DT_DIR
    requires forall i :: dir <= i < count ==> mid[i].kind != EIO_DT_DIR
    ensures forall i :: 0 <= i < dir ==> now[i].kind == EIO_DT_DIR
    ensures forall i :: dir <= i < count ==> now[i].kind != EIO_DT_DIR
  {
    forall i | 0 <= i < dir
      ensures now[i].kind == EIO_DT_DIR
    {
      assert now[..dir][i] in multiset(mid[..dir]);
    }
    forall i | dir <= i < count
      ensures now[i].kind != EIO_DT_DIR
    {
      assert now[dir..][i - dir] == mid[dir..][i - dir];
    }
  }

  lemma SortedDirsAreArranged(mid: seq<Dirent>, now: seq<Dirent>, dir: nat, count: nat, ks: seq<RawEntry>)
    requires dir <= count <= |mid| == |now|
    requires multiset(now[..dir]) == multiset(mid[..dir]) && now[dir..] == mid[dir..]
    requires multiset(mid[..count]) == multiset(DirentsOf(ks, true))
    requires forall i :: 0 <= i < dir ==> mid[i].kind == EIO_DT_DIR
    requires forall i :: dir <= i < count ==> mid[i].kind != EIO_DT_DIR
    requires Sorted(now[..dir])
    ensures multiset(now[..count]) == multiset(DirentsOf(ks, true))
    ensures DirsThenOthers(now[..count])
  {
    SamePrefixContents(mid, now, dir, count);
    SortedDirsStay(mid, now, dir, count);
    DirsScoreZero(now[..count], dir, ks);
    assert now[..count][..dir] == now[..dir];
    SortedPrefixIsInodeOrder(now[..count], dir);
  }

  // ----- reading -----

  /** The state of the reading loop after the entries `ks` were kept. */
  ghost predicate Gathered(names: seq<char>, namesoffs: nat, dents: seq<Dirent>, dentoffs: nat, wantDents: bool,
                           flags: Flags, start: Flags, inodeBits: nat, ks: seq<RawEntry>)
  {
    && namesoffs == |Packed(ks)| <= |names| && names[..namesoffs] == Packed(ks)
    && dentoffs == |ks|
    && (wantDents ==> dentoffs <= |dents| && dents[..dentoffs] == DirentsOf(ks, start.dirsFirst))
    && (wantDents ==> inodeBits == InodeMask(ks))
    && flags == start.(foundUnknown := start.foundUnknown || (wantDents && AnyUnknown(ks)))
  }

  /** The flags reported with the result. */
  ghost function FinalFlags(ks: seq<RawEntry>, asked: Flags): Flags {
    var f := asked.Effective();
    f.(foundUnknown := f.foundUnknown || (f.NonZero() && AnyUnknown(ks)))
  }

  /**
   * The result of reading a directory that contains `ks`: the packed names in stream order and,
   * if any flag is set, the entries made from `ks`, arranged as the flags ask.
   */
  ghost predicate Listed(names: seq<char>, dents: seq<Dirent>, count: nat, flags: Flags,
                         ks: seq<RawEntry>, asked: Flags)
  {
    && count == |ks| && flags == FinalFlags(ks, asked)
    && |Packed(ks)| <= |names| && names[..|Packed(ks)|] == Packed(ks)
    && (asked.Effective().NonZero() ==>
          && count <= |dents|
          && multiset(dents[..count]) == multiset(DirentsOf(ks, flags.dirsFirst))
          && Arranged(dents[..count], ks, flags))
  }

  lemma KeptStep(stream: seq<RawEntry>, i: nat)
    requires i < |stream| && StreamOk(stream)
    ensures KeptOf(stream[..i + 1]) == KeptOf(stream[..i]) + if Kept(stream[i].name) then [stream[i]] else []
  {
    assert stream[..i + 1][..i] == stream[..i];
  }

  lemma KeepStep(ks: seq<RawEntry>, e: RawEntry, dirsFirst: bool)
    ensures Packed(ks + [e]) == Packed(ks) + e.name + [NUL]
    ensures DirentsOf(ks + [e], dirsFirst) == DirentsOf(ks, dirsFirst) + [MakeDirent(e, |Packed(ks)|, dirsFirst)]
    ensures InodeMask(ks + [e]) == Or(InodeMask(ks), e.ino)
    ensures AnyUnknown(ks + [e]) <==> AnyUnknown(ks) || KindOf(e.dtype) == EIO_DT_UNKNOWN
  {
    var all := ks + [e];
    assert all[..|all| - 1] == ks;
    if AnyUnknown(ks) {
      var i :| 0 <= i < |ks| && KindOf(ks[i].dtype) == EIO_DT_UNKNOWN;
      assert all[i] == ks[i];
    }
    if KindOf(e.dtype) == EIO_DT_UNKNOWN {
      assert all[|ks|] == e;
    }
  }

  /** Adds one kept entry to the buffers. */
  method KeepEntry(e: RawEntry, names0: array<char>, namesoffs0: nat, dents0: array<Dirent>, dentoffs0: nat,
                   wantDents: bool, flags0: Flags, inodeBits0: Inode, ghost start: Flags, ghost ks: seq<RawEntry>)
    returns (names: array<char>, namesoffs: nat, dents: array<Dirent>, dentoffs: nat, flags: Flags, inodeBits: Inode)
    requires names0.Length > 0 && dents0.Length > 0
    requires Gathered(names0[..], namesoffs0, dents0[..], dentoffs0, wantDents, flags0, start, inodeBits0, ks)
    modifies names0, dents0
    ensures (names == names0 || fresh(names)) && (dents == dents0 || fresh(dents))
    ensures names.Length > 0 && dents.Length > 0
    ensures Gathered(names[..], namesoffs, dents[..], dentoffs, wantDents, flags, start, inodeBits, ks + [e])
  {
    KeepStep(ks, e, start.dirsFirst);
    names := AppendName(names0, namesoffs0, e.name);
    dents, flags, inodeBits := dents0, flags0, inodeBits0;
    if wantDents {
      dents, flags, inodeBits := KeepDirent(e, namesoffs0, dents0, dentoffs0, flags0, inodeBits0);
    }
    namesoffs := namesoffs0 + |e.name| + 1;
    dentoffs := dentoffs0 + 1;
    assert names[..][..namesoffs] == names[..namesoffs];
    assert wantDents ==> dents[..][..dentoffs] == dents[..dentoffs];
  }

  /** The part of it that is done if entries are wanted. */
  method KeepDirent(e: RawEntry, namesoffs0: nat, dents0: array<Dirent>, dentoffs0: nat, flags0: Flags,
                    inodeBits0: Inode)
    returns (dents: array<Dirent>, flags: Flags, inodeBits: Inode)
    requires dentoffs0 <= dents0.Length && dents0.Length > 0
    modifies dents0
    ensures (dents == dents0 || fresh(dents)) && dentoffs0 + 1 <= dents.Length
    ensures dents[..dentoffs0 + 1] == old(dents0[..][..dentoffs0]) + [MakeDirent(e, namesoffs0, flags0.dirsFirst)]
    ensures flags == flags0.(foundUnknown := flags0.foundUnknown || KindOf(e.dtype) == EIO_DT_UNKNOWN)
    ensures inodeBits == Or(inodeBits0, e.ino)
  {
    PowersOfByteAndWord();
    OrBounded(inodeBits0, e.ino, 64);
    inodeBits := Or(inodeBits0, e.ino);
    flags := flags0;
    if KindOf(e.dtype) == EIO_DT_UNKNOWN {
      flags := flags.(foundUnknown := true);
    }
    assert dents0[..][..dentoffs0] == dents0[..dentoffs0];
    dents := AppendDirent(dents0, dentoffs0, MakeDirent(e, namesoffs0, flags.dirsFirst));
  }

  /** The end of the directory: sorts what was gathered. */
  method FinishScan(names: array<char>, namesoffs: nat, dents: array<Dirent>, dentoffs: nat, wantDents: bool,
                    flags: Flags, inodeBits: Inode, ghost asked: Flags, ghost ks: seq<RawEntry>)
    requires Gathered(names[..], namesoffs, dents[..], dentoffs, wantDents, flags, asked.Effective(), inodeBits, ks)
    requires wantDents == asked.Effective().NonZero()
    requires !SortUndefined(ks, asked)
    modifies dents
    ensures Listed(names[..], dents[..], dentoffs, flags, ks, asked)
  {
    assert names[..][..namesoffs] == names[..namesoffs];
    if wantDents {
      assert dents[..][..dentoffs] == dents[..dentoffs];
      ArrangeDents(dents, dentoffs, flags, inodeBits, ks);
      assert dents[..][..dentoffs] == dents[..dentoffs];
    }
  }

  /** An entry of the stream: added to the buffers, unless it is `.` or `..`. */
  method ScanEntry(e: RawEntry, names0: array<char>, namesoffs0: nat, dents0: array<Dirent>, count0: nat,
                   wantDents: bool, flags0: Flags, inodeBits0: Inode, ghost start: Flags, ghost ks: seq<RawEntry>)
    returns (names: array<char>, namesoffs: nat, dents: array<Dirent>, count: nat, flags: Flags, inodeBits: Inode,
             ghost ks': seq<RawEntry>)
    requires NameOk(e.name) && names0.Length > 0 && dents0.Length > 0
    requires Gathered(names0[..], namesoffs0, dents0[..], count0, wantDents, flags0, start, inodeBits0, ks)
    modifies names0, dents0
    ensures (names == names0 || fresh(names)) && (dents == dents0 || fresh(dents))
    ensures names.Length > 0 && dents.Length > 0
    ensures ks' == ks + if Kept(e.name) then [e] else []
    ensures Gathered(names[..], namesoffs, dents[..], count, wantDents, flags, start, inodeBits, ks')
  {
    if Kept(e.name) {
      ks' := ks + [e];
      names, namesoffs, dents, count, flags, inodeBits :=
        KeepEntry(e, names0, namesoffs0, dents0, count0, wantDents, flags0, inodeBits0, start, ks);
    } else {
      ks' := ks;
      names, namesoffs, dents, count, flags, inodeBits := names0, namesoffs0, dents0, count0, flags0, inodeBits0;
    }
  }

  /** The reading loop, which ends early when the request is seen to be cancelled. */
  method Gather(stream: seq<RawEntry>, cancelAt: nat, wantDents: bool, start: Flags)
    returns (complete: bool, names: array<char>, namesoffs: nat, dents: array<Dirent>, count: nat, flags: Flags,
             inodeBits: Inode, ghost ks: seq<RawEntry>)
    requires StreamOk(stream)
    ensures fresh(names) && fresh(dents)
    ensures complete <==> |stream| == 0 || |stream| < cancelAt
    ensures complete ==> ks == KeptOf(stream)
    ensures complete ==> Gathered(names[..], namesoffs, dents[..], count, wantDents, flags, start, inodeBits, ks)
  {
    ks := [];
    complete, flags := true, start;
    names := new char[NAMES_ALLOC];
    dents := new Dirent[DENTS_ALLOC];
    namesoffs, inodeBits, count := 0, 0, 0;
    var i := 0;
    while i < |stream| && complete
      invariant 0 <= i <= |stream| && (complete <==> i == 0 || i < cancelAt)
      invariant fresh(names) && fresh(dents) && names.Length > 0 && dents.Length > 0
      invariant ks == KeptOf(stream[..i])
      invariant Gathered(names[..], namesoffs, dents[..], count, wantDents, flags, start, inodeBits, ks)
      decreases |stream| - i
    {
      KeptStep(stream, i);
      names, namesoffs, dents, count, flags, inodeBits, ks :=
        ScanEntry(stream[i], names, namesoffs, dents, count, wantDents, flags, inodeBits, start, ks);
      i := i + 1;
      complete := i < cancelAt;
    }
    assert complete ==> stream[..i] == stream;
  }

  /**
   * Reads a directory. `stream` is what `readdir` delivers before it ends (`endsOk`) or fails, and
   * `cancelAt` is the number of entries after which the request is seen to be cancelled.
   */
  method Scandir(stream: seq<RawEntry>, endsOk: bool, cancelAt: nat, asked: Flags)
    returns (ok: bool, names: array<char>, dents: array<Dirent>, count: nat, flags: Flags)
    requires StreamOk(stream)
    requires !SortUndefined(KeptOf(stream), asked)
    ensures ok <==> endsOk && (|stream| == 0 || |stream| < cancelAt)
    ensures ok ==> Listed(names[..], dents[..], count, flags, KeptOf(stream), asked)
    ensures ok ==> flags.dents == asked.dents && flags.dirsFirst == (asked.dents && asked.dirsFirst)
                   && flags.statOrder == (asked.dents && asked.statOrder)
  {
    var start := asked.Effective();
    var wantDents := start.NonZero();
    var complete, namesoffs, inodeBits;
    ghost var ks;
    complete, names, namesoffs, dents, count, flags, inodeBits, ks := Gather(stream, cancelAt, wantDents, start);
    ok := complete && endsOk;
    if ok {
      FinishScan(names, namesoffs, dents, count, wantDents, flags, inodeBits, asked, ks);
    }
  }

  // ----- decoding for PHP -----

  ghost function NamesOf(ks: seq<RawEntry>): (r: seq<string>)
    ensures |r| == |ks| && forall i :: 0 <= i < |ks| ==> r[i] == ks[i].name
  {
    seq(|ks|, i requires 0 <= i < |ks| => ks[i].name)
  }

  /** A name inside the packed buffer ends at its terminator and nowhere before. */
  lemma PackedName(ks: seq<RawEntry>, i: nat)
    requires i < |ks| && StreamOk(ks)
    ensures var from := |Packed(ks[..i])|; var end := from + |ks[i].name|;
            && end < |Packed(ks)| && Packed(ks)[end] == NUL
            && Packed(ks)[from..end] == ks[i].name
            && |Packed(ks[..i + 1])| == end + 1
  {
    DirentSelectsName(ks, false, i);
    assert ks[..i + 1][..i] == ks[..i];
  }

  /** Splits the names buffer at its terminators: recovers every name, in stream order. */
  method SetReaddirNames(names: array<char>, count: nat, ghost ks: seq<RawEntry>) returns (r: seq<string>)
    requires StreamOk(ks) && count == |ks|
    requires |Packed(ks)| <= names.Length && names[..|Packed(ks)|] == Packed(ks)
    ensures r == NamesOf(ks)
  {
    r := [];
    var p := 0;
    for i := 0 to count
      invariant p == |Packed(ks[..i])| && r == NamesOf(ks[..i])
    {
      PackedName(ks, i);
      ghost var end := p + |ks[i].name|;
      assert names[end] == Packed(ks)[end];
      var len := StrLen(names, p, end);
      NameBoundary(names[..], ks, i, p, len);
      r := r + [names[p..p + len]];
      assert ks[..i + 1] == ks[..i] + [ks[i]];
      p := p + len + 1;
    }
    assert ks[..count] == ks;
  }

  lemma NameBoundary(names: seq<char>, ks: seq<RawEntry>, i: nat, p: nat, len: nat)
    requires StreamOk(ks) && i < |ks| && p == |Packed(ks[..i])|
    requires |Packed(ks)| <= |names| && names[..|Packed(ks)|] == Packed(ks)
    requires p + len < |Packed(ks)| && p + len <= p + |ks[i].name| && names[p + len] == NUL
    ensures names[p..p + len] == ks[i].name && len == |ks[i].name|
  {
    PackedName(ks, i);
    var name := ks[i].name;
    forall j | p <= j < p + |name|
      ensures Packed(ks)[j] != NUL
    {
      assert Packed(ks)[p..p + |name|][j - p] == name[j - p] && name[j - p] in name;
    }
    assert names[p + len] == names[..|Packed(ks)|][p + len];
    PrefixSlice(names, |Packed(ks)|, p, p + len);
    assert name == Packed(ks)[p..p + |name|];
  }

  /** What PHP shows for one entry. */
  datatype Shown = Shown(name: string, kind: nat, inode: Inode)

  /** What is shown of an entry of the stream: its name, its inode number and its type, 0 if that is no `DT_*`. */
  ghost predicate Shows(x: Shown, e: RawEntry) {
    x == Shown(e.name, if e.dtype in {1, 2, 4, 6, 8, 10, 12, 14} then e.dtype else 0, e.ino)
  }

  /** What is shown has the kind and the inode number of the entry, which is scored by the name shown. */
  ghost predicate ShowsEntry(x: Shown, d: Dirent, dirsFirst: bool) {
    x.kind == d.kind && x.inode == d.inode && d.score == ScoreOf(x.name, x.kind, dirsFirst)
  }

  /** Decodes entries through their offsets: shows exactly what the directory contains, in the order `es`. */
  method SetReaddirDentsAndNames(names: array<char>, dents: array<Dirent>, count: nat, ghost ks: seq<RawEntry>,
                                 ghost dirsFirst: bool)
    returns (r: seq<Shown>, ghost es: seq<RawEntry>)
    requires StreamOk(ks) && count <= dents.Length
    requires |Packed(ks)| <= names.Length && names[..|Packed(ks)|] == Packed(ks)
    requires multiset(dents[..count]) == multiset(DirentsOf(ks, dirsFirst))
    ensures |r| == count == |ks|
    ensures forall i :: 0 <= i < count ==> ShowsEntry(r[i], dents[i], dirsFirst)
    ensures |es| == count && multiset(es) == multiset(ks)
    ensures forall i :: 0 <= i < count ==> Shows(r[i], es[i])
  {
    ghost var text := Packed(ks);
    ghost var d := dents[..count];
    MultisetLength(d, DirentsOf(ks, dirsFirst));
    es := Matching(d, DirentsOf(ks, dirsFirst), ks);
    r := [];
    for i := 0 to count
      invariant |r| == i
      invariant forall k :: 0 <= k < i ==> r[k] == Reads(text)(d[k])
    {
      var ent := dents[i];
      ReadsInBounds(d, ks, dirsFirst, i);
      var name := names[ent.nameofs..ent.nameofs + ent.namelen];
      ReadsSlice(names[..], text, ent);
      r := r + [Shown(name, ent.kind, ent.inode)];
    }
    forall i | 0 <= i < count
      ensures ShowsEntry(r[i], d[i], dirsFirst) && Shows(r[i], es[i])
    {
      ReadsItsName(d, ks, dirsFirst, i);
      ReadsItsEntry(ks, dirsFirst, d[i], es[i]);
    }
  }

  lemma ReadsItsName(d: seq<Dirent>, ks: seq<RawEntry>, dirsFirst: bool, i: nat)
    requires multiset(d) == multiset(DirentsOf(ks, dirsFirst)) && i < |d|
    ensures ShowsEntry(Reads(Packed(ks))(d[i]), d[i], dirsFirst)
  {
    var k := DirentOrigin(d, ks, dirsFirst, i);
    DirentSelectsName(ks, dirsFirst, k);
  }

  lemma ReadsSlice(names: string, text: string, d: Dirent)
    requires d.nameofs + d.namelen <= |text| <= |names| && names[..|text|] == text
    ensures Shown(names[d.nameofs..d.nameofs + d.namelen], d.kind, d.inode) == Reads(text)(d)
  {
    PrefixSlice(names, |text|, d.nameofs, d.nameofs + d.namelen);
  }

  lemma ReadsInBounds(d: seq<Dirent>, ks: seq<RawEntry>, dirsFirst: bool, i: nat)
    requires multiset(d) == multiset(DirentsOf(ks, dirsFirst)) && i < |d|
    ensures d[i].nameofs + d[i].namelen < |Packed(ks)|
  {
    var k := DirentOrigin(d, ks, dirsFirst, i);
    DirentSelectsName(ks, dirsFirst, k);
  }

  /** The entry `x` was made from `e`. */
  ghost predicate Pairs<T>(made: seq<Dirent>, from: seq<T>, x: Dirent, e: T) {
    exists k :: 0 <= k < |made| && k < |from| && made[k] == x && from[k] == e
  }

  /** What a permutation of made entries was made from is a permutation of what they were made from. */
  lemma {:induction false} Matching<T>(d: seq<Dirent>, made: seq<Dirent>, from: seq<T>) returns (es: seq<T>)
    requires multiset(d) == multiset(made) && |d| == |made| == |from|
    ensures |es| == |d| && multiset(es) == multiset(from)
    ensures forall i :: 0 <= i < |d| ==> Pairs(made, from, d[i], es[i])
    decreases |d|
  {
    if d == [] {
      es := [];
      assert from == [];
    } else {
      var k := FindSame(d, made);
      RestPermuted(d, made, k);
      var rest := Matching(d[1..], Without(made, k), Without(from, k));
      es := [from[k]] + rest;
      PutBack(from, k, rest);
      forall i | 0 <= i < |d|
        ensures Pairs(made, from, d[i], es[i])
      {
        if i == 0 {
          assert made[k] == d[0] && from[k] == es[0];
        } else {
          assert d[i] == d[1..][i - 1] && es[i] == rest[i - 1];
          PairsWithout(made, from, k, d[i], es[i]);
        }
      }
    }
  }

  lemma RestPermuted<T>(d: seq<T>, made: seq<T>, k: nat)
    requires multiset(d) == multiset(made) && d != [] && k < |made| && made[k] == d[0]
    ensures multiset(d[1..]) == multiset(Without(made, k))
  {
    MultisetRemove(d, 0);
    MultisetRemove(made, k);
    assert d[..0] + d[1..] == d[1..];
  }

  lemma PutBack<T>(from: seq<T>, k: nat, rest: seq<T>)
    requires k < |from| && multiset(rest) == multiset(Without(from, k))
    ensures multiset([from[k]] + rest) == multiset(from)
  {
    MultisetRemove(from, k);
  }

  lemma PairsWithout<T>(made: seq<Dirent>, from: seq<T>, k: nat, x: Dirent, e: T)
    requires k < |made| == |from| && Pairs(Without(made, k), Without(from, k), x, e)
    ensures Pairs(made, from, x, e)
  {
    var j :| 0 <= j < |made| - 1 && Without(made, k)[j] == x && Without(from, k)[j] == e;
    var i := if j < k then j else j + 1;
    assert made[i] == x && from[i] == e;
  }

  lemma ReadsItsEntry(ks: seq<RawEntry>, dirsFirst: bool, d: Dirent, e: RawEntry)
    requires Pairs(DirentsOf(ks, dirsFirst), ks, d, e)
    ensures Shows(Reads(Packed(ks))(d), e)
  {
    var k :| 0 <= k < |ks| && DirentsOf(ks, dirsFirst)[k] == d && ks[k] == e;
    DirentSelectsName(ks, dirsFirst, k);
  }

  /** How an entry reads in a names buffer. */
  ghost function Reads(text: string): Dirent -> Shown {
    (d: Dirent) =>
      if d.nameofs + d.namelen <= |text| then Shown(text[d.nameofs..d.nameofs + d.namelen], d.kind, d.inode)
      else Shown("", d.kind, d.inode)
  }

  lemma MultisetLength<T>(a: seq<T>, b: seq<T>)
    requires multiset(a) == multiset(b)
    ensures |a| == |b|
  {
    assert |a| == |multiset(a)| == |multiset(b)| == |b|;
  }

  // ----- what the order means -----

  /** With `DIRS_FIRST`, known directories precede everything else. */
  lemma DirectoriesPrecede(d: seq<Dirent>, ks: seq<RawEntry>, flags: Flags, i: nat, j: nat)
    requires multiset(d) == multiset(DirentsOf(ks, flags.dirsFirst)) && Arranged(d, ks, flags)
    requires flags.dirsFirst && i < j < |d| && d[j].kind == EIO_DT_DIR
    ensures d[i].kind == EIO_DT_DIR && d[i].inode <= d[j].inode
  {
    var ki := DirentOrigin(d, ks, true, i);
    var kj := DirentOrigin(d, ks, true, j);
    if flags.statOrder || flags.foundUnknown {
      assert Leq(d[i], d[j]);
    } else {
      var m :| 0 <= m <= |d| && DirsUpTo(d, m);
    }
  }

  /** With `STAT_ORDER` alone, all entries are in inode order. */
  lemma InodesAscend(d: seq<Dirent>, ks: seq<RawEntry>, flags: Flags, i: nat, j: nat)
    requires multiset(d) == multiset(DirentsOf(ks, flags.dirsFirst)) && Arranged(d, ks, flags)
    requires flags.statOrder && !flags.dirsFirst && i < j < |d|
    ensures d[i].inode <= d[j].inode
  {
    var ki := DirentOrigin(d, ks, false, i);
    var kj := DirentOrigin(d, ks, false, j);
    assert Leq(d[i], d[j]);
  }

  /** The order by score, which is told from name and kind, and then by inode number. */
  ghost predicate InOrder(x: Shown, y: Shown, dirsFirst: bool) {
    var a, b := ScoreOf(x.name, x.kind, dirsFirst), ScoreOf(y.name, y.kind, dirsFirst);
    a < b || (a == b && x.inode <= y.inode)
  }

  /** The orders that PHP sees; `all` says whether all entries were sorted, and not just the directories. */
  ghost predicate ShownInOrder(r: seq<Shown>, dirsFirst: bool, all: bool) {
    && (dirsFirst ==> forall i, j :: 0 <= i < j < |r| && r[j].kind == 4 ==>
          r[i].kind == 4 && r[i].inode <= r[j].inode)
    && (all ==> forall i, j :: 0 <= i < j < |r| ==> InOrder(r[i], r[j], dirsFirst))
  }

  /** Where all entries are sorted, known files ascend by inode; without `DIRS_FIRST` all entries do. */
  lemma FilesAscend(r: seq<Shown>, dirsFirst: bool, i: nat, j: nat)
    requires ShownInOrder(r, dirsFirst, true) && i < j < |r|
    requires dirsFirst ==> r[i].kind !in {0, 4} && r[j].kind !in {0, 4}
    ensures r[i].inode <= r[j].inode
  {
    assert InOrder(r[i], r[j], dirsFirst);
  }

  lemma ArrangedIsShown(d: seq<Dirent>, ks: seq<RawEntry>, flags: Flags, r: seq<Shown>)
    requires multiset(d) == multiset(DirentsOf(ks, flags.dirsFirst)) && Arranged(d, ks, flags)
    requires |r| == |d| && forall i :: 0 <= i < |d| ==> ShowsEntry(r[i], d[i], flags.dirsFirst)
    ensures ShownInOrder(r, flags.dirsFirst, flags.statOrder || (flags.dirsFirst && flags.foundUnknown))
  {
    forall i, j | 0 <= i < j < |r| && flags.dirsFirst && r[j].kind == 4
      ensures r[i].kind == 4 && r[i].inode <= r[j].inode
    {
      assert ShowsEntry(r[i], d[i], flags.dirsFirst) && ShowsEntry(r[j], d[j], flags.dirsFirst);
      DirectoriesPrecede(d, ks, flags, i, j);
    }
    forall i, j | 0 <= i < j < |r| && (flags.statOrder || (flags.dirsFirst && flags.foundUnknown))
      ensures InOrder(r[i], r[j], flags.dirsFirst)
    {
      assert ShowsEntry(r[i], d[i], flags.dirsFirst) && ShowsEntry(r[j], d[j], flags.dirsFirst);
      assert Leq(d[i], d[j]);
    }
  }

  /** What comes back of the flags asked for. */
  lemma FlagsReported(ks: seq<RawEntry>, asked: Flags)
    ensures var f := FinalFlags(ks, asked);
            && f.dents == asked.dents && f.custom == asked.custom
            && f.dirsFirst == (asked.dents && asked.dirsFirst)
            && f.statOrder == (asked.dents && asked.statOrder)
            && (f.foundUnknown <==>
                  asked.foundUnknown
                  || ((asked.dents || asked.custom != 0)
                      && exists i :: 0 <= i < |ks| && ks[i].dtype !in {1, 2, 4, 6, 8, 10, 12, 14}))
  {
    if AnyUnknown(ks) {
      var i :| 0 <= i < |ks| && KindOf(ks[i].dtype) == EIO_DT_UNKNOWN;
      assert ks[i].dtype !in {1, 2, 4, 6, 8, 10, 12, 14};
    }
    if i :| 0 <= i < |ks| && ks[i].dtype !in {1, 2, 4, 6, 8, 10, 12, 14} {
      assert KindOf(ks[i].dtype) == EIO_DT_UNKNOWN;
    }
  }

  /**
   * From the directory stream to what PHP gets: with entries, exactly the directory's contents, in an
   * order `es` that is the one asked for; without, all names in stream order.
   */
  method ReaddirForPhp(stream: seq<RawEntry>, endsOk: bool, cancelAt: nat, asked: Flags)
    returns (ok: bool, names: seq<string>, entries: seq<Shown>, flags: Flags, ghost es: seq<RawEntry>)
    requires StreamOk(stream) && !SortUndefined(KeptOf(stream), asked)
    ensures ok <==> endsOk && (|stream| == 0 || |stream| < cancelAt)
    ensures ok ==> flags == FinalFlags(KeptOf(stream), asked)
    ensures ok && asked.dents ==>
              && multiset(es) == multiset(KeptOf(stream)) && |es| == |entries| == |names|
              && (forall i :: 0 <= i < |es| ==>
                    && names[i] == entries[i].name == es[i].name && entries[i].inode == es[i].ino
                    && entries[i].kind == if es[i].dtype in {1, 2, 4, 6, 8, 10, 12, 14} then es[i].dtype else 0)
              && ShownInOrder(entries, asked.dirsFirst,
                              asked.statOrder || (asked.dirsFirst && flags.foundUnknown))
    ensures ok && !asked.dents ==> names == NamesOf(KeptOf(stream))
  {
    names, entries, es := [], [], [];
    var buffer, dents, count;
    ok, buffer, dents, count, flags := Scandir(stream, endsOk, cancelAt, asked);
    if ok {
      KeptAreTheOthers(stream);
      FlagsReported(KeptOf(stream), asked);
      if flags.dents || flags.dirsFirst {
        names, entries, es := Decode(buffer, dents, count, flags, KeptOf(stream));
      } else {
        names := SetReaddirNames(buffer, count, KeptOf(stream));
      }
    }
  }

  /** The decoder for entries, and the names alone beside them. */
  method Decode(buffer: array<char>, dents: array<Dirent>, count: nat, flags: Flags, ghost ks: seq<RawEntry>)
    returns (names: seq<string>, entries: seq<Shown>, ghost es: seq<RawEntry>)
    requires StreamOk(ks) && count <= dents.Length
    requires |Packed(ks)| <= buffer.Length && buffer[..|Packed(ks)|] == Packed(ks)
    requires multiset(dents[..count]) == multiset(DirentsOf(ks, flags.dirsFirst))
    requires Arranged(dents[..count], ks, flags)
    ensures multiset(es) == multiset(ks) && |es| == |entries| == |names|
    ensures forall i :: 0 <= i < |es| ==> names[i] == entries[i].name && Shows(entries[i], es[i])
    ensures ShownInOrder(entries, flags.dirsFirst, flags.statOrder || (flags.dirsFirst && flags.foundUnknown))
  {
    entries, es := SetReaddirDentsAndNames(buffer, dents, count, ks, flags.dirsFirst);
    ArrangedIsShown(dents[..count], ks, flags, entries);
    names := seq(|entries|, i requires 0 <= i < |entries| => entries[i].name);
  }
}
