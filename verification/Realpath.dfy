/**
 * `realpath` in three slices of one buffer: the result so far in the first, link texts in the
 * second, and the remaining path, once a link was expanded, in the third.
 */
module Realpath {
  import opened CStrings
  import opened Paths

  const TMP1: nat := PATH_SIZE
  const TMP2: nat := 2 * PATH_SIZE

  /** What `getcwd` and the working directory argument give for a relative path. */
  datatype WorkDir = InvalidWd | CwdFails(errno: nat) | Cwd(comps: seq<string>)

  /** The length of the result at the start of the buffer, or the `errno` of a failure. */
  datatype Outcome = Length(len: nat) | Error(error: Error)

  // ----- one step of the loop, on text -----

  lemma SplitFirst(rel: string, len: nat)
    requires len <= |rel| && '/' !in rel[..len]
    requires len < |rel| ==> rel[len] == '/'
    ensures Split(rel)[0] == rel[..len]
    ensures Split(rel[len..]) == [""] + Split(rel)[1..]
    ensures |Text(Split(rel)[1..])| == |rel[len..]|
  {
    var c, after := rel[..len], rel[len..];
    SplitNoSlash(c);
    if after == "" {
      assert rel == c;
    } else {
      assert after == "" + "/" + after[1..];
      SplitConcat("", after[1..]);
      assert rel == c + "/" + after[1..];
      SplitConcat(c, after[1..]);
      TextOfSplitLength(after[1..]);
    }
  }

  lemma StepSlash(fs: FileSystem, stack: seq<string>, rel: string, budget: nat)
    requires rel != "" && rel[0] == '/'
    ensures Resolve(fs, stack, Split(rel), budget) == Resolve(fs, stack, Split(rel[1..]), budget)
  {
  }

  /** What is spliced for a link splits into the link, an empty component and what remained. */
  lemma SplitSplice(text: string, after: string, rest: seq<string>)
    requires Split(after) == [""] + rest
    ensures Split(text + "/" + after) == Split(text) + [""] + rest
  {
    SplitConcat(text, after);
    assert Split(text) + ([""] + rest) == Split(text) + [""] + rest;
  }

  lemma StepDot(fs: FileSystem, stack: seq<string>, rel: string, len: nat, budget: nat)
    requires len <= |rel| && '/' !in rel[..len] && (len < |rel| ==> rel[len] == '/')
    ensures rel[..len] == "." ==>
      Resolve(fs, stack, Split(rel), budget) == Resolve(fs, stack, Split(rel[len..]), budget)
    ensures rel[..len] == ".." ==>
      Resolve(fs, stack, Split(rel), budget) == Resolve(fs, Parent(stack), Split(rel[len..]), budget)
  {
    SplitFirst(rel, len);
    assert ([""] + Split(rel)[1..])[1..] == Split(rel)[1..];
  }

  datatype Status = Going | Stopped(error: Error)

  /** What the loop does with a component: stop, or go on with another state. */
  datatype Next = Next(status: Status, stack: seq<string>, rel: string, symlinks: nat)

  ghost function NameNext(fs: FileSystem, stack: seq<string>, c: string, after: string, symlinks: nat): Next
    requires symlinks >= 1
  {
    var path := Text(stack + [c]);
    if |path| + 1 >= PATH_SIZE then Next(Stopped(ENAMETOOLONG), stack, after, symlinks)
    else match fs(path)
      case Unreadable(e) => Next(Stopped(System(e)), stack, after, symlinks)
      case NotLink => Next(Going, stack + [c], after, symlinks)
      case Link(t) => LinkNext(stack, t, after, symlinks)
  }

  ghost function LinkNext(stack: seq<string>, t: string, after: string, symlinks: nat): Next
    requires symlinks >= 1
  {
    if |t| + 1 + |after| >= PATH_SIZE then Next(Stopped(ENAMETOOLONG), stack, after, symlinks)
    else if symlinks == 1 then Next(Stopped(ELOOP), stack, after, symlinks)
    else Next(Going, Restart(stack, t), t + "/" + after, symlinks - 1)
  }

  /** The same for any component of positive length. */
  ghost function ComponentNext(fs: FileSystem, stack: seq<string>, c: string, after: string, symlinks: nat): Next
    requires symlinks >= 1
  {
    if c == "." then Next(Going, stack, after, symlinks)
    else if c == ".." then Next(Going, Parent(stack), after, symlinks)
    else NameNext(fs, stack, c, after, symlinks)
  }

  /** One round of the loop: skips a slash or handles the component of length `len`. */
  ghost predicate RoundNext(fs: FileSystem, stack: seq<string>, cur: string, symlinks: nat, len: nat, next: Next)
    requires symlinks >= 1
  {
    && cur != "" && len <= |cur| && '/' !in cur[..len] && (len < |cur| ==> cur[len] == '/')
    && next == if len == 0 then Next(Going, stack, cur[1..], symlinks)
               else ComponentNext(fs, stack, cur[..len], cur[len..], symlinks)
  }

  ghost function NextResolution(fs: FileSystem, n: Next): Resolution {
    if n.status.Stopped? then Failed(n.status.error) else Resolve(fs, n.stack, Split(n.rel), n.symlinks)
  }

  /** An empty first component is skipped. */
  lemma ResolveBlank(fs: FileSystem, stack: seq<string>, rest: seq<string>, budget: nat)
    ensures Resolve(fs, stack, [""] + rest, budget) == Resolve(fs, stack, rest, budget)
  {
    assert ([""] + rest)[1..] == rest;
  }

  /** What the resolver does with a name, when the path up to it fits. */
  lemma NameResolves(fs: FileSystem, stack: seq<string>, c: string, rest: seq<string>, symlinks: nat)
    requires symlinks >= 1 && c != "" && c != "." && c != ".." && |Text(stack + [c])| + 1 < PATH_SIZE
    ensures Resolve(fs, stack, [c] + rest, symlinks) ==
              match fs(Text(stack + [c]))
              case Unreadable(e) => Failed(System(e))
              case NotLink => Resolve(fs, stack + [c], rest, symlinks)
              case Link(t) =>
                if |t| + 1 + |Text(rest)| >= PATH_SIZE then Failed(ENAMETOOLONG)
                else if symlinks == 1 then Failed(ELOOP)
                else AddLink(Resolve(fs, Restart(stack, t), Split(t) + [""] + rest, symlinks - 1))
  {
    assert ([c] + rest)[0] == c && ([c] + rest)[1..] == rest;
  }

  /** One step of the loop agrees with the resolver. */
  lemma NextResolves(fs: FileSystem, stack: seq<string>, c: string, rest: seq<string>, after: string, symlinks: nat)
    requires symlinks >= 1 && c != "" && c != "." && c != ".."
    requires Split(after) == [""] + rest && |Text(rest)| == |after|
    ensures var n := NameNext(fs, stack, c, after, symlinks);
            && 1 <= n.symlinks <= symlinks
            && Resolve(fs, stack, [c] + rest, symlinks) ==
                 if n.symlinks < symlinks then AddLink(NextResolution(fs, n)) else NextResolution(fs, n)
  {
    if |Text(stack + [c])| + 1 < PATH_SIZE {
      NameResolves(fs, stack, c, rest, symlinks);
      match fs(Text(stack + [c]))
      case Unreadable(e) =>
      case NotLink =>
        ResolveBlank(fs, stack + [c], rest, symlinks);
      case Link(t) =>
        SplitSplice(t, after, rest);
    } else {
      assert ([c] + rest)[0] == c;
    }
  }

  lemma ComponentResolves(fs: FileSystem, stack: seq<string>, rel: string, len: nat, symlinks: nat)
    requires 1 <= symlinks <= LINK_BUDGET
    requires 0 < len <= |rel| && '/' !in rel[..len] && (len < |rel| ==> rel[len] == '/')
    ensures var n := ComponentNext(fs, stack, rel[..len], rel[len..], symlinks);
            && 1 <= n.symlinks <= symlinks && (n.symlinks == symlinks ==> n.rel == rel[len..])
            && Outlook(fs, stack, rel, symlinks) ==
                 if n.status.Stopped? then Failed(n.status.error) else Outlook(fs, n.stack, n.rel, n.symlinks)
  {
    var c := rel[..len];
    if c == "." || c == ".." {
      StepDot(fs, stack, rel, len, symlinks);
    } else {
      SplitFirst(rel, len);
      var rest := Split(rel)[1..];
      assert Split(rel) == [c] + rest;
      NextResolves(fs, stack, c, rest, rel[len..], symlinks);
      var n := NameNext(fs, stack, c, rel[len..], symlinks);
      assert n.symlinks == symlinks || n.symlinks == symlinks - 1;
    }
  }

  /** Counts the links expanded before the resolution that `r` is the result of. */
  ghost function AddLinks(r: Resolution, n: nat): Resolution {
    if r.Resolved? then r.(links := r.links + n) else r
  }

  // ----- C library functions -----

  /** `memmove`: the two ranges may overlap. */
  method MemMove(dst: array<char>, to: nat, src: array<char>, from: nat, n: nat)
    requires to + n <= dst.Length && from + n <= src.Length
    modifies dst
    ensures dst[to..to + n] == old(src[from..from + n])
    ensures forall k :: 0 <= k < to || to + n <= k < dst.Length ==> dst[k] == old(dst[k])
  {
    ghost var was := src[..];
    if src == dst && from < to {
      var k := n;
      while k > 0
        invariant 0 <= k <= n
        invariant forall i :: to + k <= i < to + n ==> dst[i] == was[i - to + from]
        invariant forall i :: from <= i < from + k ==> src[i] == was[i]
        invariant forall i :: 0 <= i < to || to + n <= i < dst.Length ==> dst[i] == old(dst[i])
      {
        k := k - 1;
        dst[to + k] := src[from + k];
      }
    } else {
      for k := 0 to n
        invariant forall i :: to <= i < to + k ==> dst[i] == was[i - to + from]
        invariant forall i :: from + k <= i < from + n ==> src[i] == was[i]
        invariant forall i :: 0 <= i < to || to + n <= i < dst.Length ==> dst[i] == old(dst[i])
      {
        dst[to + k] := src[from + k];
      }
    }
    SameSlice(dst[..], to, was, from, n);
    assert dst[..][to..to + n] == dst[to..to + n];
  }

  lemma SameSlice(d: seq<char>, to: nat, s: seq<char>, from: nat, n: nat)
    requires to + n <= |d| && from + n <= |s|
    requires forall i :: to <= i < to + n ==> d[i] == s[i - to + from]
    ensures d[to..to + n] == s[from..from + n]
  {
  }

  /** Reads the link named by the string at the start of the buffer into the second slice. */
  method ReadLink(fs: FileSystem, buf: array<char>, ghost path: string) returns (r: LinkResult, linklen: nat)
    requires buf.Length >= 3 * PATH_SIZE && IsCString(buf[..], 0, path)
    requires FileSystemOk(fs)
    modifies buf
    ensures r == fs(path)
    ensures forall k :: 0 <= k < TMP1 || TMP2 <= k < buf.Length ==> buf[k] == old(buf[k])
    ensures r.Link? ==> linklen == if |r.text| <= PATH_SIZE then |r.text| else PATH_SIZE
    ensures r.Link? ==> buf[TMP1..TMP1 + linklen] == r.text[..linklen]
  {
    CStringChar(buf[..], 0, path, |path|);
    var n := StrLen(buf, 0, |path|);
    CStringChar(buf[..], 0, path, n);
    r := fs(buf[..n]);
    assert buf[..n] == buf[..][0..0 + n] == path;
    linklen := 0;
    if r.Link? {
      linklen := if |r.text| <= PATH_SIZE then |r.text| else PATH_SIZE;
      for k := 0 to linklen
        invariant forall i :: 0 <= i < TMP1 || TMP2 <= i < buf.Length ==> buf[i] == old(buf[i])
        invariant forall i :: 0 <= i < k ==> buf[TMP1 + i] == r.text[i]
      {
        buf[TMP1 + k] := r.text[k];
      }
    }
  }

  // ----- the pieces of the loop -----

  /** The length of the component that `rel` starts with. */
  method ScanComponent(s: array<char>, at: nat, ghost rel: string) returns (len: nat)
    requires IsCString(s[..], at, rel)
    ensures len <= |rel| && '/' !in rel[..len] && (len < |rel| ==> rel[len] == '/')
    ensures forall k :: 0 <= k < len ==> s[at + k] == rel[k]
  {
    len := 0;
    CStringChar(s[..], at, rel, 0);
    while s[at + len] != NUL && s[at + len] != '/'
      invariant len <= |rel| && '/' !in rel[..len]
      invariant s[at + len] == NUL <==> len == |rel|
      invariant len < |rel| ==> s[at + len] == rel[len]
      invariant forall k :: 0 <= k < len ==> s[at + k] == rel[k]
      decreases |rel| - len
    {
      assert rel[..len + 1] == rel[..len] + [rel[len]];
      len := len + 1;
      CStringChar(s[..], at, rel, len);
    }
  }

  /** Goes up one component, if there is one. */
  method PopComponent(buf: array<char>, res: nat, ghost stack: seq<string>) returns (r: nat)
    requires res <= buf.Length && buf[..res] == Text(stack) && AllPlain(stack)
    ensures r == |Text(Parent(stack))| <= res && buf[..r] == Text(Parent(stack))
    ensures buf[..r] == if stack == [] then "" else Text(stack[..|stack| - 1])
  {
    r := res;
    ghost var front := Text(Parent(stack));
    if stack != [] {
      assert Text(stack) == front + ("/" + stack[|stack| - 1]);
    }
    while r != 0
      invariant |front| <= r <= res
      invariant stack == [] ==> r == 0
      invariant stack != [] ==> |front| < r
      decreases r
    {
      r := r - 1;
      assert buf[r] == Text(stack)[r];
      if buf[r] == '/' {
        assert r == |front|;
        break;
      }
    }
    assert buf[..r] == buf[..res][..r];
  }

  /** Appends a slash, the component at `beg` and a terminator to the result. */
  method PushComponent(buf: array<char>, res: nat, src: array<char>, beg: nat, len: nat,
                       ghost stack: seq<string>, ghost c: string)
    requires buf.Length >= 3 * PATH_SIZE
    requires res + 1 + len + 1 < PATH_SIZE && buf[..res] == Text(stack)
    requires beg + len <= src.Length && src[beg..beg + len] == c && NUL !in c
    requires src != buf || TMP2 <= beg
    requires NUL !in Text(stack)
    modifies buf
    ensures IsCString(buf[..], 0, Text(stack + [c])) && |Text(stack + [c])| == res + 1 + len
    ensures forall k :: PATH_SIZE <= k < buf.Length ==> buf[k] == old(buf[k])
    ensures buf[..res] == Text(stack)
  {
    PutComponent(buf, res, src, beg, len, c);
    assert buf[..][..res] == buf[..res] && buf[..][res + 1..res + 1 + len] == buf[res + 1..res + 1 + len];
    JoinComponent(buf[..], res, stack, c);
  }

  method PutComponent(buf: array<char>, res: nat, src: array<char>, beg: nat, len: nat, ghost c: string)
    requires res + 1 + len < buf.Length
    requires beg + len <= src.Length && src[beg..beg + len] == c && (src != buf || res < beg)
    modifies buf
    ensures buf[..res] == old(buf[..res]) && buf[res] == '/'
    ensures buf[res + 1..res + 1 + len] == c && buf[res + 1 + len] == NUL
    ensures forall k :: res + 1 + len < k < buf.Length ==> buf[k] == old(buf[k])
  {
    buf[res] := '/';
    assert src[beg..beg + len] == c;
    MemMove(buf, res + 1, src, beg, len);
    buf[res + len + 1] := NUL;
    assert buf[res + 1..res + 1 + len] == c;
  }

  /** What copying a component behind the text of a stack makes. */
  lemma JoinComponent(s: seq<char>, res: nat, stack: seq<string>, c: string)
    requires res + 1 + |c| < |s| && s[..res] == Text(stack) && s[res] == '/' && s[res + 1..res + 1 + |c|] == c
    requires s[res + 1 + |c|] == NUL && NUL !in Text(stack) && NUL !in c
    ensures IsCString(s, 0, Text(stack + [c])) && |Text(stack + [c])| == res + 1 + |c|
  {
    assert (stack + [c])[..|stack|] == stack;
    assert s[..res + 1 + |c|] == s[..res] + [s[res]] + s[res + 1..res + 1 + |c|];
  }

  lemma {:induction false} PlainTextHasNoNul(stack: seq<string>)
    requires AllPlain(stack)
    ensures NUL !in Text(stack)
  {
    if stack != [] {
      PlainTextHasNoNul(stack[..|stack| - 1]);
    }
  }

  /** Builds the link text, a slash and the remaining path in the third slice, where the path may already be. */
  method Splice(buf: array<char>, src: array<char>, rel: nat, linklen: nat, ghost text: string, ghost after: string)
    requires buf.Length >= 3 * PATH_SIZE
    requires IsCString(src[..], rel, after)
    requires linklen == |text| && linklen + 1 + |after| < PATH_SIZE
    requires buf[TMP1..TMP1 + linklen] == text && NUL !in text
    modifies buf
    ensures IsCString(buf[..], TMP2, text + "/" + after)
    ensures forall k :: 0 <= k < TMP2 ==> buf[k] == old(buf[k])
  {
    assert buf[TMP1..TMP1 + linklen] == text;
    MoveRest(buf, src, rel, linklen, after);
    ghost var moved := buf[..];
    MemMove(buf, TMP2, buf, TMP1, linklen);
    KeptRest(moved, buf[..], TMP2 + linklen, after);
    JoinSplice(buf[..], text, after);
  }

  /** Moves the remaining path behind the place of the link text and puts a slash before it. */
  method MoveRest(buf: array<char>, src: array<char>, rel: nat, linklen: nat, ghost after: string)
    requires buf.Length >= 3 * PATH_SIZE
    requires IsCString(src[..], rel, after)
    requires linklen + 1 + |after| < PATH_SIZE
    modifies buf
    ensures buf[TMP2 + linklen] == '/'
    ensures buf[TMP2 + linklen + 1..TMP2 + linklen + 1 + |after| + 1] == after + [NUL]
    ensures forall k :: 0 <= k < TMP2 ==> buf[k] == old(buf[k])
  {
    CStringChar(src[..], rel, after, |after|);
    var rellen := StrLen(src, rel, rel + |after|);
    CStringChar(src[..], rel, after, rellen);
    TerminatedSlice(src[..], rel, after);
    assert src[..][rel..rel + rellen + 1] == src[rel..rel + rellen + 1];
    MemMove(buf, TMP2 + linklen + 1, src, rel, rellen + 1);
    buf[TMP2 + linklen] := '/';
  }

  lemma TerminatedSlice(s: seq<char>, at: nat, text: string)
    requires IsCString(s, at, text)
    ensures s[at..at + |text| + 1] == text + [NUL]
  {
    assert s[at..at + |text| + 1] == s[at..at + |text|] + [s[at + |text|]];
  }

  lemma KeptRest(was: seq<char>, now: seq<char>, at: nat, after: string)
    requires |was| == |now| && at + 1 + |after| < |was|
    requires forall k :: at <= k < |was| ==> now[k] == was[k]
    requires was[at + 1..at + 1 + |after| + 1] == after + [NUL]
    ensures now[at + 1..at + 1 + |after| + 1] == after + [NUL] && now[at] == was[at]
  {
  }

  lemma JoinSplice(s: seq<char>, text: string, after: string)
    requires TMP2 + |text| + 1 + |after| < |s|
    requires s[TMP2..TMP2 + |text|] == text && s[TMP2 + |text|] == '/'
    requires s[TMP2 + |text| + 1..TMP2 + |text| + 1 + |after| + 1] == after + [NUL]
    requires NUL !in text && NUL !in after
    ensures IsCString(s, TMP2, text + "/" + after)
  {
    var mid := TMP2 + |text| + 1;
    assert s[mid..mid + |after|] == s[mid..mid + |after| + 1][..|after|] == after;
    assert s[mid + |after|] == s[mid..mid + |after| + 1][|after|];
    assert s[TMP2..mid + |after|] == s[TMP2..TMP2 + |text|] + [s[TMP2 + |text|]] + s[mid..mid + |after|];
  }

  // ----- the whole loop -----

  /** The result so far is the text of `stack`, with room for a terminator. */
  ghost predicate ResultAt(s: seq<char>, res: nat, stack: seq<string>) {
    && AllPlain(stack)
    && res == |Text(stack)| < PATH_SIZE <= |s|
    && s[..res] == Text(stack)
  }

  /** The resolution of the original path, told from the state of the loop. */
  ghost function Outlook(fs: FileSystem, stack: seq<string>, rel: string, symlinks: nat): Resolution
    requires symlinks <= LINK_BUDGET
  {
    AddLinks(Resolve(fs, stack, Split(rel), symlinks), LINK_BUDGET - symlinks)
  }

  /** Appends a component to the result and asks whether the path so far is a link. */
  method Probe(fs: FileSystem, buf: array<char>, src: array<char>, beg: nat, len: nat, res: nat,
               ghost stack: seq<string>, ghost c: string)
    returns (link: LinkResult, linklen: nat)
    requires FileSystemOk(fs) && buf.Length >= 3 * PATH_SIZE
    requires ResultAt(buf[..], res, stack) && res + 1 + len + 1 < PATH_SIZE
    requires beg + len <= src.Length && src[beg..beg + len] == c && (src != buf || TMP2 <= beg)
    requires |c| == len && Plain(c)
    modifies buf
    ensures ResultAt(buf[..], res, stack)
    ensures ResultAt(buf[..], res + len + 1, stack + [c])
    ensures link == fs(Text(stack + [c])) && (link.Link? ==> link.text != "" && NUL !in link.text)
    ensures link.Link? ==> linklen == if |link.text| <= PATH_SIZE then |link.text| else PATH_SIZE
    ensures link.Link? ==> buf[TMP1..TMP1 + linklen] == link.text[..linklen]
    ensures forall k :: TMP2 <= k < buf.Length ==> buf[k] == old(buf[k])
  {
    PlainTextHasNoNul(stack);
    assert buf[..res] == buf[..][..res];
    PushComponent(buf, res, src, beg, len, stack, c);
    ghost var pushed := buf[..];
    assert pushed[..res] == buf[..res];
    link, linklen := ReadLink(fs, buf, Text(stack + [c]));
    PushedResult(pushed, buf[..], res, len, stack, c);
  }

  /** The same at the first component of the remaining path, which stays in place behind it. */
  method ProbeFirst(fs: FileSystem, buf: array<char>, src: array<char>, beg: nat, len: nat, res: nat,
                    ghost stack: seq<string>, ghost c: string, ghost after: string)
    returns (link: LinkResult, linklen: nat)
    requires FileSystemOk(fs) && buf.Length >= 3 * PATH_SIZE
    requires ResultAt(buf[..], res, stack) && res + 1 + len + 1 < PATH_SIZE
    requires IsCString(src[..], beg, c + after) && (src != buf || TMP2 <= beg)
    requires |c| == len && Plain(c)
    modifies buf
    ensures ResultAt(buf[..], res, stack)
    ensures ResultAt(buf[..], res + len + 1, stack + [c])
    ensures link == fs(Text(stack + [c])) && (link.Link? ==> link.text != "" && NUL !in link.text)
    ensures link.Link? ==> linklen == if |link.text| <= PATH_SIZE then |link.text| else PATH_SIZE
    ensures link.Link? ==> buf[TMP1..TMP1 + linklen] == link.text[..linklen]
    ensures IsCString(src[..], beg + len, after)
  {
    ghost var was := src[..];
    CStringParts(was, beg, len, c, after);
    assert src[beg..beg + len] == was[beg..beg + len];
    link, linklen := Probe(fs, buf, src, beg, len, res, stack, c);
    ghost var now := src[..];
    forall k | beg + len <= k < |was|
      ensures now[k] == was[k]
    {
      assert src[k] == old(src[k]);
    }
    CStringSuffix(was, now, beg + len, after);
  }

  lemma CStringParts(s: seq<char>, beg: nat, len: nat, c: string, after: string)
    requires IsCString(s, beg, c + after) && |c| == len
    ensures s[beg..beg + len] == c && IsCString(s, beg + len, after)
  {
    var text := c + after;
    assert s[beg..beg + |c|] == s[beg..beg + |text|][..|c|] == c;
    assert s[beg + |c|..beg + |text|] == s[beg..beg + |text|][|c|..] == after;
  }

  lemma PushedResult(was: seq<char>, now: seq<char>, res: nat, len: nat, stack: seq<string>, c: string)
    requires |was| == |now| >= PATH_SIZE && AllPlain(stack) && Plain(c)
    requires forall k :: 0 <= k < PATH_SIZE ==> now[k] == was[k]
    requires IsCString(was, 0, Text(stack + [c])) && |Text(stack + [c])| == res + 1 + len < PATH_SIZE
    requires was[..res] == Text(stack)
    ensures ResultAt(now, res, stack) && ResultAt(now, res + len + 1, stack + [c])
  {
    assert now[..res] == was[..res];
    assert now[..res + 1 + len] == was[..res + 1 + len] == was[0..0 + (res + 1 + len)];
  }

  /** Expands a link: the checks, the restart at the root for an absolute one, and the splice. */
  method FollowLink(buf: array<char>, src: array<char>, rel: nat, res: nat, symlinks: nat, linklen: nat,
                    ghost stack: seq<string>, ghost t: string, ghost after: string)
    returns (status: Status, res': nat, symlinks': nat, ghost stack': seq<string>)
    requires buf.Length >= 3 * PATH_SIZE && t != "" && NUL !in t
    requires ResultAt(buf[..], res, stack) && 1 <= symlinks <= LINK_BUDGET
    requires IsCString(src[..], rel, after) && (src != buf || TMP2 <= rel)
    requires linklen == if |t| <= PATH_SIZE then |t| else PATH_SIZE
    requires buf[TMP1..TMP1 + linklen] == t[..linklen]
    modifies buf
    ensures var n := LinkNext(stack, t, after, symlinks);
            && status == n.status
            && (status.Going? ==> symlinks' == n.symlinks && stack' == n.stack && ResultAt(buf[..], res', stack')
                                  && IsCString(buf[..], TMP2, n.rel))
  {
    res', symlinks', stack' := res, symlinks, stack;
    CStringChar(src[..], rel, after, |after|);
    var rellen := StrLen(src, rel, rel + |after|);
    CStringChar(src[..], rel, after, rellen);
    if linklen + 1 + rellen >= PATH_SIZE {
      return Stopped(ENAMETOOLONG), res', symlinks', stack';
    }
    symlinks' := symlinks - 1;
    if symlinks' == 0 {
      return Stopped(ELOOP), res', symlinks', stack';
    }
    assert buf[TMP1] == buf[TMP1..TMP1 + linklen][0];
    if buf[TMP1] == '/' {
      res', stack' := 0, [];
    }
    ghost var was := buf[..];
    Splice(buf, src, rel, linklen, t, after);
    assert buf[..res'] == was[..res'];
    status := Going;
  }

  /**
   * The part of the loop body that looks up a component that is neither `.` nor `..`. The remaining
   * path moves to the third slice when a link was expanded.
   */
  method LookUp(fs: FileSystem, buf: array<char>, src: array<char>, beg: nat, len: nat, res: nat, symlinks: nat,
                ghost stack: seq<string>, ghost c: string, ghost after: string)
    returns (status: Status, src': array<char>, rel': nat, res': nat, symlinks': nat, ghost next: Next)
    requires FileSystemOk(fs) && buf.Length >= 3 * PATH_SIZE
    requires ResultAt(buf[..], res, stack) && 1 <= symlinks <= LINK_BUDGET
    requires IsCString(src[..], beg, c + after) && (src != buf || TMP2 <= beg)
    requires |c| == len && Plain(c)
    modifies buf
    ensures next == NameNext(fs, stack, c, after, symlinks) && status == next.status
    ensures status.Going? ==> symlinks' == next.symlinks && ResultAt(buf[..], res', next.stack)
    ensures status.Going? ==> IsCString(src'[..], rel', next.rel)
    ensures (src' == src && rel' == beg + len) || (src' == buf && rel' == TMP2)
  {
    PathLength(stack, c);
    status, src', rel', res', symlinks' := Going, src, beg + len, res, symlinks;
    if res + 1 + len + 1 >= PATH_SIZE {
      status := Stopped(ENAMETOOLONG);
    } else {
      var link, linklen := ProbeFirst(fs, buf, src, beg, len, res, stack, c, after);
      match link
      case Unreadable(e) =>
        status := Stopped(System(e));
      case NotLink =>
        res' := res + len + 1;
      case Link(t) =>
        ghost var stack';
        status, res', symlinks', stack' := FollowLink(buf, src, beg + len, res, symlinks, linklen, stack, t, after);
        src', rel' := buf, TMP2;
    }
    next := NameNext(fs, stack, c, after, symlinks);
  }

  lemma PathLength(stack: seq<string>, c: string)
    ensures |Text(stack + [c])| == |Text(stack)| + 1 + |c|
  {
    assert (stack + [c])[..|stack|] == stack;
  }

  lemma CStringSuffix(was: seq<char>, now: seq<char>, at: nat, text: string)
    requires IsCString(was, at, text) && |was| == |now|
    requires forall k :: at <= k < |was| ==> now[k] == was[k]
    ensures IsCString(now, at, text)
  {
    assert now[at..at + |text|] == was[at..at + |text|];
  }

  // ----- the function -----

  /** The resolution that `realpath` is meant to compute. */
  ghost function Expected(fs: FileSystem, given: bool, text: string, wd: WorkDir): Resolution {
    if !given then Failed(EINVAL)
    else if text == "" then Failed(ENOENT)
    else if text[0] == '/' then Resolve(fs, [], Split(text), LINK_BUDGET)
    else match wd
      case InvalidWd => Failed(ENOENT)
      case CwdFails(e) => Failed(System(e))
      case Cwd(comps) => Resolve(fs, comps, Split(text), LINK_BUDGET)
  }

  /** The outcome in `r`, and in the buffer for a success, is the resolution `e`. */
  ghost predicate Answers(r: Outcome, s: seq<char>, e: Resolution) {
    match e
    case Failed(error) => r == Error(error)
    case Resolved(comps, _) =>
      && r == Length(|PathText(comps)|)
      && r.len < PATH_SIZE <= |s| && s[..r.len] == PathText(comps)
  }

  /** A working directory as `getcwd` returns it: canonical, and short enough for the buffer. */
  ghost predicate WorkDirOk(wd: WorkDir) {
    wd.Cwd? ==> AllPlain(wd.comps) && |PathText(wd.comps)| < PATH_SIZE
  }

  /** Copies the working directory to the start of the buffer; the root counts as empty. */
  method StartAt(buf: array<char>, comps: seq<string>) returns (res: nat)
    requires buf.Length >= 3 * PATH_SIZE && WorkDirOk(Cwd(comps))
    modifies buf
    ensures ResultAt(buf[..], res, comps)
  {
    var cwd := PathText(comps);
    for k := 0 to |cwd|
      invariant forall i :: 0 <= i < k ==> buf[i] == cwd[i]
    {
      buf[k] := cwd[k];
    }
    buf[|cwd|] := NUL;
    PlainPathLonger(comps);
    res := 0;
    if buf[1] != NUL {
      res := |cwd|;
    }
    assert buf[..|cwd|] == cwd;
    assert buf[..][..res] == buf[..res];
  }

  lemma PlainPathLonger(comps: seq<string>)
    requires AllPlain(comps)
    ensures if comps == [] then PathText(comps) == "/" else |PathText(comps)| > 1 && PathText(comps)[1] != NUL
  {
    if comps != [] {
      PlainTextHasNoNul(comps);
      var front, last := comps[..|comps| - 1], comps[|comps| - 1];
      assert |last| > 0;
      assert PathText(comps)[1] in PathText(comps);
    }
  }

  lemma RoundResolves(fs: FileSystem, stack: seq<string>, cur: string, symlinks: nat, len: nat, n: Next)
    requires 1 <= symlinks <= LINK_BUDGET && RoundNext(fs, stack, cur, symlinks, len, n)
    ensures 1 <= n.symlinks <= symlinks && (n.symlinks == symlinks ==> |n.rel| < |cur|)
    ensures Outlook(fs, stack, cur, symlinks) ==
              if n.status.Stopped? then Failed(n.status.error) else Outlook(fs, n.stack, n.rel, n.symlinks)
  {
    if len == 0 {
      StepSlash(fs, stack, cur, symlinks);
    } else {
      ComponentResolves(fs, stack, cur, len, symlinks);
    }
  }

  lemma OutlookDone(fs: FileSystem, stack: seq<string>, symlinks: nat)
    requires symlinks <= LINK_BUDGET
    ensures Outlook(fs, stack, "", symlinks) == Resolved(stack, LINK_BUDGET - symlinks)
  {
    assert Split("") == [""];
    ResolveBlank(fs, stack, [], symlinks);
    assert [""] + [] == [""];
  }

  /** The tests for `.` and `..`, character by character. */
  lemma DotTests(c: string)
    ensures c == "." <==> |c| == 1 && c[0] == '.'
    ensures c == ".." <==> |c| == 2 && c[0] == '.' && c[1] == '.'
  {
  }

  /** The loop body for a component of positive length. */
  method Component(fs: FileSystem, buf: array<char>, src: array<char>, beg: nat, len: nat, res: nat, symlinks: nat,
                   ghost stack: seq<string>, ghost c: string, ghost after: string)
    returns (status: Status, src': array<char>, rel': nat, res': nat, symlinks': nat, ghost next: Next)
    requires FileSystemOk(fs) && buf.Length >= 3 * PATH_SIZE
    requires ResultAt(buf[..], res, stack) && 1 <= symlinks <= LINK_BUDGET
    requires IsCString(src[..], beg, c + after) && (src != buf || TMP2 <= beg)
    requires 0 < len == |c| && '/' !in c
    modifies buf
    ensures next == ComponentNext(fs, stack, c, after, symlinks) && status == next.status
    ensures status.Going? ==> symlinks' == next.symlinks && ResultAt(buf[..], res', next.stack)
    ensures status.Going? ==> IsCString(src'[..], rel', next.rel)
    ensures (src' == src && rel' == beg + len) || (src' == buf && rel' == TMP2)
  {
    CStringParts(src[..], beg, len, c, after);
    assert src[beg] == src[beg..beg + len][0] && (len >= 2 ==> src[beg + 1] == src[beg..beg + len][1]);
    DotTests(c);
    next := ComponentNext(fs, stack, c, after, symlinks);
    status, src', rel', res', symlinks' := Going, src, beg + len, res, symlinks;
    if src[beg] == '.' {
      if len == 1 {
        return;
      }
      if src[beg + 1] == '.' && len == 2 {
        res' := PopComponent(buf, res, stack);
        assert buf[..][..res'] == buf[..res'];
        return;
      }
    }
    assert forall ch :: ch in c ==> ch in c + after;
    status, src', rel', res', symlinks', next := LookUp(fs, buf, src, beg, len, res, symlinks, stack, c, after);
  }

  lemma CStringCut(s: seq<char>, at: nat, text: string, n: nat)
    requires IsCString(s, at, text) && n <= |text|
    ensures IsCString(s, at, text[..n] + text[n..])
  {
    assert text == text[..n] + text[n..];
  }

  /** The loop body: one step over a slash or a component. */
  method Round(fs: FileSystem, buf: array<char>, src: array<char>, rel: nat, res: nat, symlinks: nat,
               ghost stack: seq<string>, ghost cur: string)
    returns (status: Status, src': array<char>, rel': nat, res': nat, symlinks': nat, ghost len: nat, ghost next: Next)
    requires FileSystemOk(fs) && buf.Length >= 3 * PATH_SIZE
    requires ResultAt(buf[..], res, stack) && 1 <= symlinks <= LINK_BUDGET
    requires IsCString(src[..], rel, cur) && cur != "" && (src != buf || TMP2 <= rel)
    modifies buf
    ensures RoundNext(fs, stack, cur, symlinks, len, next) && status == next.status
    ensures status.Going? ==> symlinks' == next.symlinks && ResultAt(buf[..], res', next.stack)
    ensures status.Going? ==> IsCString(src'[..], rel', next.rel)
    ensures (src' == src && rel <= rel') || (src' == buf && rel' == TMP2)
  {
    var n := ScanComponent(src, rel, cur);
    len := n;
    if n == 0 {
      CStringChar(src[..], rel, cur, 1);
      status, src', rel', res', symlinks' := Going, src, rel + 1, res, symlinks;
      next := Next(Going, stack, cur[1..], symlinks);
    } else {
      CStringCut(src[..], rel, cur, n);
      status, src', rel', res', symlinks', next :=
        Component(fs, buf, src, rel, n, res, symlinks, stack, cur[..n], cur[n..]);
    }
  }

  /** The main loop, from a result `res` with components `stack0` and a path in `path`. */
  method Walk(fs: FileSystem, buf: array<char>, path: array<char>, res0: nat,
              ghost stack0: seq<string>, ghost text: string)
    returns (status: Status, res: nat)
    requires FileSystemOk(fs) && buf.Length >= 3 * PATH_SIZE && path != buf
    requires ResultAt(buf[..], res0, stack0) && IsCString(path[..], 0, text)
    modifies buf
    ensures var e := Resolve(fs, stack0, Split(text), LINK_BUDGET);
            if e.Failed? then status == Stopped(e.error)
            else status == Going && ResultAt(buf[..], res, e.comps)
  {
    ghost var want := Outlook(fs, stack0, text, LINK_BUDGET);
    ghost var stack, cur := stack0, text;
    var src: array<char>, rel: nat, symlinks: nat := path, 0, LINK_BUDGET;
    status, res := Going, res0;
    while src[rel] != NUL
      invariant status == Going && 1 <= symlinks <= LINK_BUDGET
      invariant ResultAt(buf[..], res, stack)
      invariant IsCString(src[..], rel, cur)
      invariant src == path || (src == buf && TMP2 <= rel)
      invariant Outlook(fs, stack, cur, symlinks) == want
      decreases symlinks, |cur|
    {
      CStringChar(src[..], rel, cur, 0);
      ghost var left, len, next := symlinks, 0, Next(Going, stack, cur, symlinks);
      status, src, rel, res, symlinks, len, next := Round(fs, buf, src, rel, res, symlinks, stack, cur);
      RoundResolves(fs, stack, cur, left, len, next);
      if status.Stopped? {
        return;
      }
      stack, cur := next.stack, next.rel;
    }
    CStringChar(src[..], rel, cur, 0);
    OutlookDone(fs, stack, symlinks);
  }

  /**
   * `realpath`: the resolution of `path`, left at the start of the buffer. There is always room for
   * a terminator behind it.
   */
  method Realpath(fs: FileSystem, buf: array<char>, path: array?<char>, wd: WorkDir, ghost text: string)
    returns (r: Outcome)
    requires FileSystemOk(fs) && buf.Length >= 3 * PATH_SIZE && WorkDirOk(wd)
    requires path != null ==> path != buf && IsCString(path[..], 0, text)
    modifies buf
    ensures path == null ==> r == Error(EINVAL)
    ensures path != null && text == "" ==> r == Error(ENOENT)
    ensures path != null && text != "" && text[0] != '/' ==>
              && (wd.InvalidWd? ==> r == Error(ENOENT))
              && (wd.CwdFails? ==> r == Error(System(wd.errno)))
    ensures Answers(r, buf[..], Expected(fs, path != null, text, wd))
  {
    if path == null {
      return Error(EINVAL);
    }
    CStringChar(path[..], 0, text, 0);
    if path[0] == NUL {
      return Error(ENOENT);
    }
    var res := 0;
    ghost var stack := [];
    if path[0] != '/' {
      match wd
      case InvalidWd =>
        return Error(ENOENT);
      case CwdFails(e) =>
        return Error(System(e));
      case Cwd(comps) =>
        res := StartAt(buf, comps);
        stack := comps;
    }
    var status;
    status, res := Walk(fs, buf, path, res, stack, text);
    match status
    case Stopped(e) =>
      r := Error(e);
    case Going =>
      if res == 0 {
        buf[0] := '/';
        res := 1;
      }
      r := Length(res);
      assert buf[..][..res] == buf[..res];
  }

  /** A relative path means what the working directory, a slash and the path mean. */
  lemma RelativeToCwd(fs: FileSystem, text: string, comps: seq<string>, again: WorkDir)
    requires Settled(fs, comps) && text != "" && text[0] != '/'
    ensures Expected(fs, true, text, Cwd(comps)) == Expected(fs, true, PathText(comps) + "/" + text, again)
  {
    TextStartsWithSlash(comps);
    SplitBelow(comps, text);
    DescendsFromRoot(fs, comps, Split(text), LINK_BUDGET);
    BlanksSkipped(fs, comps, Split(text), LINK_BUDGET);
  }

  lemma SplitBelow(comps: seq<string>, text: string)
    requires AllPlain(comps)
    ensures Split(PathText(comps) + "/" + text) == [""] + ((if comps == [] then [""] else comps) + Split(text))
  {
    SplitConcat(PathText(comps), text);
    if comps == [] {
      SplitConcat("", "");
      assert "" + "/" + "" == "/";
      assert Split("/") == ["", ""];
    } else {
      SplitOfText(comps);
    }
  }

  lemma BlanksSkipped(fs: FileSystem, comps: seq<string>, todo: seq<string>, budget: nat)
    ensures Resolve(fs, [], [""] + ((if comps == [] then [""] else comps) + todo), budget) ==
            Resolve(fs, [], comps + todo, budget)
  {
    ResolveBlank(fs, [], (if comps == [] then [""] else comps) + todo, budget);
    if comps == [] {
      ResolveBlank(fs, [], todo, budget);
      assert [] + todo == todo;
    }
  }

  /**
   * A success is canonical: no component is empty, `.` or `..`, no prefix is a link, fewer links than
   * the budget were expanded, and resolving the result again gives the same result with no link.
   */
  lemma RealpathIdempotent(fs: FileSystem, text: string, wd: WorkDir, again: WorkDir)
    requires FileSystemOk(fs) && NUL !in text
    requires wd.Cwd? ==> Settled(fs, wd.comps)
    ensures var r := Expected(fs, true, text, wd);
            r.Resolved? ==>
              && Settled(fs, r.comps)
              && (forall i :: 0 <= i < |r.comps| ==>
                    r.comps[i] !in {"", ".", ".."} && '/' !in r.comps[i] && '\0' !in r.comps[i])
              && r.links < LINK_BUDGET
              && PathText(r.comps)[0] == '/'
              && Expected(fs, true, PathText(r.comps), again) == Resolved(r.comps, 0)
  {
    var r := Expected(fs, true, text, wd);
    if r.Resolved? {
      var start := if text[0] == '/' then [] else wd.comps;
      SplitHasNoSlash(text);
      ResolveSettles(fs, start, Split(text), LINK_BUDGET);
      BudgetOnlyCuts(fs, start, Split(text), LINK_BUDGET, LINK_BUDGET);
      ResolveIdempotent(fs, r.comps, LINK_BUDGET);
      TextStartsWithSlash(r.comps);
    }
  }

  lemma {:induction false} TextStartsWithSlash(comps: seq<string>)
    ensures PathText(comps)[0] == '/'
  {
    if |comps| == 1 {
      TextSingle(comps[0]);
      assert comps == [comps[0]];
    } else if |comps| > 1 {
      TextStartsWithSlash(comps[..|comps| - 1]);
    }
  }
}
