/**
 * Pathname resolution on lists of components, in the manner of section 4.13 of the POSIX.1-2017
 * Base Definitions, over a file system in which `readlink` is a fixed function.
 */
module Paths {
  import opened CStrings

  /** What `readlink` says about a path: the text of a link, not a link (`EINVAL`), or another error. */
  datatype LinkResult = Link(text: string) | NotLink | Unreadable(errno: nat)

  type FileSystem = string -> LinkResult

  /** Links are never empty and contain no terminator. */
  ghost predicate FileSystemOk(fs: FileSystem) {
    forall p :: fs(p).Link? ==> fs(p).text != "" && NUL !in fs(p).text
  }

  datatype Error = EINVAL | ENOENT | ENAMETOOLONG | ELOOP | System(errno: nat)

  /** The resolved components and the number of links expanded on the way. */
  datatype Resolution = Resolved(comps: seq<string>, links: nat) | Failed(error: Error)

  /** The size of a path buffer, `EIO_PATH_MAX`: that of the platform, but at least `EIO_PATH_MIN`. */
  type PathSize = n: nat | n >= 8160 witness 8160

  const PATH_SIZE: PathSize

  /** The link budget: `SYMLOOP_MAX` of the platform, but at least 32. */
  type LinkBudget = n: nat | n >= 32 witness 32

  const LINK_BUDGET: LinkBudget

  // ----- text and components -----

  /** The substrings between slashes: never empty as a list. */
  function Split(s: string): (r: seq<string>)
    ensures |r| >= 1
  {
    if s == "" then [""]
    else
      var r := Split(s[1..]);
      if s[0] == '/' then [""] + r else [[s[0]] + r[0]] + r[1..]
  }

  /** A slash before every component. */
  function Text(comps: seq<string>): string {
    if comps == [] then "" else Text(comps[..|comps| - 1]) + "/" + comps[|comps| - 1]
  }

  /** An absolute path; the root has no components. */
  function PathText(comps: seq<string>): string {
    if comps == [] then "/" else Text(comps)
  }

  /** A component as it may appear in a resolved path. */
  predicate Plain(c: string) {
    c != "" && c != "." && c != ".." && '/' !in c && NUL !in c
  }

  ghost predicate AllPlain(comps: seq<string>) {
    forall i :: 0 <= i < |comps| ==> Plain(comps[i])
  }

  function Parent(stack: seq<string>): seq<string> {
    if stack == [] then [] else stack[..|stack| - 1]
  }

  /** Where the resolution of a link starts: at the root for an absolute one. */
  function Restart(stack: seq<string>, text: string): seq<string> {
    if text != "" && text[0] == '/' then [] else stack
  }

  // ----- the resolver -----

  /**
   * Resolves `todo` below the already resolved `stack`: skips empty components and `.`, goes up for
   * `..`, and splices the text of a link before what remains. Every path looked up, and every
   * remaining path made by a splice, must fit in a buffer.
   */
  function Resolve(fs: FileSystem, stack: seq<string>, todo: seq<string>, budget: nat): Resolution
    decreases budget, |todo|
  {
    if todo == [] then Resolved(stack, 0)
    else
      var c, rest := todo[0], todo[1..];
      if c == "" || c == "." then Resolve(fs, stack, rest, budget)
      else if c == ".." then Resolve(fs, Parent(stack), rest, budget)
      else
        var path := Text(stack + [c]);
        if |path| + 1 >= PATH_SIZE then Failed(ENAMETOOLONG)
        else match fs(path)
          case Unreadable(e) => Failed(System(e))
          case NotLink => Resolve(fs, stack + [c], rest, budget)
          case Link(text) =>
            if |text| + 1 + |Text(rest)| >= PATH_SIZE then Failed(ENAMETOOLONG)
            else if budget <= 1 then Failed(ELOOP)
            else
              AddLink(Resolve(fs, Restart(stack, text),
                              Split(text) + [""] + rest, budget - 1))
  }

  function AddLink(r: Resolution): Resolution {
    if r.Resolved? then r.(links := r.links + 1) else r
  }

  /** The same without any limit on lengths, and splicing nothing but the link itself. */
  function PosixResolve(fs: FileSystem, stack: seq<string>, todo: seq<string>, budget: nat): Resolution
    decreases budget, |todo|
  {
    if todo == [] then Resolved(stack, 0)
    else
      var c, rest := todo[0], todo[1..];
      if c == "" || c == "." then PosixResolve(fs, stack, rest, budget)
      else if c == ".." then PosixResolve(fs, Parent(stack), rest, budget)
      else match fs(Text(stack + [c]))
        case Unreadable(e) => Failed(System(e))
        case NotLink => PosixResolve(fs, stack + [c], rest, budget)
        case Link(text) =>
          if budget <= 1 then Failed(ELOOP)
          else
            AddLink(PosixResolve(fs, Restart(stack, text),
                                 Split(text) + rest, budget - 1))
  }

  // ----- facts about text -----

  lemma {:induction false} SplitConcat(a: string, b: string)
    ensures Split(a + "/" + b) == Split(a) + Split(b)
  {
    var s := a + "/" + b;
    if a == "" {
      assert s[1..] == b;
    } else {
      assert s[1..] == a[1..] + "/" + b;
      SplitConcat(a[1..], b);
    }
  }

  lemma {:induction false} SplitNoSlash(c: string)
    requires '/' !in c
    ensures Split(c) == [c]
  {
    if c != "" {
      assert c[0] in c;
      SplitNoSlash(c[1..]);
      assert [c[0]] + c[1..] == c;
    }
  }

  lemma {:induction false} SplitHasNoSlash(s: string)
    ensures forall i :: 0 <= i < |Split(s)| ==> '/' !in Split(s)[i]
    ensures NUL !in s ==> forall i :: 0 <= i < |Split(s)| ==> NUL !in Split(s)[i]
  {
    if s != "" {
      SplitHasNoSlash(s[1..]);
      assert s[0] in s;
      assert forall ch :: ch in s[1..] ==> ch in s;
    }
  }

  lemma {:induction false} TextConcat(a: seq<string>, b: seq<string>)
    ensures Text(a + b) == Text(a) + Text(b)
    decreases |b|
  {
    if b == [] {
      assert a + b == a;
    } else {
      assert (a + b)[..|a + b| - 1] == a + b[..|b| - 1];
      TextConcat(a, b[..|b| - 1]);
    }
  }

  lemma TextSingle(c: string)
    ensures Text([c]) == "/" + c
  {
    assert [c][..0] == [];
  }

  lemma TextLengthCons(c: string, rest: seq<string>)
    ensures |Text([c] + rest)| == 1 + |c| + |Text(rest)|
  {
    TextConcat([c], rest);
    TextSingle(c);
  }

  /** Splitting loses no characters. */
  lemma {:induction false} TextOfSplitLength(s: string)
    ensures |Text(Split(s))| == 1 + |s|
  {
    if s == "" {
      TextLengthCons("", []);
      assert [""] + [] == [""];
    } else {
      TextOfSplitLength(s[1..]);
      var r := Split(s[1..]);
      assert r == [r[0]] + r[1..];
      TextLengthCons(r[0], r[1..]);
      TextLengthCons("", r);
      TextLengthCons([s[0]] + r[0], r[1..]);
    }
  }

  /** A resolved path splits into its own components, after the empty one before the first slash. */
  lemma {:induction false} SplitOfText(comps: seq<string>)
    requires comps != [] && AllPlain(comps)
    ensures Split(Text(comps)) == [""] + comps
  {
    var front, last := comps[..|comps| - 1], comps[|comps| - 1];
    SplitNoSlash(last);
    if front == [] {
      assert Text(comps) == "" + "/" + last;
      SplitConcat("", last);
    } else {
      SplitConcat(Text(front), last);
      SplitOfText(front);
    }
  }

  // ----- what resolution guarantees -----

  /** No prefix of the path is a link, and every prefix fits in a buffer. */
  ghost predicate Settled(fs: FileSystem, stack: seq<string>) {
    && AllPlain(stack)
    && forall n :: 1 <= n <= |stack| ==> fs(Text(stack[..n])) == NotLink && |Text(stack[..n])| + 1 < PATH_SIZE
  }

  ghost predicate CleanTodo(todo: seq<string>) {
    forall i :: 0 <= i < |todo| ==> '/' !in todo[i] && NUL !in todo[i]
  }

  lemma SettledParent(fs: FileSystem, stack: seq<string>)
    requires Settled(fs, stack)
    ensures Settled(fs, Parent(stack))
  {
    if stack != [] {
      var p := Parent(stack);
      forall n | 1 <= n <= |p|
        ensures p[..n] == stack[..n]
      {
      }
    }
  }

  lemma SettledPush(fs: FileSystem, stack: seq<string>, c: string)
    requires Settled(fs, stack) && Plain(c)
    requires fs(Text(stack + [c])) == NotLink && |Text(stack + [c])| + 1 < PATH_SIZE
    ensures Settled(fs, stack + [c])
  {
    var s := stack + [c];
    forall n | 1 <= n <= |s|
      ensures fs(Text(s[..n])) == NotLink && |Text(s[..n])| + 1 < PATH_SIZE
    {
      if n <= |stack| {
        assert s[..n] == stack[..n];
      } else {
        assert s[..n] == s;
      }
    }
  }

  lemma CleanSplice(text: string, rest: seq<string>)
    requires NUL !in text && CleanTodo(rest)
    ensures CleanTodo(Split(text) + [""] + rest) && CleanTodo(Split(text) + rest)
  {
    SplitHasNoSlash(text);
  }

  /** A successful resolution ends at a path without links or special components. */
  lemma {:induction false} ResolveSettles(fs: FileSystem, stack: seq<string>, todo: seq<string>, budget: nat)
    requires FileSystemOk(fs) && Settled(fs, stack) && CleanTodo(todo)
    ensures var r := Resolve(fs, stack, todo, budget); r.Resolved? ==> Settled(fs, r.comps)
    decreases budget, |todo|
  {
    if todo != [] {
      var c, rest := todo[0], todo[1..];
      if c == "" || c == "." {
        ResolveSettles(fs, stack, rest, budget);
      } else if c == ".." {
        SettledParent(fs, stack);
        ResolveSettles(fs, Parent(stack), rest, budget);
      } else if |Text(stack + [c])| + 1 < PATH_SIZE {
        match fs(Text(stack + [c]))
        case Unreadable(e) =>
        case NotLink =>
          SettledPush(fs, stack, c);
          ResolveSettles(fs, stack + [c], rest, budget);
        case Link(text) =>
          if |text| + 1 + |Text(rest)| < PATH_SIZE && budget > 1 {
            CleanSplice(text, rest);
            ResolveSettles(fs, Restart(stack, text), Split(text) + [""] + rest, budget - 1);
          }
      }
    }
  }

  /** Walking down an already settled path reaches it, whatever the budget. */
  lemma {:induction false} WalkSettled(fs: FileSystem, path: seq<string>, done: nat, budget: nat)
    requires Settled(fs, path) && done <= |path|
    ensures Resolve(fs, path[..done], path[done..], budget) == Resolved(path, 0)
    decreases |path| - done
  {
    if done == |path| {
      assert path[..done] == path;
    } else {
      var c := path[done];
      assert path[done..][0] == c && path[done..][1..] == path[done + 1..];
      assert path[..done] + [c] == path[..done + 1];
      WalkSettled(fs, path, done + 1, budget);
    }
  }

  /** Below a settled path, resolution goes on as if it had started there. */
  lemma {:induction false} Descends(fs: FileSystem, path: seq<string>, done: nat, todo: seq<string>, budget: nat)
    requires Settled(fs, path) && done <= |path|
    ensures Resolve(fs, path[..done], path[done..] + todo, budget) == Resolve(fs, path, todo, budget)
    decreases |path| - done
  {
    if done == |path| {
      assert path[..done] == path && path[done..] + todo == todo;
    } else {
      var c := path[done];
      assert (path[done..] + todo)[0] == c && (path[done..] + todo)[1..] == path[done + 1..] + todo;
      assert path[..done] + [c] == path[..done + 1];
      Descends(fs, path, done + 1, todo, budget);
    }
  }

  lemma DescendsFromRoot(fs: FileSystem, path: seq<string>, todo: seq<string>, budget: nat)
    requires Settled(fs, path)
    ensures Resolve(fs, [], path + todo, budget) == Resolve(fs, path, todo, budget)
  {
    Descends(fs, path, 0, todo, budget);
    assert path[..0] == [] && path[0..] == path;
  }

  /** An empty component, as between two slashes, and `.` change nothing. */
  lemma BlanksVanish(fs: FileSystem, stack: seq<string>, c: string, rest: seq<string>, budget: nat)
    requires Settled(fs, stack) && c in {"", "."}
    ensures Resolve(fs, [], stack + [c] + rest, budget) == Resolve(fs, [], stack + rest, budget)
  {
    assert stack + [c] + rest == stack + ([c] + rest);
    DescendsFromRoot(fs, stack, [c] + rest, budget);
    DescendsFromRoot(fs, stack, rest, budget);
    assert ([c] + rest)[0] == c && ([c] + rest)[1..] == rest;
  }

  /** A name that is no link, and `..`, are two steps that cancel out. */
  lemma NameAndUp(fs: FileSystem, stack: seq<string>, c: string, rest: seq<string>, budget: nat)
    requires Plain(c) && fs(Text(stack + [c])) == NotLink && |Text(stack + [c])| + 1 < PATH_SIZE
    ensures Resolve(fs, stack, [c] + ([".."] + rest), budget) == Resolve(fs, stack, rest, budget)
  {
    assert ([c] + ([".."] + rest))[0] == c && ([c] + ([".."] + rest))[1..] == [".."] + rest;
    UpStep(fs, stack + [c], rest, budget);
    assert (stack + [c])[..|stack|] == stack;
  }

  lemma UpStep(fs: FileSystem, stack: seq<string>, rest: seq<string>, budget: nat)
    ensures Resolve(fs, stack, [".."] + rest, budget) ==
            Resolve(fs, if stack == [] then [] else stack[..|stack| - 1], rest, budget)
  {
    assert ([".."] + rest)[0] == ".." && ([".."] + rest)[1..] == rest;
  }

  /** `..` takes back the name before it, if that is no link, and does nothing at the root. */
  lemma UpTakesBack(fs: FileSystem, stack: seq<string>, c: string, rest: seq<string>, budget: nat)
    requires Settled(fs, stack) && Plain(c)
    requires fs(Text(stack + [c])) == NotLink && |Text(stack + [c])| + 1 < PATH_SIZE
    ensures Resolve(fs, [], stack + ([c] + ([".."] + rest)), budget) == Resolve(fs, [], stack + rest, budget)
    ensures Resolve(fs, [], [".."] + rest, budget) == Resolve(fs, [], rest, budget)
  {
    DescendsFromRoot(fs, stack, [c] + ([".."] + rest), budget);
    DescendsFromRoot(fs, stack, rest, budget);
    NameAndUp(fs, stack, c, rest, budget);
    UpStep(fs, [], rest, budget);
  }

  /** One step over a link: the checks, and the resolution that goes on from where the link starts. */
  lemma LinkStep(fs: FileSystem, stack: seq<string>, c: string, rest: seq<string>, budget: nat, t: string)
    requires Plain(c) && fs(Text(stack + [c])) == Link(t)
    ensures Resolve(fs, stack, [c] + rest, budget) ==
              if |Text(stack + [c])| + 1 >= PATH_SIZE || |t| + 1 + |Text(rest)| >= PATH_SIZE then Failed(ENAMETOOLONG)
              else if budget <= 1 then Failed(ELOOP)
              else AddLink(Resolve(fs, Restart(stack, t), Split(t) + [""] + rest, budget - 1))
  {
    assert ([c] + rest)[0] == c && ([c] + rest)[1..] == rest;
  }

  lemma RestartFromRoot(fs: FileSystem, stack: seq<string>, t: string, todo: seq<string>, budget: nat)
    requires Settled(fs, stack)
    ensures Resolve(fs, Restart(stack, t), todo, budget) ==
            Resolve(fs, [], if t != "" && t[0] == '/' then todo else stack + todo, budget)
  {
    DescendsFromRoot(fs, stack, todo, budget);
  }

  /**
   * A link below a settled path counts as one link, and is replaced by its text: from the root if
   * the text starts with a slash, and in its directory if not. The checks are made in this order.
   */
  lemma LinkIsItsText(fs: FileSystem, stack: seq<string>, c: string, rest: seq<string>, budget: nat)
    requires Settled(fs, stack) && Plain(c) && fs(Text(stack + [c])).Link?
    ensures var t := fs(Text(stack + [c])).text;
            Resolve(fs, [], stack + [c] + rest, budget) ==
              if |Text(stack + [c])| + 1 >= PATH_SIZE || |t| + 1 + |Text(rest)| >= PATH_SIZE then Failed(ENAMETOOLONG)
              else if budget <= 1 then Failed(ELOOP)
              else
                match Resolve(fs, [], if t != "" && t[0] == '/' then Split(t) + [""] + rest
                                      else stack + (Split(t) + [""] + rest), budget - 1)
                case Failed(e) => Failed(e)
                case Resolved(comps, links) => Resolved(comps, links + 1)
  {
    var t := fs(Text(stack + [c])).text;
    assert stack + [c] + rest == stack + ([c] + rest);
    DescendsFromRoot(fs, stack, [c] + rest, budget);
    LinkStep(fs, stack, c, rest, budget, t);
    if budget > 1 {
      RestartFromRoot(fs, stack, t, Split(t) + [""] + rest, budget - 1);
    }
  }

  /** A path of plain names without links is its own resolution exactly if it fits, with room for two more. */
  lemma {:induction false} PlainPathFits(fs: FileSystem, path: seq<string>, done: nat, budget: nat)
    requires AllPlain(path) && done <= |path|
    requires forall n :: 1 <= n <= |path| ==> fs(Text(path[..n])) == NotLink
    ensures Resolve(fs, path[..done], path[done..], budget) ==
              if done == |path| || |Text(path)| + 1 < PATH_SIZE then Resolved(path, 0) else Failed(ENAMETOOLONG)
    decreases |path| - done
  {
    if done == |path| {
      assert path[..done] == path;
    } else {
      var c := path[done];
      assert path[done..][0] == c && path[done..][1..] == path[done + 1..];
      assert path[..done] + [c] == path[..done + 1];
      PrefixShorter(path, done + 1);
      PlainPathFits(fs, path, done + 1, budget);
      assert done + 1 == |path| ==> path[..done + 1] == path;
    }
  }

  lemma PrefixShorter(path: seq<string>, n: nat)
    requires n <= |path|
    ensures |Text(path[..n])| <= |Text(path)|
  {
    TextConcat(path[..n], path[n..]);
    assert path[..n] + path[n..] == path;
  }

  /** Whatever else `readlink` reports ends the resolution. */
  lemma UnreadableFails(fs: FileSystem, stack: seq<string>, c: string, rest: seq<string>, budget: nat)
    requires Settled(fs, stack) && Plain(c) && fs(Text(stack + [c])).Unreadable?
    requires |Text(stack + [c])| + 1 < PATH_SIZE
    ensures Resolve(fs, [], stack + [c] + rest, budget) == Failed(System(fs(Text(stack + [c])).errno))
  {
    assert stack + [c] + rest == stack + ([c] + rest);
    DescendsFromRoot(fs, stack, [c] + rest, budget);
    assert ([c] + rest)[0] == c;
  }

  /** Resolution is idempotent on its own results, and needs no link for them. */
  lemma ResolveIdempotent(fs: FileSystem, path: seq<string>, budget: nat)
    requires Settled(fs, path)
    ensures Resolve(fs, [], Split(PathText(path)), budget) == Resolved(path, 0)
  {
    WalkSettled(fs, path, 0, budget);
    assert path[..0] == [] && path[0..] == path;
    if path == [] {
      SplitConcat("", "");
      assert Split("/") == ["", ""];
    } else {
      SplitOfText(path);
    }
  }

  /** The same at a link, from what holds behind it. */
  lemma BudgetCutsLink(fs: FileSystem, stack: seq<string>, todo: seq<string>, text: string, small: nat, large: nat)
    requires 1 <= small <= large && Resolve(fs, stack, todo, large).Resolved?
    requires todo != [] && todo[0] != "" && todo[0] != "." && todo[0] != ".."
    requires fs(Text(stack + [todo[0]])) == Link(text) && large > 1
    requires var next := Resolve(fs, Restart(stack, text), Split(text) + [""] + todo[1..], large - 1);
             next.Resolved? ==>
               && next.links < large - 1
               && (small > 1 ==> Resolve(fs, Restart(stack, text), Split(text) + [""] + todo[1..], small - 1) ==
                                   if next.links < small - 1 then next else Failed(ELOOP))
    ensures var r := Resolve(fs, stack, todo, large);
            r.links < large && Resolve(fs, stack, todo, small) == if r.links < small then r else Failed(ELOOP)
  {
  }

  /**
   * The budget only ever cuts a resolution short: with a smaller budget the result is the same if
   * the links expanded fit in it, and ELOOP if they do not.
   */
  lemma {:induction false} BudgetOnlyCuts(fs: FileSystem, stack: seq<string>, todo: seq<string>, small: nat, large: nat)
    requires 1 <= small <= large
    requires Resolve(fs, stack, todo, large).Resolved?
    ensures var r := Resolve(fs, stack, todo, large);
            && r.links < large
            && Resolve(fs, stack, todo, small) == if r.links < small then r else Failed(ELOOP)
    decreases large, |todo|
  {
    if todo != [] {
      var c, rest := todo[0], todo[1..];
      if c == "" || c == "." {
        BudgetOnlyCuts(fs, stack, rest, small, large);
      } else if c == ".." {
        BudgetOnlyCuts(fs, Parent(stack), rest, small, large);
      } else {
        match fs(Text(stack + [c]))
        case Unreadable(e) =>
        case NotLink =>
          BudgetOnlyCuts(fs, stack + [c], rest, small, large);
        case Link(text) =>
          if Resolve(fs, Restart(stack, text), Split(text) + [""] + rest, large - 1).Resolved? {
            BudgetOnlyCuts(fs, Restart(stack, text), Split(text) + [""] + rest,
                           if small > 1 then small - 1 else 1, large - 1);
          }
          BudgetCutsLink(fs, stack, todo, text, small, large);
      }
    }
  }

  /** An empty component never matters to the unlimited resolver. */
  lemma {:induction false} BlankIgnored(fs: FileSystem, stack: seq<string>, a: seq<string>, b: seq<string>, budget: nat)
    ensures PosixResolve(fs, stack, a + [""] + b, budget) == PosixResolve(fs, stack, a + b, budget)
    decreases budget, |a|
  {
    if a == [] {
      assert a + [""] + b == [""] + b && a + b == b;
      assert ([""] + b)[1..] == b;
    } else {
      var c, rest := a[0], a[1..];
      assert (a + [""] + b)[1..] == rest + [""] + b;
      assert (a + b)[1..] == rest + b;
      if c == "" || c == "." {
        BlankIgnored(fs, stack, rest, b, budget);
      } else if c == ".." {
        BlankIgnored(fs, Parent(stack), rest, b, budget);
      } else {
        match fs(Text(stack + [c]))
        case Unreadable(e) =>
        case NotLink =>
          BlankIgnored(fs, stack + [c], rest, b, budget);
        case Link(text) =>
          if budget > 1 {
            assert Split(text) + (rest + [""] + b) == (Split(text) + rest) + [""] + b;
            assert Split(text) + (rest + b) == (Split(text) + rest) + b;
            BlankIgnored(fs, Restart(stack, text), Split(text) + rest, b, budget - 1);
          }
      }
    }
  }

  function Larger(a: nat, b: nat): nat {
    if a < b then b else a
  }

  /** The length of the longest path that a resolution without limits looks up or makes, plus one. */
  function Room(fs: FileSystem, stack: seq<string>, todo: seq<string>, budget: nat): nat
    decreases budget, |todo|
  {
    if todo == [] then 0
    else
      var c, rest := todo[0], todo[1..];
      if c == "" || c == "." then Room(fs, stack, rest, budget)
      else if c == ".." then Room(fs, Parent(stack), rest, budget)
      else
        var path := Text(stack + [c]);
        Larger(|path| + 1,
               match fs(path)
               case Unreadable(_) => 0
               case NotLink => Room(fs, stack + [c], rest, budget)
               case Link(text) =>
                 Larger(|text| + 1 + |Text(rest)|,
                        if budget <= 1 then 0
                        else Room(fs, Restart(stack, text),
                                  Split(text) + [""] + rest, budget - 1)))
  }

  lemma {:induction false} PosixNeverTooLong(fs: FileSystem, stack: seq<string>, todo: seq<string>, budget: nat)
    ensures PosixResolve(fs, stack, todo, budget) != Failed(ENAMETOOLONG)
    decreases budget, |todo|
  {
    if todo != [] {
      var c, rest := todo[0], todo[1..];
      if c == "" || c == "." {
        PosixNeverTooLong(fs, stack, rest, budget);
      } else if c == ".." {
        PosixNeverTooLong(fs, Parent(stack), rest, budget);
      } else {
        match fs(Text(stack + [c]))
        case Unreadable(e) =>
        case NotLink =>
          PosixNeverTooLong(fs, stack + [c], rest, budget);
        case Link(text) =>
          if budget > 1 {
            PosixNeverTooLong(fs, Restart(stack, text), Split(text) + rest, budget - 1);
          }
      }
    }
  }

  /**
   * The length limits change nothing as long as all paths fit, and turn the resolution into
   * ENAMETOOLONG, which has no other cause, if one of them does not.
   */
  lemma {:induction false} LimitsOnlyCut(fs: FileSystem, stack: seq<string>, todo: seq<string>, budget: nat)
    ensures Resolve(fs, stack, todo, budget) ==
              if Room(fs, stack, todo, budget) < PATH_SIZE then PosixResolve(fs, stack, todo, budget)
              else Failed(ENAMETOOLONG)
    ensures PosixResolve(fs, stack, todo, budget) != Failed(ENAMETOOLONG)
    decreases budget, |todo|
  {
    PosixNeverTooLong(fs, stack, todo, budget);
    if todo != [] {
      var c, rest := todo[0], todo[1..];
      if c == "" || c == "." {
        LimitsOnlyCut(fs, stack, rest, budget);
      } else if c == ".." {
        LimitsOnlyCut(fs, Parent(stack), rest, budget);
      } else if |Text(stack + [c])| + 1 < PATH_SIZE {
        match fs(Text(stack + [c]))
        case Unreadable(e) =>
        case NotLink =>
          LimitsOnlyCut(fs, stack + [c], rest, budget);
        case Link(text) =>
          if |text| + 1 + |Text(rest)| < PATH_SIZE && budget > 1 {
            var stack' := Restart(stack, text);
            LimitsOnlyCut(fs, stack', Split(text) + [""] + rest, budget - 1);
            BlankIgnored(fs, stack', Split(text), rest, budget - 1);
          }
      }
    }
  }
}
