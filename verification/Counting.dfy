/** Counting the elements of a sequence that satisfy a predicate. */
module Counting {

  ghost function Count<T>(s: seq<T>, p: T -> bool): (n: nat)
    ensures n <= |s|
  {
    if s == [] then 0
    else Count(s[..|s| - 1], p) + if p(s[|s| - 1]) then 1 else 0
  }

  lemma {:induction false} CountConcat<T>(s: seq<T>, t: seq<T>, p: T -> bool)
    ensures Count(s + t, p) == Count(s, p) + Count(t, p)
    decreases |t|
  {
    if t == [] {
      assert s + t == s;
    } else {
      assert (s + t)[..|s + t| - 1] == s + t[..|t| - 1];
      CountConcat(s, t[..|t| - 1], p);
    }
  }

  lemma {:induction false} CountAll<T>(s: seq<T>, p: T -> bool)
    ensures Count(s, p) == |s| <==> forall i :: 0 <= i < |s| ==> p(s[i])
    ensures Count(s, p) == 0 <==> forall i :: 0 <= i < |s| ==> !p(s[i])
  {
    if s != [] {
      CountAll(s[..|s| - 1], p);
    }
  }

  /** The sequence without its element `k`. */
  function Without<T>(s: seq<T>, k: nat): (r: seq<T>)
    requires k < |s|
    ensures |r| == |s| - 1
    ensures forall e :: e in r ==> e in s
  {
    s[..k] + s[k + 1..]
  }

  lemma MultisetRemove<T>(t: seq<T>, k: nat)
    requires k < |t|
    ensures multiset(t[..k] + t[k + 1..]) == multiset(t) - multiset{t[k]}
  {
    assert t == t[..k] + [t[k]] + t[k + 1..];
  }

  lemma CountSplit<T>(t: seq<T>, k: nat, p: T -> bool)
    requires k < |t|
    ensures Count(t, p) == Count(t[..k], p) + (if p(t[k]) then 1 else 0) + Count(t[k + 1..], p)
  {
    assert t == t[..k + 1] + t[k + 1..];
    CountConcat(t[..k + 1], t[k + 1..], p);
    assert t[..k + 1][..k] == t[..k];
  }

  lemma CountRemove<T>(t: seq<T>, k: nat, p: T -> bool)
    requires k < |t|
    ensures Count(t, p) == Count(t[..k] + t[k + 1..], p) + if p(t[k]) then 1 else 0
  {
    CountSplit(t, k, p);
    CountConcat(t[..k], t[k + 1..], p);
  }

  lemma CountUpdate<T>(s: seq<T>, k: nat, x: T, p: T -> bool)
    requires k < |s|
    ensures Count(s[k := x], p) + (if p(s[k]) then 1 else 0) == Count(s, p) + if p(x) then 1 else 0
  {
    CountSplit(s, k, p);
    CountSplit(s[k := x], k, p);
    assert s[k := x][..k] == s[..k] && s[k := x][k + 1..] == s[k + 1..];
  }

  lemma CountAppend<T>(s: seq<T>, x: T, p: T -> bool)
    ensures Count(s + [x], p) == Count(s, p) + if p(x) then 1 else 0
  {
    assert (s + [x])[..|s|] == s;
  }

  /** Counting does not depend on the order of the sequence. */
  lemma {:induction false} CountPermuted<T>(s: seq<T>, t: seq<T>, p: T -> bool)
    requires multiset(s) == multiset(t)
    ensures Count(s, p) == Count(t, p)
    decreases |s|
  {
    if s == [] {
      assert |t| == |multiset(t)| == 0;
    } else {
      var k := FindSame(s, t);
      CountRemove(s, 0, p);
      CountRemove(t, k, p);
      MultisetRemove(s, 0);
      MultisetRemove(t, k);
      CountPermuted(s[..0] + s[1..], t[..k] + t[k + 1..], p);
    }
  }

  lemma FindSame<T>(s: seq<T>, t: seq<T>) returns (k: nat)
    requires s != [] && multiset(s) == multiset(t)
    ensures k < |t| && t[k] == s[0]
  {
    assert s[0] in multiset(t);
    k :| 0 <= k < |t| && t[k] == s[0];
  }

  /** Applying a function to every element. */
  ghost function Map<T, U>(s: seq<T>, f: T -> U): (r: seq<U>)
    ensures |r| == |s|
    ensures forall i :: 0 <= i < |s| ==> r[i] == f(s[i])
  {
    seq(|s|, i requires 0 <= i < |s| => f(s[i]))
  }
}
