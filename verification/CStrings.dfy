/** Terminated strings in buffers. */
module CStrings {

  const NUL: char := '\0'

  /** The terminated string that starts at `at`. */
  ghost predicate IsCString(s: seq<char>, at: nat, text: string) {
    && at + |text| < |s|
    && s[at..at + |text|] == text
    && s[at + |text|] == NUL
    && NUL !in text
  }

  lemma CStringChar(s: seq<char>, at: nat, text: string, k: nat)
    requires IsCString(s, at, text) && k <= |text|
    ensures s[at + k] == (if k < |text| then text[k] else NUL)
    ensures s[at + k] == NUL <==> k == |text|
    ensures IsCString(s, at + k, text[k..])
  {
    if k < |text| {
      assert s[at..at + |text|][k] == text[k];
      assert text[k] in text;
    }
    assert s[at + k..at + |text|] == s[at..at + |text|][k..];
  }

  /** The number of characters before the first terminator; there is one at `end`. */
  method StrLen(s: array<char>, at: nat, ghost end: nat) returns (len: nat)
    requires at <= end < s.Length && s[end] == NUL
    ensures at + len <= end && s[at + len] == NUL
    ensures NUL !in s[at..at + len]
  {
    len := 0;
    while s[at + len] != NUL
      invariant at + len <= end
      invariant NUL !in s[at..at + len]
      decreases end - len
    {
      assert s[at..at + len + 1] == s[at..at + len] + [s[at + len]];
      len := len + 1;
    }
  }
}
