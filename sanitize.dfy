/** `sanitize_filename`: keep letters, digits, space, '.' and '_', then drop
    trailing whitespace. */
module Sanitize {

  /** Letters and digits. Python's `str.isalnum` is Unicode-aware; this model
      restricts it to the ASCII letters and digits. */
  predicate IsAlnum(c: char) {
    ('a' <= c <= 'z') || ('A' <= c <= 'Z') || ('0' <= c <= '9')
  }

  /** The characters the filter lets through. */
  predicate IsAllowed(c: char) {
    IsAlnum(c) || c == ' ' || c == '.' || c == '_'
  }

  /** Python's `str.isspace`: the characters a bare `rstrip()` removes. */
  predicate IsSpace(c: char) {
    || c == ' ' || ('\t' <= c <= '\r') || ('\U{1C}' <= c <= '\U{1F}')
    || c == '\U{85}' || c == '\U{A0}' || c == '\U{1680}'
    || ('\U{2000}' <= c <= '\U{200A}') || c == '\U{2028}' || c == '\U{2029}'
    || c == '\U{202F}' || c == '\U{205F}' || c == '\U{3000}'
  }

  predicate AllAllowed(s: string) {
    forall i :: 0 <= i < |s| ==> IsAllowed(s[i])
  }

  predicate AllSpace(s: string) {
    forall i :: 0 <= i < |s| ==> IsSpace(s[i])
  }

  /** `s` does not end in whitespace. */
  predicate NoTrailingSpace(s: string) {
    s == [] || !IsSpace(s[|s| - 1])
  }

  /** `a` occurs in `b` with its characters in order, possibly with gaps. */
  predicate IsSubsequence(a: string, b: string)
    decreases |b|
  {
    if a == [] then true
    else if b == [] then false
    else if a[0] == b[0] then IsSubsequence(a[1..], b[1..])
    else IsSubsequence(a, b[1..])
  }

  /** The joined generator `c for c in filename if c.isalnum() or c in (' ', '.', '_')`. */
  function KeepAllowed(s: string): (r: string)
    ensures AllAllowed(r)
    ensures |r| <= |s|
  {
    if s == [] then []
    else if IsAllowed(s[0]) then [s[0]] + KeepAllowed(s[1..])
    else KeepAllowed(s[1..])
  }

  /** `str.rstrip()` with no argument. The result is the longest prefix of `s`
      that does not end in whitespace: what it drops is all whitespace. */
  function RStrip(s: string): (r: string)
    ensures |r| <= |s| && r == s[..|r|]
    ensures AllSpace(s[|r|..])
    ensures NoTrailingSpace(r)
  {
    if s != [] && IsSpace(s[|s| - 1]) then
      var r := RStrip(s[..|s| - 1]);
      assert s[|r|..] == s[..|s| - 1][|r|..] + [s[|s| - 1]];
      r
    else s
  }

  /** `sanitize_filename(filename)`. */
  function SanitizeFilename(s: string): (r: string)
    ensures AllAllowed(r)
    ensures NoTrailingSpace(r)
    ensures |r| <= |s|
  {
    RStrip(KeepAllowed(s))
  }

  /** The filter distributes over concatenation. */
  lemma {:induction false} KeepAllowedAppend(a: string, b: string)
    ensures KeepAllowed(a + b) == KeepAllowed(a) + KeepAllowed(b)
  {
    if a == [] {
      assert a + b == b;
    } else {
      assert (a + b)[0] == a[0] && (a + b)[1..] == a[1..] + b;
      KeepAllowedAppend(a[1..], b);
    }
  }

  /** A string made only of allowed characters passes the filter unchanged. */
  lemma {:induction false} KeepAllowedOfAllowed(s: string)
    requires AllAllowed(s)
    ensures KeepAllowed(s) == s
  {
    if s != [] {
      KeepAllowedOfAllowed(s[1..]);
    }
  }

  /** The filter keeps exactly the allowed occurrences: each allowed character
      as often as in `s`, every other character never. */
  lemma {:induction false} KeepAllowedCounts(s: string, c: char)
    ensures multiset(KeepAllowed(s))[c] == if IsAllowed(c) then multiset(s)[c] else 0
  {
    if s != [] {
      assert s == [s[0]] + s[1..];
      KeepAllowedCounts(s[1..], c);
    }
  }

  /** The filter keeps the characters in their original order. */
  lemma {:induction false} KeepAllowedIsSubsequence(s: string)
    ensures IsSubsequence(KeepAllowed(s), s)
  {
    if s != [] {
      KeepAllowedIsSubsequence(s[1..]);
    }
  }

  /** A prefix of a subsequence is a subsequence. */
  lemma {:induction false} SubsequencePrefix(a: string, b: string, n: nat)
    requires IsSubsequence(a, b) && n <= |a|
    ensures IsSubsequence(a[..n], b)
    decreases |b|
  {
    if n > 0 {
      assert b != [];
      if a[0] == b[0] {
        SubsequencePrefix(a[1..], b[1..], n - 1);
        assert a[..n][1..] == a[1..][..n - 1];
      } else {
        SubsequencePrefix(a, b[1..], n);
      }
    }
  }

  /** The sanitised name is made of characters of `s`, in their original order. */
  lemma SanitizeIsSubsequence(s: string)
    ensures IsSubsequence(SanitizeFilename(s), s)
  {
    var kept := KeepAllowed(s);
    KeepAllowedIsSubsequence(s);
    SubsequencePrefix(kept, s, |SanitizeFilename(s)|);
  }

  /** Sanitising twice gives what sanitising once gives. */
  lemma SanitizeIdempotent(s: string)
    ensures SanitizeFilename(SanitizeFilename(s)) == SanitizeFilename(s)
  {
    KeepAllowedOfAllowed(SanitizeFilename(s));
  }

  /** A reference description of the result: the allowed characters of `s`,
      in order, with a run of trailing whitespace removed, leaving no
      whitespace at the end. Exactly one string fits it, the sanitised name. */
  ghost predicate SanitizedFrom(s: string, r: string) {
    var kept := KeepAllowed(s);
    |r| <= |kept| && r == kept[..|r|] && AllSpace(kept[|r|..]) && NoTrailingSpace(r)
  }

  lemma SanitizeMatchesReference(s: string, r: string)
    ensures SanitizedFrom(s, r) <==> r == SanitizeFilename(s)
  {
    if SanitizedFrom(s, r) && |r| != |SanitizeFilename(s)| {
      assert false;
    }
  }
}
