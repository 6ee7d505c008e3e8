/** The trigger loop of `run`: call `doSearch01()` ... `doSearch68()` on the
    base page in ascending order, logging a caught failure and going on. */
module Triggers {
  import opened Outcomes

  const FirstTrigger: nat := 1
  const LastTrigger: nat := 68
  const NamePrefix := "doSearch"

  predicate IsDigit(c: char) {
    '0' <= c <= '9'
  }

  function DigitChar(d: nat): (c: char)
    requires d < 10
    ensures IsDigit(c)
  {
    ('0' as int + d) as char
  }

  function DigitValue(c: char): (d: nat)
    requires IsDigit(c)
    ensures d < 10
  {
    c as int - '0' as int
  }

  predicate AllDigits(s: string) {
    forall i :: 0 <= i < |s| ==> IsDigit(s[i])
  }

  /** Python's `str(n)` for a non-negative integer: no leading zero. */
  function DecimalString(n: nat): (r: string)
    ensures |r| >= 1 && AllDigits(r)
    ensures |r| > 1 ==> r[0] != '0'
    ensures (n < 10) == (|r| == 1)
  {
    if n < 10 then [DigitChar(n)] else DecimalString(n / 10) + [DigitChar(n % 10)]
  }

  /** The value of a string of decimal digits. */
  function ParseDecimal(s: string): nat
    requires AllDigits(s)
  {
    if s == [] then 0 else ParseDecimal(s[..|s| - 1]) * 10 + DigitValue(s[|s| - 1])
  }

  lemma {:induction false} ParseDecimalString(n: nat)
    ensures ParseDecimal(DecimalString(n)) == n
  {
    var s := DecimalString(n);
    if n >= 10 {
      assert s[..|s| - 1] == DecimalString(n / 10);
      ParseDecimalString(n / 10);
    }
  }

  /** The format specification `02d`: zero-padded to at least two digits. */
  function ZeroPad2(n: nat): (r: string)
    ensures |r| >= 2 && AllDigits(r)
  {
    var d := DecimalString(n);
    if |d| < 2 then "0" + d else d
  }

  /** Padding keeps the value: reading the padded digits back gives `n`. */
  lemma ZeroPad2RoundTrip(n: nat)
    ensures |ZeroPad2(n)| >= 2 && AllDigits(ZeroPad2(n))
    ensures ParseDecimal(ZeroPad2(n)) == n
  {
    var d := DecimalString(n);
    ParseDecimalString(n);
    if |d| < 2 {
      assert ("0" + d)[..1] == "0";
    }
  }

  /** Below 100 the padded form is exactly the tens digit and the units digit. */
  lemma ZeroPad2TwoDigits(n: nat)
    requires n < 100
    ensures ZeroPad2(n) == [DigitChar(n / 10), DigitChar(n % 10)]
  {
    if n >= 10 {
      assert DecimalString(n / 10) == [DigitChar(n / 10)];
    }
  }

  /** `f"doSearch{i:02d}"`. */
  function TriggerName(i: nat): (r: string)
    ensures |r| >= |NamePrefix| + 2 && r[..|NamePrefix|] == NamePrefix
  {
    NamePrefix + ZeroPad2(i)
  }

  /** Reads the ordinal back out of a trigger name; `None` for any other string. */
  function ParseTriggerName(s: string): Option<nat> {
    if |s| > |NamePrefix| && s[..|NamePrefix|] == NamePrefix && AllDigits(s[|NamePrefix|..])
    then Some(ParseDecimal(s[|NamePrefix|..]))
    else None
  }

  lemma TriggerNameRoundTrip(i: nat)
    ensures ParseTriggerName(TriggerName(i)) == Some(i)
  {
    ZeroPad2RoundTrip(i);
    var s := TriggerName(i);
    assert s[..|NamePrefix|] == NamePrefix;
    assert s[|NamePrefix|..] == ZeroPad2(i);
  }

  /** Different ordinals give different names. */
  lemma TriggerNameInjective(i: nat, j: nat)
    ensures TriggerName(i) == TriggerName(j) <==> i == j
  {
    TriggerNameRoundTrip(i);
    TriggerNameRoundTrip(j);
  }

  /** Every name the loop builds is `doSearch` and two digits. */
  lemma TriggerNameShape(i: nat)
    requires FirstTrigger <= i <= LastTrigger
    ensures |TriggerName(i)| == |NamePrefix| + 2
    ensures TriggerName(i)[..|NamePrefix|] == NamePrefix
  {
    ZeroPad2TwoDigits(i);
  }

  /** Python's `<` on strings: lexicographic by code point. */
  predicate LexLess(a: string, b: string) {
    if a == [] then b != []
    else if b == [] then false
    else a[0] < b[0] || (a[0] == b[0] && LexLess(a[1..], b[1..]))
  }

  lemma {:induction false} LexLessCommonPrefix(p: string, x: string, y: string)
    ensures LexLess(p + x, p + y) <==> LexLess(x, y)
  {
    if p == [] {
      assert p + x == x && p + y == y;
    } else {
      assert (p + x)[1..] == p[1..] + x;
      assert (p + y)[1..] == p[1..] + y;
      LexLessCommonPrefix(p[1..], x, y);
    }
  }

  /** Zero-padding makes the textual order of the names agree with the
      numeric order of the ordinals. */
  lemma TriggerNamesAscending(i: nat, j: nat)
    requires FirstTrigger <= i < j <= LastTrigger
    ensures LexLess(TriggerName(i), TriggerName(j))
  {
    LexLessCommonPrefix(NamePrefix, ZeroPad2(i), ZeroPad2(j));
    ZeroPad2TwoDigits(i);
    ZeroPad2TwoDigits(j);
    var x, y := ZeroPad2(i), ZeroPad2(j);
    assert x[1..] == [DigitChar(i % 10)] && y[1..] == [DigitChar(j % 10)];
    if i / 10 == j / 10 {
      assert i % 10 < j % 10;
    } else {
      assert i / 10 < j / 10;
    }
  }

  /** The try block's `except (RuntimeError, ValueError)`. */
  predicate TriggerCatches(k: ErrorKind) {
    k == RuntimeError || k == ValueError
  }

  predicate Escapes(o: Outcome) {
    o.Raised? && !TriggerCatches(o.kind)
  }

  /** The position of the first call whose exception is not caught, or the
      number of calls when there is none. */
  function FirstEscapeFrom(evals: seq<Outcome>, from: nat): (n: nat)
    requires from <= |evals|
    ensures from <= n <= |evals|
    ensures forall k :: from <= k < n ==> !Escapes(evals[k])
    ensures n < |evals| ==> Escapes(evals[n])
    decreases |evals| - from
  {
    if from == |evals| || Escapes(evals[from]) then from else FirstEscapeFrom(evals, from + 1)
  }

  function FirstEscape(evals: seq<Outcome>): (n: nat)
    ensures n <= |evals|
    ensures forall k :: 0 <= k < n ==> !Escapes(evals[k])
    ensures n < |evals| ==> Escapes(evals[n])
  {
    FirstEscapeFrom(evals, 0)
  }

  /** The names, in call order, of the first `n` triggers whose failure was
      caught and logged; `evals[k]` is the outcome of trigger `k + 1`. */
  function LoggedFailures(evals: seq<Outcome>, n: nat): seq<string>
    requires n <= |evals|
  {
    if n == 0 then []
    else
      LoggedFailures(evals, n - 1)
      + (if evals[n - 1].Raised? && TriggerCatches(evals[n - 1].kind) then [TriggerName(n)] else [])
  }

  /** The scripts of triggers `1 .. n`, in call order. */
  function ScriptsUpTo(n: nat): (r: seq<string>)
    ensures |r| == n
    ensures forall k :: 0 <= k < n ==> r[k] == TriggerName(k + 1) + "()"
  {
    if n == 0 then [] else ScriptsUpTo(n - 1) + [TriggerName(n) + "()"]
  }

  /** How many triggers the loop attempts: up to and including the first
      whose exception escapes, else all of them. */
  function Attempted(evals: seq<Outcome>): nat {
    var e := FirstEscape(evals);
    if e < |evals| then e + 1 else |evals|
  }

  /** The trigger loop. `evals[k]` is what `page.evaluate` does for trigger
      `k + 1`. Returns the scripts evaluated, in order, the names whose
      failure was logged, and the exception that left the loop, if any. */
  method DispatchTriggers(evals: seq<Outcome>) returns (scripts: seq<string>, logged: seq<string>, escaped: Option<ErrorKind>)
    requires |evals| == LastTrigger
    ensures scripts == ScriptsUpTo(Attempted(evals))
    ensures logged == LoggedFailures(evals, Attempted(evals))
    ensures escaped.None? <==> FirstEscape(evals) == LastTrigger
    ensures escaped.Some? ==> escaped.value == evals[FirstEscape(evals)].kind
  {
    scripts, logged, escaped := [], [], None;
    var i := FirstTrigger;
    while i < LastTrigger + 1
      invariant FirstTrigger <= i <= LastTrigger + 1
      invariant i - 1 <= FirstEscape(evals)
      invariant scripts == ScriptsUpTo(i - 1)
      invariant logged == LoggedFailures(evals, i - 1)
    {
      var name := TriggerName(i);
      scripts := scripts + [name + "()"];
      var outcome := evals[i - 1];
      if outcome.Raised? {
        if TriggerCatches(outcome.kind) {
          logged := logged + [name];
        } else {
          escaped := Some(outcome.kind);
          return;
        }
      }
      i := i + 1;
    }
  }

  /** A caught failure never stops the loop: when no call raises anything
      outside `RuntimeError` and `ValueError`, all 68 triggers are attempted,
      whatever else failed. */
  lemma NothingEscapesAllAttempted(evals: seq<Outcome>)
    requires |evals| == LastTrigger
    requires forall k :: 0 <= k < |evals| ==> !Escapes(evals[k])
    ensures Attempted(evals) == LastTrigger
    ensures |ScriptsUpTo(Attempted(evals))| == LastTrigger
  {
  }

  /** No string is below itself. */
  lemma {:induction false} LexLessIrreflexive(x: string)
    ensures !LexLess(x, x)
  {
    if x != [] {
      LexLessIrreflexive(x[1..]);
    }
  }

  /** Appending the same text to two strings of equal length keeps their order. */
  lemma {:induction false} LexLessAppend(x: string, y: string, t: string)
    requires |x| == |y| && LexLess(x, y)
    ensures LexLess(x + t, y + t)
  {
    assert x != [] && y != [];
    if x[0] == y[0] {
      assert (x + t)[1..] == x[1..] + t;
      assert (y + t)[1..] == y[1..] + t;
      LexLessAppend(x[1..], y[1..], t);
    }
  }

  /** The scripts of the first `n` triggers are pairwise distinct and strictly
      ascending in string order. */
  lemma ScriptsAscending(n: nat)
    requires n <= LastTrigger
    ensures forall a, b :: 0 <= a < b < n ==> LexLess(ScriptsUpTo(n)[a], ScriptsUpTo(n)[b])
    ensures forall a, b :: 0 <= a < b < n ==> ScriptsUpTo(n)[a] != ScriptsUpTo(n)[b]
  {
    var r := ScriptsUpTo(n);
    forall a, b | 0 <= a < b < n
      ensures LexLess(r[a], r[b]) && r[a] != r[b]
    {
      TriggerNamesAscending(a + 1, b + 1);
      TriggerNameShape(a + 1);
      TriggerNameShape(b + 1);
      LexLessAppend(TriggerName(a + 1), TriggerName(b + 1), "()");
      LexLessIrreflexive(r[a]);
    }
  }
}
