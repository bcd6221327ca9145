/** String operations of Python that the pipeline and the reports rely on:
    decimal formatting of integers, str.lower on the Latin and Cyrillic
    alphabets, the padding of format specs, str.center and str.rjust,
    posixpath.join, startswith/endswith and the `in` substring test. */
module Text {

  function Repeat(c: char, n: nat): (r: string)
    ensures |r| == n
    ensures forall i :: 0 <= i < n ==> r[i] == c
  {
    if n == 0 then "" else [c] + Repeat(c, n - 1)
  }

  function DigitChar(d: nat): (c: char)
    requires d < 10
  {
    "0123456789"[d]
  }

  predicate IsDigit(c: char) {
    '0' <= c <= '9'
  }

  /** `str(n)` for a natural number. */
  function NatToString(n: nat): (s: string)
    ensures |s| >= 1
    ensures forall i :: 0 <= i < |s| ==> IsDigit(s[i])
  {
    if n < 10 then [DigitChar(n)] else NatToString(n / 10) + [DigitChar(n % 10)]
  }

  /** `str(i)` for any integer: a minus sign, then the digits of |i|. */
  function IntToString(i: int): (s: string)
    ensures |s| >= 1
  {
    if i < 0 then "-" + NatToString(-i) else NatToString(i)
  }

  /** The value a string of decimal digits denotes. */
  function DigitsValue(s: string): nat
    requires forall i :: 0 <= i < |s| ==> IsDigit(s[i])
  {
    if s == [] then 0
    else
      assert IsDigit(s[|s| - 1]);
      10 * DigitsValue(s[..|s| - 1]) + ((s[|s| - 1] as int) - ('0' as int))
  }

  /** Formatting a natural number and reading it back gives the number. */
  lemma {:induction false} NatToStringRoundTrip(n: nat)
    ensures DigitsValue(NatToString(n)) == n
  {
    var s := NatToString(n);
    if n >= 10 {
      NatToStringRoundTrip(n / 10);
      assert s[..|s| - 1] == NatToString(n / 10);
    }
  }

  /** Formatting is injective on natural numbers. */
  lemma NatToStringInjective(a: nat, b: nat)
    requires NatToString(a) == NatToString(b)
    ensures a == b
  {
    NatToStringRoundTrip(a);
    NatToStringRoundTrip(b);
  }

  /** `format(s, '>w')`: right-aligned in a field of width w; never truncates. */
  function PadLeft(s: string, w: nat): (r: string)
    ensures |r| == if |s| < w then w else |s|
    ensures r[|r| - |s|..] == s
    ensures forall i :: 0 <= i < |r| - |s| ==> r[i] == ' '
  {
    if |s| < w then Repeat(' ', w - |s|) + s else s
  }

  /** `format(s, '<w')`: left-aligned in a field of width w; never truncates. */
  function PadRight(s: string, w: nat): (r: string)
    ensures |r| == if |s| < w then w else |s|
    ensures r[..|s|] == s
    ensures forall i :: |s| <= i < |r| ==> r[i] == ' '
  {
    if |s| < w then s + Repeat(' ', w - |s|) else s
  }

  /** `s.center(w)`: CPython puts marg / 2 spaces on the left, plus one more
      when both the margin and the width are odd. */
  function Center(s: string, w: nat): (r: string)
    ensures |r| == if |s| < w then w else |s|
  {
    if |s| >= w then s
    else
      var marg := w - |s|;
      var left := marg / 2 + (if marg % 2 == 1 && w % 2 == 1 then 1 else 0);
      Repeat(' ', left) + s + Repeat(' ', marg - left)
  }

  predicate StartsWith(s: string, prefix: string) {
    |prefix| <= |s| && s[..|prefix|] == prefix
  }

  predicate EndsWith(s: string, suffix: string) {
    |suffix| <= |s| && s[|s| - |suffix|..] == suffix
  }

  /** Python's `needle in haystack` for strings, scanning the start
      positions from the left. */
  predicate Contains(haystack: string, needle: string) {
    StartsWith(haystack, needle) || (haystack != [] && Contains(haystack[1..], needle))
  }

  predicate OccursAt(haystack: string, needle: string, k: int) {
    0 <= k <= |haystack| - |needle| && haystack[k..k + |needle|] == needle
  }

  /** Containment means an occurrence at some position; the empty string
      occurs everywhere. */
  lemma {:induction false} ContainsSpec(haystack: string, needle: string)
    ensures Contains(haystack, needle) <==> exists k :: OccursAt(haystack, needle, k)
    ensures Contains(haystack, "")
  {
    if haystack != [] {
      ContainsSpec(haystack[1..], needle);
      if exists k :: OccursAt(haystack, needle, k) {
        var k :| OccursAt(haystack, needle, k);
        if k > 0 {
          assert haystack[1..][k - 1..k - 1 + |needle|] == needle;
          assert OccursAt(haystack[1..], needle, k - 1);
        }
      }
      if exists k :: OccursAt(haystack[1..], needle, k) {
        var k :| OccursAt(haystack[1..], needle, k);
        assert haystack[k + 1..k + 1 + |needle|] == haystack[1..][k..k + |needle|];
        assert OccursAt(haystack, needle, k + 1);
      }
      if StartsWith(haystack, needle) {
        assert OccursAt(haystack, needle, 0);
      }
    } else {
      if exists k :: OccursAt(haystack, needle, k) {
        var k :| OccursAt(haystack, needle, k);
        assert OccursAt(haystack, needle, 0);
      }
      assert OccursAt(haystack, "", 0);
    }
  }

  /** `s[:n]`: Python slicing clamps the bound. */
  function Take(s: string, n: nat): (r: string)
    ensures |r| == if n < |s| then n else |s|
    ensures StartsWith(s, r)
  {
    if n < |s| then s[..n] else s
  }

  /** `posixpath.join(a, b)`: an absolute b discards a; otherwise a '/' is
      inserted unless a is empty or already ends with one. */
  function JoinPath(a: string, b: string): (r: string)
    ensures StartsWith(b, "/") ==> r == b
    ensures EndsWith(r, b)
  {
    if StartsWith(b, "/") then b
    else if a == "" || EndsWith(a, "/") then a + b
    else a + "/" + b
  }

  /** `sep.join(parts)`. */
  function Join(parts: seq<string>, sep: string): string
  {
    if parts == [] then ""
    else if |parts| == 1 then parts[0]
    else Join(parts[..|parts| - 1], sep) + sep + parts[|parts| - 1]
  }

  /** Joining a + b puts one separator between the two joined halves. */
  lemma {:induction false} JoinSplit(a: seq<string>, b: seq<string>, sep: string)
    requires a != [] && b != []
    ensures Join(a + b, sep) == Join(a, sep) + sep + Join(b, sep)
  {
    if |b| == 1 {
      assert (a + b)[..|a + b| - 1] == a;
    } else {
      var init := b[..|b| - 1];
      assert (a + b)[..|a + b| - 1] == a + init;
      JoinSplit(a, init, sep);
    }
  }

  /** Parts without line breaks, joined by "\n", give one line break
      fewer than there are parts. */
  lemma {:induction false} JoinLines(parts: seq<string>)
    requires parts != []
    requires forall k :: 0 <= k < |parts| ==> '\n' !in parts[k]
    ensures Newlines(Join(parts, "\n")) == |parts| - 1
  {
    NewlinesNone(parts[|parts| - 1]);
    if |parts| > 1 {
      var init := parts[..|parts| - 1];
      assert forall k :: 0 <= k < |init| ==> init[k] == parts[k];
      JoinLines(init);
      NewlinesConcat(Join(init, "\n"), "\n");
      NewlinesConcat(Join(init, "\n") + "\n", parts[|parts| - 1]);
    }
  }

  /** `str.lower()` on the Latin and Russian alphabets; every other character
      is left as it is. */
  function LowerChar(c: char): (r: char)
  {
    if 'A' <= c <= 'Z' then (c as int + 32) as char
    else if 'А' <= c <= 'Я' then (c as int + 32) as char
    else if c == 'Ё' then 'ё'
    else c
  }

  function Lower(s: string): (r: string)
    ensures |r| == |s|
    ensures forall i :: 0 <= i < |s| ==> r[i] == LowerChar(s[i])
  {
    if s == [] then "" else [LowerChar(s[0])] + Lower(s[1..])
  }

  /** The number of line breaks in s. */
  function Newlines(s: string): (n: nat)
    ensures n <= |s|
  {
    if s == [] then 0 else Newlines(s[..|s| - 1]) + (if s[|s| - 1] == '\n' then 1 else 0)
  }

  lemma {:induction false} NewlinesConcat(a: string, b: string)
    ensures Newlines(a + b) == Newlines(a) + Newlines(b)
  {
    if b != [] {
      assert (a + b)[..|a + b| - 1] == a + b[..|b| - 1];
      NewlinesConcat(a, b[..|b| - 1]);
    } else {
      assert a + b == a;
    }
  }

  lemma {:induction false} NewlinesNone(s: string)
    requires '\n' !in s
    ensures Newlines(s) == 0
  {
    if s != [] {
      assert '\n' !in s[..|s| - 1];
      NewlinesNone(s[..|s| - 1]);
    }
  }

  lemma StartsWithExtend(x: string, y: string, p: string)
    requires StartsWith(x, p)
    ensures StartsWith(x + y, p)
  {
    assert (x + y)[..|p|] == x[..|p|];
  }

  lemma EndsWithPrepend(x: string, y: string, s: string)
    requires EndsWith(y, s)
    ensures EndsWith(x + y, s)
  {
    assert (x + y)[|x + y| - |s|..] == y[|y| - |s|..];
  }

  lemma EndsWithExtend(x: string, s: string, y: string)
    requires EndsWith(x, s)
    ensures EndsWith(x + y, s + y)
  {
    assert (x + y)[|x + y| - |s + y|..] == x[|x| - |s|..] + y;
  }

  /** f(first, s[0]) + f(first + 1, s[1]) + ...: the text a loop over
      `enumerate(s, first)` appends piece by piece. */
  function ConcatIndexed<T>(s: seq<T>, first: nat, f: (nat, T) -> string): string {
    if s == [] then "" else ConcatIndexed(s[..|s| - 1], first, f) + f(first + |s| - 1, s[|s| - 1])
  }

  lemma ConcatIndexedStep<T>(s: seq<T>, first: nat, f: (nat, T) -> string, k: nat)
    requires k < |s|
    ensures ConcatIndexed(s[..k + 1], first, f) == ConcatIndexed(s[..k], first, f) + f(first + k, s[k])
  {
    assert s[..k + 1][..k] == s[..k];
  }

  lemma ConcatIndexedNone<T>(s: seq<T>, first: nat, f: (nat, T) -> string)
    ensures ConcatIndexed(s[..0], first, f) == ""
  {
    assert s[..0] == [];
  }

  lemma ConcatIndexedAll<T>(s: seq<T>, first: nat, f: (nat, T) -> string)
    ensures ConcatIndexed(s[..|s|], first, f) == ConcatIndexed(s, first, f)
  {
    assert s[..|s|] == s;
  }

  /** A loop over `enumerate(s, first)` that appends f(i, item) to a
      string on every pass. */
  method AppendIndexed<T>(start: string, s: seq<T>, first: nat, f: (nat, T) -> string) returns (r: string)
    ensures r == start + ConcatIndexed(s, first, f)
  {
    r := start;
    ConcatIndexedNone(s, first, f);
    for k := 0 to |s|
      invariant r == start + ConcatIndexed(s[..k], first, f)
    {
      ConcatIndexedStep(s, first, f, k);
      r := r + f(first + k, s[k]);
    }
    ConcatIndexedAll(s, first, f);
  }

  /** Numbering continues across a split: the pieces of a + b are those of
      a followed by those of b, numbered on from first + |a|. */
  lemma {:induction false} ConcatIndexedSplit<T>(a: seq<T>, b: seq<T>, first: nat, f: (nat, T) -> string)
    ensures ConcatIndexed(a + b, first, f) == ConcatIndexed(a, first, f) + ConcatIndexed(b, first + |a|, f)
  {
    if b == [] {
      assert a + b == a;
    } else {
      assert (a + b)[..|a + b| - 1] == a + b[..|b| - 1];
      ConcatIndexedSplit(a, b[..|b| - 1], first, f);
    }
  }

  /** Pieces of one line each make one line per element. */
  lemma {:induction false} ConcatIndexedLines<T>(s: seq<T>, first: nat, f: (nat, T) -> string)
    requires forall k :: 0 <= k < |s| ==> Newlines(f(first + k, s[k])) == 1
    ensures Newlines(ConcatIndexed(s, first, f)) == |s|
  {
    if s != [] {
      var init := s[..|s| - 1];
      assert forall k :: 0 <= k < |init| ==> init[k] == s[k];
      ConcatIndexedLines(init, first, f);
      NewlinesConcat(ConcatIndexed(init, first, f), f(first + |s| - 1, s[|s| - 1]));
    }
  }
}
