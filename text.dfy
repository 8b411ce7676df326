/**
 * The JavaScript string operations the page code relies on: `trim`, `split`
 * on one character, `indexOf` of a substring, `startsWith`, and the decimal
 * rendering of a whole number inside a template string.
 */
module Text {
  import opened Wrappers

  /** WhiteSpace and LineTerminator code points, the ones `String.prototype.trim` removes. */
  predicate IsSpace(c: char) {
    || c == '\t' || c == '\n' || c == '\U{B}' || c == '\U{C}' || c == '\r'
    || c == ' ' || c == '\U{A0}' || c == '\U{1680}'
    || ('\U{2000}' <= c <= '\U{200A}')
    || c == '\U{2028}' || c == '\U{2029}' || c == '\U{202F}' || c == '\U{205F}'
    || c == '\U{3000}' || c == '\U{FEFF}'
  }

  predicate AllSpace(s: string) {
    forall i :: 0 <= i < |s| ==> IsSpace(s[i])
  }

  /** A string `trim` leaves as it is: empty, or with no white space at either end. */
  predicate Trimmed(s: string) {
    s == [] || (!IsSpace(s[0]) && !IsSpace(s[|s| - 1]))
  }

  /** Number of white-space characters at the start of `s`. */
  function Leading(s: string): (n: nat)
    ensures n <= |s|
    ensures forall i :: 0 <= i < n ==> IsSpace(s[i])
    ensures n < |s| ==> !IsSpace(s[n])
  {
    if s == [] || !IsSpace(s[0]) then 0 else 1 + Leading(s[1..])
  }

  /** Number of white-space characters at the end of `s`. */
  function Trailing(s: string): (n: nat)
    ensures n <= |s|
    ensures forall i :: |s| - n <= i < |s| ==> IsSpace(s[i])
    ensures n < |s| ==> !IsSpace(s[|s| - 1 - n])
  {
    if s == [] || !IsSpace(s[|s| - 1]) then 0 else 1 + Trailing(s[..|s| - 1])
  }

  /** `s.trim()` */
  function Trim(s: string): (r: string)
    ensures Trimmed(r)
    ensures r == [] <==> AllSpace(s)
    ensures |r| <= |s|
  {
    var t := s[Leading(s)..];
    var r := t[..|t| - Trailing(t)];
    assert r != [] ==> r[0] == t[0] && r[|r| - 1] == t[|t| - 1 - Trailing(t)];
    assert AllSpace(s) ==> Leading(s) == |s|;
    assert !AllSpace(s) ==> Leading(s) < |s| && Trailing(t) < |t|;
    r
  }

  lemma LeadingOf(p: string, rest: string)
    requires AllSpace(p)
    requires rest == [] || !IsSpace(rest[0])
    ensures Leading(p + rest) == |p|
  {
    var s := p + rest;
    assert forall i :: 0 <= i < |p| ==> s[i] == p[i];
    assert |p| < |s| ==> s[|p|] == rest[0];
  }

  lemma TrailingOf(rest: string, q: string)
    requires AllSpace(q)
    requires rest == [] || !IsSpace(rest[|rest| - 1])
    ensures Trailing(rest + q) == |q|
  {
    var s := rest + q;
    assert forall i :: |rest| <= i < |s| ==> s[i] == q[i - |rest|];
    assert |q| < |s| ==> s[|rest| - 1] == rest[|rest| - 1];
  }

  /**
   * `trim` removes exactly the surrounding white space: whatever white space
   * surrounds a trimmed string, trimming gives that string back.
   */
  lemma {:induction false} TrimOf(p: string, m: string, q: string)
    requires AllSpace(p) && AllSpace(q) && Trimmed(m)
    ensures Trim(p + m + q) == m
  {
    var s := p + m + q;
    if m == [] {
      assert AllSpace(s) by {
        forall i | 0 <= i < |s| ensures IsSpace(s[i]) {
          if i < |p| { assert s[i] == p[i]; } else { assert s[i] == q[i - |p|]; }
        }
      }
    } else {
      assert s == p + (m + q);
      LeadingOf(p, m + q);
      assert s[|p|..] == m + q;
      TrailingOf(m, q);
      assert (m + q)[..|m|] == m;
    }
  }

  /** `trim` leaves a trimmed string as it is; in particular trimming twice is trimming once. */
  lemma TrimIdempotent(w: string)
    requires Trimmed(w)
    ensures Trim(w) == w
  {
    TrimOf([], w, []);
    assert [] + w + [] == w;
  }

  /** Every character of `Trim(s)` comes from `s`. */
  lemma TrimKeeps(s: string, c: char)
    requires c in Trim(s)
    ensures c in s
  {
    var t := s[Leading(s)..];
    var r := t[..|t| - Trailing(t)];
    var k :| 0 <= k < |r| && r[k] == c;
    assert s[Leading(s) + k] == c;
  }

  /** Index of the first `c` in `s`. */
  function IndexOfChar(s: string, c: char): (i: nat)
    requires c in s
    ensures i < |s| && s[i] == c && c !in s[..i]
  {
    if s[0] == c then 0
    else
      var i := IndexOfChar(s[1..], c) + 1;
      assert s[..i] == [s[0]] + s[1..][..i - 1];
      i
  }

  lemma IndexOfCharIs(s: string, c: char, i: nat)
    requires i < |s| && s[i] == c && c !in s[..i]
    ensures IndexOfChar(s, c) == i
  {
  }

  /** `s.split(c)`: the pieces between consecutive occurrences of `c`, every piece kept, empty ones too. */
  function Split(s: string, c: char): (parts: seq<string>)
    ensures |parts| >= 1
    ensures forall k :: 0 <= k < |parts| ==> c !in parts[k]
    ensures forall k, x :: 0 <= k < |parts| && x in parts[k] ==> x in s
    decreases |s|
  {
    if c in s then
      var i := IndexOfChar(s, c);
      var rest := Split(s[i + 1..], c);
      assert forall x :: x in s[i + 1..] ==> x in s;
      assert forall x :: x in s[..i] ==> x in s;
      [s[..i]] + rest
    else [s]
  }

  /** `parts.join(c)` */
  function Join(parts: seq<string>, c: char): string
    requires |parts| >= 1
  {
    if |parts| == 1 then parts[0] else parts[0] + [c] + Join(parts[1..], c)
  }

  /** Splitting loses nothing: joining the pieces back gives the original string. */
  lemma {:induction false} SplitJoin(s: string, c: char)
    ensures Join(Split(s, c), c) == s
    decreases |s|
  {
    if c in s {
      var i := IndexOfChar(s, c);
      SplitJoin(s[i + 1..], c);
      assert s == s[..i] + [c] + s[i + 1..];
    }
  }

  /** Splitting two strings glued by the separator splits each half. */
  lemma {:induction false} SplitAppend(a: string, c: char, b: string)
    ensures Split(a + [c] + b, c) == Split(a, c) + Split(b, c)
    decreases |a|
  {
    var s := a + [c] + b;
    if c in a {
      var i := IndexOfChar(a, c);
      assert s[i] == c && s[..i] == a[..i];
      IndexOfCharIs(s, c, i);
      assert s[i + 1..] == a[i + 1..] + [c] + b;
      SplitAppend(a[i + 1..], c, b);
    } else {
      assert s[|a|] == c && s[..|a|] == a;
      IndexOfCharIs(s, c, |a|);
      assert s[|a| + 1..] == b;
    }
  }

  /** Joining pieces free of the separator and splitting again gives the pieces back. */
  lemma {:induction false} JoinSplit(parts: seq<string>, c: char)
    requires |parts| >= 1
    requires forall k :: 0 <= k < |parts| ==> c !in parts[k]
    ensures Split(Join(parts, c), c) == parts
  {
    if |parts| > 1 {
      var tail := parts[1..];
      JoinSplit(tail, c);
      SplitAppend(parts[0], c, Join(tail, c));
      assert Split(parts[0], c) == [parts[0]];
      assert parts == [parts[0]] + tail;
    }
  }

  predicate OccursAt(s: string, pat: string, i: nat) {
    i + |pat| <= |s| && s[i..i + |pat|] == pat
  }

  function IndexFrom(s: string, pat: string, from: nat): (r: Option<nat>)
    ensures r.Some? ==> from <= r.value && OccursAt(s, pat, r.value)
    ensures r.Some? ==> forall j: nat :: from <= j < r.value ==> !OccursAt(s, pat, j)
    ensures r.None? ==> forall j: nat :: from <= j ==> !OccursAt(s, pat, j)
    decreases |s| - from
  {
    if from + |pat| > |s| then None
    else if s[from..from + |pat|] == pat then Some(from)
    else IndexFrom(s, pat, from + 1)
  }

  /** `s.indexOf(pat)`, with `None` for -1: the first position at which `pat` occurs. */
  function IndexOf(s: string, pat: string): (r: Option<nat>)
    ensures r.Some? ==> OccursAt(s, pat, r.value)
    ensures r.Some? ==> forall j: nat :: j < r.value ==> !OccursAt(s, pat, j)
    ensures r.None? ==> forall j: nat :: !OccursAt(s, pat, j)
  {
    IndexFrom(s, pat, 0)
  }

  predicate StartsWith(s: string, prefix: string) {
    |prefix| <= |s| && s[..|prefix|] == prefix
  }

  function Digit(d: nat): char
    requires d < 10
  {
    "0123456789"[d]
  }

  function DigitValue(c: char): int {
    c as int - '0' as int
  }

  /** The decimal digits of a whole number, as a template string renders it. */
  function NatToString(n: nat): (r: string)
    ensures |r| >= 1
    ensures forall i :: 0 <= i < |r| ==> '0' <= r[i] <= '9'
    ensures n > 0 ==> r[0] != '0'
  {
    if n < 10 then [Digit(n)] else NatToString(n / 10) + [Digit(n % 10)]
  }

  /** The value a string of decimal digits denotes. */
  function ValueOf(r: string): int {
    if r == [] then 0 else 10 * ValueOf(r[..|r| - 1]) + DigitValue(r[|r| - 1])
  }

  /** Rendering a number in decimal loses nothing: reading the digits back gives the number. */
  lemma {:induction false} NatToStringValue(n: nat)
    ensures ValueOf(NatToString(n)) == n
  {
    if n >= 10 {
      NatToStringValue(n / 10);
      var r := NatToString(n);
      assert r[..|r| - 1] == NatToString(n / 10);
    }
  }
}
