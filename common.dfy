/**
 * Values and Python built-ins that the rest of the model shares: optional
 * values, the outcome of a call into code outside the model, Python's slice
 * `s[:n]`, `str.isspace`, ASCII `str.lower`, `str.strip`, `sep.join` and
 * `str(n)` for a natural number.
 */
module Common {

  /** An optional value: a dictionary key that may be absent, or `None`. */
  datatype Option<T> = None | Some(value: T)

  /** What a call into code outside the model did: it returned a value or it raised. */
  datatype Outcome<T> = Returned(value: T) | Raised

  /** A value or one of the source's own errors. */
  datatype Result<T, E> = Ok(value: T) | Err(error: E)

  function Max(a: int, b: int): int { if a >= b then a else b }

  function Min(a: int, b: int): int { if a <= b then a else b }

  /** Python's slice `s[:n]`; a negative `n` leaves out the last `-n` elements. */
  function Take<T>(s: seq<T>, n: int): (r: seq<T>)
    ensures r <= s
    ensures 0 <= n ==> |r| == Min(n, |s|)
    ensures n < 0 ==> |r| == Max(0, |s| + n)
  {
    if n >= |s| then s
    else if n >= 0 then s[..n]
    else if |s| + n >= 0 then s[..|s| + n]
    else []
  }

  /** `c.isspace()`; a `\s` in a `str` pattern matches exactly these characters. */
  predicate IsSpace(c: char) {
    ('\t' <= c <= '\r') || ('\U{1C}' <= c <= '\U{1F}') || c == ' '
    || c == '\U{85}' || c == '\U{A0}' || c == '\U{1680}'
    || ('\U{2000}' <= c <= '\U{200A}') || c == '\U{2028}' || c == '\U{2029}'
    || c == '\U{202F}' || c == '\U{205F}' || c == '\U{3000}'
  }

  predicate IsDigit(c: char) { '0' <= c <= '9' }

  predicate IsAsciiLetter(c: char) { 'A' <= c <= 'Z' || 'a' <= c <= 'z' }

  /** `c.lower()` on ASCII letters; every other character is left alone. */
  function LowerChar(c: char): (r: char)
    ensures 'A' <= c <= 'Z' ==> 'a' <= r <= 'z'
    ensures !('A' <= c <= 'Z') ==> r == c
  {
    if 'A' <= c <= 'Z' then (c as int + 32) as char else c
  }

  function Lower(s: string): (r: string)
    ensures |r| == |s|
    ensures forall i :: 0 <= i < |s| ==> r[i] == LowerChar(s[i])
  {
    seq(|s|, i requires 0 <= i < |s| => LowerChar(s[i]))
  }

  lemma LowerIsIdempotent(s: string)
    ensures Lower(Lower(s)) == Lower(s)
  {
  }

  /** Case-insensitive test that `s` starts with `lit`, which is written in lower case. */
  predicate StartsWithIgnoringCase(s: string, lit: string) {
    |lit| <= |s| && Lower(s[..|lit|]) == lit
  }

  /** Number of whitespace characters at the start of `s`. */
  function LeadingSpaces(s: string): (n: nat)
    ensures n <= |s|
    ensures forall i :: 0 <= i < n ==> IsSpace(s[i])
    ensures n < |s| ==> !IsSpace(s[n])
  {
    if s != [] && IsSpace(s[0]) then 1 + LeadingSpaces(s[1..]) else 0
  }

  /** Number of whitespace characters at the end of `s`. */
  function TrailingSpaces(s: string): (n: nat)
    ensures n <= |s|
    ensures forall i :: |s| - n <= i < |s| ==> IsSpace(s[i])
    ensures n < |s| ==> !IsSpace(s[|s| - n - 1])
  {
    if s != [] && IsSpace(s[|s| - 1]) then 1 + TrailingSpaces(s[..|s| - 1]) else 0
  }

  /** `s.strip()`. */
  function Strip(s: string): (r: string)
    ensures r == [] || (!IsSpace(r[0]) && !IsSpace(r[|r| - 1]))
  {
    var t := s[LeadingSpaces(s)..];
    t[..|t| - TrailingSpaces(t)]
  }

  predicate AllSpaces(a: string) {
    forall j :: 0 <= j < |a| ==> IsSpace(a[j])
  }

  /**
   * `s` is a whitespace run, then `Strip(s)`, then a whitespace run: with
   * `Strip`'s own ensures, exactly the outer whitespace is removed and the
   * middle is kept.
   */
  lemma StripRemovesOuterSpaces(s: string)
    ensures exists a, b :: s == a + Strip(s) + b && AllSpaces(a) && AllSpaces(b)
  {
    var t := s[LeadingSpaces(s)..];
    StripSplits(s, s[..LeadingSpaces(s)], Strip(s), t[|t| - TrailingSpaces(t)..]);
  }

  lemma StripSplits(s: string, a: string, r: string, b: string)
    requires a == s[..LeadingSpaces(s)]
    requires r + b == s[LeadingSpaces(s)..]
    requires var t := s[LeadingSpaces(s)..]; r == t[..|t| - TrailingSpaces(t)]
    ensures s == a + r + b && AllSpaces(a) && AllSpaces(b)
  {
    var t := s[LeadingSpaces(s)..];
    assert s == a + t;
    forall j | 0 <= j < |b| ensures IsSpace(b[j]) {
      assert b[j] == t[|r| + j];
    }
  }

  /** The first position of `v` in `x`. */
  function FirstIndexOf<T(==)>(x: seq<T>, v: T): (i: nat)
    requires v in x
    ensures i < |x| && x[i] == v
    ensures forall j :: 0 <= j < i ==> x[j] != v
  {
    if x[0] == v then 0 else 1 + FirstIndexOf(x[1..], v)
  }

  /** `sep.join(parts)`. */
  function Join(sep: string, parts: seq<string>): string {
    if parts == [] then ""
    else if |parts| == 1 then parts[0]
    else parts[0] + sep + Join(sep, parts[1..])
  }

  /** `str(n)` for a natural number: its decimal digits. */
  function NatToString(n: nat): (r: string)
    ensures r != []
    ensures forall i :: 0 <= i < |r| ==> IsDigit(r[i])
  {
    var d := ['0' + (n % 10) as char];
    if n < 10 then d else NatToString(n / 10) + d
  }

  /** A subset is no larger than its superset, and equal to it when as large. */
  lemma {:induction false} SubsetCardinality<T>(a: set<T>, b: set<T>)
    requires a <= b
    ensures |a| <= |b|
    ensures |a| == |b| ==> a == b
    decreases |b|
  {
    if b != {} {
      var x :| x in b;
      if x in a {
        SubsetCardinality(a - {x}, b - {x});
        if |a| == |b| {
          assert a - {x} == b - {x};
          assert a == (a - {x}) + {x} && b == (b - {x}) + {x};
        }
      } else {
        SubsetCardinality(a, b - {x});
      }
    }
  }
}
