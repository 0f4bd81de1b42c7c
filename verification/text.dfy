/**
 * String helpers whose behaviour the modelled Python code relies on:
 * `str.strip()` and the decimal rendering of an `int` in an f-string.
 */
module Text {

  /** The characters for which Python's `str.isspace()` holds; `str.strip()`
      with no argument removes exactly these from both ends. */
  predicate IsSpace(c: char) {
    || c == ' '
    || '\t' <= c <= '\r'                      // U+0009..U+000D
    || '\U{1C}' <= c <= '\U{1F}'
    || c == '\U{85}' || c == '\U{A0}' || c == '\U{1680}'
    || '\U{2000}' <= c <= '\U{200A}'
    || c == '\U{2028}' || c == '\U{2029}' || c == '\U{202F}' || c == '\U{205F}'
    || c == '\U{3000}'
  }

  predicate AllSpace(s: string) {
    forall k :: 0 <= k < |s| ==> IsSpace(s[k])
  }

  /** The first index at or after `i` that does not hold whitespace (or `|s|`). */
  function SkipSpaceForward(s: string, i: nat): (r: nat)
    requires i <= |s|
    ensures i <= r <= |s|
    ensures forall k :: i <= k < r ==> IsSpace(s[k])
    ensures r < |s| ==> !IsSpace(s[r])
    decreases |s| - i
  {
    if i == |s| || !IsSpace(s[i]) then i else SkipSpaceForward(s, i + 1)
  }

  /** The least index `r` in `lo..j` such that `s[r..j]` is all whitespace. */
  function SkipSpaceBackward(s: string, lo: nat, j: nat): (r: nat)
    requires lo <= j <= |s|
    ensures lo <= r <= j
    ensures forall k :: r <= k < j ==> IsSpace(s[k])
    ensures r > lo ==> !IsSpace(s[r - 1])
    decreases j
  {
    if j == lo || !IsSpace(s[j - 1]) then j else SkipSpaceBackward(s, lo, j - 1)
  }

  /** Where `Strip` starts cutting: the number of leading whitespace characters. */
  function StripStart(s: string): nat {
    SkipSpaceForward(s, 0)
  }

  /** Python's `s.strip()`: the infix of `s` left after removing whitespace
      from both ends. */
  function Strip(s: string): (r: string)
    ensures StripStart(s) + |r| <= |s|
    ensures forall k :: 0 <= k < |r| ==> r[k] == s[StripStart(s) + k]
    ensures forall k :: 0 <= k < StripStart(s) ==> IsSpace(s[k])
    ensures forall k :: StripStart(s) + |r| <= k < |s| ==> IsSpace(s[k])
    ensures r != [] ==> !IsSpace(r[0]) && !IsSpace(r[|r| - 1])
    ensures r == [] <==> AllSpace(s)
  {
    var i := StripStart(s);
    var j := SkipSpaceBackward(s, i, |s|);
    assert i < |s| ==> i < j;
    s[i..j]
  }

  /** `Strip` keeps exactly `s[m..j]` when that piece has non-whitespace ends
      and everything outside it is whitespace. */
  lemma StripKeeps(s: string, m: nat, j: nat)
    requires m < j <= |s|
    requires forall k :: 0 <= k < m ==> IsSpace(s[k])
    requires forall k :: j <= k < |s| ==> IsSpace(s[k])
    requires !IsSpace(s[m]) && !IsSpace(s[j - 1])
    ensures Strip(s) == s[m..j]
  {
    var r := Strip(s);
    assert StripStart(s) == m;
    assert m + |r| == j;
  }

  /** The whitespace around a string whose ends are not whitespace is exactly
      what `Strip` removes. */
  lemma StripSurrounded(pre: string, t: string, post: string)
    requires AllSpace(pre) && AllSpace(post)
    requires t != [] && !IsSpace(t[0]) && !IsSpace(t[|t| - 1])
    ensures Strip(pre + t + post) == t
  {
    var s := pre + t + post;
    forall k | 0 <= k < |pre| ensures IsSpace(s[k]) {
      assert s[k] == pre[k];
    }
    forall k | |pre| + |t| <= k < |s| ensures IsSpace(s[k]) {
      assert s[k] == post[k - |pre| - |t|];
    }
    assert s[|pre|] == t[0];
    assert s[|pre| + |t| - 1] == t[|t| - 1];
    StripKeeps(s, |pre|, |pre| + |t|);
    assert s[|pre|..|pre| + |t|] == t;
  }

  /** Stripping twice is stripping once. */
  lemma StripIdempotent(s: string)
    ensures Strip(Strip(s)) == Strip(s)
  {
    var r := Strip(s);
    if r != [] {
      assert Strip(r) == r[0..|r|] by {
        StripKeeps(r, 0, |r|);
      }
      assert r[0..|r|] == r;
    }
  }

  function DigitChar(d: nat): (c: char)
    requires d < 10
    ensures '0' <= c <= '9'
  {
    ('0' as int + d) as char
  }

  function DigitValue(c: char): (d: nat)
    requires '0' <= c <= '9'
    ensures d < 10
  {
    c as int - '0' as int
  }

  predicate IsDigits(s: string) {
    forall k :: 0 <= k < |s| ==> '0' <= s[k] <= '9'
  }

  /** The decimal digits of `n`, most significant first, without leading zeros. */
  function NatToDecimal(n: nat): (r: string)
    ensures |r| >= 1 && IsDigits(r)
    ensures r[0] == '0' <==> n == 0
  {
    if n < 10 then [DigitChar(n)] else NatToDecimal(n / 10) + [DigitChar(n % 10)]
  }

  /** The text Python's `str(n)` (and so `f"{n}"`) gives an `int`. */
  function IntToDecimal(n: int): (r: string)
    ensures |r| >= 1
    ensures r[0] == '-' <==> n < 0
  {
    if n < 0 then "-" + NatToDecimal(-n) else NatToDecimal(n)
  }

  /** Reads a string of decimal digits back as a number. */
  function ParseNat(s: string): nat
    requires IsDigits(s)
  {
    if s == [] then 0 else 10 * ParseNat(s[..|s| - 1]) + DigitValue(s[|s| - 1])
  }

  /** Python's `int(s)` on the optionally signed digit strings `str` produces. */
  function ParseInt(s: string): int
    requires |s| >= 1
    requires s[0] == '-' ==> IsDigits(s[1..])
    requires s[0] != '-' ==> IsDigits(s)
  {
    if s[0] == '-' then -(ParseNat(s[1..]) as int) else ParseNat(s)
  }

  lemma {:induction false} ParseNatOfDecimal(n: nat)
    ensures ParseNat(NatToDecimal(n)) == n
  {
    var r := NatToDecimal(n);
    if n < 10 {
      assert r[..|r| - 1] == [];
    } else {
      assert r[..|r| - 1] == NatToDecimal(n / 10);
      ParseNatOfDecimal(n / 10);
    }
  }

  /** The decimal rendering of an integer determines it: reading it back
      gives the same number. */
  lemma DecimalRoundTrip(n: int)
    ensures var r := IntToDecimal(n);
      && (r[0] == '-' ==> IsDigits(r[1..]))
      && (r[0] != '-' ==> IsDigits(r))
      && ParseInt(r) == n
  {
    var r := IntToDecimal(n);
    if n < 0 {
      var d := NatToDecimal(-n);
      assert r[1..] == d;
      ParseNatOfDecimal(-n);
    } else {
      ParseNatOfDecimal(n);
    }
  }

  /** `t` occurs as a contiguous piece of `s` (Python's `t in s`). */
  predicate Contains(s: string, t: string) {
    exists i :: 0 <= i <= |s| && t <= s[i..]
  }

  /** The pieces joined in order (Python's `"".join(parts)`, and the
      concatenation of a list of lists). */
  function Concat<T>(parts: seq<seq<T>>): seq<T> {
    if parts == [] then [] else parts[0] + Concat(parts[1..])
  }

  /** A non-empty sequence is its prefix followed by its last element. */
  lemma InitLast<T>(s: seq<T>)
    requires s != []
    ensures s[..|s| - 1] + [s[|s| - 1]] == s
  {
  }

  lemma {:induction false} ConcatSnoc<T>(parts: seq<seq<T>>, t: seq<T>)
    ensures Concat(parts + [t]) == Concat(parts) + t
  {
    if parts == [] {
      assert parts + [t] == [t];
    } else {
      assert (parts + [t])[1..] == parts[1..] + [t];
      ConcatSnoc(parts[1..], t);
    }
  }

  /** Element `j` of piece `i` sits after the pieces before it. */
  lemma {:induction false} ConcatAt<T>(parts: seq<seq<T>>, i: nat, j: nat)
    requires i < |parts| && j < |parts[i]|
    ensures |Concat(parts[..i])| + j < |Concat(parts)|
    ensures Concat(parts)[|Concat(parts[..i])| + j] == parts[i][j]
  {
    if i == 0 {
      assert parts[..0] == [];
    } else {
      assert parts[..i][1..] == parts[1..][..i - 1];
      ConcatAt(parts[1..], i - 1, j);
    }
  }
}
