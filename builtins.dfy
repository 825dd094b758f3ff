/** The Python built-ins the script relies on, written out over Dafny's
    unbounded integers and exact reals: slicing, indexing, `int()`,
    `round()` and `str()` of an integer. */
module Builtins {
  import opened Wrappers

  /** `s[i:j]` with non-negative bounds: bounds past the end are clamped. */
  function Slice<T>(s: seq<T>, i: nat, j: nat): (r: seq<T>)
    requires i <= j
    ensures |r| == (if j <= |s| then j - i else if i <= |s| then |s| - i else 0)
    ensures forall k :: 0 <= k < |r| ==> r[k] == s[i + k]
  {
    if i >= |s| then [] else if j >= |s| then s[i..] else s[i..j]
  }

  /** `s[i]`: a negative index counts from the end; `None` stands for IndexError. */
  function Index<T>(s: seq<T>, i: int): (r: Option<T>)
    ensures r.Some? <==> -|s| <= i < |s|
    ensures 0 <= i < |s| ==> r == Some(s[i])
    ensures -|s| <= i < 0 ==> r == Some(s[|s| + i])
  {
    if 0 <= i < |s| then Some(s[i])
    else if -|s| <= i < 0 then Some(s[|s| + i])
    else None
  }

  /** `int(a / b)` on integers: true division, then truncation toward zero. */
  function TruncDiv(a: int, b: int): (q: int)
    requires b != 0
    ensures a >= 0 && b > 0 ==> q == a / b
    ensures (a >= 0) == (b > 0) ==> q >= 0
  {
    if b > 0 then (if a >= 0 then a / b else -((-a) / b))
    else (if a >= 0 then -(a / -b) else (-a) / (-b))
  }

  /** `int(x)` on a float: truncation toward zero. */
  function Trunc(x: real): (n: int)
    ensures x >= 0.0 ==> 0 <= n && n as real <= x < n as real + 1.0
    ensures x < 0.0 ==> n <= 0 && n as real - 1.0 < x <= n as real
  {
    if x >= 0.0 then x.Floor else -((-x).Floor)
  }

  /** `int()` never decreases when its argument grows. */
  lemma TruncMonotone(x: real, y: real)
    requires x <= y
    ensures Trunc(x) <= Trunc(y)
  {
    if x < 0.0 && y >= 0.0 {
    } else if x < 0.0 {
      assert -y <= -x;
      assert (-y).Floor <= (-x).Floor;
    }
  }

  /** `round(x)` with one argument: to the nearest integer, ties to the even one. */
  function Round(x: real): int {
    var f := x.Floor;
    var frac := x - f as real;
    if frac < 0.5 then f
    else if frac > 0.5 then f + 1
    else if f % 2 == 0 then f
    else f + 1
  }

  /** `round` lands within one half of its argument, and on a tie it picks
      the even neighbour. */
  lemma RoundNearest(x: real)
    ensures Round(x) as real - 0.5 <= x <= Round(x) as real + 0.5
    ensures x == Round(x) as real - 0.5 || x == Round(x) as real + 0.5 ==> Round(x) % 2 == 0
  {
  }

  /** `round` of a whole number is that number. */
  lemma RoundWhole(n: int)
    ensures Round(n as real) == n
  {
  }

  /** The decimal digit `d` as a character. */
  function DigitChar(d: nat): (c: char)
    requires d < 10
    ensures '0' <= c <= '9'
  {
    ('0' as int + d) as char
  }

  predicate IsDigits(s: string) {
    forall k :: 0 <= k < |s| ==> '0' <= s[k] <= '9'
  }

  /** `str(n)` for a non-negative integer. */
  function NatToString(n: nat): string {
    if n < 10 then [DigitChar(n)] else NatToString(n / 10) + [DigitChar(n % 10)]
  }

  /** The decimal form of a natural number is a non-empty string of digits
      with no leading zero. */
  lemma {:induction false} NatToStringDigits(n: nat)
    ensures var s := NatToString(n);
      |s| >= 1 && IsDigits(s) && (s[0] == '0' ==> n == 0)
  {
    if n >= 10 {
      NatToStringDigits(n / 10);
      var s := NatToString(n);
      assert s[0] == NatToString(n / 10)[0];
    }
  }

  /** `str(n)` for any integer. */
  function Str(n: int): string {
    if n < 0 then "-" + NatToString(-n) else NatToString(n)
  }

  /** `str(n)` is the digits of `n`, after a minus sign when `n` is negative. */
  lemma StrDigits(n: int)
    ensures var s := Str(n);
      |s| >= 1 &&
      (n >= 0 ==> IsDigits(s)) &&
      (n < 0 ==> s[0] == '-' && IsDigits(s[1..]))
  {
    if n < 0 {
      NatToStringDigits(-n);
      assert Str(n)[1..] == NatToString(-n);
    } else {
      NatToStringDigits(n);
    }
  }

  /** The value of a string of decimal digits (`int(s)` on such a string). */
  function ParseNat(s: string): nat
    requires IsDigits(s)
  {
    if s == [] then 0
    else ParseNat(s[..|s| - 1]) * 10 + (s[|s| - 1] as int - '0' as int)
  }

  /** `int(s)` on a string produced by `str` of an integer. */
  function ParseInt(s: string): int {
    if |s| > 0 && s[0] == '-' && IsDigits(s[1..]) then -(ParseNat(s[1..]) as int)
    else if IsDigits(s) then ParseNat(s)
    else 0
  }

  lemma {:induction false} ParseNatToString(n: nat)
    ensures IsDigits(NatToString(n)) && ParseNat(NatToString(n)) == n
  {
    NatToStringDigits(n);
    if n >= 10 {
      var s := NatToString(n);
      NatToStringDigits(n / 10);
      assert s[..|s| - 1] == NatToString(n / 10);
      ParseNatToString(n / 10);
    }
  }

  /** `str` of an integer reads back as that integer. */
  lemma StrRoundTrip(n: int)
    ensures ParseInt(Str(n)) == n
  {
    var s := Str(n);
    if n < 0 {
      var digits := NatToString(-n);
      ParseNatToString(-n);
      assert s == "-" + digits;
      assert s[1..] == digits;
      assert ParseInt(s) == -(ParseNat(digits) as int);
    } else {
      ParseNatToString(n);
      NatToStringDigits(n);
      assert s[0] != '-';
      assert ParseInt(s) == ParseNat(s);
    }
  }

  /** Distinct integers print differently. */
  lemma StrInjective(m: int, n: int)
    requires Str(m) == Str(n)
    ensures m == n
  {
    StrRoundTrip(m);
    StrRoundTrip(n);
  }
}
