/**
 * The few pieces of the Java platform that the modelled classes rely on:
 * 32-bit ints, truncating division, `String.endsWith`, `String.indexOf`,
 * `String.split` with a one-character separator, and the decimal forms of
 * `Integer.toString` and `Integer.parseInt`.
 */
module JavaLang {
  import opened Wrappers

  /** The values of a Java `int`. */
  type int32 = x: int | -0x8000_0000 <= x < 0x8000_0000

  /** Java `int` addition's two's-complement wrap-around: `x` reduced into the `int` range modulo 2^32. */
  function Wrap32(x: int): (r: int32)
    ensures -0x8000_0000 <= x < 0x8000_0000 ==> r == x
    ensures (x - r) % 0x1_0000_0000 == 0
  {
    (x + 0x8000_0000) % 0x1_0000_0000 - 0x8000_0000
  }

  /** Wrapping after every addition is wrapping once at the end. */
  lemma Wrap32Add(a: int, b: int)
    ensures Wrap32(Wrap32(a) + b) == Wrap32(a + b)
  {
    var m := 0x1_0000_0000;
    var h := 0x8000_0000;
    var q := (a + h) / m;
    assert Wrap32(a) + b + h == (a + b + h) - q * m;
    ModShift(a + b + h, q, m);
  }

  lemma ModShift(x: int, q: int, m: int)
    requires m > 0
    ensures (x - q * m) % m == x % m
  {
    var r := x % m;
    var d := x / m;
    assert x == m * d + r;
    assert x - q * m == m * (d - q) + r;
    ModUnique(x - q * m, m, d - q, r);
  }

  /** Java's `a / b` on a positive divisor: the quotient is truncated toward zero. */
  function JavaDiv(a: int, b: int): int
    requires b > 0
  {
    if a >= 0 then a / b else -((-a) / b)
  }

  /**
   * The truncated quotient leaves a remainder of `a`'s sign and smaller than
   * `b`: `b` shares of `JavaDiv(a, b)` never exceed a non-negative `a`, and
   * less than `b` of it is left over.
   */
  lemma JavaDivBounds(a: int, b: int)
    requires b > 0
    ensures a >= 0 ==> 0 <= JavaDiv(a, b) && 0 <= a - b * JavaDiv(a, b) < b
    ensures a < 0 ==> JavaDiv(a, b) <= 0 && -b < a - b * JavaDiv(a, b) <= 0
  {
    var q := JavaDiv(a, b);
    if a >= 0 {
      EuclidBounds(a, b, q);
    } else {
      var p := (-a) / b;
      EuclidBounds(-a, b, p);
      assert q == -p;
      assert b * q == -(b * p);
    }
  }

  lemma EuclidBounds(a: int, b: int, q: int)
    requires b > 0 && q == a / b
    ensures 0 <= a - b * q < b
  {
  }

  // ---------------------------------------------------------------- bits

  function Pow2(k: nat): (r: nat)
    ensures r >= 1
  {
    if k == 0 then 1 else 2 * Pow2(k - 1)
  }

  lemma {:induction false} Pow2Monotone(j: nat, k: nat)
    requires j <= k
    ensures Pow2(j) <= Pow2(k)
    decreases k - j
  {
    if j < k {
      Pow2Monotone(j, k - 1);
    }
  }

  lemma {:induction false} Pow2Add(a: nat, b: nat)
    ensures Pow2(a + b) == Pow2(a) * Pow2(b)
    decreases b
  {
    if b > 0 {
      Pow2Add(a, b - 1);
    }
  }

  /**
   * Java's `a & b` for a non-negative `b`. With Euclidean `/` and `%`, `a % 2`
   * and `a / 2` are the lowest bit and the arithmetic shift of the two's
   * complement form of `a`, also for negative `a`.
   */
  function BitAnd(a: int, b: nat): (r: nat)
    ensures r <= b
    decreases b
  {
    if b == 0 then 0
    else 2 * BitAnd(a / 2, b / 2) + (if a % 2 == 1 && b % 2 == 1 then 1 else 0)
  }

  /** Masking with `2^k - 1` keeps the low `k` bits: the non-negative remainder modulo `2^k`. */
  lemma {:induction false} BitAndLowMask(a: int, k: nat)
    ensures BitAnd(a, Pow2(k) - 1) == a % Pow2(k)
    decreases k
  {
    if k > 0 {
      var n := Pow2(k - 1);
      assert (Pow2(k) - 1) / 2 == n - 1;
      assert (Pow2(k) - 1) % 2 == 1;
      BitAndLowMask(a / 2, k - 1);
      ModOfDouble(a, n);
    }
  }

  lemma ModOfDouble(a: int, n: nat)
    requires n > 0
    ensures a % (2 * n) == 2 * ((a / 2) % n) + a % 2
  {
    var q, r := a / 2, a % 2;
    var q2, r2 := q / n, q % n;
    assert a == (2 * n) * q2 + (2 * r2 + r);
    ModUnique(a, 2 * n, q2, 2 * r2 + r);
  }

  lemma ModUnique(a: int, d: int, q: int, r: int)
    requires d > 0 && a == d * q + r && 0 <= r < d
    ensures a % d == r
  {
    var q', r' := a / d, a % d;
    var t := q - q';
    assert d * t == r' - r by {
      assert d * q - d * q' == d * t;
    }
    if t > 0 {
      MulAtLeast(d, t);
    }
    if t < 0 {
      MulAtLeast(d, -t);
    }
  }

  lemma MulAtLeast(d: int, t: int)
    requires d > 0 && t >= 1
    ensures d * t >= d
  {
    assert d * t == d * (t - 1) + d;
  }

  // ---------------------------------------------------------------- strings

  /** `s.endsWith(suffix)` */
  predicate EndsWith(s: string, suffix: string) {
    |suffix| <= |s| && s[|s| - |suffix|..] == suffix
  }

  /** `pat` occurs in `s` starting at index `i`. */
  predicate OccursAt(s: string, pat: string, i: nat) {
    i + |pat| <= |s| && s[i..i + |pat|] == pat
  }

  /** `s.indexOf(pat, from)`: the first index at or after `from` where `pat` occurs, or -1. */
  function IndexOf(s: string, pat: string, from: nat): (r: int)
    ensures r == -1 || (from <= r && OccursAt(s, pat, r))
    ensures r == -1 ==> forall i :: from <= i ==> !OccursAt(s, pat, i)
    ensures r >= 0 ==> forall i :: from <= i < r ==> !OccursAt(s, pat, i)
    decreases |s| - from
  {
    if from + |pat| > |s| then -1
    else if s[from..from + |pat|] == pat then from
    else IndexOf(s, pat, from + 1)
  }

  /** If some character of `pat` appears nowhere in `s`, then `pat` occurs nowhere in `s`. */
  lemma NoOccurrenceWithoutChar(s: string, pat: string, j: nat)
    requires j < |pat| && pat[j] !in s
    ensures forall i: nat :: !OccursAt(s, pat, i)
  {
  }

  /** `indexOf` returns the first occurrence at or after `from`. */
  lemma {:induction false} IndexOfFirst(s: string, pat: string, from: nat, r: nat)
    requires from <= r && OccursAt(s, pat, r)
    requires forall i :: from <= i < r ==> !OccursAt(s, pat, i)
    ensures IndexOf(s, pat, from) == r
    decreases r - from
  {
    if from < r {
      assert !OccursAt(s, pat, from);
      IndexOfFirst(s, pat, from + 1, r);
    }
  }

  /** Where `pat` occurs, `s` is what precedes it, `pat`, and what follows it. */
  lemma SplitAround(s: string, pat: string, i: nat)
    requires OccursAt(s, pat, i)
    ensures s == s[..i] + pat + s[i + |pat|..]
  {
    assert s == s[..i] + s[i..i + |pat|] + s[i + |pat|..];
  }

  /** A one-character pattern occurs exactly where that character stands. */
  lemma OneCharAt(s: string, c: char, k: nat)
    ensures OccursAt(s, [c], k) <==> k < |s| && s[k] == c
  {
    if k < |s| {
      assert s[k..k + 1] == [s[k]];
    }
  }

  /**
   * `s.indexOf(c)` for a one-character pattern: -1 exactly when `c` is
   * absent, otherwise an index holding `c` with no `c` before it.
   */
  lemma IndexOfOneChar(s: string, c: char)
    ensures IndexOf(s, [c], 0) < 0 <==> c !in s
    ensures IndexOf(s, [c], 0) >= 0 ==>
      var p := IndexOf(s, [c], 0); p < |s| && s[p] == c && c !in s[..p] && s == s[..p] + [c] + s[p + 1..]
  {
    var p := IndexOf(s, [c], 0);
    if p >= 0 {
      OneCharAt(s, c, p);
      SplitAround(s, [c], p);
      forall k | 0 <= k < p
        ensures s[..p][k] != c
      {
        OneCharAt(s, c, k);
      }
    } else {
      forall k | 0 <= k < |s|
        ensures s[k] != c
      {
        OneCharAt(s, c, k);
      }
    }
  }

  /** The pieces of `s` between occurrences of `sep`, empty pieces included. */
  function SplitAll(s: string, sep: char): (pieces: seq<string>)
    ensures |pieces| >= 1
    ensures forall i :: 0 <= i < |pieces| ==> sep !in pieces[i]
    ensures Join(pieces, sep) == s
    ensures sep !in s ==> pieces == [s]
  {
    if s == [] then [[]]
    else
      var rest := SplitAll(s[1..], sep);
      if s[0] == sep then [[]] + rest
      else [[s[0]] + rest[0]] + rest[1..]
  }

  /** The pieces joined back together with `sep` between neighbours. */
  function Join(pieces: seq<string>, sep: char): string
    requires |pieces| >= 1
  {
    if |pieces| == 1 then pieces[0] else pieces[0] + [sep] + Join(pieces[1..], sep)
  }

  /** `pieces` without its trailing empty strings. */
  function DropTrailingEmpty(pieces: seq<string>): (r: seq<string>)
    ensures |r| <= |pieces| && r == pieces[..|r|]
    ensures forall i :: |r| <= i < |pieces| ==> pieces[i] == []
    ensures r == [] || r[|r| - 1] != []
  {
    if pieces == [] then []
    else if pieces[|pieces| - 1] == [] then DropTrailingEmpty(pieces[..|pieces| - 1])
    else pieces
  }

  /**
   * `s.split(String.valueOf(sep))`: when `sep` does not occur the result is `[s]`;
   * otherwise it is the pieces between separators with trailing empty pieces removed.
   */
  function Split(s: string, sep: char): (r: seq<string>)
    ensures sep !in s ==> r == [s]
    ensures sep in s ==> r == DropTrailingEmpty(SplitAll(s, sep))
    ensures forall i :: 0 <= i < |r| ==> sep !in r[i]
  {
    if sep !in s then [s] else DropTrailingEmpty(SplitAll(s, sep))
  }

  // ---------------------------------------------------------------- decimal numbers

  predicate IsDigit(c: char) {
    '0' <= c <= '9'
  }

  predicate AllDigits(s: string) {
    forall i :: 0 <= i < |s| ==> IsDigit(s[i])
  }

  function DigitChar(d: nat): (c: char)
    requires d < 10
    ensures IsDigit(c) && c as int - '0' as int == d
  {
    ('0' as int + d) as char
  }

  /** The decimal digits of `n`, without leading zeros. */
  function NatToDigits(n: nat): (s: string)
    ensures |s| >= 1 && AllDigits(s)
    ensures s[0] == '0' <==> n == 0
  {
    if n < 10 then [DigitChar(n)] else NatToDigits(n / 10) + [DigitChar(n % 10)]
  }

  /** The number a string of decimal digits denotes. */
  function DigitsValue(s: string): nat
    requires AllDigits(s)
  {
    if s == [] then 0
    else DigitsValue(s[..|s| - 1]) * 10 + (s[|s| - 1] as int - '0' as int)
  }

  /** `Integer.toString(i)`: an optional '-', then the decimal digits of `|i|` without leading zeros. */
  function IntToString(i: int): (r: string)
    ensures i >= 0 ==> |r| >= 1 && AllDigits(r) && DigitsValue(r) == i && (r[0] == '0' ==> r == "0")
    ensures i < 0 ==> |r| >= 2 && r[0] == '-' && AllDigits(r[1..]) && DigitsValue(r[1..]) == -i && r[1] != '0'
  {
    if i < 0 then
      var d := NatToDigits(-i);
      DigitsValueOfNat(-i);
      assert ("-" + d)[1..] == d;
      "-" + d
    else
      DigitsValueOfNat(i);
      assert i == 0 ==> NatToDigits(i) == [DigitChar(0)] == "0";
      NatToDigits(i)
  }

  /**
   * `Integer.parseInt(s)` over ASCII digits: an optional sign, then at least
   * one digit, and a value that fits an `int`; `None` stands for the
   * `NumberFormatException` thrown otherwise.
   */
  function ParseInt(s: string): (r: Option<int32>)
    ensures r.Some? ==> s != [] && IsDigit(s[|s| - 1])
    ensures s != [] && !IsDigit(s[0]) && s[0] != '-' && s[0] != '+' ==> r.None?
    ensures (exists i :: 1 <= i < |s| && !IsDigit(s[i])) ==> r.None?
    ensures s != [] && AllDigits(s) ==>
      (r.Some? <==> DigitsValue(s) < 0x8000_0000) && (r.Some? ==> r.value == DigitsValue(s))
    ensures |s| >= 2 && s[0] == '-' && AllDigits(s[1..]) ==>
      (r.Some? <==> DigitsValue(s[1..]) <= 0x8000_0000) && (r.Some? ==> r.value == -(DigitsValue(s[1..]) as int))
    ensures |s| >= 2 && s[0] == '+' && s[1] != '-' && s[1] != '+' ==> r == ParseInt(s[1..])
  {
    if s == [] then None
    else
      var signed := s[0] == '-' || s[0] == '+';
      var digits := if signed then s[1..] else s;
      if digits == [] || !AllDigits(digits) then None
      else
        var v: int := if s[0] == '-' then -(DigitsValue(digits) as int) else DigitsValue(digits);
        if -0x8000_0000 <= v < 0x8000_0000 then Some(v) else None
  }

  lemma {:induction false} DigitsValueOfNat(n: nat)
    ensures DigitsValue(NatToDigits(n)) == n
  {
    if n >= 10 {
      var s := NatToDigits(n);
      assert s[..|s| - 1] == NatToDigits(n / 10);
      DigitsValueOfNat(n / 10);
    }
  }

  /** Reading back what `Integer.toString` wrote gives the same `int`. */
  lemma ParseIntOfToString(i: int32)
    ensures ParseInt(IntToString(i)) == Some(i)
  {
    var s := IntToString(i);
    if i < 0 {
      assert DigitsValue(s[1..]) <= 0x8000_0000;
    } else {
      assert s != [] && AllDigits(s);
    }
  }
}
