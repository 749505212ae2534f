/**
 The few Python built-ins the planner and the thread registry rely on, as
 functions over Dafny strings (`seq<char>`): `str` of an integer, ASCII
 `str.lower`, the substring test `sub in s`, `sep.join(xs)`, `zip` and
 `[v] * n`; and `Sum`, which the code never calls but which states how far the
 even split falls short of the total.
 Each comes with the property that says what it means: decimal rendering is
 inverted by decimal parsing, the substring test agrees with "occurs at some
 position", and so on.
 */
module Builtins {

  // ---------------------------------------------------------------------------
  // Decimal rendering of integers: str(n)
  // ---------------------------------------------------------------------------

  predicate IsDigit(c: char) {
    '0' <= c <= '9'
  }

  predicate AllDigits(s: string) {
    forall i :: 0 <= i < |s| ==> IsDigit(s[i])
  }

  function DigitValue(c: char): nat
    requires IsDigit(c)
  {
    c as int - '0' as int
  }

  /** The character of one decimal digit. */
  function DigitChar(d: nat): (c: char)
    requires d < 10
    ensures IsDigit(c) && DigitValue(c) == d
  {
    "0123456789"[d]
  }

  /** `str(n)` for a non-negative integer: its decimal numeral, with no leading zero. */
  function NatToString(n: nat): (r: string)
    ensures |r| >= 1 && AllDigits(r)
    ensures r[0] == '0' ==> n == 0 && r == "0"
    decreases n
  {
    if n < 10 then [DigitChar(n)] else NatToString(n / 10) + [DigitChar(n % 10)]
  }

  /** The value of a decimal numeral (most significant digit first). */
  function ParseNat(s: string): nat
    requires AllDigits(s)
  {
    if s == [] then 0 else ParseNat(s[..|s| - 1]) * 10 + DigitValue(s[|s| - 1])
  }

  /** Rendering a natural number in decimal and reading it back gives the number. */
  lemma {:induction false} ParseNatToString(n: nat)
    ensures ParseNat(NatToString(n)) == n
  {
    var s := NatToString(n);
    if n >= 10 {
      assert s[..|s| - 1] == NatToString(n / 10);
      ParseNatToString(n / 10);
    }
  }

  /** `str(i)` for any integer: a minus sign before the numeral of a negative value. */
  function IntToString(i: int): (r: string)
    ensures |r| >= 1
    ensures r[0] == '-' <==> i < 0
  {
    if i < 0 then "-" + NatToString(-i) else NatToString(i)
  }

  /** A string `int(...)` would read back: an optional minus sign, then at least one digit. */
  predicate IsIntLiteral(s: string) {
    if |s| > 0 && s[0] == '-' then |s| > 1 && AllDigits(s[1..]) else |s| > 0 && AllDigits(s)
  }

  function ParseInt(s: string): int
    requires IsIntLiteral(s)
  {
    if s[0] == '-' then -(ParseNat(s[1..]) as int) else ParseNat(s)
  }

  /** `int(str(i)) == i`: rendering loses no information. */
  lemma IntToStringRoundTrip(i: int)
    ensures IsIntLiteral(IntToString(i)) && ParseInt(IntToString(i)) == i
  {
    var r := IntToString(i);
    if i < 0 {
      var digits := NatToString(-i);
      assert r == "-" + digits;
      assert r[1..] == digits;
      ParseNatToString(-i);
    } else {
      assert r == NatToString(i);
      ParseNatToString(i);
    }
  }

  /** Distinct integers have distinct renderings. */
  lemma IntToStringInjective(a: int, b: int)
    ensures IntToString(a) == IntToString(b) ==> a == b
  {
    IntToStringRoundTrip(a);
    IntToStringRoundTrip(b);
  }

  // ---------------------------------------------------------------------------
  // str.lower, restricted to ASCII letters
  // ---------------------------------------------------------------------------

  predicate IsUpper(c: char) {
    'A' <= c <= 'Z'
  }

  function LowerChar(c: char): char {
    if IsUpper(c) then (c as int + 32) as char else c
  }

  /** `s.lower()`: every ASCII capital becomes its small letter, everything else is kept. */
  function Lower(s: string): (r: string)
    ensures |r| == |s|
    ensures forall i :: 0 <= i < |s| ==> r[i] == LowerChar(s[i])
  {
    if s == [] then [] else [LowerChar(s[0])] + Lower(s[1..])
  }

  /** A lowered string holds no capital letter, and lowering it again changes nothing. */
  lemma LowerIsIdempotent(s: string)
    ensures forall i :: 0 <= i < |s| ==> !IsUpper(Lower(s)[i])
    ensures Lower(Lower(s)) == Lower(s)
  {
  }

  // ---------------------------------------------------------------------------
  // Substring test: sub in s
  // ---------------------------------------------------------------------------

  /** `sub` occurs in `s` starting at index `i`. */
  predicate OccursAt(s: string, sub: string, i: int) {
    0 <= i && i + |sub| <= |s| && s[i..i + |sub|] == sub
  }

  /** Python's `sub in s` for strings, scanning from the left. */
  function Contains(s: string, sub: string): (b: bool)
    ensures |sub| == 0 ==> b
    decreases |s|
  {
    if sub <= s then true else if s == [] then false else Contains(s[1..], sub)
  }

  /** The scan finds `sub` exactly when `sub` occurs at some index of `s`. */
  lemma {:induction false} ContainsIffOccurs(s: string, sub: string)
    ensures Contains(s, sub) <==> exists i :: OccursAt(s, sub, i)
    decreases |s|
  {
    if sub <= s {
      assert OccursAt(s, sub, 0);
    } else if s == [] {
    } else {
      ContainsIffOccurs(s[1..], sub);
      // An occurrence in s is one in s[1..], shifted by one, since none starts at 0.
      forall i | OccursAt(s, sub, i) ensures OccursAt(s[1..], sub, i - 1) {
        assert i != 0;
        DropFirstSlice(s, i, |sub|);
      }
      forall j | OccursAt(s[1..], sub, j) ensures OccursAt(s, sub, j + 1) {
        DropFirstSlice(s, j + 1, |sub|);
      }
    }
  }

  /** A slice of `s[1..]` is the slice of `s` one index further on. */
  lemma DropFirstSlice(s: string, i: int, n: nat)
    requires 1 <= i && i + n <= |s|
    ensures s[1..][i - 1..i - 1 + n] == s[i..i + n]
  {
    var shifted, direct := s[1..][i - 1..i - 1 + n], s[i..i + n];
    forall k | 0 <= k < n ensures shifted[k] == direct[k] {
    }
    assert shifted == direct;
  }

  // ---------------------------------------------------------------------------
  // sep.join(xs), zip(a, b), and Sum
  // ---------------------------------------------------------------------------

  /** `sep.join(xs)`: the elements in order, with `sep` between neighbours. */
  function Join(sep: string, xs: seq<string>): (r: string)
    ensures |xs| == 0 ==> r == ""
    ensures |xs| > 0 ==> xs[0] <= r
  {
    if |xs| == 0 then "" else if |xs| == 1 then xs[0] else xs[0] + sep + Join(sep, xs[1..])
  }

  /** Joining one more element appends a separator and that element. */
  lemma {:induction false} JoinSnoc(sep: string, xs: seq<string>, x: string)
    requires |xs| > 0
    ensures Join(sep, xs + [x]) == Join(sep, xs) + sep + x
  {
    if |xs| > 1 {
      assert (xs + [x])[1..] == xs[1..] + [x];
      JoinSnoc(sep, xs[1..], x);
    }
  }

  function Min(a: nat, b: nat): nat {
    if a <= b then a else b
  }

  /** `zip(a, b)`: pairs of equal index, stopping at the end of the shorter sequence. */
  function Zip<A, B>(a: seq<A>, b: seq<B>): (r: seq<(A, B)>)
    ensures |r| == Min(|a|, |b|)
    ensures forall i :: 0 <= i < |r| ==> r[i] == (a[i], b[i])
  {
    if |a| == 0 || |b| == 0 then [] else [(a[0], b[0])] + Zip(a[1..], b[1..])
  }

  /** The sum of a list of integers; only used to state properties of timings. */
  function Sum(xs: seq<int>): int {
    if xs == [] then 0 else xs[0] + Sum(xs[1..])
  }

  /** `[v] * n`: `n` copies of `v`. */
  function Repeat(v: int, n: nat): (r: seq<int>)
    ensures |r| == n
    ensures forall i :: 0 <= i < n ==> r[i] == v
  {
    seq(n, _ => v)
  }

  /** `n` copies of `v` add up to `v * n`. */
  lemma {:induction false} SumRepeat(v: int, n: nat)
    ensures Sum(Repeat(v, n)) == v * n
  {
    if n > 0 {
      assert Repeat(v, n)[1..] == Repeat(v, n - 1);
      SumRepeat(v, n - 1);
    }
  }
}
