/** Arithmetic and sequence vocabulary shared by the models. */
module Common {

  datatype Option<+T> = None | Some(value: T)

  /** How a writing command fares: done, not done and reported so, or done although an error came back. */
  datatype Reply = Applied | Refused | ReplyLost
  {
    predicate Lands() { !Refused? }
  }

  /** Go's math.Round: nearest integer, halves away from zero. */
  function Round(x: real): int {
    if x >= 0.0 then (x + 0.5).Floor else -((-x + 0.5).Floor)
  }

  /** Go's float-to-integer conversion: truncation toward zero. */
  function Trunc(x: real): int {
    if x >= 0.0 then x.Floor else -((-x).Floor)
  }

  /** Go's integer division truncates toward zero. */
  function GoDiv(a: int, b: int): int
    requires b > 0
  {
    if a >= 0 then a / b else -((-a) / b)
  }

  function Abs(x: int): int { if x < 0 then -x else x }

  function AbsReal(x: real): real { if x < 0.0 then -x else x }

  function Max(a: int, b: int): int { if a < b then b else a }

  function Min(a: int, b: int): int { if a < b then a else b }

  /** The first n elements of s, or all of s when there are fewer. */
  function Take<T>(s: seq<T>, n: int): seq<T> {
    if n <= 0 then [] else if n >= |s| then s else s[..n]
  }

  function Pow(b: real, n: nat): real {
    if n == 0 then 1.0 else b * Pow(b, n - 1)
  }

  lemma RoundOfInt(n: int)
    ensures Round(n as real) == n
  {
  }

  /** Rounding errs by at most one half, so it never leaves an integer interval. */
  lemma RoundNearest(x: real, lo: int, hi: int)
    requires lo as real <= x <= hi as real
    ensures lo <= Round(x) <= hi
    ensures AbsReal(Round(x) as real - x) <= 0.5
  {
  }

  lemma TruncBounds(x: real)
    requires x >= 0.0
    ensures 0 <= Trunc(x)
    ensures Trunc(x) as real <= x < Trunc(x) as real + 1.0
  {
  }

  /** Truncating a non-negative delay scaled by a factor of at most one never raises it. */
  lemma TruncScale(delay: int, factor: real)
    requires delay >= 0 && 0.0 <= factor <= 1.0
    ensures 0 <= Trunc(delay as real * factor) <= delay
  {
    var x := delay as real * factor;
    assert 0.0 <= x;
    assert x <= delay as real by {
      assert delay as real * (1.0 - factor) >= 0.0;
    }
  }

  /** Powers of a factor in (0, 1] stay in (0, 1]. */
  lemma {:induction false} PowUnit(b: real, n: nat)
    requires 0.0 < b <= 1.0
    ensures 0.0 < Pow(b, n) <= 1.0
  {
    if n > 0 {
      PowUnit(b, n - 1);
      MulBelow(b, Pow(b, n - 1));
    }
  }

  lemma MulBelow(a: real, b: real)
    requires 0.0 < a <= 1.0 && 0.0 < b
    ensures 0.0 < a * b <= b
    ensures 0.0 < b * a <= b
  {
    assert (1.0 - a) * b >= 0.0;
  }

  lemma ScaledBelow(base: real, factor: real, product: real)
    requires 0.0 < base && 0.0 < factor <= 1.0 && product == base * factor
    ensures 0.0 < product <= base
  {
    MulBelow(factor, base);
  }

  lemma MulMono(a: real, b: real, c: real)
    requires 0.0 <= a && b <= c
    ensures a * b <= a * c
  {
    assert a * (c - b) >= 0.0;
  }

  lemma {:induction false} PowAntitone(b: real, m: nat, n: nat)
    requires 0.0 < b <= 1.0 && m <= n
    ensures Pow(b, n) <= Pow(b, m)
    decreases n - m
  {
    if m < n {
      PowAntitone(b, m, n - 1);
      PowUnit(b, n - 1);
      MulBelow(b, Pow(b, n - 1));
    }
  }

  lemma SubsetSize<T>(a: set<T>, b: set<T>)
    requires a <= b
    ensures |a| <= |b|
  {
    assert b == a + (b - a);
  }
}
