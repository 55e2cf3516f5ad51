/** Quotients and remainders by a variable: the arithmetic behind circular buffers. */
module Modular {

  type Size = n: nat | n > 0 witness 1

  lemma MulMono(x: int, y: int, n: nat)
    requires x <= y
    ensures n * x <= n * y
  {
    assert n * (y - x) >= 0;
  }

  /** Division with remainder is unique. */
  lemma DivModIs(x: int, q: int, r: int, n: nat)
    requires n > 0 && x == n * q + r && 0 <= r < n
    ensures x / n == q && x % n == r
  {
    var d := x / n;
    assert x == n * d + x % n;
    if d < q {
      MulMono(d + 1, q, n);
    } else if d > q {
      MulMono(q + 1, d, n);
    }
  }

  /** Numbers less than n apart have different remainders. */
  lemma ModUnique(x: int, y: int, n: nat)
    requires n > 0 && 0 < x - y < n
    ensures x % n != y % n
  {
    var a, b := x / n, y / n;
    assert x == n * a + x % n && y == n * b + y % n;
    if a <= b {
      MulMono(a, b, n);
    } else {
      MulMono(b + 1, a, n);
    }
  }

  /** Reducing first does not change a later reduction. */
  lemma ModShift(x: int, c: int, n: nat)
    requires n > 0
    ensures (x % n + c) % n == (x + c) % n
  {
    var y := x % n + c;
    assert x == n * (x / n) + x % n && y == n * (y / n) + y % n;
    assert n * (x / n + y / n) == n * (x / n) + n * (y / n);
    DivModIs(x + c, x / n + y / n, y % n, n);
  }

  lemma ModPeriod(x: int, n: nat)
    requires n > 0
    ensures (x + n) % n == x % n
  {
    assert n * (x / n + 1) == n * (x / n) + n;
    DivModIs(x + n, x / n + 1, x % n, n);
  }

  /** x & (n - 1) for a power of two n: the remainder, by adding or taking away n. */
  function Wrap(x: int, n: nat): (r: nat)
    requires n > 0
    ensures r < n
    decreases if x < 0 then n - x else x
  {
    if x < 0 then Wrap(x + n, n) else if x < n then x else Wrap(x - n, n)
  }

  lemma {:induction false} WrapIsMod(x: int, n: nat)
    requires n > 0
    ensures Wrap(x, n) == x % n
    decreases if x < 0 then n - x else x
  {
    if x < 0 {
      WrapIsMod(x + n, n);
      ModPeriod(x, n);
    } else if x < n {
      DivModIs(x, 0, x, n);
    } else {
      WrapIsMod(x - n, n);
      ModPeriod(x - n, n);
    }
  }

  /** Numbers less than n apart wrap to different places. */
  lemma WrapUnique(x: int, y: int, n: nat)
    requires n > 0 && 0 < x - y < n
    ensures Wrap(x, n) != Wrap(y, n)
  {
    WrapIsMod(x, n);
    WrapIsMod(y, n);
    ModUnique(x, y, n);
  }

  lemma WrapPeriod(x: int, n: nat)
    requires n > 0
    ensures Wrap(x + n, n) == Wrap(x, n)
  {
    WrapIsMod(x, n);
    WrapIsMod(x + n, n);
    ModPeriod(x, n);
  }

  lemma WrapShift(x: int, c: int, n: nat)
    requires n > 0
    ensures Wrap(Wrap(x, n) + c, n) == Wrap(x + c, n)
  {
    WrapIsMod(x, n);
    WrapIsMod(x % n + c, n);
    WrapIsMod(x + c, n);
    ModShift(x, c, n);
  }

  /** From one slot to the next. */
  lemma NextSlot(start: int, k: nat, n: nat)
    requires n > 0
    ensures Wrap(Wrap(start + k, n) + 1, n) == Wrap(start + (k + 1), n)
  {
    WrapShift(start + k, 1, n);
    assert start + k + 1 == start + (k + 1);
  }
}
