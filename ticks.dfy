/** Axis ticks: `for (int i = 0; i <= n; i++)` emits `n + 1` evenly spaced
    ticks.  Tick `i` carries the data value `lo + (hi - lo) * i / n` (double
    arithmetic, modelled exactly as reals) and, where the pixel position is
    computed from integer fields, the pixel `pos + len * i / n` (C++ integer
    arithmetic). */
module Ticks {
  import opened CppInt

  datatype Tick = Tick(value: real, pixel: int)

  /** The value of tick `i`: `lo + (hi - lo) * i / n`, which plot.cpp writes
      `lo + i * (hi - lo) / n`; the two agree on the reals. */
  function TickValue(lo: real, hi: real, i: int, n: int): (v: real)
    requires n > 0
    ensures lo <= hi && 0 <= i <= n ==> lo <= v <= hi
  {
    var v := lo + Fraction(hi - lo, i, n);
    if lo <= hi && 0 <= i <= n then
      ScaledMonotone(hi - lo, i, i, n);
      v
    else
      v
  }

  /** `d * i / n` on the reals. */
  function Fraction(d: real, i: int, n: int): real
    requires n > 0
  {
    d * (i as real) / (n as real)
  }

  /** The pixel of tick `i`: `pos + len * i / n` in C++ integer arithmetic. */
  function TickPixel(pos: int, len: int, i: int, n: int): (p: int)
    requires n > 0
    ensures len >= 0 && 0 <= i <= n ==> pos <= p <= pos + len
  {
    var p := pos + Div(len * i, n);
    if len >= 0 && 0 <= i <= n then
      ScaledIndexFits(len, i, n);
      p
    else
      p
  }

  /** The first tick is at the low end of the range, the last at the high end. */
  lemma TickValueEnds(lo: real, hi: real, n: int)
    requires n > 0
    ensures TickValue(lo, hi, 0, n) == lo
    ensures TickValue(lo, hi, n, n) == hi
  {
    RealDivMulCancel(hi - lo, n as real);
  }

  /** Over an ordered range the tick values ascend and stay in the range. */
  lemma TickValueMonotone(lo: real, hi: real, i: int, j: int, n: int)
    requires n > 0 && lo <= hi && 0 <= i <= j <= n
    ensures lo <= TickValue(lo, hi, i, n) <= TickValue(lo, hi, j, n) <= hi
  {
    ScaledMonotone(hi - lo, i, j, n);
  }

  /** `0 <= d * i / n <= d * j / n <= d` for `0 <= i <= j <= n`. */
  lemma ScaledMonotone(d: real, i: int, j: int, n: int)
    requires d >= 0.0 && 0 <= i <= j <= n && n > 0
    ensures 0.0 <= Fraction(d, i, n) <= Fraction(d, j, n) <= d
  {
    RealScaledMonotone(d, i as real, j as real, n as real);
  }

  lemma RealScaledMonotone(d: real, a: real, b: real, c: real)
    requires d >= 0.0 && 0.0 <= a <= b <= c && c > 0.0
    ensures 0.0 <= d * a / c <= d * b / c <= d
  {
    assert 0.0 <= d * a / c by {
      RealMulMonotone(d, 0.0, a);
      RealDivMonotone(d * 0.0, d * a, c);
      RealDivMulCancel(d, c);
    }
    assert d * a / c <= d * b / c by {
      RealMulMonotone(d, a, b);
      RealDivMonotone(d * a, d * b, c);
    }
    assert d * b / c <= d by {
      RealMulMonotone(d, b, c);
      RealDivMonotone(d * b, d * c, c);
      RealDivMulCancel(d, c);
    }
  }

  lemma RealDivMulCancel(a: real, c: real)
    requires c > 0.0
    ensures a * 0.0 / c == 0.0
    ensures a * c / c == a
  {
    var q := a * c / c;
    assert q * c == a * c;
    assert (q - a) * c == 0.0;
  }

  lemma RealMulMonotone(c: real, a: real, b: real)
    requires a <= b && c >= 0.0
    ensures c * a <= c * b
  {
    assert c * b - c * a == c * (b - a);
  }

  lemma RealDivMonotone(a: real, b: real, c: real)
    requires a <= b && c > 0.0
    ensures a / c <= b / c
  {
    assert b / c - a / c == (b - a) / c;
  }

  /** The first tick sits at the axis origin and the last at its far end; for a
      non-negative length every tick lies on the axis. */
  lemma TickPixelEnds(pos: int, len: int, i: int, n: int)
    requires n > 0 && 0 <= i <= n
    ensures TickPixel(pos, len, 0, n) == pos
    ensures TickPixel(pos, len, n, n) == pos + len
    ensures len >= 0 ==> pos <= TickPixel(pos, len, i, n) <= pos + len
  {
    assert TickPixel(pos, len, 0, n) == pos by {
      assert len * 0 == 0 * n;
      DivExact(0, n);
    }
    assert TickPixel(pos, len, n, n) == pos + len by {
      DivExact(len, n);
    }
    if len >= 0 {
      ScaledIndexFits(len, i, n);
    }
  }

  /** `0 <= len * i / n <= len` for `0 <= i <= n`. */
  lemma ScaledIndexFits(len: int, i: int, n: int)
    requires len >= 0 && n > 0 && 0 <= i <= n
    ensures 0 <= Div(len * i, n) <= len
  {
    var p := len * i;
    assert 0 <= p <= len * n by {
      MulMonotone(0, i, len);
      MulMonotone(i, n, len);
    }
    DivModNonNegative(p, n);
    DivBelow(p, len, n);
  }

  /** The first `m` ticks of an axis with `n` intervals. */
  function TickList(lo: real, hi: real, pos: int, len: int, n: int, m: nat): (ticks: seq<Tick>)
    requires n > 0
    ensures |ticks| == m
    ensures forall i :: 0 <= i < m ==> ticks[i] == Tick(TickValue(lo, hi, i, n), TickPixel(pos, len, i, n))
  {
    if m == 0 then [] else TickList(lo, hi, pos, len, n, m - 1) + [Tick(TickValue(lo, hi, m - 1, n), TickPixel(pos, len, m - 1, n))]
  }

  /** The tick loop: `n + 1` ticks, tick `i` at value `TickValue` and pixel
      `TickPixel`. */
  method AxisTicks(lo: real, hi: real, pos: int, len: int, n: int) returns (ticks: seq<Tick>)
    requires n > 0
    ensures ticks == TickList(lo, hi, pos, len, n, n + 1)
    ensures |ticks| == n + 1
    ensures forall i :: 0 <= i <= n ==> ticks[i] == Tick(TickValue(lo, hi, i, n), TickPixel(pos, len, i, n))
  {
    ticks := [];
    var i := 0;
    while i <= n
      invariant 0 <= i <= n + 1
      invariant ticks == TickList(lo, hi, pos, len, n, i)
    {
      ticks := ticks + [Tick(TickValue(lo, hi, i, n), TickPixel(pos, len, i, n))];
      i := i + 1;
    }
  }
}
