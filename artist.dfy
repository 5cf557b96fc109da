/** `artist.go`: the linear interpolation of colours and the two artists that
    paint a whole buffer, `Gradient` and `Sequence`. Float32 arithmetic is
    modelled with exact rationals; only Go's truncating `int(...)` conversion is
    kept. */
module Artist {
  import opened Pixarray
  import opened Trace
  import Strip

  /** Go's `int(x)` of a floating-point value: truncation toward zero. */
  function Trunc(x: real): (r: int)
    ensures 0.0 <= x ==> 0 <= r && r as real <= x < r as real + 1.0
    ensures x < 0.0 ==> r <= 0 && r as real - 1.0 < x <= r as real
  {
    if x >= 0.0 then x.Floor else -((-x).Floor)
  }

  /** One channel of `lerp`: `a + int(t * (b - a))`. */
  function LerpChannel(a: int, b: int, t: real): int {
    a + Trunc(t * (b - a) as real)
  }

  /** `lerp(c1, c2, t)`: each channel interpolated on its own. */
  function Lerp(c1: Pixel, c2: Pixel, t: real): Pixel {
    Pixel(LerpChannel(c1.R, c2.R, t), LerpChannel(c1.G, c2.G, t),
          LerpChannel(c1.B, c2.B, t), LerpChannel(c1.W, c2.W, t))
  }

  /** At t = 0 the start colour comes out exactly. */
  lemma LerpAtZero(c1: Pixel, c2: Pixel)
    ensures Lerp(c1, c2, 0.0) == c1
  {
  }

  /** `x` lies between `a` and `b` inclusive, in whichever order they come. */
  predicate Between(a: int, x: int, b: int) {
    (a <= x <= b) || (b <= x <= a)
  }

  /** For 0 <= t <= 1 a channel lies between its two ends. It reaches the end
      value at t = 1, and before that only when both ends are equal. */
  lemma LerpChannelBetween(a: int, b: int, t: real)
    requires 0.0 <= t <= 1.0
    ensures Between(a, LerpChannel(a, b, t), b)
    ensures t < 1.0 && LerpChannel(a, b, t) == b ==> a == b
    ensures t == 1.0 ==> LerpChannel(a, b, t) == b
  {
    if t == 1.0 {
      assert t * (b - a) as real == (b - a) as real;
    } else {
      TruncScaled(t, b - a);
    }
  }

  /** The truncated offset `int(t * e)` for 0 <= t < 1 lies between 0 and `e`,
      and reaches `e` only when `e` is zero. */
  lemma TruncScaled(t: real, e: int)
    requires 0.0 <= t < 1.0
    ensures e >= 0 ==> 0 <= Trunc(t * e as real) <= e && (Trunc(t * e as real) == e ==> e == 0)
    ensures e < 0 ==> e < Trunc(t * e as real) <= 0
  {
    var x := t * e as real;
    if e >= 0 {
      ScaleUp(t, e, x);
      TruncUp(x, e);
    } else {
      ScaleDown(t, e, x);
      TruncDown(x, e);
    }
  }

  /** Scaling a non-negative distance by a factor in [0, 1) stays in [0, e],
      short of `e` unless `e` is zero. */
  lemma ScaleUp(t: real, e: int, x: real)
    requires 0.0 <= t < 1.0 && e >= 0 && x == t * e as real
    ensures 0.0 <= x <= e as real
    ensures e > 0 ==> x < e as real
  {
    var d := e as real;
    MulSigns(t, d);
    MulSigns(1.0 - t, d);
    assert d - x == (1.0 - t) * d;
  }

  /** Scaling a negative distance by a factor in [0, 1) stays in (e, 0]. */
  lemma ScaleDown(t: real, e: int, x: real)
    requires 0.0 <= t < 1.0 && e < 0 && x == t * e as real
    ensures e as real < x <= 0.0
  {
    var d := -(e as real);
    MulSigns(t, d);
    MulSigns(1.0 - t, d);
    assert x == -(t * d);
    assert x + d == (1.0 - t) * d;
  }

  /** The sign of a product of two non-negative reals. */
  lemma MulSigns(a: real, b: real)
    requires 0.0 <= a && 0.0 <= b
    ensures 0.0 <= a * b
    ensures 0.0 < a && 0.0 < b ==> 0.0 < a * b
  {
  }

  /** Truncation keeps a non-negative value inside an integer bound. */
  lemma TruncUp(x: real, e: int)
    requires e >= 0 && 0.0 <= x <= e as real && (e > 0 ==> x < e as real)
    ensures 0 <= Trunc(x) <= e && (Trunc(x) == e ==> e == 0)
  {
  }

  /** Truncation keeps a non-positive value above a negative integer bound. */
  lemma TruncDown(x: real, e: int)
    requires e < 0 && e as real < x <= 0.0
    ensures e < Trunc(x) <= 0
  {
  }

  /** The same, channel by channel, for whole pixels. */
  lemma LerpBetween(c1: Pixel, c2: Pixel, t: real)
    requires 0.0 <= t <= 1.0
    ensures var p := Lerp(c1, c2, t);
      Between(c1.R, p.R, c2.R) && Between(c1.G, p.G, c2.G) &&
      Between(c1.B, p.B, c2.B) && Between(c1.W, p.W, c2.W)
    ensures t < 1.0 && Lerp(c1, c2, t) == c2 ==> c1 == c2
    ensures t == 1.0 ==> Lerp(c1, c2, t) == c2
  {
    LerpChannelBetween(c1.R, c2.R, t);
    LerpChannelBetween(c1.G, c2.G, t);
    LerpChannelBetween(c1.B, c2.B, t);
    LerpChannelBetween(c1.W, c2.W, t);
  }

  /** The buffer `Gradient.Draw` paints: pixel i is `lerp(c1, c2, i / n)`. */
  function GradientFrame(c1: Pixel, c2: Pixel, n: nat): seq<Pixel> {
    seq(n, i requires 0 <= i < n => Lerp(c1, c2, i as real / n as real))
  }

  /** A gradient starts at its start colour, never reaches a different end
      colour, and stays between the two on every channel. */
  lemma GradientFrameBounds(c1: Pixel, c2: Pixel, n: nat)
    ensures n > 0 ==> GradientFrame(c1, c2, n)[0] == c1
    ensures forall i :: 0 <= i < n ==>
      var p := GradientFrame(c1, c2, n)[i];
      Between(c1.R, p.R, c2.R) && Between(c1.G, p.G, c2.G) &&
      Between(c1.B, p.B, c2.B) && Between(c1.W, p.W, c2.W) &&
      (p == c2 ==> c1 == c2)
  {
    forall i | 0 <= i < n
      ensures var p := GradientFrame(c1, c2, n)[i];
        Between(c1.R, p.R, c2.R) && Between(c1.G, p.G, c2.G) &&
        Between(c1.B, p.B, c2.B) && Between(c1.W, p.W, c2.W) &&
        (p == c2 ==> c1 == c2)
    {
      var t := i as real / n as real;
      assert 0.0 <= t < 1.0;
      LerpBetween(c1, c2, t);
    }
    if n > 0 {
      assert 0 as real / n as real == 0.0;
      LerpAtZero(c1, c2);
    }
  }

  /** `Gradient.Draw`: the first two colour lists are the ends; every pixel i of
      the buffer becomes `lerp(c1, c2, i / n)`. With fewer than two colour lists
      the slice index panics before any pixel is set. */
  method GradientDraw(colors: seq<seq<int>>, arr: array<Pixel>) returns (status: Status)
    modifies arr
    ensures |colors| < 2 ==> status == Panicked(IndexOutOfRange) && arr[..] == old(arr[..])
    ensures |colors| >= 2 ==> (status == Ok &&
      arr[..] == GradientFrame(Strip.Color(colors[0]), Strip.Color(colors[1]), arr.Length))
  {
    if |colors| < 2 {
      return Panicked(IndexOutOfRange);
    }
    var c1 := Strip.Color(colors[0]);
    var c2 := Strip.Color(colors[1]);
    var n := arr.Length;
    var i := 0;
    while i < n
      invariant 0 <= i <= n
      invariant forall k :: 0 <= k < i ==> arr[k] == Lerp(c1, c2, k as real / n as real)
    {
      arr[i] := Lerp(c1, c2, i as real / n as real);
      i := i + 1;
    }
    status := Ok;
  }

  /** The buffer `Sequence.Draw` paints: the colour lists repeat along the strip. */
  function SequenceFrame(colors: seq<seq<int>>, n: nat): seq<Pixel>
    requires n == 0 || |colors| > 0
  {
    seq(n, i requires 0 <= i < n => Strip.Color(colors[i % |colors|]))
  }

  /** The first pixels show the colours in list order. */
  lemma SequenceFrameStarts(colors: seq<seq<int>>, n: nat)
    requires |colors| > 0
    ensures forall i :: 0 <= i < n && i < |colors| ==> SequenceFrame(colors, n)[i] == Strip.Color(colors[i])
  {
    forall i | 0 <= i < n && i < |colors|
      ensures SequenceFrame(colors, n)[i] == Strip.Color(colors[i])
    {
      SmallMod(i, |colors|);
    }
  }

  /** The pattern repeats with period `|colors|`. */
  lemma SequenceFramePeriodic(colors: seq<seq<int>>, n: nat)
    requires |colors| > 0
    ensures forall i :: 0 <= i && i + |colors| < n ==>
      SequenceFrame(colors, n)[i + |colors|] == SequenceFrame(colors, n)[i]
  {
    forall i | 0 <= i && i + |colors| < n
      ensures SequenceFrame(colors, n)[i + |colors|] == SequenceFrame(colors, n)[i]
    {
      ModAddPeriod(i, |colors|);
    }
  }

  /** A number below the modulus is its own remainder. */
  lemma SmallMod(i: nat, m: nat)
    requires i < m
    ensures i % m == i
  {
  }

  /** Adding the modulus does not change the remainder. */
  lemma ModAddPeriod(i: nat, m: nat)
    requires m > 0
    ensures (i + m) % m == i % m
  {
    var q, r := i / m, i % m;
    var q2, r2 := (i + m) / m, (i + m) % m;
    assert m * q + r == i;
    assert m * q2 + r2 == i + m;
    var k := q2 - q - 1;
    assert m * k == r - r2 by {
      assert m * k == m * q2 - m * q - m;
    }
    NoSmallMultiple(m, k);
  }

  /** The only multiple of `m` strictly between `-m` and `m` is zero. */
  lemma NoSmallMultiple(m: int, k: int)
    requires m > 0 && -m < m * k < m
    ensures k == 0
  {
  }

  /** `Sequence.Draw`: pixel i becomes `color(Colors[i % len(Colors)])`. An empty
      colour list on a non-empty strip divides by zero at the first pixel. */
  method SequenceDraw(colors: seq<seq<int>>, arr: array<Pixel>) returns (status: Status)
    modifies arr
    ensures |colors| == 0 && arr.Length > 0 ==>
      (status == Panicked(DivideByZero) && arr[..] == old(arr[..]))
    ensures |colors| > 0 || arr.Length == 0 ==>
      (status == Ok && arr[..] == SequenceFrame(colors, arr.Length))
  {
    var n := arr.Length;
    if |colors| == 0 && n > 0 {
      return Panicked(DivideByZero);
    }
    var i := 0;
    while i < n
      invariant 0 <= i <= n
      invariant forall k :: 0 <= k < i ==> arr[k] == Strip.Color(colors[k % |colors|])
    {
      arr[i] := Strip.Color(colors[i % |colors|]);
      i := i + 1;
    }
    status := Ok;
  }
}
