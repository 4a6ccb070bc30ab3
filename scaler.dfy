/**
 * The coordinate scaler of resize() (src/main.cpp): an integer downscale factor
 * from the window size and the analog bounds of the vector generator, the
 * logical resolution it gives, and the sizes of the two render textures.
 */
module Scaler {
  import opened Wrappers

  /** Analog bounds of the vector generator (DAC_MAX_X, DAC_MAX_Y in vecx's headers). */
  const DAC_MAX_X: nat := 33000
  const DAC_MAX_Y: nat := 41000

  /** A window dimension as SDL_GetWindowSize reports it: always positive. */
  type Extent = n: int | n > 0 witness 1

  /** The result of one resize: factor, logical (= primary buffer) size, afterglow buffer size. */
  datatype Scale = Scale(factor: nat, width: nat, height: nat, glowWidth: nat, glowHeight: nat)

  /**
   * The factor exactly as resize() computes it: the larger of the two
   * truncating quotients. It is the largest k such that k window widths fit
   * in the horizontal bound or k window heights fit in the vertical one.
   */
  function RawFactor(ax: nat, ay: nat, w: Extent, h: Extent): (f: nat)
    ensures f * w <= ax || f * h <= ay
    ensures ax < (f + 1) * w && ay < (f + 1) * h
  {
    var sx := ax / w;
    var sy := ay / h;
    DivBounds(ax, w);
    DivBounds(ay, h);
    if sx > sy then
      MulMono(sy + 1, sx + 1, h);
      sx
    else
      MulMono(sx + 1, sy + 1, w);
      sy
  }

  /** Euclidean quotient bounds, for a non-negative dividend and a positive divisor. */
  lemma DivBounds(a: nat, d: int)
    requires d > 0
    ensures (a / d) * d <= a < (a / d + 1) * d
  {
    assert a == (a / d) * d + a % d;
    assert (a / d + 1) * d == (a / d) * d + d;
  }

  lemma MulMono(a: int, b: int, c: nat)
    requires a <= b
    ensures a * c <= b * c
  {
    assert b * c - a * c == (b - a) * c;
  }

  /** The factor is zero exactly when the window exceeds both analog bounds. */
  lemma RawFactorZeroIff(ax: nat, ay: nat, w: Extent, h: Extent)
    ensures RawFactor(ax, ay, w, h) == 0 <==> (ax < w && ay < h)
  {
    var f := RawFactor(ax, ay, w, h);
    if f == 0 {
      assert ax < w && ay < h;
    } else {
      assert w <= f * w && h <= f * h by { MulMono(1, f, w); MulMono(1, f, h); }
    }
  }

  /**
   * The logical size for a given positive factor: the analog bounds divided
   * by it, and half of that for the afterglow buffer.
   */
  function Layout(ax: nat, ay: nat, f: nat): (s: Scale)
    requires f > 0
    ensures s.factor == f
    ensures s.width * f <= ax < (s.width + 1) * f
    ensures s.height * f <= ay < (s.height + 1) * f
    ensures 2 * s.glowWidth <= s.width <= 2 * s.glowWidth + 1
    ensures 2 * s.glowHeight <= s.height <= 2 * s.glowHeight + 1
  {
    var width := ax / f;
    var height := ay / f;
    DivBounds(ax, f);
    DivBounds(ay, f);
    Scale(f, width, height, width / 2, height / 2)
  }

  /**
   * resize() as written: a zero factor reaches DAC_MAX_X / scl_factor, a
   * division by zero, shown here as None.
   */
  function ResizeAsWritten(ax: nat, ay: nat, w: Extent, h: Extent): (r: Option<Scale>)
    ensures r.None? <==> (ax < w && ay < h)
  {
    RawFactorZeroIff(ax, ay, w, h);
    var f := RawFactor(ax, ay, w, h);
    if f == 0 then None else Some(Layout(ax, ay, f))
  }

  /** A window wider and taller than the analog bounds makes resize() divide by zero. */
  lemma HugeWindowDividesByZero()
    ensures ResizeAsWritten(DAC_MAX_X, DAC_MAX_Y, DAC_MAX_X + 1, DAC_MAX_Y + 1) == None
  {
  }

  /**
   * The factor with the clamp to 1 that resize() lacks; it agrees with the
   * as-written factor wherever that one is usable.
   */
  function ScaleFactor(ax: nat, ay: nat, w: Extent, h: Extent): (f: nat)
    ensures f >= 1
    ensures (w <= ax || h <= ay) ==> f == RawFactor(ax, ay, w, h)
    ensures (ax < w && ay < h) ==> f == 1
  {
    RawFactorZeroIff(ax, ay, w, h);
    var raw := RawFactor(ax, ay, w, h);
    if raw == 0 then 1 else raw
  }

  /** The scale state resize() leaves behind for a window of w by h pixels. */
  function Resized(w: Extent, h: Extent): (s: Scale)
    ensures s.factor >= 1
    ensures s.width * s.factor <= DAC_MAX_X && s.height * s.factor <= DAC_MAX_Y
  {
    Layout(DAC_MAX_X, DAC_MAX_Y, ScaleFactor(DAC_MAX_X, DAC_MAX_Y, w, h))
  }

  /** Wherever resize() as written is defined, the clamped version gives the same scale. */
  lemma ClampAgreesWhenDefined(w: Extent, h: Extent)
    ensures ResizeAsWritten(DAC_MAX_X, DAC_MAX_Y, w, h).Some? ==>
              ResizeAsWritten(DAC_MAX_X, DAC_MAX_Y, w, h) == Some(Resized(w, h))
  {
  }
}
