/**
 * What render() (src/main.cpp) sends to the SDL renderer for one frame, as an
 * ordered list of commands: the partial clear of the primary buffer, the
 * vectors drawn into it, the copy into the afterglow buffer and the final
 * composite onto the window.
 */
module Raster {
  /** Number of intensity levels of the vector generator (VECTREX_COLORS in vecx's headers). */
  const VECTREX_COLORS: nat := 128

  /** An unsigned 8-bit value (Uint8, unsigned char). */
  type Byte = b: int | 0 <= b < 256

  /** One vector of the emulator's per-frame list, in analog coordinates. */
  datatype Vector = Vector(x0: int, y0: int, x1: int, y1: int, color: Byte)

  /** Render targets: `buffer`, `buffer2` and the window itself (target NULL). */
  datatype Target = Buffer | Afterglow | Window

  /** Textures copied with SDL_RenderCopy: `buffer`, `buffer2`, `overlay`. */
  datatype Layer = BufferLayer | AfterglowLayer | OverlayLayer

  /** One call into the SDL renderer. */
  datatype Command =
    | SetTarget(target: Target)
    | SetColor(r: Byte, g: Byte, b: Byte, a: Byte)
    | FillRect
    | DrawPoint(x: int, y: int)
    | DrawLine(x0: int, y0: int, x1: int, y1: int)
    | Copy(layer: Layer)
    | Clear
    | Present

  /** C's `/` on int: the quotient truncated toward zero. */
  function CDiv(a: int, d: int): (q: int)
    requires d > 0
    ensures 0 <= a ==> q * d <= a < q * d + d
    ensures a < 0 ==> q * d - d < a <= q * d
  {
    if a >= 0 then CDivNat(a, d) else 0 - CDivNat(-a, d)
  }

  function CDivNat(a: nat, d: int): (q: nat)
    requires d > 0
    ensures q * d <= a < q * d + d
  {
    assert a == (a / d) * d + a % d;
    a / d
  }

  /**
   * The alpha of a vector: its colour rescaled from VECTREX_COLORS levels to
   * 256, then narrowed to a Uint8 as the assignment to `Uint8 c` does.
   */
  function Alpha(color: Byte, colors: nat): (a: Byte)
    requires colors > 0
    ensures color < colors ==> a * colors <= color * 256 < (a + 1) * colors
  {
    Rescaled(color, colors);
    (color * 256 / colors) % 256
  }

  /** The rescaled colour before narrowing: below 256 for every colour under `colors`. */
  lemma Rescaled(color: Byte, colors: nat)
    requires colors > 0
    ensures var q := color * 256 / colors;
            q * colors <= color * 256 < (q + 1) * colors && (color < colors ==> q < 256 && q % 256 == q)
  {
    var q := color * 256 / colors;
    assert color * 256 == q * colors + (color * 256) % colors;
    if color < colors {
      assert q * colors < 256 * colors by {
        assert q * colors <= color * 256 < colors * 256;
      }
      QuotientBelow(q, colors, 256);
    }
  }

  lemma QuotientBelow(q: nat, d: nat, n: nat)
    requires d > 0 && q * d < n * d
    ensures q < n
  {
    assert 0 < n * d - q * d == (n - q) * d;
  }

  /** The colour-to-alpha mapping never decreases over the colours the generator produces. */
  lemma AlphaMonotone(c1: Byte, c2: Byte, colors: nat)
    requires colors > 0 && c1 <= c2 < colors
    ensures Alpha(c1, colors) <= Alpha(c2, colors)
  {
    var a1, a2 := Alpha(c1, colors), Alpha(c2, colors);
    assert a1 * colors <= c1 * 256 <= c2 * 256 < (a2 + 1) * colors;
    QuotientBelow(a1, colors, a2 + 1);
  }

  /** The commands for one vector, with every coordinate divided by the scale factor. */
  function VectorCommands(v: Vector, scl: int): (r: seq<Command>)
    requires scl > 0
    ensures |r| == 3 || |r| == 5
    ensures r[0] == SetColor(255, 255, 255, Alpha(v.color, VECTREX_COLORS))
    ensures forall i :: 1 <= i < |r| ==> IsDraw(r[i])
  {
    var x0, y0 := CDiv(v.x0, scl), CDiv(v.y0, scl);
    var x1, y1 := CDiv(v.x1, scl), CDiv(v.y1, scl);
    [SetColor(255, 255, 255, Alpha(v.color, VECTREX_COLORS))] +
    if x0 == x1 && y0 == y1 then
      [DrawPoint(x0, y0), DrawPoint(x0 + 1, y0), DrawPoint(x0, y0 + 1), DrawPoint(x0 + 1, y0 + 1)]
    else
      [DrawLine(x0, y0, x1, y1), DrawLine(x0 + 1, y0 + 1, x1 + 1, y1 + 1)]
  }

  /** The commands for a list of vectors, in list order. */
  function VectorsCommands(vs: seq<Vector>, scl: int): (r: seq<Command>)
    requires scl > 0
    ensures 3 * |vs| <= |r| <= 5 * |vs|
    ensures forall c :: c in r ==> c.SetColor? || IsDraw(c)
  {
    if vs == [] then []
    else VectorsCommands(vs[..|vs| - 1], scl) + VectorCommands(vs[|vs| - 1], scl)
  }

  /** The alpha of the fill that clears the primary buffer at the start of a frame. */
  function ClearAlpha(sharp: bool, remanence: int): (a: Byte)
    ensures sharp ==> a == 255
    ensures !sharp && 0 <= remanence < 256 ==> a == remanence
    ensures !sharp ==> (a - remanence) % 256 == 0
  {
    if sharp then 255 else remanence % 256
  }

  /** The commands before the vector batch: target the primary buffer and clear it. */
  function Head(sharp: bool, remanence: int): seq<Command>
  {
    [SetTarget(Buffer), SetColor(0, 0, 0, ClearAlpha(sharp, remanence)), FillRect]
  }

  /** The commands after the vector batch that fill the afterglow buffer. */
  function Glow(): seq<Command>
  {
    [SetTarget(Afterglow), Copy(BufferLayer)]
  }

  /** The whole of one render() call. */
  function Frame(vs: seq<Vector>, scl: int, sharp: bool, remanence: int, overlay: bool): (f: seq<Command>)
    requires scl > 0
    ensures |f| == 10 + |VectorsCommands(vs, scl)| + (if sharp then 0 else 1) + (if overlay then 1 else 0)
    ensures f[0] == SetTarget(Buffer) && f[2] == FillRect && f[|f| - 1] == Present
  {
    Head(sharp, remanence) + VectorsCommands(vs, scl) + Glow() + Composite(sharp, overlay)
  }

  /** The final composite onto the window, ending with the present. */
  function Composite(sharp: bool, overlay: bool): (c: seq<Command>)
    ensures |c| == 5 + (if sharp then 0 else 1) + (if overlay then 1 else 0)
    ensures c[0] == SetTarget(Window) && c[|c| - 1] == Present
    ensures Copy(AfterglowLayer) in c <==> !sharp
    ensures Copy(OverlayLayer) in c <==> overlay
    ensures forall i :: 0 <= i < |c| ==> !IsDraw(c[i]) && c[i] != FillRect
    ensures forall i :: 1 <= i < |c| ==> !c[i].SetTarget?
  {
    [SetTarget(Window), SetColor(25, 25, 25, 255), Clear, Copy(BufferLayer)]
    + (if sharp then [] else [Copy(AfterglowLayer)])
    + (if overlay then [Copy(OverlayLayer)] else [])
    + [Present]
  }

  /** The composite's order: the window is cleared to dark grey before any copy, then the
      primary buffer, the afterglow and the overlay are copied in that order. */
  lemma CompositeOrder(sharp: bool, overlay: bool)
    ensures var c := Composite(sharp, overlay);
            && c[1] == SetColor(25, 25, 25, 255) && c[2] == Clear && c[3] == Copy(BufferLayer)
            && (!sharp ==> c[4] == Copy(AfterglowLayer))
            && (overlay ==> c[|c| - 2] == Copy(OverlayLayer))
            && (forall i, j :: 0 <= i < j < |c| && c[i] == Copy(OverlayLayer) ==> c[j] != Copy(AfterglowLayer))
            && (forall i, j :: 0 <= i < j < |c| && c[i] == Copy(AfterglowLayer) ==> c[j] != Copy(BufferLayer))
  {
  }

  // ---------------------------------------------------------------------
  // Properties of the command list
  // ---------------------------------------------------------------------

  predicate IsDraw(c: Command)
  {
    c.DrawPoint? || c.DrawLine?
  }

  /** The points and the line start points a command list draws. */
  function Touched(cmds: seq<Command>): set<(int, int)>
  {
    set c | c in cmds && IsDraw(c) :: StartOf(c)
  }

  function StartOf(c: Command): (int, int)
    requires IsDraw(c)
  {
    if c.DrawPoint? then (c.x, c.y) else (c.x0, c.y0)
  }

  /** The commands of one vector only set the colour and draw. */
  predicate VectorCommand(c: Command)
  {
    c.SetColor? || IsDraw(c)
  }

  /** No line drawn for a vector has coinciding endpoints: those become points. */
  predicate ProperLine(c: Command)
  {
    c.DrawLine? ==> (c.x0, c.y0) != (c.x1, c.y1)
  }

  /**
   * A vector whose scaled endpoints coincide is drawn as exactly the 2x2 block
   * of points whose corner is that endpoint; any other vector as exactly two
   * lines, the second shifted by one pixel on both axes.
   */
  lemma VectorShape(v: Vector, scl: int)
    requires scl > 0
    ensures var x0, y0 := CDiv(v.x0, scl), CDiv(v.y0, scl);
            var x1, y1 := CDiv(v.x1, scl), CDiv(v.y1, scl);
            var cmds := VectorCommands(v, scl);
            && cmds[0] == SetColor(255, 255, 255, Alpha(v.color, VECTREX_COLORS))
            && (forall i :: 1 <= i < |cmds| ==> IsDraw(cmds[i]))
            && (x0 == x1 && y0 == y1 ==>
                  && |cmds| == 5
                  && (forall i :: 1 <= i < 5 ==> cmds[i].DrawPoint?)
                  && (forall x, y :: (x, y) in Touched(cmds) <==> x0 <= x <= x0 + 1 && y0 <= y <= y0 + 1))
            && (!(x0 == x1 && y0 == y1) ==>
                  && |cmds| == 3
                  && cmds[1] == DrawLine(x0, y0, x1, y1)
                  && cmds[2] == DrawLine(cmds[1].x0 + 1, cmds[1].y0 + 1, cmds[1].x1 + 1, cmds[1].y1 + 1)
                  && ProperLine(cmds[1]) && ProperLine(cmds[2]))
  {
    var x0, y0 := CDiv(v.x0, scl), CDiv(v.y0, scl);
    var x1, y1 := CDiv(v.x1, scl), CDiv(v.y1, scl);
    var cmds := VectorCommands(v, scl);
    if x0 == x1 && y0 == y1 {
      forall x, y ensures (x, y) in Touched(cmds) <==> x0 <= x <= x0 + 1 && y0 <= y <= y0 + 1 {
        if x0 <= x <= x0 + 1 && y0 <= y <= y0 + 1 {
          var i := 1 + (x - x0) + 2 * (y - y0);
          assert cmds[i] in cmds && StartOf(cmds[i]) == (x, y);
        }
      }
    }
  }

  /** Every command of the vector batch sets the colour or draws, and no line is zero-length. */
  lemma {:induction false} VectorsCommandsShape(vs: seq<Vector>, scl: int)
    requires scl > 0
    ensures forall c :: c in VectorsCommands(vs, scl) ==> VectorCommand(c) && ProperLine(c)
  {
    if vs != [] {
      VectorsCommandsShape(vs[..|vs| - 1], scl);
      VectorShape(vs[|vs| - 1], scl);
    }
  }

  /** Every vector of the list leaves a mark at its scaled start point. */
  lemma {:induction false} EveryVectorDrawn(vs: seq<Vector>, scl: int)
    requires scl > 0
    ensures forall v :: v in vs ==> (CDiv(v.x0, scl), CDiv(v.y0, scl)) in Touched(VectorsCommands(vs, scl))
  {
    if vs != [] {
      var init, last := vs[..|vs| - 1], vs[|vs| - 1];
      EveryVectorDrawn(init, scl);
      var a, b := VectorsCommands(init, scl), VectorCommands(last, scl);
      TouchedAppend(a, b);
      VectorShape(last, scl);
      assert b[1] in b && StartOf(b[1]) == (CDiv(last.x0, scl), CDiv(last.y0, scl));
      assert vs == init + [last];
    }
  }

  lemma TouchedAppend(a: seq<Command>, b: seq<Command>)
    ensures Touched(a + b) == Touched(a) + Touched(b)
  {
  }

  /** The render target in force just before position i: that of the last SetTarget before it. */
  function TargetBefore(cmds: seq<Command>, i: nat): Target
    requires i <= |cmds|
  {
    if i == 0 then Window
    else if cmds[i - 1].SetTarget? then cmds[i - 1].target
    else TargetBefore(cmds, i - 1)
  }

  /** The target in force at each position of a frame. */
  lemma FrameTargets(vs: seq<Vector>, scl: int, sharp: bool, remanence: int, overlay: bool)
    requires scl > 0
    ensures var f := Frame(vs, scl, sharp, remanence, overlay);
            var n := 3 + |VectorsCommands(vs, scl)|;
            && |f| > n + 2
            && (forall i :: 1 <= i <= n ==> TargetBefore(f, i) == Buffer)
            && TargetBefore(f, n + 1) == Afterglow && f[n + 1] == Copy(BufferLayer)
            && f[n + 2] == SetTarget(Window)
            && (forall i :: n + 2 < i <= |f| ==> TargetBefore(f, i) == Window)
  {
    FrontTargets(vs, scl, sharp, remanence, overlay);
    CompositeTargets(vs, scl, sharp, remanence, overlay);
  }

  /** Up to the afterglow copy: the primary buffer, then the afterglow buffer. */
  lemma FrontTargets(vs: seq<Vector>, scl: int, sharp: bool, remanence: int, overlay: bool)
    requires scl > 0
    ensures var f := Frame(vs, scl, sharp, remanence, overlay);
            var n := 3 + |VectorsCommands(vs, scl)|;
            && (forall i :: 1 <= i <= n ==> TargetBefore(f, i) == Buffer)
            && TargetBefore(f, n + 1) == Afterglow && f[n + 1] == Copy(BufferLayer)
  {
    VectorsCommandsShape(vs, scl);
    FrameSplit(vs, scl, sharp, remanence, overlay);
    BufferThenGlow(Head(sharp, remanence), VectorsCommands(vs, scl), Composite(sharp, overlay));
  }

  /** The clear, a batch that never switches target, the afterglow copy, then anything. */
  lemma BufferThenGlow(head: seq<Command>, body: seq<Command>, c: seq<Command>)
    requires |head| == 3 && head[0] == SetTarget(Buffer) && !head[1].SetTarget? && !head[2].SetTarget?
    requires forall x :: x in body ==> VectorCommand(x)
    ensures var f := head + body + Glow() + c;
            var n := 3 + |body|;
            && (forall i :: 1 <= i <= n ==> TargetBefore(f, i) == Buffer)
            && TargetBefore(f, n + 1) == Afterglow && f[n + 1] == Copy(BufferLayer)
  {
    var f := head + body + Glow() + c;
    var n := 3 + |body|;
    forall k | 1 <= k < n ensures !f[k].SetTarget? {
      if k >= 3 {
        assert f[k] == body[k - 3] && f[k] in body;
      }
    }
    TargetSpan(f, 0, n);
  }

  /** From the switch to the window on, the window is the target. */
  lemma CompositeTargets(vs: seq<Vector>, scl: int, sharp: bool, remanence: int, overlay: bool)
    requires scl > 0
    ensures var f := Frame(vs, scl, sharp, remanence, overlay);
            var n := 3 + |VectorsCommands(vs, scl)|;
            && |f| > n + 2
            && f[n + 2] == SetTarget(Window)
            && (forall i :: n + 2 < i <= |f| ==> TargetBefore(f, i) == Window)
  {
    FrameSplit(vs, scl, sharp, remanence, overlay);
    WindowToTheEnd(Head(sharp, remanence) + VectorsCommands(vs, scl) + Glow(), Composite(sharp, overlay));
  }

  /** A composite switches to the window first and never again. */
  lemma WindowToTheEnd(front: seq<Command>, c: seq<Command>)
    requires |c| > 0 && c[0] == SetTarget(Window)
    requires forall i :: 1 <= i < |c| ==> !c[i].SetTarget?
    ensures var f := front + c;
            && f[|front|] == SetTarget(Window)
            && (forall i :: |front| < i <= |f| ==> TargetBefore(f, i) == Window)
  {
    var f := front + c;
    var m := |front|;
    forall k | m < k < |f| ensures !f[k].SetTarget? {
      assert f[k] == c[k - m];
    }
    TargetSpan(f, m, |f|);
  }

  /** After a SetTarget and up to the next one, that target is in force. */
  lemma TargetSpan(cmds: seq<Command>, m: nat, hi: nat)
    requires m < hi <= |cmds| && cmds[m].SetTarget?
    requires forall k :: m < k < hi ==> !cmds[k].SetTarget?
    ensures forall i :: m < i <= hi ==> TargetBefore(cmds, i) == cmds[m].target
  {
    forall i | m < i <= hi ensures TargetBefore(cmds, i) == cmds[m].target {
      TargetStays(cmds, m + 1, i);
    }
  }

  /**
   * The clear fill and every vector land in the primary buffer, and the only
   * thing drawn into the afterglow buffer is the copy of the primary buffer.
   */
  lemma FrameDrawsIntoBuffer(vs: seq<Vector>, scl: int, sharp: bool, remanence: int, overlay: bool)
    requires scl > 0
    ensures var f := Frame(vs, scl, sharp, remanence, overlay);
            && f[..3] == [SetTarget(Buffer), SetColor(0, 0, 0, ClearAlpha(sharp, remanence)), FillRect]
            && (forall i :: 0 <= i < |f| && (IsDraw(f[i]) || f[i] == FillRect) ==> TargetBefore(f, i) == Buffer)
            && (forall i :: 0 <= i < |f| && TargetBefore(f, i) == Afterglow && !f[i].SetTarget? ==> f[i] == Copy(BufferLayer))
  {
    var body := VectorsCommands(vs, scl);
    var f := Frame(vs, scl, sharp, remanence, overlay);
    var n := 3 + |body|;
    FrameTargets(vs, scl, sharp, remanence, overlay);
    FrameTailDrawsNothing(vs, scl, sharp, remanence, overlay);
    assert f[..3] == Head(sharp, remanence);
    forall i | 0 <= i < |f| && (IsDraw(f[i]) || f[i] == FillRect) ensures TargetBefore(f, i) == Buffer {
      assert 1 <= i < n;
    }
    forall i | 0 <= i < |f| && TargetBefore(f, i) == Afterglow && !f[i].SetTarget? ensures f[i] == Copy(BufferLayer) {
      assert i == n + 1;
    }
  }

  /** Past the vector batch a frame neither draws nor fills. */
  lemma FrameTailDrawsNothing(vs: seq<Vector>, scl: int, sharp: bool, remanence: int, overlay: bool)
    requires scl > 0
    ensures var f := Frame(vs, scl, sharp, remanence, overlay);
            forall i :: 3 + |VectorsCommands(vs, scl)| <= i < |f| ==> !IsDraw(f[i]) && f[i] != FillRect
  {
    var front := Head(sharp, remanence) + VectorsCommands(vs, scl) + Glow();
    FrameSplit(vs, scl, sharp, remanence, overlay);
    GlowThenComposite(front, Composite(sharp, overlay));
  }

  /** A front part ending with the afterglow copy, then a composite: nothing after the batch draws. */
  lemma GlowThenComposite(front: seq<Command>, c: seq<Command>)
    requires |front| >= 2 && front[|front| - 2..] == Glow()
    requires forall i :: 0 <= i < |c| ==> !IsDraw(c[i]) && c[i] != FillRect
    ensures forall i :: |front| - 2 <= i < |front + c| ==> !IsDraw((front + c)[i]) && (front + c)[i] != FillRect
  {
    var n := |front| - 2;
    assert front[n] == Glow()[0] && front[n + 1] == Glow()[1];
  }

  /** A frame is the front part (up to the afterglow copy) followed by the composite. */
  lemma FrameSplit(vs: seq<Vector>, scl: int, sharp: bool, remanence: int, overlay: bool)
    requires scl > 0
    ensures var front := Head(sharp, remanence) + VectorsCommands(vs, scl) + Glow();
            && Frame(vs, scl, sharp, remanence, overlay) == front + Composite(sharp, overlay)
            && Copy(AfterglowLayer) !in front && Copy(OverlayLayer) !in front && Present !in front
  {
    BatchOnlyDraws(vs, scl);
  }

  /**
   * The composite onto the window: the afterglow layer is copied exactly when
   * not sharp, the overlay exactly when one is loaded.
   */
  lemma FrameLayers(vs: seq<Vector>, scl: int, sharp: bool, remanence: int, overlay: bool)
    requires scl > 0
    ensures var f := Frame(vs, scl, sharp, remanence, overlay);
            && (Copy(AfterglowLayer) in f <==> !sharp)
            && (Copy(OverlayLayer) in f <==> overlay)
  {
    FrameSplit(vs, scl, sharp, remanence, overlay);
  }

  /** The present comes once, last. */
  lemma FramePresentLast(vs: seq<Vector>, scl: int, sharp: bool, remanence: int, overlay: bool)
    requires scl > 0
    ensures var f := Frame(vs, scl, sharp, remanence, overlay);
            f[|f| - 1] == Present && Present !in f[..|f| - 1]
  {
    FrameSplit(vs, scl, sharp, remanence, overlay);
    var front := Head(sharp, remanence) + VectorsCommands(vs, scl) + Glow();
    var pre := [SetTarget(Window), SetColor(25, 25, 25, 255), Clear, Copy(BufferLayer)]
               + (if sharp then [] else [Copy(AfterglowLayer)])
               + (if overlay then [Copy(OverlayLayer)] else []);
    assert Composite(sharp, overlay) == pre + [Present];
    var f := Frame(vs, scl, sharp, remanence, overlay);
    assert f == (front + pre) + [Present];
    assert f[..|f| - 1] == front + pre;
  }

  /** The vector batch holds no target switch, layer copy or present. */
  lemma BatchOnlyDraws(vs: seq<Vector>, scl: int)
    requires scl > 0
    ensures forall t :: SetTarget(t) !in VectorsCommands(vs, scl)
    ensures forall l :: Copy(l) !in VectorsCommands(vs, scl)
    ensures Present !in VectorsCommands(vs, scl)
  {
    VectorsCommandsShape(vs, scl);
  }

  /** Between lo and hi no SetTarget occurs, so the target at hi is the one at lo. */
  lemma {:induction false} TargetStays(cmds: seq<Command>, lo: nat, hi: nat)
    requires lo <= hi <= |cmds|
    requires forall k :: lo <= k < hi ==> !cmds[k].SetTarget?
    ensures TargetBefore(cmds, hi) == TargetBefore(cmds, lo)
    decreases hi - lo
  {
    if lo < hi {
      TargetStays(cmds, lo, hi - 1);
    }
  }

  /** Drops every occurrence of one command. */
  function Without(cmds: seq<Command>, c: Command): (r: seq<Command>)
    ensures c !in r
    ensures forall d :: d != c ==> (d in r <==> d in cmds)
  {
    if cmds == [] then []
    else if cmds[0] == c then Without(cmds[1..], c)
    else [cmds[0]] + Without(cmds[1..], c)
  }

  lemma {:induction false} WithoutAppend(a: seq<Command>, b: seq<Command>, c: Command)
    ensures Without(a + b, c) == Without(a, c) + Without(b, c)
  {
    if a == [] {
      assert a + b == b;
    } else {
      assert (a + b)[0] == a[0] && (a + b)[1..] == a[1..] + b;
      WithoutAppend(a[1..], b, c);
      if a[0] != c {
        assert Without(a + b, c) == [a[0]] + (Without(a[1..], c) + Without(b, c));
      }
    }
  }

  lemma {:induction false} WithoutAbsent(a: seq<Command>, c: Command)
    requires c !in a
    ensures Without(a, c) == a
  {
    if a != [] {
      WithoutAbsent(a[1..], c);
    }
  }

  /**
   * Sharp mode is the non-sharp frame with an opaque clear and without the
   * afterglow layer: switching sharp mode off changes the clear alpha from 255
   * to the remanence and adds the afterglow copy, nothing else.
   */
  lemma SharpDropsOnlyAfterglow(vs: seq<Vector>, scl: int, remanence: int, overlay: bool)
    requires scl > 0
    ensures Frame(vs, scl, true, remanence, overlay)
            == Without(Frame(vs, scl, false, 255, overlay), Copy(AfterglowLayer))
  {
    var c := Copy(AfterglowLayer);
    FrameSplit(vs, scl, true, remanence, overlay);
    FrameSplit(vs, scl, false, 255, overlay);
    assert Head(true, remanence) == Head(false, 255);
    var front := Head(false, 255) + VectorsCommands(vs, scl) + Glow();
    WithoutAppend(front, Composite(false, overlay), c);
    WithoutAbsent(front, c);
    CompositeWithoutAfterglow(overlay);
  }

  lemma CompositeWithoutAfterglow(overlay: bool)
    ensures Without(Composite(false, overlay), Copy(AfterglowLayer)) == Composite(true, overlay)
  {
    var c := Copy(AfterglowLayer);
    var pre := [SetTarget(Window), SetColor(25, 25, 25, 255), Clear, Copy(BufferLayer)];
    var post := (if overlay then [Copy(OverlayLayer)] else []) + [Present];
    assert Composite(false, overlay) == pre + ([c] + post);
    assert Composite(true, overlay) == pre + post;
    WithoutAppend(pre, [c] + post, c);
    WithoutAbsent(pre, c);
    WithoutAbsent(post, c);
  }
}
