/**
 * The mirror-zoom runtime shader: scale every pixel's sample coordinate about
 * the centre of the surface, then fold a coordinate that left `[0, size]` back
 * by reflection at the edge it crossed. The pixel's colour is
 * `content.eval(Sample(...))`; the sampler itself is not modelled.
 */
module MirrorZoom {
  import opened Geometry

  /**
   * The reflection rule on one axis, in the shader's order: a negative
   * coordinate is negated first, and then one above `size` is reflected at `size`.
   */
  function FoldAxis(c: real, size: real): real
  {
    var c1 := if c < 0.0 then -c else c;
    if c1 > size then 2.0 * size - c1 else c1
  }

  /** The reflection rule on both axes. */
  function Fold(p: Vec, size: Vec): Vec
  {
    Vec(FoldAxis(p.x, size.x), FoldAxis(p.y, size.y))
  }

  /** `center + (fragCoord - center) / scale`, before folding. */
  function Zoomed(frag: Vec, size: Vec, scale: real): Vec
    requires scale != 0.0
  {
    var center := Center(size);
    var offset := Sub(frag, center);
    var scaled := Div(offset, scale);
    Add(center, scaled)
  }

  /** The coordinate the shader samples for the pixel `frag`. */
  function Sample(frag: Vec, size: Vec, scale: real): Vec
    requires scale != 0.0
  {
    Fold(Zoomed(frag, size, scale), size)
  }

  /** A coordinate already in `[0, size]` is left alone by the fold. */
  lemma FoldAxisKeepsInRange(c: real, size: real)
    requires 0.0 <= c <= size
    ensures FoldAxis(c, size) == c
  {
  }

  /**
   * A coordinate in `[-size, 0)` folds to `-c`, one in `(size, 2 size]` folds to
   * `2 size - c`; either way the result lies in `[0, size]`.
   */
  lemma FoldAxisReflects(c: real, size: real)
    ensures -size <= c < 0.0 ==> FoldAxis(c, size) == -c && 0.0 <= FoldAxis(c, size) <= size
    ensures size < c <= 2.0 * size ==> FoldAxis(c, size) == 2.0 * size - c && 0.0 <= FoldAxis(c, size) <= size
  {
  }

  /** The single fold brings a coordinate into `[0, size]` exactly when it started in `[-2 size, 2 size]`. */
  lemma FoldAxisRange(c: real, size: real)
    requires size >= 0.0
    ensures 0.0 <= FoldAxis(c, size) <= size <==> -2.0 * size <= c <= 2.0 * size
  {
  }

  /** With `scale = 1` every pixel of the surface samples itself. */
  lemma UnitScaleIsIdentity(frag: Vec, size: Vec)
    requires InBox(frag, Origin, size)
    ensures Sample(frag, size, 1.0) == frag
  {
    assert Zoomed(frag, size, 1.0) == frag;
  }

  /** For any scale the centre pixel samples itself. */
  lemma CentreIsFixed(size: Vec, scale: real)
    requires scale != 0.0
    requires size.x >= 0.0 && size.y >= 0.0
    ensures Sample(Center(size), size, scale) == Center(size)
  {
    assert Sub(Center(size), Center(size)) == Origin;
    assert Div(Origin, scale) == Origin;
  }

  /** One axis of the zoom: a pixel in `[0, s]` maps into `[c - 3(s/2), c + 3(s/2)]` for `k >= 1/3`, and into `[0, s]` for `k >= 1`. */
  lemma ZoomAxisBounds(p: real, s: real, k: real)
    requires 0.0 <= p <= s
    requires 3.0 * k >= 1.0
    ensures var c := s * 0.5; var z := c + (p - c) / k;
            -s <= z <= 2.0 * s && (k >= 1.0 ==> 0.0 <= z <= s)
  {
    var c := s * 0.5;
    var d := p - c;
    assert -c <= d <= c;
    if d >= 0.0 {
      DivAtMost(d, k, 3.0);
      if k >= 1.0 {
        DivAtMost(d, k, 1.0);
      }
    } else {
      DivAtMost(-d, k, 3.0);
      assert (-d) / k == -(d / k);
      if k >= 1.0 {
        DivAtMost(-d, k, 1.0);
      }
    }
  }

  /** Dividing a non-negative `d` by `k` with `m k >= 1` gives at most `m d`. */
  lemma DivAtMost(d: real, k: real, m: real)
    requires d >= 0.0 && k > 0.0 && m * k >= 1.0
    ensures 0.0 <= d / k <= m * d
  {
    var q := d / k;
    assert q * k == d;
    assert q >= 0.0;
    MulMonotone(q, m * k, 1.0);
    assert q * (m * k) == m * (q * k);
  }

  /**
   * For `scale >= 1` (zooming in) the zoomed coordinate of a pixel of the
   * surface is already in range, so no fold fires.
   */
  lemma ZoomInNeedsNoFold(frag: Vec, size: Vec, scale: real)
    requires scale >= 1.0
    requires InBox(frag, Origin, size)
    ensures InBox(Zoomed(frag, size, scale), Origin, size)
    ensures Sample(frag, size, scale) == Zoomed(frag, size, scale)
  {
    ZoomAxisBounds(frag.x, size.x, scale);
    ZoomAxisBounds(frag.y, size.y, scale);
  }

  /** For `scale >= 1/3` every pixel of the surface samples a coordinate inside it. */
  lemma ZoomOutStaysInside(frag: Vec, size: Vec, scale: real)
    requires 3.0 * scale >= 1.0
    requires InBox(frag, Origin, size)
    ensures InBox(Sample(frag, size, scale), Origin, size)
  {
    var z := Zoomed(frag, size, scale);
    ZoomAxisBounds(frag.x, size.x, scale);
    ZoomAxisBounds(frag.y, size.y, scale);
    FoldAxisRange(z.x, size.x);
    FoldAxisRange(z.y, size.y);
  }

  /**
   * Below `scale = 1/3` one fold is not enough: size 200, scale 0.25, pixel
   * (200, 100) zooms to x = 500, which folds to -100, outside the surface.
   */
  lemma StrongZoomOutLeavesSurface()
    ensures Zoomed(Vec(200.0, 100.0), Vec(200.0, 200.0), 0.25) == Vec(500.0, 100.0)
    ensures Sample(Vec(200.0, 100.0), Vec(200.0, 200.0), 0.25) == Vec(-100.0, 100.0)
  {
  }

  /** The x coordinate depends only on `fragCoord.x` and `size.x`, and likewise for y. */
  lemma AxesAreIndependent(f1: Vec, s1: Vec, f2: Vec, s2: Vec, scale: real)
    requires scale != 0.0
    ensures f1.x == f2.x && s1.x == s2.x ==> Sample(f1, s1, scale).x == Sample(f2, s2, scale).x
    ensures f1.y == f2.y && s1.y == s2.y ==> Sample(f1, s1, scale).y == Sample(f2, s2, scale).y
  {
  }

  /** Size 200 x 200, scale 2, pixel (0, 0): centre (100, 100), sample (50, 50), no fold. */
  lemma ZoomExample()
    ensures Zoomed(Origin, Vec(200.0, 200.0), 2.0) == Vec(50.0, 50.0)
    ensures Sample(Origin, Vec(200.0, 200.0), 2.0) == Vec(50.0, 50.0)
  {
  }
}
