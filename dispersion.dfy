/**
 * The glass runtime shader with chromatic dispersion: pixels inside the inner
 * box `[border, size - border]` pass through; the rest sample the mirror image
 * of themselves across the inner box's edge, pulled toward the centre by
 * `distortFactor`, and read red, green and blue at three points spread along
 * the outward direction by `dispersion`.
 */
module Dispersion {
  import opened Geometry

  /** What the shader samples for one pixel. */
  datatype GlassSample =
    | PassThrough(coord: Vec)                             // return content.eval(fragCoord)
    | Dispersed(red: Vec, green: Vec, blue: Vec, alpha: Vec)  // half4(r, g, b, a), each read at its own point

  function InnerMin(border: real): Vec { Vec(border, border) }
  function InnerMax(size: Vec, border: real): Vec { Sub(size, InnerMin(border)) }

  /** The main body of the surface, left unchanged (inclusive on all four sides). */
  predicate Interior(frag: Vec, size: Vec, border: real)
  {
    InBox(frag, InnerMin(border), InnerMax(size, border))
  }

  /** `clamp(fragCoord, innerMin, innerMax)`: the nearest point of the inner box. */
  function Nearest(frag: Vec, size: Vec, border: real): Vec
  {
    ClampVec(frag, InnerMin(border), InnerMax(size, border))
  }

  /** `clamp(dist / border, 0, 1)`. */
  function EdgeFactor(dist: real, border: real): real
    requires border != 0.0
  {
    Clamp(dist / border, 0.0, 1.0)
  }

  /** `2 * nearest - fragCoord`: the pixel reflected across the inner box's edge. */
  function Mirrored(frag: Vec, size: Vec, border: real): Vec
  {
    Sub(Scale(Nearest(frag, size, border), 2.0), frag)
  }

  /** `mirrored + (center - fragCoord) * distortFactor * edgeFactor`. */
  function Distorted(frag: Vec, size: Vec, border: real, distortFactor: real, edgeFactor: real): Vec
  {
    var radial := Scale(Scale(Sub(Center(size), frag), distortFactor), edgeFactor);
    Add(Mirrored(frag, size, border), radial)
  }

  /**
   * The shader's `main`, given `len = distance(fragCoord, nearest)`, which is also
   * the length `normalize` divides by. A zero `fragCoord - nearest` gives the
   * zero direction, which is what the shader's own guard assigns. The shader
   * divides by `border` only outside the main body; with a zero border every
   * pixel of the surface is in the main body (see `NonPositiveBorderPassesThrough`).
   */
  function Sample(frag: Vec, size: Vec, border: real, dispersion: real, distortFactor: real, len: real): (s: GlassSample)
    requires border != 0.0 || Interior(frag, size, border)
    requires IsLength(Sub(frag, Nearest(frag, size, border)), len)
  {
    if Interior(frag, size, border) then
      PassThrough(frag)
    else
      var lo := InnerMin(border);
      var hi := InnerMax(size, border);
      var edgeFactor := EdgeFactor(len, border);
      var distorted := Distorted(frag, size, border, distortFactor, edgeFactor);
      var dir0 := Direction(Sub(frag, Nearest(frag, size, border)), len);
      var dir := if dir0.x == 0.0 && dir0.y == 0.0 then Origin else dir0;
      var spread := Scale(dir, dispersion * 0.5);
      Dispersed(ClampVec(Add(distorted, spread), lo, hi),
                ClampVec(distorted, lo, hi),
                ClampVec(Sub(distorted, spread), lo, hi),
                distorted)
  }

  /** The colour the pixel gets, reading `content` at the sampled points. */
  function Shade(content: Vec -> Color, s: GlassSample): Color
  {
    match s
    case PassThrough(p) => content(p)
    case Dispersed(r, g, b, a) => Color(content(r).r, content(g).g, content(b).b, content(a).a)
  }

  /** The main body passes through untouched, and only the main body does. */
  lemma InteriorPassesThrough(content: Vec -> Color, frag: Vec, size: Vec, border: real,
                              dispersion: real, distortFactor: real, len: real)
    requires border != 0.0 || Interior(frag, size, border)
    requires IsLength(Sub(frag, Nearest(frag, size, border)), len)
    ensures Sample(frag, size, border, dispersion, distortFactor, len).PassThrough? <==> Interior(frag, size, border)
    ensures Interior(frag, size, border) ==>
              Shade(content, Sample(frag, size, border, dispersion, distortFactor, len)) == content(frag)
  {
  }

  /**
   * With a border of zero or less, as the border slider allows, every pixel of
   * the surface is in the main body and passes through untouched.
   */
  lemma NonPositiveBorderPassesThrough(content: Vec -> Color, frag: Vec, size: Vec, border: real,
                                       dispersion: real, distortFactor: real, len: real)
    requires border <= 0.0
    requires InBox(frag, Origin, size)
    requires IsLength(Sub(frag, Nearest(frag, size, border)), len)
    ensures Interior(frag, size, border)
    ensures Sample(frag, size, border, dispersion, distortFactor, len) == PassThrough(frag)
    ensures Shade(content, Sample(frag, size, border, dispersion, distortFactor, len)) == content(frag)
  {
  }

  /** When the inner box is not empty, its nearest point lies in it, and is the pixel itself exactly for the main body. */
  lemma NearestInInner(frag: Vec, size: Vec, border: real)
    requires 2.0 * border <= size.x && 2.0 * border <= size.y
    ensures InBox(Nearest(frag, size, border), InnerMin(border), InnerMax(size, border))
    ensures Nearest(frag, size, border) == frag <==> Interior(frag, size, border)
  {
    ClampVecInBox(frag, InnerMin(border), InnerMax(size, border));
  }

  /** One axis of the reflection: a point of `[0, s]` reflects into `[b, s - b]` when `3 b <= s`. */
  lemma MirroredAxisInside(x: real, s: real, b: real)
    requires 0.0 <= b && 3.0 * b <= s
    requires 0.0 <= x <= s
    ensures b <= 2.0 * Clamp(x, b, s - b) - x <= s - b
  {
  }

  /**
   * On a surface at least three borders wide and high, every pixel's mirror image
   * falls inside the main body.
   */
  lemma MirroredInside(frag: Vec, size: Vec, border: real)
    requires 0.0 <= border && 3.0 * border <= size.x && 3.0 * border <= size.y
    requires InBox(frag, Origin, size)
    ensures InBox(Mirrored(frag, size, border), InnerMin(border), InnerMax(size, border))
  {
    MirroredAxisInside(frag.x, size.x, border);
    MirroredAxisInside(frag.y, size.y, border);
  }

  /** The edge factor is in `[0, 1]`, and is `dist / border` while the pixel is within one border of the inner box. */
  lemma EdgeFactorUnit(dist: real, border: real)
    requires border != 0.0
    ensures 0.0 <= EdgeFactor(dist, border) <= 1.0
    ensures 0.0 <= dist <= border ==> EdgeFactor(dist, border) == dist / border
  {
    ClampBounds(dist / border, 0.0, 1.0);
    if 0.0 <= dist <= border {
      var q := dist / border;
      assert q * border == dist;
      assert q <= 1.0 by {
        if q > 1.0 {
          MulMonotone(border, q, 1.0);
        }
      }
    }
  }

  /** With `distortFactor = 0` the pixel samples its plain mirror image. */
  lemma ZeroDistortIsMirror(frag: Vec, size: Vec, border: real, edgeFactor: real)
    ensures Distorted(frag, size, border, 0.0, edgeFactor) == Mirrored(frag, size, border)
  {
  }

  /**
   * Outside the main body all three colour points are clamped into the inner box
   * (when it is not empty), green is read at the clamped distorted point, and
   * alpha at the unclamped one.
   */
  lemma ChannelsClamped(frag: Vec, size: Vec, border: real, dispersion: real, distortFactor: real,
                        len: real)
    requires border != 0.0 && 2.0 * border <= size.x && 2.0 * border <= size.y
    requires IsLength(Sub(frag, Nearest(frag, size, border)), len)
    requires !Interior(frag, size, border)
    ensures var s := Sample(frag, size, border, dispersion, distortFactor, len);
            var lo := InnerMin(border);
            var hi := InnerMax(size, border);
            var d := Distorted(frag, size, border, distortFactor, EdgeFactor(len, border));
            s.Dispersed? &&
            InBox(s.red, lo, hi) && InBox(s.green, lo, hi) && InBox(s.blue, lo, hi) &&
            s.green == ClampVec(d, lo, hi) && s.alpha == d
  {
    var s := Sample(frag, size, border, dispersion, distortFactor, len);
    var lo := InnerMin(border);
    var hi := InnerMax(size, border);
    ClampVecInBox(s.alpha, lo, hi);
    ClampVecInBox(Add(s.alpha, Scale(Direction(Sub(frag, Nearest(frag, size, border)), len), dispersion * 0.5)), lo, hi);
    ClampVecInBox(Sub(s.alpha, Scale(Direction(Sub(frag, Nearest(frag, size, border)), len), dispersion * 0.5)), lo, hi);
    ClampVecInBox(Add(s.alpha, Scale(Origin, dispersion * 0.5)), lo, hi);
    ClampVecInBox(Sub(s.alpha, Scale(Origin, dispersion * 0.5)), lo, hi);
  }

  /** Without dispersion the three colours are read at one point, so the edge shows no colour fringe. */
  lemma ZeroDispersionSinglePoint(frag: Vec, size: Vec, border: real, distortFactor: real,
                                  len: real)
    requires border != 0.0
    requires IsLength(Sub(frag, Nearest(frag, size, border)), len)
    requires !Interior(frag, size, border)
    ensures var s := Sample(frag, size, border, 0.0, distortFactor, len);
            s.Dispersed? && s.red == s.green == s.blue
  {
  }

  /**
   * Without dispersion a pixel outside the main body takes all four channels of
   * `content` at the clamped distorted point, except alpha, read unclamped.
   */
  lemma ZeroDispersionShade(content: Vec -> Color, frag: Vec, size: Vec, border: real,
                            distortFactor: real, len: real)
    requires border != 0.0
    requires IsLength(Sub(frag, Nearest(frag, size, border)), len)
    requires !Interior(frag, size, border)
    ensures var s := Sample(frag, size, border, 0.0, distortFactor, len);
            var g := content(s.green);
            Shade(content, s) == Color(g.r, g.g, g.b, content(s.alpha).a)
  {
    ZeroDispersionSinglePoint(frag, size, border, distortFactor, len);
  }
}
