/**
 * The edge-refraction runtime shader: pixels within `border` of an edge of the
 * surface sample a point pushed outward from the centre, by
 * `border * strength * edgeFactor` with `edgeFactor = 1 - edgeAmount / border`;
 * the rest sample themselves. The result is folded back by the same reflection
 * rule as the mirror-zoom shader.
 */
module EdgeRefraction {
  import opened Geometry
  import MirrorZoom

  /** `min(min(fragCoord, size - fragCoord).x, ....y)`: the distance to the nearest edge, negative outside. */
  function EdgeAmount(frag: Vec, size: Vec): real
  {
    Min(Min(frag.x, size.x - frag.x), Min(frag.y, size.y - frag.y))
  }

  /** `1 - edgeAmount / border`. */
  function EdgeFactor(edgeAmount: real, border: real): real
    requires border > 0.0
  {
    1.0 - edgeAmount / border
  }

  /** The outward direction `normalize(fragCoord - size * 0.5)`, given that vector's length. */
  function Outward(frag: Vec, size: Vec, len: real): Vec
    requires IsLength(Sub(frag, Center(size)), len)
  {
    Direction(Sub(frag, Center(size)), len)
  }

  /** `uv` after the edge test, before the fold. */
  function Refracted(frag: Vec, size: Vec, border: real, strength: real, len: real): Vec
    requires border > 0.0
    requires IsLength(Sub(frag, Center(size)), len)
  {
    var edgeAmount := EdgeAmount(frag, size);
    if edgeAmount < border then
      var edgeFactor := EdgeFactor(edgeAmount, border);
      Add(frag, Scale(Outward(frag, size, len), border * strength * edgeFactor))
    else
      frag
  }

  /** The coordinate the shader samples for the pixel `frag`. */
  function Sample(frag: Vec, size: Vec, border: real, strength: real, len: real): Vec
    requires border > 0.0
    requires IsLength(Sub(frag, Center(size)), len)
  {
    MirrorZoom.Fold(Refracted(frag, size, border, strength, len), size)
  }

  /** The edge distance is non-negative exactly on the surface. */
  lemma EdgeAmountOnSurface(frag: Vec, size: Vec)
    ensures EdgeAmount(frag, size) >= 0.0 <==> InBox(frag, Origin, size)
  {
  }

  /** Pixels at least `border` from every edge sample themselves. */
  lemma InteriorUndisplaced(frag: Vec, size: Vec, border: real, strength: real, len: real)
    requires border > 0.0
    requires IsLength(Sub(frag, Center(size)), len)
    requires EdgeAmount(frag, size) >= border
    ensures Refracted(frag, size, border, strength, len) == frag
    ensures Sample(frag, size, border, strength, len) == frag
  {
    EdgeAmountOnSurface(frag, size);
  }

  /** Inside the band `0 <= edgeAmount < border` the factor lies in `(0, 1]`, and is 1 on the edge itself. */
  lemma EdgeFactorInBand(edgeAmount: real, border: real)
    requires border > 0.0
    requires 0.0 <= edgeAmount < border
    ensures 0.0 < EdgeFactor(edgeAmount, border) <= 1.0
    ensures edgeAmount == 0.0 ==> EdgeFactor(edgeAmount, border) == 1.0
  {
    var q := edgeAmount / border;
    assert q * border == edgeAmount;
    assert q >= 0.0;
    assert q < 1.0 by {
      if q >= 1.0 {
        MulMonotone(border, q, 1.0);
      }
    }
  }

  /**
   * The displacement `border * strength * edgeFactor` equals `strength *
   * (border - edgeAmount)`: it falls linearly to zero at the inner edge of the band.
   */
  lemma DisplacementFallsLinearly(edgeAmount: real, border: real, strength: real)
    requires border > 0.0
    ensures border * strength * EdgeFactor(edgeAmount, border) == strength * (border - edgeAmount)
  {
    var q := edgeAmount / border;
    assert q * border == edgeAmount;
    calc {
      border * strength * EdgeFactor(edgeAmount, border);
      border * strength * (1.0 - q);
      strength * (border - q * border);
    }
  }

  /** With `strength = 0` no pixel is moved before the fold. */
  lemma ZeroStrengthUndisplaced(frag: Vec, size: Vec, border: real, len: real)
    requires border > 0.0
    requires IsLength(Sub(frag, Center(size)), len)
    ensures Refracted(frag, size, border, 0.0, len) == frag
  {
  }

  /**
   * In the band the displacement points away from the centre: it is
   * `k / len` times `fragCoord - center` with `k = border * strength *
   * edgeFactor`, so its length is `|k|` and, for `k >= 0`, its dot product with
   * `fragCoord - center` is `k * len >= 0`.
   */
  lemma DisplacementIsOutward(frag: Vec, size: Vec, border: real, strength: real, len: real,
                              k: real)
    requires border > 0.0
    requires IsLength(Sub(frag, Center(size)), len) && len > 0.0
    requires EdgeAmount(frag, size) < border
    requires k == border * strength * EdgeFactor(EdgeAmount(frag, size), border)
    ensures var v := Sub(frag, Center(size));
            var d := Sub(Refracted(frag, size, border, strength, len), frag);
            d == Scale(Outward(frag, size, len), k) &&
            d.x * d.x + d.y * d.y == k * k &&
            d.x * v.x + d.y * v.y == k * len
  {
    var v := Sub(frag, Center(size));
    var d := Sub(Refracted(frag, size, border, strength, len), frag);
    BandDisplacement(frag, size, border, strength, len);
    assert d == Scale(Direction(v, len), k);
    ScaledDirection(v, len, k);
  }

  /** In the band the sample point is the pixel moved by `border * strength * edgeFactor` along the outward direction. */
  lemma BandDisplacement(frag: Vec, size: Vec, border: real, strength: real, len: real)
    requires border > 0.0
    requires IsLength(Sub(frag, Center(size)), len)
    requires EdgeAmount(frag, size) < border
    ensures Refracted(frag, size, border, strength, len) ==
            Add(frag, Scale(Outward(frag, size, len), border * strength * EdgeFactor(EdgeAmount(frag, size), border)))
  {
  }

  /** A pixel at distance zero from the centre has no outward direction and samples itself. */
  lemma CentreUndisplaced(frag: Vec, size: Vec, border: real, strength: real)
    requires border > 0.0
    requires IsLength(Sub(frag, Center(size)), 0.0)
    ensures Refracted(frag, size, border, strength, 0.0) == frag
  {
    assert Outward(frag, size, 0.0) == Origin;
  }

  /**
   * Size 200 x 200, border 50, strength 0.5, pixel (10, 100): edgeAmount 10,
   * edgeFactor 0.8, the pixel is pushed 20 px left to (-10, 100) and the fold
   * brings it back to (10, 100).
   */
  lemma RefractionExample()
    ensures EdgeAmount(Vec(10.0, 100.0), Vec(200.0, 200.0)) == 10.0
    ensures EdgeFactor(10.0, 50.0) == 0.8
    ensures Refracted(Vec(10.0, 100.0), Vec(200.0, 200.0), 50.0, 0.5, 90.0) == Vec(-10.0, 100.0)
    ensures Sample(Vec(10.0, 100.0), Vec(200.0, 200.0), 50.0, 0.5, 90.0) == Vec(10.0, 100.0)
  {
    var frag := Vec(10.0, 100.0);
    var size := Vec(200.0, 200.0);
    var v := Sub(frag, Center(size));
    assert v == Vec(-90.0, 0.0);
    assert IsLength(v, 90.0);
    var f := EdgeFactor(EdgeAmount(frag, size), 50.0);
    assert f == 0.8;
    var u := Outward(frag, size, 90.0);
    assert u == Direction(v, 90.0);
    assert u == Vec(-1.0, 0.0);
    var k := 50.0 * 0.5 * f;
    assert k == 20.0;
    BandDisplacement(frag, size, 50.0, 0.5, 90.0);
    assert Refracted(frag, size, 50.0, 0.5, 90.0) == Add(frag, Scale(u, k));
    assert MirrorZoom.Fold(Vec(-10.0, 100.0), size) == Vec(10.0, 100.0);
  }
}
