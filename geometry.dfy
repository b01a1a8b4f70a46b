/** A nullable value, as Kotlin's `T?`. */
module Options {
  datatype Option<T> = None | Some(value: T)
}

/**
 * Screen-space geometry shared by the capture state and the shader programs:
 * points and vectors (AGSL `float2`, Compose `Offset`), rectangles (Compose `Rect`),
 * colours, and the scalar helpers the shaders call (`min`, `max`, `clamp`,
 * `normalize`). Floats are modelled as reals.
 */
module Geometry {
  import opened Options

  /** A point or a vector, in device pixels. */
  datatype Vec = Vec(x: real, y: real)

  function Add(a: Vec, b: Vec): Vec { Vec(a.x + b.x, a.y + b.y) }
  function Sub(a: Vec, b: Vec): Vec { Vec(a.x - b.x, a.y - b.y) }
  function Neg(a: Vec): Vec { Vec(-a.x, -a.y) }
  /** `v * k` for a vector and a scalar. */
  function Scale(a: Vec, k: real): Vec { Vec(a.x * k, a.y * k) }
  /** `v / k` for a vector and a scalar. */
  function Div(a: Vec, k: real): Vec
    requires k != 0.0
  {
    Vec(a.x / k, a.y / k)
  }

  const Origin := Vec(0.0, 0.0)

  /** `size * 0.5`: the centre of a surface of the given size, in its own coordinates. */
  function Center(size: Vec): Vec { Scale(size, 0.5) }

  /** An RGBA colour, as returned by `content.eval`. */
  datatype Color = Color(r: real, g: real, b: real, a: real)

  /** An absolute rectangle (left, top, right, bottom), as Compose's `Rect`. */
  datatype Rect = Rect(left: real, top: real, right: real, bottom: real)

  function TopLeft(r: Rect): Vec { Vec(r.left, r.top) }
  function Width(r: Rect): real { r.right - r.left }
  function Height(r: Rect): real { r.bottom - r.top }
  function SizeOf(r: Rect): Vec { Vec(Width(r), Height(r)) }

  /**
   * The rectangle an `onGloballyPositioned` callback builds from the position in
   * the window and the measured size: `Rect(pos.x, pos.y, pos.x + w, pos.y + h)`.
   */
  function RectAt(pos: Vec, size: Vec): (r: Rect)
    ensures TopLeft(r) == pos
    ensures Width(r) == size.x && Height(r) == size.y
  {
    Rect(pos.x, pos.y, pos.x + size.x, pos.y + size.y)
  }

  /** `surfaceRect.topLeft - contentRect.topLeft`: where a consumer sits relative to the capture source. */
  function Offset(surface: Rect, content: Rect): Vec { Sub(TopLeft(surface), TopLeft(content)) }

  /** The screen position of a point given in a rectangle's local coordinates. */
  function ScreenOf(r: Rect, local: Vec): Vec { Add(TopLeft(r), local) }

  /** GLSL `min`. */
  function Min(a: real, b: real): real { if b < a then b else a }
  /** GLSL `max`. */
  function Max(a: real, b: real): real { if a < b then b else a }
  /** GLSL `clamp(x, lo, hi)`, defined as `min(max(x, lo), hi)`. */
  function Clamp(x: real, lo: real, hi: real): real { Min(Max(x, lo), hi) }

  lemma ClampBounds(x: real, lo: real, hi: real)
    requires lo <= hi
    ensures lo <= Clamp(x, lo, hi) <= hi
    ensures lo <= x <= hi <==> Clamp(x, lo, hi) == x
  {
  }

  /** The component-wise `clamp` of a `float2`. */
  function ClampVec(p: Vec, lo: Vec, hi: Vec): Vec
  {
    Vec(Clamp(p.x, lo.x, hi.x), Clamp(p.y, lo.y, hi.y))
  }

  /** The closed box `lo <= p <= hi`, on both axes. */
  predicate InBox(p: Vec, lo: Vec, hi: Vec)
  {
    lo.x <= p.x <= hi.x && lo.y <= p.y <= hi.y
  }

  lemma ClampVecInBox(p: Vec, lo: Vec, hi: Vec)
    requires lo.x <= hi.x && lo.y <= hi.y
    ensures InBox(ClampVec(p, lo, hi), lo, hi)
    ensures InBox(p, lo, hi) <==> ClampVec(p, lo, hi) == p
  {
    ClampBounds(p.x, lo.x, hi.x);
    ClampBounds(p.y, lo.y, hi.y);
  }

  /** Multiplying by a non-negative factor keeps an ordering. */
  lemma MulMonotone(a: real, b: real, c: real)
    requires a >= 0.0 && b >= c
    ensures a * b >= a * c
  {
    assert a * b - a * c == a * (b - c);
  }

  /**
   * `len` is the Euclidean length of `v` (what GLSL's `length`/`distance` return).
   * The model never computes a square root: callers supply the length.
   */
  ghost predicate IsLength(v: Vec, len: real)
  {
    len >= 0.0 && len * len == v.x * v.x + v.y * v.y
  }

  /**
   * GLSL `normalize(v)`, given the length of `v`. The zero vector, for which GLSL
   * leaves the result undefined, gives the zero vector.
   */
  function Direction(v: Vec, len: real): (d: Vec)
    requires IsLength(v, len)
  {
    if len == 0.0 then Origin else Scale(v, 1.0 / len)
  }

  /** `normalize` gives a unit vector for every non-zero input. */
  lemma DirectionIsUnit(v: Vec, len: real)
    requires IsLength(v, len) && len > 0.0
    ensures var d := Direction(v, len); d.x * d.x + d.y * d.y == 1.0
  {
    var inv := 1.0 / len;
    assert inv * len == 1.0;
    var d := Direction(v, len);
    assert d.x * d.x == inv * inv * (v.x * v.x);
    assert d.y * d.y == inv * inv * (v.y * v.y);
    calc {
      d.x * d.x + d.y * d.y;
      inv * inv * (v.x * v.x + v.y * v.y);
      inv * inv * (len * len);
      (inv * len) * (inv * len);
    }
  }

  /**
   * `normalize(v) * k` has length `|k|` and lies along `v`: its dot product with
   * `v` is `k * |v|`.
   */
  lemma ScaledDirection(v: Vec, len: real, k: real)
    requires IsLength(v, len) && len > 0.0
    ensures var d := Scale(Direction(v, len), k);
            d.x * d.x + d.y * d.y == k * k && d.x * v.x + d.y * v.y == k * len
  {
    var u := Direction(v, len);
    var d := Scale(u, k);
    DirectionIsUnit(v, len);
    calc {
      d.x * d.x + d.y * d.y;
      (k * k) * (u.x * u.x + u.y * u.y);
    }
    var inv := 1.0 / len;
    assert inv * len == 1.0;
    calc {
      d.x * v.x + d.y * v.y;
      k * (u.x * v.x + u.y * v.y);
      k * (inv * (v.x * v.x + v.y * v.y));
      k * (inv * (len * len));
      k * ((inv * len) * len);
    }
  }
}
