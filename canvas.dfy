/**
 * What a draw callback emits: draw operations, each under a `withTransform`
 * block whose steps apply in order, and which point of the drawn picture ends
 * up on a given canvas point.
 */
module Canvas {
  import opened Options
  import opened Geometry

  /** One step of a `withTransform { ... }` block. */
  datatype Transform =
    | Translate(delta: Vec)         // translate(delta.x, delta.y)
    | ClipRect(lo: Vec, hi: Vec)    // clipRect(lo.x, lo.y, hi.x, hi.y)

  /** What a draw operation paints. */
  datatype Drawable =
    | OwnContent(frame: nat)   // drawContent() of the element, in a given frame
    | TintRect(tint: Color)    // drawRect(tint)
    | SharedLayer              // drawLayer(state.graphicsLayer): the capture buffer
    | LocalLayer               // drawLayer(localLayer): a consumer's own layer

  datatype DrawOp = Draw(transforms: seq<Transform>, what: Drawable)

  /**
   * The point of the drawn picture that lands on canvas point `q` when the
   * transforms are applied in order, or None when a clip hides `q`. A
   * `translate(t)` moves the picture by `t`, so the canvas point `q` shows the
   * picture point `q - t`; a later `clipRect` is tested in the translated space.
   */
  function LayerPoint(ts: seq<Transform>, q: Vec): Option<Vec>
    decreases |ts|
  {
    if ts == [] then Some(q)
    else match ts[0]
      case Translate(t) => LayerPoint(ts[1..], Sub(q, t))
      case ClipRect(lo, hi) => if InBox(q, lo, hi) then LayerPoint(ts[1..], q) else None
  }

  /**
   * The draw-behind of a consumer that shows the capture buffer: nothing when
   * either the source rect or the consumer's own rect is still unknown, else the
   * shared layer under `translate(-offset)` with `offset = surface.topLeft -
   * content.topLeft`.
   */
  function Backdrop(content: Option<Rect>, surface: Option<Rect>): (ops: seq<DrawOp>)
    ensures ops == [] <==> content.None? || surface.None?
    ensures ops != [] ==> |ops| == 1 && ops[0].what == SharedLayer
  {
    if content.Some? && surface.Some? then
      [Draw([Translate(Neg(Offset(surface.value, content.value)))], SharedLayer)]
    else
      []
  }

  /**
   * Screen alignment: the consumer-local point `q` shows buffer point
   * `q + offset`, and that buffer point sits at the same screen position as `q`.
   */
  lemma BackdropAligned(content: Rect, surface: Rect, q: Vec)
    ensures var ops := Backdrop(Some(content), Some(surface));
            var p := Add(q, Offset(surface, content));
            LayerPoint(ops[0].transforms, q) == Some(p) &&
            ScreenOf(content, p) == ScreenOf(surface, q)
  {
  }

  /**
   * Source (0, 0, 400, 800), consumer (20, 20, 220, 220): the offset is (20, 20),
   * and the consumer's pixels `[0, 200] x [0, 200]` show the buffer region
   * `(20, 20)-(220, 220)`.
   */
  lemma BackdropExample(q: Vec)
    requires InBox(q, Origin, Vec(200.0, 200.0))
    ensures var content := Rect(0.0, 0.0, 400.0, 800.0);
            var surface := Rect(20.0, 20.0, 220.0, 220.0);
            var p := Add(q, Vec(20.0, 20.0));
            Offset(surface, content) == Vec(20.0, 20.0) &&
            LayerPoint(Backdrop(Some(content), Some(surface))[0].transforms, q) == Some(p) &&
            InBox(p, Vec(20.0, 20.0), Vec(220.0, 220.0))
  {
    BackdropAligned(Rect(0.0, 0.0, 400.0, 800.0), Rect(20.0, 20.0, 220.0, 220.0), q);
  }

  /**
   * The backdrop of the clipping blur consumer as its code draws it:
   * `translate(-offset)` first, then `clipRect(0, 0, width, height)` in the
   * translated space.
   */
  function ClippedBackdrop(content: Option<Rect>, surface: Option<Rect>): (ops: seq<DrawOp>)
    ensures ops == [] <==> content.None? || surface.None?
  {
    if content.Some? && surface.Some? then
      [Draw([Translate(Neg(Offset(surface.value, content.value))),
             ClipRect(Origin, SizeOf(surface.value))], SharedLayer)]
    else
      []
  }

  /**
   * With the clip after the translation, the consumer point `q` shows the buffer
   * only where `q + offset` is inside `(0, 0)-(width, height)`, a region fixed in
   * buffer coordinates rather than in the consumer's own.
   */
  lemma ClippedBackdropShows(content: Rect, surface: Rect, q: Vec)
    ensures var ops := ClippedBackdrop(Some(content), Some(surface));
            var p := Add(q, Offset(surface, content));
            LayerPoint(ops[0].transforms, q) ==
              if InBox(p, Origin, SizeOf(surface)) then Some(p) else None
  {
    var t := Neg(Offset(surface, content));
    var ts := [Translate(t), ClipRect(Origin, SizeOf(surface))];
    assert Sub(q, t) == Add(q, Offset(surface, content));
    assert ts[1..] == [ClipRect(Origin, SizeOf(surface))];
    assert ts[1..][1..] == [];
    var p := Add(q, Offset(surface, content));
    assert ClippedBackdrop(Some(content), Some(surface))[0].transforms == ts;
    assert LayerPoint(ts, q) == LayerPoint(ts[1..], p);
    assert LayerPoint(ts[1..], p) == if InBox(p, Origin, SizeOf(surface)) then LayerPoint([], p) else None;
  }

  /**
   * A concrete input: source (0,0,400,800), consumer (20,20,220,220). The
   * consumer's own pixel (190,190) lies inside it, yet the clip hides it.
   */
  lemma ClippedBackdropHidesInsidePoint()
    ensures var content := Rect(0.0, 0.0, 400.0, 800.0);
            var surface := Rect(20.0, 20.0, 220.0, 220.0);
            var q := Vec(190.0, 190.0);
            InBox(q, Origin, SizeOf(surface)) &&
            LayerPoint(ClippedBackdrop(Some(content), Some(surface))[0].transforms, q) == None
  {
    ClippedBackdropShows(Rect(0.0, 0.0, 400.0, 800.0), Rect(20.0, 20.0, 220.0, 220.0), Vec(190.0, 190.0));
  }

  /**
   * The evidently intended clip: `clipRect(0, 0, width, height)` in the
   * consumer's own space, before the translation.
   */
  function SurfaceClippedBackdrop(content: Option<Rect>, surface: Option<Rect>): (ops: seq<DrawOp>)
    ensures ops == [] <==> content.None? || surface.None?
  {
    if content.Some? && surface.Some? then
      [Draw([ClipRect(Origin, SizeOf(surface.value)),
             Translate(Neg(Offset(surface.value, content.value)))], SharedLayer)]
    else
      []
  }

  /** Clipping first shows the aligned buffer point at every pixel of the consumer, and nothing outside. */
  lemma SurfaceClippedBackdropCovers(content: Rect, surface: Rect, q: Vec)
    ensures var ops := SurfaceClippedBackdrop(Some(content), Some(surface));
            var p := Add(q, Offset(surface, content));
            LayerPoint(ops[0].transforms, q) ==
              if InBox(q, Origin, SizeOf(surface)) then Some(p) else None
  {
    var t := Neg(Offset(surface, content));
    var ts := [ClipRect(Origin, SizeOf(surface)), Translate(t)];
    assert Sub(q, t) == Add(q, Offset(surface, content));
    assert ts[1..] == [Translate(t)];
    assert ts[1..][1..] == [];
    var p := Add(q, Offset(surface, content));
    assert SurfaceClippedBackdrop(Some(content), Some(surface))[0].transforms == ts;
    assert LayerPoint(ts[1..], q) == LayerPoint([], p);
    assert LayerPoint(ts, q) == if InBox(q, Origin, SizeOf(surface)) then LayerPoint(ts[1..], q) else None;
  }
}
