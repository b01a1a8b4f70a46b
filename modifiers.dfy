/**
 * A Compose `Modifier` chain as the list of elements appended by each call, in
 * call order, and what such a chain does: what it paints around the content of
 * the element it decorates, which rectangles its position callbacks write, and
 * what it does to the shared capture buffer when the element draws.
 *
 * An earlier element wraps every later one: a layer effect applies to all that
 * later elements paint, a draw-behind paints under it, a draw-after over it.
 */
module Modifiers {
  import opened Options
  import opened Geometry
  import opened Canvas
  import opened Effects
  import opened State

  /** A clip shape; the model only distinguishes rounded rectangles by corner radius in dp. */
  datatype Shape = RoundedCorner(radius: real)

  /** The rectangle an element reads or writes. */
  datatype Slot =
    | OwnRect                      // the element's own remembered rect
    | SourceRect                   // state.rect
    | ConsumerRect                 // state.sRect
    | RegistryEntry(id: RegionId)  // state.componentRects[id]

  datatype Element =
    | Clip(shape: Shape)                    // .clip(shape)
    | ContentThenTint(tint: Color)          // drawContent(); drawRect(tint), also `.mask(color)`
    | BlurBy(radius: real)                  // .blur(radius)
    | EffectLayer(program: Program, enhance: Option<bool>, layerShape: Option<Shape>, sizeFrom: Slot)
                                            // graphicsLayer { renderEffect = the shader sized by `sizeFrom`, then enhance }
    | LocalGlass(style: GlassStyle)         // the dispersion glass's own layer, drawn under the content
    | ShowBackdrop(surface: Slot)           // draw-behind of the capture buffer, offset by `surface`
    | ShowClippedBackdrop(surface: Slot)    // the same, with a clip after the translation
    | CaptureClipped                        // record the content, clipped to `state.rect`'s size, once that is known
    | CaptureAfterEffect(effect: Chain)     // set the buffer's effect, then record the content
    | CaptureBeforeEffect(effect: Chain)    // record the content, then set the buffer's effect
    | Track(slot: Slot)                     // a position callback writing `slot`

  type Modifier = seq<Element>

  /** `r` is `m` with elements appended: a modifier call never drops what came before it. */
  predicate Extends(m: Modifier, r: Modifier)
  {
    |m| <= |r| && r[..|m|] == m
  }

  /** The rectangles known at one moment: `state.rect`, `state.sRect`, `state.componentRects` and the element's own. */
  datatype Slots = Slots(source: Option<Rect>, consumer: Option<Rect>, registry: map<RegionId, Rect>, own: Option<Rect>)

  /** The rectangles as the shared state and a consumer's own remembered rect hold them now. */
  function SlotsOf(state: ShaderState, own: Option<Rect>): Slots
    reads state
  {
    Slots(state.rect, state.sRect, state.componentRects, own)
  }

  /** The rectangle a slot names, or None while it is unknown. */
  function SlotRect(env: Slots, s: Slot): Option<Rect>
  {
    match s
    case OwnRect => env.own
    case SourceRect => env.source
    case ConsumerRect => env.consumer
    case RegistryEntry(id) => Lookup(env.registry, id)
  }

  /** A position callback reporting `bounds` writes its slot and nothing else. */
  function Write(env: Slots, s: Slot, bounds: Rect): (w: Slots)
    ensures SlotRect(w, s) == Some(bounds)
    ensures forall t :: t != s ==> SlotRect(w, t) == SlotRect(env, t)
  {
    match s
    case OwnRect => env.(own := Some(bounds))
    case SourceRect => env.(source := Some(bounds))
    case ConsumerRect => env.(consumer := Some(bounds))
    case RegistryEntry(id) => env.(registry := env.registry[id := bounds])
  }

  /** The render effect of the element's own layer, applied to all that later elements paint. */
  function LayerEffectOf(e: Element, env: Slots): Chain
  {
    match e
    case BlurBy(r) => [Blur(r)]
    case EffectLayer(p, enhance, _, s) =>
      var rect := SlotRect(env, s);
      ShaderEffect(rect, p) + (if rect.Some? && enhance.Some? then [Enhance(enhance.value)] else [])
    case _ => []
  }

  /** What the element draws under the content. */
  function BehindOps(e: Element, env: Slots): seq<DrawOp>
  {
    match e
    case ShowBackdrop(s) => Backdrop(env.source, SlotRect(env, s))
    case ShowClippedBackdrop(s) => ClippedBackdrop(env.source, SlotRect(env, s))
    case LocalGlass(_) =>
      if env.own.Some? then [Draw([ClipRect(Origin, SizeOf(env.own.value))], LocalLayer)] else []
    case _ => []
  }

  /** The render effect of the layer the element draws under the content (the glass's own layer). */
  function BehindEffectOf(e: Element, env: Slots): Chain
  {
    match e
    case LocalGlass(style) => GlassEffect(env.own, style)
    case _ => []
  }

  /** What the element draws over the content. */
  function OverOps(e: Element): seq<DrawOp>
  {
    match e
    case ContentThenTint(t) => [Draw([], TintRect(t))]
    case _ => []
  }

  /** What the element does to the shared capture buffer when it draws its content in `frame`. */
  function CaptureEvents(e: Element, env: Slots, frame: nat): seq<LayerEvent>
  {
    match e
    case CaptureClipped =>
      if env.source.Some? then [Recorded([Draw([ClipRect(Origin, SizeOf(env.source.value))], OwnContent(frame))])]
      else []
    case CaptureAfterEffect(c) => [EffectAssigned(c), Recorded([Draw([], OwnContent(frame))])]
    case CaptureBeforeEffect(c) => [Recorded([Draw([], OwnContent(frame))]), EffectAssigned(c)]
    case _ => []
  }

  /** The element's position callback, reporting `bounds`. */
  function PositionWrite(e: Element, env: Slots, bounds: Rect): Slots
  {
    match e
    case Track(s) => Write(env, s, bounds)
    case _ => env
  }

  /** A draw operation and the chain of layer effects it passes through, innermost layer first. */
  datatype Painted = Painted(effects: Chain, op: DrawOp)

  /** Draw operations outside any layer effect. */
  function Plain(ops: seq<DrawOp>): (ps: seq<Painted>)
    ensures |ps| == |ops|
    decreases |ops|
  {
    if ops == [] then [] else [Painted([], ops[0])] + Plain(ops[1..])
  }

  /** Everything in `ps` drawn inside one more layer, whose effect `c` runs after the ones already there. */
  function Layered(c: Chain, ps: seq<Painted>): (r: seq<Painted>)
    ensures |r| == |ps|
    decreases |ps|
  {
    if ps == [] then [] else [Painted(ps[0].effects + c, ps[0].op)] + Layered(c, ps[1..])
  }

  /** What one element paints around `inner`, the painting of everything after it. */
  function ElementPaint(e: Element, env: Slots, inner: seq<Painted>): seq<Painted>
  {
    Layered(LayerEffectOf(e, env),
            Layered(BehindEffectOf(e, env), Plain(BehindOps(e, env))) + inner + Plain(OverOps(e)))
  }

  /** What a chain paints around `inner`, the painting of the element's own content. */
  function Paint(m: Modifier, env: Slots, inner: seq<Painted>): seq<Painted>
    decreases |m|
  {
    if m == [] then inner else ElementPaint(m[0], env, Paint(m[1..], env, inner))
  }

  /** The rectangles after every position callback of the chain reported `bounds`, first to last. */
  function Positions(m: Modifier, env: Slots, bounds: Rect): Slots
    decreases |m|
  {
    if m == [] then env else Positions(m[1..], PositionWrite(m[0], env, bounds), bounds)
  }

  /**
   * What the chain does to the shared capture buffer when the element draws:
   * an element runs `drawContent()` first, so later elements act before earlier ones.
   */
  function SharedEvents(m: Modifier, env: Slots, frame: nat): seq<LayerEvent>
    decreases |m|
  {
    if m == [] then [] else SharedEvents(m[1..], env, frame) + CaptureEvents(m[0], env, frame)
  }

  /** A layer with no effect changes nothing. */
  lemma {:induction false} LayeredNothing(ps: seq<Painted>)
    ensures Layered([], ps) == ps
    decreases |ps|
  {
    if ps != [] {
      LayeredNothing(ps[1..]);
      assert ps[0].effects + [] == ps[0].effects;
      assert ps == [ps[0]] + ps[1..];
    }
  }

  /** A layer applies to the two halves of a painting alike. */
  lemma {:induction false} LayeredAppend(c: Chain, a: seq<Painted>, b: seq<Painted>)
    ensures Layered(c, a + b) == Layered(c, a) + Layered(c, b)
    decreases |a|
  {
    if a == [] {
      assert a + b == b;
    } else {
      assert (a + b)[0] == a[0];
      assert (a + b)[1..] == a[1..] + b;
      LayeredAppend(c, a[1..], b);
    }
  }

  /** Two nested layers act as one whose effect is the inner's followed by the outer's. */
  lemma {:induction false} LayeredTwice(c1: Chain, c2: Chain, ps: seq<Painted>)
    ensures Layered(c2, Layered(c1, ps)) == Layered(c1 + c2, ps)
    decreases |ps|
  {
    if ps != [] {
      var once := Layered(c1, ps);
      assert once[0] == Painted(ps[0].effects + c1, ps[0].op);
      assert once[1..] == Layered(c1, ps[1..]);
      LayeredTwice(c1, c2, ps[1..]);
      assert ps[0].effects + c1 + c2 == ps[0].effects + (c1 + c2);
    }
  }

  /**
   * An element that only has a layer effect applies it to `inner`; one without
   * a layer effect paints under and over `inner`.
   */
  lemma ElementPaintCases(e: Element, env: Slots, inner: seq<Painted>)
    ensures BehindOps(e, env) == [] && OverOps(e) == [] ==>
              ElementPaint(e, env, inner) == Layered(LayerEffectOf(e, env), inner)
    ensures LayerEffectOf(e, env) == [] ==>
              ElementPaint(e, env, inner) ==
                Layered(BehindEffectOf(e, env), Plain(BehindOps(e, env))) + inner + Plain(OverOps(e))
  {
    var under := Layered(BehindEffectOf(e, env), Plain(BehindOps(e, env)));
    if BehindOps(e, env) == [] && OverOps(e) == [] {
      assert under + inner + Plain(OverOps(e)) == inner;
    }
    LayeredNothing(under + inner + Plain(OverOps(e)));
  }

  /** Prepending one element wraps its painting around the rest. */
  lemma PaintCons(e: Element, n: Modifier, env: Slots, inner: seq<Painted>)
    ensures Paint([e] + n, env, inner) == ElementPaint(e, env, Paint(n, env, inner))
  {
    assert ([e] + n)[1..] == n;
  }

  /** The elements of `m` wrap the painting of the elements appended after them. */
  lemma {:induction false} PaintAppend(m: Modifier, n: Modifier, env: Slots, inner: seq<Painted>)
    ensures Paint(m + n, env, inner) == Paint(m, env, Paint(n, env, inner))
    decreases |m|
  {
    if m == [] {
      assert m + n == n;
    } else {
      assert (m + n)[0] == m[0];
      assert (m + n)[1..] == m[1..] + n;
      PaintAppend(m[1..], n, env, inner);
    }
  }

  /** The callbacks of `m` report before those appended after them. */
  lemma {:induction false} PositionsAppend(m: Modifier, n: Modifier, env: Slots, bounds: Rect)
    ensures Positions(m + n, env, bounds) == Positions(n, Positions(m, env, bounds), bounds)
    decreases |m|
  {
    if m == [] {
      assert m + n == n;
    } else {
      assert (m + n)[0] == m[0];
      assert (m + n)[1..] == m[1..] + n;
      PositionsAppend(m[1..], n, PositionWrite(m[0], env, bounds), bounds);
    }
  }

  /** Appended elements reach the capture buffer before the elements of `m`. */
  lemma {:induction false} SharedEventsAppend(m: Modifier, n: Modifier, env: Slots, frame: nat)
    ensures SharedEvents(m + n, env, frame) == SharedEvents(n, env, frame) + SharedEvents(m, env, frame)
    decreases |m|
  {
    if m == [] {
      assert m + n == n;
    } else {
      assert (m + n)[0] == m[0];
      assert (m + n)[1..] == m[1..] + n;
      SharedEventsAppend(m[1..], n, env, frame);
    }
  }

  /** A chain of two elements, unfolded. */
  lemma PaintPair(a: Element, b: Element, env: Slots, inner: seq<Painted>)
    ensures Paint([a, b], env, inner) == ElementPaint(a, env, ElementPaint(b, env, inner))
  {
    assert [a, b][1..] == [b];
    assert [b][1..] == [];
    assert Paint([b], env, inner) == ElementPaint(b, env, Paint([], env, inner));
  }

  lemma PositionsPair(a: Element, b: Element, env: Slots, bounds: Rect)
    ensures Positions([a, b], env, bounds) == PositionWrite(b, PositionWrite(a, env, bounds), bounds)
  {
    assert [a, b][1..] == [b];
    assert [b][1..] == [];
    var w := PositionWrite(a, env, bounds);
    assert Positions([b], w, bounds) == Positions([], PositionWrite(b, w, bounds), bounds);
  }

  lemma SharedEventsPair(a: Element, b: Element, env: Slots, frame: nat)
    ensures SharedEvents([a, b], env, frame) == CaptureEvents(b, env, frame) + CaptureEvents(a, env, frame)
  {
    assert [a, b][1..] == [b];
    assert [b][1..] == [];
    assert SharedEvents([b], env, frame) == SharedEvents([], env, frame) + CaptureEvents(b, env, frame);
  }


  /** A position callback paints nothing. */
  lemma TrackPaintsNothing(s: Slot, env: Slots, inner: seq<Painted>)
    ensures ElementPaint(Track(s), env, inner) == inner
  {
    ElementPaintCases(Track(s), env, inner);
    LayeredNothing(inner);
  }

  /** An element that records into the shared capture buffer. */
  predicate Captures(e: Element)
  {
    e.CaptureClipped? || e.CaptureAfterEffect? || e.CaptureBeforeEffect?
  }

  /** An element whose only drawing is a layer effect. */
  predicate IsLayer(e: Element)
  {
    e.BlurBy? || e.EffectLayer?
  }

  /** Elements without a position callback write no rectangle. */
  lemma {:induction false} UntrackedPositions(n: Modifier, w: Slots, bounds: Rect)
    requires forall i :: 0 <= i < |n| ==> !n[i].Track?
    ensures Positions(n, w, bounds) == w
    decreases |n|
  {
    if n != [] {
      UntrackedPositions(n[1..], w, bounds);
    }
  }

  /** Elements that capture nothing leave the capture buffer alone. */
  lemma {:induction false} NoCaptureEvents(n: Modifier, env: Slots, frame: nat)
    requires forall i :: 0 <= i < |n| ==> !Captures(n[i])
    ensures SharedEvents(n, env, frame) == []
    decreases |n|
  {
    if n != [] {
      NoCaptureEvents(n[1..], env, frame);
    }
  }

  /**
   * Elements without position callbacks and then one callback, appended to `m`:
   * after everything reported, the callback's slot holds `bounds` and every
   * other slot is as `m` left it.
   */
  lemma AppendedTrackPositions(m: Modifier, pre: Modifier, s: Slot, env: Slots, bounds: Rect)
    requires forall i :: 0 <= i < |pre| ==> !pre[i].Track?
    ensures Positions(m + pre + [Track(s)], env, bounds) == Write(Positions(m, env, bounds), s, bounds)
  {
    var w := Positions(m, env, bounds);
    calc {
      Positions(m + pre + [Track(s)], env, bounds);
      { assert m + pre + [Track(s)] == m + (pre + [Track(s)]); PositionsAppend(m, pre + [Track(s)], env, bounds); }
      Positions(pre + [Track(s)], w, bounds);
      { PositionsAppend(pre, [Track(s)], w, bounds); }
      Positions([Track(s)], Positions(pre, w, bounds), bounds);
      { UntrackedPositions(pre, w, bounds); }
      Positions([Track(s)], w, bounds);
      { assert [Track(s)][1..] == []; }
      Write(w, s, bounds);
    }
  }

  /** Elements that capture nothing, appended to `m`, add nothing to what reaches the capture buffer. */
  lemma AppendedQuietEvents(m: Modifier, n: Modifier, env: Slots, frame: nat)
    requires forall i :: 0 <= i < |n| ==> !Captures(n[i])
    ensures SharedEvents(m + n, env, frame) == SharedEvents(m, env, frame)
  {
    SharedEventsAppend(m, n, env, frame);
    NoCaptureEvents(n, env, frame);
  }

  /** A capture and its position callback, appended to `m`, act on the buffer before the elements of `m`. */
  lemma AppendedCaptureEvents(m: Modifier, c: Element, s: Slot, env: Slots, frame: nat)
    requires Captures(c)
    ensures SharedEvents(m + [c, Track(s)], env, frame) == CaptureEvents(c, env, frame) + SharedEvents(m, env, frame)
  {
    SharedEventsAppend(m, [c, Track(s)], env, frame);
    SharedEventsPair(c, Track(s), env, frame);
  }

  /** A backdrop followed by its position callback paints the backdrop under `inner`. */
  lemma BackdropThenTrackPaint(show: Element, s: Slot, env: Slots, inner: seq<Painted>)
    requires show.ShowBackdrop? || show.ShowClippedBackdrop?
    ensures Paint([show, Track(s)], env, inner) == Plain(BehindOps(show, env)) + inner
  {
    PaintPair(show, Track(s), env, inner);
    TrackPaintsNothing(s, env, inner);
    ElementPaintCases(show, env, inner);
    LayeredNothing(Plain(BehindOps(show, env)));
    assert Plain(OverOps(show)) == [];
  }

  /** A backdrop and its position callback, appended to `m`: what they paint. */
  lemma AppendedBackdropPaint(m: Modifier, show: Element, s: Slot, env: Slots, inner: seq<Painted>)
    requires show.ShowBackdrop? || show.ShowClippedBackdrop?
    ensures Paint(m + [show, Track(s)], env, inner) == Paint(m, env, Plain(BehindOps(show, env)) + inner)
  {
    PaintAppend(m, [show, Track(s)], env, inner);
    BackdropThenTrackPaint(show, s, env, inner);
  }

  /** A capture followed by its position callback paints only `inner`. */
  lemma CaptureThenTrackPaint(c: Element, s: Slot, env: Slots, inner: seq<Painted>)
    requires Captures(c)
    ensures Paint([c, Track(s)], env, inner) == inner
  {
    PaintPair(c, Track(s), env, inner);
    TrackPaintsNothing(s, env, inner);
    ElementPaintCases(c, env, inner);
    LayeredNothing(inner);
    assert Plain(BehindOps(c, env)) == [] && Plain(OverOps(c)) == [];
  }

  /** A capture and its position callback, appended to `m`, leave what `m` paints unchanged. */
  lemma AppendedCapturePaint(m: Modifier, c: Element, s: Slot, env: Slots, inner: seq<Painted>)
    requires Captures(c)
    ensures Paint(m + [c, Track(s)], env, inner) == Paint(m, env, inner)
  {
    PaintAppend(m, [c, Track(s)], env, inner);
    CaptureThenTrackPaint(c, s, env, inner);
  }

  /** A layer alone applies its effect to `inner`. */
  lemma OneLayer(a: Element, env: Slots, inner: seq<Painted>)
    requires IsLayer(a)
    ensures Paint([a], env, inner) == Layered(LayerEffectOf(a, env), inner)
  {
    assert [a][1..] == [];
    ElementPaintCases(a, env, inner);
  }

  /** A layer and its position callback, appended to `m`, apply the layer's effect to `inner`. */
  lemma AppendedLayerPaint(m: Modifier, a: Element, s: Slot, env: Slots, inner: seq<Painted>)
    requires IsLayer(a)
    ensures Paint(m + [a, Track(s)], env, inner) == Paint(m, env, Layered(LayerEffectOf(a, env), inner))
  {
    PaintAppend(m, [a, Track(s)], env, inner);
    PaintPair(a, Track(s), env, inner);
    TrackPaintsNothing(s, env, inner);
    ElementPaintCases(a, env, inner);
  }

  /** Two nested layers apply the inner one's effect first, then the outer one's. */
  lemma TwoLayers(a: Element, b: Element, env: Slots, inner: seq<Painted>)
    requires IsLayer(a) && IsLayer(b)
    ensures Paint([a, b], env, inner) == Layered(LayerEffectOf(b, env) + LayerEffectOf(a, env), inner)
  {
    PaintPair(a, b, env, inner);
    ElementPaintCases(b, env, inner);
    ElementPaintCases(a, env, Layered(LayerEffectOf(b, env), inner));
    LayeredTwice(LayerEffectOf(b, env), LayerEffectOf(a, env), inner);
  }

  /** Draw-content-then-tint paints the tint over `inner`, outside any layer. */
  lemma TintPaint(tint: Color, env: Slots, inner: seq<Painted>)
    ensures Paint([ContentThenTint(tint)], env, inner) == inner + [Painted([], Draw([], TintRect(tint)))]
  {
    assert [ContentThenTint(tint)][1..] == [];
    ElementPaintCases(ContentThenTint(tint), env, inner);
    assert Plain(OverOps(ContentThenTint(tint))) == [Painted([], Draw([], TintRect(tint)))];
    LayeredNothing(Plain(BehindOps(ContentThenTint(tint), env)));
  }

  /** A shape clip alone paints `inner` as it is (the clip's outline is not part of the model). */
  lemma ClipPaint(shape: Shape, env: Slots, inner: seq<Painted>)
    ensures Paint([Clip(shape)], env, inner) == inner
  {
    assert [Clip(shape)][1..] == [];
    ElementPaintCases(Clip(shape), env, inner);
    LayeredNothing(inner);
  }

  /** `.clip(shape)` followed by draw-content-then-tint paints the tint over `inner`. */
  lemma TintOver(shape: Shape, tint: Color, env: Slots, inner: seq<Painted>)
    ensures Paint([Clip(shape), ContentThenTint(tint)], env, inner) == inner + [Painted([], Draw([], TintRect(tint)))]
  {
    var tinted := inner + [Painted([], Draw([], TintRect(tint)))];
    PaintCons(Clip(shape), [ContentThenTint(tint)], env, inner);
    TintPaint(tint, env, inner);
    ElementPaintCases(Clip(shape), env, tinted);
    LayeredNothing(tinted);
  }

  /** Two layers, a backdrop and a position callback, appended to `m`: what they paint. */
  lemma LayersThenBackdropPaint(m: Modifier, a: Element, b: Element, show: Element, s: Slot,
                                env: Slots, inner: seq<Painted>)
    requires IsLayer(a) && IsLayer(b) && (show.ShowBackdrop? || show.ShowClippedBackdrop?)
    ensures Paint(m + [a, b, show, Track(s)], env, inner) ==
              Paint(m, env, Layered(LayerEffectOf(b, env) + LayerEffectOf(a, env), Plain(BehindOps(show, env)) + inner))
  {
    var tail := [show, Track(s)];
    var behind := Plain(BehindOps(show, env)) + inner;
    calc {
      Paint(m + [a, b, show, Track(s)], env, inner);
      { assert m + [a, b, show, Track(s)] == (m + [a, b]) + tail; PaintAppend(m + [a, b], tail, env, inner); }
      Paint(m + [a, b], env, Paint(tail, env, inner));
      { BackdropThenTrackPaint(show, s, env, inner); }
      Paint(m + [a, b], env, behind);
      { PaintAppend(m, [a, b], env, behind); }
      Paint(m, env, Paint([a, b], env, behind));
      { TwoLayers(a, b, env, behind); }
      Paint(m, env, Layered(LayerEffectOf(b, env) + LayerEffectOf(a, env), behind));
    }
  }

  /** One layer, a backdrop and a position callback, appended to `m`: what they paint. */
  lemma LayerThenBackdropPaint(m: Modifier, a: Element, show: Element, s: Slot, env: Slots,
                               inner: seq<Painted>)
    requires IsLayer(a) && (show.ShowBackdrop? || show.ShowClippedBackdrop?)
    ensures Paint(m + [a, show, Track(s)], env, inner) ==
              Paint(m, env, Layered(LayerEffectOf(a, env), Plain(BehindOps(show, env)) + inner))
  {
    var tail := [show, Track(s)];
    var behind := Plain(BehindOps(show, env)) + inner;
    calc {
      Paint(m + [a, show, Track(s)], env, inner);
      { assert m + [a, show, Track(s)] == (m + [a]) + tail; PaintAppend(m + [a], tail, env, inner); }
      Paint(m + [a], env, Paint(tail, env, inner));
      { BackdropThenTrackPaint(show, s, env, inner); }
      Paint(m + [a], env, behind);
      { PaintAppend(m, [a], env, behind); }
      Paint(m, env, Paint([a], env, behind));
      { OneLayer(a, env, behind); }
      Paint(m, env, Layered(LayerEffectOf(a, env), behind));
    }
  }

  /** A shader layer without colour enhance carries exactly its shader, sized by its slot. */
  lemma ShaderLayerEffect(p: Program, layerShape: Option<Shape>, s: Slot, env: Slots)
    ensures LayerEffectOf(EffectLayer(p, None, layerShape, s), env) == ShaderEffect(SlotRect(env, s), p)
  {
    assert ShaderEffect(SlotRect(env, s), p) + [] == ShaderEffect(SlotRect(env, s), p);
  }
}
