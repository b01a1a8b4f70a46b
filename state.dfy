/**
 * The mutable state the modifiers share: the capture buffer (a `GraphicsLayer`),
 * the `ShaderState` that carries it with the source's and consumers'
 * rectangles, and the rectangle each consumer remembers for itself.
 */
module State {
  import opened Options
  import opened Geometry
  import opened Canvas
  import opened Effects

  /** What happened to a layer, in order. */
  datatype LayerEvent =
    | Recorded(ops: seq<DrawOp>)
    | EffectAssigned(effect: Chain)

  /** A `GraphicsLayer`: the display list last recorded into it and its render effect. */
  class CaptureLayer {
    var recording: Option<seq<DrawOp>>
    var renderEffect: Chain
    ghost var history: seq<LayerEvent>

    constructor()
      ensures recording == None && renderEffect == [] && history == []
    {
      recording := None;
      renderEffect := [];
      history := [];
    }

    /** `record { ... }`: replace the display list, keep the effect. */
    method Record(ops: seq<DrawOp>)
      modifies this
      ensures recording == Some(ops)
      ensures renderEffect == old(renderEffect)
      ensures history == old(history) + [Recorded(ops)]
    {
      recording := Some(ops);
      history := history + [Recorded(ops)];
    }

    /** `renderEffect = effect`: replace the effect, keep the display list. */
    method AssignEffect(effect: Chain)
      modifies this
      ensures renderEffect == effect
      ensures recording == old(recording)
      ensures history == old(history) + [EffectAssigned(effect)]
    {
      renderEffect := effect;
      history := history + [EffectAssigned(effect)];
    }
  }

  /** The key of a consumer's entry in the rectangle registry (the `id` argument). */
  datatype RegionId = RegionId(token: nat)

  /** `componentRects[id]`: the entry, or None when the id was never positioned. */
  function Lookup(rects: map<RegionId, Rect>, id: RegionId): (r: Option<Rect>)
    ensures r.Some? <==> id in rects
    ensures r.Some? ==> r.value == rects[id]
  {
    if id in rects then Some(rects[id]) else None
  }

  /**
   * The shared capture state: the capture buffer, the source's bounds `rect`, a
   * single consumer's `sRect`, and the registry `componentRects` of keyed
   * consumers.
   */
  class ShaderState {
    const graphicsLayer: CaptureLayer
    var rect: Option<Rect>
    var sRect: Option<Rect>
    var componentRects: map<RegionId, Rect>

    /** `ShaderState(graphicsLayer)`: nothing is positioned yet. */
    constructor(layer: CaptureLayer)
      ensures graphicsLayer == layer
      ensures rect == None && sRect == None && componentRects == map[]
    {
      graphicsLayer := layer;
      rect := None;
      sRect := None;
      componentRects := map[];
    }

    /** The source's `onGloballyPositioned`: `rect = boundsInRoot()`. */
    method SourcePositioned(boundsInRoot: Rect)
      modifies this
      ensures rect == Some(boundsInRoot)
      ensures sRect == old(sRect) && componentRects == old(componentRects)
    {
      rect := Some(boundsInRoot);
    }

    /** A single consumer's `onGloballyPositioned`: `sRect` spans `size` from `positionInWindow`. */
    method ConsumerPositioned(pos: Vec, size: Vec)
      modifies this
      ensures sRect == Some(RectAt(pos, size))
      ensures sRect.value.right - sRect.value.left == size.x && sRect.value.bottom - sRect.value.top == size.y
      ensures rect == old(rect) && componentRects == old(componentRects)
    {
      sRect := Some(RectAt(pos, size));
    }

    /**
     * A keyed consumer's `onGloballyPositioned`: the entry for `id` is written
     * unconditionally, so the last write wins, and every other entry is kept.
     */
    method Register(id: RegionId, pos: Vec, size: Vec)
      modifies this
      ensures componentRects == old(componentRects)[id := RectAt(pos, size)]
      ensures Lookup(componentRects, id) == Some(RectAt(pos, size))
      ensures forall other :: other != id ==> Lookup(componentRects, other) == Lookup(old(componentRects), other)
      ensures rect == old(rect) && sRect == old(sRect)
    {
      componentRects := componentRects[id := RectAt(pos, size)];
    }
  }

  /**
   * A consumer's own remembered rectangle, `var rect by remember {
   * mutableStateOf<Rect?>(null) }`, written by its position callback.
   */
  class Surface {
    var rect: Option<Rect>

    constructor()
      ensures rect == None
    {
      rect := None;
    }

    /** `recordPosition { rect = it }`. */
    method Positioned(r: Rect)
      modifies this
      ensures rect == Some(r)
    {
      rect := Some(r);
    }

    /**
     * The draw-behind that shows the capture buffer under this consumer: it
     * returns early while either rectangle is unknown, and otherwise draws the
     * shared layer translated by `-(surface.topLeft - content.topLeft)`.
     */
    method DrawBackdrop(state: ShaderState) returns (ops: seq<DrawOp>)
      ensures ops == Backdrop(state.rect, rect)
    {
      ops := [];
      if state.rect.None? {
        return;
      }
      var contentRect := state.rect.value;
      if rect.None? {
        return;
      }
      var surfaceRect := rect.value;
      var offset := Offset(surfaceRect, contentRect);
      ops := [Draw([Translate(Neg(offset))], SharedLayer)];
    }
  }

  /**
   * A supply of registry keys standing in for `UUID.randomUUID()`: every key it
   * hands out differs from all earlier ones.
   */
  class IdSource {
    var next: nat
    ghost var issued: set<RegionId>

    ghost predicate Valid()
      reads this
    {
      forall id :: id in issued ==> id.token < next
    }

    constructor()
      ensures Valid() && issued == {}
    {
      next := 0;
      issued := {};
    }

    method Fresh() returns (id: RegionId)
      requires Valid()
      modifies this
      ensures Valid()
      ensures id !in old(issued)
      ensures issued == old(issued) + {id}
    {
      id := RegionId(next);
      next := next + 1;
      issued := issued + {id};
    }
  }
}
