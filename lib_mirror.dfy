/**
 * The library's mirror modifiers: `scaleMirror` zooms an element's own content
 * through the mirror-zoom shader; `mirrorLayer` shows the capture buffer behind
 * a consumer, blurred and zoomed.
 */
module LibMirror {
  import opened Options
  import opened Geometry
  import opened Canvas
  import opened Effects
  import opened State
  import opened Modifiers

  /** The API level from which runtime shaders are available. */
  const ShaderApiLevel := 33

  /** `Modifier.scaleMirror(scale, clipShape)`. */
  function ScaleMirror(m: Modifier, sdk: int, scale: real := 1.0, clipShape: Shape := RoundedCorner(0.0)): (r: Modifier)
    ensures Extends(m, r)
    ensures r == m <==> sdk < ShaderApiLevel || scale == 1.0
  {
    if sdk < ShaderApiLevel || scale == 1.0 then m
    else m + [EffectLayer(MirrorZoom(scale), None, Some(clipShape), OwnRect), Track(OwnRect)]
  }

  /** With the default arguments `scaleMirror()` leaves every modifier unchanged, on every API level. */
  lemma ScaleMirrorDefaultIsIdentity(m: Modifier, sdk: int)
    ensures ScaleMirror(m, sdk) == m
  {
  }

  /** `Modifier.mirrorLayer(state, scale, blur)`. */
  function MirrorLayer(m: Modifier, sdk: int, scale: real, blur: real := 0.0): (r: Modifier)
    ensures Extends(m, r)
    ensures r == m <==> sdk < ShaderApiLevel
    ensures r != m ==> r[|m|] == BlurBy(blur) && r[|r| - 1] == Track(OwnRect)
  {
    if sdk < ShaderApiLevel then m
    else m + [BlurBy(blur), EffectLayer(MirrorZoom(scale), None, None, OwnRect), ShowBackdrop(OwnRect), Track(OwnRect)]
  }

  /**
   * The tinted `mirrorLayer(state, scale, clipShape, tint, blur)`: the clip and
   * the tint are applied on every API level, ahead of the mirror layer.
   */
  function MirrorLayerTinted(m: Modifier, sdk: int, scale: real, clipShape: Shape, tint: Color, blur: real := 0.0): (r: Modifier)
    ensures Extends(m + [Clip(clipShape), ContentThenTint(tint)], r)
    ensures sdk < ShaderApiLevel ==> r == m + [Clip(clipShape), ContentThenTint(tint)]
  {
    MirrorLayer(m + [Clip(clipShape), ContentThenTint(tint)], sdk, scale, blur)
  }

  /** The render effect both mirror modifiers put on their own layer: the zoom shader once the rect is known. */
  function MirrorEffect(rect: Option<Rect>, scale: real): (c: Chain)
    ensures rect.None? <==> c == []
    ensures rect.Some? ==> c == [Distort(MirrorZoom(scale), SizeOf(rect.value))]
  {
    ShaderEffect(rect, MirrorZoom(scale))
  }

  /** The zoom layer both mirror modifiers add has exactly the mirror effect. */
  lemma ZoomLayerEffect(scale: real, clipShape: Option<Shape>, env: Slots)
    ensures LayerEffectOf(EffectLayer(MirrorZoom(scale), None, clipShape, OwnRect), env) == MirrorEffect(env.own, scale)
  {
    assert ShaderEffect(env.own, MirrorZoom(scale)) + [] == ShaderEffect(env.own, MirrorZoom(scale));
  }

  /**
   * From API 33 with a scale other than 1, `scaleMirror` zooms everything the
   * element paints through the shader sized by its own rect, which its position
   * callback writes; otherwise it changes nothing.
   */
  lemma ScaleMirrorZooms(m: Modifier, sdk: int, scale: real, clipShape: Shape,
                         env: Slots, inner: seq<Painted>, bounds: Rect, frame: nat)
    ensures Paint(ScaleMirror(m, sdk, scale, clipShape), env, inner) ==
              if sdk < ShaderApiLevel || scale == 1.0 then Paint(m, env, inner)
              else Paint(m, env, Layered(MirrorEffect(env.own, scale), inner))
    ensures Positions(ScaleMirror(m, sdk, scale, clipShape), env, bounds) ==
              if sdk < ShaderApiLevel || scale == 1.0 then Positions(m, env, bounds)
              else Write(Positions(m, env, bounds), OwnRect, bounds)
    ensures SharedEvents(ScaleMirror(m, sdk, scale, clipShape), env, frame) == SharedEvents(m, env, frame)
  {
    ScaleMirrorZoomsPaint(m, sdk, scale, clipShape, env, inner);
    ScaleMirrorZoomsPositions(m, sdk, scale, clipShape, env, bounds);
    ScaleMirrorZoomsEvents(m, sdk, scale, clipShape, env, frame);
  }

  /** `ScaleMirrorZooms`, what it paints. */
  lemma ScaleMirrorZoomsPaint(m: Modifier, sdk: int, scale: real, clipShape: Shape, env: Slots,
                              inner: seq<Painted>)
    ensures Paint(ScaleMirror(m, sdk, scale, clipShape), env, inner) ==
              if sdk < ShaderApiLevel || scale == 1.0 then Paint(m, env, inner)
              else Paint(m, env, Layered(MirrorEffect(env.own, scale), inner))
  {
    if !(sdk < ShaderApiLevel || scale == 1.0) {
      var layer := EffectLayer(MirrorZoom(scale), None, Some(clipShape), OwnRect);
      calc {
        Paint(ScaleMirror(m, sdk, scale, clipShape), env, inner);
        { assert ScaleMirror(m, sdk, scale, clipShape) == m + [layer, Track(OwnRect)]; AppendedLayerPaint(m, layer, OwnRect, env, inner); }
        Paint(m, env, Layered(LayerEffectOf(layer, env), inner));
        { ZoomLayerEffect(scale, Some(clipShape), env); }
        Paint(m, env, Layered(MirrorEffect(env.own, scale), inner));
      }
    }
  }

  /** `ScaleMirrorZooms`, which rectangles its callbacks write. */
  lemma ScaleMirrorZoomsPositions(m: Modifier, sdk: int, scale: real, clipShape: Shape, env: Slots,
                                  bounds: Rect)
    ensures Positions(ScaleMirror(m, sdk, scale, clipShape), env, bounds) ==
              if sdk < ShaderApiLevel || scale == 1.0 then Positions(m, env, bounds)
              else Write(Positions(m, env, bounds), OwnRect, bounds)
  {
    if !(sdk < ShaderApiLevel || scale == 1.0) {
      var layer := EffectLayer(MirrorZoom(scale), None, Some(clipShape), OwnRect);
      calc {
        Positions(ScaleMirror(m, sdk, scale, clipShape), env, bounds);
        { assert ScaleMirror(m, sdk, scale, clipShape) == m + [layer] + [Track(OwnRect)]; }
        Positions(m + [layer] + [Track(OwnRect)], env, bounds);
        { AppendedTrackPositions(m, [layer], OwnRect, env, bounds); }
        Write(Positions(m, env, bounds), OwnRect, bounds);
      }
    }
  }

  /** `ScaleMirrorZooms`, what it does to the capture buffer. */
  lemma ScaleMirrorZoomsEvents(m: Modifier, sdk: int, scale: real, clipShape: Shape, env: Slots,
                               frame: nat)
    ensures SharedEvents(ScaleMirror(m, sdk, scale, clipShape), env, frame) == SharedEvents(m, env, frame)
  {
    if !(sdk < ShaderApiLevel || scale == 1.0) {
      var layer := EffectLayer(MirrorZoom(scale), None, Some(clipShape), OwnRect);
      calc {
        SharedEvents(ScaleMirror(m, sdk, scale, clipShape), env, frame);
        { assert ScaleMirror(m, sdk, scale, clipShape) == m + [layer, Track(OwnRect)]; }
        SharedEvents(m + [layer, Track(OwnRect)], env, frame);
        { AppendedQuietEvents(m, [layer, Track(OwnRect)], env, frame); }
        SharedEvents(m, env, frame);
      }
    }
  }

  /**
   * From API 33 `mirrorLayer` paints the offset capture buffer under the
   * element's content, and both pass through the zoom shader sized by the
   * element's own rect and then the blur; its callback writes that rect.
   */
  lemma MirrorLayerShowsZoomedBackdrop(m: Modifier, sdk: int, scale: real, blur: real,
                                       env: Slots, inner: seq<Painted>, bounds: Rect, frame: nat)
    ensures Paint(MirrorLayer(m, sdk, scale, blur), env, inner) ==
              if sdk < ShaderApiLevel then Paint(m, env, inner)
              else Paint(m, env, Layered(MirrorEffect(env.own, scale) + [Blur(blur)],
                                         Plain(Backdrop(env.source, env.own)) + inner))
    ensures Positions(MirrorLayer(m, sdk, scale, blur), env, bounds) ==
              if sdk < ShaderApiLevel then Positions(m, env, bounds)
              else Write(Positions(m, env, bounds), OwnRect, bounds)
    ensures SharedEvents(MirrorLayer(m, sdk, scale, blur), env, frame) == SharedEvents(m, env, frame)
  {
    MirrorLayerShowsZoomedBackdropPaint(m, sdk, scale, blur, env, inner);
    MirrorLayerShowsZoomedBackdropPositions(m, sdk, scale, blur, env, bounds);
    MirrorLayerShowsZoomedBackdropEvents(m, sdk, scale, blur, env, frame);
  }

  /** `MirrorLayerShowsZoomedBackdrop`, what it paints. */
  lemma MirrorLayerShowsZoomedBackdropPaint(m: Modifier, sdk: int, scale: real, blur: real,
                                            env: Slots, inner: seq<Painted>)
    ensures Paint(MirrorLayer(m, sdk, scale, blur), env, inner) ==
              if sdk < ShaderApiLevel then Paint(m, env, inner)
              else Paint(m, env, Layered(MirrorEffect(env.own, scale) + [Blur(blur)],
                                         Plain(Backdrop(env.source, env.own)) + inner))
  {
    if sdk >= ShaderApiLevel {
      var a, b := BlurBy(blur), EffectLayer(MirrorZoom(scale), None, None, OwnRect);
      var show := ShowBackdrop(OwnRect);
      calc {
        Paint(MirrorLayer(m, sdk, scale, blur), env, inner);
        { assert MirrorLayer(m, sdk, scale, blur) == m + [a, b, show, Track(OwnRect)]; LayersThenBackdropPaint(m, a, b, show, OwnRect, env, inner); }
        Paint(m, env, Layered(LayerEffectOf(b, env) + LayerEffectOf(a, env), Plain(BehindOps(show, env)) + inner));
        { ZoomLayerEffect(scale, None, env);
          assert LayerEffectOf(a, env) == [Blur(blur)];
          assert BehindOps(show, env) == Backdrop(env.source, env.own); }
        Paint(m, env, Layered(MirrorEffect(env.own, scale) + [Blur(blur)], Plain(Backdrop(env.source, env.own)) + inner));
      }
    }
  }

  /** `MirrorLayerShowsZoomedBackdrop`, which rectangles its callbacks write. */
  lemma MirrorLayerShowsZoomedBackdropPositions(m: Modifier, sdk: int, scale: real, blur: real,
                                                env: Slots, bounds: Rect)
    ensures Positions(MirrorLayer(m, sdk, scale, blur), env, bounds) ==
              if sdk < ShaderApiLevel then Positions(m, env, bounds)
              else Write(Positions(m, env, bounds), OwnRect, bounds)
  {
    if sdk >= ShaderApiLevel {
      var a, b := BlurBy(blur), EffectLayer(MirrorZoom(scale), None, None, OwnRect);
      var show := ShowBackdrop(OwnRect);
      calc {
        Positions(MirrorLayer(m, sdk, scale, blur), env, bounds);
        { assert MirrorLayer(m, sdk, scale, blur) == m + [a, b, show] + [Track(OwnRect)]; }
        Positions(m + [a, b, show] + [Track(OwnRect)], env, bounds);
        { AppendedTrackPositions(m, [a, b, show], OwnRect, env, bounds); }
        Write(Positions(m, env, bounds), OwnRect, bounds);
      }
    }
  }

  /** `MirrorLayerShowsZoomedBackdrop`, what it does to the capture buffer. */
  lemma MirrorLayerShowsZoomedBackdropEvents(m: Modifier, sdk: int, scale: real, blur: real,
                                             env: Slots, frame: nat)
    ensures SharedEvents(MirrorLayer(m, sdk, scale, blur), env, frame) == SharedEvents(m, env, frame)
  {
    if sdk >= ShaderApiLevel {
      var a, b := BlurBy(blur), EffectLayer(MirrorZoom(scale), None, None, OwnRect);
      var show := ShowBackdrop(OwnRect);
      calc {
        SharedEvents(MirrorLayer(m, sdk, scale, blur), env, frame);
        { assert MirrorLayer(m, sdk, scale, blur) == m + [a, b, show, Track(OwnRect)]; }
        SharedEvents(m + [a, b, show, Track(OwnRect)], env, frame);
        { AppendedQuietEvents(m, [a, b, show, Track(OwnRect)], env, frame); }
        SharedEvents(m, env, frame);
      }
    }
  }

  /** The tinted `mirrorLayer` paints the tint over the mirror layer's painting, on every API level. */
  lemma MirrorLayerTintedPaintsTint(m: Modifier, sdk: int, scale: real, clipShape: Shape, tint: Color, blur: real,
                                    env: Slots, inner: seq<Painted>)
    ensures Paint(MirrorLayerTinted(m, sdk, scale, clipShape, tint, blur), env, inner) ==
              Paint(m, env, Paint(MirrorLayer([], sdk, scale, blur), env, inner) + [Painted([], Draw([], TintRect(tint)))])
  {
    var prefix := [Clip(clipShape), ContentThenTint(tint)];
    var n := MirrorLayer([], sdk, scale, blur);
    assert MirrorLayerTinted(m, sdk, scale, clipShape, tint, blur) == (m + prefix) + n;
    PaintAppend(m + prefix, n, env, inner);
    PaintAppend(m, prefix, env, Paint(n, env, inner));
    TintOver(clipShape, tint, env, Paint(n, env, inner));
  }

  /**
   * `mirrorLayer`'s draw-behind, at draw time: nothing until both rectangles
   * are known, then the capture buffer translated by the consumer's offset.
   */
  method MirrorLayerDraw(state: ShaderState, surface: Surface) returns (ops: seq<DrawOp>)
    ensures ops == Backdrop(state.rect, surface.rect)
    ensures ops == [] <==> state.rect.None? || surface.rect.None?
    ensures ops == BehindOps(ShowBackdrop(OwnRect), SlotsOf(state, surface.rect))
  {
    ops := surface.DrawBackdrop(state);
  }
}
