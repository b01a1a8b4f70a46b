/**
 * The demo app's shader utilities: `shaderSource` records itself, clipped to
 * its own bounds, into the capture buffer; `shaderLayer` shows that buffer
 * behind a single consumer through either the mirror-zoom or the
 * edge-refraction shader; `shaderSelf` zooms an element's own content.
 */
module AppShader {
  import opened Options
  import opened Geometry
  import opened Canvas
  import opened Effects
  import opened State
  import opened Modifiers
  import MirrorZoom
  import EdgeRefraction

  /** `Modifier.shaderSelf(scale, clipShape)`: only `scale == 1` switches it off; there is no API gate. */
  function ShaderSelf(m: Modifier, scale: real := 1.0, clipShape: Shape := RoundedCorner(0.0)): (r: Modifier)
    ensures Extends(m, r)
    ensures r == m <==> scale == 1.0
  {
    if scale == 1.0 then m
    else m + [EffectLayer(MirrorZoom(scale), None, Some(clipShape), OwnRect), Track(OwnRect)]
  }

  /**
   * With a scale other than 1, `shaderSelf` zooms everything the element paints
   * through the mirror-zoom shader sized by its own rect, which its callback
   * writes; with scale 1 it changes nothing.
   */
  lemma ShaderSelfZooms(m: Modifier, scale: real, clipShape: Shape, env: Slots,
                        inner: seq<Painted>, bounds: Rect, frame: nat)
    ensures Paint(ShaderSelf(m, scale, clipShape), env, inner) ==
              if scale == 1.0 then Paint(m, env, inner)
              else Paint(m, env, Layered(ShaderEffect(env.own, MirrorZoom(scale)), inner))
    ensures Positions(ShaderSelf(m, scale, clipShape), env, bounds) ==
              if scale == 1.0 then Positions(m, env, bounds) else Write(Positions(m, env, bounds), OwnRect, bounds)
    ensures SharedEvents(ShaderSelf(m, scale, clipShape), env, frame) == SharedEvents(m, env, frame)
  {
    ShaderSelfZoomsPaint(m, scale, clipShape, env, inner);
    ShaderSelfZoomsPositions(m, scale, clipShape, env, bounds);
    ShaderSelfZoomsEvents(m, scale, clipShape, env, frame);
  }

  /** `ShaderSelfZooms`, what it paints. */
  lemma ShaderSelfZoomsPaint(m: Modifier, scale: real, clipShape: Shape, env: Slots,
                             inner: seq<Painted>)
    ensures Paint(ShaderSelf(m, scale, clipShape), env, inner) ==
              if scale == 1.0 then Paint(m, env, inner)
              else Paint(m, env, Layered(ShaderEffect(env.own, MirrorZoom(scale)), inner))
  {
    if scale != 1.0 {
      var layer := EffectLayer(MirrorZoom(scale), None, Some(clipShape), OwnRect);
      calc {
        Paint(ShaderSelf(m, scale, clipShape), env, inner);
        { assert ShaderSelf(m, scale, clipShape) == m + [layer, Track(OwnRect)]; AppendedLayerPaint(m, layer, OwnRect, env, inner); }
        Paint(m, env, Layered(LayerEffectOf(layer, env), inner));
        { ShaderLayerEffect(MirrorZoom(scale), Some(clipShape), OwnRect, env);
          assert SlotRect(env, OwnRect) == env.own; }
        Paint(m, env, Layered(ShaderEffect(env.own, MirrorZoom(scale)), inner));
      }
    }
  }

  /** `ShaderSelfZooms`, which rectangles its callbacks write. */
  lemma ShaderSelfZoomsPositions(m: Modifier, scale: real, clipShape: Shape, env: Slots,
                                 bounds: Rect)
    ensures Positions(ShaderSelf(m, scale, clipShape), env, bounds) ==
              if scale == 1.0 then Positions(m, env, bounds) else Write(Positions(m, env, bounds), OwnRect, bounds)
  {
    if scale != 1.0 {
      var layer := EffectLayer(MirrorZoom(scale), None, Some(clipShape), OwnRect);
      calc {
        Positions(ShaderSelf(m, scale, clipShape), env, bounds);
        { assert ShaderSelf(m, scale, clipShape) == m + [layer] + [Track(OwnRect)]; }
        Positions(m + [layer] + [Track(OwnRect)], env, bounds);
        { AppendedTrackPositions(m, [layer], OwnRect, env, bounds); }
        Write(Positions(m, env, bounds), OwnRect, bounds);
      }
    }
  }

  /** `ShaderSelfZooms`, what it does to the capture buffer. */
  lemma ShaderSelfZoomsEvents(m: Modifier, scale: real, clipShape: Shape, env: Slots, frame: nat)
    ensures SharedEvents(ShaderSelf(m, scale, clipShape), env, frame) == SharedEvents(m, env, frame)
  {
    if scale != 1.0 {
      var layer := EffectLayer(MirrorZoom(scale), None, Some(clipShape), OwnRect);
      calc {
        SharedEvents(ShaderSelf(m, scale, clipShape), env, frame);
        { assert ShaderSelf(m, scale, clipShape) == m + [layer, Track(OwnRect)]; }
        SharedEvents(m + [layer, Track(OwnRect)], env, frame);
        { AppendedQuietEvents(m, [layer, Track(OwnRect)], env, frame); }
        SharedEvents(m, env, frame);
      }
    }
  }

  /** `Modifier.shaderSource(state)`. */
  function ShaderSource(m: Modifier): (r: Modifier)
    ensures Extends(m, r) && |r| == |m| + 2
    ensures r[|r| - 1] == Track(SourceRect)
  {
    m + [CaptureClipped, Track(SourceRect)]
  }

  /**
   * The source paints its content unchanged and writes `state.rect`; on a draw
   * it records its content clipped to its own size once `state.rect` is known,
   * and does nothing to the buffer before that.
   */
  lemma ShaderSourceCaptures(m: Modifier, env: Slots, inner: seq<Painted>, bounds: Rect, frame: nat)
    ensures Paint(ShaderSource(m), env, inner) == Paint(m, env, inner)
    ensures Positions(ShaderSource(m), env, bounds) == Write(Positions(m, env, bounds), SourceRect, bounds)
    ensures SharedEvents(ShaderSource(m), env, frame) ==
              (if env.source.None? then []
               else [Recorded([Draw([ClipRect(Origin, SizeOf(env.source.value))], OwnContent(frame))])]) +
              SharedEvents(m, env, frame)
  {
    ShaderSourceCapturesPaint(m, env, inner);
    ShaderSourceCapturesPositions(m, env, bounds);
    ShaderSourceCapturesEvents(m, env, frame);
  }

  /** `ShaderSourceCaptures`, what it paints. */
  lemma ShaderSourceCapturesPaint(m: Modifier, env: Slots, inner: seq<Painted>)
    ensures Paint(ShaderSource(m), env, inner) == Paint(m, env, inner)
  {
    calc {
      Paint(ShaderSource(m), env, inner);
      { assert ShaderSource(m) == m + [CaptureClipped, Track(SourceRect)]; AppendedCapturePaint(m, CaptureClipped, SourceRect, env, inner); }
      Paint(m, env, inner);
    }
  }

  /** `ShaderSourceCaptures`, which rectangles its callbacks write. */
  lemma ShaderSourceCapturesPositions(m: Modifier, env: Slots, bounds: Rect)
    ensures Positions(ShaderSource(m), env, bounds) == Write(Positions(m, env, bounds), SourceRect, bounds)
  {
    calc {
      Positions(ShaderSource(m), env, bounds);
      { assert ShaderSource(m) == m + [CaptureClipped] + [Track(SourceRect)]; }
      Positions(m + [CaptureClipped] + [Track(SourceRect)], env, bounds);
      { AppendedTrackPositions(m, [CaptureClipped], SourceRect, env, bounds); }
      Write(Positions(m, env, bounds), SourceRect, bounds);
    }
  }

  /** `ShaderSourceCaptures`, what it does to the capture buffer. */
  lemma ShaderSourceCapturesEvents(m: Modifier, env: Slots, frame: nat)
    ensures SharedEvents(ShaderSource(m), env, frame) ==
              (if env.source.None? then []
               else [Recorded([Draw([ClipRect(Origin, SizeOf(env.source.value))], OwnContent(frame))])]) +
              SharedEvents(m, env, frame)
  {
    calc {
      SharedEvents(ShaderSource(m), env, frame);
      { assert ShaderSource(m) == m + [CaptureClipped, Track(SourceRect)]; AppendedCaptureEvents(m, CaptureClipped, SourceRect, env, frame); }
      CaptureEvents(CaptureClipped, env, frame) + SharedEvents(m, env, frame);
    }
  }

  /**
   * `shaderSource`'s draw: the element always draws its own content; it
   * records that content, clipped to `(0, 0, width, height)` of its bounds,
   * only once `state.rect` is known, and never touches the buffer's effect.
   */
  method ShaderSourceDraw(state: ShaderState, frame: nat) returns (ops: seq<DrawOp>)
    modifies state.graphicsLayer
    ensures ops == [Draw([], OwnContent(frame))]
    ensures state.rect.None? ==>
              state.graphicsLayer.recording == old(state.graphicsLayer.recording) &&
              state.graphicsLayer.history == old(state.graphicsLayer.history)
    ensures state.rect.Some? ==>
              var recorded := [Draw([ClipRect(Origin, SizeOf(state.rect.value))], OwnContent(frame))];
              state.graphicsLayer.recording == Some(recorded) &&
              state.graphicsLayer.history == old(state.graphicsLayer.history) + [Recorded(recorded)]
    ensures state.graphicsLayer.renderEffect == old(state.graphicsLayer.renderEffect)
    ensures state.graphicsLayer.history ==
              old(state.graphicsLayer.history) + CaptureEvents(CaptureClipped, SlotsOf(state, None), frame)
  {
    ops := [Draw([], OwnContent(frame))];
    if state.rect.None? {
      return;
    }
    var bounds := state.rect.value;
    state.graphicsLayer.Record([Draw([ClipRect(Origin, SizeOf(bounds))], OwnContent(frame))]);
  }

  /** The recorded source shows its content at its own points of `[0, w] x [0, h]` and nothing elsewhere. */
  lemma RecordedSourceIsClipped(bounds: Rect, frame: nat, q: Vec)
    ensures var op := Draw([ClipRect(Origin, SizeOf(bounds))], OwnContent(frame));
            LayerPoint(op.transforms, q) == if InBox(q, Origin, SizeOf(bounds)) then Some(q) else None
  {
    var ts := [ClipRect(Origin, SizeOf(bounds))];
    assert ts[1..] == [];
  }

  /** `isMirror` picks `SHADER_CODE` with `scale`, else `SHADER_CODE_2` with border 75 and `strength = scale`. */
  function LayerProgram(scale: real, isMirror: bool): (p: Program)
    ensures p.MirrorZoom? <==> isMirror
    ensures isMirror ==> p.scale == scale
    ensures !isMirror ==> p.EdgeRefraction? && p.border == RefractionBorder && p.strength == scale
  {
    if isMirror then MirrorZoom(scale) else EdgeRefraction(RefractionBorder, scale)
  }

  /**
   * At rest either program leaves the surface as it is: the mirror program
   * with `scale = 1` samples every pixel of the surface at itself, and the
   * refraction program with `strength = 0` displaces no pixel.
   */
  lemma LayerProgramAtRest(frag: Vec, size: Vec, len: real)
    requires InBox(frag, Origin, size)
    requires IsLength(Sub(frag, Center(size)), len)
    ensures LayerProgram(1.0, true) == MirrorZoom(1.0) && MirrorZoom.Sample(frag, size, 1.0) == frag
    ensures LayerProgram(0.0, false) == EdgeRefraction(RefractionBorder, 0.0) &&
            EdgeRefraction.Sample(frag, size, RefractionBorder, 0.0, len) == frag
  {
    MirrorZoom.UnitScaleIsIdentity(frag, size);
    EdgeRefraction.ZeroStrengthUndisplaced(frag, size, RefractionBorder, len);
    MirrorZoom.FoldAxisKeepsInRange(frag.x, size.x);
    MirrorZoom.FoldAxisKeepsInRange(frag.y, size.y);
  }

  /** The consumer layer's render effect: nothing until `sRect` is known. */
  function LayerEffect(sRect: Option<Rect>, scale: real, isMirror: bool): (c: Chain)
    ensures sRect.None? <==> c == []
    ensures sRect.Some? ==> c == [Distort(LayerProgram(scale, isMirror), SizeOf(sRect.value))]
  {
    ShaderEffect(sRect, LayerProgram(scale, isMirror))
  }

  /** `Modifier.shaderLayer(state, scale, isMirror)`. */
  function ShaderLayer(m: Modifier, scale: real, isMirror: bool := false): (r: Modifier)
    ensures Extends(m, r) && |r| == |m| + 3
    ensures r[|m|] == EffectLayer(LayerProgram(scale, isMirror), None, None, ConsumerRect)
    ensures r[|m| + 1] == ShowBackdrop(ConsumerRect) && r[|m| + 2] == Track(ConsumerRect)
  {
    m + [EffectLayer(LayerProgram(scale, isMirror), None, None, ConsumerRect),
         ShowBackdrop(ConsumerRect),
         Track(ConsumerRect)]
  }

  /** The tinted `shaderLayer`: clip, then content-then-tint, then blur, then the shader layer. */
  function ShaderLayerTinted(m: Modifier, scale: real, clipShape: Shape, tint: Color,
                             isMirror: bool := false, blur: real := 0.0): (r: Modifier)
    ensures Extends(m, r) && |r| == |m| + 6
    ensures r[|m|] == Clip(clipShape) && r[|m| + 1] == ContentThenTint(tint) && r[|m| + 2] == BlurBy(blur)
    ensures r[|m| + 3] == EffectLayer(LayerProgram(scale, isMirror), None, None, ConsumerRect)
  {
    ShaderLayer(m + [Clip(clipShape), ContentThenTint(tint), BlurBy(blur)], scale, isMirror)
  }

  /** The consumer layer added by `shaderLayer` carries exactly the consumer layer's effect. */
  lemma ConsumerLayerEffect(scale: real, isMirror: bool, env: Slots)
    ensures LayerEffectOf(EffectLayer(LayerProgram(scale, isMirror), None, None, ConsumerRect), env) ==
              LayerEffect(env.consumer, scale, isMirror)
  {
    ShaderLayerEffect(LayerProgram(scale, isMirror), None, ConsumerRect, env);
  }

  /**
   * `shaderLayer` paints the capture buffer, offset by `sRect`, under the
   * element's content, and both pass through the consumer layer's shader; its
   * callback writes `sRect`.
   */
  lemma ShaderLayerShowsBackdrop(m: Modifier, scale: real, isMirror: bool, env: Slots,
                                 inner: seq<Painted>, bounds: Rect, frame: nat)
    ensures Paint(ShaderLayer(m, scale, isMirror), env, inner) ==
              Paint(m, env, Layered(LayerEffect(env.consumer, scale, isMirror), Plain(Backdrop(env.source, env.consumer)) + inner))
    ensures Positions(ShaderLayer(m, scale, isMirror), env, bounds) == Write(Positions(m, env, bounds), ConsumerRect, bounds)
    ensures SharedEvents(ShaderLayer(m, scale, isMirror), env, frame) == SharedEvents(m, env, frame)
  {
    ShaderLayerShowsBackdropPaint(m, scale, isMirror, env, inner);
    ShaderLayerShowsBackdropPositions(m, scale, isMirror, env, bounds);
    ShaderLayerShowsBackdropEvents(m, scale, isMirror, env, frame);
  }

  /** `ShaderLayerShowsBackdrop`, what it paints. */
  lemma ShaderLayerShowsBackdropPaint(m: Modifier, scale: real, isMirror: bool, env: Slots,
                                      inner: seq<Painted>)
    ensures Paint(ShaderLayer(m, scale, isMirror), env, inner) ==
              Paint(m, env, Layered(LayerEffect(env.consumer, scale, isMirror), Plain(Backdrop(env.source, env.consumer)) + inner))
  {
    var a := EffectLayer(LayerProgram(scale, isMirror), None, None, ConsumerRect);
    var show := ShowBackdrop(ConsumerRect);
    calc {
      Paint(ShaderLayer(m, scale, isMirror), env, inner);
      { LayerThenBackdropPaint(m, a, show, ConsumerRect, env, inner); }
      Paint(m, env, Layered(LayerEffectOf(a, env), Plain(BehindOps(show, env)) + inner));
      { ConsumerLayerEffect(scale, isMirror, env);
        assert BehindOps(show, env) == Backdrop(env.source, env.consumer); }
      Paint(m, env, Layered(LayerEffect(env.consumer, scale, isMirror), Plain(Backdrop(env.source, env.consumer)) + inner));
    }
  }

  /** `ShaderLayerShowsBackdrop`, which rectangles its callbacks write. */
  lemma ShaderLayerShowsBackdropPositions(m: Modifier, scale: real, isMirror: bool, env: Slots,
                                          bounds: Rect)
    ensures Positions(ShaderLayer(m, scale, isMirror), env, bounds) == Write(Positions(m, env, bounds), ConsumerRect, bounds)
  {
    var a := EffectLayer(LayerProgram(scale, isMirror), None, None, ConsumerRect);
    var show := ShowBackdrop(ConsumerRect);
    calc {
      Positions(ShaderLayer(m, scale, isMirror), env, bounds);
      { assert ShaderLayer(m, scale, isMirror) == m + [a, show] + [Track(ConsumerRect)]; }
      Positions(m + [a, show] + [Track(ConsumerRect)], env, bounds);
      { AppendedTrackPositions(m, [a, show], ConsumerRect, env, bounds); }
      Write(Positions(m, env, bounds), ConsumerRect, bounds);
    }
  }

  /** `ShaderLayerShowsBackdrop`, what it does to the capture buffer. */
  lemma ShaderLayerShowsBackdropEvents(m: Modifier, scale: real, isMirror: bool, env: Slots,
                                       frame: nat)
    ensures SharedEvents(ShaderLayer(m, scale, isMirror), env, frame) == SharedEvents(m, env, frame)
  {
    var a := EffectLayer(LayerProgram(scale, isMirror), None, None, ConsumerRect);
    var show := ShowBackdrop(ConsumerRect);
    calc {
      SharedEvents(ShaderLayer(m, scale, isMirror), env, frame);
      { assert ShaderLayer(m, scale, isMirror) == m + [a, show, Track(ConsumerRect)]; }
      SharedEvents(m + [a, show, Track(ConsumerRect)], env, frame);
      { AppendedQuietEvents(m, [a, show, Track(ConsumerRect)], env, frame); }
      SharedEvents(m, env, frame);
    }
  }

  /**
   * The tinted `shaderLayer` blurs the backdrop and the content after the
   * consumer shader, and paints the tint over them, outside both layers.
   */
  lemma ShaderLayerTintedPaintsTint(m: Modifier, scale: real, clipShape: Shape, tint: Color, isMirror: bool, blur: real,
                                    env: Slots, inner: seq<Painted>)
    ensures Paint(ShaderLayerTinted(m, scale, clipShape, tint, isMirror, blur), env, inner) ==
              Paint(m, env, Layered(LayerEffect(env.consumer, scale, isMirror) + [Blur(blur)],
                                    Plain(Backdrop(env.source, env.consumer)) + inner) +
                            [Painted([], Draw([], TintRect(tint)))])
  {
    var prefix := [Clip(clipShape), ContentThenTint(tint)];
    var n := [BlurBy(blur), EffectLayer(LayerProgram(scale, isMirror), None, None, ConsumerRect),
              ShowBackdrop(ConsumerRect), Track(ConsumerRect)];
    var layered := Layered(LayerEffect(env.consumer, scale, isMirror) + [Blur(blur)],
                           Plain(Backdrop(env.source, env.consumer)) + inner);
    calc {
      Paint(ShaderLayerTinted(m, scale, clipShape, tint, isMirror, blur), env, inner);
      { assert ShaderLayerTinted(m, scale, clipShape, tint, isMirror, blur) == (m + prefix) + n;
        PaintAppend(m + prefix, n, env, inner); }
      Paint(m + prefix, env, Paint(n, env, inner));
      { TintedLayerPaint(scale, isMirror, blur, env, inner); }
      Paint(m + prefix, env, layered);
      { PaintAppend(m, prefix, env, layered); }
      Paint(m, env, Paint(prefix, env, layered));
      { TintOver(clipShape, tint, env, layered); }
      Paint(m, env, layered + [Painted([], Draw([], TintRect(tint)))]);
    }
  }

  /** The blur and the consumer layer of the tinted `shaderLayer`, on their own. */
  lemma TintedLayerPaint(scale: real, isMirror: bool, blur: real, env: Slots, inner: seq<Painted>)
    ensures Paint([BlurBy(blur), EffectLayer(LayerProgram(scale, isMirror), None, None, ConsumerRect),
                   ShowBackdrop(ConsumerRect), Track(ConsumerRect)], env, inner) ==
              Layered(LayerEffect(env.consumer, scale, isMirror) + [Blur(blur)],
                      Plain(Backdrop(env.source, env.consumer)) + inner)
  {
    var a := BlurBy(blur);
    var b := EffectLayer(LayerProgram(scale, isMirror), None, None, ConsumerRect);
    var show := ShowBackdrop(ConsumerRect);
    calc {
      Paint([a, b, show, Track(ConsumerRect)], env, inner);
      { assert [a, b, show, Track(ConsumerRect)] == [] + [a, b, show, Track(ConsumerRect)];
        LayersThenBackdropPaint([], a, b, show, ConsumerRect, env, inner); }
      Paint([], env, Layered(LayerEffectOf(b, env) + LayerEffectOf(a, env), Plain(BehindOps(show, env)) + inner));
      Layered(LayerEffectOf(b, env) + LayerEffectOf(a, env), Plain(BehindOps(show, env)) + inner);
      { ConsumerLayerEffect(scale, isMirror, env);
        assert LayerEffectOf(a, env) == [Blur(blur)];
        assert BehindOps(show, env) == Backdrop(env.source, env.consumer); }
      Layered(LayerEffect(env.consumer, scale, isMirror) + [Blur(blur)], Plain(Backdrop(env.source, env.consumer)) + inner);
    }
  }

  /**
   * `shaderLayer`'s draw-behind: nothing unless both `rect` and `sRect` are
   * known, else the buffer translated by `-(sRect.topLeft - rect.topLeft)`.
   */
  method DrawBehind(state: ShaderState) returns (ops: seq<DrawOp>)
    ensures ops == Backdrop(state.rect, state.sRect)
    ensures ops == [] <==> state.rect.None? || state.sRect.None?
    ensures ops == BehindOps(ShowBackdrop(ConsumerRect), SlotsOf(state, None))
  {
    ops := [];
    if state.rect.None? {
      return;
    }
    var contentRect := state.rect.value;
    if state.sRect.None? {
      return;
    }
    var surfaceRect := state.sRect.value;
    var offset := Offset(surfaceRect, contentRect);
    ops := [Draw([Translate(Neg(offset))], SharedLayer)];
  }

  /**
   * A source at (0, 0, 400, 800) and a 200 x 200 consumer at (20, 20): once
   * both are positioned, the consumer draws the buffer translated by (-20, -20).
   */
  method PositionBothThenDraw(state: ShaderState) returns (ops: seq<DrawOp>)
    modifies state
    ensures state.rect == Some(Rect(0.0, 0.0, 400.0, 800.0))
    ensures state.sRect == Some(Rect(20.0, 20.0, 220.0, 220.0))
    ensures ops == [Draw([Translate(Vec(-20.0, -20.0))], SharedLayer)]
  {
    state.SourcePositioned(Rect(0.0, 0.0, 400.0, 800.0));
    state.ConsumerPositioned(Vec(20.0, 20.0), Vec(200.0, 200.0));
    ops := DrawBehind(state);
  }
}
