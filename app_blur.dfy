/**
 * The demo app's own blur pair. Its `blurLayer` clips the backdrop to the
 * consumer's size, but inside the translated space; its `blurSource` records
 * first and assigns the effect afterwards, with colour enhance tied to the radius.
 */
module AppBlur {
  import opened Options
  import opened Geometry
  import opened Canvas
  import opened Effects
  import opened State
  import opened Modifiers

  /** `Modifier.blurLayer(state, clipShape)`. */
  function BlurLayer(m: Modifier, clipShape: Shape): (r: Modifier)
    ensures Extends(m, r) && |r| == |m| + 3
    ensures r[|m|] == Clip(clipShape) && r[|m| + 1] == ShowClippedBackdrop(OwnRect) && r[|m| + 2] == Track(OwnRect)
  {
    m + [Clip(clipShape), ShowClippedBackdrop(OwnRect), Track(OwnRect)]
  }

  /**
   * The consumer paints the capture buffer, translated and then clipped,
   * under its content; its callback writes its own rect, and it leaves the
   * buffer alone.
   */
  lemma BlurLayerShowsClippedBackdrop(m: Modifier, clipShape: Shape, env: Slots,
                                      inner: seq<Painted>, bounds: Rect, frame: nat)
    ensures Paint(BlurLayer(m, clipShape), env, inner) ==
              Paint(m, env, Plain(ClippedBackdrop(env.source, env.own)) + inner)
    ensures Positions(BlurLayer(m, clipShape), env, bounds) == Write(Positions(m, env, bounds), OwnRect, bounds)
    ensures SharedEvents(BlurLayer(m, clipShape), env, frame) == SharedEvents(m, env, frame)
  {
    BlurLayerShowsClippedBackdropPaint(m, clipShape, env, inner);
    BlurLayerShowsClippedBackdropPositions(m, clipShape, env, bounds);
    BlurLayerShowsClippedBackdropEvents(m, clipShape, env, frame);
  }

  /** `BlurLayerShowsClippedBackdrop`, what it paints. */
  lemma BlurLayerShowsClippedBackdropPaint(m: Modifier, clipShape: Shape, env: Slots,
                                           inner: seq<Painted>)
    ensures Paint(BlurLayer(m, clipShape), env, inner) ==
              Paint(m, env, Plain(ClippedBackdrop(env.source, env.own)) + inner)
  {
    var show := ShowClippedBackdrop(OwnRect);
    var behind := Plain(BehindOps(show, env)) + inner;
    calc {
      Paint(BlurLayer(m, clipShape), env, inner);
      { assert BlurLayer(m, clipShape) == (m + [Clip(clipShape)]) + [show, Track(OwnRect)]; AppendedBackdropPaint(m + [Clip(clipShape)], show, OwnRect, env, inner); }
      Paint(m + [Clip(clipShape)], env, behind);
      { PaintAppend(m, [Clip(clipShape)], env, behind); ClipPaint(clipShape, env, behind); }
      Paint(m, env, behind);
    }
  }

  /** `BlurLayerShowsClippedBackdrop`, which rectangles its callbacks write. */
  lemma BlurLayerShowsClippedBackdropPositions(m: Modifier, clipShape: Shape, env: Slots,
                                               bounds: Rect)
    ensures Positions(BlurLayer(m, clipShape), env, bounds) == Write(Positions(m, env, bounds), OwnRect, bounds)
  {
    var show := ShowClippedBackdrop(OwnRect);
    calc {
      Positions(BlurLayer(m, clipShape), env, bounds);
      { assert BlurLayer(m, clipShape) == m + [Clip(clipShape), show] + [Track(OwnRect)]; }
      Positions(m + [Clip(clipShape), show] + [Track(OwnRect)], env, bounds);
      { AppendedTrackPositions(m, [Clip(clipShape), show], OwnRect, env, bounds); }
      Write(Positions(m, env, bounds), OwnRect, bounds);
    }
  }

  /** `BlurLayerShowsClippedBackdrop`, what it does to the capture buffer. */
  lemma BlurLayerShowsClippedBackdropEvents(m: Modifier, clipShape: Shape, env: Slots, frame: nat)
    ensures SharedEvents(BlurLayer(m, clipShape), env, frame) == SharedEvents(m, env, frame)
  {
    var show := ShowClippedBackdrop(OwnRect);
    calc {
      SharedEvents(BlurLayer(m, clipShape), env, frame);
      { assert BlurLayer(m, clipShape) == m + [Clip(clipShape), show, Track(OwnRect)]; }
      SharedEvents(m + [Clip(clipShape), show, Track(OwnRect)], env, frame);
      { AppendedQuietEvents(m, [Clip(clipShape), show, Track(OwnRect)], env, frame); }
      SharedEvents(m, env, frame);
    }
  }

  /**
   * `blurLayer`'s draw-behind as written: nothing until both rectangles are
   * known, then the capture buffer under `translate(-offset)` followed by
   * `clipRect(0, 0, width, height)`.
   */
  method BlurLayerDraw(state: ShaderState, surface: Surface) returns (ops: seq<DrawOp>)
    ensures ops == ClippedBackdrop(state.rect, surface.rect)
    ensures ops == [] <==> state.rect.None? || surface.rect.None?
    ensures ops == BehindOps(ShowClippedBackdrop(OwnRect), SlotsOf(state, surface.rect))
  {
    ops := [];
    if state.rect.None? {
      return;
    }
    var contentRect := state.rect.value;
    if surface.rect.None? {
      return;
    }
    var surfaceRect := surface.rect.value;
    var offset := Offset(surfaceRect, contentRect);
    ops := [Draw([Translate(Neg(offset)), ClipRect(Origin, SizeOf(surfaceRect))], SharedLayer)];
  }

  /** `Modifier.blurSource(state, blur)`: no API gate. */
  function BlurSource(m: Modifier, blur: real): (r: Modifier)
    ensures Extends(m, r) && |r| == |m| + 2
    ensures r[|r| - 1] == Track(SourceRect)
  {
    m + [CaptureBeforeEffect(SourceEffect(blur)), Track(SourceRect)]
  }

  /**
   * The source paints its content unchanged, writes `state.rect`, and on every
   * draw records its content into the buffer before it sets the buffer's effect.
   */
  lemma BlurSourceCaptures(m: Modifier, blur: real, env: Slots, inner: seq<Painted>, bounds: Rect,
                           frame: nat)
    ensures Paint(BlurSource(m, blur), env, inner) == Paint(m, env, inner)
    ensures Positions(BlurSource(m, blur), env, bounds) == Write(Positions(m, env, bounds), SourceRect, bounds)
    ensures SharedEvents(BlurSource(m, blur), env, frame) ==
              [Recorded([Draw([], OwnContent(frame))]), EffectAssigned(SourceEffect(blur))] + SharedEvents(m, env, frame)
  {
    BlurSourceCapturesPaint(m, blur, env, inner);
    BlurSourceCapturesPositions(m, blur, env, bounds);
    BlurSourceCapturesEvents(m, blur, env, frame);
  }

  /** `BlurSourceCaptures`, what it paints. */
  lemma BlurSourceCapturesPaint(m: Modifier, blur: real, env: Slots, inner: seq<Painted>)
    ensures Paint(BlurSource(m, blur), env, inner) == Paint(m, env, inner)
  {
    var c := CaptureBeforeEffect(SourceEffect(blur));
    calc {
      Paint(BlurSource(m, blur), env, inner);
      { assert BlurSource(m, blur) == m + [c, Track(SourceRect)]; AppendedCapturePaint(m, c, SourceRect, env, inner); }
      Paint(m, env, inner);
    }
  }

  /** `BlurSourceCaptures`, which rectangles its callbacks write. */
  lemma BlurSourceCapturesPositions(m: Modifier, blur: real, env: Slots, bounds: Rect)
    ensures Positions(BlurSource(m, blur), env, bounds) == Write(Positions(m, env, bounds), SourceRect, bounds)
  {
    var c := CaptureBeforeEffect(SourceEffect(blur));
    calc {
      Positions(BlurSource(m, blur), env, bounds);
      { assert BlurSource(m, blur) == m + [c] + [Track(SourceRect)]; }
      Positions(m + [c] + [Track(SourceRect)], env, bounds);
      { AppendedTrackPositions(m, [c], SourceRect, env, bounds); }
      Write(Positions(m, env, bounds), SourceRect, bounds);
    }
  }

  /** `BlurSourceCaptures`, what it does to the capture buffer. */
  lemma BlurSourceCapturesEvents(m: Modifier, blur: real, env: Slots, frame: nat)
    ensures SharedEvents(BlurSource(m, blur), env, frame) ==
              [Recorded([Draw([], OwnContent(frame))]), EffectAssigned(SourceEffect(blur))] + SharedEvents(m, env, frame)
  {
    var c := CaptureBeforeEffect(SourceEffect(blur));
    calc {
      SharedEvents(BlurSource(m, blur), env, frame);
      { assert BlurSource(m, blur) == m + [c, Track(SourceRect)]; AppendedCaptureEvents(m, c, SourceRect, env, frame); }
      CaptureEvents(c, env, frame) + SharedEvents(m, env, frame);
    }
  }

  /** `createChainEffect(enhanceColorShader(blur != 0.dp), blurEffect)`. */
  function SourceEffect(blur: real): (c: Chain)
    ensures c == [Blur(blur), Enhance(blur != 0.0)]
  {
    ChainEffect([Enhance(blur != 0.0)], [Blur(blur)])
  }

  /** The blur runs first; colour enhance is on exactly when the radius is not zero. */
  lemma SourceEffectOrder<I>(blur: real, apply: (Stage, I) -> I, input: I)
    ensures Run(SourceEffect(blur), apply, input) == apply(Enhance(blur != 0.0), apply(Blur(blur), input))
    ensures SourceEffect(blur)[1].enabled <==> blur != 0.0
  {
    RunChainEffect([Enhance(blur != 0.0)], [Blur(blur)], apply, input);
    assert Run([Blur(blur)], apply, input) == apply(Blur(blur), input);
  }

  /**
   * The source's draw: its own content, then the content recorded into the
   * shared buffer, then the chained effect assigned to the buffer.
   */
  method BlurSourceDraw(state: ShaderState, blur: real, frame: nat) returns (ops: seq<DrawOp>)
    modifies state.graphicsLayer
    ensures ops == [Draw([], OwnContent(frame))]
    ensures state.graphicsLayer.recording == Some([Draw([], OwnContent(frame))])
    ensures state.graphicsLayer.renderEffect == SourceEffect(blur)
    ensures state.graphicsLayer.history ==
              old(state.graphicsLayer.history) +
              [Recorded([Draw([], OwnContent(frame))]), EffectAssigned(SourceEffect(blur))]
    ensures state.graphicsLayer.history ==
              old(state.graphicsLayer.history) +
              CaptureEvents(CaptureBeforeEffect(SourceEffect(blur)), SlotsOf(state, None), frame)
  {
    ops := [Draw([], OwnContent(frame))];
    state.graphicsLayer.Record([Draw([], OwnContent(frame))]);
    var chained := SourceEffect(blur);
    state.graphicsLayer.AssignEffect(chained);
  }
}
