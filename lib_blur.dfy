/**
 * The library's blur pair: `blurSource` records its content into the capture
 * buffer with a blur-then-enhance effect on the buffer itself, and `blurLayer`
 * shows that buffer behind a consumer.
 */
module LibBlur {
  import opened Options
  import opened Geometry
  import opened Canvas
  import opened Effects
  import opened State
  import opened Modifiers

  /** The API level from which `blurSource` does anything. */
  const BlurApiLevel := 32

  /** `Modifier.blurLayer(state)`: no API gate. */
  function BlurLayer(m: Modifier): (r: Modifier)
    ensures Extends(m, r) && |r| == |m| + 2
    ensures r[|m|] == ShowBackdrop(OwnRect) && r[|m| + 1] == Track(OwnRect)
  {
    m + [ShowBackdrop(OwnRect), Track(OwnRect)]
  }

  /** `Modifier.blurSource(state, blur, enhanceColor)`. */
  function BlurSource(m: Modifier, sdk: int, blur: real, enhanceColor: bool := false): (r: Modifier)
    ensures Extends(m, r)
    ensures r == m <==> sdk < BlurApiLevel
    ensures r != m ==> r[|r| - 1] == Track(SourceRect)
  {
    if sdk < BlurApiLevel then m
    else m + [CaptureAfterEffect(SourceEffect(blur, enhanceColor)), Track(SourceRect)]
  }

  /**
   * The consumer paints the offset capture buffer under its content, its
   * callback writes its own rect, and it leaves the buffer alone.
   */
  lemma BlurLayerShowsBackdrop(m: Modifier, env: Slots, inner: seq<Painted>, bounds: Rect,
                               frame: nat)
    ensures Paint(BlurLayer(m), env, inner) == Paint(m, env, Plain(Backdrop(env.source, env.own)) + inner)
    ensures Positions(BlurLayer(m), env, bounds) == Write(Positions(m, env, bounds), OwnRect, bounds)
    ensures SharedEvents(BlurLayer(m), env, frame) == SharedEvents(m, env, frame)
  {
    BlurLayerShowsBackdropPaint(m, env, inner);
    BlurLayerShowsBackdropPositions(m, env, bounds);
    BlurLayerShowsBackdropEvents(m, env, frame);
  }

  /** `BlurLayerShowsBackdrop`, what it paints. */
  lemma BlurLayerShowsBackdropPaint(m: Modifier, env: Slots, inner: seq<Painted>)
    ensures Paint(BlurLayer(m), env, inner) == Paint(m, env, Plain(Backdrop(env.source, env.own)) + inner)
  {
    var show := ShowBackdrop(OwnRect);
    calc {
      Paint(BlurLayer(m), env, inner);
      { AppendedBackdropPaint(m, show, OwnRect, env, inner); }
      Paint(m, env, Plain(Backdrop(env.source, env.own)) + inner);
    }
  }

  /** `BlurLayerShowsBackdrop`, which rectangles its callbacks write. */
  lemma BlurLayerShowsBackdropPositions(m: Modifier, env: Slots, bounds: Rect)
    ensures Positions(BlurLayer(m), env, bounds) == Write(Positions(m, env, bounds), OwnRect, bounds)
  {
    var show := ShowBackdrop(OwnRect);
    calc {
      Positions(BlurLayer(m), env, bounds);
      { assert BlurLayer(m) == m + [show] + [Track(OwnRect)]; }
      Positions(m + [show] + [Track(OwnRect)], env, bounds);
      { AppendedTrackPositions(m, [show], OwnRect, env, bounds); }
      Write(Positions(m, env, bounds), OwnRect, bounds);
    }
  }

  /** `BlurLayerShowsBackdrop`, what it does to the capture buffer. */
  lemma BlurLayerShowsBackdropEvents(m: Modifier, env: Slots, frame: nat)
    ensures SharedEvents(BlurLayer(m), env, frame) == SharedEvents(m, env, frame)
  {
    var show := ShowBackdrop(OwnRect);
    calc {
      SharedEvents(BlurLayer(m), env, frame);
      { assert BlurLayer(m) == m + [show, Track(OwnRect)]; }
      SharedEvents(m + [show, Track(OwnRect)], env, frame);
      { AppendedQuietEvents(m, [show, Track(OwnRect)], env, frame); }
      SharedEvents(m, env, frame);
    }
  }

  /**
   * From API 32 the source paints its content unchanged, writes `state.rect`,
   * and on every draw sets the buffer's effect to blur-then-enhance before it
   * records its content; below API 32 it does none of this.
   */
  lemma BlurSourceCaptures(m: Modifier, sdk: int, blur: real, enhanceColor: bool,
                           env: Slots, inner: seq<Painted>, bounds: Rect, frame: nat)
    ensures Paint(BlurSource(m, sdk, blur, enhanceColor), env, inner) == Paint(m, env, inner)
    ensures Positions(BlurSource(m, sdk, blur, enhanceColor), env, bounds) ==
              if sdk < BlurApiLevel then Positions(m, env, bounds)
              else Write(Positions(m, env, bounds), SourceRect, bounds)
    ensures SharedEvents(BlurSource(m, sdk, blur, enhanceColor), env, frame) ==
              (if sdk < BlurApiLevel then []
               else [EffectAssigned(SourceEffect(blur, enhanceColor)), Recorded([Draw([], OwnContent(frame))])]) +
              SharedEvents(m, env, frame)
  {
    BlurSourceCapturesPaint(m, sdk, blur, enhanceColor, env, inner);
    BlurSourceCapturesPositions(m, sdk, blur, enhanceColor, env, bounds);
    BlurSourceCapturesEvents(m, sdk, blur, enhanceColor, env, frame);
  }

  /** `BlurSourceCaptures`, what it paints. */
  lemma BlurSourceCapturesPaint(m: Modifier, sdk: int, blur: real, enhanceColor: bool, env: Slots,
                                inner: seq<Painted>)
    ensures Paint(BlurSource(m, sdk, blur, enhanceColor), env, inner) == Paint(m, env, inner)
  {
    if sdk >= BlurApiLevel {
      var c := CaptureAfterEffect(SourceEffect(blur, enhanceColor));
      calc {
        Paint(BlurSource(m, sdk, blur, enhanceColor), env, inner);
        { assert BlurSource(m, sdk, blur, enhanceColor) == m + [c, Track(SourceRect)]; AppendedCapturePaint(m, c, SourceRect, env, inner); }
        Paint(m, env, inner);
      }
    }
  }

  /** `BlurSourceCaptures`, which rectangles its callbacks write. */
  lemma BlurSourceCapturesPositions(m: Modifier, sdk: int, blur: real, enhanceColor: bool,
                                    env: Slots, bounds: Rect)
    ensures Positions(BlurSource(m, sdk, blur, enhanceColor), env, bounds) ==
              if sdk < BlurApiLevel then Positions(m, env, bounds)
              else Write(Positions(m, env, bounds), SourceRect, bounds)
  {
    if sdk >= BlurApiLevel {
      var c := CaptureAfterEffect(SourceEffect(blur, enhanceColor));
      calc {
        Positions(BlurSource(m, sdk, blur, enhanceColor), env, bounds);
        { assert BlurSource(m, sdk, blur, enhanceColor) == m + [c] + [Track(SourceRect)]; }
        Positions(m + [c] + [Track(SourceRect)], env, bounds);
        { AppendedTrackPositions(m, [c], SourceRect, env, bounds); }
        Write(Positions(m, env, bounds), SourceRect, bounds);
      }
    }
  }

  /** `BlurSourceCaptures`, what it does to the capture buffer. */
  lemma BlurSourceCapturesEvents(m: Modifier, sdk: int, blur: real, enhanceColor: bool, env: Slots,
                                 frame: nat)
    ensures SharedEvents(BlurSource(m, sdk, blur, enhanceColor), env, frame) ==
              (if sdk < BlurApiLevel then []
               else [EffectAssigned(SourceEffect(blur, enhanceColor)), Recorded([Draw([], OwnContent(frame))])]) +
              SharedEvents(m, env, frame)
  {
    if sdk >= BlurApiLevel {
      var c := CaptureAfterEffect(SourceEffect(blur, enhanceColor));
      calc {
        SharedEvents(BlurSource(m, sdk, blur, enhanceColor), env, frame);
        { assert BlurSource(m, sdk, blur, enhanceColor) == m + [c, Track(SourceRect)]; AppendedCaptureEvents(m, c, SourceRect, env, frame); }
        CaptureEvents(c, env, frame) + SharedEvents(m, env, frame);
      }
    }
  }

  /** `createChainEffect(enhanceColorShader(enhanceColor), blurEffect)`. */
  function SourceEffect(blur: real, enhanceColor: bool := false): (c: Chain)
    ensures c == [Blur(blur), Enhance(enhanceColor)]
  {
    ChainEffect([Enhance(enhanceColor)], [Blur(blur)])
  }

  /** The blur runs first and colour enhance works on its result; by default enhance is off. */
  lemma SourceEffectOrder<I>(blur: real, enhanceColor: bool, apply: (Stage, I) -> I, input: I)
    ensures Run(SourceEffect(blur, enhanceColor), apply, input) == apply(Enhance(enhanceColor), apply(Blur(blur), input))
    ensures SourceEffect(blur) == [Blur(blur), Enhance(false)]
  {
    RunChainEffect([Enhance(enhanceColor)], [Blur(blur)], apply, input);
    assert Run([Blur(blur)], apply, input) == apply(Blur(blur), input);
  }

  /**
   * The source's draw: its own content, then the chained effect assigned to the
   * shared buffer, then the content recorded into that buffer. The effect is
   * carried by the buffer, so every consumer that draws it sees the blurred picture.
   */
  method BlurSourceDraw(state: ShaderState, blur: real, enhanceColor: bool, frame: nat) returns (ops: seq<DrawOp>)
    modifies state.graphicsLayer
    ensures ops == [Draw([], OwnContent(frame))]
    ensures state.graphicsLayer.renderEffect == SourceEffect(blur, enhanceColor)
    ensures state.graphicsLayer.recording == Some([Draw([], OwnContent(frame))])
    ensures state.graphicsLayer.history ==
              old(state.graphicsLayer.history) +
              [EffectAssigned(SourceEffect(blur, enhanceColor)), Recorded([Draw([], OwnContent(frame))])]
    ensures state.graphicsLayer.history ==
              old(state.graphicsLayer.history) +
              CaptureEvents(CaptureAfterEffect(SourceEffect(blur, enhanceColor)), SlotsOf(state, None), frame)
  {
    ops := [Draw([], OwnContent(frame))];
    var chained := SourceEffect(blur, enhanceColor);
    state.graphicsLayer.AssignEffect(chained);
    state.graphicsLayer.Record([Draw([], OwnContent(frame))]);
  }
}
