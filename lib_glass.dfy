/**
 * The library's `glassLayer`: a consumer that copies the capture buffer into a
 * layer of its own, then draws that layer through the dispersion shader, the
 * colour-enhance shader and a blur, in that order.
 */
module LibGlass {
  import opened Options
  import opened Geometry
  import opened Canvas
  import opened Effects
  import opened State
  import opened Modifiers
  import LibMirror

  /** `Modifier.glassLayer(state, style)`. */
  function GlassLayer(m: Modifier, sdk: int, style: GlassStyle): (r: Modifier)
    ensures Extends(m, r)
    ensures r == m <==> sdk < LibMirror.ShaderApiLevel
  {
    if sdk < LibMirror.ShaderApiLevel then m
    else m + [LocalGlass(style), Track(OwnRect)]
  }

  /** The tinted `glassLayer(state, tint, style)`: the mask is drawn on every API level. */
  function GlassLayerTinted(m: Modifier, sdk: int, tint: Color, style: GlassStyle): (r: Modifier)
    ensures Extends(m + [ContentThenTint(tint)], r)
    ensures sdk < LibMirror.ShaderApiLevel ==> r == m + [ContentThenTint(tint)]
  {
    GlassLayer(m + [ContentThenTint(tint)], sdk, style)
  }

  /** What the glass's own layer paints under the content: the local layer through the glass effect, once the rect is known. */
  function GlassUnder(env: Slots, style: GlassStyle): (ps: seq<Painted>)
    ensures env.own.None? <==> ps == []
    ensures env.own.Some? ==>
              ps == [Painted(GlassEffect(env.own, style), Draw([ClipRect(Origin, SizeOf(env.own.value))], LocalLayer))]
  {
    assert [] + GlassEffect(env.own, style) == GlassEffect(env.own, style);
    Layered(BehindEffectOf(LocalGlass(style), env), Plain(BehindOps(LocalGlass(style), env)))
  }

  /** The glass element followed by its position callback paints the glass under `inner`. */
  lemma LocalGlassThenTrack(style: GlassStyle, env: Slots, inner: seq<Painted>)
    ensures Paint([LocalGlass(style), Track(OwnRect)], env, inner) == GlassUnder(env, style) + inner
  {
    PaintPair(LocalGlass(style), Track(OwnRect), env, inner);
    TrackPaintsNothing(OwnRect, env, inner);
    ElementPaintCases(LocalGlass(style), env, inner);
    assert Plain(OverOps(LocalGlass(style))) == [];
  }

  /**
   * From API 33 `glassLayer` paints its own layer, clipped to the element's
   * size and drawn through the glass effect, under the element's content; its
   * callback writes the element's rect. Below API 33 it changes nothing.
   */
  lemma GlassLayerPaintsGlass(m: Modifier, sdk: int, style: GlassStyle,
                              env: Slots, inner: seq<Painted>, bounds: Rect, frame: nat)
    ensures Paint(GlassLayer(m, sdk, style), env, inner) ==
              if sdk < LibMirror.ShaderApiLevel then Paint(m, env, inner)
              else Paint(m, env, GlassUnder(env, style) + inner)
    ensures Positions(GlassLayer(m, sdk, style), env, bounds) ==
              if sdk < LibMirror.ShaderApiLevel then Positions(m, env, bounds)
              else Write(Positions(m, env, bounds), OwnRect, bounds)
    ensures SharedEvents(GlassLayer(m, sdk, style), env, frame) == SharedEvents(m, env, frame)
  {
    GlassLayerPaintsGlassPaint(m, sdk, style, env, inner);
    GlassLayerPaintsGlassPositions(m, sdk, style, env, bounds);
    GlassLayerPaintsGlassEvents(m, sdk, style, env, frame);
  }

  /** `GlassLayerPaintsGlass`, what it paints. */
  lemma GlassLayerPaintsGlassPaint(m: Modifier, sdk: int, style: GlassStyle, env: Slots,
                                   inner: seq<Painted>)
    ensures Paint(GlassLayer(m, sdk, style), env, inner) ==
              if sdk < LibMirror.ShaderApiLevel then Paint(m, env, inner)
              else Paint(m, env, GlassUnder(env, style) + inner)
  {
    if sdk >= LibMirror.ShaderApiLevel {
      calc {
        Paint(GlassLayer(m, sdk, style), env, inner);
        { assert GlassLayer(m, sdk, style) == m + [LocalGlass(style), Track(OwnRect)]; PaintAppend(m, [LocalGlass(style), Track(OwnRect)], env, inner); }
        Paint(m, env, Paint([LocalGlass(style), Track(OwnRect)], env, inner));
        { LocalGlassThenTrack(style, env, inner); }
        Paint(m, env, GlassUnder(env, style) + inner);
      }
    }
  }

  /** `GlassLayerPaintsGlass`, which rectangles its callbacks write. */
  lemma GlassLayerPaintsGlassPositions(m: Modifier, sdk: int, style: GlassStyle, env: Slots,
                                       bounds: Rect)
    ensures Positions(GlassLayer(m, sdk, style), env, bounds) ==
              if sdk < LibMirror.ShaderApiLevel then Positions(m, env, bounds)
              else Write(Positions(m, env, bounds), OwnRect, bounds)
  {
    if sdk >= LibMirror.ShaderApiLevel {
      calc {
        Positions(GlassLayer(m, sdk, style), env, bounds);
        { assert GlassLayer(m, sdk, style) == m + [LocalGlass(style)] + [Track(OwnRect)]; }
        Positions(m + [LocalGlass(style)] + [Track(OwnRect)], env, bounds);
        { AppendedTrackPositions(m, [LocalGlass(style)], OwnRect, env, bounds); }
        Write(Positions(m, env, bounds), OwnRect, bounds);
      }
    }
  }

  /** `GlassLayerPaintsGlass`, what it does to the capture buffer. */
  lemma GlassLayerPaintsGlassEvents(m: Modifier, sdk: int, style: GlassStyle, env: Slots,
                                    frame: nat)
    ensures SharedEvents(GlassLayer(m, sdk, style), env, frame) == SharedEvents(m, env, frame)
  {
    if sdk >= LibMirror.ShaderApiLevel {
      calc {
        SharedEvents(GlassLayer(m, sdk, style), env, frame);
        { assert GlassLayer(m, sdk, style) == m + [LocalGlass(style), Track(OwnRect)]; }
        SharedEvents(m + [LocalGlass(style), Track(OwnRect)], env, frame);
        { AppendedQuietEvents(m, [LocalGlass(style), Track(OwnRect)], env, frame); }
        SharedEvents(m, env, frame);
      }
    }
  }

  /** The tinted `glassLayer` paints the tint over the glass layer's painting, on every API level. */
  lemma GlassLayerTintedPaintsTint(m: Modifier, sdk: int, tint: Color, style: GlassStyle,
                                   env: Slots, inner: seq<Painted>)
    ensures Paint(GlassLayerTinted(m, sdk, tint, style), env, inner) ==
              Paint(m, env, Paint(GlassLayer([], sdk, style), env, inner) + [Painted([], Draw([], TintRect(tint)))])
  {
    var n := GlassLayer([], sdk, style);
    assert n == if sdk < LibMirror.ShaderApiLevel then [] else [LocalGlass(style), Track(OwnRect)];
    assert GlassLayerTinted(m, sdk, tint, style) == (m + [ContentThenTint(tint)]) + n;
    PaintAppend(m + [ContentThenTint(tint)], n, env, inner);
    PaintAppend(m, [ContentThenTint(tint)], env, Paint(n, env, inner));
    TintPaint(tint, env, Paint(n, env, inner));
  }

  /** The distortion runs on the captured picture first, then colour enhance, then the blur. */
  lemma GlassEffectOrder<I>(r: Rect, style: GlassStyle, apply: (Stage, I) -> I, input: I)
    ensures var shader := Distort(Dispersion(style.border, style.dispersion, style.distortFactor), SizeOf(r));
            Run(GlassEffect(Some(r), style), apply, input) ==
              apply(Blur(style.blur), apply(Enhance(style.blur != 0.0), apply(shader, input)))
  {
    var shader := Distort(Dispersion(style.border, style.dispersion, style.distortFactor), SizeOf(r));
    var inner := [shader];
    var middle := [Enhance(style.blur != 0.0)];
    var outer := [Blur(style.blur)];
    RunChainEffect(middle, inner, apply, input);
    RunChainEffect(outer, ChainEffect(middle, inner), apply, input);
    assert Run(inner, apply, input) == apply(shader, input);
    assert Run(middle, apply, apply(shader, input)) == apply(Enhance(style.blur != 0.0), apply(shader, input));
  }

  /** With the default style, colour enhance is on, the blur is 7.5 dp, and the shader splits no channels. */
  lemma DefaultStyleGlass(r: Rect)
    ensures GlassEffect(Some(r), DefaultGlassStyle) ==
              [Distort(Dispersion(20.0, 0.0, 0.05), SizeOf(r)), Enhance(true), Blur(7.5)]
  {
  }

  /** A glass consumer: its remembered rect and its own layer. */
  class GlassSurface {
    var rect: Option<Rect>
    const localLayer: CaptureLayer

    /** `remember { mutableStateOf<Rect?>(null) }` and `rememberGraphicsLayer()`. */
    constructor()
      ensures rect == None && fresh(localLayer)
      ensures localLayer.recording == None && localLayer.renderEffect == [] && localLayer.history == []
    {
      rect := None;
      localLayer := new CaptureLayer();
    }

    /** `recordPosition { rect = it }`. */
    method Positioned(r: Rect)
      modifies this
      ensures rect == Some(r)
    {
      rect := Some(r);
    }

    /**
     * The consumer's draw: re-record the local layer from the capture buffer
     * when both rectangles are known, assign the remembered effect in any case,
     * draw the local layer clipped to the consumer's size once that is known,
     * and draw the consumer's own content on top.
     */
    method OnDraw(state: ShaderState, style: GlassStyle, frame: nat) returns (ops: seq<DrawOp>)
      modifies localLayer
      ensures state.rect.Some? && rect.Some? ==> localLayer.recording == Some(Backdrop(state.rect, rect))
      ensures state.rect.None? || rect.None? ==> localLayer.recording == old(localLayer.recording)
      ensures localLayer.renderEffect == GlassEffect(rect, style)
      ensures localLayer.history ==
                old(localLayer.history) +
                (if state.rect.Some? && rect.Some? then [Recorded(Backdrop(state.rect, rect))] else []) +
                [EffectAssigned(GlassEffect(rect, style))]
      ensures ops ==
                (if rect.Some? then [Draw([ClipRect(Origin, SizeOf(rect.value))], LocalLayer)] else []) +
                [Draw([], OwnContent(frame))]
      ensures localLayer.renderEffect == BehindEffectOf(LocalGlass(style), SlotsOf(state, rect))
      ensures ops == BehindOps(LocalGlass(style), SlotsOf(state, rect)) + [Draw([], OwnContent(frame))]
    {
      var effect := GlassEffect(rect, style);
      if state.rect.Some? && rect.Some? {
        var contentRect := state.rect.value;
        var surfaceRect := rect.value;
        var offset := Offset(surfaceRect, contentRect);
        localLayer.Record([Draw([Translate(Neg(offset))], SharedLayer)]);
      }
      localLayer.AssignEffect(effect);
      ops := [];
      if rect.Some? {
        ops := ops + [Draw([ClipRect(Origin, SizeOf(rect.value))], LocalLayer)];
      }
      ops := ops + [Draw([], OwnContent(frame))];
    }
  }
}
