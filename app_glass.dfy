/**
 * The demo app's keyed `glassLayer`: every consumer keeps its rectangle in the
 * shared registry under its own id, and draws the capture buffer through the
 * edge-refraction shader followed by colour enhance.
 */
module AppGlass {
  import opened Options
  import opened Geometry
  import opened Canvas
  import opened Effects
  import opened State
  import opened Modifiers

  /** `Modifier.glassLayer(state, scale, blur, id)`: no API gate. */
  function GlassLayer(m: Modifier, strength: real, blur: real, id: RegionId): (r: Modifier)
    ensures Extends(m, r) && |r| == |m| + 4
    ensures r[|m|] == BlurBy(blur)
    ensures r[|m| + 1].EffectLayer? && r[|m| + 1].sizeFrom == RegistryEntry(id)
    ensures r[|m| + 2] == ShowBackdrop(RegistryEntry(id)) && r[|m| + 3] == Track(RegistryEntry(id))
  {
    m + [BlurBy(blur),
         EffectLayer(EdgeRefraction(RefractionBorder, strength), Some(blur != 0.0), None, RegistryEntry(id)),
         ShowBackdrop(RegistryEntry(id)),
         Track(RegistryEntry(id))]
  }

  /**
   * `glassLayer` called without an id: each call draws a fresh key, so two
   * such calls never share a registry entry.
   */
  method GlassLayerDefaultId(ids: IdSource, m: Modifier, strength: real, blur: real) returns (r: Modifier, id: RegionId)
    requires ids.Valid()
    modifies ids
    ensures ids.Valid()
    ensures id !in old(ids.issued) && ids.issued == old(ids.issued) + {id}
    ensures r == GlassLayer(m, strength, blur, id)
  {
    id := ids.Fresh();
    r := GlassLayer(m, strength, blur, id);
  }

  /**
   * The tinted `glassLayer(state, scale, clipShape, tint, blur)`: clip and tint
   * come first, then the keyed layer under a fresh id, since this overload
   * cannot pass one.
   */
  method GlassLayerTinted(ids: IdSource, m: Modifier, strength: real, clipShape: Shape, tint: Color, blur: real)
      returns (r: Modifier, id: RegionId)
    requires ids.Valid()
    modifies ids
    ensures ids.Valid()
    ensures id !in old(ids.issued) && ids.issued == old(ids.issued) + {id}
    ensures r == GlassLayer(m + [Clip(clipShape), ContentThenTint(tint)], strength, blur, id)
  {
    r, id := GlassLayerDefaultId(ids, m + [Clip(clipShape), ContentThenTint(tint)], strength, blur);
  }

  /** The keyed layer added by `glassLayer` carries exactly the keyed effect. */
  lemma KeyedLayerEffect(strength: real, blur: real, id: RegionId, env: Slots)
    ensures LayerEffectOf(EffectLayer(EdgeRefraction(RefractionBorder, strength), Some(blur != 0.0), None, RegistryEntry(id)), env) ==
              KeyedEffect(env.registry, id, strength, blur)
  {
  }

  /**
   * `glassLayer` paints the capture buffer, offset by the id's registry entry,
   * under the element's content, and both pass through the keyed effect and
   * then the blur; its callback writes the id's entry and no other rectangle.
   */
  lemma GlassLayerShowsRefractedBackdrop(m: Modifier, strength: real, blur: real, id: RegionId,
                                         env: Slots, inner: seq<Painted>, bounds: Rect, frame: nat)
    ensures Paint(GlassLayer(m, strength, blur, id), env, inner) ==
              Paint(m, env, Layered(KeyedEffect(env.registry, id, strength, blur) + [Blur(blur)],
                                    Plain(Backdrop(env.source, Lookup(env.registry, id))) + inner))
    ensures Positions(GlassLayer(m, strength, blur, id), env, bounds) ==
              Write(Positions(m, env, bounds), RegistryEntry(id), bounds)
    ensures SharedEvents(GlassLayer(m, strength, blur, id), env, frame) == SharedEvents(m, env, frame)
  {
    GlassLayerShowsRefractedBackdropPaint(m, strength, blur, id, env, inner);
    GlassLayerShowsRefractedBackdropPositions(m, strength, blur, id, env, bounds);
    GlassLayerShowsRefractedBackdropEvents(m, strength, blur, id, env, frame);
  }

  /** `GlassLayerShowsRefractedBackdrop`, what it paints. */
  lemma GlassLayerShowsRefractedBackdropPaint(m: Modifier, strength: real, blur: real,
                                              id: RegionId, env: Slots, inner: seq<Painted>)
    ensures Paint(GlassLayer(m, strength, blur, id), env, inner) ==
              Paint(m, env, Layered(KeyedEffect(env.registry, id, strength, blur) + [Blur(blur)],
                                    Plain(Backdrop(env.source, Lookup(env.registry, id))) + inner))
  {
    var a := BlurBy(blur);
    var b := EffectLayer(EdgeRefraction(RefractionBorder, strength), Some(blur != 0.0), None, RegistryEntry(id));
    var s := RegistryEntry(id);
    var show := ShowBackdrop(s);
    calc {
      Paint(GlassLayer(m, strength, blur, id), env, inner);
      { LayersThenBackdropPaint(m, a, b, show, s, env, inner); }
      Paint(m, env, Layered(LayerEffectOf(b, env) + LayerEffectOf(a, env), Plain(BehindOps(show, env)) + inner));
      { KeyedLayerEffect(strength, blur, id, env);
        assert LayerEffectOf(a, env) == [Blur(blur)];
        assert BehindOps(show, env) == Backdrop(env.source, Lookup(env.registry, id)); }
      Paint(m, env, Layered(KeyedEffect(env.registry, id, strength, blur) + [Blur(blur)],
                            Plain(Backdrop(env.source, Lookup(env.registry, id))) + inner));
    }
  }

  /** `GlassLayerShowsRefractedBackdrop`, which rectangles its callbacks write. */
  lemma GlassLayerShowsRefractedBackdropPositions(m: Modifier, strength: real, blur: real,
                                                  id: RegionId, env: Slots, bounds: Rect)
    ensures Positions(GlassLayer(m, strength, blur, id), env, bounds) ==
              Write(Positions(m, env, bounds), RegistryEntry(id), bounds)
  {
    var a := BlurBy(blur);
    var b := EffectLayer(EdgeRefraction(RefractionBorder, strength), Some(blur != 0.0), None, RegistryEntry(id));
    var s := RegistryEntry(id);
    var show := ShowBackdrop(s);
    calc {
      Positions(GlassLayer(m, strength, blur, id), env, bounds);
      { assert GlassLayer(m, strength, blur, id) == m + [a, b, show] + [Track(s)]; }
      Positions(m + [a, b, show] + [Track(s)], env, bounds);
      { AppendedTrackPositions(m, [a, b, show], s, env, bounds); }
      Write(Positions(m, env, bounds), s, bounds);
    }
  }

  /** `GlassLayerShowsRefractedBackdrop`, what it does to the capture buffer. */
  lemma GlassLayerShowsRefractedBackdropEvents(m: Modifier, strength: real, blur: real,
                                               id: RegionId, env: Slots, frame: nat)
    ensures SharedEvents(GlassLayer(m, strength, blur, id), env, frame) == SharedEvents(m, env, frame)
  {
    var a := BlurBy(blur);
    var b := EffectLayer(EdgeRefraction(RefractionBorder, strength), Some(blur != 0.0), None, RegistryEntry(id));
    var s := RegistryEntry(id);
    var show := ShowBackdrop(s);
    calc {
      SharedEvents(GlassLayer(m, strength, blur, id), env, frame);
      { assert GlassLayer(m, strength, blur, id) == m + [a, b, show, Track(s)]; }
      SharedEvents(m + [a, b, show, Track(s)], env, frame);
      { AppendedQuietEvents(m, [a, b, show, Track(s)], env, frame); }
      SharedEvents(m, env, frame);
    }
  }

  /** The tinted `glassLayer` paints the tint over the keyed layer's painting. */
  lemma GlassLayerTintedPaintsTint(m: Modifier, strength: real, clipShape: Shape, tint: Color, blur: real, id: RegionId,
                                   env: Slots, inner: seq<Painted>)
    ensures Paint(GlassLayer(m + [Clip(clipShape), ContentThenTint(tint)], strength, blur, id), env, inner) ==
              Paint(m, env, Paint(GlassLayer([], strength, blur, id), env, inner) + [Painted([], Draw([], TintRect(tint)))])
  {
    var prefix := [Clip(clipShape), ContentThenTint(tint)];
    var n := GlassLayer([], strength, blur, id);
    assert GlassLayer(m + prefix, strength, blur, id) == (m + prefix) + n;
    PaintAppend(m + prefix, n, env, inner);
    PaintAppend(m, prefix, env, Paint(n, env, inner));
    TintOver(clipShape, tint, env, Paint(n, env, inner));
  }

  /**
   * The render effect of the keyed layer: nothing for an id absent from the
   * registry, else the refraction shader sized by the entry, then colour
   * enhance, on exactly when the blur radius is not zero.
   */
  function KeyedEffect(rects: map<RegionId, Rect>, id: RegionId, strength: real, blur: real): (c: Chain)
    ensures id !in rects <==> c == []
    ensures id in rects ==>
              c == [Distort(EdgeRefraction(RefractionBorder, strength), SizeOf(rects[id])), Enhance(blur != 0.0)]
  {
    match Lookup(rects, id)
    case None => []
    case Some(r) =>
      ChainEffect([Enhance(blur != 0.0)], ShaderEffect(Some(r), EdgeRefraction(RefractionBorder, strength)))
  }

  /** The refraction shader runs first and colour enhance works on its output. */
  lemma KeyedEffectOrder<I>(rects: map<RegionId, Rect>, id: RegionId, strength: real, blur: real,
                            apply: (Stage, I) -> I, input: I)
    requires id in rects
    ensures var shader := Distort(EdgeRefraction(RefractionBorder, strength), SizeOf(rects[id]));
            Run(KeyedEffect(rects, id, strength, blur), apply, input) ==
              apply(Enhance(blur != 0.0), apply(shader, input))
  {
    var shader := Distort(EdgeRefraction(RefractionBorder, strength), SizeOf(rects[id]));
    RunChainEffect([Enhance(blur != 0.0)], [shader], apply, input);
    assert Run([shader], apply, input) == apply(shader, input);
  }

  /**
   * The keyed layer's draw-behind: nothing unless the source rect and the id's
   * registry entry are both known, else the buffer translated by that entry's offset.
   */
  method DrawBehind(state: ShaderState, id: RegionId) returns (ops: seq<DrawOp>)
    ensures ops == Backdrop(state.rect, Lookup(state.componentRects, id))
    ensures ops == [] <==> state.rect.None? || id !in state.componentRects
    ensures ops == BehindOps(ShowBackdrop(RegistryEntry(id)), SlotsOf(state, None))
  {
    ops := [];
    if state.rect.None? {
      return;
    }
    var contentRect := state.rect.value;
    if id !in state.componentRects {
      return;
    }
    var surfaceRect := state.componentRects[id];
    var offset := Offset(surfaceRect, contentRect);
    ops := [Draw([Translate(Neg(offset))], SharedLayer)];
  }

  /**
   * After a keyed consumer is positioned, its effect is sized by its latest
   * rectangle and its backdrop is aligned to it, whatever other ids wrote before.
   */
  method PositionThenDraw(state: ShaderState, id: RegionId, pos: Vec, size: Vec, strength: real, blur: real)
      returns (effect: Chain, ops: seq<DrawOp>)
    modifies state
    ensures state.componentRects == old(state.componentRects)[id := RectAt(pos, size)]
    ensures effect == [Distort(EdgeRefraction(RefractionBorder, strength), size), Enhance(blur != 0.0)]
    ensures ops == Backdrop(state.rect, Some(RectAt(pos, size)))
  {
    state.Register(id, pos, size);
    effect := KeyedEffect(state.componentRects, id, strength, blur);
    ops := DrawBehind(state, id);
  }
}
