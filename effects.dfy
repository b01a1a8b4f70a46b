/**
 * Render effects as ordered lists of stages. `RenderEffect.createChainEffect(outer,
 * inner)` feeds the result of `inner` to `outer`, so the chain it builds is
 * `inner` followed by `outer`. A runtime shader, the colour-enhance shader and
 * the blur kernel are opaque stage tokens here.
 */
module Effects {
  import opened Options
  import opened Geometry

  /** The uniforms of one of the three runtime shaders; `size` is set separately. */
  datatype Program =
    | MirrorZoom(scale: real)                                         // MIRROR_SHADER_CODE, SHADER_CODE
    | EdgeRefraction(border: real, strength: real)                    // the edge-refraction GLASS_SHADER_CODE, SHADER_CODE_2
    | Dispersion(border: real, dispersion: real, distortFactor: real)  // the dispersion GLASS_SHADER_CODE

  /** One effect in a chain. */
  datatype Stage =
    | Distort(program: Program, size: Vec)   // createRuntimeShaderEffect(shader with `size` = size, "content")
    | Enhance(enabled: bool)                 // enhanceColorShader(enabled)
    | Blur(radius: real)                     // createBlurEffect(radius, radius, CLAMP), radius in dp

  /** The stages of an effect, first applied first; the empty chain is no effect. */
  type Chain = seq<Stage>

  /** `createChainEffect(outer, inner)`. */
  function ChainEffect(outer: Chain, inner: Chain): (c: Chain)
    ensures |c| == |inner| + |outer|
    ensures forall i :: 0 <= i < |inner| ==> c[i] == inner[i]
    ensures forall i :: 0 <= i < |outer| ==> c[|inner| + i] == outer[i]
  {
    inner + outer
  }

  /** The result of running the stages of `c` in order on `input`, each stage acting as `apply` says. */
  function Run<I>(c: Chain, apply: (Stage, I) -> I, input: I): I
    decreases |c|
  {
    if c == [] then input else Run(c[1..], apply, apply(c[0], input))
  }

  /** Running two chains back to back is running their concatenation. */
  lemma {:induction false} RunAppend<I>(a: Chain, b: Chain, apply: (Stage, I) -> I, input: I)
    ensures Run(a + b, apply, input) == Run(b, apply, Run(a, apply, input))
    decreases |a|
  {
    if a == [] {
      assert a + b == b;
    } else {
      assert (a + b)[0] == a[0];
      assert (a + b)[1..] == a[1..] + b;
      RunAppend(a[1..], b, apply, apply(a[0], input));
    }
  }

  /** The meaning of `createChainEffect`: `inner` runs first and its output is the source of `outer`. */
  lemma RunChainEffect<I>(outer: Chain, inner: Chain, apply: (Stage, I) -> I, input: I)
    ensures Run(ChainEffect(outer, inner), apply, input) == Run(outer, apply, Run(inner, apply, input))
  {
    RunAppend(inner, outer, apply, input);
  }

  /** Nesting chain effects either way gives the same chain. */
  lemma ChainEffectAssociative(a: Chain, b: Chain, c: Chain)
    ensures ChainEffect(a, ChainEffect(b, c)) == ChainEffect(ChainEffect(a, b), c)
  {
    assert (c + b) + a == c + (b + a);
  }

  /**
   * `rect?.let { createRuntimeShaderEffect(shader with size = rect's size) }`:
   * no effect until the rectangle is known.
   */
  function ShaderEffect(rect: Option<Rect>, program: Program): (c: Chain)
    ensures rect.None? <==> c == []
    ensures rect.Some? ==> c == [Distort(program, SizeOf(rect.value))]
  {
    match rect
    case None => []
    case Some(r) => [Distort(program, SizeOf(r))]
  }

  /** The glass style: blur radius in dp and the dispersion shader's uniforms. */
  datatype GlassStyle = GlassStyle(blur: real, border: real, dispersion: real, distortFactor: real)

  /** `GlassStyle()`: blur 7.5 dp, border 20, dispersion 0, distortFactor 0.05. */
  const DefaultGlassStyle := GlassStyle(7.5, 20.0, 0.0, 0.05)

  /**
   * The glass consumer's remembered render effect, `createChainEffect(blur, createChainEffect(
   * enhance, shader))`, or none while the consumer's rect is unknown.
   */
  function GlassEffect(rect: Option<Rect>, style: GlassStyle): (c: Chain)
    ensures rect.None? <==> c == []
    ensures rect.Some? ==>
              c == [Distort(Dispersion(style.border, style.dispersion, style.distortFactor), SizeOf(rect.value)),
                    Enhance(style.blur != 0.0),
                    Blur(style.blur)]
  {
    match rect
    case None => []
    case Some(r) =>
      var shader := ShaderEffect(rect, Dispersion(style.border, style.dispersion, style.distortFactor));
      var chained := ChainEffect([Enhance(style.blur != 0.0)], shader);
      ChainEffect([Blur(style.blur)], chained)
  }

  /** The edge-refraction border every caller of that shader passes. */
  const RefractionBorder := 75.0
}
