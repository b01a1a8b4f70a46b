# Liquid glass: a Dafny model

This project models the core of an Android "liquid glass" library and its demo app.
A *source* element records its own content into a shared off-screen capture buffer (a `GraphicsLayer`).
*Consumer* elements elsewhere on screen draw that buffer behind themselves, shifted by the offset between the two elements, and pass it through a render-effect chain.
The chain is built from runtime shaders (mirror zoom, edge refraction, glass with chromatic dispersion), a colour-enhance shader and a blur.

The model has three layers:

- **Per-pixel shader programs** (`MirrorZoom`, `EdgeRefraction`, `Dispersion`). The AGSL `main` functions are pure Dafny functions from a pixel and the uniforms to the coordinates the shader samples. Coordinates are `real` pairs. `content.eval` is a function parameter where the colour assembly matters.
- **Shared state and backdrop alignment** (`Canvas`, `State`).
  - `ShaderState` is a class holding the capture layer, the source rect `rect`, a single consumer's `sRect`, and the keyed registry `componentRects`.
  - Each consumer's remembered rect is a `Surface` or `GlassSurface` object.
  - Position callbacks, source draws and consumer draws are explicit method calls.
  - A draw returns the draw operations it issues. `Canvas.LayerPoint` says which point of the drawn picture lands on a given canvas point.
- **Modifier chains and effect chains** (`Modifiers`, `Effects`, and one module per source file).
  - A `Modifier` is the list of elements appended in call order; an API-level gate returns its input unchanged.
  - A render effect is a list of stages applied first to last. `createChainEffect(outer, inner)` is `inner` followed by `outer`, and `Effects.RunChainEffect` proves that this is its meaning.

Module per source file:

| module | source file |
|---|---|
| `LibMirror` | mirror/src/main/java/com/xah/mirror/shader/Mirror.kt |
| `LibGlass` | mirror/src/main/java/com/xah/mirror/shader/Glass.kt |
| `LibBlur` | mirror/src/main/java/com/xah/mirror/shader/Blur.kt |
| `AppGlass` | app/src/main/java/com/example/shader/ui/style/shader/Glass.kt |
| `AppBlur` | app/src/main/java/com/example/shader/ui/style/shader/Blur.kt |
| `AppShader` | app/src/main/java/com/example/shader/util/Shader.kt |

The shader strings `SHADER_CODE` and `SHADER_CODE_2` in the app's `util/Shader.kt` are textually the same programs as the library's `MIRROR_SHADER_CODE` and the app's edge-refraction `GLASS_SHADER_CODE`. Each program is defined once, in `MirrorZoom` and in `EdgeRefraction`.

## Model

| member | source | states |
|---|---|---|
| Geometry.RectAt | app/src/main/java/com/example/shader/util/Shader.kt:179-188 | the rect built from `positionInWindow` and the measured size has that top-left, `right - left = width` and `bottom - top = height` |
| Geometry.ClampBounds | mirror/src/main/java/com/xah/mirror/shader/Glass.kt:137 | `clamp(x, lo, hi)` lies in `[lo, hi]`, and equals `x` exactly when `x` is already there |
| Geometry.ClampVecInBox | mirror/src/main/java/com/xah/mirror/shader/Glass.kt:133 | the component-wise clamp of a point lands in the box, and is the point itself exactly when the point is in the box |
| Geometry.DirectionIsUnit | mirror/src/main/java/com/xah/mirror/shader/Glass.kt:152 | `normalize(v)` has unit length for every non-zero `v` |
| Geometry.ScaledDirection | app/src/main/java/com/example/shader/ui/style/shader/Glass.kt:111-113 | `normalize(v) * k` has squared length `k²`, and its dot product with `v` is `k·|v|` |
| Canvas.LayerPoint | app/src/main/java/com/example/shader/ui/style/shader/Blur.kt:45-49 | the canvas point `q` under a list of `translate`/`clipRect` transforms shows picture point `q - t` per translation, and nothing once a clip, tested in the space translated so far, excludes it |
| Canvas.Backdrop | mirror/src/main/java/com/xah/mirror/shader/Mirror.kt:105-118 | a consumer's backdrop is empty exactly when the source rect or the consumer rect is unknown; otherwise it is one draw of the shared layer |
| Canvas.BackdropAligned | mirror/src/main/java/com/xah/mirror/shader/Mirror.kt:109-117 | the consumer-local point `q` shows buffer point `q + offset`, and that buffer point has the same screen position as `q` |
| Canvas.BackdropExample | mirror/src/main/java/com/xah/mirror/shader/Blur.kt:42-46 | source (0,0,400,800) and consumer (20,20,220,220) give offset (20,20); the consumer's pixels show buffer region (20,20)-(220,220) |
| Canvas.ClippedBackdrop | app/src/main/java/com/example/shader/ui/style/shader/Blur.kt:41-50 | the app blur backdrop is empty exactly when a rect is missing; otherwise it translates and then clips |
| Canvas.ClippedBackdropShows | app/src/main/java/com/example/shader/ui/style/shader/Blur.kt:45-49 | with the clip after the translation, point `q` shows `q + offset` only where `q + offset` is inside `(0,0)-(w,h)` |
| Canvas.ClippedBackdropHidesInsidePoint | app/src/main/java/com/example/shader/ui/style/shader/Blur.kt:45-49 | source (0,0,400,800), consumer (20,20,220,220): the consumer's own pixel (190,190) shows nothing |
| Canvas.SurfaceClippedBackdrop | app/src/main/java/com/example/shader/ui/style/shader/Blur.kt:45-49 | the clip-first backdrop is empty exactly when a rect is missing |
| Canvas.SurfaceClippedBackdropCovers | app/src/main/java/com/example/shader/ui/style/shader/Blur.kt:45-49 | with the clip first, every pixel of the consumer shows its aligned buffer point, and no other pixel shows anything |
| MirrorZoom.FoldAxis | mirror/src/main/java/com/xah/mirror/shader/Mirror.kt:144-148 | the shader's reflection on one axis, in its order: a negative coordinate is negated, then a coordinate above `size` becomes `2·size - c` |
| MirrorZoom.Fold | mirror/src/main/java/com/xah/mirror/shader/Mirror.kt:144-148 | the reflection applied to x against `size.x` and to y against `size.y` |
| MirrorZoom.Zoomed | mirror/src/main/java/com/xah/mirror/shader/Mirror.kt:136-141 | `center + (fragCoord - center) / scale` with `center = size · 0.5` |
| MirrorZoom.Sample | mirror/src/main/java/com/xah/mirror/shader/Mirror.kt:135-150 | the point `main` passes to `content.eval`: the zoomed coordinate after one fold |
| MirrorZoom.FoldAxisKeepsInRange | mirror/src/main/java/com/xah/mirror/shader/Mirror.kt:144-148 | a coordinate already in `[0, size]` is not changed by the fold |
| MirrorZoom.FoldAxisReflects | mirror/src/main/java/com/xah/mirror/shader/Mirror.kt:144-148 | `[-size, 0)` folds to `-x` and `(size, 2·size]` folds to `2·size - x`; both results lie in `[0, size]` |
| MirrorZoom.FoldAxisRange | mirror/src/main/java/com/xah/mirror/shader/Mirror.kt:144-148 | the single fold lands in `[0, size]` if and only if the coordinate was in `[-2·size, 2·size]` |
| MirrorZoom.UnitScaleIsIdentity | mirror/src/main/java/com/xah/mirror/shader/Mirror.kt:136-148 | with `scale = 1` every pixel of the surface samples itself |
| MirrorZoom.CentreIsFixed | mirror/src/main/java/com/xah/mirror/shader/Mirror.kt:136-141 | for every non-zero scale the centre pixel samples itself |
| MirrorZoom.ZoomAxisBounds | mirror/src/main/java/com/xah/mirror/shader/Mirror.kt:136-141 | on one axis, a pixel of `[0, s]` zooms into `[-s, 2s]` for `scale >= 1/3`, and into `[0, s]` for `scale >= 1` |
| MirrorZoom.ZoomInNeedsNoFold | mirror/src/main/java/com/xah/mirror/shader/Mirror.kt:136-148 | for `scale >= 1` the zoomed coordinate of every surface pixel is in range, so no fold fires |
| MirrorZoom.ZoomOutStaysInside | mirror/src/main/java/com/xah/mirror/shader/Mirror.kt:136-148 | for `scale >= 1/3` every surface pixel samples a point of the surface |
| MirrorZoom.StrongZoomOutLeavesSurface | mirror/src/main/java/com/xah/mirror/shader/Mirror.kt:136-148 | size 200, scale 0.25, pixel (200,100) zooms to x = 500 and folds to x = -100, outside the surface |
| MirrorZoom.AxesAreIndependent | mirror/src/main/java/com/xah/mirror/shader/Mirror.kt:144-148 | the sampled x depends only on `fragCoord.x` and `size.x`, and likewise for y |
| MirrorZoom.ZoomExample | mirror/src/main/java/com/xah/mirror/shader/Mirror.kt:136-148 | size 200, scale 2, pixel (0,0) samples (50,50) with no fold |
| EdgeRefraction.EdgeAmount | app/src/main/java/com/example/shader/ui/style/shader/Glass.kt:105-106 | the smallest of the distances to the four edges, negative off the surface |
| EdgeRefraction.EdgeFactor | app/src/main/java/com/example/shader/ui/style/shader/Glass.kt:110 | `1 - edgeAmount / border` |
| EdgeRefraction.Refracted | app/src/main/java/com/example/shader/ui/style/shader/Glass.kt:102-114 | `uv` before the fold: the pixel itself unless `edgeAmount < border`, else the pixel moved by `border·strength·edgeFactor` along `normalize(fragCoord - size·0.5)` |
| EdgeRefraction.Sample | app/src/main/java/com/example/shader/ui/style/shader/Glass.kt:101-122 | the point passed to `content.eval`: the refracted `uv` after the same one-shot fold as mirror zoom |
| EdgeRefraction.EdgeAmountOnSurface | app/src/main/java/com/example/shader/ui/style/shader/Glass.kt:105-106 | the edge distance is non-negative exactly on the surface |
| EdgeRefraction.InteriorUndisplaced | app/src/main/java/com/example/shader/ui/style/shader/Glass.kt:105-120 | a pixel at least `border` from every edge keeps `uv = fragCoord`, before and after the fold |
| EdgeRefraction.EdgeFactorInBand | app/src/main/java/com/example/shader/ui/style/shader/Glass.kt:109-110 | inside the band `0 <= edgeAmount < border`, `edgeFactor` lies in `(0, 1]` and is 1 on the edge |
| EdgeRefraction.DisplacementFallsLinearly | app/src/main/java/com/example/shader/ui/style/shader/Glass.kt:110-113 | the displacement `border·strength·edgeFactor` equals `strength·(border - edgeAmount)`, so it is zero at the band's inner edge |
| EdgeRefraction.ZeroStrengthUndisplaced | app/src/main/java/com/example/shader/ui/style/shader/Glass.kt:109-113 | `strength = 0` moves no pixel |
| EdgeRefraction.BandDisplacement | app/src/main/java/com/example/shader/ui/style/shader/Glass.kt:109-114 | in the band, `uv` is the pixel moved by `border·strength·edgeFactor` along `normalize(fragCoord - center)` |
| EdgeRefraction.DisplacementIsOutward | app/src/main/java/com/example/shader/ui/style/shader/Glass.kt:111-113 | the displacement has length `|k|` with `k = border·strength·edgeFactor`; its dot product with `fragCoord - center` is `k·|fragCoord - center|`, so it points away from the centre when `k >= 0` |
| EdgeRefraction.CentreUndisplaced | app/src/main/java/com/example/shader/ui/style/shader/Glass.kt:111-113 | a pixel at the centre has no direction and is not moved |
| EdgeRefraction.RefractionExample | app/src/main/java/com/example/shader/ui/style/shader/Glass.kt:101-122 | size 200, border 50, strength 0.5, pixel (10,100): edgeAmount 10, edgeFactor 0.8, `uv` = (-10,100) before the fold and (10,100) after it |
| Dispersion.Nearest | mirror/src/main/java/com/xah/mirror/shader/Glass.kt:123-133 | `clamp(fragCoord, innerMin, innerMax)` with `innerMin = (border, border)` and `innerMax = size - innerMin` |
| Dispersion.EdgeFactor | mirror/src/main/java/com/xah/mirror/shader/Glass.kt:136-137 | `clamp(dist / border, 0, 1)` |
| Dispersion.Mirrored | mirror/src/main/java/com/xah/mirror/shader/Glass.kt:140 | `2·nearest - fragCoord` |
| Dispersion.Distorted | mirror/src/main/java/com/xah/mirror/shader/Glass.kt:143-149 | the mirrored point plus `(center - fragCoord)·distortFactor·edgeFactor` |
| Dispersion.Sample | mirror/src/main/java/com/xah/mirror/shader/Glass.kt:122-169 | a pixel of the inclusive main body passes through; any other pixel gets red, green and blue points `clamp(distorted ± dir·dispersion·0.5)` and `clamp(distorted)`, with the zero direction when `fragCoord = nearest`, and an alpha point at the unclamped distorted point |
| Dispersion.Shade | mirror/src/main/java/com/xah/mirror/shader/Glass.kt:129-171 | the colour is `content` at the pass-through point, or the red, green, blue and alpha channels each read at its own point |
| Dispersion.InteriorPassesThrough | mirror/src/main/java/com/xah/mirror/shader/Glass.kt:123-130 | a pixel passes through, as `content.eval(fragCoord)`, if and only if it is in the inclusive inner box |
| Dispersion.NonPositiveBorderPassesThrough | mirror/src/main/java/com/xah/mirror/shader/Glass.kt:123-130 | with `border <= 0`, as the border slider allows, every pixel of the surface is in the main body and shows `content.eval(fragCoord)`; no division happens |
| Dispersion.NearestInInner | mirror/src/main/java/com/xah/mirror/shader/Glass.kt:133 | when `2·border <= size`, `nearest` lies in the inner box, and equals the pixel exactly for interior pixels |
| Dispersion.MirroredAxisInside | mirror/src/main/java/com/xah/mirror/shader/Glass.kt:140 | on one axis, `2·clamp(x) - x` of a point of `[0, s]` lies in `[b, s - b]` when `3b <= s` |
| Dispersion.MirroredInside | mirror/src/main/java/com/xah/mirror/shader/Glass.kt:133-140 | on a surface at least three borders wide and high, every pixel's mirror image lies in the inner box |
| Dispersion.EdgeFactorUnit | mirror/src/main/java/com/xah/mirror/shader/Glass.kt:137 | `edgeFactor` lies in `[0, 1]`, and is `dist / border` within one border of the inner box |
| Dispersion.ZeroDistortIsMirror | mirror/src/main/java/com/xah/mirror/shader/Glass.kt:140-149 | with `distortFactor = 0` the distorted point is the mirror image `2·nearest - fragCoord` |
| Dispersion.ChannelsClamped | mirror/src/main/java/com/xah/mirror/shader/Glass.kt:152-169 | outside the interior, the red, green and blue points lie in the inner box; green is the clamped distorted point; alpha is read at the unclamped distorted point |
| Dispersion.ZeroDispersionSinglePoint | mirror/src/main/java/com/xah/mirror/shader/Glass.kt:156-163 | with `dispersion = 0` the red, green and blue sample points are the same |
| Dispersion.ZeroDispersionShade | mirror/src/main/java/com/xah/mirror/shader/Glass.kt:156-171 | with `dispersion = 0` the pixel's r, g, b come from one `content` read, and alpha from the unclamped distorted point |
| Effects.ChainEffect | mirror/src/main/java/com/xah/mirror/shader/Glass.kt:73-74 | `createChainEffect(outer, inner)` lists all of `inner`'s stages, in order, before all of `outer`'s |
| Effects.Run | mirror/src/main/java/com/xah/mirror/shader/Glass.kt:67-74 | a chain runs its stages in order, each on the previous stage's output; this is the meaning `RunAppend` and `RunChainEffect` relate `createChainEffect` to |
| Effects.RunAppend | mirror/src/main/java/com/xah/mirror/shader/Glass.kt:73-74 | running a concatenated chain is running its first part and feeding the result to the second |
| Effects.RunChainEffect | mirror/src/main/java/com/xah/mirror/shader/Glass.kt:73-74 | the result of `inner` is the source bitmap of `outer` |
| Effects.ChainEffectAssociative | mirror/src/main/java/com/xah/mirror/shader/Glass.kt:73-74 | nesting `createChainEffect` to the left or to the right gives the same chain |
| Effects.ShaderEffect | mirror/src/main/java/com/xah/mirror/shader/Mirror.kt:46-54 | `rect?.let { shader effect }` is no effect while the rect is unknown, else one shader stage sized by the rect |
| State.Lookup | app/src/main/java/com/example/shader/ui/style/shader/Glass.kt:52 | `componentRects[id]` is present exactly when the id has an entry, and is that entry |
| State.CaptureLayer.constructor | mirror/src/main/java/com/xah/mirror/shader/Glass.kt:55 | a fresh layer has no recording, no effect and no history |
| State.CaptureLayer.Record | mirror/src/main/java/com/xah/mirror/shader/Blur.kt:74-76 | `record` replaces the display list, keeps the effect, and appends to the history |
| State.CaptureLayer.AssignEffect | mirror/src/main/java/com/xah/mirror/shader/Blur.kt:72 | `renderEffect =` replaces the effect, keeps the display list, and appends to the history |
| State.ShaderState.constructor | app/src/main/java/com/example/shader/util/Shader.kt:200-206 | a new state has `rect == null`, `sRect == null` and an empty registry |
| State.ShaderState.SourcePositioned | app/src/main/java/com/example/shader/util/Shader.kt:111-113 | source positioning sets `rect` to `boundsInRoot` and nothing else |
| State.ShaderState.ConsumerPositioned | app/src/main/java/com/example/shader/util/Shader.kt:179-188 | consumer positioning sets `sRect` with `right - left = width` and `bottom - top = height`, and nothing else |
| State.ShaderState.Register | app/src/main/java/com/example/shader/ui/style/shader/Glass.kt:81-90 | positioning writes `componentRects[id]` unconditionally (last write wins) and keeps every other entry |
| State.Surface.constructor | mirror/src/main/java/com/xah/mirror/shader/Mirror.kt:89 | a consumer's remembered rect starts as null |
| State.Surface.Positioned | mirror/src/main/java/com/xah/mirror/shader/Mirror.kt:120-122 | `recordPosition { rect = it }` stores the rect |
| State.Surface.DrawBackdrop | mirror/src/main/java/com/xah/mirror/shader/Blur.kt:37-48 | the draw returns early while a rect is unknown, else draws the shared layer translated by `-(surface.topLeft - content.topLeft)`; the same code is `mirrorLayer`'s draw-behind |
| State.IdSource.constructor | app/src/main/java/com/example/shader/ui/style/shader/Glass.kt:47 | no key has been handed out yet |
| State.IdSource.Fresh | app/src/main/java/com/example/shader/ui/style/shader/Glass.kt:47 | each key handed out differs from every earlier one |
| Modifiers.Write | mirror/src/main/java/com/xah/mirror/shader/Mirror.kt:120-122 | a position callback writes its own rectangle, and every other rectangle keeps its value |
| Modifiers.TrackPaintsNothing | mirror/src/main/java/com/xah/mirror/shader/Mirror.kt:120-122 | a position callback paints nothing |
| Modifiers.PaintAppend | mirror/src/main/java/com/xah/mirror/shader/Mirror.kt:91-122 | in a chain, the earlier elements wrap everything the later elements paint |
| Modifiers.PositionsAppend | mirror/src/main/java/com/xah/mirror/shader/Mirror.kt:91-122 | the callbacks of a chain report in chain order |
| Modifiers.SharedEventsAppend | mirror/src/main/java/com/xah/mirror/shader/Blur.kt:56-80 | when the content is drawn, the later elements of a chain act on the capture buffer before the earlier ones |
| Modifiers.LayeredTwice | mirror/src/main/java/com/xah/mirror/shader/Mirror.kt:92-104 | a `.blur` placed before a `graphicsLayer` effect runs after it: two nested layers act as one with the inner effect first |
| Modifiers.TintPaint | mirror/src/main/java/com/xah/mirror/util/mask.kt:38-46 | draw-content-then-`drawRect(tint)` paints the tint over everything inside it, outside any layer effect |
| Modifiers.ClipPaint | mirror/src/main/java/com/xah/mirror/shader/Mirror.kt:71 | `.clip(shape)` leaves the painting as it is (the outline is not modelled) |
| LibMirror.ScaleMirror | mirror/src/main/java/com/xah/mirror/shader/Mirror.kt:31-60 | `scaleMirror` only appends, and leaves the modifier unchanged if and only if SDK < 33 or `scale == 1` |
| LibMirror.ScaleMirrorDefaultIsIdentity | mirror/src/main/java/com/xah/mirror/shader/Mirror.kt:31-35 | with the default arguments `scaleMirror()` is the identity on every API level |
| LibMirror.ScaleMirrorZooms | mirror/src/main/java/com/xah/mirror/shader/Mirror.kt:31-60 | from API 33 with `scale != 1`, everything the element paints goes through the zoom shader sized by its own rect, which its callback writes; otherwise nothing changes; the buffer is never touched |
| LibMirror.MirrorLayer | mirror/src/main/java/com/xah/mirror/shader/Mirror.kt:80-124 | `mirrorLayer` is unchanged exactly below SDK 33; otherwise it starts with `.blur(blur)` and ends with the position callback |
| LibMirror.MirrorLayerTinted | mirror/src/main/java/com/xah/mirror/shader/Mirror.kt:63-78 | the clip and the content-then-tint draw are applied on every API level, ahead of the mirror layer |
| LibMirror.MirrorLayerTintedPaintsTint | mirror/src/main/java/com/xah/mirror/shader/Mirror.kt:63-78 | the tint is painted over the whole mirror layer's painting, outside its effects, on every API level |
| LibMirror.MirrorEffect | mirror/src/main/java/com/xah/mirror/shader/Mirror.kt:94-102 | the layer's effect is absent while its rect is unknown, else the zoom shader sized by the rect |
| LibMirror.ZoomLayerEffect | mirror/src/main/java/com/xah/mirror/shader/Mirror.kt:93-104 | the zoom layer carries exactly the mirror effect |
| LibMirror.MirrorLayerShowsZoomedBackdrop | mirror/src/main/java/com/xah/mirror/shader/Mirror.kt:80-124 | from API 33 the offset backdrop is painted under the content and both go through the zoom shader and then the blur; the callback writes the element's rect; below API 33 nothing changes |
| LibMirror.MirrorLayerDraw | mirror/src/main/java/com/xah/mirror/shader/Mirror.kt:105-118 | `mirrorLayer` draws nothing behind while either rect is missing, else the offset backdrop |
| LibGlass.GlassLayer | mirror/src/main/java/com/xah/mirror/shader/Glass.kt:46-110 | `glassLayer` is unchanged exactly below SDK 33 |
| LibGlass.GlassLayerTinted | mirror/src/main/java/com/xah/mirror/shader/Glass.kt:37-44 | the tint mask is applied on every API level, ahead of the glass layer |
| LibGlass.GlassLayerTintedPaintsTint | mirror/src/main/java/com/xah/mirror/shader/Glass.kt:36-44 | the tint is painted over the glass layer's painting on every API level |
| LibGlass.GlassUnder | mirror/src/main/java/com/xah/mirror/shader/Glass.kt:95-101 | the glass draws nothing of its own while its rect is unknown, else its local layer clipped to its size through the glass effect |
| LibGlass.LocalGlassThenTrack | mirror/src/main/java/com/xah/mirror/shader/Glass.kt:78-108 | the glass draw and its position callback paint the glass under the content |
| LibGlass.GlassLayerPaintsGlass | mirror/src/main/java/com/xah/mirror/shader/Glass.kt:46-110 | from API 33 the glass is painted under the content and the callback writes the element's rect; below API 33 nothing changes; the shared buffer is never touched |
| Effects.GlassEffect | mirror/src/main/java/com/xah/mirror/shader/Glass.kt:57-75 | the remembered effect is null while the rect is unknown, else the dispersion shader, then enhance (on iff `blur != 0`), then the blur |
| LibGlass.GlassEffectOrder | mirror/src/main/java/com/xah/mirror/shader/Glass.kt:67-74 | the distortion runs first on the captured picture, enhance runs on its output, and the blur runs last |
| LibGlass.DefaultStyleGlass | mirror/src/main/java/com/xah/mirror/shader/Glass.kt:29-34 | the default style gives border 20, dispersion 0, distortFactor 0.05, enhance on and a 7.5 dp blur |
| LibGlass.GlassSurface.constructor | mirror/src/main/java/com/xah/mirror/shader/Glass.kt:54-55 | a glass consumer starts with no rect and its own layer |
| LibGlass.GlassSurface.Positioned | mirror/src/main/java/com/xah/mirror/shader/Glass.kt:106-108 | the position callback stores the rect |
| LibGlass.GlassSurface.OnDraw | mirror/src/main/java/com/xah/mirror/shader/Glass.kt:78-104 | the local layer is re-recorded from the offset buffer only when both rects are known; its effect is assigned on every draw; it is drawn clipped to the consumer's size once that is known; the content is drawn last |
| LibBlur.BlurLayer | mirror/src/main/java/com/xah/mirror/shader/Blur.kt:30-53 | `blurLayer` has no API gate: it appends the backdrop draw and the position callback |
| LibBlur.BlurLayerShowsBackdrop | mirror/src/main/java/com/xah/mirror/shader/Blur.kt:30-53 | the offset backdrop is painted under the content, the callback writes the consumer's rect, and the buffer is left alone |
| LibBlur.BlurSource | mirror/src/main/java/com/xah/mirror/shader/Blur.kt:56-80 | `blurSource` is unchanged exactly below SDK 32, and otherwise ends by tracking `state.rect` |
| LibBlur.BlurSourceCaptures | mirror/src/main/java/com/xah/mirror/shader/Blur.kt:56-80 | the source paints its content unchanged; from API 32 its callback writes `state.rect` and each draw assigns the effect to the buffer and then records the content; below API 32 nothing happens |
| LibBlur.SourceEffect | mirror/src/main/java/com/xah/mirror/shader/Blur.kt:68-70 | `createChainEffect(enhance, blur)` is the blur followed by enhance |
| LibBlur.SourceEffectOrder | mirror/src/main/java/com/xah/mirror/shader/Blur.kt:59-70 | blur runs first and enhance works on its result; `enhanceColor` defaults to false |
| LibBlur.BlurSourceDraw | mirror/src/main/java/com/xah/mirror/shader/Blur.kt:65-76 | the source draws its content, then assigns the effect to the shared layer, then records; the effect lives on the shared buffer |
| AppBlur.BlurLayer | app/src/main/java/com/example/shader/ui/style/shader/Blur.kt:31-56 | the app `blurLayer` clips to its shape, then draws the clipped backdrop, then tracks its rect |
| AppBlur.BlurLayerShowsClippedBackdrop | app/src/main/java/com/example/shader/ui/style/shader/Blur.kt:31-56 | the translated-then-clipped backdrop is painted under the content, the callback writes the consumer's rect, and the buffer is left alone |
| AppBlur.BlurLayerDraw | app/src/main/java/com/example/shader/ui/style/shader/Blur.kt:40-51 | nothing is drawn while either rect is missing; otherwise `translate(-offset)` then `clipRect(0, 0, w, h)`, in that order |
| AppBlur.BlurSource | app/src/main/java/com/example/shader/ui/style/shader/Blur.kt:59-79 | the app `blurSource` has no API gate |
| AppBlur.BlurSourceCaptures | app/src/main/java/com/example/shader/ui/style/shader/Blur.kt:59-79 | the source paints its content unchanged, its callback writes `state.rect`, and each draw records the content and then assigns the effect |
| AppBlur.SourceEffect | app/src/main/java/com/example/shader/ui/style/shader/Blur.kt:71-73 | the chain is the blur followed by enhance, with enhance on iff `blur != 0` |
| AppBlur.SourceEffectOrder | app/src/main/java/com/example/shader/ui/style/shader/Blur.kt:71-73 | blur runs first; enhance is enabled if and only if the radius is not zero |
| AppBlur.BlurSourceDraw | app/src/main/java/com/example/shader/ui/style/shader/Blur.kt:64-76 | the source draws its content, then records the layer, then sets its effect |
| AppGlass.GlassLayer | app/src/main/java/com/example/shader/ui/style/shader/Glass.kt:43-90 | the keyed `glassLayer` has no API gate: blur, then the effect layer sized by `componentRects[id]`, then the backdrop and the position callback for that id |
| AppGlass.GlassLayerTinted | app/src/main/java/com/example/shader/ui/style/shader/Glass.kt:26-41 | the tinted overload takes no id: it draws a fresh key, as the default `UUID` does, and applies clip and content-then-tint ahead of the keyed layer |
| AppGlass.GlassLayerTintedPaintsTint | app/src/main/java/com/example/shader/ui/style/shader/Glass.kt:26-41 | the tint is painted over the keyed layer's painting |
| AppGlass.GlassLayerDefaultId | app/src/main/java/com/example/shader/ui/style/shader/Glass.kt:47 | a call without an id gets a key no earlier call got, so calls never share a registry entry |
| AppGlass.KeyedLayerEffect | app/src/main/java/com/example/shader/ui/style/shader/Glass.kt:51-65 | the keyed effect layer carries exactly the keyed effect |
| AppGlass.GlassLayerShowsRefractedBackdrop | app/src/main/java/com/example/shader/ui/style/shader/Glass.kt:43-90 | the backdrop offset by `componentRects[id]` is painted under the content, both go through the keyed effect and then the blur, and the callback writes that id's entry only |
| AppGlass.KeyedEffect | app/src/main/java/com/example/shader/ui/style/shader/Glass.kt:51-65 | no effect for an id absent from the registry; otherwise refraction with border 75 and `strength = scale`, sized by the entry, then enhance (on iff `blur != 0`) |
| AppGlass.KeyedEffectOrder | app/src/main/java/com/example/shader/ui/style/shader/Glass.kt:58-62 | the refraction shader runs first and enhance runs on its output |
| AppGlass.DrawBehind | app/src/main/java/com/example/shader/ui/style/shader/Glass.kt:66-79 | nothing is drawn unless `state.rect` and `componentRects[id]` are both known; otherwise the buffer is translated by that entry's offset |
| AppGlass.PositionThenDraw | app/src/main/java/com/example/shader/ui/style/shader/Glass.kt:51-90 | once an id is positioned, its effect is sized by its latest rect and its backdrop is aligned to that rect |
| AppShader.ShaderSelf | app/src/main/java/com/example/shader/util/Shader.kt:54-90 | `shaderSelf` is the identity if and only if `scale == 1f`; it has no API gate |
| AppShader.ShaderSelfZooms | app/src/main/java/com/example/shader/util/Shader.kt:54-90 | with `scale != 1` everything the element paints goes through the zoom shader sized by its own rect, which its callback writes; with `scale == 1` nothing changes |
| AppShader.ShaderSource | app/src/main/java/com/example/shader/util/Shader.kt:94-113 | `shaderSource` appends the recording draw and the tracking of `state.rect` |
| AppShader.ShaderSourceCaptures | app/src/main/java/com/example/shader/util/Shader.kt:94-113 | the source paints its content unchanged, its callback writes `state.rect`, and a draw records the content clipped to its size once `state.rect` is known, and nothing before |
| AppShader.ShaderSourceDraw | app/src/main/java/com/example/shader/util/Shader.kt:96-110 | the source always draws its content; it records only when `state.rect` is known, clipped to `(0, 0, w, h)` of that rect; it never sets the buffer's effect |
| AppShader.RecordedSourceIsClipped | app/src/main/java/com/example/shader/util/Shader.kt:102-108 | the recorded picture shows the content on `[0, w] x [0, h]` and nothing elsewhere |
| AppShader.LayerProgram | app/src/main/java/com/example/shader/util/Shader.kt:143-158 | `isMirror` selects `SHADER_CODE` with `scale`; otherwise `SHADER_CODE_2` with border 75 and `strength = scale` |
| AppShader.LayerProgramAtRest | app/src/main/java/com/example/shader/util/Shader.kt:214-258 | the mirror program at `scale = 1` and the refraction program at `strength = 0` sample every surface pixel at itself |
| AppShader.LayerEffect | app/src/main/java/com/example/shader/util/Shader.kt:141-163 | there is no effect until `sRect` is known; then the selected program is sized by `sRect` |
| AppShader.ConsumerLayerEffect | app/src/main/java/com/example/shader/util/Shader.kt:141-163 | the consumer layer carries exactly that effect |
| AppShader.ShaderLayer | app/src/main/java/com/example/shader/util/Shader.kt:136-188 | `shaderLayer` appends the effect layer, the backdrop draw and the tracking of `sRect` |
| AppShader.ShaderLayerShowsBackdrop | app/src/main/java/com/example/shader/util/Shader.kt:136-188 | the backdrop offset by `sRect` is painted under the content, both go through the consumer shader, and the callback writes `sRect` |
| AppShader.ShaderLayerTinted | app/src/main/java/com/example/shader/util/Shader.kt:117-134 | the tinted overload applies clip, then content-then-tint, then blur, then the shader layer |
| AppShader.ShaderLayerTintedPaintsTint | app/src/main/java/com/example/shader/util/Shader.kt:117-134 | the backdrop and the content go through the consumer shader and then the blur, and the tint is painted over both, outside the layers |
| AppShader.TintedLayerPaint | app/src/main/java/com/example/shader/util/Shader.kt:133-188 | the blur followed by the shader layer nests the blur outside the consumer shader |
| AppShader.DrawBehind | app/src/main/java/com/example/shader/util/Shader.kt:164-177 | nothing is drawn unless both `rect` and `sRect` exist; otherwise the buffer is translated by `-(sRect.topLeft - rect.topLeft)` |
| AppShader.PositionBothThenDraw | app/src/main/java/com/example/shader/util/Shader.kt:111-188 | source (0,0,400,800) and a 200 x 200 consumer at (20,20) give a backdrop translated by (-20,-20) |

## Left out

- Floating point: coordinates, sizes and uniforms are reals. IEEE rounding, NaN and infinities are not modelled.
- Density: dp-to-px conversion (`toPx`) is not modelled. Blur radii are kept in dp.
- GPU work: shader compilation, the blur kernel and the body of `enhanceColorShader` are not shown, so they are opaque stage tokens. `content.eval` is a function parameter. The mirror-zoom and refraction programs return the sampled coordinate rather than a colour.
- How a render effect transforms pixels when a layer is composited is not modelled. `Blur(0)` is not claimed to be the identity.
- `distance` and `normalize`: the model never takes a square root. The caller supplies the length `len` of the vector, constrained by `len >= 0` and `len² = x² + y²`.
- `Geometry.Direction`: for the zero vector, where GLSL leaves `normalize` undefined, it returns the zero vector. That is also what the dispersion shader's guard assigns.
- EdgeRefraction.Sample: requires `border > 0`, because the source divides by `border`. Every caller passes the constant 75.
- Dispersion.Sample: requires `border != 0` outside the main body, where the shader divides by `border`. With a zero or negative border every pixel of the surface is in the main body (`Dispersion.NonPositiveBorderPassesThrough`). Only a pixel off the surface would reach the division, and the shader is never run on one.
- Compose scheduling: recomposition, `remember` caching, `drawWithCache` and the timing of `onGloballyPositioned` are not modelled. Position callbacks and draws are explicit method calls in the order a caller chooses. A remembered effect is recomputed from its inputs, which gives the same value.
- `recordPosition` and the library's own `ShaderState` class are not part of this model, and neither is the app's `ui/util` package. A position callback is modelled by passing the rect it delivers.
- The three `ShaderState` classes are merged into one `State.ShaderState` holding `rect`, `sRect` and `componentRects`. The registry is assumed to start empty.
- `UUID.randomUUID()`: randomness is replaced by `State.IdSource`, which hands out keys distinct from all earlier ones. Only that distinctness is relied on.
- Modifier elements: every element has a painting, a render effect, a position callback and capture-buffer events (`Modifiers.Paint`, `Modifiers.Positions`, `Modifiers.SharedEvents`). Shape clips, `clip = true` and the layer's clip shape are kept as tokens, and their outlines are not applied to the painting. `Modifier.blur` is a layer stage whose kernel is not modelled.
- The glass's local layer: its assigned effect is part of what `LibGlass.GlassUnder` paints; the picture re-recorded into that layer is given by `LibGlass.GlassSurface.OnDraw`, not by `Modifiers.Paint`.
- Nested `drawContent`: re-running the content draw inside a recording is not modelled. A source's recording is the token `OwnContent(frame)`.
- The layer's `history` is ghost state. It exists to state the order of `record` and `renderEffect =`. Both orders leave the same recording and effect on the layer.
- Excluded on purpose: the demo screen (`App.kt`), the activity (`MainActivity.kt`), the imports-only `ui/style/shader/Shader.kt`, and the style presets.

## Notes on the code

- Mirror zoom folds only once. A zoomed coordinate ends up in `[0, size]` if and only if it was in `[-2·size, 2·size]` (`MirrorZoom.FoldAxisRange`). Every surface pixel therefore stays on the surface for `scale >= 1/3` (`MirrorZoom.ZoomOutStaysInside`), but not below that (`MirrorZoom.StrongZoomOutLeavesSurface`). The model follows the code: no further fold and no clamp.
- Shared buffer: both `blurSource` variants assign their blur chain to the shared capture layer itself. Every consumer of that layer therefore sees the blurred picture. The library assigns before recording, and the app records before assigning.
- Edge refraction: the displacement is `border · strength · edgeFactor` pixels, not `strength · edgeFactor`. The model uses the code's formula.
- Sampling: the refraction and mirror programs fold rather than clamp. The dispersion program clamps its colour points but reads alpha at the unclamped distorted point.
- Blur chains at radius zero: the library's blur chain keeps its enhance flag from `enhanceColor`, whatever the radius. The app's disables enhance at radius 0. Both chains still contain the blur stage.

## Findings

| source | as written | input that shows it | evidently intended | confidence | as-written member | corrected member |
|---|---|---|---|---|---|---|
| app/src/main/java/com/example/shader/ui/style/shader/Blur.kt:45-49 | `clipRect(0, 0, width, height)` comes after `translate(-offset)`, so the clip is applied in the buffer's coordinates | source (0,0,400,800), consumer (20,20,220,220): the consumer's pixel (190,190) maps to buffer (210,210), outside `(0,0)-(200,200)`, and shows nothing | clip to the consumer's own `(0,0)-(width,height)` before translating, so every consumer pixel shows its aligned buffer point | medium, not executed | Canvas.ClippedBackdropHidesInsidePoint | Canvas.SurfaceClippedBackdropCovers |
