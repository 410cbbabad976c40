# MyRenderer, modelled in Dafny

MyRenderer is a small software rasteriser written in C on top of SDL. Each
frame of its main loop does three things:

- it reads one input event, which can stop the program, switch back-face
  culling on or off, or select a rendering mode;
- it waits out the rest of a 16 ms frame budget, advances the mesh rotation,
  and rebuilds the list of screen-space triangles from the mesh faces;
- it draws a grid, then the vertex markers, filled triangles and wireframes of
  every triangle, hands the colour buffer to SDL and clears it to black.

This project models that frame loop and the drawing primitives underneath
it.

- `CNumeric` (c_numeric.dfy) spells out the C conversions the code relies
  on. Unsigned 32-bit arithmetic wraps modulo 2^32. An unsigned value above
  INT_MAX wraps when converted to `int`. A float converted to `int` is
  truncated toward zero. `round` rounds halfway cases away from zero.
- `Raster` (raster.dfy) describes, as functions on `seq<uint32>`, what each
  drawing operation leaves in a row-major `width * height` buffer. These
  are the grid, a single pixel, a rectangle and a sequence of plotted points.
- `Display` (display.dfy) is `src/display.c`. It holds the rendering-mode
  bits and the DDA line. Its class `FrameBuffer` owns the colour and depth
  arrays. Its methods clear the buffers and draw the grid, a pixel, a
  rectangle and a line. Each method is proved to leave exactly the buffer
  its `Raster` function describes.
- `LegacyDisplay` (legacy_display.dfy) is the older `display.c` at the top
  of the repository. Its `draw_pixel` checks only the upper bounds, and its
  `draw_rect` takes end coordinates.
- `Triangle` (triangle.dfy) is `src/triangle.c`. It models `vec2_swap` and
  the two fill helpers, which have empty bodies. It also models
  `draw_filled_triangle`, which sorts the y values and computes the split
  point.
- `Matrix` (matrix.dfy) is `src/matrix.c`: `mat4_identity` and
  `mat4_make_scale`.
- `App` (main.dfy) is `src/Main.c`:
  - frame pacing on wrapping tick counts;
  - `process_input` as a function on the three flags;
  - the face loop of `update`, as a filter of the face list;
  - the draw calls `render` makes, and the frame they produce;
  - the class `Renderer`, which holds the program's globals and whose
    methods `ProcessInput`, `Update` and `Render` update them in place.

## Model

| member | source | states |
|---|---|---|
| CNumeric.ToInt32 | MyRenderer/src/Main.c:75 | an unsigned tick count stored in the `int` `previous_frame_time` is congruent to it modulo 2^32: unchanged below 2^31, negative from 2^31 up |
| CNumeric.ToUint32 | MyRenderer/src/Main.c:71 | the unsigned result of the mixed subtraction is congruent to the exact difference modulo 2^32, and equals it when that difference is in range |
| CNumeric.Trunc | MyRenderer/src/triangle.c:32 | a float converted to `int` lands on the integer next to it toward zero (within one, on the side of zero) |
| CNumeric.Round | MyRenderer/src/display.c:108 | `round` returns an integer within one half of its argument, with halfway cases going away from zero |
| CNumeric.IntegralUnchanged | MyRenderer/src/display.c:104-108 | rounding or truncating a float that already holds an integer gives that integer back |
| Raster.IndexInRange | MyRenderer/src/display.c:83-84 | a pixel that passes the bounds check has its cell `width*y + x` inside the `width*height` buffer |
| Raster.IndexInjective | MyRenderer/src/display.c:84 | two in-viewport pixels share a cell only when they are the same pixel |
| Raster.Grid | MyRenderer/src/display.c:73-80 | the grid pass keeps the buffer's `width*height` size |
| Raster.GridAt | MyRenderer/src/display.c:73-80 | after the grid pass a pixel is 0xFF222222 iff its row or its column is a multiple of 10; otherwise it keeps its value |
| Raster.GridIdempotent | MyRenderer/src/display.c:73-80 | drawing the grid twice gives the same buffer as drawing it once |
| Raster.PutPixel | MyRenderer/src/display.c:82-85 | a pixel write keeps the buffer's size |
| Raster.PutPixelAt | MyRenderer/src/display.c:82-85 | a pixel write changes cell `i` only when it is the cell of an in-viewport (x, y); every other cell keeps its value |
| Raster.PutPixelExactly | MyRenderer/src/display.c:82-85 | seen pixel by pixel, `draw_pixel(x, y, c)` makes pixel (x, y) `c` and leaves every other pixel alone; an off-screen (x, y) changes nothing |
| Raster.Rect | MyRenderer/src/display.c:87-93 | a rectangle keeps the buffer's size |
| Raster.RectAt | MyRenderer/src/display.c:87-93 | after `draw_rect(x, y, w, h, c)` an in-viewport pixel is `c` iff it lies in `[x, x+w) x [y, y+h)`, else it keeps its value |
| Raster.RectEmpty | MyRenderer/src/display.c:88-89 | a rectangle with a non-positive width or height paints nothing |
| Raster.Plot | MyRenderer/src/display.c:107-111 | plotting a sequence of points keeps the buffer's size |
| Raster.PlotStep | MyRenderer/src/display.c:107-108 | one more loop step is one more bounds-checked pixel write |
| Raster.PlotAt | MyRenderer/src/display.c:107-111 | after a line a cell holds the colour iff some plotted point is the in-viewport pixel of that cell; no other cell changes |
| Display.ModeBitsIndependent | MyRenderer/src/display.c:11-14 | the four mode constants are distinct single bits: in any OR of them, the test `(mode & bit) == bit` sees exactly the bits that were OR-ed in |
| Display.LongestSide | MyRenderer/src/display.c:99 | the step count is the larger of abs(dx) and abs(dy) |
| Display.NextStep | MyRenderer/src/display.c:109-110 | adding the increment moves the position from step i to step i+1 |
| Display.ScaledIncrement | MyRenderer/src/display.c:101-102 | `steps` increments of `delta/steps` add up to `delta` |
| Display.IncrementBounds | MyRenderer/src/display.c:101-102 | an increment whose delta is no longer than the step count is in [-1, 1], and is exactly 1 or -1 when the two are equal |
| Display.LineEnds | MyRenderer/src/display.c:99-111 | a line visits `max(abs(dx), abs(dy)) + 1` pixels; the first is (x0, y0) and the last is (x1, y1) |
| Display.LineIncrements | MyRenderer/src/display.c:99-102 | each step moves at most one pixel on either axis, and exactly one on the longer axis |
| Display.HorizontalLine | MyRenderer/src/display.c:95-111 | the line from (0, 0) to (10, 0) is exactly the pixels (0, 0) to (10, 0) |
| Display.FrameBuffer.constructor | MyRenderer/src/Main.c:20 | allocates a fresh `width*height` colour buffer, and a depth buffer of the same size |
| Display.FrameBuffer.ClearColorBuffer | MyRenderer/src/display.c:57-63 | every cell of the colour buffer becomes `color` |
| Display.FrameBuffer.ClearZBuffer | MyRenderer/src/display.c:65-71 | every cell of the depth buffer becomes 1.0 |
| Display.FrameBuffer.DrawGrid | MyRenderer/src/display.c:73-80 | the buffer becomes `Raster.Grid` of its old contents |
| Display.FrameBuffer.DrawPixel | MyRenderer/src/display.c:82-85 | the buffer becomes `Raster.PutPixel` of its old contents: the write happens only inside the viewport |
| Display.FrameBuffer.DrawRect | MyRenderer/src/display.c:87-93 | the buffer becomes `Raster.Rect` of its old contents; parts off screen are clipped by `draw_pixel` |
| Display.FrameBuffer.DrawLine | MyRenderer/src/display.c:95-112 | the buffer becomes the old contents with every point of the DDA line plotted, in order, through `draw_pixel` |
| LegacyDisplay.UpperGuardIndex | MyRenderer/display.c:87-88 | when the upper-bound check passes and the cell index is not negative, the cell is inside the buffer |
| LegacyDisplay.LegacyPutPixel | MyRenderer/display.c:86-89 | the older pixel write keeps the buffer's size when the caller keeps the cell non-negative |
| LegacyDisplay.LegacyPutPixelAgrees | MyRenderer/display.c:86-89 | on in-viewport pixels and on pixels the guard rejects, the older write is the bounds-checked one |
| LegacyDisplay.LegacyPixelWraps | MyRenderer/display.c:87-88 | the off-screen pixel (-1, 1) passes the older guard and lands on pixel (w-1, 0); the bounds-checked write ignores it |
| LegacyDisplay.LegacySquareVanishes | MyRenderer/display.c:71-77 | `draw_rect(10, 10, 5, 5)` paints nothing in the older version, where the bounds-checked one paints the whole 5 by 5 square |
| LegacyDisplay.LegacyFrameBuffer.constructor | MyRenderer/display.c:5-7 | allocates a fresh colour buffer of `width*height` cells |
| LegacyDisplay.LegacyFrameBuffer.ClearColorBuffer | MyRenderer/display.c:49-55 | every cell becomes `color` |
| LegacyDisplay.LegacyFrameBuffer.DrawGrid | MyRenderer/display.c:57-69 | the buffer becomes `Raster.Grid` of its old contents |
| LegacyDisplay.LegacyFrameBuffer.DrawRect | MyRenderer/display.c:71-77 | paints `[x, xEnd) x [y, yEnd)`; with no bounds check, a non-empty rectangle must lie inside the viewport |
| LegacyDisplay.LegacyFrameBuffer.DrawPixel | MyRenderer/display.c:86-89 | the buffer becomes `LegacyPutPixel` of its old contents |
| Triangle.Vec2Swap | MyRenderer/src/triangle.c:3-7 | the two integers are exchanged |
| Triangle.FillFlatBottomTriangle | MyRenderer/src/triangle.c:9-11 | the helper may write the colour buffer, but its body is empty, so every pixel keeps its colour |
| Triangle.FillFlatTopTriangle | MyRenderer/src/triangle.c:13-15 | the helper may write the colour buffer, but its body is empty, so every pixel keeps its colour |
| Triangle.MidpointOnEdge | MyRenderer/src/triangle.c:32 | the exact split point lies on the edge from (x0, y0) to (x2, y2): the two triangles are similar |
| Triangle.MidpointFraction | MyRenderer/src/triangle.c:32 | with y0 <= y1 <= y2 and y0 < y2, the split point is x0 moved a fraction in [0, 1] of the way to x2 |
| Triangle.MidpointBetween | MyRenderer/src/triangle.c:32 | the exact split point lies between x0 and x2 |
| Triangle.TruncatedMidpointBetween | MyRenderer/src/triangle.c:32 | `Mx`, the split point truncated to `int`, still lies between x0 and x2 |
| Triangle.DrawFilledTriangle | MyRenderer/src/triangle.c:17-39 | the fill helpers get the y values sorted and the same as the ones passed in; they get the x values in their original places; `My = y1` and `Mx` is the truncated split point; every pixel keeps its colour |
| Triangle.YSortScramblesVertices | MyRenderer/src/triangle.c:19-28 | for (0,10), (5,0), (10,5) the helpers get (0,0), which is not a vertex, and three collinear points |
| Triangle.ScrambledFill | MyRenderer/src/triangle.c:17-39 | called on (0,10), (5,0), (10,5), the function hands the helpers (0,0), which is not a vertex, and three collinear points |
| Triangle.DrawFilledTriangleGuarded | MyRenderer/src/triangle.c:31-38 | the intended call: the fill goes ahead iff the three y values are not all equal, so the split point is never 0/0; every pixel keeps its colour |
| Triangle.SortVerticesByY | MyRenderer/src/triangle.c:19-28 | the intended sort: the three points are a permutation of the inputs, ordered by y |
| Matrix.Identity | MyRenderer/src/matrix.c:3-11 | ones on the diagonal, zeros everywhere else |
| Matrix.SetEntry | MyRenderer/src/matrix.c:15-17 | one entry is replaced and all others are kept |
| Matrix.MakeScale | MyRenderer/src/matrix.c:13-19 | as written: `sx`, `sy`, `sz` at (1,1), (2,2), (3,3), with 1 at (0,0) and zeros off the diagonal |
| Matrix.ScaleOfOnesIsIdentity | MyRenderer/src/matrix.c:13-19 | scaling by (1, 1, 1) gives the identity |
| Matrix.MakeScaleInjective | MyRenderer/src/matrix.c:13-19 | the three factors can be read back from the matrix |
| Matrix.MakeScaleShifted | MyRenderer/src/matrix.c:15-17 | the matrix as written leaves x alone, scales y by `sx` and z by `sy`, and puts `sz` into w |
| Matrix.MakeScaleIntended | MyRenderer/src/matrix.c:13-19 | the intended scale matrix: `sx`, `sy`, `sz`, 1 on the diagonal, zeros elsewhere |
| Matrix.IntendedScaleScales | MyRenderer/src/matrix.c:13-19 | the intended matrix scales each coordinate by its own factor and keeps w = 1 |
| App.FrameDelay | MyRenderer/src/Main.c:71-73 | the delay passed to `SDL_Delay` never exceeds FRAME_TARGET_TIME |
| App.FrameDelayIsRemainingBudget | MyRenderer/src/Main.c:71-73 | the frame waits out exactly the rest of its 16 ms budget, or not at all once the budget is spent, even though the unsigned difference wraps |
| App.ElapsedAcrossWrap | MyRenderer/src/Main.c:71-75 | storing the tick count in an `int` and subtracting it later gives the elapsed ticks modulo 2^32, and the exact difference when the counter has not wrapped |
| App.AfterInput | MyRenderer/src/Main.c:31-59 | Quit or Escape stops the program, and nothing else does. `c` turns culling on and `d` turns it off. Keys 1-4 select wireframe+dots, wireframe, filled, and filled+wireframe. Any other event leaves the mode alone |
| App.InputIdempotent | MyRenderer/src/Main.c:31-59 | handling the same event twice has the effect of handling it once |
| App.FaceVertices | MyRenderer/src/Main.c:88-91 | a face's three vertices are looked up one-based |
| App.Transformed | MyRenderer/src/Main.c:96-106 | every face yields three transformed vertices |
| App.FaceTrianglesStep | MyRenderer/src/Main.c:108-142 | one loop iteration appends the face's projected triangle exactly when the face passes the culling test |
| App.KeptIndicesSpec | MyRenderer/src/Main.c:109-128 | the kept face positions are in range and strictly increasing. A face is kept iff culling is off or it does not point away from the camera |
| App.FaceTrianglesSelect | MyRenderer/src/Main.c:85-143 | the triangle list is an order-preserving filter of the faces: the k-th triangle is the projection of the k-th kept face |
| App.NoCullingKeepsEveryFace | MyRenderer/src/Main.c:109 | with culling off, every face yields its triangle, in face order |
| App.TransformFace | MyRenderer/src/Main.c:88-106 | the inner loop rotates each vertex about x, y, then z and adds 5 to z |
| App.ProjectTriangle | MyRenderer/src/Main.c:130-140 | each vertex is projected, then moved to the middle of the window using integer halves of its size |
| App.TriangleCalls | MyRenderer/src/Main.c:154-171 | one triangle gets 3, 1 and 1 calls for the marker, fill and wireframe bits |
| App.ModeKeyDispatch | MyRenderer/src/Main.c:49-56 | the calls a triangle gets after each of keys 1 to 4: markers and wireframe; wireframe; fill; fill and wireframe |
| App.RenderCallsLength | MyRenderer/src/Main.c:150-172 | a frame makes (number of triangles) times (calls per triangle) drawing calls |
| App.RenderCallsBlock | MyRenderer/src/Main.c:150-172 | the triangles are drawn in list order, each one completely before the next |
| App.ApplyCall | MyRenderer/src/Main.c:154-171 | a drawing call keeps the buffer's size; a wireframe call leaves what `draw_triangle` makes of the buffer |
| App.Replay | MyRenderer/src/Main.c:150-172 | a sequence of drawing calls keeps the buffer's size |
| App.ReplayStep | MyRenderer/src/Main.c:151-172 | one more call is applied on top of the ones before it |
| App.DotStep | MyRenderer/src/Main.c:155-157 | a vertex marker paints the red 6 by 6 rectangle at the truncated `(x-3, y-3)` |
| App.UnpaintedStep | MyRenderer/src/Main.c:160-166 | a filled-triangle call leaves the buffer as it was, since the fill helpers are empty |
| App.WireStep | MyRenderer/src/Main.c:169-170 | a wireframe call leaves what `draw_triangle` makes of the buffer the calls before it produced |
| App.ReplayAt | MyRenderer/src/Main.c:150-172 | with one rectangle colour and no wireframe touching a pixel, the pixel takes that colour iff some rectangle covers it, else it keeps its value |
| App.AnyPaintsConcat | MyRenderer/src/Main.c:150-172 | a pixel is covered by two runs of calls iff one of them covers it |
| App.AnyDotCoversLast | MyRenderer/src/Main.c:150-152 | a pixel lies under some triangle's marker iff it lies under one of an earlier triangle or of the last one |
| App.TrianglePaints | MyRenderer/src/Main.c:154-171 | the only rectangles of one triangle are its three red markers, present iff the marker bit is set |
| App.RenderPaints | MyRenderer/src/Main.c:150-172 | over a frame a pixel is painted iff the marker bit is set and it lies under some triangle's marker; every marker is red |
| App.RenderWiresKeep | MyRenderer/src/Main.c:169-170 | the only wireframes a frame draws are the green outlines of its triangles, so a pixel none of those outlines touches is touched by no wireframe call |
| App.FramePixel | MyRenderer/src/Main.c:147-172 | at a pixel no green outline touches (any pixel when the wireframe bit is clear), the presented pixel is red under a marker when markers are on, else the grid colour on a tenth row or column, else its old value |
| App.FillModeDrawsNothing | MyRenderer/src/Main.c:160-166 | in fill-only mode (key 3) the frame is the grid alone: the calls change no pixel |
| App.FlatTriangleReachesFill | MyRenderer/src/Main.c:109-142 | a kept face whose projection has three equal truncated y values puts such a triangle in the list, which `render` hands to `draw_filled_triangle` |
| App.Renderer.constructor | MyRenderer/src/Main.c:187-188 | after `initialize_window` and `setup`: a fresh buffer of the window size and the given `draw_triangle` effect. The mode is wireframe plus markers and culling is on. `is_running` is the window's outcome. The triangle list is empty |
| App.Renderer.ProcessInput | MyRenderer/src/Main.c:31-59 | the three flags become `AfterInput` of the old flags and the event |
| App.Renderer.Update | MyRenderer/src/Main.c:69-144 | the delay is `FrameDelay` and `previous_frame_time` is the later tick count. The rotation grows by 0.01 on each axis. The triangle list is rebuilt from empty as the filter of all faces |
| App.Renderer.Render | MyRenderer/src/Main.c:146-178 | the calls made are `RenderCalls` of the triangle list and mode. In every mode, the frame handed over is the old buffer with the grid drawn and the calls replayed in order. The buffer is left all black |
| App.Renderer.DrawMarker | MyRenderer/src/Main.c:155 | one marker call paints its red rectangle on top of the calls before it |
| App.Renderer.DrawMarkers | MyRenderer/src/Main.c:154-158 | the three marker calls of a triangle, in vertex order, each painted on top of the ones before |
| App.Renderer.DrawFill | MyRenderer/src/Main.c:160-166 | the fill call, on truncated coordinates, leaves the buffer as the calls before it left it |
| App.Renderer.DrawTriangle | MyRenderer/src/Main.c:170 | the colour buffer becomes what `draw_triangle` makes of it, and nothing else changes |
| App.Renderer.DrawWire | MyRenderer/src/Main.c:169-170 | the green wireframe is drawn on top of the calls before it |
| App.Renderer.RenderTriangle | MyRenderer/src/Main.c:152-171 | one triangle's calls are `TriangleCalls` in the order markers, fill, wireframe; the buffer is their replay |

## Left out

- Floating point: `float` values are modelled as exact reals. Rounding error
  in the DDA increments, in the rotation and in the split-point division is
  not modelled. So `LinePoints` is the line in exact arithmetic.
- SDL: window creation, textures, `SDL_RenderPresent` and `SDL_Delay` are
  not modelled. The event `SDL_PollEvent` delivers and the two
  `SDL_GetTicks` readings are parameters of `ProcessInput` and `Update`.
  `Update` returns the delay rather than sleeping. `Render` returns the
  frame it hands to `render_color_buffer` as `presented`.
- App.Renderer.DrawTriangle: `draw_triangle` (from src/triangle.h) is not
  part of this model. Its effect on the colour buffer is a parameter of the
  `Renderer`, a `WirePainter`. All the model knows of it is that it keeps
  the buffer's size.
- App.FramePixel: describes only pixels that no triangle's green outline
  touches. Which pixels an outline touches depends on `draw_triangle`, which
  is not part of this model.
- `vec3_rotate_x/y/z`, `project`, and the normal/camera-ray back-face test
  (vector.c, Main.c:61-67 and 110-126) are float geometry. They are taken
  as the functions of a `Geometry` value. The model proves how `update`
  composes and filters with them, not what they compute.
- `load_obj_file_data`, the mesh and the dynamic-array library (`array.h`)
  are not part of this model. The mesh is a constructor argument, and the
  triangle list is a `seq`. `array_free` at the end of `render`, the
  `free`/`malloc` calls and the list that `update` drops without freeing it
  are memory management and are left out.
- `z_buffer` is never allocated in the source. `ClearZBuffer` models the
  loop over a buffer the constructor does allocate.
- App.Renderer.ProcessInput: when `SDL_PollEvent` finds no event, the source reads an
  uninitialised `SDL_Event`. The model treats that case as an `OtherEvent`.
- Display.FrameBuffer.DrawRect: the `int` overflow of `y + height` and
  `x + width`, and of `window_width * y`, is not modelled. Coordinates are
  unbounded integers.
- Triangle.DrawFilledTriangle: does not model `int` overflow of
  `(x2 - x0) * (y1 - y0)`. It requires the three y values not to be all
  equal, because the source then divides 0 by 0.0 and converts NaN to `int`,
  which is undefined. `render` reaches that case (see "## Findings"), so the
  model's `render` calls `DrawFilledTriangleGuarded`, which skips it. The
  fill helpers are empty, so the buffer is the same either way.
- Display.LongestSide: when the two end points coincide the source divides 0
  by 0.0. `Increment` takes 0 instead of NaN; the one pixel plotted,
  at `x0`, `y0`, is the same.
- `main` (Main.c:186-197) is a loop over `process_input`, `update` and
  `render` with I/O between them. It is not a method of its own; the three
  `Renderer` methods are its body. `destroy_window` and `free_resources`
  only release SDL and memory.
- MyRenderer/Main.c (the older entry point) only opens the window. Of the
  older display.c, the window set-up and `render_color_buffer` are SDL
  calls and are left out.
- `mesh.rotation` is a float that grows without bound. The model adds 0.01
  exactly, with no loss of precision.

## Findings

| source | as written | input that shows it | evidently intended | confidence | as-written member | corrected member |
|---|---|---|---|---|---|---|
| MyRenderer/display.c:86-89 | the guard tests only `x < window_width && y < window_height` | pixel (-1, 1) passes and overwrites pixel (w-1, 0) | also test `x >= 0 && y >= 0`, as src/display.c:83 does | not executed | LegacyDisplay.LegacyPixelWraps | Raster.PutPixelExactly |
| MyRenderer/display.c:71-77 | the loops run to `height` and `width`, as if they were end coordinates | `draw_rect(10, 10, 5, 5, c)` paints nothing | loop to `y + height` and `x + width`, as src/display.c:88-89 does | not executed | LegacyDisplay.LegacySquareVanishes | Raster.RectAt |
| MyRenderer/src/matrix.c:15-17 | `sx`, `sy`, `sz` are stored at (1,1), (2,2), (3,3) | the point (x, y, z, 1) maps to (x, sx*y, sy*z, sz) | store them at (0,0), (1,1), (2,2) | not executed | Matrix.MakeScaleShifted | Matrix.IntendedScaleScales |
| MyRenderer/src/triangle.c:31-32 | the split point divides by `y2 - y0` with no check that it is non-zero | a kept triangle whose three truncated y values are equal, for instance a horizontal sliver, in mode 3 or 4: `(float)0 / (float)0` is NaN, and converting NaN to `int` is undefined | skip a triangle whose three y values are equal, since it has no area | not executed | App.FlatTriangleReachesFill | Triangle.DrawFilledTriangleGuarded |
| MyRenderer/src/triangle.c:19-28 | only the y values are swapped; each x stays in its place | (0,10), (5,0), (10,5): the helpers get (0,0), which is not a vertex, and three collinear points | swap whole vertices, so each keeps its x | not executed | Triangle.YSortScramblesVertices | Triangle.SortVerticesByY |
