/** The frame loop of MyRenderer/src/Main.c: input handling, frame pacing,
    the per-face transform and culling filter of `update`, and the per-triangle
    dispatch of `render`. The floating-point geometry (rotation, projection,
    the back-face test) is taken as a parameter, `Geometry`; SDL events and
    tick counts are inputs. */
module App {
  import opened CNumeric
  import opened Raster
  import opened Display
  import Triangle

  // ---------------------------------------------------------------------
  // Frame pacing

  /** `FPS` and `FRAME_TARGET_TIME` (milliseconds per frame, in integer
      division: 16). */
  const FPS: int := 60
  const FRAME_TARGET_TIME: int := 1000 / FPS

  /** `SDL_GetTicks() - previous_frame_time`: the `int` operand is converted
      to the unsigned tick type, so the difference is taken modulo 2^32. */
  function Elapsed(ticks: uint32, previous: int32): uint32
  {
    ToUint32(ticks - previous)
  }

  /** `time_to_wait`: `FRAME_TARGET_TIME - elapsed` is again unsigned, and is
      converted to `int` on assignment. */
  function TimeToWait(ticks: uint32, previous: int32): int32
  {
    ToInt32(ToUint32(FRAME_TARGET_TIME - Elapsed(ticks, previous)))
  }

  /** The argument `update` passes to `SDL_Delay`, or 0 when it does not call it. */
  function FrameDelay(ticks: uint32, previous: int32): (d: nat)
    ensures d <= FRAME_TARGET_TIME
  {
    var t := TimeToWait(ticks, previous);
    if 0 < t && t <= FRAME_TARGET_TIME then t else 0
  }

  /** The frame waits out exactly what is left of its 16 ms budget, and not at
      all once the budget is spent. An overrun wraps the unsigned difference,
      and the conversion to `int` usually makes it negative, which the test
      `time_to_wait > 0` rejects; only once more than 2^31 + 16 ms have
      elapsed does it convert to a positive value, which is then above 16
      and caught by the upper bound of the test. */
  lemma FrameDelayIsRemainingBudget(ticks: uint32, previous: int32)
    ensures FrameDelay(ticks, previous) ==
              if Elapsed(ticks, previous) < FRAME_TARGET_TIME then FRAME_TARGET_TIME - Elapsed(ticks, previous) else 0
  {
    var e := Elapsed(ticks, previous);
    assert FRAME_TARGET_TIME == 16;
    if e <= FRAME_TARGET_TIME {
      assert ToUint32(FRAME_TARGET_TIME - e) == FRAME_TARGET_TIME - e;
    } else {
      assert ToUint32(FRAME_TARGET_TIME - e) == TWO_32 + FRAME_TARGET_TIME - e;
    }
  }

  /** `previous_frame_time` holds a tick count converted to `int`; converting
      it back in the subtraction recovers the tick count, so the elapsed time
      is right modulo 2^32 even after the tick counter or the `int` wraps. */
  lemma ElapsedAcrossWrap(ticks: uint32, earlier: uint32)
    ensures Elapsed(ticks, ToInt32(earlier)) == ToUint32(ticks - earlier)
    ensures earlier <= ticks ==> Elapsed(ticks, ToInt32(earlier)) == ticks - earlier
  {
    if 0x8000_0000 <= earlier {
      assert ToInt32(earlier) == earlier - TWO_32;
      assert ticks - ToInt32(earlier) == (ticks - earlier) + TWO_32;
    }
  }

  // ---------------------------------------------------------------------
  // Input

  /** The keys `process_input` tells apart. */
  datatype Key = Escape | KeyC | KeyD | Key1 | Key2 | Key3 | Key4 | OtherKey

  /** The event `SDL_PollEvent` delivers. */
  datatype Event = Quit | KeyDown(key: Key) | OtherEvent

  /** The three globals `process_input` may change. */
  datatype Flags = Flags(isRunning: bool, backfaceCulling: bool, renderingMode: bv8)

  /** The flags after `process_input` has handled `e`. */
  function AfterInput(f: Flags, e: Event): (r: Flags)
    ensures r.isRunning <==> f.isRunning && e != Quit && e != KeyDown(Escape)
    ensures e == KeyDown(KeyC) ==> r.backfaceCulling
    ensures e == KeyDown(KeyD) ==> !r.backfaceCulling
    ensures e != KeyDown(KeyC) && e != KeyDown(KeyD) ==> r.backfaceCulling == f.backfaceCulling
    ensures e == KeyDown(Key1) ==> r.renderingMode == Modes(true, true, false, false)
    ensures e == KeyDown(Key2) ==> r.renderingMode == Modes(true, false, false, false)
    ensures e == KeyDown(Key3) ==> r.renderingMode == Modes(false, false, true, false)
    ensures e == KeyDown(Key4) ==> r.renderingMode == Modes(true, false, true, false)
    ensures !(e.KeyDown? && e.key in {Key1, Key2, Key3, Key4}) ==> r.renderingMode == f.renderingMode
  {
    match e
    case Quit => f.(isRunning := false)
    case KeyDown(k) =>
      var running := if k == Escape then false else f.isRunning;
      var culling := if k == KeyC then true else if k == KeyD then false else f.backfaceCulling;
      var mode :=
        if k == Key1 then WIREFRAME | RED_DOT
        else if k == Key2 then WIREFRAME
        else if k == Key3 then FILLED_TRIANGLE
        else if k == Key4 then FILLED_TRIANGLE | WIREFRAME
        else f.renderingMode;
      Flags(running, culling, mode)
    case OtherEvent => f
  }

  /** Handling the same event twice has the effect of handling it once. */
  lemma InputIdempotent(f: Flags, e: Event)
    ensures AfterInput(AfterInput(f, e), e) == AfterInput(f, e)
  {
  }

  // ---------------------------------------------------------------------
  // The face loop of `update`

  datatype Vec3 = Vec3(x: real, y: real, z: real)
  datatype Vec2 = Vec2(x: real, y: real)

  /** `face_t`: three 1-based indices into the vertex array. */
  datatype Face = Face(a: int, b: int, c: int)

  /** `triangle_t`: three screen-space points. */
  datatype Tri = Tri(p0: Vec2, p1: Vec2, p2: Vec2)

  /** The floating-point geometry `update` calls: `vec3_rotate_x/y/z`,
      `project`, and the normal/camera-ray test that decides whether a face
      points away from the camera. */
  datatype Geometry = Geometry(
    rotateX: (Vec3, real) -> Vec3,
    rotateY: (Vec3, real) -> Vec3,
    rotateZ: (Vec3, real) -> Vec3,
    isBackFacing: (Vec3, Vec3, Vec3) -> bool,
    project: Vec3 -> Vec2)

  /** Everything one pass of the face loop reads. */
  datatype Scene = Scene(geometry: Geometry, vertices: seq<Vec3>, rotation: Vec3,
                         culling: bool, width: nat, height: nat)

  predicate ValidFace(f: Face, n: int)
  {
    1 <= f.a <= n && 1 <= f.b <= n && 1 <= f.c <= n
  }

  predicate ValidFaces(faces: seq<Face>, n: int)
  {
    forall i :: 0 <= i < |faces| ==> ValidFace(faces[i], n)
  }

  /** The three model-space vertices of a face, looked up one-based. */
  function FaceVertices(vertices: seq<Vec3>, f: Face): (r: seq<Vec3>)
    requires ValidFace(f, |vertices|)
    ensures |r| == 3
  {
    [vertices[f.a - 1], vertices[f.b - 1], vertices[f.c - 1]]
  }

  /** One vertex rotated about x, then y, then z, and pushed 5 units away
      from the camera. */
  function Transform(g: Geometry, rotation: Vec3, v: Vec3): Vec3
  {
    var r := g.rotateZ(g.rotateY(g.rotateX(v, rotation.x), rotation.y), rotation.z);
    Vec3(r.x, r.y, r.z + 5.0)
  }

  function Transformed(sc: Scene, f: Face): (r: seq<Vec3>)
    requires ValidFace(f, |sc.vertices|)
    ensures |r| == 3
  {
    var vs := FaceVertices(sc.vertices, f);
    seq(3, j requires 0 <= j < 3 => Transform(sc.geometry, sc.rotation, vs[j]))
  }

  /** A face is kept unless culling is on and it points away from the camera. */
  predicate Emits(sc: Scene, f: Face)
    requires ValidFace(f, |sc.vertices|)
  {
    var t := Transformed(sc, f);
    !sc.culling || !sc.geometry.isBackFacing(t[0], t[1], t[2])
  }

  /** A projected point moved to the middle of the window (`window_width / 2`
      is integer division). */
  function ScreenPoint(sc: Scene, v: Vec3): Vec2
  {
    var p := sc.geometry.project(v);
    Vec2(p.x + (sc.width / 2) as real, p.y + (sc.height / 2) as real)
  }

  function Projected(sc: Scene, f: Face): Tri
    requires ValidFace(f, |sc.vertices|)
  {
    var t := Transformed(sc, f);
    Tri(ScreenPoint(sc, t[0]), ScreenPoint(sc, t[1]), ScreenPoint(sc, t[2]))
  }

  /** The triangle list the face loop builds from `faces`. */
  function FaceTriangles(sc: Scene, faces: seq<Face>): seq<Tri>
    requires ValidFaces(faces, |sc.vertices|)
    decreases |faces|
  {
    if faces == [] then []
    else
      var n := |faces| - 1;
      var front := FaceTriangles(sc, faces[..n]);
      if Emits(sc, faces[n]) then front + [Projected(sc, faces[n])] else front
  }

  /** One more face appends its triangle, if it is kept. */
  lemma FaceTrianglesStep(sc: Scene, faces: seq<Face>, i: int)
    requires ValidFaces(faces, |sc.vertices|) && 0 <= i < |faces|
    ensures ValidFaces(faces[..i], |sc.vertices|) && ValidFaces(faces[..i + 1], |sc.vertices|)
    ensures FaceTriangles(sc, faces[..i + 1]) ==
              FaceTriangles(sc, faces[..i]) + if Emits(sc, faces[i]) then [Projected(sc, faces[i])] else []
  {
    assert faces[..i + 1][..i] == faces[..i];
  }

  /** The positions in `faces` of the faces the loop keeps, in order. */
  function KeptIndices(sc: Scene, faces: seq<Face>): seq<int>
    requires ValidFaces(faces, |sc.vertices|)
    decreases |faces|
  {
    if faces == [] then []
    else
      var n := |faces| - 1;
      var front := KeptIndices(sc, faces[..n]);
      if Emits(sc, faces[n]) then front + [n] else front
  }

  /** The kept positions are strictly increasing and are exactly the faces
      that pass the culling test. */
  lemma {:induction false} KeptIndicesSpec(sc: Scene, faces: seq<Face>)
    requires ValidFaces(faces, |sc.vertices|)
    ensures forall k :: 0 <= k < |KeptIndices(sc, faces)| ==> 0 <= KeptIndices(sc, faces)[k] < |faces|
    ensures forall k, l :: 0 <= k < l < |KeptIndices(sc, faces)| ==> KeptIndices(sc, faces)[k] < KeptIndices(sc, faces)[l]
    ensures forall j :: 0 <= j < |faces| ==> (j in KeptIndices(sc, faces) <==> Emits(sc, faces[j]))
    decreases |faces|
  {
    if faces != [] {
      var n := |faces| - 1;
      var front := faces[..n];
      KeptIndicesSpec(sc, front);
      var ks, fk := KeptIndices(sc, faces), KeptIndices(sc, front);
      assert ks == if Emits(sc, faces[n]) then fk + [n] else fk;
      forall k | 0 <= k < |fk|
        ensures fk[k] != n
      {
      }
      forall j | 0 <= j < |faces|
        ensures j in ks <==> Emits(sc, faces[j])
      {
        if j < n {
          assert faces[j] == front[j];
        }
      }
    }
  }

  /** The triangle list holds one projected triangle per kept face, in the
      order of the faces: an order-preserving filter of the face list. */
  lemma {:induction false} FaceTrianglesSelect(sc: Scene, faces: seq<Face>)
    requires ValidFaces(faces, |sc.vertices|)
    ensures var ts, ks := FaceTriangles(sc, faces), KeptIndices(sc, faces);
            |ts| == |ks| &&
            forall k :: 0 <= k < |ks| ==> 0 <= ks[k] < |faces| && ts[k] == Projected(sc, faces[ks[k]])
    decreases |faces|
  {
    KeptIndicesSpec(sc, faces);
    if faces != [] {
      var n := |faces| - 1;
      var front := faces[..n];
      FaceTrianglesSelect(sc, front);
      KeptIndicesSpec(sc, front);
      forall j | 0 <= j < n
        ensures faces[j] == front[j]
      {
      }
    }
  }

  /** With culling off, every face yields its triangle, in face order. */
  lemma {:induction false} NoCullingKeepsEveryFace(sc: Scene, faces: seq<Face>)
    requires ValidFaces(faces, |sc.vertices|) && !sc.culling
    ensures |FaceTriangles(sc, faces)| == |faces|
    ensures forall i :: 0 <= i < |faces| ==> FaceTriangles(sc, faces)[i] == Projected(sc, faces[i])
    decreases |faces|
  {
    if faces != [] {
      var n := |faces| - 1;
      var front := faces[..n];
      NoCullingKeepsEveryFace(sc, front);
      forall i | 0 <= i < n
        ensures faces[i] == front[i]
      {
      }
    }
  }

  /** The first inner loop of `update`: the face's three vertices, looked up
      one-based, each rotated and pushed away from the camera. */
  method TransformFace(sc: Scene, face: Face) returns (transformed: seq<Vec3>)
    requires ValidFace(face, |sc.vertices|)
    ensures transformed == Transformed(sc, face)
  {
    var g, rot := sc.geometry, sc.rotation;
    var faceVertices := [sc.vertices[face.a - 1], sc.vertices[face.b - 1], sc.vertices[face.c - 1]];
    transformed := [];
    for j := 0 to 3
      invariant |transformed| == j
      invariant forall k :: 0 <= k < j ==> transformed[k] == Transform(g, rot, faceVertices[k])
    {
      var v := faceVertices[j];
      v := g.rotateX(v, rot.x);
      v := g.rotateY(v, rot.y);
      v := g.rotateZ(v, rot.z);
      v := v.(z := v.z + 5.0);
      transformed := transformed + [v];
    }
  }

  /** The second inner loop of `update`: the three vertices projected and
      moved to the middle of the window. */
  method ProjectTriangle(sc: Scene, transformed: seq<Vec3>) returns (projected: Tri)
    requires |transformed| == 3
    ensures projected == Tri(ScreenPoint(sc, transformed[0]), ScreenPoint(sc, transformed[1]), ScreenPoint(sc, transformed[2]))
  {
    var points: seq<Vec2> := [];
    for j := 0 to 3
      invariant |points| == j
      invariant forall k :: 0 <= k < j ==> points[k] == ScreenPoint(sc, transformed[k])
    {
      var p := sc.geometry.project(transformed[j]);
      p := Vec2(p.x + (sc.width / 2) as real, p.y + (sc.height / 2) as real);
      points := points + [p];
    }
    projected := Tri(points[0], points[1], points[2]);
  }

  // ---------------------------------------------------------------------
  // The draw calls of `render`

  const RED: uint32 := 0xFFFF_0000
  const WHITE: uint32 := 0xFFFF_FFFF
  const GREEN: uint32 := 0xFF00_FF00
  const BLACK: uint32 := 0xFF00_0000

  /** One drawing call `render` makes: `draw_rect`, `draw_filled_triangle`
      or `draw_triangle`, with the arguments it passes. */
  datatype DrawCall =
    | RectCall(x: int, y: int, rw: int, rh: int, color: uint32)
    | FilledTriangleCall(x0: int, y0: int, x1: int, y1: int, x2: int, y2: int, color: uint32)
    | WireframeCall(t: Tri, color: uint32)

  /** The red 6 by 6 marker centred on a vertex; the float coordinates are
      truncated to `int` when passed. */
  function DotCall(p: Vec2): DrawCall
  {
    RectCall(Trunc(p.x - 3.0), Trunc(p.y - 3.0), 6, 6, RED)
  }

  function FilledCall(t: Tri): DrawCall
  {
    FilledTriangleCall(Trunc(t.p0.x), Trunc(t.p0.y), Trunc(t.p1.x), Trunc(t.p1.y),
                       Trunc(t.p2.x), Trunc(t.p2.y), WHITE)
  }

  /** The number of calls one triangle gets under `mode`. */
  function CallsPerTriangle(mode: bv8): nat
  {
    (if HasMode(mode, RED_DOT) then 3 else 0)
    + (if HasMode(mode, FILLED_TRIANGLE) then 1 else 0)
    + (if HasMode(mode, WIREFRAME) then 1 else 0)
  }

  /** The calls for one triangle: the three vertex markers, then the fill,
      then the wireframe, each only when its bit is set. */
  function TriangleCalls(t: Tri, mode: bv8): (r: seq<DrawCall>)
    ensures |r| == CallsPerTriangle(mode)
  {
    (if HasMode(mode, RED_DOT) then [DotCall(t.p0), DotCall(t.p1), DotCall(t.p2)] else [])
    + (if HasMode(mode, FILLED_TRIANGLE) then [FilledCall(t)] else [])
    + (if HasMode(mode, WIREFRAME) then [WireframeCall(t, GREEN)] else [])
  }

  /** The calls for a whole triangle list, triangle after triangle. */
  function RenderCalls(ts: seq<Tri>, mode: bv8): seq<DrawCall>
    decreases |ts|
  {
    if ts == [] then []
    else RenderCalls(ts[..|ts| - 1], mode) + TriangleCalls(ts[|ts| - 1], mode)
  }

  /** What each key selects, seen as the calls a triangle then gets. */
  lemma ModeKeyDispatch(f: Flags, t: Tri)
    ensures TriangleCalls(t, AfterInput(f, KeyDown(Key1)).renderingMode)
            == [DotCall(t.p0), DotCall(t.p1), DotCall(t.p2), WireframeCall(t, GREEN)]
    ensures TriangleCalls(t, AfterInput(f, KeyDown(Key2)).renderingMode) == [WireframeCall(t, GREEN)]
    ensures TriangleCalls(t, AfterInput(f, KeyDown(Key3)).renderingMode) == [FilledCall(t)]
    ensures TriangleCalls(t, AfterInput(f, KeyDown(Key4)).renderingMode) == [FilledCall(t), WireframeCall(t, GREEN)]
  {
  }

  lemma {:induction false} RenderCallsLength(ts: seq<Tri>, mode: bv8)
    ensures |RenderCalls(ts, mode)| == |ts| * CallsPerTriangle(mode)
    decreases |ts|
  {
    if ts != [] {
      var n, k := |ts| - 1, CallsPerTriangle(mode);
      RenderCallsLength(ts[..n], mode);
      assert |RenderCalls(ts, mode)| == n * k + k;
      assert n * k + k == |ts| * k;
    }
  }

  /** Triangle `i` owns the `i`-th block of `CallsPerTriangle(mode)` calls:
      the triangles are drawn in list order, each one completely before the
      next. */
  lemma {:induction false} RenderCallsBlock(ts: seq<Tri>, mode: bv8, i: int)
    requires 0 <= i < |ts|
    ensures var k := CallsPerTriangle(mode);
            0 <= i * k && i * k + k <= |RenderCalls(ts, mode)| &&
            RenderCalls(ts, mode)[i * k .. i * k + k] == TriangleCalls(ts[i], mode)
    decreases |ts|
  {
    var k := CallsPerTriangle(mode);
    var n := |ts| - 1;
    var front := ts[..n];
    var fr, tc := RenderCalls(front, mode), TriangleCalls(ts[n], mode);
    RenderCallsLength(front, mode);
    assert |fr| == n * k && |tc| == k;
    MulMonotone(k, 0, i);
    assert RenderCalls(ts, mode) == fr + tc;
    if i == n {
      SliceOfConcatRight(fr, tc);
    } else {
      RenderCallsBlock(front, mode, i);
      assert front[i] == ts[i];
      MulMonotone(k, i + 1, n);
      SliceOfConcatLeft(fr, tc, i * k, i * k + k);
    }
  }

  lemma SliceOfConcatLeft<T>(a: seq<T>, b: seq<T>, lo: int, hi: int)
    requires 0 <= lo <= hi <= |a|
    ensures (a + b)[lo..hi] == a[lo..hi]
  {
  }

  lemma SliceOfConcatRight<T>(a: seq<T>, b: seq<T>)
    ensures (a + b)[|a|..|a| + |b|] == b
  {
  }

  /** What `draw_triangle(triangle, color)` makes of the colour buffer. Its
      body is not part of this model; all that is known of it is that it
      keeps the buffer's size. */
  type WirePainter = f: (seq<uint32>, Tri, uint32) -> seq<uint32> | forall s, t, c :: |f(s, t, c)| == |s|
    witness (s: seq<uint32>, t: Tri, c: uint32) => s

  /** The buffer after one call: `draw_rect` paints its rectangle; the fill
      helpers are empty, so a filled-triangle call changes nothing; the
      wireframe is what `paint` makes of the buffer. */
  function ApplyCall(s: seq<uint32>, w: nat, h: nat, paint: WirePainter, c: DrawCall): (r: seq<uint32>)
    requires Fits(s, w, h)
    ensures Fits(r, w, h)
  {
    match c
    case RectCall(x, y, rw, rh, color) => Rect(s, w, h, x, y, rw, rh, color)
    case FilledTriangleCall(_, _, _, _, _, _, _) => s
    case WireframeCall(t, color) => paint(s, t, color)
  }

  /** The buffer after the calls, in order. */
  function Replay(s: seq<uint32>, w: nat, h: nat, paint: WirePainter, calls: seq<DrawCall>): (r: seq<uint32>)
    requires Fits(s, w, h)
    ensures Fits(r, w, h)
    decreases |calls|
  {
    if calls == [] then s
    else ApplyCall(Replay(s, w, h, paint, calls[..|calls| - 1]), w, h, paint, calls[|calls| - 1])
  }

  /** One more call is one more `ApplyCall`. */
  lemma ReplayStep(s: seq<uint32>, w: nat, h: nat, paint: WirePainter, calls: seq<DrawCall>, c: DrawCall)
    requires Fits(s, w, h)
    ensures Replay(s, w, h, paint, calls + [c]) == ApplyCall(Replay(s, w, h, paint, calls), w, h, paint, c)
  {
    assert (calls + [c])[..|calls|] == calls;
  }

  /** A vertex marker adds its rectangle to the replayed buffer. */
  lemma DotStep(s: seq<uint32>, w: nat, h: nat, paint: WirePainter, calls: seq<DrawCall>, p: Vec2)
    requires Fits(s, w, h)
    ensures Replay(s, w, h, paint, calls + [DotCall(p)]) ==
              Rect(Replay(s, w, h, paint, calls), w, h, Trunc(p.x - 3.0), Trunc(p.y - 3.0), 6, 6, RED)
  {
    ReplayStep(s, w, h, paint, calls, DotCall(p));
  }

  /** A filled-triangle call leaves the replayed buffer as it was. */
  lemma UnpaintedStep(s: seq<uint32>, w: nat, h: nat, paint: WirePainter, calls: seq<DrawCall>, c: DrawCall)
    requires Fits(s, w, h) && c.FilledTriangleCall?
    ensures Replay(s, w, h, paint, calls + [c]) == Replay(s, w, h, paint, calls)
  {
    ReplayStep(s, w, h, paint, calls, c);
  }

  /** A wireframe call is what `paint` makes of the replayed buffer. */
  lemma WireStep(s: seq<uint32>, w: nat, h: nat, paint: WirePainter, calls: seq<DrawCall>, t: Tri)
    requires Fits(s, w, h)
    ensures Replay(s, w, h, paint, calls + [WireframeCall(t, GREEN)]) == paint(Replay(s, w, h, paint, calls), t, GREEN)
  {
    ReplayStep(s, w, h, paint, calls, WireframeCall(t, GREEN));
  }

  predicate Paints(c: DrawCall, px: int, py: int)
  {
    c.RectCall? && InRect(px, py, c.x, c.y, c.rw, c.rh)
  }

  /** Drawing triangle `t` in `color` leaves pixel (px, py) of a buffer `w`
      pixels wide alone, whatever the buffer holds. */
  ghost predicate KeepsPixel(paint: WirePainter, t: Tri, color: uint32, w: int, px: int, py: int)
  {
    forall s: seq<uint32> :: 0 <= w * py + px < |s| ==> paint(s, t, color)[w * py + px] == s[w * py + px]
  }

  /** No wireframe among `calls` touches pixel (px, py). */
  ghost predicate WiresKeep(paint: WirePainter, calls: seq<DrawCall>, w: int, px: int, py: int)
  {
    forall c :: c in calls && c.WireframeCall? ==> KeepsPixel(paint, c.t, c.color, w, px, py)
  }

  /** When every rectangle in the calls has one colour and no wireframe
      touches the pixel, it ends up that colour iff some rectangle covers it,
      and keeps its colour otherwise. */
  lemma {:induction false} ReplayAt(s: seq<uint32>, w: nat, h: nat, paint: WirePainter, calls: seq<DrawCall>,
                                    color: uint32, px: int, py: int)
    requires Fits(s, w, h) && InViewport(w, h, px, py)
    requires forall c :: c in calls && c.RectCall? ==> c.color == color
    requires WiresKeep(paint, calls, w, px, py)
    ensures 0 <= w * py + px < |s|
    ensures Replay(s, w, h, paint, calls)[w * py + px] == if AnyPaints(calls, px, py) then color else s[w * py + px]
    decreases |calls|
  {
    IndexInRange(w, h, px, py);
    if calls != [] {
      var n := |calls| - 1;
      var front, last := calls[..n], calls[n];
      assert calls == front + [last];
      assert forall c :: c in front ==> c in calls;
      ReplayAt(s, w, h, paint, front, color, px, py);
      var prev := Replay(s, w, h, paint, front);
      if last.RectCall? {
        RectAt(prev, w, h, last.x, last.y, last.rw, last.rh, last.color, px, py);
      } else if last.WireframeCall? {
        assert KeepsPixel(paint, last.t, last.color, w, px, py);
        assert paint(prev, last.t, last.color)[w * py + px] == prev[w * py + px];
      }
      if !Paints(last, px, py) && AnyPaints(calls, px, py) {
        var c :| c in calls && Paints(c, px, py);
        assert c in front;
      }
    }
  }

  predicate InDot(p: Vec2, px: int, py: int)
  {
    InRect(px, py, Trunc(p.x - 3.0), Trunc(p.y - 3.0), 6, 6)
  }

  /** Pixel (px, py) lies under one of the three vertex markers of `t`. */
  predicate DotCovers(t: Tri, px: int, py: int)
  {
    InDot(t.p0, px, py) || InDot(t.p1, px, py) || InDot(t.p2, px, py)
  }

  /** Some rectangle among `calls` covers pixel (px, py). */
  predicate AnyPaints(calls: seq<DrawCall>, px: int, py: int)
  {
    exists c :: c in calls && Paints(c, px, py)
  }

  /** Every rectangle among `calls` is red. */
  predicate AllRed(calls: seq<DrawCall>)
  {
    forall c :: c in calls && c.RectCall? ==> c.color == RED
  }

  /** Pixel (px, py) lies under a vertex marker of some triangle of `ts`. */
  predicate AnyDotCovers(ts: seq<Tri>, px: int, py: int)
  {
    exists i :: 0 <= i < |ts| && DotCovers(ts[i], px, py)
  }

  lemma AnyPaintsConcat(a: seq<DrawCall>, b: seq<DrawCall>, px: int, py: int)
    ensures AnyPaints(a + b, px, py) <==> AnyPaints(a, px, py) || AnyPaints(b, px, py)
    ensures AllRed(a) && AllRed(b) ==> AllRed(a + b)
  {
    if AnyPaints(a + b, px, py) {
      var c :| c in a + b && Paints(c, px, py);
      assert c in a || c in b;
    }
    if AnyPaints(a, px, py) {
      var c :| c in a && Paints(c, px, py);
      assert c in a + b;
    }
    if AnyPaints(b, px, py) {
      var c :| c in b && Paints(c, px, py);
      assert c in a + b;
    }
  }

  lemma AnyDotCoversLast(ts: seq<Tri>, px: int, py: int)
    requires ts != []
    ensures AnyDotCovers(ts, px, py) <==>
              AnyDotCovers(ts[..|ts| - 1], px, py) || DotCovers(ts[|ts| - 1], px, py)
  {
    var n := |ts| - 1;
    var front := ts[..n];
    if AnyDotCovers(ts, px, py) {
      var i :| 0 <= i < |ts| && DotCovers(ts[i], px, py);
      if i < n {
        assert DotCovers(front[i], px, py);
      }
    }
    if AnyDotCovers(front, px, py) {
      var i :| 0 <= i < n && DotCovers(front[i], px, py);
      assert DotCovers(ts[i], px, py);
    }
  }

  /** The only rectangles among one triangle's calls are its red vertex
      markers. */
  lemma TrianglePaints(t: Tri, mode: bv8, px: int, py: int)
    ensures AnyPaints(TriangleCalls(t, mode), px, py) <==> HasMode(mode, RED_DOT) && DotCovers(t, px, py)
    ensures AllRed(TriangleCalls(t, mode))
  {
    var dots := [DotCall(t.p0), DotCall(t.p1), DotCall(t.p2)];
    if HasMode(mode, RED_DOT) && DotCovers(t, px, py) {
      assert dots <= TriangleCalls(t, mode);
      if InDot(t.p0, px, py) {
        assert Paints(dots[0], px, py);
      } else if InDot(t.p1, px, py) {
        assert Paints(dots[1], px, py);
      } else {
        assert Paints(dots[2], px, py);
      }
    }
  }

  /** Across a whole triangle list: a pixel is painted iff the markers are
      on and it lies under a marker of some triangle, and every marker is red. */
  lemma {:induction false} RenderPaints(ts: seq<Tri>, mode: bv8, px: int, py: int)
    ensures AnyPaints(RenderCalls(ts, mode), px, py) <==> HasMode(mode, RED_DOT) && AnyDotCovers(ts, px, py)
    ensures AllRed(RenderCalls(ts, mode))
    decreases |ts|
  {
    if ts != [] {
      var n := |ts| - 1;
      var front := ts[..n];
      RenderPaints(front, mode, px, py);
      TrianglePaints(ts[n], mode, px, py);
      AnyPaintsConcat(RenderCalls(front, mode), TriangleCalls(ts[n], mode), px, py);
      AnyDotCoversLast(ts, px, py);
    }
  }
  /** No green outline of a triangle of `ts` touches pixel (px, py). */
  ghost predicate OutlinesKeep(paint: WirePainter, ts: seq<Tri>, w: int, px: int, py: int)
  {
    forall k :: 0 <= k < |ts| ==> KeepsPixel(paint, ts[k], GREEN, w, px, py)
  }

  /** With the wireframe bit set, the only wireframes among a frame's calls
      are the green outlines of its triangles; so if none of those touches a
      cell, no wireframe call does. */
  lemma {:induction false} RenderWiresKeep(paint: WirePainter, ts: seq<Tri>, mode: bv8, w: int, px: int, py: int)
    requires HasMode(mode, WIREFRAME) ==> OutlinesKeep(paint, ts, w, px, py)
    ensures WiresKeep(paint, RenderCalls(ts, mode), w, px, py)
    decreases |ts|
  {
    if ts != [] {
      var n := |ts| - 1;
      var front := ts[..n];
      assert forall k :: 0 <= k < n ==> front[k] == ts[k];
      RenderWiresKeep(paint, front, mode, w, px, py);
      var fr, tc := RenderCalls(front, mode), TriangleCalls(ts[n], mode);
      assert RenderCalls(ts, mode) == fr + tc;
      forall c: DrawCall | c in fr + tc && c.WireframeCall?
        ensures KeepsPixel(paint, c.t, c.color, w, px, py)
      {
        if c !in fr {
          assert HasMode(mode, WIREFRAME) && c == WireframeCall(ts[n], GREEN);
        }
      }
    }
  }

  /** The frame `render` hands over, pixel by pixel, at a pixel no wireframe
      outline touches (every pixel, when the wireframe bit is clear): red
      under a vertex marker when the markers are on, else a grid dot on every
      tenth row and column, else what the buffer held before. */
  lemma FramePixel(s: seq<uint32>, w: nat, h: nat, paint: WirePainter, ts: seq<Tri>, mode: bv8, px: int, py: int)
    requires Fits(s, w, h) && InViewport(w, h, px, py)
    requires HasMode(mode, WIREFRAME) ==> OutlinesKeep(paint, ts, w, px, py)
    ensures 0 <= w * py + px < |s|
    ensures Replay(Grid(s, w, h), w, h, paint, RenderCalls(ts, mode))[w * py + px] ==
              if HasMode(mode, RED_DOT) && AnyDotCovers(ts, px, py) then RED
              else if OnGrid(px, py) then GRID_COLOR
              else s[w * py + px]
  {
    var calls, g := RenderCalls(ts, mode), Grid(s, w, h);
    RenderPaints(ts, mode, px, py);
    RenderWiresKeep(paint, ts, mode, w, px, py);
    ReplayAt(g, w, h, paint, calls, RED, px, py);
    GridAt(s, w, h, px, py);
  }

  /** In fill-only mode (key 3) a frame shows nothing but the grid: the fill
      helpers are empty, and no other call is made. */
  lemma {:induction false} FillModeDrawsNothing(s: seq<uint32>, w: nat, h: nat, paint: WirePainter, ts: seq<Tri>)
    requires Fits(s, w, h)
    ensures Replay(s, w, h, paint, RenderCalls(ts, FILLED_TRIANGLE)) == s
    decreases |ts|
  {
    if ts != [] {
      var n := |ts| - 1;
      var front := RenderCalls(ts[..n], FILLED_TRIANGLE);
      FillModeDrawsNothing(s, w, h, paint, ts[..n]);
      assert TriangleCalls(ts[n], FILLED_TRIANGLE) == [FilledCall(ts[n])];
      UnpaintedStep(s, w, h, paint, front, FilledCall(ts[n]));
    }
  }

  /** A triangle whose three truncated y values coincide: the split-point
      division of `draw_filled_triangle` would be 0/0. */
  predicate FlatY(t: Tri)
  {
    Trunc(t.p0.y) == Trunc(t.p1.y) && Trunc(t.p1.y) == Trunc(t.p2.y)
  }

  /** Nothing in `update` keeps such a triangle from the list: a kept face
      whose projection is flat in y yields a flat triangle, which `render`
      hands to `draw_filled_triangle` whenever the fill bit is set. */
  lemma FlatTriangleReachesFill(sc: Scene, faces: seq<Face>, j: int)
    requires ValidFaces(faces, |sc.vertices|) && 0 <= j < |faces|
    requires Emits(sc, faces[j]) && FlatY(Projected(sc, faces[j]))
    ensures exists k :: 0 <= k < |FaceTriangles(sc, faces)| && FlatY(FaceTriangles(sc, faces)[k])
  {
    KeptIndicesSpec(sc, faces);
    FaceTrianglesSelect(sc, faces);
    var ks := KeptIndices(sc, faces);
    assert j in ks;
    var k :| 0 <= k < |ks| && ks[k] == j;
    assert FaceTriangles(sc, faces)[k] == Projected(sc, faces[j]);
  }

  // ---------------------------------------------------------------------
  // The program state

  /** The globals of Main.c and display.c that the frame loop reads and
      writes, with the frame buffer and the loaded mesh. */
  class Renderer {
    const display: FrameBuffer
    const geometry: Geometry
    /** `draw_triangle`, as it acts on the colour buffer. */
    const drawTriangle: WirePainter
    /** `mesh.vertices` and `mesh.faces`, as loaded. */
    const vertices: seq<Vec3>
    const faces: seq<Face>
    /** `mesh.rotation`. */
    var rotation: Vec3
    var trianglesToRender: seq<Tri>
    var isRunning: bool
    var backfaceCulling: bool
    var renderingMode: bv8
    var previousFrameTime: int32

    predicate Valid()
    {
      display.Valid() && ValidFaces(faces, |vertices|)
    }

    function CurrentScene(): Scene
      reads this
    {
      Scene(geometry, vertices, rotation, backfaceCulling, display.width, display.height)
    }

    function CurrentFlags(): Flags
      reads this
    {
      Flags(isRunning, backfaceCulling, renderingMode)
    }

    /** `initialize_window` (its outcome is `windowOk`) followed by `setup`:
        allocates the colour buffer, selects wireframe plus vertex markers,
        with culling on; the mesh is the loader's result. */
    constructor (width: nat, height: nat, geometry: Geometry, drawTriangle: WirePainter,
                 vertices: seq<Vec3>, faces: seq<Face>, rotation: Vec3, windowOk: bool)
      requires ValidFaces(faces, |vertices|)
      ensures Valid() && fresh(display)
      ensures display.width == width && display.height == height
      ensures this.geometry == geometry && this.drawTriangle == drawTriangle
      ensures this.vertices == vertices && this.faces == faces
      ensures this.rotation == rotation && trianglesToRender == []
      ensures isRunning == windowOk && backfaceCulling && renderingMode == Modes(true, true, false, false)
      ensures previousFrameTime == 0
    {
      display := new FrameBuffer(width, height);
      this.geometry := geometry;
      this.drawTriangle := drawTriangle;
      this.vertices := vertices;
      this.faces := faces;
      this.rotation := rotation;
      trianglesToRender := [];
      isRunning := windowOk;
      backfaceCulling := true;
      renderingMode := WIREFRAME | RED_DOT;
      previousFrameTime := 0;
    }

    /** `process_input` for the event `e`. */
    method ProcessInput(e: Event)
      modifies this`isRunning, this`backfaceCulling, this`renderingMode
      ensures CurrentFlags() == AfterInput(old(CurrentFlags()), e)
    {
      match e
      case Quit =>
        isRunning := false;
      case KeyDown(k) =>
        if k == Escape {
          isRunning := false;
        }
        if k == KeyC {
          backfaceCulling := true;
        }
        if k == KeyD {
          backfaceCulling := false;
        }
        if k == Key1 {
          renderingMode := WIREFRAME | RED_DOT;
        } else if k == Key2 {
          renderingMode := WIREFRAME;
        } else if k == Key3 {
          renderingMode := FILLED_TRIANGLE;
        } else if k == Key4 {
          renderingMode := FILLED_TRIANGLE | WIREFRAME;
        }
      case OtherEvent =>
    }

    /** `update`: waits out the frame budget (`ticks` is the first
        `SDL_GetTicks`, `ticksAfter` the one after the wait), advances the
        rotation, and rebuilds the triangle list from an empty one by running
        every face through the transform, the culling test and the projection. */
    method Update(ticks: uint32, ticksAfter: uint32) returns (delay: nat)
      requires Valid()
      modifies this`rotation, this`trianglesToRender, this`previousFrameTime
      ensures delay == FrameDelay(ticks, old(previousFrameTime))
      ensures previousFrameTime == ToInt32(ticksAfter)
      ensures rotation == Vec3(old(rotation).x + 0.01, old(rotation).y + 0.01, old(rotation).z + 0.01)
      ensures trianglesToRender == FaceTriangles(CurrentScene(), faces)
    {
      var timeToWait := TimeToWait(ticks, previousFrameTime);
      delay := 0;
      if 0 < timeToWait && timeToWait <= FRAME_TARGET_TIME {
        delay := timeToWait;
      }
      previousFrameTime := ToInt32(ticksAfter);

      trianglesToRender := [];
      rotation := Vec3(rotation.x + 0.01, rotation.y + 0.01, rotation.z + 0.01);

      var sc := CurrentScene();
      for i := 0 to |faces|
        invariant rotation == sc.rotation && backfaceCulling == sc.culling
        invariant previousFrameTime == ToInt32(ticksAfter)
        invariant trianglesToRender == FaceTriangles(sc, faces[..i])
      {
        var face := faces[i];
        var transformed := TransformFace(sc, face);
        FaceTrianglesStep(sc, faces, i);
        if !backfaceCulling || !geometry.isBackFacing(transformed[0], transformed[1], transformed[2]) {
          var projected := ProjectTriangle(sc, transformed);
          trianglesToRender := trianglesToRender + [projected];
        }
      }
      assert faces[..|faces|] == faces;
    }

    /** `render`: the grid, then every triangle's calls in list order, then
        the frame is handed over (`presented`) and the buffer cleared to
        black. `calls` is the sequence of drawing calls made. */
    method Render() returns (presented: seq<uint32>, calls: seq<DrawCall>)
      requires Valid()
      modifies display.colorBuffer
      ensures calls == RenderCalls(trianglesToRender, renderingMode)
      ensures presented == Replay(Grid(old(display.colorBuffer[..]), display.width, display.height),
                                  display.width, display.height, drawTriangle, calls)
      ensures forall i :: 0 <= i < display.colorBuffer.Length ==> display.colorBuffer[i] == BLACK
    {
      var w, h := display.width, display.height;
      display.DrawGrid();
      ghost var g := display.colorBuffer[..];
      calls := [];
      for i := 0 to |trianglesToRender|
        invariant calls == RenderCalls(trianglesToRender[..i], renderingMode)
        invariant display.colorBuffer[..] == Replay(g, w, h, drawTriangle, calls)
      {
        var t := trianglesToRender[i];
        var tc := RenderTriangle(t, g, calls);
        calls := calls + tc;
        assert trianglesToRender[..i + 1][..i] == trianglesToRender[..i];
      }
      assert trianglesToRender[..|trianglesToRender|] == trianglesToRender;
      presented := display.colorBuffer[..];
      display.ClearColorBuffer(BLACK);
    }

    /** One red 6 by 6 vertex marker, drawn over the replay of the calls
        made `before`. */
    method DrawMarker(p: Vec2, ghost g: seq<uint32>, ghost before: seq<DrawCall>)
      requires Valid() && Fits(g, display.width, display.height)
      requires display.colorBuffer[..] == Replay(g, display.width, display.height, drawTriangle, before)
      modifies display.colorBuffer
      ensures display.colorBuffer[..] == Replay(g, display.width, display.height, drawTriangle, before + [DotCall(p)])
    {
      display.DrawRect(Trunc(p.x - 3.0), Trunc(p.y - 3.0), 6, 6, RED);
      DotStep(g, display.width, display.height, drawTriangle, before, p);
    }

    /** The three red vertex markers of `t`, drawn over the replay of the
        calls made `before`. */
    method DrawMarkers(t: Tri, ghost g: seq<uint32>, ghost before: seq<DrawCall>) returns (tc: seq<DrawCall>)
      requires Valid() && Fits(g, display.width, display.height)
      requires display.colorBuffer[..] == Replay(g, display.width, display.height, drawTriangle, before)
      modifies display.colorBuffer
      ensures tc == [DotCall(t.p0), DotCall(t.p1), DotCall(t.p2)]
      ensures display.colorBuffer[..] == Replay(g, display.width, display.height, drawTriangle, before + tc)
    {
      DrawMarker(t.p0, g, before);
      ghost var done := before + [DotCall(t.p0)];
      DrawMarker(t.p1, g, done);
      done := done + [DotCall(t.p1)];
      DrawMarker(t.p2, g, done);
      done := done + [DotCall(t.p2)];
      tc := [DotCall(t.p0), DotCall(t.p1), DotCall(t.p2)];
      assert done == before + tc;
    }

    /** The white fill of `t`, on truncated coordinates, drawn over the
        replay of the calls made `before`. A triangle flat in y is skipped
        rather than sent to the 0/0 split-point division. */
    method DrawFill(t: Tri, ghost g: seq<uint32>, ghost before: seq<DrawCall>)
      requires Valid() && Fits(g, display.width, display.height)
      requires display.colorBuffer[..] == Replay(g, display.width, display.height, drawTriangle, before)
      modifies display.colorBuffer
      ensures display.colorBuffer[..] == Replay(g, display.width, display.height, drawTriangle, before + [FilledCall(t)])
    {
      var drawn := Triangle.DrawFilledTriangleGuarded(
        display, Trunc(t.p0.x), Trunc(t.p0.y), Trunc(t.p1.x), Trunc(t.p1.y), Trunc(t.p2.x), Trunc(t.p2.y), WHITE);
      UnpaintedStep(g, display.width, display.height, drawTriangle, before, FilledCall(t));
    }

    /** `draw_triangle(t, color)`: the colour buffer becomes what
        `drawTriangle` makes of it. */
    method DrawTriangle(t: Tri, color: uint32)
      requires Valid()
      modifies display.colorBuffer
      ensures display.colorBuffer[..] == drawTriangle(old(display.colorBuffer[..]), t, color)
    {
      var after := drawTriangle(display.colorBuffer[..], t, color);
      forall i | 0 <= i < display.colorBuffer.Length {
        display.colorBuffer[i] := after[i];
      }
      assert display.colorBuffer[..] == after;
    }

    /** The green wireframe of `t`, drawn over the replay of the calls made
        `before`. */
    method DrawWire(t: Tri, ghost g: seq<uint32>, ghost before: seq<DrawCall>)
      requires Valid() && Fits(g, display.width, display.height)
      requires display.colorBuffer[..] == Replay(g, display.width, display.height, drawTriangle, before)
      modifies display.colorBuffer
      ensures display.colorBuffer[..] ==
                Replay(g, display.width, display.height, drawTriangle, before + [WireframeCall(t, GREEN)])
    {
      DrawTriangle(t, GREEN);
      WireStep(g, display.width, display.height, drawTriangle, before, t);
    }

    /** The body of `render`'s loop for one triangle: the three vertex
        markers, the fill and the wireframe, each when its bit is set. The
        buffer goes on from the replay of the calls made `before`. */
    method RenderTriangle(t: Tri, ghost g: seq<uint32>, ghost before: seq<DrawCall>) returns (tc: seq<DrawCall>)
      requires Valid() && Fits(g, display.width, display.height)
      requires display.colorBuffer[..] == Replay(g, display.width, display.height, drawTriangle, before)
      modifies display.colorBuffer
      ensures tc == TriangleCalls(t, renderingMode)
      ensures display.colorBuffer[..] == Replay(g, display.width, display.height, drawTriangle, before + tc)
    {
      var dots: seq<DrawCall> := [];
      if HasMode(renderingMode, RED_DOT) {
        dots := DrawMarkers(t, g, before);
      } else {
        assert before + dots == before;
      }
      var fill: seq<DrawCall> := [];
      if HasMode(renderingMode, FILLED_TRIANGLE) {
        DrawFill(t, g, before + dots);
        fill := [FilledCall(t)];
      } else {
        assert before + dots + fill == before + dots;
      }
      var wire: seq<DrawCall> := [];
      if HasMode(renderingMode, WIREFRAME) {
        DrawWire(t, g, before + dots + fill);
        wire := [WireframeCall(t, GREEN)];
      } else {
        assert before + dots + fill + wire == before + dots + fill;
      }
      tc := dots + fill + wire;
      assert before + dots + fill + wire == before + tc;
    }
  }
}
