/** The flat-fill entry point of MyRenderer/src/triangle.c. It sorts the
    three y coordinates, computes the split point M of the triangle by similar
    triangles, and hands the two halves to fill helpers whose bodies are
    empty, so a call draws nothing. */
module Triangle {
  import opened CNumeric
  import opened Raster
  import opened Display

  /** `vec2_swap`: exchanges the two integers it is given. */
  method Vec2Swap(a: int, b: int) returns (a': int, b': int)
    ensures a' == b && b' == a
  {
    var tmp := a;
    a' := b;
    b' := tmp;
  }

  /** `fill_flat_bottom_trinalge`: it may write the colour buffer, but its
      body is empty, so every pixel keeps its colour. */
  method FillFlatBottomTriangle(fb: FrameBuffer, x0: int, y0: int, x1: int, y1: int, x2: int, y2: int, color: uint32)
    modifies fb.colorBuffer
    ensures fb.colorBuffer[..] == old(fb.colorBuffer[..])
  {
  }

  /** `fill_flat_top_trinalge`: its body is empty as well. */
  method FillFlatTopTriangle(fb: FrameBuffer, x0: int, y0: int, x1: int, y1: int, x2: int, y2: int, color: uint32)
    modifies fb.colorBuffer
    ensures fb.colorBuffer[..] == old(fb.colorBuffer[..])
  {
  }

  /** The arguments of one call to a fill helper (the colour aside). */
  datatype FillCall = FillCall(x0: int, y0: int, x1: int, y1: int, x2: int, y2: int)

  /** The x coordinate, in exact arithmetic, of the point at height `y1` on
      the edge from (x0, y0) to (x2, y2). */
  function MidpointX(x0: int, y0: int, x2: int, y1: int, y2: int): real
    requires y2 != y0
  {
    ((x2 - x0) * (y1 - y0)) as real / (y2 - y0) as real + x0 as real
  }

  /** The split point lies on the long edge: the triangles (x0,y0)-(Mx,y1)
      and (x0,y0)-(x2,y2) are similar. */
  lemma MidpointOnEdge(x0: int, y0: int, x2: int, y1: int, y2: int)
    requires y2 != y0
    ensures (MidpointX(x0, y0, x2, y1, y2) - x0 as real) * (y2 - y0) as real == ((x2 - x0) * (y1 - y0)) as real
  {
  }

  /** With y0 <= y1 < y2 ordered, the split point is x0 moved by a fraction
      `f` in [0, 1] of the way to x2. */
  lemma MidpointFraction(x0: int, y0: int, x2: int, y1: int, y2: int) returns (f: real)
    requires y0 <= y1 <= y2 && y0 < y2
    ensures 0.0 <= f <= 1.0
    ensures MidpointX(x0, y0, x2, y1, y2) == x0 as real + (x2 - x0) as real * f
  {
    var a, b, c := x2 - x0, y1 - y0, y2 - y0;
    f := b as real / c as real;
    CastProduct(a, b);
    QuotientBounds(b as real, c as real);
    DivideProduct(a as real, b as real, c as real);
  }

  /** With y0 <= y1 <= y2 and y0 < y2, the split point lies between x0 and
      x2. */
  lemma MidpointBetween(x0: int, y0: int, x2: int, y1: int, y2: int)
    requires y0 <= y1 <= y2 && y0 < y2
    ensures var m := MidpointX(x0, y0, x2, y1, y2);
            (x0 <= x2 ==> x0 as real <= m <= x2 as real) && (x2 <= x0 ==> x2 as real <= m <= x0 as real)
  {
    var f := MidpointFraction(x0, y0, x2, y1, y2);
    ScaleByFraction((x2 - x0) as real, f);
  }

  /** The same holds after the split point is truncated to an integer, as
      the assignment to `Mx` does. */
  lemma TruncatedMidpointBetween(x0: int, y0: int, x2: int, y1: int, y2: int)
    requires y0 <= y1 <= y2 && y0 < y2
    ensures var t := Trunc(MidpointX(x0, y0, x2, y1, y2));
            (x0 <= x2 ==> x0 <= t <= x2) && (x2 <= x0 ==> x2 <= t <= x0)
  {
    var m := MidpointX(x0, y0, x2, y1, y2);
    MidpointBetween(x0, y0, x2, y1, y2);
    if x0 <= x2 {
      TruncBetween(x0, x2, m);
    } else {
      TruncBetween(x2, x0, m);
    }
  }

  /** `draw_filled_triangle`: reorders its y parameters with three
      conditional swaps, computes M = (Mx, My), and calls the two (empty) fill
      helpers, whose arguments are returned. No pixel changes, since both
      helpers are empty. The x parameters are never swapped; see
      `YSortScramblesVertices`. The division by `y2 - y0` needs the three y
      values not to be all equal; see `DrawFilledTriangleGuarded`. */
  method DrawFilledTriangle(fb: FrameBuffer, x0: int, y0: int, x1: int, y1: int, x2: int, y2: int, color: uint32)
    returns (bottom: FillCall, top: FillCall)
    requires !(y0 == y1 && y1 == y2)
    modifies fb.colorBuffer
    ensures fb.colorBuffer[..] == old(fb.colorBuffer[..])
    ensures bottom.y0 <= bottom.y1 <= top.y2 && bottom.y0 < top.y2
    ensures multiset{bottom.y0, bottom.y1, top.y2} == multiset{y0, y1, y2}
    ensures bottom.x0 == x0 && bottom.x1 == x1 && top.x0 == x1 && top.x2 == x2
    ensures top.y0 == bottom.y1 && bottom.y2 == bottom.y1 && top.y1 == bottom.y1
    ensures bottom.x2 == top.x1 == Trunc(MidpointX(x0, bottom.y0, x2, bottom.y1, top.y2))
  {
    var ya, yb, yc := y0, y1, y2;
    if ya > yb {
      ya, yb := Vec2Swap(ya, yb);
    }
    if yb > yc {
      yb, yc := Vec2Swap(yb, yc);
    }
    if ya > yb {
      ya, yb := Vec2Swap(ya, yb);
    }
    var my := yb;
    var mx := Trunc(((x2 - x0) * (yb - ya)) as real / (yc - ya) as real + x0 as real);
    FillFlatBottomTriangle(fb, x0, ya, x1, yb, mx, my, color);
    FillFlatTopTriangle(fb, x1, yb, mx, my, x2, yc, color);
    bottom := FillCall(x0, ya, x1, yb, mx, my);
    top := FillCall(x1, yb, mx, my, x2, yc);
  }

  /** Because only the y values are sorted, the vertices handed to the fill
      helpers need not be vertices of the triangle: for (0,10), (5,0), (10,5)
      the first is (0, 0), and the three handed over lie on one line. */
  lemma YSortScramblesVertices(bottom: FillCall, top: FillCall)
    requires bottom.y0 <= bottom.y1 <= top.y2
    requires multiset{bottom.y0, bottom.y1, top.y2} == multiset{10, 0, 5}
    requires bottom.x0 == 0 && bottom.x1 == 5 && top.x2 == 10
    ensures Point(bottom.x0, bottom.y0) == Point(0, 0)
    ensures Point(bottom.x0, bottom.y0) !in {Point(0, 10), Point(5, 0), Point(10, 5)}
    ensures (bottom.x1 - bottom.x0) * (top.y2 - bottom.y0) == (top.x2 - bottom.x0) * (bottom.y1 - bottom.y0)
  {
    assert bottom.y0 in multiset{10, 0, 5};
    assert bottom.y1 in multiset{10, 0, 5};
    assert top.y2 in multiset{10, 0, 5};
  }

  /** The triangle (0,10), (5,0), (10,5) drawn as written: the first vertex
      handed to the fill helpers is (0, 0), and the three handed over are
      collinear. */
  method ScrambledFill(fb: FrameBuffer, color: uint32) returns (bottom: FillCall, top: FillCall)
    modifies fb.colorBuffer
    ensures Point(bottom.x0, bottom.y0) == Point(0, 0)
    ensures Point(bottom.x0, bottom.y0) !in {Point(0, 10), Point(5, 0), Point(10, 5)}
    ensures (bottom.x1 - bottom.x0) * (top.y2 - bottom.y0) == (top.x2 - bottom.x0) * (bottom.y1 - bottom.y0)
  {
    bottom, top := DrawFilledTriangle(fb, 0, 10, 5, 0, 10, 5, color);
    YSortScramblesVertices(bottom, top);
  }

  /** `draw_filled_triangle` as it evidently should be called: a triangle
      whose three y values coincide has no area and is skipped, instead of
      reaching the 0/0 division of the split point. No pixel changes either
      way. */
  method DrawFilledTriangleGuarded(fb: FrameBuffer, x0: int, y0: int, x1: int, y1: int, x2: int, y2: int, color: uint32)
    returns (drawn: bool)
    modifies fb.colorBuffer
    ensures drawn <==> !(y0 == y1 && y1 == y2)
    ensures fb.colorBuffer[..] == old(fb.colorBuffer[..])
  {
    drawn := !(y0 == y1 && y1 == y2);
    if drawn {
      var bottom, top := DrawFilledTriangle(fb, x0, y0, x1, y1, x2, y2, color);
    }
  }

  /** The evidently intended ordering: the three vertices, sorted by y, each
      keeping its own x. */
  method SortVerticesByY(p0: Point, p1: Point, p2: Point) returns (q0: Point, q1: Point, q2: Point)
    ensures q0.y <= q1.y <= q2.y
    ensures multiset{q0, q1, q2} == multiset{p0, p1, p2}
  {
    q0, q1, q2 := p0, p1, p2;
    if q0.y > q1.y {
      q0, q1 := q1, q0;
    }
    if q1.y > q2.y {
      q1, q2 := q2, q1;
    }
    if q0.y > q1.y {
      q0, q1 := q1, q0;
    }
  }
}
