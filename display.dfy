/** The frame buffer of MyRenderer/src/display.c: the colour and depth
    buffers, the rendering-mode bits, and the drawing primitives that write
    into the colour buffer. */
module Display {
  import opened CNumeric
  import opened Raster

  // ---------------------------------------------------------------------
  // Rendering-mode bits (one `uint8_t` mask)

  const WIREFRAME: bv8 := 0x1
  const RED_DOT: bv8 := 0x2
  const FILLED_TRIANGLE: bv8 := 0x4
  const RENDER_TEXTURE: bv8 := 0x8

  /** The test the frame loop applies: `(mode & bit) == bit`. */
  predicate HasMode(mode: bv8, bit: bv8)
  {
    mode & bit == bit
  }

  /** The mask that switches on the chosen modes, OR-ed together. */
  function Modes(wire: bool, dot: bool, filled: bool, texture: bool): bv8
  {
    (if wire then WIREFRAME else 0) | (if dot then RED_DOT else 0)
    | (if filled then FILLED_TRIANGLE else 0) | (if texture then RENDER_TEXTURE else 0)
  }

  /** The four modes are distinct single bits, so in any OR-combination each
      test sees exactly its own bit. */
  lemma ModeBitsIndependent(wire: bool, dot: bool, filled: bool, texture: bool)
    ensures HasMode(Modes(wire, dot, filled, texture), WIREFRAME) == wire
    ensures HasMode(Modes(wire, dot, filled, texture), RED_DOT) == dot
    ensures HasMode(Modes(wire, dot, filled, texture), FILLED_TRIANGLE) == filled
    ensures HasMode(Modes(wire, dot, filled, texture), RENDER_TEXTURE) == texture
  {
  }

  // ---------------------------------------------------------------------
  // The DDA line

  /** The number of steps of a line: the longer of |dx| and |dy|. */
  function LongestSide(x0: int, y0: int, x1: int, y1: int): (n: nat)
    ensures n == Abs(x1 - x0) || n == Abs(y1 - y0)
    ensures Abs(x1 - x0) <= n && Abs(y1 - y0) <= n
  {
    if Abs(x1 - x0) >= Abs(y1 - y0) then Abs(x1 - x0) else Abs(y1 - y0)
  }

  /** The per-step increment `delta / steps`. With no steps the source divides
      0 by 0.0; that value is never used to place a pixel, and the model takes 0. */
  function Increment(delta: int, steps: nat): real
  {
    if steps == 0 then 0.0 else delta as real / steps as real
  }

  /** The exact position of one coordinate after `i` increments. */
  function Position(start: int, inc: real, i: int): real
  {
    start as real + i as real * inc
  }

  /** The pixels `draw_line` visits, in order: step `i` is the start point
      moved `i` increments along the line, rounded to the nearest pixel. */
  function LinePoints(x0: int, y0: int, x1: int, y1: int): seq<Point>
  {
    var n := LongestSide(x0, y0, x1, y1);
    var xInc, yInc := Increment(x1 - x0, n), Increment(y1 - y0, n);
    seq(n + 1, i => Point(Round(Position(x0, xInc, i)), Round(Position(y0, yInc, i))))
  }

  /** One more increment advances the position to the next step. */
  lemma NextStep(start: int, inc: real, i: int)
    ensures Position(start, inc, i) + inc == Position(start, inc, i + 1)
  {
  }

  /** `steps` increments of `delta / steps` add up to `delta`. */
  lemma ScaledIncrement(delta: int, steps: nat)
    requires steps > 0
    ensures steps as real * Increment(delta, steps) == delta as real
  {
  }

  /** An increment whose delta is no longer than the step count is at most one
      pixel, and exactly one pixel when the delta is the step count. */
  lemma IncrementBounds(delta: int, steps: nat)
    requires steps > 0 && Abs(delta) <= steps
    ensures -1.0 <= Increment(delta, steps) <= 1.0
    ensures Abs(delta) == steps ==> Increment(delta, steps) == 1.0 || Increment(delta, steps) == -1.0
  {
    QuotientBounds(delta as real, steps as real);
  }

  /** A line visits `max(|dx|, |dy|) + 1` pixels, starting at (x0, y0) and
      ending at (x1, y1). */
  lemma LineEnds(x0: int, y0: int, x1: int, y1: int)
    ensures |LinePoints(x0, y0, x1, y1)| == LongestSide(x0, y0, x1, y1) + 1
    ensures LinePoints(x0, y0, x1, y1)[0] == Point(x0, y0)
    ensures LinePoints(x0, y0, x1, y1)[LongestSide(x0, y0, x1, y1)] == Point(x1, y1)
  {
    var n := LongestSide(x0, y0, x1, y1);
    var xInc, yInc := Increment(x1 - x0, n), Increment(y1 - y0, n);
    assert Position(x0, xInc, 0) == x0 as real;
    assert Position(y0, yInc, 0) == y0 as real;
    if n > 0 {
      ScaledIncrement(x1 - x0, n);
      ScaledIncrement(y1 - y0, n);
    }
    assert Position(x0, xInc, n) == x1 as real;
    assert Position(y0, yInc, n) == y1 as real;
    IntegralUnchanged(x0);
    IntegralUnchanged(y0);
    IntegralUnchanged(x1);
    IntegralUnchanged(y1);
  }

  /** Each step moves at most one pixel along either axis before rounding, and
      exactly one along the longer axis. */
  lemma LineIncrements(x0: int, y0: int, x1: int, y1: int)
    requires LongestSide(x0, y0, x1, y1) > 0
    ensures var n := LongestSide(x0, y0, x1, y1);
            -1.0 <= Increment(x1 - x0, n) <= 1.0 && -1.0 <= Increment(y1 - y0, n) <= 1.0
    ensures var n := LongestSide(x0, y0, x1, y1);
            Increment(x1 - x0, n) == 1.0 || Increment(x1 - x0, n) == -1.0 ||
            Increment(y1 - y0, n) == 1.0 || Increment(y1 - y0, n) == -1.0
  {
    var n := LongestSide(x0, y0, x1, y1);
    IncrementBounds(x1 - x0, n);
    IncrementBounds(y1 - y0, n);
  }

  /** The horizontal line from (0, 0) to (10, 0) is exactly the eleven pixels
      (0, 0) .. (10, 0). */
  lemma HorizontalLine()
    ensures LinePoints(0, 0, 10, 0) == seq(11, i => Point(i, 0))
  {
    var pts := LinePoints(0, 0, 10, 0);
    assert Increment(10, 10) == 1.0;
    forall i | 0 <= i < 11
      ensures pts[i] == Point(i, 0)
    {
      IntegralUnchanged(i);
      IntegralUnchanged(0);
    }
  }

  // ---------------------------------------------------------------------
  // The buffers

  class FrameBuffer {
    /** `window_width` and `window_height`. */
    const width: nat
    const height: nat
    /** The packed-ARGB colour of every pixel, row-major. */
    const colorBuffer: array<uint32>
    /** The depth of every pixel, row-major. */
    const zBuffer: array<real>

    predicate Valid()
    {
      colorBuffer.Length == width * height && zBuffer.Length == width * height
    }

    constructor (w: nat, h: nat)
      ensures width == w && height == h && Valid()
      ensures fresh(colorBuffer) && fresh(zBuffer)
    {
      width, height := w, h;
      colorBuffer := new uint32[w * h];
      zBuffer := new real[w * h];
    }

    /** Every one of the `width * height` cells becomes `color`. */
    method ClearColorBuffer(color: uint32)
      requires Valid()
      modifies colorBuffer
      ensures forall i :: 0 <= i < colorBuffer.Length ==> colorBuffer[i] == color
    {
      for y := 0 to height
        invariant forall i :: 0 <= i < width * y ==> colorBuffer[i] == color
      {
        var rowStart := width * y;
        NextRow(width, height, y);
        for x := 0 to width
          invariant forall i :: 0 <= i < rowStart + x ==> colorBuffer[i] == color
        {
          colorBuffer[rowStart + x] := color;
        }
      }
    }

    /** Every depth cell becomes 1.0, the far plane. */
    method ClearZBuffer()
      requires Valid()
      modifies zBuffer
      ensures forall i :: 0 <= i < zBuffer.Length ==> zBuffer[i] == 1.0
    {
      for y := 0 to height
        invariant forall i :: 0 <= i < width * y ==> zBuffer[i] == 1.0
      {
        var rowStart := width * y;
        NextRow(width, height, y);
        for x := 0 to width
          invariant forall i :: 0 <= i < rowStart + x ==> zBuffer[i] == 1.0
        {
          zBuffer[rowStart + x] := 1.0;
        }
      }
    }

    /** Paints a grid dot on every tenth row and column; see `Raster.GridAt`. */
    method DrawGrid()
      requires Valid()
      modifies colorBuffer
      ensures colorBuffer[..] == Grid(old(colorBuffer[..]), width, height)
    {
      ghost var s := colorBuffer[..];
      for y := 0 to height
        invariant forall i :: 0 <= i < colorBuffer.Length ==>
          colorBuffer[i] == if i < width * y && OnGrid(i % width, i / width) then GRID_COLOR else s[i]
      {
        var rowStart := width * y;
        NextRow(width, height, y);
        for x := 0 to width
          invariant forall i :: 0 <= i < colorBuffer.Length ==>
            colorBuffer[i] == if i < rowStart + x && OnGrid(i % width, i / width) then GRID_COLOR else s[i]
        {
          IndexCoordinates(width, x, y);
          if y % 10 == 0 || x % 10 == 0 {
            colorBuffer[rowStart + x] := GRID_COLOR;
          }
        }
      }
    }

    /** A bounds-checked write: see `Raster.PutPixelAt` and `Raster.PutPixelExactly`. */
    method DrawPixel(x: int, y: int, color: uint32)
      requires Valid()
      modifies colorBuffer
      ensures colorBuffer[..] == PutPixel(old(colorBuffer[..]), width, height, x, y, color)
    {
      if x >= 0 && x < width && y >= 0 && y < height {
        IndexInRange(width, height, x, y);
        colorBuffer[width * y + x] := color;
      }
    }

    /** Paints the in-viewport part of `[x, x+rw) x [y, y+rh)`, one
        `DrawPixel` at a time, row by row. */
    method DrawRect(x: int, y: int, rw: int, rh: int, color: uint32)
      requires Valid()
      modifies colorBuffer
      ensures colorBuffer[..] == Rect(old(colorBuffer[..]), width, height, x, y, rw, rh, color)
    {
      ghost var s := colorBuffer[..];
      var row := y;
      while row < y + rh
        invariant row == y || y < row <= y + rh
        invariant forall i :: 0 <= i < colorBuffer.Length ==>
          colorBuffer[i] == if InRect(i % width, i / width, x, y, rw, row - y) then color else s[i]
      {
        var col := x;
        while col < x + rw
          invariant col == x || x < col <= x + rw
          invariant forall i :: 0 <= i < colorBuffer.Length ==>
            colorBuffer[i] == if InRect(i % width, i / width, x, y, rw, row - y)
                                 || (i / width == row && x <= i % width < col) then color else s[i]
        {
          ghost var prev := colorBuffer[..];
          DrawPixel(col, row, color);
          forall i | 0 <= i < colorBuffer.Length
            ensures colorBuffer[i] == if i % width == col && i / width == row then color else prev[i]
          {
            PutPixelAt(prev, width, height, col, row, color, i);
            CellCoordinates(width, height, i);
          }
          col := col + 1;
        }
        row := row + 1;
      }
      ghost var r := Rect(s, width, height, x, y, rw, rh, color);
      assert forall i :: 0 <= i < colorBuffer.Length ==> colorBuffer[i] == r[i];
    }

    /** Draws the DDA line from (x0, y0) to (x1, y1): one `DrawPixel` per
        point of `LinePoints`, in order, so `Raster.PlotAt` says which cells
        change and that none lies outside the viewport. */
    method DrawLine(x0: int, y0: int, x1: int, y1: int, color: uint32)
      requires Valid()
      modifies colorBuffer
      ensures colorBuffer[..] == Plot(old(colorBuffer[..]), width, height, LinePoints(x0, y0, x1, y1), color)
    {
      ghost var s := colorBuffer[..];
      ghost var pts := LinePoints(x0, y0, x1, y1);
      var deltaX := x1 - x0;
      var deltaY := y1 - y0;
      var longest := LongestSide(x0, y0, x1, y1);
      var xInc := Increment(deltaX, longest);
      var yInc := Increment(deltaY, longest);
      var currentX := x0 as real;
      var currentY := y0 as real;
      var i := 0;
      while i <= longest
        invariant 0 <= i <= longest + 1
        invariant currentX == Position(x0, xInc, i)
        invariant currentY == Position(y0, yInc, i)
        invariant colorBuffer[..] == Plot(s, width, height, pts[..i], color)
      {
        assert pts[i] == Point(Round(currentX), Round(currentY));
        DrawPixel(Round(currentX), Round(currentY), color);
        PlotStep(s, width, height, pts, i, color);
        currentX := currentX + xInc;
        currentY := currentY + yInc;
        NextStep(x0, xInc, i);
        NextStep(y0, yInc, i);
        i := i + 1;
      }
      assert pts[..i] == pts;
    }
  }
}
