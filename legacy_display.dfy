/** The earlier frame buffer of MyRenderer/display.c. It has the same
    buffer layout as Display.FrameBuffer, but weaker guards: `draw_pixel`
    checks only the upper bounds, and `draw_rect` takes end coordinates and
    writes without any check. The preconditions here state what a caller must
    guarantee so that no write leaves the buffer. */
module LegacyDisplay {
  import opened CNumeric
  import opened Raster

  /** The older guard: only the upper bounds are checked. */
  predicate UpperGuard(w: int, h: int, x: int, y: int)
  {
    x < w && y < h
  }

  /** When the guard passes and the cell is not negative, it lies below `w*h`. */
  lemma UpperGuardIndex(w: nat, h: nat, x: int, y: int)
    requires UpperGuard(w, h, x, y) && 0 <= w * y + x
    ensures w * y + x < w * h
  {
    MulMonotone(w, y + 1, h);
  }

  /** The buffer after the older `draw_pixel`: cell `w*y + x` is written
      whenever `x < w` and `y < h`. Negative coordinates pass the guard, so the
      caller must keep that cell non-negative. */
  function LegacyPutPixel(s: seq<uint32>, w: nat, h: nat, x: int, y: int, c: uint32): (r: seq<uint32>)
    requires Fits(s, w, h)
    requires UpperGuard(w, h, x, y) ==> 0 <= w * y + x
    ensures Fits(r, w, h)
  {
    if UpperGuard(w, h, x, y) then
      UpperGuardIndex(w, h, x, y);
      s[w * y + x := c]
    else
      s
  }

  /** The older write agrees with the bounds-checked one on every in-viewport
      pixel, and on every pixel the guard rejects. */
  lemma LegacyPutPixelAgrees(s: seq<uint32>, w: nat, h: nat, x: int, y: int, c: uint32)
    requires Fits(s, w, h)
    requires InViewport(w, h, x, y) || !UpperGuard(w, h, x, y)
    ensures LegacyPutPixel(s, w, h, x, y, c) == PutPixel(s, w, h, x, y, c)
  {
  }

  /** Pixel (-1, 1) is off screen, yet the older guard lets it through and the
      write lands on pixel (w-1, 0); the bounds-checked write leaves the buffer
      alone. */
  lemma LegacyPixelWraps(s: seq<uint32>, w: nat, h: nat, c: uint32)
    requires Fits(s, w, h) && 1 <= w && 2 <= h
    ensures !InViewport(w, h, -1, 1)
    ensures LegacyPutPixel(s, w, h, -1, 1, c)[w - 1] == c
    ensures PutPixel(s, w, h, -1, 1, c) == s
  {
    UpperGuardIndex(w, h, -1, 1);
    IndexInRange(w, h, w - 1, 0);
  }

  /** The rectangle the older `draw_rect(x, y, xEnd, yEnd)` paints is
      `[x, xEnd) x [y, yEnd)`: asked for a 5 by 5 square at (10, 10) it paints
      nothing, where the bounds-checked version paints every pixel (px, py)
      of the square. */
  lemma LegacySquareVanishes(s: seq<uint32>, w: nat, h: nat, c: uint32, px: int, py: int)
    requires Fits(s, w, h) && 15 <= w && 15 <= h
    requires 10 <= px < 15 && 10 <= py < 15
    ensures Rect(s, w, h, 10, 10, 5 - 10, 5 - 10, c) == s
    ensures 0 <= w * py + px < |s| && Rect(s, w, h, 10, 10, 5, 5, c)[w * py + px] == c
  {
    RectEmpty(s, w, h, 10, 10, 5 - 10, 5 - 10, c);
    RectAt(s, w, h, 10, 10, 5, 5, c, px, py);
  }

  class LegacyFrameBuffer {
    /** `window_width` and `window_height`, taken from the display mode. */
    const width: nat
    const height: nat
    /** The packed-ARGB colour of every pixel, row-major. */
    const colorBuffer: array<uint32>

    predicate Valid()
    {
      colorBuffer.Length == width * height
    }

    constructor (w: nat, h: nat)
      ensures width == w && height == h && Valid() && fresh(colorBuffer)
    {
      width, height := w, h;
      colorBuffer := new uint32[w * h];
    }

    /** Every one of the `width * height` cells becomes `color`. */
    method ClearColorBuffer(color: uint32)
      requires Valid()
      modifies colorBuffer
      ensures forall i :: 0 <= i < colorBuffer.Length ==> colorBuffer[i] == color
    {
      for y := 0 to height
        invariant forall i :: 0 <= i < width * y ==> colorBuffer[i] == color
      {
        var rowStart := width * y;
        NextRow(width, height, y);
        for x := 0 to width
          invariant forall i :: 0 <= i < rowStart + x ==> colorBuffer[i] == color
        {
          colorBuffer[rowStart + x] := color;
        }
      }
    }

    /** Paints a grid dot on every tenth row and column; see `Raster.GridAt`. */
    method DrawGrid()
      requires Valid()
      modifies colorBuffer
      ensures colorBuffer[..] == Grid(old(colorBuffer[..]), width, height)
    {
      ghost var s := colorBuffer[..];
      for y := 0 to height
        invariant forall i :: 0 <= i < colorBuffer.Length ==>
          colorBuffer[i] == if i < width * y && OnGrid(i % width, i / width) then GRID_COLOR else s[i]
      {
        var rowStart := width * y;
        NextRow(width, height, y);
        for x := 0 to width
          invariant forall i :: 0 <= i < colorBuffer.Length ==>
            colorBuffer[i] == if i < rowStart + x && OnGrid(i % width, i / width) then GRID_COLOR else s[i]
        {
          IndexCoordinates(width, x, y);
          if y % 10 == 0 || x % 10 == 0 {
            colorBuffer[rowStart + x] := GRID_COLOR;
          }
        }
      }
    }

    /** Writes every cell of `[x, xEnd) x [y, yEnd)` (the source names the end
        coordinates `width` and `height`) with no bounds check, so a non-empty
        rectangle must lie inside the viewport. */
    method DrawRect(x: int, y: int, xEnd: int, yEnd: int, color: uint32)
      requires Valid()
      requires x >= xEnd || y >= yEnd || (0 <= x && 0 <= y && xEnd <= width && yEnd <= height)
      modifies colorBuffer
      ensures colorBuffer[..] == Rect(old(colorBuffer[..]), width, height, x, y, xEnd - x, yEnd - y, color)
    {
      ghost var s := colorBuffer[..];
      var row := y;
      while row < yEnd
        invariant row == y || y < row <= yEnd
        invariant forall i :: 0 <= i < colorBuffer.Length ==>
          colorBuffer[i] == if InRect(i % width, i / width, x, y, xEnd - x, row - y) then color else s[i]
      {
        var col := x;
        while col < xEnd
          invariant col == x || x < col <= xEnd
          invariant forall i :: 0 <= i < colorBuffer.Length ==>
            colorBuffer[i] == if InRect(i % width, i / width, x, y, xEnd - x, row - y)
                                 || (i / width == row && x <= i % width < col) then color else s[i]
        {
          ghost var prev := colorBuffer[..];
          IndexInRange(width, height, col, row);
          IndexCoordinates(width, col, row);
          colorBuffer[width * row + col] := color;
          forall i | 0 <= i < colorBuffer.Length
            ensures colorBuffer[i] == if i % width == col && i / width == row then color else prev[i]
          {
            CellCoordinates(width, height, i);
          }
          col := col + 1;
        }
        row := row + 1;
      }
      ghost var r := Rect(s, width, height, x, y, xEnd - x, yEnd - y, color);
      assert forall i :: 0 <= i < colorBuffer.Length ==> colorBuffer[i] == r[i];
    }

    /** The older `draw_pixel`: see `LegacyPutPixel`. */
    method DrawPixel(x: int, y: int, color: uint32)
      requires Valid()
      requires UpperGuard(width, height, x, y) ==> 0 <= width * y + x
      modifies colorBuffer
      ensures colorBuffer[..] == LegacyPutPixel(old(colorBuffer[..]), width, height, x, y, color)
    {
      if x < width && y < height {
        UpperGuardIndex(width, height, x, y);
        colorBuffer[width * y + x] := color;
      }
    }
  }
}
