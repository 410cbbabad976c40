/** The colour buffer as a value: a row-major sequence of `width * height`
    packed colours, the cell of pixel (x, y) being `width * y + x`. The
    functions here say what each drawing operation leaves in the buffer; the
    classes in Display and LegacyDisplay update arrays to match them. */
module Raster {
  import opened CNumeric

  datatype Point = Point(x: int, y: int)

  /** Colour of the background grid dots. */
  const GRID_COLOR: uint32 := 0xFF22_2222
  /** Spacing of the background grid, in pixels. */
  const GRID_SPACING: int := 10

  predicate InViewport(w: int, h: int, x: int, y: int)
  {
    0 <= x < w && 0 <= y < h
  }

  /** The cells of a `w` by `h` buffer: exactly the pixels of the viewport. */
  predicate Fits(s: seq<uint32>, w: nat, h: nat)
  {
    |s| == w * h
  }

  // ---------------------------------------------------------------------
  // Index arithmetic

  lemma MulMonotone(w: int, a: int, b: int)
    requires 0 <= w && a <= b
    ensures w * a <= w * b
  {
    assert w * b - w * a == w * (b - a);
  }

  /** Row `y + 1` starts where row `y` ends, and no row of the viewport
      starts past the end of the buffer. */
  lemma NextRow(w: nat, h: nat, y: int)
    requires 0 <= y < h
    ensures 0 <= w * y && w * y + w == w * (y + 1) <= w * h
  {
    MulMonotone(w, 0, y);
    MulMonotone(w, y + 1, h);
  }

  /** The cell of an in-viewport pixel lies in `[0, w*h)`. */
  lemma IndexInRange(w: int, h: int, x: int, y: int)
    requires InViewport(w, h, x, y)
    ensures 0 <= w * y + x < w * h
  {
    MulMonotone(w, 0, y);
    MulMonotone(w, y + 1, h);
  }

  /** Division by the row length recovers a pixel's coordinates from its cell. */
  lemma IndexCoordinates(w: int, x: int, y: int)
    requires 0 <= x < w && 0 <= y
    ensures (w * y + x) % w == x && (w * y + x) / w == y
  {
    var i := w * y + x;
    var q, r := i / w, i % w;
    assert i == w * q + r;
    assert w * (y - q) == r - x;
    if y - q >= 1 {
      MulMonotone(w, 1, y - q);
    } else if y - q <= -1 {
      MulMonotone(w, y - q, -1);
    }
  }

  /** Every cell of the buffer is the cell of exactly one in-viewport pixel. */
  lemma CellCoordinates(w: nat, h: nat, i: int)
    requires 0 <= i < w * h
    ensures w > 0 && InViewport(w, h, i % w, i / w) && i == w * (i / w) + i % w
  {
    assert w != 0;
    if i / w >= h {
      MulMonotone(w, h, i / w);
    }
  }

  /** Two in-viewport pixels share a cell only if they are the same pixel. */
  lemma IndexInjective(w: int, h: int, x: int, y: int, x': int, y': int)
    requires InViewport(w, h, x, y) && InViewport(w, h, x', y')
    requires w * y + x == w * y' + x'
    ensures x == x' && y == y'
  {
    IndexCoordinates(w, x, y);
    IndexCoordinates(w, x', y');
  }

  // ---------------------------------------------------------------------
  // Background grid

  predicate OnGrid(x: int, y: int)
  {
    x % GRID_SPACING == 0 || y % GRID_SPACING == 0
  }

  /** The buffer after the grid is drawn over `s`. */
  function Grid(s: seq<uint32>, w: nat, h: nat): (r: seq<uint32>)
    requires Fits(s, w, h)
    ensures Fits(r, w, h)
  {
    seq(|s|, i requires 0 <= i < |s| => if OnGrid(i % w, i / w) then GRID_COLOR else s[i])
  }

  /** Pixel (x, y) of the grid is a dot exactly on every tenth row and column,
      and keeps its previous colour everywhere else. */
  lemma GridAt(s: seq<uint32>, w: nat, h: nat, x: int, y: int)
    requires Fits(s, w, h) && InViewport(w, h, x, y)
    ensures 0 <= w * y + x < |s|
    ensures Grid(s, w, h)[w * y + x] == if OnGrid(x, y) then GRID_COLOR else s[w * y + x]
  {
    IndexInRange(w, h, x, y);
    IndexCoordinates(w, x, y);
  }

  /** Drawing the grid twice is drawing it once. */
  lemma GridIdempotent(s: seq<uint32>, w: nat, h: nat)
    requires Fits(s, w, h)
    ensures Grid(Grid(s, w, h), w, h) == Grid(s, w, h)
  {
  }

  // ---------------------------------------------------------------------
  // Single pixels

  /** The buffer after a bounds-checked write of colour `c` at (x, y). */
  function PutPixel(s: seq<uint32>, w: nat, h: nat, x: int, y: int, c: uint32): (r: seq<uint32>)
    requires Fits(s, w, h)
    ensures Fits(r, w, h)
  {
    if InViewport(w, h, x, y) then
      IndexInRange(w, h, x, y);
      s[w * y + x := c]
    else
      s
  }

  /** A pixel write changes the one cell `w*y + x` when (x, y) is in the
      viewport, and nothing at all otherwise. */
  lemma PutPixelAt(s: seq<uint32>, w: nat, h: nat, x: int, y: int, c: uint32, i: int)
    requires Fits(s, w, h) && 0 <= i < |s|
    ensures PutPixel(s, w, h, x, y, c)[i] ==
              if InViewport(w, h, x, y) && i % w == x && i / w == y then c else s[i]
  {
    CellCoordinates(w, h, i);
    if InViewport(w, h, x, y) {
      IndexCoordinates(w, x, y);
    }
  }

  /** Seen pixel by pixel: after drawing (x, y), pixel (px, py) holds the new
      colour iff it is (x, y); every other pixel is unchanged. */
  lemma PutPixelExactly(s: seq<uint32>, w: nat, h: nat, x: int, y: int, c: uint32, px: int, py: int)
    requires Fits(s, w, h) && InViewport(w, h, px, py)
    ensures 0 <= w * py + px < |s|
    ensures PutPixel(s, w, h, x, y, c)[w * py + px] == if px == x && py == y then c else s[w * py + px]
  {
    IndexInRange(w, h, px, py);
    if InViewport(w, h, x, y) && w * py + px == w * y + x {
      IndexInjective(w, h, px, py, x, y);
    }
  }

  // ---------------------------------------------------------------------
  // Rectangles

  predicate InRect(px: int, py: int, x: int, y: int, rw: int, rh: int)
  {
    x <= px < x + rw && y <= py < y + rh
  }

  /** The buffer after every in-viewport pixel of `[x, x+rw) x [y, y+rh)` is
      painted `c`. */
  function Rect(s: seq<uint32>, w: nat, h: nat, x: int, y: int, rw: int, rh: int, c: uint32): (r: seq<uint32>)
    requires Fits(s, w, h)
    ensures Fits(r, w, h)
  {
    seq(|s|, i requires 0 <= i < |s| => if InRect(i % w, i / w, x, y, rw, rh) then c else s[i])
  }

  /** Pixel by pixel: a rectangle paints the pixels inside it and keeps all
      others. */
  lemma RectAt(s: seq<uint32>, w: nat, h: nat, x: int, y: int, rw: int, rh: int, c: uint32, px: int, py: int)
    requires Fits(s, w, h) && InViewport(w, h, px, py)
    ensures 0 <= w * py + px < |s|
    ensures Rect(s, w, h, x, y, rw, rh, c)[w * py + px] == if InRect(px, py, x, y, rw, rh) then c else s[w * py + px]
  {
    IndexInRange(w, h, px, py);
    IndexCoordinates(w, px, py);
  }

  /** A rectangle with no width or no height changes nothing. */
  lemma RectEmpty(s: seq<uint32>, w: nat, h: nat, x: int, y: int, rw: int, rh: int, c: uint32)
    requires Fits(s, w, h) && (rw <= 0 || rh <= 0)
    ensures Rect(s, w, h, x, y, rw, rh, c) == s
  {
  }

  // ---------------------------------------------------------------------
  // Sequences of pixel writes

  /** The buffer after `PutPixel` of colour `c` at each point of `pts`, in order. */
  function Plot(s: seq<uint32>, w: nat, h: nat, pts: seq<Point>, c: uint32): (r: seq<uint32>)
    requires Fits(s, w, h)
    ensures Fits(r, w, h)
    decreases |pts|
  {
    if pts == [] then s
    else
      var last := pts[|pts| - 1];
      PutPixel(Plot(s, w, h, pts[..|pts| - 1], c), w, h, last.x, last.y, c)
  }

  /** Plotting one more point is one more `PutPixel`. */
  lemma PlotStep(s: seq<uint32>, w: nat, h: nat, pts: seq<Point>, i: nat, c: uint32)
    requires Fits(s, w, h) && i < |pts|
    ensures Plot(s, w, h, pts[..i + 1], c) == PutPixel(Plot(s, w, h, pts[..i], c), w, h, pts[i].x, pts[i].y, c)
  {
    assert pts[..i + 1][..i] == pts[..i];
  }

  predicate Hits(w: nat, h: nat, p: Point, i: int)
  {
    InViewport(w, h, p.x, p.y) && i == w * p.y + p.x
  }

  /** A cell changes under `Plot` only when an in-viewport point of `pts` maps
      to it, and every such cell ends up coloured `c`: nothing outside the
      viewport is ever addressed. */
  lemma {:induction false} PlotAt(s: seq<uint32>, w: nat, h: nat, pts: seq<Point>, c: uint32, i: int)
    requires Fits(s, w, h) && 0 <= i < |s|
    ensures Plot(s, w, h, pts, c)[i] ==
              if exists k :: 0 <= k < |pts| && Hits(w, h, pts[k], i) then c else s[i]
    decreases |pts|
  {
    if pts != [] {
      var n := |pts| - 1;
      var front := pts[..n];
      var prev := Plot(s, w, h, front, c);
      PlotAt(s, w, h, front, c, i);
      PutPixelAt(prev, w, h, pts[n].x, pts[n].y, c, i);
      CellCoordinates(w, h, i);
      if Hits(w, h, pts[n], i) {
        IndexCoordinates(w, pts[n].x, pts[n].y);
      } else {
        if InViewport(w, h, pts[n].x, pts[n].y) && i % w == pts[n].x && i / w == pts[n].y {
          assert Hits(w, h, pts[n], i);
        }
      }
      if exists k :: 0 <= k < |pts| && Hits(w, h, pts[k], i) {
        var k :| 0 <= k < |pts| && Hits(w, h, pts[k], i);
        if k < n {
          assert front[k] == pts[k];
        }
      } else {
        forall k | 0 <= k < n
          ensures !Hits(w, h, front[k], i)
        {
          assert front[k] == pts[k];
        }
      }
    }
  }
}
