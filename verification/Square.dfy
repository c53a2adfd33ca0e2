/** The square drawn over the checkerboard: it may start at an odd pixel, and shares chroma with its neighbours. */
module Square {
  import opened Yuv
  import opened FrameLayout
  import opened FrameWriting

  /** Where the square starts, and how many pairs and up to which row it is drawn. */
  datatype Rect = Rect(x: nat, y: nat, pairs: nat, ystop: nat)

  /** The square after clipping: the last pair may begin at the last pixel before the stop. */
  function Clipped(width: nat, height: nat, x: nat, y: nat, size: nat): Rect {
    var xstop := if x + size < width then x + size else width;
    var ystop := if y + size < height then y + size else height;
    Rect(x, y, if x < xstop then (xstop - x + 1) / 2 else 0, ystop)
  }

  /** A square being drawn: the frame it is drawn over, and what its pixels and samples get. */
  datatype Overlay = Overlay(was: seq<Byte>, rect: Rect, luma: Byte, colour: YuvPixel)

  /** Luma byte m is part of the square, as far as it is drawn before pair i of row y. */
  predicate LumaIn(r: Rect, width: nat, y: nat, i: nat, m: nat)
    requires width > 0
  {
    var row, col := RowOf(width, m), ColOf(width, m);
    && r.y <= row && r.x <= col
    && ((row < y && col < r.x + 2 * r.pairs) || (row == y && col < r.x + 2 * i))
  }

  /** Chroma sample k likewise; a chroma row belongs to the square if one of its two rows does. */
  predicate SampleIn(r: Rect, pairs: nat, y: nat, i: nat, k: nat)
    requires pairs > 0
  {
    var row, col := RowOf(pairs, k), ColOf(pairs, k);
    && r.y / 2 <= row && r.x / 2 <= col
    && ((r.y < y && 2 * row < y && col < r.x / 2 + r.pairs) || (row == y / 2 && col < r.x / 2 + i))
  }

  function ChromaAt(s: seq<Byte>, p: Planes, k: nat): YuvPixel {
    YuvPixel(0, if At(p.u, p.step, k) < |s| then s[At(p.u, p.step, k)] else 0,
             if At(p.v, p.step, k) < |s| then s[At(p.v, p.step, k)] else 0)
  }

  function SampleColour(o: Overlay, g: Geometry, y: nat, i: nat, k: nat): YuvPixel
    requires g.pairs > 0
  {
    if SampleIn(o.rect, g.pairs, y, i, k) then o.colour else ChromaAt(o.was, g.planes, k)
  }

  ghost predicate LumaOverlaid(s: seq<Byte>, o: Overlay, g: Geometry, y: nat, i: nat)
    requires g.pairs > 0
  {
    g.area <= |s| && g.area <= |o.was| &&
    forall m: nat :: m < g.area ==> s[m] == if LumaIn(o.rect, 2 * g.pairs, y, i, m) then o.luma else o.was[m]
  }

  ghost predicate ChromaOverlaid(s: seq<Byte>, o: Overlay, g: Geometry, y: nat, i: nat)
    requires g.pairs > 0
  {
    forall k: nat :: k < g.samples ==> SampleDrawn(s, g.planes, k, SampleColour(o, g, y, i, k))
  }

  ghost predicate Overlaid(s: seq<Byte>, o: Overlay, g: Geometry, y: nat, i: nat)
    requires g.pairs > 0
  {
    LumaOverlaid(s, o, g, y, i) && ChromaOverlaid(s, o, g, y, i)
  }

  /** A row of the square lies in the frame: all its pairs of pixels, and their chroma samples. */
  ghost predicate SquareRowFits(g: Geometry, size: nat, rect: Rect, r: Row) {
    RowFits(g, size, r) && rect.y <= r.y && rect.x + 2 * rect.pairs <= 2 * g.pairs
  }

  ghost predicate SquareFits(g: Geometry, size: nat, rect: Rect) {
    forall y: nat :: rect.y <= y < rect.ystop ==> SquareRowFits(g, size, rect, RowAt(g.pairs, y))
  }

  // Where pair i of the square lies in a row.

  function SquareLuma(rect: Rect, r: Row, i: nat): nat {
    2 * r.pair + rect.x + 2 * i
  }

  function SquareSample(rect: Rect, r: Row, i: nat): nat {
    r.sample + rect.x / 2 + i
  }

  lemma LumaInOneMore(rect: Rect, width: nat, y: nat, i: nat, m: nat)
    requires rect.y <= y && rect.x + 2 * i + 1 < width
    ensures LumaIn(rect, width, y, i + 1, m) <==>
            LumaIn(rect, width, y, i, m) || m == y * width + rect.x + 2 * i || m == y * width + rect.x + 2 * i + 1
  {
    CellAt(width, y, rect.x + 2 * i);
    CellAt(width, y, rect.x + 2 * i + 1);
    CellIs(width, m);
  }

  lemma SampleInOneMore(rect: Rect, pairs: nat, r: Row, i: nat, k: nat)
    requires rect.y <= r.y && rect.x / 2 + i < pairs && i < rect.pairs && r == RowAt(pairs, r.y)
    ensures SampleIn(rect, pairs, r.y, i + 1, k) <==>
            SampleIn(rect, pairs, r.y, i, k) || k == SquareSample(rect, r, i)
  {
    CellAt(pairs, r.y / 2, rect.x / 2 + i);
    CellIs(pairs, k);
  }

  /** The frame after pair i of a row of the square. */
  ghost function WithPair(s: seq<Byte>, o: Overlay, g: Geometry, r: Row, i: nat): seq<Byte>
    requires StepFits(g, |s|, SquareLuma(o.rect, r, i), SquareSample(o.rect, r, i))
  {
    Put(s, g, SquareLuma(o.rect, r, i), SquareSample(o.rect, r, i), o.luma, o.colour)
  }

  lemma LumaOneMore(s: seq<Byte>, o: Overlay, g: Geometry, r: Row, i: nat)
    requires SquareRowFits(g, |s|, o.rect, r) && i < o.rect.pairs && LumaOverlaid(s, o, g, r.y, i)
    ensures LumaOverlaid(WithPair(s, o, g, r, i), o, g, r.y, i + 1)
  {
    PutEffect(s, g, SquareLuma(o.rect, r, i), SquareSample(o.rect, r, i), o.luma, o.colour);
    var t := WithPair(s, o, g, r, i);
    RowStart(g.pairs, r.y);
    forall m: nat | m < g.area
      ensures t[m] == if LumaIn(o.rect, 2 * g.pairs, r.y, i + 1, m) then o.luma else o.was[m]
    {
      LumaInOneMore(o.rect, 2 * g.pairs, r.y, i, m);
    }
  }

  lemma ChromaOneMore(s: seq<Byte>, o: Overlay, g: Geometry, r: Row, i: nat)
    requires SquareRowFits(g, |s|, o.rect, r) && i < o.rect.pairs && ChromaOverlaid(s, o, g, r.y, i)
    ensures ChromaOverlaid(WithPair(s, o, g, r, i), o, g, r.y, i + 1)
  {
    var l, k, next := SquareLuma(o.rect, r, i), SquareSample(o.rect, r, i), i + 1;
    forall j: nat | j < g.samples
      ensures SampleDrawn(WithPair(s, o, g, r, i), g.planes, j, SampleColour(o, g, r.y, next, j))
    {
      SampleInOneMore(o.rect, g.pairs, r, i, j);
      assert SampleDrawn(s, g.planes, j, SampleColour(o, g, r.y, i, j));
      PutKeepsSample(s, g, l, k, o.luma, o.colour, j, SampleColour(o, g, r.y, next, j));
    }
  }

  lemma LumaNextRow(s: seq<Byte>, o: Overlay, g: Geometry, y: nat)
    requires g.pairs > 0 && o.rect.y <= y && LumaOverlaid(s, o, g, y, o.rect.pairs)
    ensures LumaOverlaid(s, o, g, y + 1, 0)
  {
    assert forall m: nat :: LumaIn(o.rect, 2 * g.pairs, y + 1, 0, m) == LumaIn(o.rect, 2 * g.pairs, y, o.rect.pairs, m);
  }

  lemma ChromaNextRow(s: seq<Byte>, o: Overlay, g: Geometry, y: nat)
    requires g.pairs > 0 && o.rect.y <= y && ChromaOverlaid(s, o, g, y, o.rect.pairs)
    ensures ChromaOverlaid(s, o, g, y + 1, 0)
  {
    var next := y + 1;
    forall k: nat | k < g.samples ensures SampleDrawn(s, g.planes, k, SampleColour(o, g, next, 0, k)) {
      assert SampleIn(o.rect, g.pairs, next, 0, k) == SampleIn(o.rect, g.pairs, y, o.rect.pairs, k);
      assert SampleDrawn(s, g.planes, k, SampleColour(o, g, y, o.rect.pairs, k));
    }
  }

  lemma SquareRowDone(s: seq<Byte>, o: Overlay, g: Geometry, y: nat)
    requires g.pairs > 0 && o.rect.y <= y && Overlaid(s, o, g, y, o.rect.pairs)
    ensures Overlaid(s, o, g, y + 1, 0)
  {
    LumaNextRow(s, o, g, y);
    ChromaNextRow(s, o, g, y);
  }

  lemma NothingOverlaid(o: Overlay, g: Geometry)
    requires g.pairs > 0 && Apart(g, |o.was|)
    ensures Overlaid(o.was, o, g, o.rect.y, 0)
  {
    forall k: nat | k < g.samples
      ensures SampleDrawn(o.was, g.planes, k, SampleColour(o, g, o.rect.y, 0, k))
    {
      assert IsSample(g, k) && SampleInside(g, |o.was|, k);
    }
  }

  /** The pointers stand before pair i of a row of the square. */
  predicate PointIn(at: Pointers, p: Planes, rect: Rect, r: Row, i: nat) {
    && at.luma == SquareLuma(rect, r, i)
    && at.u == At(p.u, p.step, SquareSample(rect, r, i)) && at.v == At(p.v, p.step, SquareSample(rect, r, i))
  }

  method DrawSquarePair(frame: array<Byte>, g: Geometry, at: Pointers, c: YuvPixel, expose: Byte -> Byte,
                        ghost o: Overlay, ghost r: Row, ghost i: nat)
    requires SquareRowFits(g, frame.Length, o.rect, r) && i < o.rect.pairs && PointIn(at, g.planes, o.rect, r, i)
    requires o.colour == c && o.luma == expose(c.y) && Overlaid(frame[..], o, g, r.y, i)
    modifies frame
    ensures Overlaid(frame[..], o, g, r.y, i + 1)
  {
    LumaOneMore(frame[..], o, g, r, i);
    ChromaOneMore(frame[..], o, g, r, i);
    WritePair(frame, g, at, c, expose, SquareSample(o.rect, r, i));
  }

  /** The pixel index x runs up to the stop in steps of two; a last pair may reach one pixel beyond. */
  predicate PairsUpTo(x: nat, xstop: nat, n: nat) {
    if x < xstop then x + 2 * n == xstop || x + 2 * n == xstop + 1 else n == 0
  }

  method DrawSquareRow(frame: array<Byte>, g: Geometry, x: nat, xstop: nat, start: Pointers, c: YuvPixel,
                       expose: Byte -> Byte, ghost o: Overlay, ghost r: Row)
    requires o.rect.x == x && PairsUpTo(x, xstop, o.rect.pairs)
    requires SquareRowFits(g, frame.Length, o.rect, r) && PointIn(start, g.planes, o.rect, r, 0)
    requires o.colour == c && o.luma == expose(c.y) && Overlaid(frame[..], o, g, r.y, 0)
    modifies frame
    ensures Overlaid(frame[..], o, g, r.y, o.rect.pairs)
  {
    var at, i := start, x;
    ghost var n: nat := 0;
    while i < xstop
      invariant i == x + 2 * n && n <= o.rect.pairs && PointIn(at, g.planes, o.rect, r, n)
      invariant Overlaid(frame[..], o, g, r.y, n)
    {
      DrawSquarePair(frame, g, at, c, expose, o, r, n);
      at := NextPair(at, g.planes);
      i := i + 2;
      n := n + 1;
    }
  }

  /** Where a row of the square starts in the chroma planes. */
  method SquareRowStart(p: Planes, uvInRow: nat, x: nat, y: nat, ghost pairs: nat) returns (u: nat, v: nat)
    requires uvInRow == At(0, p.step, pairs)
    ensures u == At(p.u, p.step, y / 2 * pairs + x / 2) && v == At(p.v, p.step, y / 2 * pairs + x / 2)
  {
    var iUv := y / 2 * uvInRow + x / 2 * p.step;
    SampleOffset(p.u, p.step, y / 2, pairs, x / 2);
    SampleOffset(p.v, p.step, y / 2, pairs, x / 2);
    u, v := p.u + iUv, p.v + iUv;
  }

  lemma SampleOffset(start: nat, step: Step, q: nat, pairs: nat, i: nat)
    ensures start + q * At(0, step, pairs) + i * step == At(start, step, q * pairs + i)
  {
    if step == 2 {
      assert q * (2 * pairs) == 2 * (q * pairs);
    }
  }

  function Max(a: nat, b: nat): nat {
    if a < b then b else a
  }

  /** One row; `yPos` is the start of the square's pixels in it. */
  method DrawOneRow(frame: array<Byte>, g: Geometry, uvInRow: nat, x: nat, xstop: nat, y: nat, yPos: nat, c: YuvPixel,
                    expose: Byte -> Byte, ghost o: Overlay)
    requires g.pairs > 0 && uvInRow == At(0, g.planes.step, g.pairs)
    requires o.rect.x == x && o.rect.y <= y < o.rect.ystop && PairsUpTo(x, xstop, o.rect.pairs)
    requires SquareFits(g, frame.Length, o.rect) && yPos == 2 * (y * g.pairs) + x
    requires o.colour == c && o.luma == expose(c.y) && Overlaid(frame[..], o, g, y, 0)
    modifies frame
    ensures Overlaid(frame[..], o, g, y + 1, 0)
  {
    var u, v := SquareRowStart(g.planes, uvInRow, x, y, g.pairs);
    assert SquareRowFits(g, frame.Length, o.rect, RowAt(g.pairs, y));
    DrawSquareRow(frame, g, x, xstop, Pointers(yPos, u, v), c, expose, o, RowAt(g.pairs, y));
    SquareRowDone(frame[..], o, g, y);
  }

  /** The rows of the square; Y_pos moves on by one row at a time. */
  method DrawRows(frame: array<Byte>, g: Geometry, width: nat, uvInRow: nat, x: nat, xstop: nat, y0: nat, ystop: nat,
                  c: YuvPixel, expose: Byte -> Byte, ghost o: Overlay)
    requires width == 2 * g.pairs > 0 && uvInRow == At(0, g.planes.step, g.pairs)
    requires o.rect == Rect(x, y0, o.rect.pairs, ystop) && PairsUpTo(x, xstop, o.rect.pairs)
    requires Apart(g, frame.Length) && SquareFits(g, frame.Length, o.rect)
    requires o.was == frame[..] && o.colour == c && o.luma == expose(c.y)
    modifies frame
    ensures Overlaid(frame[..], o, g, Max(y0, ystop), 0)
  {
    var y, yPos := y0, y0 * width + x;
    ghost var pair: nat := y0 * g.pairs;
    RowStart(g.pairs, y0);
    NothingOverlaid(o, g);
    while y < ystop
      invariant y0 <= y <= Max(y0, ystop) && pair == y * g.pairs && yPos == 2 * pair + x
      invariant Overlaid(frame[..], o, g, y, 0)
    {
      DrawOneRow(frame, g, uvInRow, x, xstop, y, yPos, c, expose, o);
      NextRow(g.pairs, y);
      yPos := yPos + width;
      pair := pair + g.pairs;
      y := y + 1;
    }
  }

  method DrawSquare(frame: array<Byte>, g: Geometry, width: nat, height: nat, uvInRow: nat, x: nat, y: nat, size: nat,
                    c: YuvPixel, expose: Byte -> Byte)
    requires width == 2 * g.pairs > 0 && uvInRow == At(0, g.planes.step, g.pairs)
    requires Apart(g, frame.Length) && SquareFits(g, frame.Length, Clipped(width, height, x, y, size))
    modifies frame
    ensures var r := Clipped(width, height, x, y, size);
      Overlaid(frame[..], Overlay(old(frame[..]), r, expose(c.y), c), g, Max(y, r.ystop), 0)
  {
    var xstop := if x + size < width then x + size else width;
    var ystop := if y + size < height then y + size else height;
    DrawRows(frame, g, width, uvInRow, x, xstop, y, ystop, c, expose,
             Overlay(frame[..], Clipped(width, height, x, y, size), expose(c.y), c));
  }
}
