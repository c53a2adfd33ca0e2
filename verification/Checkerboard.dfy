/**
 * The checkerboard that moves with every frame. Luma is written for each pixel, chroma for each pair of pixels, and
 * again in the next row.
 */
module Checkerboard {
  import opened Yuv
  import opened FrameLayout
  import opened FrameWriting

  // ---------- the pattern ----------

  datatype Board = Board(size: nat, checkX: nat, checkY: nat, black: YuvPixel, white: YuvPixel)

  predicate Odd(n: nat) {
    n % 2 == 1
  }

  /** Columns change colour after this many pairs of pixels. */
  function ColumnPairs(size: nat): nat {
    (size + 1) / 2
  }

  /** The first column is cut off by the remainder of checkX: this many of its pairs are gone. */
  function PairsGone(size: nat, checkX: nat): (gone: nat)
    requires size > 0
    ensures gone < ColumnPairs(size)
  {
    ColumnPairs(size) - (size - ColOf(size, checkX) + 1) / 2
  }

  /** Rows change colour after size + 1 rows, for the count is compared before it is increased. */
  function Band(b: Board, y: nat): nat
    requires b.size > 0
  {
    RowOf(b.size + 1, y + ColOf(b.size, b.checkY))
  }

  function Column(b: Board, i: nat): nat
    requires b.size > 0
  {
    RowOf(ColumnPairs(b.size), i + PairsGone(b.size, b.checkX))
  }

  /** The corner starts black if both counters stand in squares of the same parity. */
  function CornerBlack(b: Board): bool
    requires b.size > 0
  {
    Odd(RowOf(b.size, b.checkX)) == Odd(RowOf(b.size, b.checkY))
  }

  /** Each column and each band passed since the corner changes the colour. */
  function IsBlack(b: Board, i: nat, y: nat): bool
    requires b.size > 0
  {
    CornerBlack(b) == (Odd(Column(b, i)) == Odd(Band(b, y)))
  }

  /** The colour of the i-th pair of row y. */
  function ColourOf(b: Board, i: nat, y: nat): YuvPixel
    requires b.size > 0
  {
    if IsBlack(b, i, y) then b.black else b.white
  }

  /** The corner is black at first, and as long as neither counter has reached the size. */
  lemma StartsBlack(b: Board)
    requires b.size > 0 && b.checkX < b.size && b.checkY < b.size
    ensures ColourOf(b, 0, 0) == b.black
  {
  }

  /** When a counter has moved on by the size, black and white have changed places. */
  lemma MovedBySize(b: Board, i: nat, y: nat)
    requires b.size > 0 && b.black != b.white
    ensures {ColourOf(b.(checkX := b.checkX + b.size), i, y), ColourOf(b, i, y)} == {b.black, b.white}
    ensures {ColourOf(b.(checkY := b.checkY + b.size), i, y), ColourOf(b, i, y)} == {b.black, b.white}
  {
  }

  // ---------- the checkerboard ----------

  /** countx, the count of pixels in the current column, when pair i is drawn. */
  predicate CountsColumn(b: Board, i: nat, countx: nat)
    requires b.size > 0
  {
    countx == if Column(b, i) == 0 then ColOf(b.size, b.checkX) + 2 * i
              else 2 * ColOf(ColumnPairs(b.size), i + PairsGone(b.size, b.checkX))
  }

  lemma ColumnStep(b: Board, i: nat, countx: nat)
    requires b.size > 0 && CountsColumn(b, i, countx)
    ensures countx + 2 >= b.size ==> CountsColumn(b, i + 1, 0) && Column(b, i + 1) == Column(b, i) + 1
    ensures countx + 2 < b.size ==> CountsColumn(b, i + 1, countx + 2) && Column(b, i + 1) == Column(b, i)
  {
    NextCell(ColumnPairs(b.size), i + PairsGone(b.size, b.checkX));
  }

  /** The sizes of the pattern: a colour lasts for size + 1 rows, and for size pixels rounded up to whole pairs. */
  lemma PatternSizes(b: Board, i: nat, y: nat)
    requires b.size > 0
    ensures Band(b, y + b.size + 1) == Band(b, y) + 1
    ensures Column(b, i + ColumnPairs(b.size)) == Column(b, i) + 1
  {
    assert y + b.size + 1 + ColOf(b.size, b.checkY) == y + ColOf(b.size, b.checkY) + (b.size + 1);
    assert i + ColumnPairs(b.size) + PairsGone(b.size, b.checkX)
        == i + PairsGone(b.size, b.checkX) + ColumnPairs(b.size);
  }

  /** So its fields are square exactly if the size is odd; otherwise they are one row higher than wide. */
  lemma FieldsAreSquareIffOdd(size: nat)
    ensures size + 1 == 2 * ColumnPairs(size) <==> Odd(size)
    ensures !Odd(size) ==> size + 1 == 2 * ColumnPairs(size) + 1
  {
  }

  lemma ColumnTurns(b: Board, i: nat, y: nat, countx: nat)
    requires b.size > 0 && CountsColumn(b, i, countx)
    ensures CountsColumn(b, i + 1, if countx + 2 >= b.size then 0 else countx + 2)
    ensures IsBlack(b, i + 1, y) == (IsBlack(b, i, y) != (countx + 2 >= b.size))
  {
    ColumnStep(b, i, countx);
  }

  /** county, the count of rows in the current band, when row y is drawn. */
  predicate CountsBand(b: Board, y: nat, county: nat)
    requires b.size > 0
  {
    county == ColOf(b.size + 1, y + ColOf(b.size, b.checkY))
  }

  lemma BandStep(b: Board, y: nat, county: nat)
    requires b.size > 0 && CountsBand(b, y, county)
    ensures county >= b.size ==> CountsBand(b, y + 1, 0) && Band(b, y + 1) == Band(b, y) + 1
    ensures county < b.size ==> CountsBand(b, y + 1, county + 1) && Band(b, y + 1) == Band(b, y)
  {
    NextCell(b.size + 1, y + ColOf(b.size, b.checkY));
  }

  lemma BandTurns(b: Board, y: nat, county: nat)
    requires b.size > 0 && CountsBand(b, y, county)
    ensures CountsBand(b, y + 1, if county >= b.size then 0 else county + 1)
    ensures IsBlack(b, 0, y + 1) == (IsBlack(b, 0, y) != (county >= b.size))
  {
    BandStep(b, y, county);
  }

  lemma Starts(b: Board)
    requires b.size > 0
    ensures CountsColumn(b, 0, ColOf(b.size, b.checkX)) && Column(b, 0) == 0
    ensures CountsBand(b, 0, ColOf(b.size, b.checkY)) && IsBlack(b, 0, 0) == CornerBlack(b)
  {
  }

  /** The colours of a picture, by pair and row. */
  type Picture = (nat, nat) -> YuvPixel

  function Colours(b: Board): Picture
    requires b.size > 0
  {
    (i: nat, y: nat) => ColourOf(b, i, y)
  }

  ghost predicate LumaDrawn(s: seq<Byte>, picture: Picture, expose: Byte -> Byte, pairs: nat, n: nat)
    requires pairs > 0
  {
    forall m: nat :: m < n ==> PairDrawn(s, m, PairLuma(picture, expose, pairs, m))
  }

  /** The luma of the m-th pair, counted through the frame. */
  function PairLuma(picture: Picture, expose: Byte -> Byte, pairs: nat, m: nat): Byte
    requires pairs > 0
  {
    expose(picture(ColOf(pairs, m), RowOf(pairs, m)).y)
  }

  /** What a finished sample shows: the colour of the odd one of its two rows, which came last. */
  function FinishedColour(picture: Picture, pairs: nat, k: nat): YuvPixel
    requires pairs > 0
  {
    picture(ColOf(pairs, k), 2 * RowOf(pairs, k) + 1)
  }

  /** The colour of sample k in a row. */
  function RowColour(picture: Picture, r: Row, k: nat): YuvPixel {
    picture(if r.sample <= k then k - r.sample else 0, r.y)
  }

  ghost predicate ChromaDrawn(s: seq<Byte>, p: Planes, picture: Picture, pairs: nat, n: nat)
    requires pairs > 0
  {
    forall k: nat :: k < n ==> SampleDrawn(s, p, k, FinishedColour(picture, pairs, k))
  }

  ghost predicate ChromaRowDrawn(s: seq<Byte>, p: Planes, picture: Picture, r: Row, i: nat) {
    forall k: nat :: r.sample <= k < r.sample + i ==> SampleDrawn(s, p, k, RowColour(picture, r, k))
  }

  /** Before pair i of the row is drawn. */
  ghost predicate DrawnTo(s: seq<Byte>, g: Geometry, picture: Picture, expose: Byte -> Byte, r: Row, i: nat)
    requires g.pairs > 0
  {
    && LumaDrawn(s, picture, expose, g.pairs, r.pair + i)
    && ChromaDrawn(s, g.planes, picture, g.pairs, r.sample)
    && ChromaRowDrawn(s, g.planes, picture, r, i)
  }

  /** The frame after pair i of the row. */
  ghost function WithPair(s: seq<Byte>, g: Geometry, picture: Picture, expose: Byte -> Byte, r: Row, i: nat): seq<Byte>
    requires StepFits(g, |s|, 2 * (r.pair + i), r.sample + i)
  {
    Put(s, g, 2 * (r.pair + i), r.sample + i, expose(picture(i, r.y).y), picture(i, r.y))
  }

  lemma LumaStep(s: seq<Byte>, g: Geometry, picture: Picture, expose: Byte -> Byte, r: Row, i: nat)
    requires i < g.pairs && RowFits(g, |s|, r) && LumaDrawn(s, picture, expose, g.pairs, r.pair + i)
    ensures LumaDrawn(WithPair(s, g, picture, expose, r, i), picture, expose, g.pairs, r.pair + i + 1)
  {
    var c, n := picture(i, r.y), r.pair + i;
    CellAt(g.pairs, r.y, i);
    forall m: nat | m < n + 1
      ensures PairDrawn(WithPair(s, g, picture, expose, r, i), m, PairLuma(picture, expose, g.pairs, m))
    {
      PutKeepsPair(s, g, n, r.sample + i, expose(c.y), c, m, PairLuma(picture, expose, g.pairs, m));
    }
  }

  lemma FinishedStays(s: seq<Byte>, g: Geometry, picture: Picture, expose: Byte -> Byte, r: Row, i: nat)
    requires i < g.pairs && RowFits(g, |s|, r) && ChromaDrawn(s, g.planes, picture, g.pairs, r.sample)
    ensures ChromaDrawn(WithPair(s, g, picture, expose, r, i), g.planes, picture, g.pairs, r.sample)
  {
    var c := picture(i, r.y);
    forall k: nat | k < r.sample
      ensures SampleDrawn(WithPair(s, g, picture, expose, r, i), g.planes, k, FinishedColour(picture, g.pairs, k))
    {
      PutKeepsSample(s, g, 2 * (r.pair + i), r.sample + i, expose(c.y), c, k, FinishedColour(picture, g.pairs, k));
    }
  }

  lemma RowGrows(s: seq<Byte>, g: Geometry, picture: Picture, expose: Byte -> Byte, r: Row, i: nat)
    requires i < g.pairs && RowFits(g, |s|, r) && ChromaRowDrawn(s, g.planes, picture, r, i)
    ensures ChromaRowDrawn(WithPair(s, g, picture, expose, r, i), g.planes, picture, r, i + 1)
  {
    var c := picture(i, r.y);
    forall k: nat | r.sample <= k < r.sample + i + 1
      ensures SampleDrawn(WithPair(s, g, picture, expose, r, i), g.planes, k, RowColour(picture, r, k))
    {
      PutKeepsSample(s, g, 2 * (r.pair + i), r.sample + i, expose(c.y), c, k, RowColour(picture, r, k));
    }
  }

  lemma DrawStep(s: seq<Byte>, g: Geometry, picture: Picture, expose: Byte -> Byte, r: Row, i: nat)
    requires i < g.pairs && RowFits(g, |s|, r) && DrawnTo(s, g, picture, expose, r, i)
    ensures DrawnTo(WithPair(s, g, picture, expose, r, i), g, picture, expose, r, i + 1)
  {
    LumaStep(s, g, picture, expose, r, i);
    FinishedStays(s, g, picture, expose, r, i);
    RowGrows(s, g, picture, expose, r, i);
  }

  lemma RowDrawn(s: seq<Byte>, p: Planes, picture: Picture, pairs: nat, r: Row)
    requires pairs > 0 && r.y % 2 == 1 && r == RowAt(pairs, r.y)
    requires ChromaDrawn(s, p, picture, pairs, r.sample) && ChromaRowDrawn(s, p, picture, r, pairs)
    ensures ChromaDrawn(s, p, picture, pairs, r.sample + pairs)
  {
    forall k: nat | r.sample <= k < r.sample + pairs
      ensures SampleDrawn(s, p, k, FinishedColour(picture, pairs, k))
    {
      CellAt(pairs, r.y / 2, k - r.sample);
      assert SampleDrawn(s, p, k, RowColour(picture, r, k));
    }
  }

  /** A row that is done is the start of the next one. */
  lemma RowDone(s: seq<Byte>, g: Geometry, picture: Picture, expose: Byte -> Byte, r: Row)
    requires g.pairs > 0 && r == RowAt(g.pairs, r.y) && DrawnTo(s, g, picture, expose, r, g.pairs)
    ensures DrawnTo(s, g, picture, expose, RowAt(g.pairs, r.y + 1), 0)
  {
    NextRow(g.pairs, r.y);
    if r.y % 2 == 1 {
      RowDrawn(s, g.planes, picture, g.pairs, r);
    }
  }

  method DrawPair(frame: array<Byte>, g: Geometry, at: Pointers, c: YuvPixel, expose: Byte -> Byte,
                  ghost picture: Picture, ghost r: Row, ghost i: nat)
    requires i < g.pairs && RowFits(g, frame.Length, r) && PointAt(at, g.planes, r, i)
    requires c == picture(i, r.y) && DrawnTo(frame[..], g, picture, expose, r, i)
    modifies frame
    ensures DrawnTo(frame[..], g, picture, expose, r, i + 1)
  {
    ghost var was := frame[..];
    assert StepFits(g, frame.Length, at.luma, r.sample + i);
    DrawStep(was, g, picture, expose, r, i);
    WritePair(frame, g, at, c, expose, r.sample + i);
    assert frame[..] == WithPair(was, g, picture, expose, r, i);
  }

  method NextInRow(b: Board, ghost i: nat, ghost y: nat, countx0: nat, current0: bool)
    returns (countx: nat, current: bool)
    requires b.size > 0 && CountsColumn(b, i, countx0) && current0 == IsBlack(b, i, y)
    ensures CountsColumn(b, i + 1, countx) && current == IsBlack(b, i + 1, y)
  {
    ColumnTurns(b, i, y, countx0);
    countx, current := countx0 + 2, current0;
    if countx >= b.size {
      countx := 0;
      current := !current;
    }
  }

  /** The count of rows is compared before it is increased. */
  method NextRowOf(b: Board, ghost y: nat, county0: nat, black0: bool) returns (county: nat, black: bool)
    requires b.size > 0 && CountsBand(b, y, county0) && black0 == IsBlack(b, 0, y)
    ensures CountsBand(b, y + 1, county) && black == IsBlack(b, 0, y + 1)
  {
    BandTurns(b, y, county0);
    county, black := county0 + 1, black0;
    if county0 >= b.size {
      county := 0;
      black := !black;
    }
  }

  /** What the drawing starts with. */
  method Corner(b: Board) returns (black: bool, county: nat, remainder: nat)
    requires b.size > 0
    ensures black == IsBlack(b, 0, 0) && CountsBand(b, 0, county) && CountsColumn(b, 0, remainder)
  {
    CellByDivision(b.size, b.checkX);
    CellByDivision(b.size, b.checkY);
    black := true;
    if b.checkX / b.size % 2 == 1 {
      black := false;
    }
    if b.checkY / b.size % 2 == 1 {
      black := !black;
    }
    county, remainder := b.checkY % b.size, b.checkX % b.size;
    Starts(b);
  }

  /** Before pair i of the row is drawn, with the pointers and the column's count and colour. */
  ghost predicate Drawing(s: seq<Byte>, g: Geometry, b: Board, expose: Byte -> Byte, r: Row, i: nat, at: Pointers,
                          countx: nat, current: bool)
    requires g.pairs > 0 && b.size > 0
  {
    && DrawnTo(s, g, Colours(b), expose, r, i) && PointAt(at, g.planes, r, i)
    && CountsColumn(b, i, countx) && current == IsBlack(b, i, r.y)
  }

  method DrawNext(frame: array<Byte>, g: Geometry, b: Board, expose: Byte -> Byte, at0: Pointers, countx0: nat,
                  current0: bool, ghost r: Row, ghost i: nat)
    returns (at: Pointers, countx: nat, current: bool)
    requires b.size > 0 && i < g.pairs && RowFits(g, frame.Length, r)
    requires Drawing(frame[..], g, b, expose, r, i, at0, countx0, current0)
    modifies frame
    ensures Drawing(frame[..], g, b, expose, r, i + 1, at, countx, current)
  {
    var c := Choose(b, i, r.y, current0, Colours(b));
    DrawPair(frame, g, at0, c, expose, Colours(b), r, i);
    at := NextPair(at0, g.planes);
    countx, current := NextInRow(b, i, r.y, countx0, current0);
  }

  /** One row of the checkerboard; the pointers end up behind it. */
  method DrawRow(frame: array<Byte>, g: Geometry, width: nat, b: Board, expose: Byte -> Byte, black: bool,
                 remainder: nat, start: Pointers, ghost r: Row)
    returns (at: Pointers)
    requires b.size > 0 && width == 2 * g.pairs > 0 && RowFits(g, frame.Length, r)
    requires Drawing(frame[..], g, b, expose, r, 0, start, remainder, black)
    modifies frame
    ensures DrawnTo(frame[..], g, Colours(b), expose, r, g.pairs) && PointAt(at, g.planes, r, g.pairs)
  {
    at := start;
    var countx: nat, current := remainder, black;
    var x := 0;
    ghost var i: nat := 0;
    while x < width
      invariant x == 2 * i && i <= g.pairs
      invariant Drawing(frame[..], g, b, expose, r, i, at, countx, current)
    {
      at, countx, current := DrawNext(frame, g, b, expose, at, countx, current, r, i);
      x := x + 2;
      i := i + 1;
    }
  }

  method Choose(b: Board, ghost i: nat, ghost y: nat, current: bool, ghost picture: Picture) returns (c: YuvPixel)
    requires b.size > 0 && current == IsBlack(b, i, y) && picture == Colours(b)
    ensures c == picture(i, y)
  {
    c := if current then b.black else b.white;
  }

  /** Before row y is drawn, with the pointers and the band's count and colour. */
  ghost predicate DrawingRow(s: seq<Byte>, g: Geometry, b: Board, expose: Byte -> Byte, y: nat, at: Pointers,
                             county: nat, black: bool)
    requires g.pairs > 0 && b.size > 0
  {
    && DrawnTo(s, g, Colours(b), expose, RowAt(g.pairs, y), 0) && PointAt(at, g.planes, RowAt(g.pairs, y), 0)
    && CountsBand(b, y, county) && black == IsBlack(b, 0, y)
  }

  method DrawNextRow(frame: array<Byte>, g: Geometry, width: nat, b: Board, expose: Byte -> Byte, remainder: nat,
                     at0: Pointers, county0: nat, black0: bool, y: nat)
    returns (at: Pointers, county: nat, black: bool)
    requires b.size > 0 && width == 2 * g.pairs > 0 && RowFits(g, frame.Length, RowAt(g.pairs, y))
    requires CountsColumn(b, 0, remainder) && DrawingRow(frame[..], g, b, expose, y, at0, county0, black0)
    modifies frame
    ensures DrawingRow(frame[..], g, b, expose, y + 1, at, county, black)
  {
    ghost var r := RowAt(g.pairs, y);
    var after := DrawRow(frame, g, width, b, expose, black0, remainder, at0, r);
    RowDone(frame[..], g, Colours(b), expose, r);
    NextRowPoints(at0, after, g.planes, g.pairs, y);
    at := NextRowStart(at0, after, y);
    county, black := NextRowOf(b, y, county0, black0);
  }

  lemma NothingDrawn(s: seq<Byte>, g: Geometry, picture: Picture, expose: Byte -> Byte)
    requires g.pairs > 0
    ensures DrawnTo(s, g, picture, expose, RowAt(g.pairs, 0), 0)
  {
    assert RowAt(g.pairs, 0) == Row(0, 0, 0);
  }

  /** The whole checkerboard, in any frame whose rows fit. */
  method DrawBoard(frame: array<Byte>, g: Geometry, width: nat, height: nat, b: Board, expose: Byte -> Byte)
    requires b.size > 0 && width == 2 * g.pairs > 0 && RowsFit(g, frame.Length, height)
    modifies frame
    ensures LumaDrawn(frame[..], Colours(b), expose, g.pairs, height * g.pairs)
    ensures ChromaDrawn(frame[..], g.planes, Colours(b), g.pairs, height / 2 * g.pairs)
  {
    var black, county, remainder := Corner(b);
    var at := Pointers(0, g.planes.u, g.planes.v);
    NothingDrawn(frame[..], g, Colours(b), expose);
    for y := 0 to height
      invariant DrawingRow(frame[..], g, b, expose, y, at, county, black)
    {
      assert RowFits(g, frame.Length, RowAt(g.pairs, y));
      at, county, black := DrawNextRow(frame, g, width, b, expose, remainder, at, county, black, y);
    }
  }
}
