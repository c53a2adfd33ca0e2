/** Where the planes of a YUV 4:2:0 frame lie, and which sample belongs to which pixel. */
module FrameLayout {

  datatype PixelFormat = Yvu420 | Yuv420 | Nv21 | Nv12 | OtherPixelFormat(code: int)

  /** Samples of one plane are adjacent, or alternate with those of the other. */
  type Step = n: nat | n == 1 || n == 2 witness 1

  /** Offsets of the chroma planes, and how far apart two samples of one plane are. */
  datatype Planes = Planes(u: nat, v: nat, step: Step)

  predicate Known(f: PixelFormat) {
    !f.OtherPixelFormat?
  }

  function FrameSize(width: nat, height: nat): nat {
    width * height * 12 / 8
  }

  function PlanesOf(f: PixelFormat, width: nat, height: nat): Planes {
    var pixels := width * height;
    match f
    case Yvu420 => Planes(pixels + pixels / 4, pixels, 1)
    case Yuv420 => Planes(pixels, pixels + pixels / 4, 1)
    case Nv21 => Planes(pixels + 1, pixels, 2)
    case _ => Planes(pixels, pixels + 1, 2)
  }

  /** The k-th sample of a plane: start + step * k. */
  function At(start: nat, step: Step, k: nat): nat {
    if step == 1 then start + k else start + 2 * k
  }

  /**
   * What the loops over a frame know of it: its planes, the pairs of pixels in a row, the luma bytes, and the
   * samples of each chroma plane.
   */
  datatype Geometry = Geometry(planes: Planes, pairs: nat, area: nat, samples: nat)

  /** A row by its number, its first pair of pixels and its first chroma sample. */
  datatype Row = Row(y: nat, pair: nat, sample: nat)

  function RowAt(pairs: nat, y: nat): Row {
    Row(y, y * pairs, y / 2 * pairs)
  }

  /** The moving pointers of a walk. */
  datatype Pointers = Pointers(luma: nat, u: nat, v: nat)

  /** The pointers stand before pair i of a row. */
  predicate PointAt(at: Pointers, p: Planes, r: Row, i: nat) {
    && at.luma == 2 * (r.pair + i)
    && at.u == At(p.u, p.step, r.sample + i) && at.v == At(p.v, p.step, r.sample + i)
  }

  function NextPair(at: Pointers, p: Planes): Pointers {
    Pointers(at.luma + 2, at.u + p.step, at.v + p.step)
  }

  /** After an even row U and V go back to where it began, for the next row shares its samples. */
  function NextRowStart(before: Pointers, after: Pointers, y: nat): Pointers {
    if y % 2 == 1 then after else Pointers(after.luma, before.u, before.v)
  }

  lemma NextRowPoints(before: Pointers, after: Pointers, p: Planes, pairs: nat, y: nat)
    requires PointAt(before, p, RowAt(pairs, y), 0) && PointAt(after, p, RowAt(pairs, y), pairs)
    ensures PointAt(NextRowStart(before, after, y), p, RowAt(pairs, y + 1), 0)
  {
    NextRow(pairs, y);
  }

  /** A row is walked in pairs of pixels; an odd width takes one pixel more. */
  function PairsInRow(width: nat): nat {
    (width + 1) / 2
  }

  /** The pixels a walk takes from one row to the next: the width, if that is even. */
  function Stride(width: nat): nat {
    2 * PairsInRow(width)
  }

  lemma EvenWidth(width: nat)
    requires width % 2 == 0
    ensures width == Stride(width) == 2 * PairsInRow(width) && width / 2 == PairsInRow(width)
  {
  }

  /** The pair of pixel (x, y), counted through the frame. */
  function Pair(pairs: nat, x: nat, y: nat): nat {
    y * pairs + x / 2
  }

  /** The sample that belongs to pixel (x, y): one for each block of two by two. */
  function BlockOf(width: nat, x: nat, y: nat): nat {
    y / 2 * PairsInRow(width) + x / 2
  }

  // The row and the column of the m-th cell of a picture, counted off row by row: quotient and remainder.

  function RowOf(cells: nat, m: nat): nat
    requires cells > 0
    decreases m
  {
    if m < cells then 0 else 1 + RowOf(cells, m - cells)
  }

  function ColOf(cells: nat, m: nat): (c: nat)
    requires cells > 0
    ensures c < cells
    decreases m
  {
    if m < cells then m else ColOf(cells, m - cells)
  }

  lemma {:induction false} CellAt(cells: nat, y: nat, i: nat)
    requires i < cells
    ensures RowOf(cells, y * cells + i) == y && ColOf(cells, y * cells + i) == i
    decreases y
  {
    if y > 0 {
      assert y * cells + i == (y - 1) * cells + i + cells;
      CellAt(cells, y - 1, i);
    }
  }

  lemma {:induction false} CellIs(cells: nat, m: nat)
    requires cells > 0
    ensures m == RowOf(cells, m) * cells + ColOf(cells, m)
    decreases m
  {
    if m >= cells {
      CellIs(cells, m - cells);
    }
  }

  lemma CellByDivision(cells: nat, m: nat)
    requires cells > 0
    ensures RowOf(cells, m) == m / cells && ColOf(cells, m) == m % cells
  {
    CellIs(cells, m);
    Unique(m, cells, RowOf(cells, m), ColOf(cells, m));
  }

  lemma Unique(m: nat, d: nat, q: nat, r: nat)
    requires m == q * d + r && r < d
    ensures m / d == q && m % d == r
  {
    var p := m / d;
    assert m == p * d + m % d;
    if p < q {
      Monotone(p + 1, q, d);
    } else if q < p {
      Monotone(q + 1, p, d);
    }
  }

  lemma {:induction false} NextCell(cells: nat, m: nat)
    requires cells > 0
    ensures if ColOf(cells, m) == cells - 1
            then RowOf(cells, m + 1) == RowOf(cells, m) + 1 && ColOf(cells, m + 1) == 0
            else RowOf(cells, m + 1) == RowOf(cells, m) && ColOf(cells, m + 1) == ColOf(cells, m) + 1
    decreases m
  {
    if m >= cells {
      NextCell(cells, m - cells);
    }
  }

  /** The chroma sample of a pair: two rows share one. */
  function SampleOf(pairs: nat, m: nat): nat
    requires pairs > 0
  {
    RowOf(pairs, m) / 2 * pairs + ColOf(pairs, m)
  }

  lemma SampleOfPair(pairs: nat, y: nat, i: nat)
    requires i < pairs
    ensures SampleOf(pairs, y * pairs + i) == y / 2 * pairs + i
  {
    CellAt(pairs, y, i);
  }

  lemma SampleIsBlock(width: nat, x: nat, y: nat)
    requires x < Stride(width)
    ensures SampleOf(PairsInRow(width), Pair(PairsInRow(width), x, y)) == BlockOf(width, x, y)
  {
    SampleOfPair(PairsInRow(width), y, x / 2);
  }

  lemma PairInFrame(pairs: nat, y: nat, height: nat, i: nat)
    requires i < pairs && y < height
    ensures y * pairs + i < height * pairs && y / 2 * pairs + i < (height + 1) / 2 * pairs
  {
    Monotone(y + 1, height, pairs);
    Monotone(y / 2 + 1, (height + 1) / 2, pairs);
  }

  /** Where pixel (x, y) of the walk lies, in pairs. */
  lemma PixelIndex(width: nat, x: nat, y: nat)
    ensures y * Stride(width) + x == 2 * Pair(PairsInRow(width), x, y) + x % 2
  {
    var pairs := PairsInRow(width);
    assert y * (2 * pairs) == 2 * (y * pairs);
  }

  lemma NextRow(pairs: nat, y: nat)
    ensures y * pairs + pairs == (y + 1) * pairs
    ensures (y + 1) / 2 * pairs == y / 2 * pairs + if y % 2 == 1 then pairs else 0
  {
    if y % 2 == 1 {
      assert (y + 1) / 2 == y / 2 + 1;
    } else {
      assert (y + 1) / 2 == y / 2;
    }
  }

  /** A row starts at twice its first pair. */
  lemma RowStart(pairs: nat, y: nat)
    ensures y * (2 * pairs) == 2 * (y * pairs)
  {
  }

  lemma PixelInPair(width: nat, height: nat, pairs: nat, x: nat, y: nat)
    requires width == 2 * pairs && x < width && y < height
    ensures y * width + x == 2 * (y * pairs + x / 2) + x % 2 < 2 * (height * pairs)
  {
    EvenWidth(width);
    PixelIndex(width, x, y);
    PairInFrame(pairs, y, height, x / 2);
  }

  lemma Monotone(a: nat, b: nat, c: nat)
    requires a <= b
    ensures a * c <= b * c
  {
  }

  /** The plane a converter is meant to read has this many samples. */
  function PlaneSize(width: nat, height: nat): nat {
    width * height / 4
  }

  /** Both luma bytes and the chroma sample of every pair of the walk lie in their planes. */
  predicate WalkStaysInPlanes(width: nat, height: nat)
    requires width > 0
  {
    forall m: nat :: m < height * PairsInRow(width) ==>
      2 * m + 1 < width * height && SampleOf(PairsInRow(width), m) < PlaneSize(width, height)
  }

  /** The last pair of the walk is the last of its row, and no pair uses a later sample than it does. */
  lemma LastPair(pairs: nat, height: nat, m: nat)
    requires pairs > 0 && height > 0 && m < height * pairs
    ensures SampleOf(pairs, height * pairs - 1) == (height + 1) / 2 * pairs - 1
    ensures SampleOf(pairs, m) <= SampleOf(pairs, height * pairs - 1)
  {
    assert height * pairs - 1 == (height - 1) * pairs + (pairs - 1);
    SampleOfPair(pairs, height - 1, pairs - 1);
    assert (height - 1) / 2 + 1 == (height + 1) / 2;
    assert (height - 1) / 2 * pairs + pairs == (height + 1) / 2 * pairs;
    CellIs(pairs, m);
    if RowOf(pairs, m) >= height {
      Monotone(height, RowOf(pairs, m), pairs);
    }
    PairInFrame(pairs, RowOf(pairs, m), height, ColOf(pairs, m));
  }

  /**
   * The walk over all pairs stays within the luma plane and within each chroma plane exactly for even dimensions;
   * an odd width or height takes it past the end of a plane.
   */
  lemma StaysInPlanesIffEven(width: nat, height: nat)
    requires width > 0 && height > 0
    ensures WalkStaysInPlanes(width, height) <==> width % 2 == 0 && height % 2 == 0
  {
    if width % 2 == 1 {
      OddWidth(width, height);
      LongWalkLeaves(width, height);
    } else if height % 2 == 1 {
      OddHeight(width, height);
      LongWalkLeaves(width, height);
    } else {
      EvenArea(width, height);
      ShortWalkStays(width, height);
    }
  }

  lemma ShortWalkStays(width: nat, height: nat)
    requires width > 0 && height > 0
    requires 2 * (height * PairsInRow(width)) <= width * height
    requires (height + 1) / 2 * PairsInRow(width) <= PlaneSize(width, height)
    ensures WalkStaysInPlanes(width, height)
  {
    var pairs := PairsInRow(width);
    forall m: nat | m < height * pairs
      ensures 2 * m + 1 < width * height && SampleOf(pairs, m) < PlaneSize(width, height)
    {
      LastPair(pairs, height, m);
    }
  }

  /** The last pair is the one that leaves a plane. */
  lemma LongWalkLeaves(width: nat, height: nat)
    requires width > 0 && height > 0
    requires 2 * (height * PairsInRow(width)) > width * height
             || (height + 1) / 2 * PairsInRow(width) > PlaneSize(width, height)
    ensures !WalkStaysInPlanes(width, height)
  {
    var pairs, n := PairsInRow(width), height * PairsInRow(width);
    Monotone(1, height, pairs);
    LastPair(pairs, height, 0);
    var last: nat := n - 1;
    assert 2 * last + 1 >= width * height || SampleOf(pairs, last) >= PlaneSize(width, height);
  }

  lemma OddWidth(width: nat, height: nat)
    requires width % 2 == 1 && height > 0
    ensures 2 * (height * PairsInRow(width)) > width * height
  {
    var p := PairsInRow(width);
    assert 2 * (height * p) == (width + 1) * height by {
      assert 2 * p == width + 1;
    }
  }

  lemma OddHeight(width: nat, height: nat)
    requires width % 2 == 0 && width > 0 && height % 2 == 1
    ensures (height + 1) / 2 * PairsInRow(width) > PlaneSize(width, height)
  {
    var p, k := PairsInRow(width), (height + 1) / 2;
    assert width * height == 4 * (k * p) - 2 * p by {
      assert width == 2 * p && height == 2 * k - 1;
    }
  }

  /** Both luma bytes and both chroma samples of every pair of the walk lie in the frame, in whatever plane. */
  predicate WalkStaysInFrame(f: PixelFormat, width: nat, height: nat)
    requires width > 0
  {
    forall m: nat :: m < height * PairsInRow(width) ==> PairStaysInFrame(f, width, height, m)
  }

  predicate PairStaysInFrame(f: PixelFormat, width: nat, height: nat, m: nat)
    requires width > 0
  {
    var p, k := PlanesOf(f, width, height), SampleOf(PairsInRow(width), m);
    && 2 * m + 1 < FrameSize(width, height)
    && At(p.u, p.step, k) < FrameSize(width, height) && At(p.v, p.step, k) < FrameSize(width, height)
  }

  predicate Planar(f: PixelFormat) {
    f.Yvu420? || f.Yuv420?
  }

  /** n pairs of luma bytes and k samples of each plane end within a frame of this area. */
  predicate EndsInFrame(planar: bool, area: nat, n: nat, k: nat) {
    && 2 * n <= area * 12 / 8
    && (if planar then area + area / 4 + k else area + 2 * k) <= area * 12 / 8
  }

  /** The last pair goes furthest in every plane. */
  lemma FurthestPair(f: PixelFormat, width: nat, height: nat)
    requires Known(f) && width > 0 && height > 0
    ensures WalkStaysInFrame(f, width, height) <==>
            EndsInFrame(Planar(f), width * height, height * PairsInRow(width), (height + 1) / 2 * PairsInRow(width))
  {
    var pairs, n := PairsInRow(width), height * PairsInRow(width);
    Monotone(1, height, pairs);
    LastPair(pairs, height, 0);
    var last: nat := n - 1;
    assert PairStaysInFrame(f, width, height, last) <==>
           EndsInFrame(Planar(f), width * height, n, (height + 1) / 2 * pairs);
    forall m: nat | m < n && PairStaysInFrame(f, width, height, last) ensures PairStaysInFrame(f, width, height, m) {
      LastPair(pairs, height, m);
    }
  }

  /** The pixels of a frame of odd dimensions, by whole pairs p and whole pairs of rows k. */
  lemma OddArea(width: nat, height: nat, p: nat, k: nat, kp: nat)
    requires p == PairsInRow(width) && k == (height + 1) / 2 && kp == k * p
    ensures width % 2 == 0 && height % 2 == 1 ==> width * height == 4 * kp - 2 * p
    ensures width % 2 == 1 && height % 2 == 0 ==> width * height == 4 * kp - 2 * k && height * p == 2 * kp
    ensures width % 2 == 1 && height % 2 == 1 ==> width * height == 4 * kp - 2 * p - 2 * k + 1
  {
    if width % 2 == 0 && height % 2 == 1 {
      assert width == 2 * p && height == 2 * k - 1;
    } else if width % 2 == 1 && height % 2 == 0 {
      assert width == 2 * p - 1 && height == 2 * k;
      assert height * p == 2 * (k * p);
    } else if width % 2 == 1 {
      assert width == 2 * p - 1 && height == 2 * k - 1;
    }
  }

  lemma OddHeightLeaves(planar: bool, area: nat, n: nat, p: nat, kp: nat)
    requires area == 4 * kp - 2 * p && p > 1
    ensures !EndsInFrame(planar, area, n, kp)
  {
  }

  lemma OddWidthEnds(planar: bool, area: nat, p: nat, k: nat, kp: nat)
    requires area == 4 * kp - 2 * k && kp == k * p && k > 0 && p > 1
    ensures EndsInFrame(planar, area, 2 * kp, kp) <==> planar && k == 1
  {
  }

  lemma BothOddLeave(planar: bool, area: nat, n: nat, p: nat, k: nat, kp: nat)
    requires area == 4 * kp - 2 * p - 2 * k + 1 && k > 0 && p > 0
    ensures !EndsInFrame(planar, area, n, kp)
  {
  }

  /**
   * Whether the drawing leaves the frame: it stays inside for even dimensions, and otherwise only in a frame of two
   * rows with separate planes, where it runs from one plane into the next.
   */
  lemma StaysInFrameIff(f: PixelFormat, width: nat, height: nat)
    requires Known(f) && width >= 10 && height > 0
    ensures WalkStaysInFrame(f, width, height) <==>
            (width % 2 == 0 && height % 2 == 0) || (Planar(f) && width % 2 == 1 && height == 2)
  {
    FurthestPair(f, width, height);
    EndsIff(Planar(f), width, height, width * height, height * PairsInRow(width), PairsInRow(width), (height + 1) / 2,
            (height + 1) / 2 * PairsInRow(width));
  }

  lemma EndsIff(planar: bool, width: nat, height: nat, area: nat, n: nat, p: nat, k: nat, kp: nat)
    requires width >= 10 && height > 0 && area == width * height && n == height * p
    requires p == PairsInRow(width) && k == (height + 1) / 2 && kp == k * p
    ensures EndsInFrame(planar, area, n, kp) <==>
            (width % 2 == 0 && height % 2 == 0) || (planar && width % 2 == 1 && height == 2)
  {
    OddArea(width, height, p, k, kp);
    if width % 2 == 0 && height % 2 == 0 {
      EvenArea(width, height);
    } else if width % 2 == 0 {
      OddHeightLeaves(planar, area, n, p, kp);
    } else if height % 2 == 0 {
      OddWidthEnds(planar, area, p, k, kp);
    } else {
      BothOddLeave(planar, area, n, p, k, kp);
    }
  }

  /** For even dimensions every pair has its own samples and all three lie in the frame. */
  lemma SamplesInFrame(f: PixelFormat, width: nat, height: nat, k: nat)
    requires Known(f) && width % 2 == 0 && height % 2 == 0 && k < PlaneSize(width, height)
    ensures var p := PlanesOf(f, width, height);
      && width * height <= At(p.u, p.step, k) < FrameSize(width, height)
      && width * height <= At(p.v, p.step, k) < FrameSize(width, height)
  {
    EvenArea(width, height);
  }

  lemma EvenArea(width: nat, height: nat)
    requires width % 2 == 0 && height % 2 == 0
    ensures width * height % 4 == 0 && width * height == 4 * PlaneSize(width, height)
    ensures PlaneSize(width, height) == height / 2 * PairsInRow(width)
    ensures FrameSize(width, height) == width * height + 2 * PlaneSize(width, height)
    ensures 2 * (height * PairsInRow(width)) == width * height
  {
    var a, b := width / 2, height / 2;
    assert width * height == 4 * (a * b) by {
      assert width == 2 * a && height == 2 * b;
    }
    assert b * a == a * b;
    assert 2 * (height * a) == width * height by {
      assert width == 2 * a;
    }
  }

  /** Where the k-th samples of an even frame lie: in planes of a quarter each, or side by side. */
  lemma LayoutTable(f: PixelFormat, width: nat, height: nat, k: nat)
    requires Known(f) && width % 2 == 0 && height % 2 == 0 && k < width * height / 4
    ensures var p, area := PlanesOf(f, width, height), width * height; var u, v := At(p.u, p.step, k), At(p.v, p.step, k);
      match f
      case Yvu420 => v == area + k && u == area + area / 4 + k
      case Yuv420 => u == area + k && v == area + area / 4 + k
      case Nv12 => u == area + 2 * k && v == area + 2 * k + 1
      case _ => v == area + 2 * k && u == area + 2 * k + 1
  {
  }

  /** The chroma planes do not meet: no U sample is a V sample. */
  lemma PlanesApart(f: PixelFormat, width: nat, height: nat, j: nat, k: nat)
    requires Known(f) && width % 2 == 0 && height % 2 == 0
    requires j < PlaneSize(width, height) && k < PlaneSize(width, height)
    ensures var p := PlanesOf(f, width, height); At(p.u, p.step, j) != At(p.v, p.step, k)
  {
    EvenArea(width, height);
  }
}
