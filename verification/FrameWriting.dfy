/** How the fake camera writes into its frame: a pair of pixels at a time, into three planes that stay apart. */
module FrameWriting {
  import opened Yuv
  import opened FrameLayout

  datatype YuvPixel = YuvPixel(y: Byte, u: Byte, v: Byte)

  predicate IsSample(g: Geometry, k: nat) {
    k < g.samples
  }

  /** The k-th samples lie behind the luma and in the frame. */
  predicate SampleInside(g: Geometry, size: nat, k: nat) {
    var p := g.planes;
    g.area <= At(p.u, p.step, k) < size && g.area <= At(p.v, p.step, k) < size
  }

  /** No sample of one plane lies where another one does. */
  predicate SamplesApart(g: Geometry, j: nat, k: nat) {
    var p := g.planes;
    && At(p.u, p.step, j) != At(p.v, p.step, k)
    && (j < k ==> At(p.u, p.step, j) != At(p.u, p.step, k) && At(p.v, p.step, j) != At(p.v, p.step, k))
  }

  /** In a frame of this size the planes are apart: luma first, U and V samples behind it, no two at the same place. */
  ghost predicate Apart(g: Geometry, size: nat) {
    && g.area <= size
    && (forall k: nat {:trigger IsSample(g, k)} :: IsSample(g, k) ==> SampleInside(g, size, k))
    && (forall j: nat, k: nat {:trigger IsSample(g, j), IsSample(g, k)} ::
          IsSample(g, j) && IsSample(g, k) ==> SamplesApart(g, j, k))
  }

  function GeometryOf(f: PixelFormat, width: nat, height: nat): Geometry {
    Geometry(PlanesOf(f, width, height), PairsInRow(width), width * height, PlaneSize(width, height))
  }

  lemma PlanesAreApart(f: PixelFormat, width: nat, height: nat)
    requires Known(f) && width % 2 == 0 && height % 2 == 0
    ensures Apart(GeometryOf(f, width, height), FrameSize(width, height))
  {
    var g, size := GeometryOf(f, width, height), FrameSize(width, height);
    EvenArea(width, height);
    forall k: nat | IsSample(g, k) ensures SampleInside(g, size, k) {
      SamplesInFrame(f, width, height, k);
    }
    forall j: nat, k: nat | IsSample(g, j) && IsSample(g, k) ensures SamplesApart(g, j, k) {
      PlanesApart(f, width, height, j, k);
    }
  }

  /** Where the row lies, all its pixels and samples within the planes. */
  ghost predicate RowFits(g: Geometry, size: nat, r: Row) {
    && g.pairs > 0 && Apart(g, size) && r == RowAt(g.pairs, r.y)
    && 2 * (r.pair + g.pairs) <= g.area && r.sample + g.pairs <= g.samples
  }

  /** Every row of the frame does. */
  ghost predicate RowsFit(g: Geometry, size: nat, height: nat) {
    forall y: nat :: y < height ==> RowFits(g, size, RowAt(g.pairs, y))
  }

  lemma RowLies(f: PixelFormat, width: nat, height: nat, y: nat)
    requires Known(f) && width % 2 == 0 && width > 0 && height % 2 == 0 && y < height
    ensures RowFits(GeometryOf(f, width, height), FrameSize(width, height), RowAt(PairsInRow(width), y))
  {
    PlanesAreApart(f, width, height);
    EvenArea(width, height);
    PairInFrame(PairsInRow(width), y, height, PairsInRow(width) - 1);
    assert (height + 1) / 2 == height / 2;
  }

  lemma FrameFits(f: PixelFormat, width: nat, height: nat)
    requires Known(f) && width % 2 == 0 && width > 0 && height % 2 == 0
    ensures RowsFit(GeometryOf(f, width, height), FrameSize(width, height), height)
  {
    forall y: nat | y < height
      ensures RowFits(GeometryOf(f, width, height), FrameSize(width, height), RowAt(PairsInRow(width), y))
    {
      RowLies(f, width, height, y);
    }
  }

  /** A step at luma byte l and sample k stays in the planes. */
  ghost predicate StepFits(g: Geometry, size: nat, l: nat, k: nat) {
    Apart(g, size) && l + 1 < g.area && IsSample(g, k)
  }

  lemma StepInside(g: Geometry, size: nat, l: nat, k: nat)
    requires StepFits(g, size, l, k)
    ensures g.area <= size && SampleInside(g, size, k)
  {
  }

  /** What one step of a drawing loop writes: two luma bytes, one U and one V sample. */
  ghost function Put(s: seq<Byte>, g: Geometry, l: nat, k: nat, luma: Byte, c: YuvPixel): seq<Byte>
    requires StepFits(g, |s|, l, k)
  {
    StepInside(g, |s|, l, k);
    s[l := luma][l + 1 := luma][At(g.planes.u, g.planes.step, k) := c.u][At(g.planes.v, g.planes.step, k) := c.v]
  }

  /** A step changes its two luma bytes and its sample of each chroma plane, and nothing else. */
  lemma PutEffect(s: seq<Byte>, g: Geometry, l: nat, k: nat, luma: Byte, c: YuvPixel)
    requires StepFits(g, |s|, l, k)
    ensures var p := g.planes; var t := Put(s, g, l, k, luma, c);
      && |t| == |s|
      && (forall i: nat :: i < g.area ==> t[i] == if i == l || i == l + 1 then luma else s[i])
      && forall j: nat :: IsSample(g, j) ==>
           SampleDrawn(t, p, j, if j == k then c else YuvPixel(0, s[At(p.u, p.step, j)], s[At(p.v, p.step, j)]))
  {
    var p, t := g.planes, Put(s, g, l, k, luma, c);
    StepInside(g, |s|, l, k);
    forall j: nat | IsSample(g, j)
      ensures SampleInside(g, |s|, j)
      ensures SampleDrawn(t, p, j, if j == k then c else YuvPixel(0, s[At(p.u, p.step, j)], s[At(p.v, p.step, j)]))
    {
      assert SamplesApart(g, j, k) && SamplesApart(g, k, j) && SampleInside(g, |s|, j);
    }
  }

  /** Both pixels of pair m have this luma. */
  predicate PairDrawn(s: seq<Byte>, m: nat, luma: Byte) {
    2 * m + 1 < |s| && s[2 * m] == luma && s[2 * m + 1] == luma
  }

  lemma PutKeepsPair(s: seq<Byte>, g: Geometry, n: nat, k: nat, luma: Byte, c: YuvPixel, m: nat, other: Byte)
    requires StepFits(g, |s|, 2 * n, k) && 2 * m + 1 < g.area
    requires if m == n then other == luma else PairDrawn(s, m, other)
    ensures PairDrawn(Put(s, g, 2 * n, k, luma, c), m, other)
  {
    PutEffect(s, g, 2 * n, k, luma, c);
  }

  /** Sample k of both chroma planes shows colour c. */
  ghost predicate SampleDrawn(s: seq<Byte>, p: Planes, k: nat, c: YuvPixel) {
    && At(p.u, p.step, k) < |s| && s[At(p.u, p.step, k)] == c.u
    && At(p.v, p.step, k) < |s| && s[At(p.v, p.step, k)] == c.v
  }

  lemma PutKeepsSample(s: seq<Byte>, g: Geometry, l: nat, k: nat, luma: Byte, c: YuvPixel, j: nat, d: YuvPixel)
    requires StepFits(g, |s|, l, k) && IsSample(g, j)
    requires if j == k then d == c else SampleDrawn(s, g.planes, j, d)
    ensures SampleDrawn(Put(s, g, l, k, luma, c), g.planes, j, d)
  {
    PutEffect(s, g, l, k, luma, c);
  }

  /** The body of both drawing loops: colour first, then the exposed luma for both pixels. */
  method WritePair(frame: array<Byte>, g: Geometry, at: Pointers, c: YuvPixel, expose: Byte -> Byte, ghost k: nat)
    requires StepFits(g, frame.Length, at.luma, k)
    requires at.u == At(g.planes.u, g.planes.step, k) && at.v == At(g.planes.v, g.planes.step, k)
    modifies frame
    ensures frame[..] == Put(old(frame[..]), g, at.luma, k, expose(c.y), c)
  {
    StepInside(g, frame.Length, at.luma, k);
    assert SamplesApart(g, k, k);
    frame[at.luma] := c.y;
    frame[at.u] := c.u;
    frame[at.v] := c.v;
    frame[at.luma] := expose(frame[at.luma]);
    frame[at.luma + 1] := frame[at.luma];
    assert frame[..] == old(frame[..])[at.luma := expose(c.y)][at.luma + 1 := expose(c.y)][at.u := c.u][at.v := c.v];
  }
}
