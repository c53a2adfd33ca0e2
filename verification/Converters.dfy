/**
 * The frame converters: one walk with moving pointers, shared by all layouts and both pixel forms, against the
 * indexed definition of a converted picture.
 */
module Converters {
  import opened Yuv
  import opened FrameLayout

  /** A pointer into the frame. */
  function ByteAt(frame: seq<Byte>, p: nat): Byte {
    if p < |frame| then frame[p] else 0
  }

  /** A pixel made of the luma at one place of the frame and the chroma samples of one number. */
  function Blend<T>(conv: (Byte, Byte, Byte) -> T, frame: seq<Byte>, p: Planes, luma: nat, sample: nat): T {
    conv(ByteAt(frame, luma), ByteAt(frame, At(p.u, p.step, sample)), ByteAt(frame, At(p.v, p.step, sample)))
  }

  /** The m-th pair of pixels, its left (k = 0) or right (k = 1) half. */
  function PairPixel<T>(conv: (Byte, Byte, Byte) -> T, frame: seq<Byte>, planes: Planes, pairs: nat,
                        m: nat, k: nat): T
    requires pairs > 0
  {
    Blend(conv, frame, planes, 2 * m + k, SampleOf(pairs, m))
  }

  ghost predicate PairsDone<T>(conv: (Byte, Byte, Byte) -> T, frame: seq<Byte>, planes: Planes, pairs: nat,
                               out: seq<T>, n: nat)
    requires pairs > 0 && 2 * n <= |out|
  {
    forall m :: 0 <= m < n ==>
      && out[2 * m] == PairPixel(conv, frame, planes, pairs, m, 0)
      && out[2 * m + 1] == PairPixel(conv, frame, planes, pairs, m, 1)
  }

  /** All that the walk reads lies in the frame. */
  predicate ReadsFit(frame: seq<Byte>, planes: Planes, width: nat, height: nat) {
    var pairs := PairsInRow(width);
    && 2 * (height * pairs) <= |frame|
    && (width > 0 && height > 0 ==>
          && At(planes.u, planes.step, (height + 1) / 2 * pairs - 1) < |frame|
          && At(planes.v, planes.step, (height + 1) / 2 * pairs - 1) < |frame|)
  }

  /** How many pixels the walk writes. */
  function Written(width: nat, height: nat): nat {
    2 * (height * PairsInRow(width))
  }

  predicate Writable(length: nat, width: nat, height: nat) {
    length >= Written(width, height)
  }

  lemma TailStays<T>(before: seq<T>, now: seq<T>, from: nat, to: nat)
    requires from <= to <= |now| == |before| && now[from..] == before[from..]
    ensures now[to..] == before[to..]
  {
    assert now[to..] == now[from..][to - from..] && before[to..] == before[from..][to - from..];
  }

  /** All of a row can be read and written. */
  ghost predicate RowReadable(frame: seq<Byte>, planes: Planes, pairs: nat, length: nat, r: Row) {
    && r == RowAt(pairs, r.y)
    && 2 * (r.pair + pairs) <= length && 2 * (r.pair + pairs) <= |frame|
    && (forall k: nat :: k < r.sample + pairs ==> At(planes.u, planes.step, k) < |frame|)
    && (forall k: nat :: k < r.sample + pairs ==> At(planes.v, planes.step, k) < |frame|)
  }

  /** Both pixels of a pair, with the chroma they share; the luma pointer numbers the output as well. */
  method ConvertPair<T>(conv: (Byte, Byte, Byte) -> T, frame: seq<Byte>, planes: Planes, rgb: array<T>, at: Pointers,
                        ghost pairs: nat, ghost r: Row, ghost i: nat)
    requires i < pairs && RowReadable(frame, planes, pairs, rgb.Length, r) && PointAt(at, planes, r, i)
    requires PairsDone(conv, frame, planes, pairs, rgb[..], r.pair + i)
    modifies rgb
    ensures PairsDone(conv, frame, planes, pairs, rgb[..], r.pair + i + 1)
    ensures rgb[2 * (r.pair + pairs)..] == old(rgb[2 * (r.pair + pairs)..])
  {
    ghost var was := rgb[..];
    var nU, nV := frame[at.u], frame[at.v];
    var left := conv(frame[at.luma], nU, nV);
    rgb[at.luma] := left;
    var right := conv(frame[at.luma + 1], nU, nV);
    rgb[at.luma + 1] := right;
    SampleOfPair(pairs, r.y, i);
    assert rgb[..] == was[at.luma := left][at.luma + 1 := right];
    OneMorePair(conv, frame, planes, pairs, was, r.pair + i, left, right);
  }

  method ConvertRow<T>(conv: (Byte, Byte, Byte) -> T, frame: seq<Byte>, planes: Planes, rgb: array<T>, width: nat,
                       start: Pointers, ghost pairs: nat, ghost r: Row)
    returns (at: Pointers)
    requires pairs == PairsInRow(width) > 0 && RowReadable(frame, planes, pairs, rgb.Length, r)
    requires PointAt(start, planes, r, 0) && PairsDone(conv, frame, planes, pairs, rgb[..], r.pair)
    modifies rgb
    ensures PairsDone(conv, frame, planes, pairs, rgb[..], r.pair + pairs) && PointAt(at, planes, r, pairs)
    ensures rgb[2 * (r.pair + pairs)..] == old(rgb[2 * (r.pair + pairs)..])
  {
    at := start;
    var x := 0;
    ghost var i: nat, end: nat := 0, 2 * (r.pair + pairs);
    ghost var tail := rgb[end..];
    while x < width
      invariant x == 2 * i && i <= pairs && PointAt(at, planes, r, i)
      invariant PairsDone(conv, frame, planes, pairs, rgb[..], r.pair + i)
      invariant rgb[end..] == tail
    {
      ConvertPair(conv, frame, planes, rgb, at, pairs, r, i);
      at := NextPair(at, planes);
      x := x + 2;
      i := i + 1;
    }
  }

  lemma RowLies(frame: seq<Byte>, planes: Planes, width: nat, height: nat, y: nat)
    requires ReadsFit(frame, planes, width, height) && width > 0 && y < height
    ensures RowReadable(frame, planes, PairsInRow(width), Written(width, height), RowAt(PairsInRow(width), y))
  {
    PairInFrame(PairsInRow(width), y, height, PairsInRow(width) - 1);
  }

  /**
   * The walk: luma and output move on with every pixel, U and V with every pair; after an even row U and V go back
   * to where the row began.
   */
  method Convert<T>(conv: (Byte, Byte, Byte) -> T, frame: seq<Byte>, planes: Planes, rgb: array<T>,
                    width: nat, height: nat)
    requires width > 0 && ReadsFit(frame, planes, width, height) && Writable(rgb.Length, width, height)
    modifies rgb
    ensures rgb[Written(width, height)..] == old(rgb[Written(width, height)..])
    ensures PairsDone(conv, frame, planes, PairsInRow(width), rgb[..], height * PairsInRow(width))
  {
    var at := Pointers(0, planes.u, planes.v);
    ghost var pairs: nat, total: nat := PairsInRow(width), Written(width, height);
    ghost var tail := rgb[total..];
    for y := 0 to height
      invariant PointAt(at, planes, RowAt(pairs, y), 0)
      invariant 2 * RowAt(pairs, y).pair <= rgb.Length && rgb[total..] == tail
      invariant PairsDone(conv, frame, planes, pairs, rgb[..], RowAt(pairs, y).pair)
    {
      ghost var r, before := RowAt(pairs, y), rgb[..];
      RowLies(frame, planes, width, height, y);
      var after := ConvertRow(conv, frame, planes, rgb, width, at, pairs, r);
      TailStays(before, rgb[..], 2 * (r.pair + pairs), total);
      NextRowPoints(at, after, planes, pairs, y);
      NextRow(pairs, y);
      at := NextRowStart(at, after, y);
    }
  }

  // ---------- the converted picture ----------

  /**
   * Pixel (x, y) of the picture: its own luma, and the chroma of its two-by-two block. With an odd width a row takes
   * a pixel more than it should, in the input and in the output.
   */
  function PixelAt<T>(conv: (Byte, Byte, Byte) -> T, f: PixelFormat, frame: seq<Byte>, width: nat, height: nat,
                      x: nat, y: nat): T
  {
    Blend(conv, frame, PlanesOf(f, width, height), y * Stride(width) + x, BlockOf(width, x, y))
  }

  ghost predicate ShowsPixel<T>(conv: (Byte, Byte, Byte) -> T, f: PixelFormat, frame: seq<Byte>,
                                width: nat, height: nat, out: seq<T>, x: nat, y: nat)
  {
    y * Stride(width) + x < |out|
    && out[y * Stride(width) + x] == PixelAt(conv, f, frame, width, height, x, y)
  }

  ghost predicate Shows<T>(conv: (Byte, Byte, Byte) -> T, f: PixelFormat, frame: seq<Byte>, width: nat, height: nat,
                           out: seq<T>)
  {
    forall x: nat, y: nat :: x < Stride(width) && y < height ==> ShowsPixel(conv, f, frame, width, height, out, x, y)
  }

  /** The memory from the start of the frame on holds all that the walk reads. */
  predicate Readable(f: PixelFormat, frame: seq<Byte>, width: nat, height: nat) {
    ReadsFit(frame, PlanesOf(f, width, height), width, height)
  }

  /** The frame commonStartDevice allocates. */
  predicate EvenFrame(frame: seq<Byte>, width: nat, height: nat) {
    width % 2 == 0 && height % 2 == 0 && |frame| == FrameSize(width, height)
  }

  method ConvertFrame<T>(conv: (Byte, Byte, Byte) -> T, ghost f: PixelFormat, frame: seq<Byte>, planes: Planes,
                         rgb: array<T>, width: nat, height: nat)
    requires planes == PlanesOf(f, width, height)
    requires Readable(f, frame, width, height) && Writable(rgb.Length, width, height)
    modifies rgb
    ensures rgb[Written(width, height)..] == old(rgb[Written(width, height)..])
    ensures Shows(conv, f, frame, width, height, rgb[..])
  {
    if width > 0 {
      Convert(conv, frame, planes, rgb, width, height);
      PairsMakePicture(conv, f, frame, width, height, rgb[..]);
    }
  }

  lemma EvenFrameFits(f: PixelFormat, frame: seq<Byte>, width: nat, height: nat)
    requires Known(f) && EvenFrame(frame, width, height)
    ensures Readable(f, frame, width, height)
    ensures forall length :: length >= width * height ==> Writable(length, width, height)
  {
    EvenArea(width, height);
    if width > 0 && height > 0 {
      Monotone(1, height / 2, PairsInRow(width));
      SamplesInFrame(f, width, height, PlaneSize(width, height) - 1);
    }
  }

  lemma PairsMakePicture<T>(conv: (Byte, Byte, Byte) -> T, f: PixelFormat, frame: seq<Byte>, width: nat, height: nat,
                            out: seq<T>)
    requires width > 0 && Writable(|out|, width, height)
    requires PairsDone(conv, frame, PlanesOf(f, width, height), PairsInRow(width), out, height * PairsInRow(width))
    ensures Shows(conv, f, frame, width, height, out)
  {
    forall x: nat, y: nat | x < Stride(width) && y < height ensures ShowsPixel(conv, f, frame, width, height, out, x, y) {
      PairMakesPixel(conv, f, frame, width, height, out, x, y);
    }
  }

  lemma PairMakesPixel<T>(conv: (Byte, Byte, Byte) -> T, f: PixelFormat, frame: seq<Byte>, width: nat, height: nat,
                          out: seq<T>, x: nat, y: nat)
    requires x < Stride(width) && y < height && Writable(|out|, width, height)
    requires PairsDone(conv, frame, PlanesOf(f, width, height), PairsInRow(width), out, height * PairsInRow(width))
    ensures ShowsPixel(conv, f, frame, width, height, out, x, y)
  {
    var pairs, n := PairsInRow(width), height * PairsInRow(width);
    var m, index := Pair(pairs, x, y), y * Stride(width) + x;
    assert index == 2 * m + x % 2 by {
      PixelIndex(width, x, y);
    }
    assert m < n by {
      PairInFrame(pairs, y, height, x / 2);
    }
    SampleIsBlock(width, x, y);
    PairTaken(conv, frame, PlanesOf(f, width, height), pairs, out, n, m, x % 2, index, BlockOf(width, x, y));
  }

  lemma PairTaken<T>(conv: (Byte, Byte, Byte) -> T, frame: seq<Byte>, planes: Planes, pairs: nat, out: seq<T>,
                     n: nat, m: nat, k: nat, index: nat, block: nat)
    requires pairs > 0 && 2 * n <= |out| && m < n && k < 2
    requires index == 2 * m + k && block == SampleOf(pairs, m)
    requires PairsDone(conv, frame, planes, pairs, out, n)
    ensures index < |out| && out[index] == Blend(conv, frame, planes, index, block)
  {
    if k == 0 {
      assert out[2 * m] == PairPixel(conv, frame, planes, pairs, m, 0);
    } else {
      assert out[2 * m + 1] == PairPixel(conv, frame, planes, pairs, m, 1);
    }
  }

  // ---------- the entry points ----------

  method Yv12ToRgb32(frame: seq<Byte>, rgb: array<int>, width: nat, height: nat)
    requires Readable(Yvu420, frame, width, height) && Writable(rgb.Length, width, height)
    modifies rgb
    ensures rgb[Written(width, height)..] == old(rgb[Written(width, height)..])
    ensures Shows(Rgb32, Yvu420, frame, width, height, rgb[..])
  {
    var pixels := width * height;
    var v := pixels;
    var u := v + pixels / 4;
    ConvertFrame(Rgb32, Yvu420, frame, Planes(u, v, 1), rgb, width, height);
  }

  method Yu12ToRgb32(frame: seq<Byte>, rgb: array<int>, width: nat, height: nat)
    requires Readable(Yuv420, frame, width, height) && Writable(rgb.Length, width, height)
    modifies rgb
    ensures rgb[Written(width, height)..] == old(rgb[Written(width, height)..])
    ensures Shows(Rgb32, Yuv420, frame, width, height, rgb[..])
  {
    var pixels := width * height;
    var u := pixels;
    var v := u + pixels / 4;
    ConvertFrame(Rgb32, Yuv420, frame, Planes(u, v, 1), rgb, width, height);
  }

  method Nv12ToRgb32(frame: seq<Byte>, rgb: array<int>, width: nat, height: nat)
    requires Readable(Nv12, frame, width, height) && Writable(rgb.Length, width, height)
    modifies rgb
    ensures rgb[Written(width, height)..] == old(rgb[Written(width, height)..])
    ensures Shows(Rgb32, Nv12, frame, width, height, rgb[..])
  {
    var pixels := width * height;
    ConvertFrame(Rgb32, Nv12, frame, Planes(pixels, pixels + 1, 2), rgb, width, height);
  }

  method Nv21ToRgb32(frame: seq<Byte>, rgb: array<int>, width: nat, height: nat)
    requires Readable(Nv21, frame, width, height) && Writable(rgb.Length, width, height)
    modifies rgb
    ensures rgb[Written(width, height)..] == old(rgb[Written(width, height)..])
    ensures Shows(Rgb32, Nv21, frame, width, height, rgb[..])
  {
    var pixels := width * height;
    ConvertFrame(Rgb32, Nv21, frame, Planes(pixels + 1, pixels, 2), rgb, width, height);
  }

  method Nv12ToRgb565(frame: seq<Byte>, rgb: array<int>, width: nat, height: nat)
    requires Readable(Nv12, frame, width, height) && Writable(rgb.Length, width, height)
    modifies rgb
    ensures rgb[Written(width, height)..] == old(rgb[Written(width, height)..])
    ensures Shows(Rgb565, Nv12, frame, width, height, rgb[..])
  {
    var pixels := width * height;
    ConvertFrame(Rgb565, Nv12, frame, Planes(pixels, pixels + 1, 2), rgb, width, height);
  }

  method Nv21ToRgb565(frame: seq<Byte>, rgb: array<int>, width: nat, height: nat)
    requires Readable(Nv21, frame, width, height) && Writable(rgb.Length, width, height)
    modifies rgb
    ensures rgb[Written(width, height)..] == old(rgb[Written(width, height)..])
    ensures Shows(Rgb565, Nv21, frame, width, height, rgb[..])
  {
    var pixels := width * height;
    ConvertFrame(Rgb565, Nv21, frame, Planes(pixels + 1, pixels, 2), rgb, width, height);
  }

  /** Unlike its RGB32 sister it takes the U plane first: what it shows is the frame read as YUV420. */
  method Yv12ToRgb565(frame: seq<Byte>, rgb: array<int>, width: nat, height: nat)
    requires Readable(Yuv420, frame, width, height) && Writable(rgb.Length, width, height)
    modifies rgb
    ensures rgb[Written(width, height)..] == old(rgb[Written(width, height)..])
    ensures Shows(Rgb565, Yuv420, frame, width, height, rgb[..])
  {
    var pixels := width * height;
    var u := pixels;
    var v := u + pixels / 4;
    ConvertFrame(Rgb565, Yuv420, frame, Planes(u, v, 1), rgb, width, height);
  }

  // ---------- steps of the proof ----------

  lemma OneMorePair<T>(conv: (Byte, Byte, Byte) -> T, frame: seq<Byte>, planes: Planes, pairs: nat, out: seq<T>,
                       n: nat, left: T, right: T)
    requires pairs > 0 && 2 * n + 1 < |out|
    requires PairsDone(conv, frame, planes, pairs, out, n)
    requires left == PairPixel(conv, frame, planes, pairs, n, 0)
    requires right == PairPixel(conv, frame, planes, pairs, n, 1)
    ensures PairsDone(conv, frame, planes, pairs, out[2 * n := left][2 * n + 1 := right], n + 1)
  {
  }
}
