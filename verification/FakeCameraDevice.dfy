/** The fake camera device: it lays out its frame, draws the checkerboard and the square into it, and shows it as RGB. */
module FakeCameraDevice {
  import opened Yuv
  import opened FrameLayout
  import opened FrameWriting
  import opened Converters
  import C = Checkerboard
  import S = Square

  datatype DeviceState = Constructed | Initialized | Connected | Started
  datatype Status = NoError | InvalidArgument

  /** Half the luma, so that a change of the exposure compensation can be seen. */
  function Darkened(r: Byte, g: Byte, b: Byte): YuvPixel {
    YuvPixel(LumaOf(r, g, b) / 2, ChromaUOf(r, g, b), ChromaVOf(r, g, b))
  }

  const BLACK: YuvPixel := Darkened(0, 0, 0)
  const WHITE: YuvPixel := Darkened(255, 255, 255)
  const RED: YuvPixel := Darkened(255, 0, 0)
  const GREEN: YuvPixel := Darkened(0, 255, 0)

  // ---------- the scene ----------

  datatype Scene = Scene(board: C.Board, square: S.Rect, colour: YuvPixel)

  /** The square's position swings between 0 and 128 along each side. */
  function Swing(n: nat): (s: nat)
    ensures s <= 128
  {
    if n % 256 > 128 then 255 - n % 256 else n % 256
  }

  function Place(n: nat, size: nat): (at: nat)
    ensures at <= 4 * size
  {
    Monotone(Swing(n), 128, size);
    Swing(n) * size / 32
  }

  /** Where the square is in the frame of this number. */
  function SquareOf(width: nat, height: nat, counter: nat): S.Rect {
    var size := width / 10;
    S.Clipped(width, height, Place(counter * 3, size), Place(counter * 5, size), size * 5 / 2)
  }

  /** What the counters show; only the white squares and the moving square follow the white balance. */
  function SceneOf(width: nat, height: nat, checkX: nat, checkY: nat, counter: nat,
                   balance: YuvPixel -> YuvPixel): Scene {
    Scene(C.Board(width / 10, checkX, checkY, BLACK, balance(WHITE)), SquareOf(width, height, counter),
          balance(if counter / 256 % 2 == 1 then RED else GREEN))
  }

  /** Black, white, red and green with half their luma. */
  lemma SceneColours()
    ensures BLACK == YuvPixel(8, 128, 128) && WHITE == YuvPixel(117, 128, 128)
    ensures RED == YuvPixel(41, 90, 240) && GREEN == YuvPixel(72, 54, 34)
  {
  }

  /** From frame to frame the number moves by one, up to 128 and back to 0 from 126 on, 256 frames a swing. */
  lemma SwingTable(n: nat)
    ensures Swing(0) == 0 && Swing(n + 256) == Swing(n)
    ensures n % 256 < 128 ==> Swing(n + 1) == Swing(n) + 1
    ensures n % 256 == 128 ==> Swing(n) == 128 && Swing(n + 1) == 126
    ensures 128 < n % 256 < 255 ==> Swing(n + 1) == Swing(n) - 1
    ensures n % 256 == 255 ==> Swing(n) == 0
  {
  }

  /** The scene of a counter: fields a tenth of the width, and a square that is green and red in turns. */
  lemma SceneTable(width: nat, height: nat, checkX: nat, checkY: nat, counter: nat, balance: YuvPixel -> YuvPixel)
    ensures var s := SceneOf(width, height, checkX, checkY, counter, balance);
      && s.board == C.Board(width / 10, checkX, checkY, BLACK, balance(WHITE))
      && s.colour == balance(if counter % 512 < 256 then GREEN else RED)
      && s.square == SquareOf(width, height, counter)
  {
    assert counter / 256 % 2 == (counter % 512) / 256;
  }

  predicate InSquare(r: S.Rect, x: nat, y: nat) {
    r.y <= y < r.ystop && r.x <= x < r.x + 2 * r.pairs
  }

  /** The block takes its chroma from the square if one of its rows and one of its pairs does. */
  predicate TouchesSquare(r: S.Rect, col: nat, row: nat) {
    r.y < r.ystop && r.y / 2 <= row && 2 * row < r.ystop && r.x / 2 <= col < r.x / 2 + r.pairs
  }

  function LumaColour(s: Scene, x: nat, y: nat): YuvPixel
    requires s.board.size > 0
  {
    if InSquare(s.square, x, y) then s.colour else C.ColourOf(s.board, x / 2, y)
  }

  /** A block's chroma comes from its lower row. */
  function ChromaColour(s: Scene, col: nat, row: nat): YuvPixel
    requires s.board.size > 0
  {
    if TouchesSquare(s.square, col, row) then s.colour else C.ColourOf(s.board, col, 2 * row + 1)
  }

  ghost predicate DrawnAt(frame: seq<Byte>, p: Planes, width: nat, s: Scene, expose: Byte -> Byte, x: nat, y: nat)
    requires s.board.size > 0
  {
    && ByteAt(frame, y * width + x) == expose(LumaColour(s, x, y).y)
    && ByteAt(frame, At(p.u, p.step, BlockOf(width, x, y))) == ChromaColour(s, x / 2, y / 2).u
    && ByteAt(frame, At(p.v, p.step, BlockOf(width, x, y))) == ChromaColour(s, x / 2, y / 2).v
  }

  /** Every pixel of the frame, and every chroma sample, shows the scene. */
  ghost predicate FrameShows(frame: seq<Byte>, p: Planes, width: nat, height: nat, s: Scene, expose: Byte -> Byte)
    requires s.board.size > 0
  {
    forall x: nat, y: nat :: x < width && y < height ==> DrawnAt(frame, p, width, s, expose, x, y)
  }

  // ---------- the square stays inside ----------

  /** Wherever the square is, its pairs end within the row: it is never cut off at the right. */
  lemma SquareIsInside(width: nat, height: nat, counter: nat)
    requires width >= 10
    ensures var r := SquareOf(width, height, counter);
      r.x + 2 * r.pairs <= width && r.ystop <= height && 2 * r.pairs >= width / 10 * 5 / 2
  {
    assert Place(counter * 3, width / 10) <= 4 * (width / 10);
  }

  /** The square is a quarter of the width, swings three and five times as fast as the counter, and may be cut below. */
  lemma SquareTable(width: nat, height: nat, counter: nat)
    requires width >= 10
    ensures var r, size := SquareOf(width, height, counter), width / 10;
      && r.x == Swing(counter * 3) * size / 32 && r.y == Swing(counter * 5) * size / 32
      && r.pairs == (size * 5 / 2 + 1) / 2
      && r.ystop == if r.y + size * 5 / 2 < height then r.y + size * 5 / 2 else height
  {
    SquareIsInside(width, height, counter);
  }

  /** So the square fits wherever the rows of the frame do. */
  lemma SquareRowsFit(g: Geometry, size: nat, height: nat, r: S.Rect)
    requires RowsFit(g, size, height) && r.x + 2 * r.pairs <= 2 * g.pairs && r.ystop <= height
    ensures S.SquareFits(g, size, r)
  {
    forall y: nat | r.y <= y < r.ystop ensures S.SquareRowFits(g, size, r, RowAt(g.pairs, y)) {
      assert RowFits(g, size, RowAt(g.pairs, y));
    }
  }

  // ---------- board and square together ----------

  /** The board is drawn: `was` holds it. */
  ghost predicate BoardDrawn(was: seq<Byte>, g: Geometry, height: nat, board: C.Board, expose: Byte -> Byte)
    requires board.size > 0 && g.pairs > 0
  {
    && C.LumaDrawn(was, C.Colours(board), expose, g.pairs, height * g.pairs)
    && C.ChromaDrawn(was, g.planes, C.Colours(board), g.pairs, height / 2 * g.pairs)
  }

  /** The whole square of a scene, over `was`. */
  function SquareOver(was: seq<Byte>, s: Scene, expose: Byte -> Byte): S.Overlay {
    S.Overlay(was, s.square, expose(s.colour.y), s.colour)
  }

  ghost predicate SquareDrawn(now: seq<Byte>, o: S.Overlay, g: Geometry)
    requires g.pairs > 0
  {
    S.Overlaid(now, o, g, S.Max(o.rect.y, o.rect.ystop), 0)
  }

  /** The planes hold whole rows. */
  predicate Whole(g: Geometry, width: nat, height: nat) {
    && width == 2 * g.pairs > 0 && height % 2 == 0
    && g.area == 2 * (height * g.pairs) && g.samples == height / 2 * g.pairs
  }

  lemma PixelDrawn(was: seq<Byte>, now: seq<Byte>, g: Geometry, width: nat, height: nat, s: Scene,
                   expose: Byte -> Byte, x: nat, y: nat)
    requires Whole(g, width, height) && x < width && y < height && s.board.size > 0
    requires BoardDrawn(was, g, height, s.board, expose) && SquareDrawn(now, SquareOver(was, s, expose), g)
    ensures DrawnAt(now, g.planes, width, s, expose, x, y)
  {
    LumaAt(was, now, g, width, height, s, expose, x, y);
    SampleAt(was, now, g, width, height, s, expose, x, y);
  }

  lemma LumaAt(was: seq<Byte>, now: seq<Byte>, g: Geometry, width: nat, height: nat, s: Scene, expose: Byte -> Byte,
               x: nat, y: nat)
    requires Whole(g, width, height) && x < width && y < height && s.board.size > 0
    requires C.LumaDrawn(was, C.Colours(s.board), expose, g.pairs, height * g.pairs)
    requires S.LumaOverlaid(now, SquareOver(was, s, expose), g, S.Max(s.square.y, s.square.ystop), 0)
    ensures ByteAt(now, y * width + x) == expose(LumaColour(s, x, y).y)
  {
    var m := y * width + x;
    BoardAt(was, width, height, g.pairs, C.Colours(s.board), expose, x, y, m);
    OverlaidAt(now, SquareOver(was, s, expose), g, S.Max(s.square.y, s.square.ystop), m);
    SquareLumaIn(s.square, width, x, y);
  }

  lemma BoardAt(was: seq<Byte>, width: nat, height: nat, pairs: nat, picture: C.Picture, expose: Byte -> Byte,
                x: nat, y: nat, m: nat)
    requires width == 2 * pairs && x < width && y < height && m == y * width + x
    requires C.LumaDrawn(was, picture, expose, pairs, height * pairs)
    ensures m < 2 * (height * pairs) && m < |was| && was[m] == expose(picture(x / 2, y).y)
  {
    PixelInPair(width, height, pairs, x, y);
    CellAt(pairs, y, x / 2);
    var n: nat := y * pairs + x / 2;
    assert n < height * pairs && m == 2 * n + x % 2;
    assert C.PairLuma(picture, expose, pairs, n) == expose(picture(x / 2, y).y);
    assert PairDrawn(was, n, C.PairLuma(picture, expose, pairs, n));
  }

  lemma OverlaidAt(now: seq<Byte>, o: S.Overlay, g: Geometry, y: nat, m: nat)
    requires g.pairs > 0 && S.LumaOverlaid(now, o, g, y, 0) && m < g.area
    ensures ByteAt(now, m) == if S.LumaIn(o.rect, 2 * g.pairs, y, 0, m) then o.luma else o.was[m]
  {
  }

  lemma SquareLumaIn(r: S.Rect, width: nat, x: nat, y: nat)
    requires x < width
    ensures S.LumaIn(r, width, S.Max(r.y, r.ystop), 0, y * width + x) == InSquare(r, x, y)
  {
    CellAt(width, y, x);
  }

  lemma SampleAt(was: seq<Byte>, now: seq<Byte>, g: Geometry, width: nat, height: nat, s: Scene,
                 expose: Byte -> Byte, x: nat, y: nat)
    requires Whole(g, width, height) && x < width && y < height && s.board.size > 0
    requires C.ChromaDrawn(was, g.planes, C.Colours(s.board), g.pairs, height / 2 * g.pairs)
    requires S.ChromaOverlaid(now, SquareOver(was, s, expose), g, S.Max(s.square.y, s.square.ystop), 0)
    ensures var p := g.planes; ByteAt(now, At(p.u, p.step, BlockOf(width, x, y))) == ChromaColour(s, x / 2, y / 2).u
    ensures var p := g.planes; ByteAt(now, At(p.v, p.step, BlockOf(width, x, y))) == ChromaColour(s, x / 2, y / 2).v
  {
    var k, end := y / 2 * g.pairs + x / 2, S.Max(s.square.y, s.square.ystop);
    PairInFrame(g.pairs, y / 2, height / 2, x / 2);
    CellAt(g.pairs, y / 2, x / 2);
    assert BlockOf(width, x, y) == k;
    assert S.SampleIn(s.square, g.pairs, end, 0, k) == TouchesSquare(s.square, x / 2, y / 2);
    assert SampleDrawn(was, g.planes, k, C.FinishedColour(C.Colours(s.board), g.pairs, k));
    assert SampleDrawn(now, g.planes, k, S.SampleColour(SquareOver(was, s, expose), g, end, 0, k));
  }

  lemma SceneDrawn(was: seq<Byte>, now: seq<Byte>, g: Geometry, width: nat, height: nat, s: Scene,
                   expose: Byte -> Byte)
    requires Whole(g, width, height) && s.board.size > 0
    requires BoardDrawn(was, g, height, s.board, expose) && SquareDrawn(now, SquareOver(was, s, expose), g)
    ensures FrameShows(now, g.planes, width, height, s, expose)
  {
    forall x: nat, y: nat | x < width && y < height ensures DrawnAt(now, g.planes, width, s, expose, x, y) {
      PixelDrawn(was, now, g, width, height, s, expose, x, y);
    }
  }

  // ---------- the preview ----------

  /** The RGB value the scene has at (x, y). */
  function SceneRgb(s: Scene, expose: Byte -> Byte, x: nat, y: nat): int
    requires s.board.size > 0
  {
    Rgb32(expose(LumaColour(s, x, y).y), ChromaColour(s, x / 2, y / 2).u, ChromaColour(s, x / 2, y / 2).v)
  }

  /** Drawing and conversion together: what reaches the preview window is the scene, whatever the layout between. */
  lemma {:induction false} PreviewShowsScene(f: PixelFormat, frame: seq<Byte>, width: nat, height: nat, s: Scene,
                                             expose: Byte -> Byte, rgb: seq<int>, x: nat, y: nat)
    requires s.board.size > 0 && width % 2 == 0 && x < width && y < height
    requires FrameShows(frame, PlanesOf(f, width, height), width, height, s, expose)
    requires Shows(Rgb32, f, frame, width, height, rgb)
    ensures y * width + x < |rgb| && rgb[y * width + x] == SceneRgb(s, expose, x, y)
  {
    EvenWidth(width);
    assert ShowsPixel(Rgb32, f, frame, width, height, rgb, x, y);
    assert DrawnAt(frame, PlanesOf(f, width, height), width, s, expose, x, y);
  }

  /** Board and square can be drawn: rows and square lie within planes that are apart. */
  ghost predicate Fits(g: Geometry, size: nat, width: nat, height: nat, r: S.Rect) {
    Whole(g, width, height) && Apart(g, size) && RowsFit(g, size, height) && S.SquareFits(g, size, r)
  }

  lemma SceneFits(f: PixelFormat, width: nat, height: nat, counter: nat)
    requires Known(f) && width % 2 == 0 && width >= 10 && height % 2 == 0
    ensures Fits(GeometryOf(f, width, height), FrameSize(width, height), width, height,
                 SquareOf(width, height, counter))
  {
    EvenWidth(width);
    PlanesAreApart(f, width, height);
    FrameFits(f, width, height);
    EvenArea(width, height);
    SquareIsInside(width, height, counter);
    SquareRowsFit(GeometryOf(f, width, height), FrameSize(width, height), height, SquareOf(width, height, counter));
  }

  method SquarePlace(counter: nat, size: nat) returns (x: nat, y: nat)
    ensures x == Place(counter * 3, size) && y == Place(counter * 5, size)
  {
    var sqx := counter * 3 % 256;
    if sqx > 128 {
      sqx := 255 - sqx;
    }
    var sqy := counter * 5 % 256;
    if sqy > 128 {
      sqy := 255 - sqy;
    }
    x, y := sqx * size / 32, sqy * size / 32;
  }

  /** First the board, then the square over it. */
  method DrawBoth(frame: array<Byte>, g: Geometry, width: nat, height: nat, uvInRow: nat, x: nat, y: nat, s: Scene,
                  expose: Byte -> Byte)
    requires s.board.size > 0 && Fits(g, frame.Length, width, height, s.square)
    requires uvInRow == At(0, g.planes.step, g.pairs)
    requires s.square == S.Clipped(width, height, x, y, s.board.size * 5 / 2)
    modifies frame
    ensures FrameShows(frame[..], g.planes, width, height, s, expose)
  {
    C.DrawBoard(frame, g, width, height, s.board, expose);
    ghost var was := frame[..];
    S.DrawSquare(frame, g, width, height, uvInRow, x, y, s.board.size * 5 / 2, s.colour, expose);
    SceneDrawn(was, frame[..], g, width, height, s, expose);
  }

  method DrawScene(frame: array<Byte>, ghost f: PixelFormat, g: Geometry, width: nat, height: nat, uvInRow: nat,
                   checkX: nat, checkY: nat, counter: nat, balance: YuvPixel -> YuvPixel, expose: Byte -> Byte)
    requires Known(f) && width % 2 == 0 && width >= 10 && height % 2 == 0
    requires g == GeometryOf(f, width, height) && uvInRow == At(0, g.planes.step, width / 2)
    requires frame.Length == FrameSize(width, height)
    modifies frame
    ensures FrameShows(frame[..], g.planes, width, height,
                       SceneOf(width, height, checkX, checkY, counter, balance), expose)
  {
    EvenWidth(width);
    SceneFits(f, width, height, counter);
    var size := width / 10;
    var board := C.Board(size, checkX, checkY, BLACK, balance(WHITE));
    var x, y := SquarePlace(counter, size);
    var colour := balance(if counter / 0x100 % 2 == 1 then RED else GREEN);
    var s := Scene(board, S.Clipped(width, height, x, y, size * 5 / 2), colour);
    assert s == SceneOf(width, height, checkX, checkY, counter, balance);
    DrawBoth(frame, g, width, height, uvInRow, x, y, s, expose);
  }

  // ---------- the device ----------

  class Device {
    var mState: DeviceState
    var mCurrentFrame: array?<Byte>
    var mFrameBufferSize: nat
    var mFrameWidth: nat
    var mFrameHeight: nat
    var mTotalPixels: nat
    var mPixelFormat: PixelFormat
    // offsets of the chroma planes in the frame
    var mFrameU: nat
    var mFrameV: nat
    var mUVStep: Step
    var mUVInRow: nat
    var mUVTotalNum: nat
    var mCheckX: nat
    var mCheckY: nat
    var mCcounter: nat

    ghost predicate HasFrame()
      reads this
    {
      && mCurrentFrame != null && Known(mPixelFormat)
      && mCurrentFrame.Length == mFrameBufferSize == FrameSize(mFrameWidth, mFrameHeight)
      && mTotalPixels == mFrameWidth * mFrameHeight
    }

    /** The planes are where the converters will look for them. */
    ghost predicate LaidOut()
      reads this
    {
      && HasFrame()
      && Planes(mFrameU, mFrameV, mUVStep) == PlanesOf(mPixelFormat, mFrameWidth, mFrameHeight)
      && mUVInRow == At(0, mUVStep, mFrameWidth / 2) && mUVTotalNum == PlaneSize(mFrameWidth, mFrameHeight)
    }

    ghost predicate Valid()
      reads this
    {
      mState == Started ==> HasFrame() && (mPixelFormat != Yvu420 ==> LaidOut())
    }

    /** What the counters say is to be drawn next. */
    ghost function NextScene(balance: YuvPixel -> YuvPixel): Scene
      reads this
    {
      SceneOf(mFrameWidth, mFrameHeight, mCheckX, mCheckY, mCcounter, balance)
    }

    constructor ()
      ensures Valid() && mState == Constructed && mCheckX == mCheckY == mCcounter == 0
    {
      mState, mCurrentFrame := Constructed, null;
      mCheckX, mCheckY, mCcounter := 0, 0, 0;
    }

    method Initialize() returns (status: Status)
      requires Valid()
      modifies `mState
      ensures Valid() && status == NoError
      ensures mState == if old(mState) == Constructed then Initialized else old(mState)
    {
      if mState == Constructed {
        mState := Initialized;
      }
      status := NoError;
    }

    method ConnectDevice() returns (status: Status)
      requires Valid()
      modifies `mState
      ensures Valid() && status == if old(mState) == Constructed then InvalidArgument else NoError
      ensures mState == if old(mState) == Initialized then Connected else old(mState)
    {
      if mState == Constructed {
        return InvalidArgument;
      }
      if mState == Connected || mState == Started {
        return NoError;
      }
      mState := Connected;
      status := NoError;
    }

    method DisconnectDevice() returns (status: Status)
      requires Valid()
      modifies `mState
      ensures Valid() && status == if old(mState) == Started then InvalidArgument else NoError
      ensures mState == if old(mState) == Connected then Initialized else old(mState)
    {
      if !(mState == Connected || mState == Started) {
        return NoError;
      }
      if mState == Started {
        return InvalidArgument;
      }
      mState := Initialized;
      status := NoError;
    }

    method CommonStartDevice(width: nat, height: nat, format: PixelFormat) returns (status: Status)
      modifies `mFrameBufferSize, `mFrameWidth, `mFrameHeight, `mPixelFormat, `mTotalPixels, `mCurrentFrame
      ensures status == if Known(format) then NoError else InvalidArgument
      ensures Known(format) ==> HasFrame() && fresh(mCurrentFrame)
      ensures Known(format) ==> mFrameWidth == width && mFrameHeight == height && mPixelFormat == format
      ensures !Known(format) ==> mCurrentFrame == old(mCurrentFrame) && mPixelFormat == old(mPixelFormat)
    {
      if format.OtherPixelFormat? {
        return InvalidArgument;
      }
      mFrameBufferSize := width * height * 12 / 8;
      mFrameWidth := width;
      mFrameHeight := height;
      mPixelFormat := format;
      mTotalPixels := width * height;
      mCurrentFrame := new Byte[mFrameBufferSize];
      status := NoError;
    }

    method StartDevice(width: nat, height: nat, format: PixelFormat) returns (status: Status)
      requires Valid()
      modifies this
      ensures Valid()
      ensures status == if old(mState) == Connected && Known(format) then NoError else InvalidArgument
      ensures mState == if status == NoError then Started else old(mState)
      ensures status == NoError ==>
                mFrameWidth == width && mFrameHeight == height && mPixelFormat == format && fresh(mCurrentFrame)
      ensures mCheckX == old(mCheckX) && mCheckY == old(mCheckY) && mCcounter == old(mCcounter)
    {
      if mState != Connected {
        return InvalidArgument;
      }
      status := CommonStartDevice(width, height, format);
      if status != NoError {
        return;
      }
      PlacePlanes(width, format);
      mState := Started;
    }

    method PlacePlanes(width: nat, format: PixelFormat)
      requires HasFrame() && width == mFrameWidth && format == mPixelFormat
      modifies `mUVTotalNum, `mFrameU, `mFrameV, `mUVStep, `mUVInRow
      ensures format != Yvu420 ==> LaidOut()
    {
      mUVTotalNum := mTotalPixels / 4;
      match format {
        case Yvu420 =>
          // the U plane is computed from itself, not from the V plane
          mFrameV := mTotalPixels;
          mFrameU := mFrameU + mTotalPixels / 4;
          mUVStep := 1;
        case Yuv420 =>
          mFrameU := mTotalPixels;
          mFrameV := mFrameU + mTotalPixels / 4;
          mUVStep := 1;
        case Nv21 =>
          mFrameV := mTotalPixels;
          mFrameU := mFrameV + 1;
          mUVStep := 2;
        case Nv12 =>
          mFrameU := mTotalPixels;
          mFrameV := mFrameU + 1;
          mUVStep := 2;
      }
      mUVInRow := width / 2 * mUVStep;
    }

    method StopDevice() returns (status: Status)
      requires Valid()
      modifies this
      ensures Valid() && status == NoError
      ensures mState == if old(mState) == Started then Connected else old(mState)
      ensures old(mState) == Started ==> mCurrentFrame == null
      ensures mCheckX == old(mCheckX) && mCheckY == old(mCheckY) && mCcounter == old(mCcounter)
    {
      if mState != Started {
        return NoError;
      }
      mFrameU, mFrameV := 0, 0;
      mFrameWidth, mFrameHeight, mTotalPixels := 0, 0, 0;
      mPixelFormat := OtherPixelFormat(0);
      mCurrentFrame := null;
      mState := Connected;
      status := NoError;
    }

    /** One frame; white balance and exposure are the current adjustments. */
    method DrawCheckerboard(balance: YuvPixel -> YuvPixel, expose: Byte -> Byte)
      requires Valid() && mState == Started
      requires mFrameWidth >= 10 ==> mPixelFormat != Yvu420 && mFrameWidth % 2 == 0 && mFrameHeight % 2 == 0
      modifies mCurrentFrame, `mCheckX, `mCheckY, `mCcounter
      ensures Valid()
      ensures mFrameWidth >= 10 ==>
                && FrameShows(mCurrentFrame[..], Planes(mFrameU, mFrameV, mUVStep), mFrameWidth, mFrameHeight,
                              old(NextScene(balance)), expose)
                && mCheckX == old(mCheckX) + 3 && mCheckY == old(mCheckY) + 1 && mCcounter == old(mCcounter) + 1
      ensures mFrameWidth < 10 ==>
                && mCurrentFrame[..] == old(mCurrentFrame[..])
                && mCheckX == old(mCheckX) && mCheckY == old(mCheckY) && mCcounter == old(mCcounter)
    {
      var size := mFrameWidth / 10;
      if size == 0 {
        return;
      }
      var g := Geometry(Planes(mFrameU, mFrameV, mUVStep), mFrameWidth / 2, mTotalPixels, mUVTotalNum);
      EvenWidth(mFrameWidth);
      DrawScene(mCurrentFrame, mPixelFormat, g, mFrameWidth, mFrameHeight, mUVInRow, mCheckX, mCheckY, mCcounter,
                balance, expose);
      mCheckX := mCheckX + 3;
      mCheckY := mCheckY + 1;
      mCcounter := mCcounter + 1;
    }

    /** The frame never is RGB; each layout has its converter. */
    method GetCurrentPreviewFrame(buffer: array?<int>) returns (status: Status)
      requires Valid()
      requires mState == Started && buffer != null ==>
                 && Readable(mPixelFormat, mCurrentFrame[..], mFrameWidth, mFrameHeight)
                 && Writable(buffer.Length, mFrameWidth, mFrameHeight)
      modifies buffer
      ensures status == if mState == Started && buffer != null then NoError else InvalidArgument
      ensures status == NoError ==>
                Shows(Rgb32, mPixelFormat, old(mCurrentFrame[..]), mFrameWidth, mFrameHeight, buffer[..])
    {
      if mState != Started {
        return InvalidArgument;
      }
      if mCurrentFrame == null || buffer == null {
        return InvalidArgument;
      }
      match mPixelFormat {
        case Yvu420 => Yv12ToRgb32(mCurrentFrame[..], buffer, mFrameWidth, mFrameHeight);
        case Yuv420 => Yu12ToRgb32(mCurrentFrame[..], buffer, mFrameWidth, mFrameHeight);
        case Nv21 => Nv21ToRgb32(mCurrentFrame[..], buffer, mFrameWidth, mFrameHeight);
        case Nv12 => Nv12ToRgb32(mCurrentFrame[..], buffer, mFrameWidth, mFrameHeight);
      }
      status := NoError;
    }
  }
}
