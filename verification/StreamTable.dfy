/**
 * The stream table of the emulated camera: allocation under a limit for each category, registration of the final
 * format, release. The counters are kept apart from the table, as unsigned 32-bit words, and so are the ids.
 */
module StreamTable {

  const WORDS: int := 0x1_0000_0000
  type Word = n: int | 0 <= n < WORDS

  function Up(w: Word): Word {
    (w + 1) % WORDS
  }

  function Down(w: Word): Word {
    (w - 1) % WORDS
  }

  datatype Format = Raw16 | Blob | Rgba8888 | Yv12 | YCrCb420Sp | ImplementationDefined | Zsl | OtherFormat(code: nat)

  datatype Category = Raw | Jpeg | Processed

  function CategoryOf(f: Format): Category {
    match f
    case Raw16 => Raw
    case Blob => Jpeg
    case _ => Processed
  }

  function Limit(c: Category): Word {
    match c
    case Raw => 1
    case Jpeg => 1
    case Processed => 3
  }

  const MAX_REPROCESS_STREAM_COUNT: Word := 2

  datatype Stream = Stream(width: Word, height: Word, format: Format, stride: Word)
  datatype ReprocessStream = ReprocessStream(base: Stream, sourceStreamId: Word)

  datatype Counters = Counters(raw: Word, jpeg: Word, processed: Word)

  datatype Table = Table(
    present: bool,
    streams: map<Word, Stream>, counters: Counters, nextStreamId: Word,
    reprocess: map<Word, ReprocessStream>, reprocessCount: Word, nextReprocessStreamId: Word)

  datatype Status = Done(id: Word) | NotPresent | BadValue | InvalidOperation

  /** What the words after a size table hold is not known; the search reads up to four of them. */
  type Tail = s: seq<Word> | |s| == 4 witness [0, 0, 0, 0]

  datatype Op =
    | Allocate(width: Word, height: Word, format: Format, tail: Tail)
    | Register(id: Word, numBuffers: int, finalFormat: Format)
    | Release(id: Word, inUse: bool)
    | AllocateReprocess(source: Word)
    | ReleaseReprocess(id: Word)
    | Plug(present: bool)

  const AVAILABLE_FORMATS: seq<Format> := [Raw16, Blob, Rgba8888, YCrCb420Sp]

  function Sizes(f: Format, facingBack: bool): (table: seq<Word>)
    ensures |table| == 2 || |table| == 4
  {
    match f
    case Raw16 => [640, 480]
    case Blob => if facingBack then [640, 480] else [320, 240]
    case _ => if facingBack then [640, 480, 320, 240] else [320, 240, 160, 120]
  }

  function ActualFormat(f: Format): Format {
    if f == Zsl then ImplementationDefined else f
  }

  predicate FormatSupported(f: Format) {
    f == ImplementationDefined || f in AVAILABLE_FORMATS
  }

  predicate PairAt(words: seq<Word>, k: nat, width: Word, height: Word)
    requires 2 * k + 1 < |words|
  {
    words[2 * k] == width && words[2 * k + 1] == height
  }

  /** The table holds pairs, but the search counts single entries: it looks at as many pairs as there are entries. */
  predicate SizeFound(table: seq<Word>, tail: Tail, width: Word, height: Word)
    requires |table| == 2 || |table| == 4
  {
    exists k :: 0 <= k < |table| && PairAt(table + tail, k, width, height)
  }

  function Counter(t: Table, c: Category): Word {
    match c
    case Raw => t.counters.raw
    case Jpeg => t.counters.jpeg
    case Processed => t.counters.processed
  }

  function WithCounter(t: Table, c: Category, w: Word): (u: Table)
    ensures forall d :: Counter(u, d) == if d == c then w else Counter(t, d)
    ensures u == t.(counters := u.counters)
  {
    match c
    case Raw => t.(counters := t.counters.(raw := w))
    case Jpeg => t.(counters := t.counters.(jpeg := w))
    case Processed => t.(counters := t.counters.(processed := w))
  }

  function Allocated(t: Table, facingBack: bool, width: Word, height: Word, f: Format, tail: Tail): (Table, Status) {
    var g := ActualFormat(f);
    var c := CategoryOf(g);
    if !t.present then (t, NotPresent)
    else if !FormatSupported(g) then (t, BadValue)
    else if !SizeFound(Sizes(g, facingBack), tail, width, height) then (t, BadValue)
    else if Counter(t, c) >= Limit(c) then (t, InvalidOperation)
    else
      var u := WithCounter(t, c, Up(Counter(t, c)));
      (u.(streams := t.streams[t.nextStreamId := Stream(width, height, g, width)], nextStreamId := Up(t.nextStreamId)),
       Done(t.nextStreamId))
  }

  function Registered(t: Table, id: Word, numBuffers: int, f: Format): (Table, Status) {
    if !t.present then (t, NotPresent)
    else if numBuffers < 1 || f == ImplementationDefined || id !in t.streams then (t, BadValue)
    else (t.(streams := t.streams[id := t.streams[id].(format := f)]), Done(id))
  }

  function Released(t: Table, id: Word, inUse: bool): (Table, Status) {
    if id !in t.streams || inUse then (t, BadValue)
    else
      var c := CategoryOf(t.streams[id].format);
      var u := WithCounter(t, c, Down(Counter(t, c)));
      (u.(streams := t.streams - {id}), Done(id))
  }

  function ReprocessAllocated(t: Table, source: Word): (Table, Status) {
    if !t.present then (t, NotPresent)
    else if source !in t.streams then (t, BadValue)
    else if t.reprocessCount >= MAX_REPROCESS_STREAM_COUNT then (t, InvalidOperation)
    else (t.(reprocess := t.reprocess[t.nextReprocessStreamId := ReprocessStream(t.streams[source], source)],
             reprocessCount := Up(t.reprocessCount), nextReprocessStreamId := Up(t.nextReprocessStreamId)),
          Done(t.nextReprocessStreamId))
  }

  function ReprocessReleased(t: Table, id: Word): (Table, Status) {
    if id !in t.reprocess then (t, BadValue)
    else (t.(reprocess := t.reprocess - {id}, reprocessCount := Down(t.reprocessCount)), Done(id))
  }

  function Apply(t: Table, facingBack: bool, op: Op): (Table, Status) {
    match op
    case Allocate(w, h, f, tail) => Allocated(t, facingBack, w, h, f, tail)
    case Register(id, n, f) => Registered(t, id, n, f)
    case Release(id, inUse) => Released(t, id, inUse)
    case AllocateReprocess(source) => ReprocessAllocated(t, source)
    case ReleaseReprocess(id) => ReprocessReleased(t, id)
    case Plug(present) => (t.(present := present), Done(0))
  }

  /** The table when the camera is first connected. */
  const EMPTY: Table := Table(true, map[], Counters(0, 0, 0), 1, map[], 0, 1)

  function After(facingBack: bool, ops: seq<Op>): Table {
    if ops == [] then EMPTY
    else Apply(After(facingBack, ops[..|ops| - 1]), facingBack, ops[|ops| - 1]).0
  }

  predicate Succeeds(t: Table, facingBack: bool, op: Op) {
    Apply(t, facingBack, op).1.Done?
  }

  // ---------- counters and live streams ----------

  ghost function IdsOf(streams: map<Word, Stream>, c: Category): set<Word> {
    set id | id in streams && CategoryOf(streams[id].format) == c
  }

  ghost function LiveIds(t: Table, c: Category): set<Word> {
    IdsOf(t.streams, c)
  }

  ghost function Live(t: Table, c: Category): nat {
    |LiveIds(t, c)|
  }

  function One(b: bool): int {
    if b then 1 else 0
  }

  /**
   * How far a step takes the counter of category c away from the streams of that category: a registration that
   * changes the category moves a stream without its count, and an id handed out again drops the stream it had.
   */
  function StepDrift(t: Table, facingBack: bool, op: Op, c: Category): int {
    if !Succeeds(t, facingBack, op) then 0
    else match op
      case Register(id, _, f) =>
        if id in t.streams
        then One(CategoryOf(t.streams[id].format) == c) - One(CategoryOf(f) == c)
        else 0
      case Allocate(_, _, _, _) =>
        One(t.nextStreamId in t.streams && CategoryOf(t.streams[t.nextStreamId].format) == c)
      case _ => 0
  }

  function Drift(facingBack: bool, ops: seq<Op>, c: Category): int {
    if ops == [] then 0
    else
      var before := ops[..|ops| - 1];
      Drift(facingBack, before, c) + StepDrift(After(facingBack, before), facingBack, ops[|ops| - 1], c)
  }

  lemma SetWith<T>(s: set<T>, x: T)
    ensures |s + {x}| == |s| + One(x !in s)
  {
    if x in s {
      assert s + {x} == s;
    }
  }

  lemma SetWithout<T>(s: set<T>, x: T)
    ensures |s - {x}| == |s| - One(x in s)
  {
    if x !in s {
      assert s - {x} == s;
    }
  }

  lemma IdsAfterPut(streams: map<Word, Stream>, id: Word, s: Stream, c: Category)
    ensures IdsOf(streams[id := s], c) == IdsOf(streams, c) - {id} + if CategoryOf(s.format) == c then {id} else {}
  {
  }

  /** Putting a stream under an id: the category it enters gains one, the one the id had before loses one. */
  lemma LiveAfterPut(t: Table, id: Word, s: Stream, c: Category)
    ensures Live(t.(streams := t.streams[id := s]), c) ==
            Live(t, c) + One(CategoryOf(s.format) == c)
            - One(id in t.streams && CategoryOf(t.streams[id].format) == c)
  {
    IdsAfterPut(t.streams, id, s, c);
    SetWithout(LiveIds(t, c), id);
    SetWith(LiveIds(t, c) - {id}, id);
  }

  lemma LiveAfterRemoval(t: Table, id: Word, c: Category)
    requires id in t.streams
    ensures Live(t.(streams := t.streams - {id}), c) == Live(t, c) - One(CategoryOf(t.streams[id].format) == c)
  {
    assert LiveIds(t.(streams := t.streams - {id}), c) == LiveIds(t, c) - {id};
    SetWithout(LiveIds(t, c), id);
  }

  /** What a step does to the counter, before any reduction to 32 bits. */
  function CounterChange(t: Table, facingBack: bool, op: Op, c: Category): int {
    if !Succeeds(t, facingBack, op) then 0
    else match op
      case Allocate(_, _, f, _) => One(CategoryOf(ActualFormat(f)) == c)
      case Release(id, _) => -One(id in t.streams && CategoryOf(t.streams[id].format) == c)
      case _ => 0
  }

  lemma CounterStep(t: Table, facingBack: bool, op: Op, c: Category)
    ensures Counter(Apply(t, facingBack, op).0, c) == (Counter(t, c) + CounterChange(t, facingBack, op, c)) % WORDS
  {
  }

  lemma LiveStep(t: Table, facingBack: bool, op: Op, c: Category)
    ensures Live(Apply(t, facingBack, op).0, c) ==
            Live(t, c) + CounterChange(t, facingBack, op, c) - StepDrift(t, facingBack, op, c)
  {
    var u := Apply(t, facingBack, op).0;
    if Succeeds(t, facingBack, op) {
      match op {
        case Allocate(w, h, f, _) =>
          var s := Stream(w, h, ActualFormat(f), w);
          LiveAfterPut(t, t.nextStreamId, s, c);
          SameStreams(u, t.(streams := t.streams[t.nextStreamId := s]), c);
        case Register(id, _, f) => LiveAfterPut(t, id, t.streams[id].(format := f), c);
        case Release(id, _) =>
          LiveAfterRemoval(t, id, c);
          SameStreams(u, t.(streams := t.streams - {id}), c);
        case _ => SameStreams(u, t, c);
      }
    }
  }

  lemma SameStreams(t: Table, u: Table, c: Category)
    requires t.streams == u.streams
    ensures Live(t, c) == Live(u, c)
  {
    assert LiveIds(t, c) == LiveIds(u, c);
  }

  lemma Congruent(a: int, b: int, x: int, y: int)
    requires a == x % WORDS && b == (a + y) % WORDS
    ensures b == (x + y) % WORDS
  {
    assert x == x / WORDS * WORDS + a;
    assert (a + y + x / WORDS * WORDS) % WORDS == (a + y) % WORDS by {
      AddMultiple(a + y, x / WORDS);
    }
  }

  lemma {:induction false} AddMultiple(x: int, k: int)
    ensures (x + k * WORDS) % WORDS == x % WORDS
    decreases if k < 0 then -k else k
  {
    if k > 0 {
      AddMultiple(x, k - 1);
      assert (x + k * WORDS) == (x + (k - 1) * WORDS) + WORDS;
    } else if k < 0 {
      AddMultiple(x, k + 1);
      assert (x + k * WORDS) == (x + (k + 1) * WORDS) - WORDS;
    }
  }

  /** The ledger: over any run, whatever is registered, a counter is its live streams plus the drift, in 32 bits. */
  lemma {:induction false} Ledger(facingBack: bool, ops: seq<Op>, c: Category)
    ensures Counter(After(facingBack, ops), c) ==
            (Live(After(facingBack, ops), c) + Drift(facingBack, ops, c)) % WORDS
    decreases |ops|
  {
    if ops == [] {
      assert LiveIds(EMPTY, c) == {};
    } else {
      var before, op := ops[..|ops| - 1], ops[|ops| - 1];
      var t := After(facingBack, before);
      Ledger(facingBack, before, c);
      CounterStep(t, facingBack, op, c);
      LiveStep(t, facingBack, op, c);
      Congruent(Counter(t, c), Counter(After(facingBack, ops), c),
                Live(t, c) + Drift(facingBack, before, c), CounterChange(t, facingBack, op, c));
    }
  }

  // ---------- runs in which the counters are right ----------

  /** A registration leaves the stream in its category. */
  predicate KeepsCategory(t: Table, op: Op) {
    op.Register? && op.id in t.streams ==> CategoryOf(t.streams[op.id].format) == CategoryOf(op.finalFormat)
  }

  predicate Tidy(facingBack: bool, ops: seq<Op>) {
    ops == [] ||
    (Tidy(facingBack, ops[..|ops| - 1]) && KeepsCategory(After(facingBack, ops[..|ops| - 1]), ops[|ops| - 1]))
  }

  /** Successful allocations of the run. */
  function Allocations(facingBack: bool, ops: seq<Op>): nat {
    if ops == [] then 0
    else
      var before, op := ops[..|ops| - 1], ops[|ops| - 1];
      Allocations(facingBack, before) + One(op.Allocate? && Succeeds(After(facingBack, before), facingBack, op))
  }

  ghost predicate IdsFit(t: Table, handedOut: nat) {
    && t.nextStreamId == (1 + handedOut) % WORDS
    && (handedOut < WORDS ==> forall id :: id in t.streams ==> 1 <= id <= handedOut)
  }

  lemma IdsStep(t: Table, facingBack: bool, op: Op, handedOut: nat)
    requires IdsFit(t, handedOut)
    ensures IdsFit(Apply(t, facingBack, op).0, handedOut + One(op.Allocate? && Succeeds(t, facingBack, op)))
  {
    Congruent(t.nextStreamId, Up(t.nextStreamId), 1 + handedOut, 1);
  }

  /** The next id counts the allocations; until it wraps, every stream has an id below it. */
  lemma {:induction false} IdsCount(facingBack: bool, ops: seq<Op>)
    ensures IdsFit(After(facingBack, ops), Allocations(facingBack, ops))
    decreases |ops|
  {
    if ops != [] {
      var before, op := ops[..|ops| - 1], ops[|ops| - 1];
      var t, n := After(facingBack, before), Allocations(facingBack, before);
      IdsCount(facingBack, before);
      IdsStep(t, facingBack, op, n);
      assert After(facingBack, ops) == Apply(t, facingBack, op).0;
      assert Allocations(facingBack, ops) == n + One(op.Allocate? && Succeeds(t, facingBack, op));
    }
  }

  lemma HandsOutNext(t: Table, facingBack: bool, op: Op)
    requires op.Allocate? && Succeeds(t, facingBack, op)
    ensures Apply(t, facingBack, op).1 == Done(t.nextStreamId)
  {
  }

  /** Two allocations hand out the same id only if a multiple of 2^32 allocations lies between them. */
  lemma SameIdIff(facingBack: bool, ops: seq<Op>, i: nat, j: nat)
    requires i <= j < |ops| && ops[i].Allocate? && ops[j].Allocate?
    requires Succeeds(After(facingBack, ops[..i]), facingBack, ops[i])
    requires Succeeds(After(facingBack, ops[..j]), facingBack, ops[j])
    ensures Apply(After(facingBack, ops[..i]), facingBack, ops[i]).1
              == Apply(After(facingBack, ops[..j]), facingBack, ops[j]).1
            <==> (Allocations(facingBack, ops[..j]) - Allocations(facingBack, ops[..i])) % WORDS == 0
  {
    HandsOutNext(After(facingBack, ops[..i]), facingBack, ops[i]);
    HandsOutNext(After(facingBack, ops[..j]), facingBack, ops[j]);
    IdsCount(facingBack, ops[..i]);
    IdsCount(facingBack, ops[..j]);
    WrapsEqual(1 + Allocations(facingBack, ops[..i]), 1 + Allocations(facingBack, ops[..j]));
  }

  lemma WrapsEqual(a: int, b: int)
    ensures a % WORDS == b % WORDS <==> (b - a) % WORDS == 0
  {
    AddMultiple(b - a + a % WORDS, a / WORDS);
  }

  lemma NoStepDrift(t: Table, facingBack: bool, op: Op, c: Category)
    requires KeepsCategory(t, op)
    requires op.Allocate? && Succeeds(t, facingBack, op) ==> t.nextStreamId !in t.streams
    ensures StepDrift(t, facingBack, op, c) == 0
  {
  }

  lemma NextIdIsNew(facingBack: bool, ops: seq<Op>)
    requires Allocations(facingBack, ops) < WORDS - 1
    ensures After(facingBack, ops).nextStreamId !in After(facingBack, ops).streams
  {
    IdsCount(facingBack, ops);
  }

  /** The step that puts a counter wrong: a stream changes its category, or a live stream's id is handed out again. */
  predicate Misplaces(t: Table, facingBack: bool, op: Op) {
    && Succeeds(t, facingBack, op)
    && (|| !KeepsCategory(t, op)
        || (op.Allocate? && t.nextStreamId in t.streams))
  }

  /** Where the counters are right, a step leaves all of them right exactly when it misplaces nothing. */
  lemma StaysExactIff(t: Table, facingBack: bool, op: Op)
    requires forall c :: Counter(t, c) == Live(t, c)
    ensures var u := Apply(t, facingBack, op).0;
      (forall c :: Counter(u, c) == Live(u, c) % WORDS) <==> !Misplaces(t, facingBack, op)
  {
    forall c
      ensures var u := Apply(t, facingBack, op).0;
        Counter(u, c) == Live(u, c) % WORDS <==> StepDrift(t, facingBack, op, c) == 0
    {
      CounterStep(t, facingBack, op, c);
      LiveStep(t, facingBack, op, c);
    }
    if Misplaces(t, facingBack, op) {
      var c := CategoryOf(t.streams[if op.Register? then op.id else t.nextStreamId].format);
      assert StepDrift(t, facingBack, op, c) == 1;
    } else {
      assert forall c :: StepDrift(t, facingBack, op, c) == 0;
    }
  }

  /** In a tidy run of fewer than 2^32 allocations nothing drifts. */
  lemma {:induction false} TidyMeansNoDrift(facingBack: bool, ops: seq<Op>, c: Category)
    requires Tidy(facingBack, ops) && Allocations(facingBack, ops) < WORDS
    ensures Drift(facingBack, ops, c) == 0
    decreases |ops|
  {
    if ops != [] {
      var before, op := ops[..|ops| - 1], ops[|ops| - 1];
      TidyMeansNoDrift(facingBack, before, c);
      if Allocations(facingBack, before) < WORDS - 1 {
        NextIdIsNew(facingBack, before);
      }
      NoStepDrift(After(facingBack, before), facingBack, op, c);
    }
  }

  lemma ExactStep(t: Table, facingBack: bool, op: Op, c: Category)
    requires Counter(t, c) == Live(t, c) <= Limit(c) && StepDrift(t, facingBack, op, c) == 0
    ensures var u := Apply(t, facingBack, op).0; Counter(u, c) == Live(u, c) <= Limit(c)
  {
    CounterStep(t, facingBack, op, c);
    LiveStep(t, facingBack, op, c);
    var change := CounterChange(t, facingBack, op, c);
    assert 0 <= Counter(t, c) + change <= Limit(c);
  }

  /** The counters are then exact and within the limits. */
  lemma {:induction false} TidyCountersAreExact(facingBack: bool, ops: seq<Op>, c: Category)
    requires Tidy(facingBack, ops) && Allocations(facingBack, ops) < WORDS
    ensures Counter(After(facingBack, ops), c) == Live(After(facingBack, ops), c) <= Limit(c)
    decreases |ops|
  {
    if ops == [] {
      assert LiveIds(EMPTY, c) == {};
    } else {
      var before, op := ops[..|ops| - 1], ops[|ops| - 1];
      var t := After(facingBack, before);
      TidyCountersAreExact(facingBack, before, c);
      TidyMeansNoDrift(facingBack, before, c);
      TidyMeansNoDrift(facingBack, ops, c);
      ExactStep(t, facingBack, op, c);
    }
  }

  /** So no release takes a counter below zero. */
  lemma TidyReleaseDoesNotUnderflow(facingBack: bool, ops: seq<Op>, id: Word)
    requires Tidy(facingBack, ops) && Allocations(facingBack, ops) < WORDS
    requires var t := After(facingBack, ops); id in t.streams
    ensures var t := After(facingBack, ops); Counter(t, CategoryOf(t.streams[id].format)) >= 1
  {
    var t := After(facingBack, ops);
    var c := CategoryOf(t.streams[id].format);
    TidyCountersAreExact(facingBack, ops, c);
    assert id in LiveIds(t, c);
  }

  // ---------- when an operation succeeds ----------

  /** The formats a client may ask for. */
  predicate Offered(f: Format) {
    f in {Raw16, Blob, Rgba8888, YCrCb420Sp, ImplementationDefined, Zsl}
  }

  /** Sizes by format and by the side the camera faces. */
  predicate OfferedSize(f: Format, facingBack: bool, width: Word, height: Word) {
    match f
    case Raw16 => (width, height) == (640, 480)
    case Blob => (width, height) == if facingBack then (640, 480) else (320, 240)
    case _ => (width, height) in if facingBack then {(640, 480), (320, 240)} else {(320, 240), (160, 120)}
  }

  lemma OfferedSizesListed(f: Format, facingBack: bool, width: Word, height: Word)
    ensures Listed(Sizes(ActualFormat(f), facingBack), width, height) <==> OfferedSize(f, facingBack, width, height)
  {
    var table := Sizes(ActualFormat(f), facingBack);
    assert PairAt(table, 0, width, height) <==> table[0] == width && table[1] == height;
    if |table| == 4 {
      assert PairAt(table, 1, width, height) <==> table[2] == width && table[3] == height;
    }
  }

  /** Room for one raw stream, one JPEG stream, and three others. */
  predicate HasRoom(t: Table, f: Format) {
    match f
    case Raw16 => t.counters.raw < 1
    case Blob => t.counters.jpeg < 1
    case _ => t.counters.processed < 3
  }

  /** An allocation succeeds for an offered format in a size found while there is room; it adds the stream it says. */
  lemma AllocateSucceedsIff(t: Table, facingBack: bool, width: Word, height: Word, f: Format, tail: Tail)
    ensures var (u, status) := Apply(t, facingBack, Allocate(width, height, f, tail));
      var sized := SizeFound(Sizes(ActualFormat(f), facingBack), tail, width, height);
      && (status.Done? <==> t.present && Offered(f) && sized && HasRoom(t, f))
      && (if status.Done? then
            var format := if f == Zsl then ImplementationDefined else f;
            status.id == t.nextStreamId && u.streams == t.streams[status.id := Stream(width, height, format, width)]
          else
            u == t
            && status == if !t.present then NotPresent else if !Offered(f) || !sized then BadValue else InvalidOperation)
  {
  }

  /** With tidy registrations that means: as long as there are less than 1, 1 or 3 live streams of the category. */
  lemma RoomIsLiveStreams(facingBack: bool, ops: seq<Op>, f: Format)
    requires Tidy(facingBack, ops) && Allocations(facingBack, ops) < WORDS
    ensures var t := After(facingBack, ops);
      HasRoom(t, f) <==>
      match f
      case Raw16 => |set id | id in t.streams && t.streams[id].format == Raw16| < 1
      case Blob => |set id | id in t.streams && t.streams[id].format == Blob| < 1
      case _ => |set id | id in t.streams && t.streams[id].format !in {Raw16, Blob}| < 3
  {
    var t := After(facingBack, ops);
    TidyCountersAreExact(facingBack, ops, CategoryOf(f));
    assert LiveIds(t, Raw) == set id | id in t.streams && t.streams[id].format == Raw16;
    assert LiveIds(t, Jpeg) == set id | id in t.streams && t.streams[id].format == Blob;
    assert LiveIds(t, Processed) == set id | id in t.streams && t.streams[id].format !in {Raw16, Blob};
  }

  /** The other operations: what they need, and what they change. */
  lemma OthersSucceedIff(t: Table, facingBack: bool, id: Word, numBuffers: int, f: Format, inUse: bool)
    ensures var (u, status) := Apply(t, facingBack, Register(id, numBuffers, f));
      && (status.Done? <==> t.present && numBuffers >= 1 && f != ImplementationDefined && id in t.streams)
      && u == if status.Done? then t.(streams := t.streams[id := t.streams[id].(format := f)]) else t
    ensures var (u, status) := Apply(t, facingBack, Release(id, inUse));
      && (status.Done? <==> id in t.streams && !inUse)
      && u.streams == if status.Done? then t.streams - {id} else t.streams
    ensures var (u, status) := Apply(t, facingBack, AllocateReprocess(id));
      && (status.Done? <==> t.present && id in t.streams && t.reprocessCount < 2)
      && u.reprocess == if status.Done?
                        then t.reprocess[t.nextReprocessStreamId := ReprocessStream(t.streams[id], id)]
                        else t.reprocess
    ensures var (u, status) := Apply(t, facingBack, ReleaseReprocess(id));
      && (status.Done? <==> id in t.reprocess)
      && u.reprocess == t.reprocess - {id}
    ensures Apply(t, facingBack, Plug(inUse)).0 == t.(present := inUse)
  {
  }

  lemma StartsEmpty(facingBack: bool)
    ensures var t := After(facingBack, []);
      && t.present && t.streams == map[] && t.reprocess == map[] && t.nextStreamId == 1 && t.nextReprocessStreamId == 1
  {
  }

  /** A stream of unspecified format, registered as JPEG, then released. */
  function ChangedCategory(facingBack: bool): seq<Op> {
    var size := Sizes(ImplementationDefined, facingBack);
    [Allocate(size[0], size[1], ImplementationDefined, [0, 0, 0, 0]), Register(1, 1, Blob), Release(1, false)]
  }

  lemma AfterChangedCategory(facingBack: bool)
    ensures var t := After(facingBack, ChangedCategory(facingBack));
      t.streams == map[] && t.counters == Counters(0, WORDS - 1, 1)
  {
    var ops := ChangedCategory(facingBack);
    assert SizeFound(Sizes(ImplementationDefined, facingBack), ops[0].tail, ops[0].width, ops[0].height) by {
      assert PairAt(Sizes(ImplementationDefined, facingBack) + ops[0].tail, 0, ops[0].width, ops[0].height);
    }
    AfterOneMore(facingBack, [], ops[0]);
    AfterOneMore(facingBack, [ops[0]], ops[1]);
    AfterOneMore(facingBack, [ops[0], ops[1]], ops[2]);
    assert [] + [ops[0]] == [ops[0]] && [ops[0]] + [ops[1]] == [ops[0], ops[1]] && [ops[0], ops[1]] + [ops[2]] == ops;
  }

  /** A counter that has gone below zero shows as a huge word. */
  function Signed(w: Word): int {
    if w < WORDS / 2 then w else w - WORDS
  }

  function Total(t: Table): int {
    Signed(t.counters.raw) + Signed(t.counters.jpeg) + Signed(t.counters.processed)
  }

  /**
   * What holds over every run, whatever is registered: no counter is above its limit, and together they count at
   * least the streams in the table. So none of them is ever far below zero.
   */
  ghost predicate Bounded(t: Table) {
    && (forall c :: Signed(Counter(t, c)) <= Limit(c))
    && Total(t) >= |t.streams|
  }

  lemma BoundedIsNear(t: Table, c: Category)
    requires Bounded(t)
    ensures -5 <= Signed(Counter(t, c)) <= 3
  {
    assert Signed(Counter(t, Raw)) <= 1 && Signed(Counter(t, Jpeg)) <= 1 && Signed(Counter(t, Processed)) <= 3;
  }

  lemma SignedMoves(w: Word)
    requires -5 <= Signed(w) <= 3
    ensures Signed(Up(w)) == Signed(w) + 1 && Signed(Down(w)) == Signed(w) - 1
  {
  }

  lemma TotalMoves(t: Table, c: Category, w: Word)
    ensures Total(WithCounter(t, c, w)) == Total(t) - Signed(Counter(t, c)) + Signed(w)
  {
    match c
    case Raw =>
    case Jpeg =>
    case Processed =>
  }

  /** One stream more at most, and one counter up that was below its limit. */
  lemma CountedUp(t: Table, d: Category, streams: map<Word, Stream>, next: Word)
    requires Bounded(t) && Counter(t, d) < Limit(d) && |streams| <= |t.streams| + 1
    ensures var u := WithCounter(t, d, Up(Counter(t, d))).(streams := streams, nextStreamId := next); Bounded(u)
  {
    BoundedIsNear(t, d);
    SignedMoves(Counter(t, d));
    TotalMoves(t, d, Up(Counter(t, d)));
    var u := WithCounter(t, d, Up(Counter(t, d)));
    forall c ensures Signed(Counter(u, c)) <= Limit(c) {
      assert Counter(u, c) == if c == d then Up(Counter(t, d)) else Counter(t, c);
    }
  }

  lemma CountedDown(t: Table, d: Category, streams: map<Word, Stream>)
    requires Bounded(t) && |streams| == |t.streams| - 1
    ensures var u := WithCounter(t, d, Down(Counter(t, d))).(streams := streams); Bounded(u)
    ensures Signed(Down(Counter(t, d))) == Signed(Counter(t, d)) - 1
  {
    BoundedIsNear(t, d);
    SignedMoves(Counter(t, d));
    TotalMoves(t, d, Down(Counter(t, d)));
    var u := WithCounter(t, d, Down(Counter(t, d)));
    forall c ensures Signed(Counter(u, c)) <= Limit(c) {
      assert Counter(u, c) == if c == d then Down(Counter(t, d)) else Counter(t, c);
    }
  }

  lemma StreamsWith(streams: map<Word, Stream>, id: Word, s: Stream)
    ensures |streams[id := s]| == |streams| + One(id !in streams)
  {
    SetWith(streams.Keys, id);
    assert streams[id := s].Keys == streams.Keys + {id};
    assert |streams[id := s]| == |streams[id := s].Keys|;
  }

  lemma StreamsWithout(streams: map<Word, Stream>, id: Word)
    ensures |streams - {id}| == |streams| - One(id in streams)
  {
    SetWithout(streams.Keys, id);
    assert (streams - {id}).Keys == streams.Keys - {id};
    assert |streams - {id}| == |(streams - {id}).Keys|;
  }

  lemma AllocationKeepsBounded(t: Table, facingBack: bool, w: Word, h: Word, f: Format, tail: Tail, c: Category)
    requires Bounded(t)
    ensures var u := Allocated(t, facingBack, w, h, f, tail).0;
      Bounded(u) && (Signed(Counter(t, c)) < 0 ==> Counter(u, c) == Counter(t, c))
  {
    var d := CategoryOf(ActualFormat(f));
    if Allocated(t, facingBack, w, h, f, tail).1.Done? {
      var s := Stream(w, h, ActualFormat(f), w);
      StreamsWith(t.streams, t.nextStreamId, s);
      CountedUp(t, d, t.streams[t.nextStreamId := s], Up(t.nextStreamId));
    }
  }

  lemma ReleaseKeepsBounded(t: Table, id: Word, inUse: bool, c: Category)
    requires Bounded(t)
    ensures var u := Released(t, id, inUse).0; Bounded(u) && Signed(Counter(u, c)) <= Signed(Counter(t, c))
  {
    if id in t.streams && !inUse {
      StreamsWithout(t.streams, id);
      CountedDown(t, CategoryOf(t.streams[id].format), t.streams - {id});
    }
  }

  lemma StepKeepsBounded(t: Table, facingBack: bool, op: Op, c: Category)
    requires Bounded(t)
    ensures var u := Apply(t, facingBack, op).0;
      Bounded(u) && (Signed(Counter(t, c)) < 0 ==> Signed(Counter(u, c)) <= Signed(Counter(t, c)))
  {
    match op
    case Allocate(w, h, f, tail) => AllocationKeepsBounded(t, facingBack, w, h, f, tail, c);
    case Release(id, inUse) => ReleaseKeepsBounded(t, id, inUse, c);
    case Register(id, _, f) =>
      if Succeeds(t, facingBack, op) {
        assert (t.streams[id := t.streams[id].(format := f)]).Keys == t.streams.Keys;
        assert |t.streams[id := t.streams[id].(format := f)]| == |t.streams.Keys|;
      }
    case _ =>
  }

  lemma {:induction false} RunKeepsBounded(facingBack: bool, ops: seq<Op>)
    ensures Bounded(After(facingBack, ops))
    decreases |ops|
  {
    if ops != [] {
      var before, op := ops[..|ops| - 1], ops[|ops| - 1];
      RunKeepsBounded(facingBack, before);
      StepKeepsBounded(After(facingBack, before), facingBack, op, Raw);
    }
  }

  /** A counter that has ever gone below zero stays there: no stream of its category is allocated again. */
  lemma {:induction false} UnderflowIsForever(facingBack: bool, ops: seq<Op>, more: seq<Op>, c: Category)
    requires Signed(Counter(After(facingBack, ops), c)) < 0
    ensures Signed(Counter(After(facingBack, ops + more), c)) < 0
    ensures forall w, h, f, tail :: CategoryOf(ActualFormat(f)) == c ==>
              !Succeeds(After(facingBack, ops + more), facingBack, Allocate(w, h, f, tail))
    decreases |more|
  {
    if more == [] {
      assert ops + more == ops;
    } else {
      var before, op := more[..|more| - 1], more[|more| - 1];
      UnderflowIsForever(facingBack, ops, before, c);
      RunKeepsBounded(facingBack, ops + before);
      StepKeepsBounded(After(facingBack, ops + before), facingBack, op, c);
      assert ops + more == ops + before + [op];
      AfterOneMore(facingBack, ops + before, op);
    }
  }

  /** After that run, however it goes on, no JPEG stream can be allocated any more. */
  lemma ChangedCategoryLocksOut(facingBack: bool, more: seq<Op>, w: Word, h: Word, tail: Tail)
    ensures Live(After(facingBack, ChangedCategory(facingBack)), Jpeg) == 0
    ensures !Succeeds(After(facingBack, ChangedCategory(facingBack) + more), facingBack, Allocate(w, h, Blob, tail))
  {
    AfterChangedCategory(facingBack);
    assert LiveIds(After(facingBack, ChangedCategory(facingBack)), Jpeg) == {};
    UnderflowIsForever(facingBack, ChangedCategory(facingBack), more, Jpeg);
    assert CategoryOf(ActualFormat(Blob)) == Jpeg;
  }

  lemma AfterOneMore(facingBack: bool, before: seq<Op>, op: Op)
    ensures After(facingBack, before + [op]) == Apply(After(facingBack, before), facingBack, op).0
  {
    assert (before + [op])[..|before|] == before;
  }

  // ---------- reprocess streams ----------

  ghost predicate ReprocessFits(t: Table, handedOut: nat) {
    && t.nextReprocessStreamId == (1 + handedOut) % WORDS
    && (handedOut < WORDS ==>
          && (forall id :: id in t.reprocess ==> 1 <= id <= handedOut)
          && t.reprocessCount == |t.reprocess| <= MAX_REPROCESS_STREAM_COUNT)
  }

  function ReprocessAllocations(facingBack: bool, ops: seq<Op>): nat {
    if ops == [] then 0
    else
      var before, op := ops[..|ops| - 1], ops[|ops| - 1];
      ReprocessAllocations(facingBack, before)
      + One(op.AllocateReprocess? && Succeeds(After(facingBack, before), facingBack, op))
  }

  /** Nothing re-registers a reprocess stream, so its counter is exact until ids wrap, at most two being live. */
  lemma {:induction false} ReprocessCountIsExact(facingBack: bool, ops: seq<Op>)
    ensures ReprocessFits(After(facingBack, ops), ReprocessAllocations(facingBack, ops))
    decreases |ops|
  {
    if ops == [] {
      assert After(facingBack, ops) == EMPTY && |EMPTY.reprocess| == 0;
    } else {
      var before, op := ops[..|ops| - 1], ops[|ops| - 1];
      ReprocessCountIsExact(facingBack, before);
      ReprocessRunStep(facingBack, before, op);
      assert before + [op] == ops;
    }
  }

  lemma ReprocessRunStep(facingBack: bool, before: seq<Op>, op: Op)
    requires ReprocessFits(After(facingBack, before), ReprocessAllocations(facingBack, before))
    ensures ReprocessFits(After(facingBack, before + [op]), ReprocessAllocations(facingBack, before + [op]))
  {
    AfterOneMore(facingBack, before, op);
    assert (before + [op])[..|before|] == before;
    ReprocessStep(After(facingBack, before), facingBack, op, ReprocessAllocations(facingBack, before));
  }

  lemma ReprocessStep(t: Table, facingBack: bool, op: Op, handedOut: nat)
    requires ReprocessFits(t, handedOut)
    ensures ReprocessFits(Apply(t, facingBack, op).0,
                          handedOut + One(op.AllocateReprocess? && Succeeds(t, facingBack, op)))
  {
    match op
    case AllocateReprocess(source) => ReprocessAllocationFits(t, source, handedOut);
    case ReleaseReprocess(id) => ReprocessReleaseFits(t, id, handedOut);
    case _ => ReprocessUntouched(t, facingBack, op);
  }

  lemma ReprocessUntouched(t: Table, facingBack: bool, op: Op)
    requires !op.AllocateReprocess? && !op.ReleaseReprocess?
    ensures Apply(t, facingBack, op).0.reprocess == t.reprocess
    ensures Apply(t, facingBack, op).0.reprocessCount == t.reprocessCount
    ensures Apply(t, facingBack, op).0.nextReprocessStreamId == t.nextReprocessStreamId
  {
  }

  lemma ReprocessAllocationFits(t: Table, source: Word, handedOut: nat)
    requires ReprocessFits(t, handedOut)
    ensures ReprocessFits(ReprocessAllocated(t, source).0, handedOut + One(ReprocessAllocated(t, source).1.Done?))
  {
    Congruent(t.nextReprocessStreamId, Up(t.nextReprocessStreamId), 1 + handedOut, 1);
    SetWith(t.reprocess.Keys, t.nextReprocessStreamId);
    var after := ReprocessAllocated(t, source).0.reprocess;
    if ReprocessAllocated(t, source).1.Done? {
      assert after.Keys == t.reprocess.Keys + {t.nextReprocessStreamId};
      assert |after| == |after.Keys|;
    }
  }

  lemma ReprocessReleaseFits(t: Table, id: Word, handedOut: nat)
    requires ReprocessFits(t, handedOut)
    ensures ReprocessFits(ReprocessReleased(t, id).0, handedOut)
  {
    var left := t.reprocess - {id};
    SetWithout(t.reprocess.Keys, id);
    assert left.Keys == t.reprocess.Keys - {id};
    assert |left| == |left.Keys|;
  }

  // ---------- the size search ----------

  predicate Listed(table: seq<Word>, width: Word, height: Word) {
    exists k :: 0 <= k < |table| / 2 && 2 * k + 1 < |table| && PairAt(table, k, width, height)
  }

  /** Every listed size is found; another one is found exactly when the words behind the table spell it. */
  lemma SizeFoundIff(table: seq<Word>, tail: Tail, width: Word, height: Word)
    requires |table| == 2 || |table| == 4
    ensures SizeFound(table, tail, width, height) <==>
            Listed(table, width, height) || Listed(tail[..|table|], width, height)
  {
    var words, half := table + tail, |table| / 2;
    forall k | 0 <= k < half ensures PairAt(words, k, width, height) == PairAt(table, k, width, height) {
    }
    forall k | 0 <= k < half
      ensures PairAt(words, half + k, width, height) == PairAt(tail[..|table|], k, width, height)
    {
    }
    if SizeFound(table, tail, width, height) {
      var k :| 0 <= k < |table| && PairAt(words, k, width, height);
      if k >= half {
        assert PairAt(tail[..|table|], k - half, width, height);
      }
    }
    if Listed(tail[..|table|], width, height) {
      var k :| 0 <= k < |tail[..|table|]| / 2 && PairAt(tail[..|table|], k, width, height);
      assert PairAt(words, half + k, width, height);
    }
  }

  /** So what a caller can rely on, whatever lies behind the table, is to find the listed sizes. */
  lemma AlwaysFoundIffListed(table: seq<Word>, width: Word, height: Word)
    requires |table| == 2 || |table| == 4
    ensures (forall tail: Tail :: SizeFound(table, tail, width, height)) <==> Listed(table, width, height)
    ensures !Listed(table, width, height) ==> exists tail: Tail :: SizeFound(table, tail, width, height)
  {
    forall tail: Tail | Listed(table, width, height) ensures SizeFound(table, tail, width, height) {
      SizeFoundIff(table, tail, width, height);
    }
    var found: Tail := [width, height, 0, 0];
    assert PairAt(found[..|table|], 0, width, height);
    SizeFoundIff(table, found, width, height);
    var other: Word := if width == 0 then 1 else 0;
    var missed: Tail := [other, other, other, other];
    SizeFoundIff(table, missed, width, height);
    assert !Listed(missed[..|table|], width, height);
  }

  // ---------- the table as the camera keeps it ----------

  class StreamAllocator {
    const mFacingBack: bool
    var mStatusPresent: bool
    var mStreams: map<Word, Stream>
    var mRawStreamCount: Word
    var mJpegStreamCount: Word
    var mProcessedStreamCount: Word
    var mNextStreamId: Word
    var mReprocessStreams: map<Word, ReprocessStream>
    var mReprocessStreamCount: Word
    var mNextReprocessStreamId: Word

    ghost function View(): Table
      reads this
    {
      Table(mStatusPresent, mStreams, Counters(mRawStreamCount, mJpegStreamCount, mProcessedStreamCount), mNextStreamId,
            mReprocessStreams, mReprocessStreamCount, mNextReprocessStreamId)
    }

    constructor (facingBack: bool)
      ensures View() == EMPTY && mFacingBack == facingBack
    {
      mFacingBack := facingBack;
      mStatusPresent := true;
      mStreams, mReprocessStreams := map[], map[];
      mRawStreamCount, mJpegStreamCount, mProcessedStreamCount, mReprocessStreamCount := 0, 0, 0, 0;
      mNextStreamId, mNextReprocessStreamId := 1, 1;
    }

    method AllocateStream(width: Word, height: Word, requested: Format, tail: Tail) returns (status: Status)
      modifies this
      ensures (View(), status) == Allocated(old(View()), mFacingBack, width, height, requested, tail)
    {
      if !mStatusPresent {
        return NotPresent;
      }
      var format := if requested == Zsl then ImplementationDefined else requested;
      if format != ImplementationDefined {
        var known := FormatKnown(format);
        if !known {
          return BadValue;
        }
      }
      var found := FindSize(Sizes(format, mFacingBack), tail, width, height);
      if !found {
        return BadValue;
      }
      if format == Raw16 {
        if mRawStreamCount >= 1 {
          return InvalidOperation;
        }
        mRawStreamCount := Up(mRawStreamCount);
      } else if format == Blob {
        if mJpegStreamCount >= 1 {
          return InvalidOperation;
        }
        mJpegStreamCount := Up(mJpegStreamCount);
      } else {
        if mProcessedStreamCount >= 3 {
          return InvalidOperation;
        }
        mProcessedStreamCount := Up(mProcessedStreamCount);
      }
      mStreams := mStreams[mNextStreamId := Stream(width, height, format, width)];
      status := Done(mNextStreamId);
      mNextStreamId := Up(mNextStreamId);
    }

    method RegisterStreamBuffers(id: Word, numBuffers: int, finalFormat: Format) returns (status: Status)
      modifies `mStreams
      ensures (View(), status) == Registered(old(View()), id, numBuffers, finalFormat)
    {
      if !mStatusPresent {
        return NotPresent;
      }
      if numBuffers < 1 {
        return BadValue;
      }
      if finalFormat == ImplementationDefined {
        return BadValue;
      }
      if id !in mStreams {
        return BadValue;
      }
      mStreams := mStreams[id := mStreams[id].(format := finalFormat)];
      status := Done(id);
    }

    method ReleaseStream(id: Word, inUse: bool) returns (status: Status)
      modifies this
      ensures (View(), status) == Released(old(View()), id, inUse)
    {
      if id !in mStreams {
        return BadValue;
      }
      if inUse {
        return BadValue;
      }
      match mStreams[id].format {
        case Raw16 => mRawStreamCount := Down(mRawStreamCount);
        case Blob => mJpegStreamCount := Down(mJpegStreamCount);
        case _ => mProcessedStreamCount := Down(mProcessedStreamCount);
      }
      mStreams := mStreams - {id};
      status := Done(id);
    }

    method AllocateReprocessStreamFromStream(source: Word) returns (status: Status)
      modifies `mReprocessStreams, `mReprocessStreamCount, `mNextReprocessStreamId
      ensures (View(), status) == ReprocessAllocated(old(View()), source)
    {
      if !mStatusPresent {
        return NotPresent;
      }
      if source !in mStreams {
        return BadValue;
      }
      if mReprocessStreamCount >= MAX_REPROCESS_STREAM_COUNT {
        return InvalidOperation;
      }
      mReprocessStreamCount := Up(mReprocessStreamCount);
      status := Done(mNextReprocessStreamId);
      mReprocessStreams := mReprocessStreams[mNextReprocessStreamId := ReprocessStream(mStreams[source], source)];
      mNextReprocessStreamId := Up(mNextReprocessStreamId);
    }

    method ReleaseReprocessStream(id: Word) returns (status: Status)
      modifies `mReprocessStreams, `mReprocessStreamCount
      ensures (View(), status) == ReprocessReleased(old(View()), id)
    {
      if id !in mReprocessStreams {
        return BadValue;
      }
      mReprocessStreamCount := Down(mReprocessStreamCount);
      mReprocessStreams := mReprocessStreams - {id};
      status := Done(id);
    }
  }

  method FormatKnown(format: Format) returns (known: bool)
    ensures known <==> format in AVAILABLE_FORMATS
  {
    var i := 0;
    while i < |AVAILABLE_FORMATS|
      invariant 0 <= i <= |AVAILABLE_FORMATS|
      invariant format !in AVAILABLE_FORMATS[..i]
    {
      if format == AVAILABLE_FORMATS[i] {
        return true;
      }
      i := i + 1;
    }
    return false;
  }

  method FindSize(table: seq<Word>, tail: Tail, width: Word, height: Word) returns (found: bool)
    requires |table| == 2 || |table| == 4
    ensures found <==> SizeFound(table, tail, width, height)
  {
    var words := table + tail;
    var k := 0;
    while k < |table|
      invariant 0 <= k <= |table|
      invariant forall j :: 0 <= j < k ==> !PairAt(words, j, width, height)
    {
      if words[2 * k] == width && words[2 * k + 1] == height {
        assert PairAt(words, k, width, height);
        return true;
      }
      k := k + 1;
    }
    return false;
  }
}
