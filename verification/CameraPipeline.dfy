/**
 * Requests moving through the emulated camera: configure thread, in-flight queue, readout thread, JPEG compressor.
 * A step is what one thread does between two points at which another thread could look.
 */
module CameraPipeline {
  import opened Text

  /** The buffers set up for a request; only the stream and whether it is a BLOB matter. */
  datatype Buffer = Buffer(streamId: int, blob: bool)

  /** A Buffers vector; `owner` is the request it was made for. */
  datatype Buffers = Buffers(owner: nat, list: seq<Buffer>)

  datatype Entry = Entry(isCapture: bool, request: nat, buffers: Buffers)

  /** (tail + 1) % kInFlightQueueSize == head already counts as full. */
  const IN_FLIGHT_LIMIT: nat := 3

  predicate Mentions(buffers: Buffers, id: int) {
    exists i :: 0 <= i < |buffers.list| && buffers.list[i].streamId == id
  }

  predicate HasJpeg(buffers: Buffers) {
    exists i :: 0 <= i < |buffers.list| && buffers.list[i].streamId > 0 && buffers.list[i].blob
  }

  // ---------- threads ----------

  /** Where the configure thread stands; it holds mInternalsMutex except at Asking, Waiting and Stopped. */
  datatype ConfigureAt = Asking | Counting | SettingUp | Waiting | Publishing | Clearing | CountingDown | Stopped

  datatype Configure = Configure(
    at: ConfigureAt,
    request: Option<nat>,
    isCapture: bool,
    buffers: Option<Buffers>,
    count: int,
    waitingForReadout: bool,
    needsJpeg: bool)

  /** Where the readout thread stands; it holds mInternalsMutex at Freed and HandedOver. */
  datatype ReadoutAt = Idle | Reading | Freed | HandedOver | Halted

  datatype Readout = Readout(
    at: ReadoutAt,
    active: bool,
    queue: seq<Entry>,
    count: int,
    request: Option<nat>,
    isCapture: bool,
    buffers: Option<Buffers>)

  predicate ReadyForNextCapture(r: Readout) {
    |r.queue| < IN_FLIGHT_LIMIT
  }

  /** setNextOperation: a full queue drops the request. */
  function Pushed(r: Readout, e: Entry): Readout {
    if ReadyForNextCapture(r) then r.(queue := r.queue + [e], count := r.count + 1, active := true) else r
  }

  /** The start of threadLoop with no request at hand. */
  function Taken(r: Readout): Readout {
    if r.queue == [] then r.(active := false)
    else r.(at := Reading, queue := r.queue[1..], request := Some(r.queue[0].request),
            isCapture := r.queue[0].isCapture, buffers := Some(r.queue[0].buffers))
  }

  /** The compressor is busy exactly while it owns buffers. */
  datatype State = State(
    configure: Configure,
    readout: Readout,
    jpeg: Option<Buffers>,
    kinds: seq<bool>,            // of every request dequeued so far, whether it is a capture
    freed: seq<nat>,             // requests given back, in order
    dropped: set<nat>,           // requests lost to a full queue
    setUp: map<nat, Buffers>)    // what was recorded for each request

  datatype Step =
    | Dequeue(isCapture: bool)
    | DequeueFails
    | CountUp
    | SetUp(list: seq<Buffer>)
    | SetUpFails(partial: Option<seq<Buffer>>) // the buffers recorded before the error
    | ReadoutReady
    | JpegReady
    | JpegWoken                      // a wake-up of the wait although the compressor is busy
    | BeginPublish
    | Publish
    | Clear
    | CountDown
    | Take
    | ReadoutFails
    | FreeRequest
    | HandOver
    | FinishReadout
    | JpegFinish

  ghost predicate Init(s: State) {
    && s.configure.at == Asking && s.configure.request == None && s.configure.buffers == None && s.configure.count == 0
    && s.readout == Readout(Idle, false, [], 0, None, s.readout.isCapture, None)
    && s.jpeg == None && s.kinds == [] && s.freed == [] && s.dropped == {} && s.setUp == map[]
  }

  predicate Enabled(s: State, step: Step) {
    var c, r := s.configure, s.readout;
    match step
    case Dequeue(_) => c.at == Asking
    case DequeueFails => c.at == Asking
    case CountUp => c.at == Counting
    case SetUp(_) => c.at == SettingUp
    case SetUpFails(_) => c.at == SettingUp
    case ReadoutReady => c.at == Waiting && c.waitingForReadout && ReadyForNextCapture(r)
    case JpegReady => c.at == Waiting && !c.waitingForReadout && c.needsJpeg && s.jpeg.None?
    case JpegWoken => c.at == Waiting && !c.waitingForReadout && c.needsJpeg && s.jpeg.Some?
    case BeginPublish => c.at == Waiting && !c.waitingForReadout && !c.needsJpeg
    case Publish => c.at == Publishing && c.request.Some? && c.buffers.Some?
    case Clear => c.at == Clearing
    case CountDown => c.at == CountingDown
    case Take => r.at == Idle && r.active
    case ReadoutFails => r.at == Reading
    case FreeRequest => r.at == Reading && r.request.Some?
    case HandOver => r.at == Freed && r.buffers.Some?
    case FinishReadout => r.at == HandedOver
    case JpegFinish => s.jpeg.Some?
  }

  function Apply(s: State, step: Step): State
    requires Enabled(s, step)
  {
    var c, r := s.configure, s.readout;
    match step
    case Dequeue(isCapture) =>
      s.(kinds := s.kinds + [isCapture],
         configure := c.(at := Counting, request := Some(|s.kinds|), isCapture := isCapture))
    case DequeueFails => s.(configure := c.(at := Stopped))
    case CountUp => s.(configure := c.(at := SettingUp, count := c.count + 1))
    case SetUp(list) =>
      var b := Buffers(c.request.GetOr(0), list);
      s.(setUp := s.setUp[b.owner := b],
         configure := if c.isCapture
           then c.(at := Waiting, buffers := Some(b), waitingForReadout := true,
                   needsJpeg := exists i :: 0 <= i < |list| && list[i].blob)
           else c.(at := Waiting, buffers := Some(b), needsJpeg := true))
    case SetUpFails(partial) =>
      (match partial
       case None => s.(configure := c.(at := Stopped))
       case Some(l) =>
         var b := Buffers(c.request.GetOr(0), l);
         s.(setUp := s.setUp[b.owner := b], configure := c.(at := Stopped, buffers := Some(b))))
    case ReadoutReady => s.(configure := c.(waitingForReadout := false))
    case JpegReady => s.(configure := c.(needsJpeg := false))
    case JpegWoken =>
      // waitForDone tests mIsBusy once and not again after its wait: the compressor may have been started anew
      // before the waiter got the mutex back.
      s.(configure := c.(needsJpeg := false))
    case BeginPublish => s.(configure := c.(at := Publishing))
    case Publish =>
      s.(configure := c.(at := Clearing),
         readout := Pushed(r, Entry(c.isCapture, c.request.value, c.buffers.value)),
         dropped := if ReadyForNextCapture(r) then s.dropped else s.dropped + {c.request.value})
    case Clear => s.(configure := c.(at := CountingDown, request := None, buffers := None))
    case CountDown => s.(configure := c.(at := Asking, count := c.count - 1))
    case Take => s.(readout := Taken(r))
    case ReadoutFails => s.(readout := r.(at := Halted))
    case FreeRequest => s.(freed := s.freed + [r.request.value], readout := r.(at := Freed, request := None))
    case HandOver =>
      // start() refuses while the compressor is busy; its result is not looked at.
      s.(jpeg := if HasJpeg(r.buffers.value) && s.jpeg.None? then r.buffers else s.jpeg,
         readout := r.(at := HandedOver, buffers := None))
    case FinishReadout => s.(readout := r.(at := Idle, count := r.count - 1))
    case JpegFinish => s.(jpeg := None)
  }

  // ---------- every request is somewhere, in order ----------

  function Requests(queue: seq<Entry>): seq<nat> {
    seq(|queue|, i requires 0 <= i < |queue| => queue[i].request)
  }

  /** The request the configure thread has not passed on yet. */
  function InConfigure(c: Configure): seq<nat> {
    if c.request.Some? && c.at !in {Clearing, CountingDown} then [c.request.value] else []
  }

  function InReadout(r: Readout): seq<nat> {
    if r.request.Some? then [r.request.value] else []
  }

  /** Every request that is accounted for, oldest first. */
  function Order(s: State): seq<nat> {
    s.freed + InReadout(s.readout) + Requests(s.readout.queue) + InConfigure(s.configure)
  }

  predicate Increasing(s: seq<nat>) {
    forall i, j :: 0 <= i < j < |s| ==> s[i] < s[j]
  }

  /** Exactly one place: freed, readout, queue or configure, once each and in dequeue order, or dropped. */
  ghost predicate Placed(s: State) {
    && Increasing(Order(s))
    && (forall n :: 0 <= n < |s.kinds| <==> n in Order(s) || n in s.dropped)
    && (forall n :: n in s.dropped ==> n !in Order(s))
  }

  ghost predicate ConfigureOk(c: Configure) {
    && c.count == (if c.at in {Asking, Counting} || (c.at == Stopped && c.request.None?) then 0 else 1)
    && (c.at in {Counting, SettingUp, Waiting, Publishing, Clearing} ==> c.request.Some?)
    && (c.at in {Asking, CountingDown} ==> c.request.None?)
    && (c.at in {Asking, Counting, SettingUp, CountingDown} ==> c.buffers.None?)
    && (c.at in {Waiting, Publishing, Clearing} ==> c.buffers.Some?)
    && (c.buffers.Some? ==> c.request == Some(c.buffers.value.owner))
  }

  /** The count is the queue plus the request being read out, and a queued request keeps the thread awake. */
  ghost predicate ReadoutOk(r: Readout) {
    && |r.queue| <= IN_FLIGHT_LIMIT
    && r.count == |r.queue| + (if r.at == Idle then 0 else 1)
    && (r.request.Some? <==> r.at in {Reading, Halted})
    && (r.buffers.Some? <==> r.at in {Reading, Freed, Halted})
    && (r.request.Some? ==> r.buffers.value.owner == r.request.value)
    && (r.queue != [] || r.at != Idle ==> r.active)
    && forall i :: 0 <= i < |r.queue| ==> r.queue[i].buffers.owner == r.queue[i].request
  }

  /** A capture that has stopped waiting for the readout thread still finds room in the queue. */
  ghost predicate RoomKept(s: State) {
    var c := s.configure;
    c.isCapture && (c.at == Publishing || (c.at == Waiting && !c.waitingForReadout)) ==> ReadyForNextCapture(s.readout)
  }

  ghost predicate Inv(s: State) {
    ConfigureOk(s.configure) && ReadoutOk(s.readout) && RoomKept(s) && Placed(s) && KindsOk(s)
  }

  predicate ByReadout(step: Step) {
    step.Take? || step.ReadoutFails? || step.FreeRequest? || step.HandOver? || step.FinishReadout?
  }

  predicate ByConfigure(step: Step) {
    !ByReadout(step) && !step.JpegFinish?
  }

  lemma ConfigureKept(s: State, step: Step)
    requires ConfigureOk(s.configure) && RoomKept(s) && Enabled(s, step) && ByConfigure(step) && !step.Publish?
    ensures ConfigureOk(Apply(s, step).configure) && RoomKept(Apply(s, step)) && Apply(s, step).readout == s.readout
  {
  }

  lemma PublishKept(s: State)
    requires ConfigureOk(s.configure) && ReadoutOk(s.readout) && Enabled(s, Publish)
    ensures ConfigureOk(Apply(s, Publish).configure) && ReadoutOk(Apply(s, Publish).readout) && RoomKept(Apply(s, Publish))
  {
  }

  lemma ReadoutKept(s: State, step: Step)
    requires ReadoutOk(s.readout) && RoomKept(s) && Enabled(s, step) && ByReadout(step)
    ensures ReadoutOk(Apply(s, step).readout) && RoomKept(Apply(s, step)) && Apply(s, step).configure == s.configure
  {
  }

  lemma ThreadsKept(s: State, step: Step)
    requires ConfigureOk(s.configure) && ReadoutOk(s.readout) && RoomKept(s) && Enabled(s, step)
    ensures ConfigureOk(Apply(s, step).configure) && ReadoutOk(Apply(s, step).readout) && RoomKept(Apply(s, step))
  {
    if step.Publish? {
      PublishKept(s);
    } else if ByReadout(step) {
      ReadoutKept(s, step);
    } else if ByConfigure(step) {
      ConfigureKept(s, step);
    }
  }

  lemma PublishOrder(s: State)
    requires Enabled(s, Publish)
    ensures Order(s) == s.freed + InReadout(s.readout) + Requests(s.readout.queue) + [s.configure.request.value]
    ensures Order(Apply(s, Publish)) == if ReadyForNextCapture(s.readout) then Order(s) else Order(s)[..|Order(s)| - 1]
  {
    var e := Entry(s.configure.isCapture, s.configure.request.value, s.configure.buffers.value);
    assert Requests(s.readout.queue + [e]) == Requests(s.readout.queue) + [e.request];
  }

  lemma TakeOrder(s: State)
    requires Enabled(s, Take) && ReadoutOk(s.readout)
    ensures Order(Apply(s, Take)) == Order(s)
  {
    var q := s.readout.queue;
    if q != [] {
      assert Requests(q) == [q[0].request] + Requests(q[1..]);
      assert s.freed + [] + ([q[0].request] + Requests(q[1..])) == s.freed + [q[0].request] + Requests(q[1..]);
    }
  }

  lemma FreeOrder(s: State)
    requires Enabled(s, FreeRequest)
    ensures Order(Apply(s, FreeRequest)) == Order(s)
  {
  }

  lemma OtherOrder(s: State, step: Step)
    requires ConfigureOk(s.configure) && Enabled(s, step)
    requires !step.Publish? && !step.Take? && !step.FreeRequest?
    ensures Order(Apply(s, step)) == if step.Dequeue? then Order(s) + [|s.kinds|] else Order(s)
  {
  }

  lemma OrderAfter(s: State, step: Step)
    requires ConfigureOk(s.configure) && ReadoutOk(s.readout) && Enabled(s, step)
    ensures Order(Apply(s, step)) ==
              if step.Dequeue? then Order(s) + [|s.kinds|]
              else if step.Publish? && !ReadyForNextCapture(s.readout) then Order(s)[..|Order(s)| - 1]
              else Order(s)
  {
    match step
    case Publish => PublishOrder(s);
    case Take => TakeOrder(s);
    case FreeRequest => FreeOrder(s);
    case _ => OtherOrder(s, step);
  }

  lemma DequeuePlaced(order: seq<nat>, n: nat, dropped: set<nat>)
    requires Increasing(order) && (forall v :: 0 <= v < n <==> v in order || v in dropped)
    ensures Increasing(order + [n]) && (forall v :: 0 <= v < n + 1 <==> v in order + [n] || v in dropped)
  {
    forall i | 0 <= i < |order| ensures order[i] < n { assert order[i] in order; }
    assert forall v :: v in order + [n] <==> v in order || v == n;
  }

  lemma DropPlaced(order: seq<nat>, last: nat)
    requires Increasing(order + [last])
    ensures Increasing(order) && last !in order
    ensures forall v :: v in order + [last] <==> v in order || v == last
  {
    var s := order + [last];
    assert forall i :: 0 <= i < |order| ==> s[i] == order[i];
    assert s[|order|] == last;
  }

  lemma DroppingPlaced(s: State)
    requires Placed(s) && Enabled(s, Publish) && !ReadyForNextCapture(s.readout)
    ensures Placed(Apply(s, Publish))
  {
    PublishOrder(s);
    DropPlaced(Order(Apply(s, Publish)), s.configure.request.value);
    assert Order(s) == Order(Apply(s, Publish)) + [s.configure.request.value];
  }

  lemma PlacedKept(s: State, step: Step)
    requires ConfigureOk(s.configure) && ReadoutOk(s.readout) && Placed(s) && Enabled(s, step)
    ensures Placed(Apply(s, step))
  {
    OrderAfter(s, step);
    if step.Dequeue? {
      DequeuePlaced(Order(s), |s.kinds|, s.dropped);
    } else if step.Publish? && !ReadyForNextCapture(s.readout) {
      DroppingPlaced(s);
    }
  }

  /** The request at hand is known and of the kind remembered for it; what was dropped is not a capture. */
  ghost predicate KindsOk(s: State) {
    && (s.configure.request.Some? ==> s.configure.request.value < |s.kinds|
                                      && s.kinds[s.configure.request.value] == s.configure.isCapture)
    && (forall n :: n in s.dropped ==> n < |s.kinds| && !s.kinds[n])
  }

  lemma KindsKept(s: State, step: Step)
    requires ConfigureOk(s.configure) && RoomKept(s) && KindsOk(s) && Enabled(s, step)
    ensures KindsOk(Apply(s, step))
  {
  }

  lemma StepKeepsInv(s: State, step: Step)
    requires Inv(s) && Enabled(s, step)
    ensures Inv(Apply(s, step))
  {
    ThreadsKept(s, step);
    PlacedKept(s, step);
    KindsKept(s, step);
  }

  ghost predicate IsRun(states: seq<State>, steps: seq<Step>) {
    && |states| == |steps| + 1
    && forall i {:trigger steps[i]} :: 0 <= i < |steps| ==> Follows(states[i], steps[i], states[i + 1])
  }

  ghost predicate Follows(s: State, step: Step, t: State) {
    Enabled(s, step) && t == Apply(s, step)
  }

  lemma InitInv(s: State)
    requires Init(s)
    ensures Inv(s)
  {
  }

  /** Over every interleaving. */
  lemma {:induction false} RunKeepsInv(states: seq<State>, steps: seq<Step>, k: nat)
    requires IsRun(states, steps) && Inv(states[0]) && k < |states|
    ensures Inv(states[k])
  {
    if k > 0 {
      RunKeepsInv(states, steps, k - 1);
      assert Follows(states[k - 1], steps[k - 1], states[k]);
      StepKeepsInv(states[k - 1], steps[k - 1]);
    }
  }

  /** The branch that drops a request is never taken for a capture. */
  lemma CaptureNeverDropped(states: seq<State>, steps: seq<Step>, k: nat)
    requires IsRun(states, steps) && Init(states[0]) && k < |steps|
    requires steps[k] == Publish && states[k].configure.isCapture
    ensures ReadyForNextCapture(states[k].readout) && states[k + 1].dropped == states[k].dropped
  {
    InitInv(states[0]);
    RunKeepsInv(states, steps, k);
  }

  /** If only captures were dequeued, nothing is lost and they are freed in the order 0, 1, 2, ... */
  lemma CapturesFreedInOrder(states: seq<State>, steps: seq<Step>, k: nat)
    requires IsRun(states, steps) && Init(states[0]) && k < |states|
    requires forall n :: 0 <= n < |states[k].kinds| ==> states[k].kinds[n]
    ensures states[k].dropped == {} && |Order(states[k])| == |states[k].kinds|
    ensures forall i :: 0 <= i < |Order(states[k])| ==> Order(states[k])[i] == i
    ensures forall i :: 0 <= i < |states[k].freed| ==> states[k].freed[i] == i
  {
    var s := states[k];
    InitInv(states[0]);
    RunKeepsInv(states, steps, k);
    IncreasingIsIota(Order(s), |s.kinds|);
    assert forall i :: 0 <= i < |s.freed| ==> s.freed[i] == Order(s)[i];
  }

  lemma {:induction false} IncreasingIsIota(s: seq<nat>, n: nat)
    requires Increasing(s) && forall v :: 0 <= v < n <==> v in s
    ensures |s| == n && forall i :: 0 <= i < |s| ==> s[i] == i
  {
    forall i | 0 <= i < |s| ensures s[i] < n {
      var v := s[i];
      assert v in s;
    }
    if n > 0 {
      assert n - 1 in s;
      var i :| 0 <= i < |s| && s[i] == n - 1;
      assert s[|s| - 1] in s;
      assert i == |s| - 1;
      var init := s[..|s| - 1];
      forall v | v in s && v != n - 1 ensures v in init {
        var j :| 0 <= j < |s| && s[j] == v;
        assert init[j] == v;
      }
      forall v | v in init ensures 0 <= v < n - 1 {
        assert v in s;
      }
      IncreasingIsIota(init, n - 1);
    }
  }

  // ---------- which requests can be lost ----------

  lemma JoinRuns(a: seq<State>, p: seq<Step>, b: seq<State>, q: seq<Step>) returns (states: seq<State>)
    requires IsRun(a, p) && IsRun(b, q) && a[|p|] == b[0]
    ensures IsRun(states, p + q) && states[0] == a[0] && states[|p|] == b[0] && states[|p| + |q|] == b[|q|]
  {
    states := a + b[1..];
    var steps := p + q;
    assert forall i :: 0 <= i <= |q| ==> states[|p| + i] == b[i];
    assert forall i :: 0 <= i <= |p| ==> states[i] == a[i];
    forall i | 0 <= i < |steps| ensures Follows(states[i], steps[i], states[i + 1]) {
      if i < |p| {
        assert steps[i] == p[i];
      } else {
        var j := i - |p|;
        assert steps[i] == q[j] && states[|p| + j] == b[j] && states[|p| + (j + 1)] == b[j + 1];
      }
    }
  }

  /** The configure thread is about to ask for a request and owes nobody a wait. */
  predicate Quiet(s: State) {
    s.configure.at == Asking && !s.configure.waitingForReadout && s.jpeg.None?
  }

  /** Five steps bring a reprocess request to its publication, whatever the queue holds. */
  lemma ReprocessReachesPublish(s: State) returns (states: seq<State>, steps: seq<Step>)
    requires Quiet(s)
    ensures IsRun(states, steps) && states[0] == s
    ensures Enabled(states[|steps|], Publish) && states[|steps|].readout == s.readout
    ensures !states[|steps|].configure.isCapture && !states[|steps|].configure.waitingForReadout
    ensures states[|steps|].jpeg.None?
  {
    var s1 := Apply(s, Dequeue(false));
    var s2 := Apply(s1, CountUp);
    var s3 := Apply(s2, SetUp([]));
    var s4 := Apply(s3, JpegReady);
    var s5 := Apply(s4, BeginPublish);
    states, steps := [s, s1, s2, s3, s4, s5], [Dequeue(false), CountUp, SetUp([]), JpegReady, BeginPublish];
  }

  lemma PublishComesBack(s: State) returns (states: seq<State>, steps: seq<Step>)
    requires Enabled(s, Publish) && !s.configure.waitingForReadout && ReadyForNextCapture(s.readout) && s.jpeg.None?
    ensures IsRun(states, steps) && states[0] == s
    ensures Quiet(states[|steps|]) && |states[|steps|].readout.queue| == |s.readout.queue| + 1
  {
    var s1 := Apply(s, Publish);
    var s2 := Apply(s1, Clear);
    var s3 := Apply(s2, CountDown);
    states, steps := [s, s1, s2, s3], [Publish, Clear, CountDown];
  }

  lemma {:induction false} QueueFillsUp(s: State) returns (states: seq<State>, steps: seq<Step>)
    requires Quiet(s) && |s.readout.queue| <= IN_FLIGHT_LIMIT
    ensures IsRun(states, steps) && states[0] == s
    ensures Enabled(states[|steps|], Publish) && !states[|steps|].configure.isCapture
            && !ReadyForNextCapture(states[|steps|].readout)
    decreases IN_FLIGHT_LIMIT - |s.readout.queue|
  {
    states, steps := ReprocessReachesPublish(s);
    if ReadyForNextCapture(s.readout) {
      var back, backSteps := PublishComesBack(states[|steps|]);
      var rest, restSteps := QueueFillsUp(back[|backSteps|]);
      var tail := JoinRuns(back, backSteps, rest, restSteps);
      states := JoinRuns(states, steps, tail, backSteps + restSteps);
      steps := steps + (backSteps + restSteps);
    }
  }

  /** Some run loses a request of this kind to a full queue. */
  ghost predicate CanBeDropped(isCapture: bool) {
    exists states: seq<State>, steps: seq<Step>, k: nat :: IsRun(states, steps) && Init(states[0]) && k < |steps|
      && steps[k] == Publish && states[k].configure.isCapture == isCapture && !ReadyForNextCapture(states[k].readout)
  }

  /** Reprocess requests never wait for the readout thread, so they can be lost; captures cannot. */
  lemma DroppedIffReprocess(isCapture: bool)
    ensures CanBeDropped(isCapture) <==> !isCapture
  {
    if isCapture {
      forall states: seq<State>, steps: seq<Step>, k: nat
        | IsRun(states, steps) && Init(states[0]) && k < |steps| && steps[k] == Publish && states[k].configure.isCapture
        ensures ReadyForNextCapture(states[k].readout)
      {
        CaptureNeverDropped(states, steps, k);
      }
    } else {
      var s := State(Configure(Asking, None, false, None, 0, false, false), Readout(Idle, false, [], 0, None, false, None),
                     None, [], [], {}, map[]);
      var full, fullSteps := QueueFillsUp(s);
      var k := |fullSteps|;
      var last := [full[k], Apply(full[k], Publish)];
      var states := JoinRuns(full, fullSteps, last, [Publish]);
      var steps := fullSteps + [Publish];
      assert Init(states[0]) && steps[k] == Publish && states[k] == full[k];
    }
  }

  // ---------- scans never miss ----------

  /**
   * How far a request has come: 0 not counted yet, 1 in the configure thread, 2 queued or being read out,
   * 3 being compressed, 4 gone.
   */
  function Rank(s: State, n: nat): nat {
    if s.jpeg.Some? && s.jpeg.value.owner == n then 3
    else if n in Requests(s.readout.queue) || (s.readout.buffers.Some? && s.readout.buffers.value.owner == n) then 2
    else if n in InConfigure(s.configure) && s.configure.at != Counting then 1
    else if n >= |s.kinds| || n in InConfigure(s.configure) then 0
    else 4
  }

  predicate InPipeline(s: State, n: nat) {
    1 <= Rank(s, n) <= 3
  }

  /** A compressed request is past the queue; the one whose buffers are still at hand is the last one freed. */
  ghost predicate RankOk(s: State) {
    && (s.jpeg.Some? ==> s.jpeg.value.owner in s.freed)
    && (s.readout.at == Freed ==>
          s.freed != [] && s.readout.buffers.Some? && s.readout.buffers.value.owner == s.freed[|s.freed| - 1])
    && (s.jpeg.Some? && s.readout.at == Freed ==> s.jpeg.value.owner != s.readout.buffers.value.owner)
  }

  lemma RankOkKept(s: State, step: Step)
    requires Inv(s) && RankOk(s) && Enabled(s, step)
    ensures RankOk(Apply(s, step))
  {
    if step.FreeRequest? && s.jpeg.Some? {
      assert s.readout.request.value == Order(s)[|s.freed|];
      var i :| 0 <= i < |s.freed| && s.freed[i] == s.jpeg.value.owner;
      assert Order(s)[i] == s.freed[i];
    }
  }

  lemma IncreasingParts(a: seq<nat>, b: seq<nat>)
    requires Increasing(a + b)
    ensures Increasing(a) && Increasing(b) && forall n :: n in a ==> n !in b
  {
    assert forall i :: 0 <= i < |a| ==> (a + b)[i] == a[i];
    assert forall i :: 0 <= i < |b| ==> (a + b)[|a| + i] == b[i];
  }

  /** No request is in two parts of the order. */
  lemma PartsApart(s: State, n: nat)
    requires Placed(s)
    ensures n in s.freed ==> n !in InReadout(s.readout)
    ensures n in s.freed || n in InReadout(s.readout) ==> n !in Requests(s.readout.queue)
    ensures n in s.freed || n in InReadout(s.readout) || n in Requests(s.readout.queue) ==> n !in InConfigure(s.configure)
    ensures n in s.freed || n in InReadout(s.readout) || n in Requests(s.readout.queue) || n in InConfigure(s.configure)
            <==> n in Order(s)
  {
    var f, r, q, c := s.freed, InReadout(s.readout), Requests(s.readout.queue), InConfigure(s.configure);
    IncreasingParts(f + r + q, c);
    IncreasingParts(f + r, q);
    IncreasingParts(f, r);
  }

  /** The rank read off the order: which part of it the request is in. */
  lemma RankByPart(s: State, n: nat)
    requires Inv(s) && RankOk(s)
    ensures n in InConfigure(s.configure) ==> Rank(s, n) == (if s.configure.at == Counting then 0 else 1)
    ensures n in Requests(s.readout.queue) || n in InReadout(s.readout) ==> Rank(s, n) == 2
    ensures n in s.freed ==> Rank(s, n) >= 2
    ensures n in s.dropped ==> Rank(s, n) == 4
    ensures n >= |s.kinds| ==> Rank(s, n) == 0
  {
    PartsApart(s, n);
    if s.jpeg.Some? { PartsApart(s, s.jpeg.value.owner); }
    if s.readout.buffers.Some? { PartsApart(s, s.readout.buffers.value.owner); }
  }

  lemma ConfigureRank(s: State, step: Step, n: nat)
    requires Inv(s) && RankOk(s) && Enabled(s, step) && ByConfigure(step) && !step.Publish?
    ensures Rank(s, n) <= Rank(Apply(s, step), n)
  {
    RankByPart(s, n);
    PartsApart(s, n);
  }

  lemma PublishRank(s: State, n: nat)
    requires Inv(s) && RankOk(s) && Enabled(s, Publish)
    ensures Rank(s, n) <= Rank(Apply(s, Publish), n)
  {
    RankByPart(s, n);
    StepKeepsInv(s, Publish);
    RankOkKept(s, Publish);
    RankByPart(Apply(s, Publish), n);
    PublishOrder(s);
    PartsApart(s, n);
    PartsApart(Apply(s, Publish), n);
  }

  lemma ReadoutRank(s: State, step: Step, n: nat)
    requires Inv(s) && RankOk(s) && Enabled(s, step) && ByReadout(step)
    ensures Rank(s, n) <= Rank(Apply(s, step), n)
  {
    var t := Apply(s, step);
    StepKeepsInv(s, step);
    RankOkKept(s, step);
    RankByPart(s, n);
    RankByPart(t, n);
    PartsApart(s, n);
    PartsApart(t, n);
  }

  lemma JpegRank(s: State, n: nat)
    requires Inv(s) && RankOk(s) && Enabled(s, JpegFinish)
    ensures Rank(s, n) <= Rank(Apply(s, JpegFinish), n)
  {
    PartsApart(s, n);
  }

  /** Every hand-off publishes downstream before it clears upstream. */
  lemma RankNeverFalls(s: State, step: Step, n: nat)
    requires Inv(s) && RankOk(s) && Enabled(s, step)
    ensures Rank(s, n) <= Rank(Apply(s, step), n)
  {
    if step.Publish? {
      PublishRank(s, n);
    } else if ByReadout(step) {
      ReadoutRank(s, step, n);
    } else if ByConfigure(step) {
      ConfigureRank(s, step, n);
    } else {
      JpegRank(s, n);
    }
  }

  /** Once read out, a request goes to the compressor just if it has a JPEG buffer and the compressor is free. */
  lemma HandOverOutcome(s: State)
    requires Inv(s) && RankOk(s) && Enabled(s, HandOver)
    ensures var n, list := s.readout.buffers.value.owner, s.readout.buffers.value.list;
      Rank(Apply(s, HandOver), n)
        == if s.jpeg.None? && exists i :: 0 <= i < |list| && list[i].streamId > 0 && list[i].blob then 3 else 4
  {
    PartsApart(s, s.readout.buffers.value.owner);
    assert s.readout.buffers.value.owner in s.freed;
  }

  /** A request set up waits for room if it is a capture, and for the compressor if it has a BLOB or is no capture. */
  lemma SetUpWaits(states: seq<State>, steps: seq<Step>, k: nat)
    requires IsRun(states, steps) && Init(states[0]) && k < |steps| && steps[k].SetUp?
    ensures var c, t, list := states[k].configure, states[k + 1].configure, steps[k].list;
      && c.request.Some? && t.at == Waiting && t.buffers == Some(Buffers(c.request.value, list))
      && (c.isCapture ==> t.waitingForReadout)
      && (t.needsJpeg <==> !c.isCapture || exists i :: 0 <= i < |list| && list[i].blob)
    ensures states[k + 1].setUp == states[k].setUp[states[k].configure.request.value := states[k + 1].configure.buffers.value]
  {
    RunKeepsRank(states, steps, k, k, 0);
    assert Follows(states[k], steps[k], states[k + 1]);
  }

  /** A thread that stopped over a request keeps the streams it had set up in use. */
  lemma FailedSetUpKeepsStreams(states: seq<State>, steps: seq<Step>, k: nat, list: seq<Buffer>, id: int)
    requires IsRun(states, steps) && Init(states[0]) && k < |steps| && steps[k] == SetUpFails(Some(list))
    ensures states[k + 1].configure.at == Stopped
    ensures ConfigureUses(states[k + 1].configure, id) <==> exists i :: 0 <= i < |list| && list[i].streamId == id
  {
    assert Follows(states[k], steps[k], states[k + 1]);
  }

  /** Three requests can be queued; a fourth is lost. */
  lemma FourthIsLost(states: seq<State>, steps: seq<Step>, k: nat)
    requires IsRun(states, steps) && k < |steps| && steps[k] == Publish
    ensures states[k].configure.request.Some? && states[k].configure.buffers.Some?
    ensures var c, q, t := states[k].configure, states[k].readout.queue, states[k + 1];
      if |q| < 3
      then t.readout.queue == q + [Entry(c.isCapture, c.request.value, c.buffers.value)] && t.dropped == states[k].dropped
      else t.readout == states[k].readout && t.dropped == states[k].dropped + {c.request.value}
  {
    assert Follows(states[k], steps[k], states[k + 1]);
  }

  lemma {:induction false} RunKeepsRank(states: seq<State>, steps: seq<Step>, i: nat, k: nat, n: nat)
    requires IsRun(states, steps) && Init(states[0]) && i <= k < |states|
    ensures Inv(states[i]) && Inv(states[k]) && RankOk(states[i]) && RankOk(states[k])
    ensures Rank(states[i], n) <= Rank(states[k], n)
    decreases k
  {
    if k == 0 {
      InitInv(states[0]);
    } else {
      RunKeepsRank(states, steps, if i < k then i else k - 1, k - 1, n);
      assert Follows(states[k - 1], steps[k - 1], states[k]);
      StepKeepsInv(states[k - 1], steps[k - 1]);
      RankOkKept(states[k - 1], steps[k - 1]);
      RankNeverFalls(states[k - 1], steps[k - 1], n);
    }
  }

  lemma RankIsCounted(s: State, n: nat)
    requires Inv(s)
    ensures Rank(s, n) == 1 ==> s.configure.count >= 1
    ensures Rank(s, n) == 2 ==> s.readout.count >= 1
    ensures Rank(s, n) == 3 <==> s.jpeg.Some? && s.jpeg.value.owner == n
    ensures s.configure.count >= 0 && s.readout.count >= 0
  {
    if n in Requests(s.readout.queue) {
      assert s.readout.queue != [];
    }
  }

  function Busy(s: State): int {
    if s.jpeg.Some? then 1 else 0
  }

  /** getInProgressCount reads the three parts one after the other, and the threads go on meanwhile. */
  lemma ScanCountsEveryRequest(states: seq<State>, steps: seq<Step>, i: nat, j: nat, k: nat, n: nat)
    requires IsRun(states, steps) && Init(states[0]) && i <= j <= k < |states|
    requires InPipeline(states[i], n) && InPipeline(states[k], n)
    ensures states[i].configure.count + states[j].readout.count + Busy(states[k]) >= 1
  {
    RunKeepsRank(states, steps, i, j, n);
    RunKeepsRank(states, steps, j, k, n);
    RankIsCounted(states[i], n);
    RankIsCounted(states[j], n);
    RankIsCounted(states[k], n);
  }

  // The three parts of isStreamInUse, each taken under the locks that guard what it reads.

  predicate ConfigureUses(c: Configure, id: int) {
    c.buffers.Some? && Mentions(c.buffers.value, id)
  }

  predicate ReadoutUses(r: Readout, id: int) {
    || (exists i :: 0 <= i < |r.queue| && Mentions(r.queue[i].buffers, id))
    || (r.buffers.Some? && Mentions(r.buffers.value, id))
  }

  predicate JpegUses(s: State, id: int) {
    s.jpeg.Some? && Mentions(s.jpeg.value, id)
  }

  predicate ConfigureUnlocked(c: Configure) {
    c.at in {Asking, Waiting, Stopped}
  }

  predicate ReadoutUnlocked(r: Readout) {
    r.at in {Idle, Reading, Halted}
  }

  /** Wherever a request's buffers are, they are the ones recorded for it. */
  ghost predicate BuffersOk(s: State) {
    && (s.configure.buffers.Some? ==> Recorded(s.setUp, s.configure.buffers.value))
    && QueueRecorded(s.setUp, s.readout.queue)
    && (s.readout.buffers.Some? ==> Recorded(s.setUp, s.readout.buffers.value))
    && (s.jpeg.Some? ==> Recorded(s.setUp, s.jpeg.value))
    && RecordsKnown(s)
  }

  ghost predicate Recorded(setUp: map<nat, Buffers>, b: Buffers) {
    b.owner in setUp && setUp[b.owner] == b
  }

  /** Records are made once the request is known, and kept at hand until it is passed on. */
  ghost predicate RecordsKnown(s: State) {
    var c := s.configure;
    && (forall n :: n in s.setUp ==> n < |s.kinds|)
    && (c.at in {Counting, SettingUp} && c.request.Some? ==> c.request.value !in s.setUp)
    && (c.at in {Waiting, Publishing, Stopped} && c.request.Some? && c.request.value in s.setUp ==> c.buffers.Some?)
  }

  lemma RecordsKnownKept(s: State, step: Step)
    requires Inv(s) && RecordsKnown(s) && Enabled(s, step)
    ensures RecordsKnown(Apply(s, step))
    ensures forall b :: Recorded(s.setUp, b) ==> Recorded(Apply(s, step).setUp, b)
  {
  }

  ghost predicate QueueRecorded(setUp: map<nat, Buffers>, queue: seq<Entry>) {
    forall i :: 0 <= i < |queue| ==> Recorded(setUp, queue[i].buffers)
  }

  lemma QueueRecordedKept(s: State, step: Step)
    requires QueueRecorded(s.setUp, s.readout.queue) && Enabled(s, step)
    requires s.configure.buffers.Some? ==> Recorded(s.setUp, s.configure.buffers.value)
    requires forall b :: Recorded(s.setUp, b) ==> Recorded(Apply(s, step).setUp, b)
    ensures QueueRecorded(Apply(s, step).setUp, Apply(s, step).readout.queue)
  {
    var t := Apply(s, step);
    forall i | 0 <= i < |t.readout.queue| ensures Recorded(t.setUp, t.readout.queue[i].buffers) {
      if step.Take? {
        assert Recorded(s.setUp, s.readout.queue[if s.readout.queue == t.readout.queue then i else i + 1].buffers);
      } else if i < |s.readout.queue| {
        assert Recorded(s.setUp, s.readout.queue[i].buffers);
      }
    }
  }

  lemma AtHandRecordedKept(s: State, step: Step)
    requires BuffersOk(s) && Enabled(s, step)
    requires forall b :: Recorded(s.setUp, b) ==> Recorded(Apply(s, step).setUp, b)
    ensures var t := Apply(s, step);
      && (t.configure.buffers.Some? ==> Recorded(t.setUp, t.configure.buffers.value))
      && (t.readout.buffers.Some? ==> Recorded(t.setUp, t.readout.buffers.value))
      && (t.jpeg.Some? ==> Recorded(t.setUp, t.jpeg.value))
  {
    if step.Take? && s.readout.queue != [] {
      assert Recorded(s.setUp, s.readout.queue[0].buffers);
    }
  }

  lemma BuffersOkKept(s: State, step: Step)
    requires Inv(s) && BuffersOk(s) && Enabled(s, step)
    ensures BuffersOk(Apply(s, step))
  {
    RecordsKnownKept(s, step);
    QueueRecordedKept(s, step);
    AtHandRecordedKept(s, step);
  }

  lemma {:induction false} RunKeepsBuffers(states: seq<State>, steps: seq<Step>, k: nat)
    requires IsRun(states, steps) && Init(states[0]) && k < |states|
    ensures BuffersOk(states[k]) && Inv(states[k]) && RankOk(states[k])
  {
    RunKeepsRank(states, steps, k, k, 0);
    if k > 0 {
      RunKeepsBuffers(states, steps, k - 1);
      assert Follows(states[k - 1], steps[k - 1], states[k]);
      BuffersOkKept(states[k - 1], steps[k - 1]);
    }
  }

  /** A request recorded with the stream shows up in the part it is in. */
  lemma RankIsSeen(s: State, n: nat, id: int)
    requires Inv(s) && RankOk(s) && BuffersOk(s)
    requires n in s.setUp && Mentions(s.setUp[n], id)
    ensures Rank(s, n) == 1 && ConfigureUnlocked(s.configure) ==> ConfigureUses(s.configure, id)
    ensures Rank(s, n) == 2 ==> ReadoutUses(s.readout, id)
    ensures Rank(s, n) == 3 ==> JpegUses(s, id)
    ensures Rank(s, n) >= 1
  {
    if n in Requests(s.readout.queue) {
      var i :| 0 <= i < |s.readout.queue| && s.readout.queue[i].request == n;
      assert Recorded(s.setUp, s.readout.queue[i].buffers);
    }
  }

  lemma {:induction false} RecordsStay(states: seq<State>, steps: seq<Step>, i: nat, k: nat, n: nat)
    requires IsRun(states, steps) && Init(states[0]) && i <= k < |states| && n in states[i].setUp
    ensures n in states[k].setUp && states[k].setUp[n] == states[i].setUp[n]
    decreases k
  {
    if i < k {
      RecordsStay(states, steps, i, k - 1, n);
      RunKeepsBuffers(states, steps, k - 1);
      assert Follows(states[k - 1], steps[k - 1], states[k]);
    }
  }

  /** isStreamInUse finds every stream recorded for a request that is in the pipeline for the whole scan. */
  lemma ScanSeesEveryStream(states: seq<State>, steps: seq<Step>, i: nat, j: nat, k: nat, n: nat, id: int)
    requires IsRun(states, steps) && Init(states[0]) && i <= j <= k < |states|
    requires ConfigureUnlocked(states[i].configure) && ReadoutUnlocked(states[j].readout)
    requires n in states[i].setUp && Mentions(states[i].setUp[n], id) && InPipeline(states[k], n)
    ensures ConfigureUses(states[i].configure, id) || ReadoutUses(states[j].readout, id) || JpegUses(states[k], id)
  {
    RunKeepsRank(states, steps, i, j, n);
    RunKeepsRank(states, steps, j, k, n);
    RunKeepsBuffers(states, steps, i);
    RunKeepsBuffers(states, steps, j);
    RunKeepsBuffers(states, steps, k);
    RecordsStay(states, steps, i, j, n);
    RecordsStay(states, steps, j, k, n);
    RankIsSeen(states[i], n, id);
    RankIsSeen(states[j], n, id);
    RankIsSeen(states[k], n, id);
  }

  lemma {:induction false} NothingRecorded(states: seq<State>, steps: seq<Step>, i: nat, k: nat, n: nat)
    requires IsRun(states, steps) && i <= k < |states|
    requires forall m :: i <= m < k ==> !steps[m].SetUp? && !steps[m].SetUpFails?
    requires n in states[k].setUp
    ensures n in states[i].setUp
    decreases k
  {
    if i < k {
      assert Follows(states[k - 1], steps[k - 1], states[k]);
      NothingRecorded(states, steps, i, k - 1, n);
    }
  }

  /**
   * releaseStream keeps mMutex, which setting up a request needs, for the whole scan: if the scan finds nothing,
   * no request in the pipeline uses the stream when it is released.
   */
  lemma ReleasedStreamIsUnused(states: seq<State>, steps: seq<Step>, i: nat, j: nat, k: nat, id: int)
    requires IsRun(states, steps) && Init(states[0]) && i <= j <= k < |states|
    requires forall m :: i <= m < k ==> !steps[m].SetUp? && !steps[m].SetUpFails?
    requires ConfigureUnlocked(states[i].configure) && ReadoutUnlocked(states[j].readout)
    requires !ConfigureUses(states[i].configure, id) && !ReadoutUses(states[j].readout, id) && !JpegUses(states[k], id)
    ensures forall n :: n in states[k].setUp && InPipeline(states[k], n) ==> !Mentions(states[k].setUp[n], id)
  {
    forall n | n in states[k].setUp && InPipeline(states[k], n) ensures !Mentions(states[k].setUp[n], id) {
      NothingRecorded(states, steps, i, k, n);
      RecordsStay(states, steps, i, k, n);
      if Mentions(states[i].setUp[n], id) {
        ScanSeesEveryStream(states, steps, i, j, k, n, id);
      }
    }
  }
}
