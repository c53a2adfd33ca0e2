/**
 * When a JPEG request is lost: the readout thread starts the compressor without looking at the outcome, and the
 * configure thread has waited for the compressor long before.
 */
module JpegHandOver {
  import opened Text
  import opened CameraPipeline

  /** The compressor is about to be started for request n, and will refuse. */
  predicate LosesAt(s: State, n: nat) {
    Enabled(s, HandOver) && s.readout.buffers.value.owner == n && HasJpeg(s.readout.buffers.value) && s.jpeg.Some?
  }

  /** Some continuation loses request n. */
  ghost predicate CanLose(s: State, n: nat) {
    exists states: seq<State>, steps: seq<Step> ::
      IsRun(states, steps) && states[0] == s && LosesAt(states[|steps|], n)
  }

  /** The readout thread has a JPEG request at hand that it has not passed on. */
  predicate JpegAtHand(r: Readout) {
    (r.at == Reading || r.at == Freed) && r.buffers.Some? && HasJpeg(r.buffers.value)
  }

  predicate JpegBefore(r: Readout, p: nat) {
    exists i :: 0 <= i < |r.queue| && i < p && HasJpeg(r.queue[i].buffers)
  }

  /** Another JPEG request is still being compressed, being read out or queued. */
  predicate JpegAhead(s: State) {
    s.jpeg.Some? || JpegAtHand(s.readout) || JpegBefore(s.readout, |s.readout.queue|)
  }

  // ---------- nothing ahead: never lost ----------

  /** Request n is queued at p, and nothing before it will keep the compressor busy. */
  predicate SafeInQueue(s: State, n: nat, p: nat) {
    && p < |s.readout.queue| && s.readout.queue[p].buffers.owner == n
    && s.jpeg.None? && !JpegAtHand(s.readout) && !JpegBefore(s.readout, p)
  }

  predicate SafeAtHand(s: State, n: nat) {
    s.readout.buffers.Some? && s.readout.buffers.value.owner == n && s.jpeg.None?
  }

  predicate HandedOn(s: State, n: nat) {
    n in s.freed && !(s.readout.buffers.Some? && s.readout.buffers.value.owner == n)
  }

  ghost predicate Safe(s: State, n: nat) {
    (exists p :: SafeInQueue(s, n, p)) || SafeAtHand(s, n) || HandedOn(s, n)
  }

  lemma QueuedSafeKept(s: State, step: Step, n: nat, p: nat)
    requires Inv(s) && RankOk(s) && Enabled(s, step) && SafeInQueue(s, n, p)
    ensures if step.Take? then (if p == 0 then SafeAtHand(Apply(s, step), n) else SafeInQueue(Apply(s, step), n, p - 1))
            else SafeInQueue(Apply(s, step), n, p)
  {
    var t := Apply(s, step);
    if step.Take? {
      assert t.readout.queue == s.readout.queue[1..];
      if p > 0 {
        assert !HasJpeg(s.readout.queue[0].buffers);
        assert forall i :: 0 <= i < p - 1 ==> t.readout.queue[i] == s.readout.queue[i + 1];
      }
    } else {
      assert s.readout.queue <= t.readout.queue;
    }
  }

  lemma HandedOnKept(s: State, step: Step, n: nat)
    requires Inv(s) && RankOk(s) && Enabled(s, step) && HandedOn(s, n)
    ensures HandedOn(Apply(s, step), n)
  {
    PartsApart(s, n);
    if step.Take? && s.readout.queue != [] {
      assert Requests(s.readout.queue)[0] == s.readout.queue[0].request;
    }
  }

  lemma SafeKept(s: State, step: Step, n: nat)
    requires Inv(s) && RankOk(s) && Enabled(s, step) && Safe(s, n)
    ensures Safe(Apply(s, step), n)
  {
    if p: nat :| SafeInQueue(s, n, p) {
      QueuedSafeKept(s, step, n, p);
    } else if HandedOn(s, n) {
      HandedOnKept(s, step, n);
    }
  }

  lemma SafeDoesNotLose(s: State, n: nat)
    requires Inv(s) && RankOk(s) && Safe(s, n)
    ensures !LosesAt(s, n)
  {
  }

  lemma {:induction false} SafeForGood(states: seq<State>, steps: seq<Step>, n: nat)
    requires IsRun(states, steps) && Inv(states[0]) && RankOk(states[0]) && Safe(states[0], n)
    ensures var last := states[|steps|]; Inv(last) && RankOk(last) && Safe(last, n)
    decreases |steps|
  {
    if steps != [] {
      var k := |steps| - 1;
      assert IsRun(states[..|steps|], steps[..k]) by {
        forall i | 0 <= i < k ensures Follows(states[..|steps|][i], steps[..k][i], states[..|steps|][i + 1]) {
          assert Follows(states[i], steps[i], states[i + 1]);
        }
      }
      SafeForGood(states[..|steps|], steps[..k], n);
      assert Follows(states[k], steps[k], states[k + 1]);
      StepKeepsInv(states[k], steps[k]);
      RankOkKept(states[k], steps[k]);
      SafeKept(states[k], steps[k], n);
    }
  }

  /** A readout thread that has stopped hands nothing over any more. */
  lemma {:induction false} HaltedForGood(states: seq<State>, steps: seq<Step>, k: nat)
    requires IsRun(states, steps) && states[0].readout.at == Halted && k < |states|
    ensures states[k].readout.at == Halted
  {
    if k > 0 {
      HaltedForGood(states, steps, k - 1);
      assert Follows(states[k - 1], steps[k - 1], states[k]);
    }
  }

  // ---------- something ahead: some continuation loses it ----------

  predicate OnlyReadout(step: Step) {
    step == Take || step == FreeRequest || step == HandOver || step == FinishReadout
  }

  ghost predicate ReadoutRun(states: seq<State>, steps: seq<Step>) {
    IsRun(states, steps) && forall i :: 0 <= i < |steps| ==> OnlyReadout(steps[i])
  }

  lemma StepFirst(s: State, step: Step, rest: seq<State>, restSteps: seq<Step>) returns (states: seq<State>)
    requires Enabled(s, step) && OnlyReadout(step) && ReadoutRun(rest, restSteps) && rest[0] == Apply(s, step)
    ensures ReadoutRun(states, [step] + restSteps) && states[0] == s && states[|restSteps| + 1] == rest[|restSteps|]
  {
    states := [s] + rest;
    var steps := [step] + restSteps;
    forall i | 0 <= i < |steps| ensures Follows(states[i], steps[i], states[i + 1]) {
      if i > 0 {
        assert Follows(rest[i - 1], restSteps[i - 1], rest[i]);
      }
    }
  }

  function Stage(at: ReadoutAt): nat {
    match at
    case Reading => 3
    case Freed => 2
    case HandedOver => 1
    case _ => 0
  }

  lemma LastOneFreed(s: State, n: nat) returns (states: seq<State>, steps: seq<Step>)
    requires Inv(s) && s.readout.at == Idle && s.readout.queue != [] && s.jpeg.Some?
    requires s.readout.queue[0].buffers.owner == n && HasJpeg(s.readout.queue[0].buffers)
    ensures ReadoutRun(states, steps) && states[0] == s && LosesAt(states[|steps|], n)
  {
    var s1 := Apply(s, Take);
    var s2 := Apply(s1, FreeRequest);
    states, steps := [s, s1, s2], [Take, FreeRequest];
  }

  /** The readout thread works off the queue while the compressor does not finish. */
  lemma {:induction false} WorkOff(s: State, n: nat, p: nat) returns (states: seq<State>, steps: seq<Step>)
    requires Inv(s) && s.readout.at != Halted
    requires p < |s.readout.queue| && s.readout.queue[p].buffers.owner == n && HasJpeg(s.readout.queue[p].buffers)
    requires s.jpeg.Some? || JpegAtHand(s.readout) || JpegBefore(s.readout, p)
    ensures ReadoutRun(states, steps) && states[0] == s && LosesAt(states[|steps|], n)
    decreases 5 * p + Stage(s.readout.at)
  {
    if s.readout.at == Idle && p == 0 {
      states, steps := LastOneFreed(s, n);
    } else {
      var step := NextOf(s.readout.at);
      var t := Apply(s, step);
      StepKeepsInv(s, step);
      StillAhead(s, p);
      var rest, restSteps := WorkOff(t, n, if step == Take then p - 1 else p);
      states := StepFirst(s, step, rest, restSteps);
      steps := [step] + restSteps;
    }
  }

  function NextOf(at: ReadoutAt): (step: Step)
    ensures OnlyReadout(step)
  {
    match at
    case Reading => FreeRequest
    case Freed => HandOver
    case HandedOver => FinishReadout
    case _ => Take
  }

  lemma StillAhead(s: State, p: nat)
    requires Inv(s) && s.readout.at != Halted && p < |s.readout.queue| && (s.readout.at == Idle ==> p > 0)
    requires s.jpeg.Some? || JpegAtHand(s.readout) || JpegBefore(s.readout, p)
    ensures Enabled(s, NextOf(s.readout.at))
    ensures var t := Apply(s, NextOf(s.readout.at));
      && t.readout.at != Halted
      && t.readout.queue == (if s.readout.at == Idle then s.readout.queue[1..] else s.readout.queue)
      && (t.jpeg.Some? || JpegAtHand(t.readout) || JpegBefore(t.readout, if s.readout.at == Idle then p - 1 else p))
  {
    var t := Apply(s, NextOf(s.readout.at));
    if s.readout.at == Idle && JpegBefore(s.readout, p) {
      var i :| 0 <= i < |s.readout.queue| && i < p && HasJpeg(s.readout.queue[i].buffers);
      if i > 0 {
        assert t.readout.queue[i - 1] == s.readout.queue[i];
      }
    }
  }

  // ---------- the exact condition ----------

  /**
   * A JPEG request that is being published can be lost to a busy compressor exactly if another one is then still
   * queued, being read out or being compressed, and the readout thread has not stopped for good.
   */
  lemma JpegLostIff(states: seq<State>, steps: seq<Step>, k: nat)
    requires IsRun(states, steps) && Init(states[0]) && k < |steps| && steps[k] == Publish
    requires ReadyForNextCapture(states[k].readout) && HasJpeg(states[k].configure.buffers.value)
    ensures CanLose(states[k + 1], states[k].configure.request.value)
            <==> JpegAhead(states[k]) && states[k].readout.at != Halted
  {
    var s, t := states[k], states[k + 1];
    var n, p := s.configure.request.value, |s.readout.queue|;
    assert Follows(s, Publish, t);
    RunKeepsRank(states, steps, k, k + 1, n);
    assert t.readout.queue[p].buffers == s.configure.buffers.value;
    assert forall i :: 0 <= i < p ==> t.readout.queue[i] == s.readout.queue[i];
    if s.readout.at == Halted {
      NoLossWhenHalted(t, n);
    } else if JpegAhead(s) {
      var more, moreSteps := WorkOff(t, n, p);
      assert IsRun(more, moreSteps);
    } else {
      assert SafeInQueue(t, n, p);
      NoLossWhenSafe(t, n);
    }
  }

  lemma NoLossWhenHalted(s: State, n: nat)
    requires s.readout.at == Halted
    ensures !CanLose(s, n)
  {
    forall states: seq<State>, steps: seq<Step> | IsRun(states, steps) && states[0] == s
      ensures !LosesAt(states[|steps|], n)
    {
      HaltedForGood(states, steps, |steps|);
    }
  }

  lemma NoLossWhenSafe(s: State, n: nat)
    requires Inv(s) && RankOk(s) && Safe(s, n)
    ensures !CanLose(s, n)
  {
    forall states: seq<State>, steps: seq<Step> | IsRun(states, steps) && states[0] == s
      ensures !LosesAt(states[|steps|], n)
    {
      SafeForGood(states, steps, n);
      SafeDoesNotLose(states[|steps|], n);
    }
  }

  // ---------- a run that loses a capture ----------

  const JPEG_ONLY: seq<Buffer> := [Buffer(1, true)]

  /** The configure thread waits, first for the readout thread and then for the compressor. */
  lemma CaptureSetUp(s: State) returns (states: seq<State>, steps: seq<Step>)
    requires s.configure.at == Asking
    ensures IsRun(states, steps) && states[0] == s && JpegWoken !in steps
    ensures var t := states[|steps|]; var b := Buffers(|s.kinds|, JPEG_ONLY);
      && t == s.(configure := t.configure, kinds := s.kinds + [true], setUp := t.setUp)
      && t.configure.at == Waiting && t.configure.waitingForReadout && t.configure.needsJpeg && t.configure.isCapture
      && t.configure.request == Some(|s.kinds|) && t.configure.buffers == Some(b)
  {
    assert JPEG_ONLY[0].blob;
    var s1 := Apply(s, Dequeue(true));
    var s2 := Apply(s1, CountUp);
    var s3 := Apply(s2, SetUp(JPEG_ONLY));
    states, steps := [s, s1, s2, s3], [Dequeue(true), CountUp, SetUp(JPEG_ONLY)];
  }

  lemma WaitOver(s: State) returns (states: seq<State>, steps: seq<Step>)
    requires s.configure.at == Waiting && s.configure.waitingForReadout && s.configure.needsJpeg
    requires ReadyForNextCapture(s.readout) && s.jpeg.None?
    ensures IsRun(states, steps) && states[0] == s && JpegWoken !in steps
    ensures states[|steps|] ==
            s.(configure := s.configure.(at := Publishing, waitingForReadout := false, needsJpeg := false))
  {
    var s1 := Apply(s, ReadoutReady);
    var s2 := Apply(s1, JpegReady);
    var s3 := Apply(s2, BeginPublish);
    states, steps := [s, s1, s2, s3], [ReadoutReady, JpegReady, BeginPublish];
  }

  /** One capture, from the dequeue until it is about to be published, while the compressor is free. */
  lemma CaptureReady(s: State) returns (states: seq<State>, steps: seq<Step>)
    requires s.configure.at == Asking && ReadyForNextCapture(s.readout) && s.jpeg.None?
    ensures IsRun(states, steps) && states[0] == s && JpegWoken !in steps
    ensures var t := states[|steps|];
      && t.readout == s.readout && t.jpeg.None? && t.kinds == s.kinds + [true]
      && t.configure.at == Publishing && t.configure.isCapture
      && t.configure.request == Some(|s.kinds|) && t.configure.buffers == Some(Buffers(|s.kinds|, JPEG_ONLY))
  {
    var a, p := CaptureSetUp(s);
    var b, q := WaitOver(a[|p|]);
    states := JoinRuns(a, p, b, q);
    steps := p + q;
  }

  /** Publication of a capture while there is room, and back to asking. */
  lemma CaptureDone(s: State) returns (states: seq<State>, steps: seq<Step>)
    requires Enabled(s, Publish) && ReadyForNextCapture(s.readout) && s.jpeg.None?
    ensures IsRun(states, steps) && states[0] == s && JpegWoken !in steps
    ensures var t := states[|steps|];
      && t.readout == Pushed(s.readout,
                             Entry(s.configure.isCapture, s.configure.request.value, s.configure.buffers.value))
      && t.jpeg.None? && t.kinds == s.kinds && t.configure.at == Asking
  {
    var s1 := Apply(s, Publish);
    var s2 := Apply(s1, Clear);
    var s3 := Apply(s2, CountDown);
    states, steps := [s, s1, s2, s3], [Publish, Clear, CountDown];
  }

  lemma CapturePublished(s: State) returns (states: seq<State>, steps: seq<Step>)
    requires s.configure.at == Asking && ReadyForNextCapture(s.readout) && s.jpeg.None?
    ensures IsRun(states, steps) && states[0] == s && JpegWoken !in steps
    ensures var t := states[|steps|];
      && t.readout == Pushed(s.readout, Entry(true, |s.kinds|, Buffers(|s.kinds|, JPEG_ONLY)))
      && t.jpeg.None? && t.kinds == s.kinds + [true] && t.configure.at == Asking
  {
    var a, p := CaptureReady(s);
    var b, q := CaptureDone(a[|p|]);
    states := JoinRuns(a, p, b, q);
    steps := p + q;
  }

  lemma TwoCapturesPublished() returns (states: seq<State>, steps: seq<Step>)
    ensures IsRun(states, steps) && Init(states[0]) && JpegWoken !in steps
    ensures var t := states[|steps|];
      && t.kinds == [true, true] && t.jpeg.None? && t.readout.at == Idle && |t.readout.queue| == 2
      && t.readout.queue[0].buffers == Buffers(0, JPEG_ONLY) && t.readout.queue[1].buffers == Buffers(1, JPEG_ONLY)
  {
    var s := State(Configure(Asking, None, false, None, 0, false, false),
                   Readout(Idle, false, [], 0, None, false, None), None, [], [], {}, map[]);
    var a, p := CapturePublished(s);
    var b, q := CapturePublished(a[|p|]);
    states := JoinRuns(a, p, b, q);
    steps := p + q;
  }

  /** Two captures with a JPEG buffer each, published before the first is read out: the second one is lost. */
  lemma SecondCaptureLost() returns (states: seq<State>, steps: seq<Step>)
    ensures IsRun(states, steps) && Init(states[0]) && JpegWoken !in steps
    ensures var t := states[|steps|]; LosesAt(t, 1) && Rank(Apply(t, HandOver), 1) == 4
  {
    var a, p := TwoCapturesPublished();
    var s := a[|p|];
    RunKeepsRank(a, p, |p|, |p|, 1);
    assert JPEG_ONLY[0].blob && JPEG_ONLY[0].streamId > 0;
    assert HasJpeg(s.readout.queue[0].buffers) && HasJpeg(s.readout.queue[1].buffers);
    assert JpegBefore(s.readout, 1);
    var b, q := WorkOff(s, 1, 1);
    states := JoinRuns(a, p, b, q);
    steps := p + q;
    LossIsFinal(states, steps);
  }

  lemma LossIsFinal(states: seq<State>, steps: seq<Step>)
    requires IsRun(states, steps) && Init(states[0]) && LosesAt(states[|steps|], 1)
    ensures Rank(Apply(states[|steps|], HandOver), 1) == 4
  {
    RunKeepsRank(states, steps, |steps|, |steps|, 1);
    HandOverOutcome(states[|steps|]);
  }
}
