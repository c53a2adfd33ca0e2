/** The pipeline empties: what is being compressed gets done, and no request stays inside for good. */
module PipelineDrain {
  import opened Text
  import opened CameraPipeline

  /** The request is in no part of the pipeline: neither thread counts it, and no buffer of it is in use. */
  ghost predicate Gone(s: State, n: nat) {
    && n !in InConfigure(s.configure) && n !in InReadout(s.readout) && n !in Requests(s.readout.queue)
    && !(s.readout.buffers.Some? && s.readout.buffers.value.owner == n)
    && !(s.jpeg.Some? && s.jpeg.value.owner == n)
  }

  /** The end of a compression frees the compressor, and the request with it. */
  lemma CompressionEnds(states: seq<State>, steps: seq<Step>, k: nat)
    requires IsRun(states, steps) && Init(states[0]) && k < |states| && states[k].jpeg.Some?
    ensures Enabled(states[k], JpegFinish)
    ensures var n := states[k].jpeg.value.owner; var t := Apply(states[k], JpegFinish);
      && Rank(t, n) == 4 && Gone(t, n) && n in t.freed
      && Busy(t) == 0 && forall id :: !JpegUses(t, id)
  {
    var s := states[k];
    RunKeepsRank(states, steps, k, k, s.jpeg.value.owner);
    PartsApart(s, s.jpeg.value.owner);
    assert s.jpeg.value.owner in s.freed;
    assert s.jpeg.value.owner in Order(s);
  }

  // ---------- what is left to do ----------

  /** Everything but new requests and failures. */
  predicate GoesOn(step: Step) {
    !step.Dequeue? && !step.DequeueFails? && !step.SetUpFails? && !step.ReadoutFails?
  }

  function ConfigureLeft(c: Configure): nat {
    match c.at
    case Counting => 15
    case SettingUp => 14
    case Waiting => 11 + (if c.waitingForReadout then 1 else 0) + (if c.needsJpeg then 1 else 0)
    case Publishing => 10
    case Clearing => 2
    case CountingDown => 1
    case _ => 0
  }

  function ReadoutLeft(r: Readout): nat {
    6 * |r.queue| + (if r.active then 1 else 0)
    + match r.at
      case Reading => 5
      case Freed => 4
      case HandedOver => 1
      case _ => 0
  }

  /** Bounds the steps that the requests inside can still take. */
  function Left(s: State): nat {
    ConfigureLeft(s.configure) + ReadoutLeft(s.readout) + if s.jpeg.Some? then 1 else 0
  }

  lemma StepTakesWork(s: State, step: Step)
    requires Inv(s) && Enabled(s, step) && GoesOn(step)
    ensures Left(Apply(s, step)) < Left(s)
    ensures Apply(s, step).readout.at == Halted <==> s.readout.at == Halted
    ensures Apply(s, step).configure.at == Stopped <==> s.configure.at == Stopped
  {
    if ByConfigure(step) {
      ConfigureTakesWork(s, step);
    } else if ByReadout(step) {
      ReadoutTakesWork(s, step);
    }
  }

  lemma ConfigureTakesWork(s: State, step: Step)
    requires Inv(s) && Enabled(s, step) && GoesOn(step) && ByConfigure(step)
    ensures Left(Apply(s, step)) < Left(s)
    ensures Apply(s, step).readout.at == s.readout.at
    ensures Apply(s, step).configure.at == Stopped <==> s.configure.at == Stopped
  {
    if step.Publish? {
      PublishTakesWork(s);
    } else {
      StageTakesWork(s, step);
    }
  }

  lemma PublishTakesWork(s: State)
    requires Enabled(s, Publish)
    ensures Left(Apply(s, Publish)) < Left(s)
    ensures Apply(s, Publish).readout.at == s.readout.at && Apply(s, Publish).configure.at == Clearing
  {
    assert ReadoutLeft(Apply(s, Publish).readout) <= ReadoutLeft(s.readout) + 7;
  }

  lemma StageTakesWork(s: State, step: Step)
    requires Enabled(s, step) && GoesOn(step) && ByConfigure(step) && !step.Publish?
    ensures ConfigureLeft(Apply(s, step).configure) < ConfigureLeft(s.configure)
    ensures Apply(s, step).readout == s.readout && Apply(s, step).jpeg == s.jpeg
    ensures Apply(s, step).configure.at == Stopped <==> s.configure.at == Stopped
  {
  }

  lemma ReadoutTakesWork(s: State, step: Step)
    requires Inv(s) && Enabled(s, step) && GoesOn(step) && ByReadout(step)
    ensures Left(Apply(s, step)) < Left(s)
    ensures Apply(s, step).readout.at == Halted <==> s.readout.at == Halted
    ensures Apply(s, step).configure == s.configure
  {
  }

  /** Nothing is queued, read out or compressed. */
  ghost predicate Emptied(s: State) {
    && s.readout.at == Idle && s.readout.queue == [] && s.readout.count == 0
    && s.jpeg.None? && Busy(s) == 0
    && forall id :: !ReadoutUses(s.readout, id) && !JpegUses(s, id)
  }

  /** And the configure thread is through with its request. */
  ghost predicate Drained(s: State) {
    Emptied(s) && s.configure.at in {Asking, Stopped}
  }

  /** As long as something is inside, some thread can go on, the readout thread and the compressor first. */
  lemma SomeStepGoesOn(s: State) returns (step: Step)
    requires Inv(s) && s.readout.at != Halted && !Drained(s)
    ensures Enabled(s, step) && GoesOn(step) && (!Emptied(s) ==> !ByConfigure(step))
  {
    match s.readout.at
    case Reading => step := FreeRequest;
    case Freed => step := HandOver;
    case HandedOver => step := FinishReadout;
    case _ =>
      if s.readout.queue != [] {
        step := Take;
      } else if s.jpeg.Some? {
        step := JpegFinish;
      } else {
        step := ConfigureGoesOn(s);
      }
  }

  lemma ConfigureGoesOn(s: State) returns (step: Step)
    requires Inv(s) && s.readout.queue == [] && s.jpeg.None? && s.configure.at !in {Asking, Stopped}
    ensures Enabled(s, step) && GoesOn(step)
  {
    match s.configure.at
    case Counting => step := CountUp;
    case SettingUp => step := SetUp([]);
    case Waiting =>
      step := if s.configure.waitingForReadout then ReadoutReady
              else if s.configure.needsJpeg then JpegReady else BeginPublish;
    case Publishing => step := Publish;
    case Clearing => step := Clear;
    case _ => step := CountDown;
  }

  ghost predicate GoesOnThrough(states: seq<State>, steps: seq<Step>) {
    IsRun(states, steps) && forall i :: 0 <= i < |steps| ==> GoesOn(steps[i])
  }

  /**
   * From any reachable state, whichever threads go on in whichever order, there are no more than Left steps, and if
   * the readout thread has not halted, it all ends drained: all three counts of getInProgressCount are then 0,
   * unless the configure thread has stopped over a request.
   */
  lemma {:induction false} EveryRunDrains(states: seq<State>, steps: seq<Step>)
    requires GoesOnThrough(states, steps) && Inv(states[0])
    ensures var last := states[|steps|];
      && Inv(last) && |steps| + Left(last) <= Left(states[0])
      && (last.readout.at == Halted <==> states[0].readout.at == Halted)
      && (last.configure.at == Stopped <==> states[0].configure.at == Stopped)
      && (states[0].readout.at != Halted && (forall step :: Enabled(last, step) ==> !GoesOn(step)) ==> Drained(last))
    decreases |steps|
  {
    if steps != [] {
      var n := |steps| - 1;
      assert GoesOnThrough(states[..n + 1], steps[..n]) by {
        forall i | 0 <= i < n ensures Follows(states[..n + 1][i], steps[..n][i], states[..n + 1][i + 1]) {
          assert Follows(states[i], steps[i], states[i + 1]);
        }
      }
      EveryRunDrains(states[..n + 1], steps[..n]);
      assert Follows(states[n], steps[n], states[n + 1]);
      StepKeepsInv(states[n], steps[n]);
      StepTakesWork(states[n], steps[n]);
    }
    var last := states[|steps|];
    if last.readout.at != Halted && !Drained(last) {
      var step := SomeStepGoesOn(last);
    }
  }

  /** And such an end is reached from every reachable state; the readout thread and the compressor alone empty theirs. */
  lemma {:induction false} DrainReached(s: State, alone: bool) returns (states: seq<State>, steps: seq<Step>)
    requires Inv(s) && s.readout.at != Halted
    ensures GoesOnThrough(states, steps) && states[0] == s
    ensures if alone then Emptied(states[|steps|]) && forall i :: 0 <= i < |steps| ==> !ByConfigure(steps[i])
            else Drained(states[|steps|])
    decreases Left(s)
  {
    if (alone && Emptied(s)) || Drained(s) {
      states, steps := [s], [];
    } else {
      var step := SomeStepGoesOn(s);
      StepKeepsInv(s, step);
      StepTakesWork(s, step);
      var rest, restSteps := DrainReached(Apply(s, step), alone);
      states, steps := StepThen(s, step, rest, restSteps);
    }
  }

  lemma StepThen(s: State, step: Step, rest: seq<State>, restSteps: seq<Step>)
    returns (states: seq<State>, steps: seq<Step>)
    requires Enabled(s, step) && GoesOn(step) && GoesOnThrough(rest, restSteps) && rest[0] == Apply(s, step)
    ensures GoesOnThrough(states, steps) && steps == [step] + restSteps
    ensures states[0] == s && states[|steps|] == rest[|restSteps|]
  {
    states, steps := [s] + rest, [step] + restSteps;
    forall i | 0 <= i < |steps| ensures Follows(states[i], steps[i], states[i + 1]) && GoesOn(steps[i]) {
      if i > 0 {
        assert Follows(rest[i - 1], restSteps[i - 1], rest[i]);
      }
    }
  }

  /** In a drained state every request ever dequeued has been given back, or was dropped at a full queue. */
  lemma DrainedGaveBack(s: State, n: nat)
    requires Inv(s) && Drained(s) && s.configure.at == Asking
    ensures n < |s.kinds| <==> n in s.freed || n in s.dropped
    ensures s.configure.count + s.readout.count + Busy(s) == 0
    ensures forall id :: !ConfigureUses(s.configure, id)
  {
    PartsApart(s, n);
  }
}
