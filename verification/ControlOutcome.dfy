/**
 * What a trigger, a cancel, a change of mode and the end of a scan lead to, over every run of the control thread,
 * told by the states and durations seen outside. Durations are in nanoseconds.
 */
module ControlOutcome {
  import opened Text
  import opened ControlThread

  /** d is what the random number picks between the bounds, cut off below one nanosecond. */
  predicate Picked(d: int, r: Random, low: real, high: real) {
    d as real <= low + r * (high - low) < d as real + 1.0
  }

  // ---------- auto-focus ----------

  /** A scan has begun in this step, for a duration picked between 500 and 900 ms. */
  predicate FreshScan(t: Control, state: AfState, r: Random) {
    t.afState == state && Picked(t.afScanDuration, r, 500000000.0, 900000000.0) && t.drawn == t.afScanDuration && t.slept == 0
  }

  /** The scan under way goes on. */
  predicate ScanUnchanged(c: Control, t: Control) {
    t.afState == c.afState && t.afScanDuration == c.afScanDuration && t.drawn == c.drawn && t.slept == c.slept
  }

  /** AUTO and MACRO: only a trigger starts a scan, which ends locked, in focus for a draw below 0.9. */
  predicate SingleFocus(c: Control, t: Control, triggered: bool, d: AfDraws) {
    if c.afState == ActiveScan then
      if c.afScanDuration > 0 then ScanUnchanged(c, t)
      else t.afState == if d.success < 0.9 then FocusedLocked else NotFocusedLocked
    else if triggered then FreshScan(t, ActiveScan, d.triggered)
    else t.afState == c.afState
  }

  /** CONTINUOUS_PICTURE: a trigger locks; during a passive scan it does so when the scan is over. */
  predicate PictureFocus(c: Control, t: Control, triggered: bool, d: AfDraws) {
    match c.afState
    case PassiveScan =>
      if c.afScanDuration > 0
      then ScanUnchanged(c, t) && t.lockAfterPassiveScan == (c.lockAfterPassiveScan || triggered)
      else t.afState == (if c.lockAfterPassiveScan || triggered then FocusedLocked else PassiveFocused)
           && !t.lockAfterPassiveScan
    case Inactive => if triggered then t.afState == NotFocusedLocked else FreshScan(t, PassiveScan, d.duration)
    case PassiveFocused => if triggered then t.afState == FocusedLocked else FreshScan(t, PassiveScan, d.duration)
    case _ => t.afState == c.afState
  }

  /** CONTINUOUS_VIDEO: a trigger locks at once, and breaks off a passive scan. */
  predicate VideoFocus(c: Control, t: Control, triggered: bool, d: AfDraws) {
    match c.afState
    case PassiveScan =>
      if triggered then t.afState == NotFocusedLocked
      else if c.afScanDuration > 0 then ScanUnchanged(c, t)
      else t.afState == PassiveFocused
    case Inactive => if triggered then t.afState == NotFocusedLocked else FreshScan(t, PassiveScan, d.duration)
    case PassiveFocused => if triggered then t.afState == FocusedLocked else FreshScan(t, PassiveScan, d.duration)
    case _ => t.afState == c.afState
  }

  /** The whole table of the focus part of a cycle, for every state of every run. */
  lemma FocusTable(states: seq<Control>, steps: seq<Step>, k: nat)
    requires IsRun(states, steps) && Init(states[0]) && k < |steps| && steps[k].RunFocus?
    ensures var c, t, l := states[k], states[k + 1], states[k].local;
      match l.afMode
      case Auto => SingleFocus(c, t, l.afTriggered, steps[k].af)
      case Macro => SingleFocus(c, t, l.afTriggered, steps[k].af)
      case ContinuousPicture => PictureFocus(c, t, l.afTriggered, steps[k].af)
      case ContinuousVideo => VideoFocus(c, t, l.afTriggered, steps[k].af)
      case _ => c.afState == Inactive == t.afState
  {
    var c, l := states[k], states[k].local;
    RunKeepsInv(states, steps, k);
    assert Follows(c, steps[k], states[k + 1]);
    PassiveScanAlwaysStarts(l.afMode, l.afState, steps[k].af.start);
    match l.afMode
    case Auto => SingleOutcome(c, steps[k].af);
    case Macro => SingleOutcome(c, steps[k].af);
    case ContinuousPicture => PictureOutcome(c, steps[k].af);
    case ContinuousVideo => VideoOutcome(c, steps[k].af);
    case _ =>
  }

  lemma SingleOutcome(c: Control, d: AfDraws)
    requires Inv(c) && c.at == FocusDue && (c.local.afMode == Auto || c.local.afMode == Macro)
    ensures SingleFocus(c, Apply(c, RunFocus(d)), c.local.afTriggered, d)
  {
  }

  lemma PictureOutcome(c: Control, d: AfDraws)
    requires Inv(c) && c.at == FocusDue && c.local.afMode == ContinuousPicture
    ensures PictureFocus(c, Apply(c, RunFocus(d)), c.local.afTriggered, d)
  {
    PassiveScanAlwaysStarts(ContinuousPicture, FocusTriggered(c, d).state, d.start);
  }

  lemma VideoOutcome(c: Control, d: AfDraws)
    requires Inv(c) && c.at == FocusDue && c.local.afMode == ContinuousVideo
    ensures VideoFocus(c, Apply(c, RunFocus(d)), c.local.afTriggered, d)
  {
    PassiveScanAlwaysStarts(ContinuousVideo, FocusTriggered(c, d).state, d.start);
  }

  /** A cancel or a change of mode takes every state back to Inactive and forgets the scan and the wish to lock. */
  lemma ResetTable(states: seq<Control>, steps: seq<Step>, k: nat)
    requires IsRun(states, steps) && Init(states[0]) && k < |steps| && steps[k] == Reset
    ensures var c, t := states[k], states[k + 1];
      if c.local.afCancelled || c.local.afModeChange
      then t.afState == Inactive && t.afScanDuration == 0 && !t.lockAfterPassiveScan
      else t.afState == c.afState && t.afScanDuration == c.afScanDuration
           && t.lockAfterPassiveScan == c.lockAfterPassiveScan
  {
    assert Follows(states[k], steps[k], states[k + 1]);
  }

  // ---------- what requests and triggers ask for ----------

  /** The mode asked for last. */
  function ModeAsked(steps: seq<Step>): AfMode {
    if steps == [] then Auto
    else match steps[|steps| - 1]
      case ProcessRequest(ModeOff) => AfOff
      case ProcessRequest(Controls(m, _, _)) => m
      case _ => ModeAsked(steps[..|steps| - 1])
  }

  /** The step asks for another mode, or switches all control off. */
  predicate ChangesMode(before: seq<Step>, step: Step) {
    step.ProcessRequest? && (step.request.ModeOff? || step.request.afMode != ModeAsked(before))
  }

  /** An autofocus trigger came in that no cycle has taken up, and no cancel or change of mode after it. */
  function TriggerPending(steps: seq<Step>): bool {
    if steps == [] then false
    else
      var before, last := steps[..|steps| - 1], steps[|steps| - 1];
      if last == TriggerAction(Autofocus) then true
      else if last == TriggerAction(CancelAutofocus) || last == Begin || ChangesMode(before, last) then false
      else TriggerPending(before)
  }

  /** A change of mode came in that no cycle has taken up. */
  function ChangePending(steps: seq<Step>): bool {
    if steps == [] then false
    else
      var before, last := steps[..|steps| - 1], steps[|steps| - 1];
      if ChangesMode(before, last) then true else if last == Begin then false else ChangePending(before)
  }

  /** A cancel, by itself or with control switched off, that no cycle has taken up; a trigger drops it. */
  function CancelPending(steps: seq<Step>): bool {
    if steps == [] then false
    else
      var before, last := steps[..|steps| - 1], steps[|steps| - 1];
      if last == TriggerAction(CancelAutofocus) || last == ProcessRequest(ModeOff) then true
      else if last == TriggerAction(Autofocus) || last == Begin || ChangesMode(before, last) then false
      else CancelPending(before)
  }

  function PrecapturePending(steps: seq<Step>): bool {
    if steps == [] then false
    else
      var before, last := steps[..|steps| - 1], steps[|steps| - 1];
      if last == TriggerAction(PrecaptureMetering) then true else if last == Begin then false else PrecapturePending(before)
  }

  /** What is noted for the next cycle is told by the calls that came in. */
  predicate InputsTold(i: Inputs, past: seq<Step>) {
    && i.afMode == ModeAsked(past) && i.startAf == TriggerPending(past) && i.afModeChange == ChangePending(past)
    && i.cancelAf == CancelPending(past) && i.startPrecapture == PrecapturePending(past)
    && !(i.startAf && i.cancelAf)
  }

  lemma StepTold(c: Control, past: seq<Step>, step: Step)
    requires InputsTold(c.input, past) && Enabled(c, step)
    ensures InputsTold(Apply(c, step).input, past + [step])
  {
    assert (past + [step])[..|past|] == past;
  }

  lemma {:induction false} PendingTold(states: seq<Control>, steps: seq<Step>, k: nat)
    requires IsRun(states, steps) && Init(states[0]) && k < |states|
    ensures InputsTold(states[k].input, steps[..k])
  {
    if k > 0 {
      PendingTold(states, steps, k - 1);
      assert Follows(states[k - 1], steps[k - 1], states[k]);
      assert steps[..k] == steps[..k - 1] + [steps[k - 1]];
      StepTold(states[k - 1], steps[..k - 1], steps[k - 1]);
    }
  }

  /** From the first critical section of cycle j to its focus part at k. */
  ghost predicate OneCycle(steps: seq<Step>, j: nat, k: nat) {
    && j < k < |steps| && steps[j] == Begin && steps[k].RunFocus?
    && forall m :: j < m < k ==> !steps[m].Begin? && !steps[m].RunFocus?
  }

  lemma {:induction false} CycleKeepsInputs(states: seq<Control>, steps: seq<Step>, j: nat, k: nat)
    requires IsRun(states, steps) && j < k < |states| && steps[j] == Begin
    requires forall m :: j < m < k ==> !steps[m].Begin? && !steps[m].RunFocus?
    ensures var a, l := states[j], states[k].local; var reset := l.afCancelled || l.afModeChange;
      && states[k].at in {Resetting, FocusDue}
      && l.afTriggered == a.input.startAf && l.afCancelled == (a.input.cancelAf && !a.input.startAf)
      && l.afModeChange == a.input.afModeChange && l.afMode == a.input.afMode
      && l.precaptureTriggered == a.input.startPrecapture
      && states[k].afState == (if states[k].at == FocusDue && reset then Inactive else a.afState)
    decreases k
  {
    assert Follows(states[k - 1], steps[k - 1], states[k]);
    if j < k - 1 {
      CycleKeepsInputs(states, steps, j, k - 1);
    }
  }

  /**
   * A trigger that came in before a cycle, in AUTO or MACRO, is a scan by the end of its focus part, unless one was
   * under way already. A change of mode before the trigger does not get in the way.
   */
  lemma TriggerStartsScan(states: seq<Control>, steps: seq<Step>, j: nat, k: nat)
    requires IsRun(states, steps) && Init(states[0]) && OneCycle(steps, j, k)
    requires TriggerPending(steps[..j]) && ModeAsked(steps[..j]) in {Auto, Macro}
    requires states[j].afState != ActiveScan || ChangePending(steps[..j])
    ensures FreshScan(states[k + 1], ActiveScan, steps[k].af.triggered)
  {
    PendingTold(states, steps, j);
    CycleKeepsInputs(states, steps, j, k);
    assert Follows(states[k], steps[k], states[k + 1]);
    FocusTable(states, steps, k);
  }

  /** Without a trigger, a cycle in AUTO or MACRO neither starts a scan nor leaves a locked state. */
  lemma NoTriggerNoScan(states: seq<Control>, steps: seq<Step>, j: nat, k: nat)
    requires IsRun(states, steps) && Init(states[0]) && OneCycle(steps, j, k)
    requires !TriggerPending(steps[..j]) && ModeAsked(steps[..j]) in {Auto, Macro}
    requires !CancelPending(steps[..j]) && !ChangePending(steps[..j]) && states[j].afState != ActiveScan
    ensures states[k + 1].afState == states[j].afState
  {
    PendingTold(states, steps, j);
    CycleKeepsInputs(states, steps, j, k);
    assert Follows(states[k], steps[k], states[k + 1]);
    FocusTable(states, steps, k);
  }

  // ---------- auto-exposure ----------

  predicate MetersAe(m: AeMode) {
    m in {AeOn, AutoFlash, AlwaysFlash, AutoFlashRedeye}
  }

  /** The exposure time moves by up to 2 ms either way, and never below 1 ms. */
  predicate Jittered(before: int, after: int, r: Random) {
    var x := before as real + (r * 4000000.0 - 2000000.0);
    if after == 1_000_000 then x < 1000001.0 else after > 1_000_000 && -1.0 < after as real - x < 1.0
  }

  predicate FreshAeScan(c: Control, t: Control, state: AeState, r: Random, low: real, high: real, jitter: Random) {
    t.aeState == state && Picked(t.aeScanDuration, r, low, high) && Jittered(c.exposureTime, t.exposureTime, jitter)
  }

  /** A metering scan under way, or over; then the exposure time is 10 ms. */
  predicate AeScanGoesOn(c: Control, t: Control, end: AeState, jitter: Random) {
    && t.aeScanDuration == c.aeScanDuration
    && if c.aeScanDuration > 0 then t.aeState == c.local.aeState && Jittered(c.exposureTime, t.exposureTime, jitter)
       else t.aeState == end && t.exposureTime == 10_000_000
  }

  /** The whole table of the exposure part of a cycle. */
  predicate ExposureOutcome(c: Control, t: Control, d: AeDraws) {
    var l := c.local;
    if l.precaptureTriggered && MetersAe(l.aeMode) then
      FreshAeScan(c, t, Precapture, d.precapture, 100000000.0, 400000000.0, d.exposure)
    else if l.aeState == Precapture then AeScanGoesOn(c, t, if l.aeLock then Locked else Converged, d.exposure)
    else if l.aeLock then t.aeState == Locked && t.aeScanDuration == 0 && t.exposureTime == c.exposureTime
    else if l.aeState == Searching then AeScanGoesOn(c, t, Converged, d.exposure)
    else if l.aeState != Locked && MetersAe(l.aeMode) && 30.0 * d.start < 1.0 then
      FreshAeScan(c, t, Searching, d.duration, 500000000.0, 2000000000.0, d.exposure)
    else t.aeState == l.aeState && t.aeScanDuration == c.aeScanDuration && t.exposureTime == c.exposureTime
  }

  lemma PickedByDraw(r: Random, low: int, high: int)
    requires low <= high
    ensures Picked(Draw(r, low, high), r, low as real, high as real)
  {
  }

  lemma ExposureTable(states: seq<Control>, steps: seq<Step>, k: nat)
    requires IsRun(states, steps) && Init(states[0]) && k < |steps| && steps[k].RunExposure?
    ensures ExposureOutcome(states[k], states[k + 1], steps[k].ae)
    ensures states[k + 1].afState == states[k].afState && states[k + 1].afScanDuration == states[k].afScanDuration
  {
    RunKeepsInv(states, steps, k);
    assert Follows(states[k], steps[k], states[k + 1]);
    ExposureStep(states[k], steps[k].ae);
  }

  lemma JitterOf(before: int, r: Random)
    ensures var after := before + ExposureDelta(r);
      Jittered(before, if after < MIN_EXPOSURE_TIME then MIN_EXPOSURE_TIME else after, r)
  {
    var x := r * 4000000.0 - 2000000.0;
    assert r * (2 * EXPOSURE_JUMP) as real - EXPOSURE_JUMP as real == x;
    assert -1.0 < ExposureDelta(r) as real - x < 1.0;
  }

  lemma ExposureStep(c: Control, d: AeDraws)
    requires Inv(c) && c.at == ExposureDue
    ensures ExposureOutcome(c, Apply(c, RunExposure(d)), d)
  {
    PickedByDraw(d.precapture, 100_000_000, 400_000_000);
    PickedByDraw(d.duration, 500_000_000, 2_000_000_000);
    JitterOf(c.exposureTime, d.exposure);
    StartRate(d.start);
  }

  lemma StartRate(r: Random)
    ensures r < AE_SCAN_START_RATE <==> 30.0 * r < 1.0
  {
    assert AE_SCAN_START_RATE * 30.0 == 1.0;
  }

  /** The AE mode and the lock asked for last; switching control off locks. */
  function AeAsked(steps: seq<Step>, lock: bool): (AeMode, bool) {
    if steps == [] then (AeOn, lock)
    else match steps[|steps| - 1]
      case ProcessRequest(ModeOff) => (AeOff, true)
      case ProcessRequest(Controls(_, m, l)) => (m, l)
      case _ => AeAsked(steps[..|steps| - 1], lock)
  }

  lemma {:induction false} AeTold(states: seq<Control>, steps: seq<Step>, k: nat)
    requires IsRun(states, steps) && Init(states[0]) && k < |states|
    ensures (states[k].input.aeMode, states[k].input.aeLock) == AeAsked(steps[..k], states[0].input.aeLock)
  {
    if k > 0 {
      AeTold(states, steps, k - 1);
      assert Follows(states[k - 1], steps[k - 1], states[k]);
      assert steps[..k][..k - 1] == steps[..k - 1];
    }
  }

  /** The exposure part works on the mode, lock, state and trigger of the beginning of its cycle. */
  lemma {:induction false} CycleKeepsAe(states: seq<Control>, steps: seq<Step>, j: nat, k: nat)
    requires IsRun(states, steps) && j < k < |states| && steps[j] == Begin
    requires forall m :: j < m < k ==> !steps[m].Begin? && !steps[m].RunExposure?
    ensures var a, l := states[j], states[k].local;
      && l.aeMode == a.input.aeMode && l.aeLock == a.input.aeLock && l.aeState == a.aeState
      && l.precaptureTriggered == a.input.startPrecapture
    ensures states[k].aeScanDuration == states[j].aeScanDuration && states[k].exposureTime == states[j].exposureTime
    ensures states[k].at in {Resetting, FocusDue, ExposureDue}
    decreases k
  {
    assert Follows(states[k - 1], steps[k - 1], states[k]);
    if j < k - 1 {
      CycleKeepsAe(states, steps, j, k - 1);
    }
  }

  /** A request that unlocks, or switches control off, makes AE inactive at once; it leaves all else for the cycle. */
  lemma RequestTable(states: seq<Control>, steps: seq<Step>, k: nat)
    requires IsRun(states, steps) && k < |steps| && (steps[k].ProcessRequest? || steps[k].TriggerAction?)
    ensures var c, t, step := states[k], states[k + 1], steps[k];
      && t == c.(input := t.input, aeState := t.aeState)
      && t.aeState == if step == ProcessRequest(ModeOff)
                         || (step.ProcessRequest? && step.request.Controls? && c.input.aeLock && !step.request.aeLock)
                      then AeInactive else c.aeState
  {
    assert Follows(states[k], steps[k], states[k + 1]);
  }

  // ---------- sleeping ----------

  /** The cycle sleeps 100 ms, or until the first of the scans under way is over. */
  predicate SleepsUntil(n: int, af: Option<int>, ae: Option<int>) {
    && n <= 100_000_000 && (af.Some? ==> n <= af.value) && (ae.Some? ==> n <= ae.value)
    && (n == 100_000_000 || af == Some(n) || ae == Some(n))
  }

  function AfLeft(c: Control): Option<int> {
    if c.afState in {ActiveScan, PassiveScan} then Some(c.afScanDuration) else None
  }

  function AeLeft(c: Control): Option<int> {
    if c.local.aeState in {Searching, Precapture} then Some(c.aeScanDuration) else None
  }

  predicate SleepChosen(c: Control) {
    && (c.at == ExposureDue ==> SleepsUntil(c.local.nextSleep, AfLeft(c), None))
    && (c.at == Sleeping ==> SleepsUntil(c.local.nextSleep, AfLeft(c), AeLeft(c)))
  }

  lemma StepChoosesSleep(c: Control, step: Step)
    requires Inv(c) && SleepChosen(c) && Enabled(c, step)
    ensures SleepChosen(Apply(c, step))
  {
  }

  /** Each scan under way loses what the cycle has slept. */
  lemma {:induction false} SleepTable(states: seq<Control>, steps: seq<Step>, k: nat)
    requires IsRun(states, steps) && Init(states[0]) && k < |states|
    ensures SleepChosen(states[k])
    ensures k < |steps| && steps[k] == Sleep ==>
              var c, t := states[k], states[k + 1]; var n := c.local.nextSleep;
              && SleepsUntil(n, AfLeft(c), AeLeft(c)) && t.slept == c.slept + n
              && t.afScanDuration == (if c.afScanDuration > 0 then c.afScanDuration - n else c.afScanDuration)
              && t.aeScanDuration == (if c.aeScanDuration > 0 then c.aeScanDuration - n else c.aeScanDuration)
  {
    if k > 0 {
      SleepTable(states, steps, k - 1);
      RunKeepsInv(states, steps, k - 1);
      assert Follows(states[k - 1], steps[k - 1], states[k]);
      StepChoosesSleep(states[k - 1], steps[k - 1]);
    }
    if k < |steps| {
      assert Follows(states[k], steps[k], states[k + 1]);
    }
  }
}
