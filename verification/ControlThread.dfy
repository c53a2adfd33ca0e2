/**
 * Auto-focus and auto-exposure of the emulated camera. The control thread's cycle is cut at the points where it
 * takes its lock; requests and triggers may come in between. Times are in nanoseconds, rand() / RAND_MAX is a real.
 */
module ControlThread {

  datatype AfMode = AfOff | Auto | Macro | ContinuousVideo | ContinuousPicture | Edof | OtherAfMode(code: nat)

  datatype AfState = Inactive | PassiveScan | PassiveFocused | ActiveScan | FocusedLocked | NotFocusedLocked

  datatype AeMode = AeOff | AeOn | AutoFlash | AlwaysFlash | AutoFlashRedeye | OtherAeMode(code: nat)

  datatype AeState = AeInactive | Searching | Converged | Locked | Precapture

  const MSEC: int := 1_000_000
  const SEC: int := 1000 * MSEC

  const CONTROL_CYCLE_DELAY: int := 100 * MSEC
  const MIN_AF_DURATION: int := 500 * MSEC
  const MAX_AF_DURATION: int := 900 * MSEC
  const AF_SUCCESS_RATE: real := 0.9
  const CONTINUOUS_AF_START_RATE: real := CONTROL_CYCLE_DELAY as real / 5.0 * SEC as real
  const MIN_AE_DURATION: int := 500 * MSEC
  const MAX_AE_DURATION: int := 2 * SEC
  const MIN_PRECAPTURE_AE_DURATION: int := 100 * MSEC
  const MAX_PRECAPTURE_AE_DURATION: int := 400 * MSEC
  const AE_SCAN_START_RATE: real := CONTROL_CYCLE_DELAY as real / 3000000000.0
  const NORMAL_EXPOSURE_TIME: int := 10 * MSEC
  const EXPOSURE_JUMP: int := 2 * MSEC
  const MIN_EXPOSURE_TIME: int := 1 * MSEC

  /** rand() / RAND_MAX */
  type Random = r: real | 0.0 <= r <= 1.0

  /** The random numbers of one cycle, in the order of their possible use. */
  datatype AfDraws = AfDraws(triggered: Random, start: Random, duration: Random, success: Random)
  datatype AeDraws = AeDraws(precapture: Random, start: Random, duration: Random, exposure: Random)

  function Draw(r: Random, low: int, high: int): (d: int)
    requires low <= high
    ensures low <= d <= high
  {
    assert 0.0 <= r * (high - low) as real <= (high - low) as real;
    (r * (high - low) as real + low as real).Floor
  }

  /** The change of exposure time: a double converted to an integer, so rounded towards zero. */
  function ExposureDelta(r: Random): (d: int)
    ensures -EXPOSURE_JUMP <= d <= EXPOSURE_JUMP
  {
    assert 0.0 <= r * (2 * EXPOSURE_JUMP) as real <= (2 * EXPOSURE_JUMP) as real;
    var x := r * (2 * EXPOSURE_JUMP) as real - EXPOSURE_JUMP as real;
    if x >= 0.0 then x.Floor else -(-x).Floor
  }

  predicate Continuous(m: AfMode) {
    m == ContinuousVideo || m == ContinuousPicture
  }

  predicate Scanning(s: AfState) {
    s == ActiveScan || s == PassiveScan
  }

  predicate MetersExposure(m: AeMode) {
    m == AeOn || m == AutoFlash || m == AlwaysFlash || m == AutoFlashRedeye
  }

  // ---------- auto-focus within one cycle ----------

  /** What the cycle works on: its copy of the state, the scan still to go, and the wish to lock after the scan. */
  datatype Focus = Focus(state: AfState, scan: int, lockAfter: bool)

  /** The switch of processAfTrigger reaches one of its "unexpected" defaults. */
  predicate UnexpectedTrigger(m: AfMode, s: AfState) {
    match m
    case Auto => s == PassiveScan || s == PassiveFocused
    case Macro => s == PassiveScan || s == PassiveFocused
    case ContinuousVideo => s == ActiveScan
    case ContinuousPicture => s == ActiveScan
    case _ => false
  }

  function AfterTrigger(m: AfMode, f: Focus, r: Random): Focus {
    match m
    case Auto => StartOnTrigger(f, r)
    case Macro => StartOnTrigger(f, r)
    case ContinuousPicture =>
      if f.state == PassiveScan then f.(lockAfter := true)
      else if f.state == Inactive then f.(state := NotFocusedLocked)
      else if f.state == PassiveFocused then f.(state := FocusedLocked)
      else f
    case ContinuousVideo =>
      if f.state == PassiveScan || f.state == Inactive then f.(state := NotFocusedLocked)
      else if f.state == PassiveFocused then f.(state := FocusedLocked)
      else f
    case _ => f
  }

  function StartOnTrigger(f: Focus, r: Random): Focus {
    if f.state == Inactive || f.state == FocusedLocked || f.state == NotFocusedLocked
    then f.(state := ActiveScan, scan := Draw(r, MIN_AF_DURATION, MAX_AF_DURATION))
    else f
  }

  predicate StartsPassiveScan(m: AfMode, s: AfState, r: Random) {
    Continuous(m) && (s == Inactive || s == PassiveFocused) && r < CONTINUOUS_AF_START_RATE
  }

  function MaybeStarted(m: AfMode, f: Focus, d: AfDraws): Focus {
    if StartsPassiveScan(m, f.state, d.start)
    then f.(state := PassiveScan, scan := Draw(d.duration, MIN_AF_DURATION, MAX_AF_DURATION))
    else f
  }

  /** updateAfScan finds a scan under way in a mode that has none. */
  predicate UnexpectedScan(m: AfMode, f: Focus) {
    Scanning(f.state) && f.scan <= 0 && m != Auto && m != Macro && !Continuous(m)
  }

  function ScanUpdated(m: AfMode, f: Focus, r: Random): Focus {
    if !Scanning(f.state) || f.scan > 0 then f
    else match m
      case Auto => f.(state := if r < AF_SUCCESS_RATE then FocusedLocked else NotFocusedLocked)
      case Macro => f.(state := if r < AF_SUCCESS_RATE then FocusedLocked else NotFocusedLocked)
      case ContinuousPicture =>
        if f.lockAfter then f.(state := FocusedLocked, lockAfter := false) else f.(state := PassiveFocused)
      case ContinuousVideo => f.(state := PassiveFocused)
      case _ => f
  }

  function Min(a: int, b: int): int {
    if a <= b then a else b
  }

  /** A scan that goes on wakes the cycle when it ends. */
  function AfSleep(f: Focus): int {
    if Scanning(f.state) && f.scan > 0 then Min(f.scan, CONTROL_CYCLE_DELAY) else CONTROL_CYCLE_DELAY
  }

  // ---------- auto-exposure within one cycle ----------

  datatype Exposure = Exposure(state: AeState, scan: int, exposureTime: int)

  function AfterPrecapture(m: AeMode, e: Exposure, r: Random): Exposure {
    if MetersExposure(m)
    then e.(state := Precapture, scan := Draw(r, MIN_PRECAPTURE_AE_DURATION, MAX_PRECAPTURE_AE_DURATION))
    else e
  }

  function AeMaybeStarted(m: AeMode, lock: bool, e: Exposure, d: AeDraws): Exposure {
    if !lock && MetersExposure(m) && (e.state == AeInactive || e.state == Converged) && d.start < AE_SCAN_START_RATE
    then e.(state := Searching, scan := Draw(d.duration, MIN_AE_DURATION, MAX_AE_DURATION))
    else e
  }

  predicate AeScanning(lock: bool, e: Exposure) {
    e.state == Precapture || (e.state == Searching && !lock)
  }

  function AeUpdated(lock: bool, e: Exposure, r: Random): Exposure {
    if lock && e.state != Precapture then e.(state := Locked, scan := 0)
    else if !AeScanning(lock, e) then e
    else if e.scan <= 0 then e.(state := if lock then Locked else Converged, exposureTime := NORMAL_EXPOSURE_TIME)
    else
      var t := e.exposureTime + ExposureDelta(r);
      e.(exposureTime := if t < MIN_EXPOSURE_TIME then MIN_EXPOSURE_TIME else t)
  }

  function AeSleep(lock: bool, e: Exposure, sleep: int): int {
    if AeScanning(lock, e) && e.scan > 0 then Min(e.scan, sleep) else sleep
  }

  // ---------- the thread and those who call into it ----------

  /** Where the cycle stands; what it copied at its start is valid until it sleeps. */
  datatype At = LoopTop | Resetting | FocusDue | ExposureDue | Sleeping

  datatype Local = Local(
    afTriggered: bool, afCancelled: bool, afModeChange: bool, afState: AfState, afMode: AfMode,
    precaptureTriggered: bool, aeState: AeState, aeMode: AeMode, aeLock: bool, nextSleep: int)

  /** What requests and triggers have asked of the next cycle. */
  datatype Inputs = Inputs(
    startAf: bool, cancelAf: bool, startPrecapture: bool,
    afMode: AfMode, afModeChange: bool, aeMode: AeMode, aeLock: bool)

  datatype Control = Control(
    input: Inputs,
    afState: AfState, aeState: AeState, exposureTime: int,
    afScanDuration: int, aeScanDuration: int, lockAfterPassiveScan: bool,
    at: At, local: Local,
    drawn: int, slept: int)      // of the latest scan: its duration, and the time slept since it began

  /** The control fields of a request, with defaults filled in. */
  datatype Request = ModeOff | Controls(afMode: AfMode, aeMode: AeMode, aeLock: bool)

  datatype Trigger = Autofocus | CancelAutofocus | PrecaptureMetering

  datatype Step =
    | ProcessRequest(request: Request)
    | TriggerAction(trigger: Trigger)
    | Begin
    | Reset
    | RunFocus(af: AfDraws)
    | RunExposure(ae: AeDraws)
    | Sleep

  predicate Enabled(c: Control, step: Step) {
    match step
    case ProcessRequest(_) => true
    case TriggerAction(_) => true
    case Begin => c.at == LoopTop
    case Reset => c.at == Resetting
    case RunFocus(_) => c.at == FocusDue
    case RunExposure(_) => c.at == ExposureDue
    case Sleep => c.at == Sleeping
  }

  function Requested(c: Control, q: Request): Control {
    match q
    case ModeOff =>
      c.(input := Inputs(false, true, c.input.startPrecapture, AfOff, true, AeOff, true), aeState := AeInactive)
    case Controls(afMode, aeMode, aeLock) =>
      var i := c.input.(aeMode := aeMode, aeLock := aeLock);
      c.(input := if i.afMode == afMode then i
                  else i.(afMode := afMode, afModeChange := true, startAf := false, cancelAf := false),
         aeState := if c.input.aeLock && !aeLock then AeInactive else c.aeState)
  }

  function Triggered(c: Control, t: Trigger): Control {
    match t
    case Autofocus => c.(input := c.input.(startAf := true, cancelAf := false))
    case CancelAutofocus => c.(input := c.input.(startAf := false, cancelAf := true))
    case PrecaptureMetering => c.(input := c.input.(startPrecapture := true))
  }

  /** The first critical section of a cycle. */
  function Begun(c: Control): Control {
    var i := c.input;
    var cancelled := !i.startAf && i.cancelAf;
    c.(input := i.(startAf := false, cancelAf := i.cancelAf && !cancelled, afModeChange := false,
                   startPrecapture := false),
       local := Local(i.startAf, cancelled, i.afModeChange, c.afState, i.afMode, i.startPrecapture, c.aeState,
                      i.aeMode, i.aeLock, CONTROL_CYCLE_DELAY),
       at := Resetting)
  }

  function WasReset(c: Control): Control {
    if c.local.afCancelled || c.local.afModeChange
    then c.(afState := Inactive, afScanDuration := 0, lockAfterPassiveScan := false,
            local := c.local.(afState := Inactive), at := FocusDue)
    else c.(at := FocusDue)
  }

  function FocusAtStart(c: Control): Focus {
    Focus(c.local.afState, c.afScanDuration, c.lockAfterPassiveScan)
  }

  function FocusTriggered(c: Control, d: AfDraws): Focus {
    if c.local.afTriggered then AfterTrigger(c.local.afMode, FocusAtStart(c), d.triggered) else FocusAtStart(c)
  }

  function FocusStarted(c: Control, d: AfDraws): Focus {
    MaybeStarted(c.local.afMode, FocusTriggered(c, d), d)
  }

  /** A scan begins in this cycle. */
  predicate BeginsScan(c: Control, d: AfDraws) {
    Scanning(FocusStarted(c, d).state) && !(Scanning(c.local.afState) && FocusStarted(c, d).state == c.local.afState)
  }

  /** The second half of the focus part, from the focus `f` that trigger and passive start have left. */
  function ScanLookedAt(c: Control, f: Focus, begins: bool, success: Random): Control {
    var g := ScanUpdated(c.local.afMode, f, success);
    c.(afState := g.state, afScanDuration := g.scan, lockAfterPassiveScan := g.lockAfter,
       local := c.local.(afState := g.state, nextSleep := AfSleep(g)), at := ExposureDue,
       drawn := if begins then f.scan else c.drawn,
       slept := if begins then 0 else c.slept)
  }

  function Focused(c: Control, d: AfDraws): Control {
    ScanLookedAt(c, FocusStarted(c, d), BeginsScan(c, d), d.success)
  }

  function Exposed(c: Control, d: AeDraws): Control {
    var l := c.local;
    var e0 := Exposure(l.aeState, c.aeScanDuration, c.exposureTime);
    var e1 := if l.precaptureTriggered then AfterPrecapture(l.aeMode, e0, d.precapture) else e0;
    var e2 := AeMaybeStarted(l.aeMode, l.aeLock, e1, d);
    var e3 := AeUpdated(l.aeLock, e2, d.exposure);
    c.(aeState := e3.state, aeScanDuration := e3.scan, exposureTime := e3.exposureTime,
       local := l.(aeState := e3.state, nextSleep := AeSleep(l.aeLock, e2, l.nextSleep)), at := Sleeping)
  }

  function Woken(c: Control): Control {
    var n := c.local.nextSleep;
    c.(afScanDuration := if c.afScanDuration > 0 then c.afScanDuration - n else c.afScanDuration,
       aeScanDuration := if c.aeScanDuration > 0 then c.aeScanDuration - n else c.aeScanDuration,
       slept := c.slept + n, at := LoopTop)
  }

  function Apply(c: Control, step: Step): Control
    requires Enabled(c, step)
  {
    match step
    case ProcessRequest(q) => Requested(c, q)
    case TriggerAction(t) => Triggered(c, t)
    case Begin => Begun(c)
    case Reset => WasReset(c)
    case RunFocus(d) => Focused(c, d)
    case RunExposure(d) => Exposed(c, d)
    case Sleep => Woken(c)
  }

  /** readyToRun; the code leaves the scan durations and the wish to lock unset, here they start at 0 and false. */
  ghost predicate Init(c: Control) {
    && !c.input.startAf && !c.input.cancelAf && !c.input.startPrecapture
    && c.input.afMode == Auto && !c.input.afModeChange && c.input.aeMode == AeOn
    && c.afState == Inactive && c.aeState == AeInactive && c.exposureTime == NORMAL_EXPOSURE_TIME
    && c.afScanDuration == 0 && c.aeScanDuration == 0 && !c.lockAfterPassiveScan
    && c.at == LoopTop && c.local.afMode == Auto
  }

  // ---------- the state always fits the mode ----------

  /** The states a mode can be in. */
  predicate Fits(s: AfState, m: AfMode) {
    match m
    case Auto => s != PassiveScan && s != PassiveFocused
    case Macro => s != PassiveScan && s != PassiveFocused
    case ContinuousVideo => s != ActiveScan
    case ContinuousPicture => s != ActiveScan
    case _ => s == Inactive
  }

  /** Between the copy of a new mode and the reset it brings, the old state may still be in place. */
  predicate AwaitsReset(c: Control) {
    c.at == Resetting && (c.local.afCancelled || c.local.afModeChange)
  }

  ghost predicate FitsMode(c: Control) {
    && (c.input.afMode == c.local.afMode || c.input.afModeChange)
    && (AwaitsReset(c) || Fits(c.afState, c.local.afMode))
    && (c.at != LoopTop ==> c.local.afState == c.afState)
  }

  /** What is left of a scan, and how the cycle's sleep relates to it. */
  ghost predicate ScanAccounted(c: Control) {
    && (Scanning(c.afState) ==>
          && MIN_AF_DURATION <= c.drawn <= MAX_AF_DURATION
          && 0 <= c.afScanDuration && c.slept + c.afScanDuration == c.drawn)
    && (c.at == ExposureDue || c.at == Sleeping ==> 0 < c.local.nextSleep <= CONTROL_CYCLE_DELAY)
    && ((c.at == ExposureDue || c.at == Sleeping) && Scanning(c.afState) ==> c.local.nextSleep <= c.afScanDuration)
    && c.exposureTime >= MIN_EXPOSURE_TIME
  }

  /** The wish to lock never outlives the passive scan it was made in. */
  ghost predicate LockWishFits(c: Control) {
    c.lockAfterPassiveScan ==>
      AwaitsReset(c) || (c.local.afMode == ContinuousPicture && c.afState == PassiveScan)
  }

  ghost predicate Inv(c: Control) {
    FitsMode(c) && ScanAccounted(c) && LockWishFits(c)
  }

  lemma FocusKeepsInv(c: Control, d: AfDraws)
    requires Inv(c) && c.at == FocusDue
    ensures Inv(Focused(c, d))
  {
    PassiveScanAlwaysStarts(c.local.afMode, FocusTriggered(c, d).state, d.start);
  }

  lemma ExposureKeepsInv(c: Control, d: AeDraws)
    requires Inv(c) && c.at == ExposureDue
    ensures Inv(Exposed(c, d))
  {
  }

  lemma BeginKeepsInv(c: Control)
    requires Inv(c) && c.at == LoopTop
    ensures Inv(Begun(c))
  {
  }

  lemma ResetKeepsInv(c: Control)
    requires Inv(c) && c.at == Resetting
    ensures Inv(WasReset(c))
  {
    if AwaitsReset(c) {
      assert WasReset(c).afState == Inactive == WasReset(c).local.afState;
      assert Fits(Inactive, c.local.afMode);
    }
  }

  lemma RequestKeepsInv(c: Control, q: Request)
    requires Inv(c)
    ensures Inv(Requested(c, q))
  {
  }

  lemma TriggerKeepsInv(c: Control, t: Trigger)
    requires Inv(c)
    ensures Inv(Triggered(c, t))
  {
  }

  lemma SleepKeepsInv(c: Control)
    requires Inv(c) && c.at == Sleeping
    ensures Inv(Woken(c))
  {
  }

  lemma StepKeepsInv(c: Control, step: Step)
    requires Inv(c) && Enabled(c, step)
    ensures Inv(Apply(c, step))
  {
    match step
    case ProcessRequest(q) => RequestKeepsInv(c, q);
    case TriggerAction(t) => TriggerKeepsInv(c, t);
    case Begin => BeginKeepsInv(c);
    case Reset => ResetKeepsInv(c);
    case RunFocus(d) => FocusKeepsInv(c, d);
    case RunExposure(d) => ExposureKeepsInv(c, d);
    case Sleep => SleepKeepsInv(c);
  }

  ghost predicate Follows(c: Control, step: Step, next: Control) {
    Enabled(c, step) && next == Apply(c, step)
  }

  ghost predicate IsRun(states: seq<Control>, steps: seq<Step>) {
    && |states| == |steps| + 1
    && forall i {:trigger steps[i]} :: 0 <= i < |steps| ==> Follows(states[i], steps[i], states[i + 1])
  }

  lemma {:induction false} RunKeepsInv(states: seq<Control>, steps: seq<Step>, k: nat)
    requires IsRun(states, steps) && Init(states[0]) && k < |states|
    ensures Inv(states[k])
  {
    if k > 0 {
      RunKeepsInv(states, steps, k - 1);
      assert Follows(states[k - 1], steps[k - 1], states[k]);
      StepKeepsInv(states[k - 1], steps[k - 1]);
    }
  }

  /** None of the branches that log an unexpected state or mode is ever taken. */
  lemma NothingUnexpected(states: seq<Control>, steps: seq<Step>, k: nat)
    requires IsRun(states, steps) && Init(states[0]) && k < |steps| && steps[k].RunFocus?
    ensures states[k].local.afTriggered ==> !UnexpectedTrigger(states[k].local.afMode, states[k].local.afState)
    ensures !UnexpectedScan(states[k].local.afMode, FocusStarted(states[k], steps[k].af))
  {
    RunKeepsInv(states, steps, k);
    assert Follows(states[k], steps[k], states[k + 1]);
  }

  /** The rate meant to start a passive scan every 5 seconds is so large that one starts at once. */
  lemma PassiveScanAlwaysStarts(m: AfMode, s: AfState, r: Random)
    ensures StartsPassiveScan(m, s, r) <==> Continuous(m) && (s == Inactive || s == PassiveFocused)
  {
    assert CONTINUOUS_AF_START_RATE == 20000000000000000.0;
  }

  // ---------- scans end on time ----------

  /** A scan that runs out has been slept through for exactly the duration it drew. */
  lemma ScanRunsItsDuration(states: seq<Control>, steps: seq<Step>, k: nat)
    requires IsRun(states, steps) && Init(states[0]) && k < |steps| && steps[k].RunFocus?
    requires var f := FocusStarted(states[k], steps[k].af);
      Scanning(f.state) && ScanUpdated(states[k].local.afMode, f, steps[k].af.success).state != f.state
    ensures states[k].slept == states[k].drawn && MIN_AF_DURATION <= states[k].drawn <= MAX_AF_DURATION
  {
    RunKeepsInv(states, steps, k);
    assert Follows(states[k], steps[k], states[k + 1]);
  }

  /** Conversely, a scan that has slept its duration ends at the next look. */
  lemma ScanEndsWhenSlept(c: Control, d: AfDraws)
    requires Inv(c) && c.at == FocusDue && Scanning(c.local.afState) && c.slept == c.drawn
    ensures !Scanning(Focused(c, d).afState)
  {
  }

  /** Sleeps in a stretch of a run. */
  function Cycles(steps: seq<Step>): nat {
    if steps == [] then 0 else Cycles(steps[..|steps| - 1]) + if steps[|steps| - 1].Sleep? then 1 else 0
  }

  /** In this step the state stays in the scan it is in. */
  predicate SameScan(c: Control, step: Step) {
    Scanning(c.afState)
    && (step.Reset? ==> !c.local.afCancelled && !c.local.afModeChange)
    && (step.RunFocus? && Enabled(c, step) ==> !BeginsScan(c, step.af) && Scanning(Focused(c, step.af).afState))
  }

  /** What one step does to a scan it neither starts nor ends. */
  ghost predicate ScanGoesOn(c: Control, step: Step, d: Control) {
    && Scanning(d.afState)
    && d.afScanDuration + (if step.Sleep? then 1 else 0) <= c.afScanDuration
    && d.slept - c.slept == c.afScanDuration - d.afScanDuration
  }

  lemma SleepShortensScan(c: Control)
    requires Inv(c) && c.at == Sleeping && Scanning(c.afState)
    ensures ScanGoesOn(c, Sleep, Woken(c))
  {
  }

  lemma FocusLeavesScan(c: Control, d: AfDraws)
    requires Inv(c) && c.at == FocusDue && Scanning(c.afState)
    requires !BeginsScan(c, d) && Scanning(Focused(c, d).afState)
    ensures ScanGoesOn(c, RunFocus(d), Focused(c, d))
  {
  }

  lemma SameScanStep(c: Control, step: Step)
    requires Inv(c) && Enabled(c, step) && SameScan(c, step)
    ensures ScanGoesOn(c, step, Apply(c, step))
  {
    match step
    case RunFocus(d) => FocusLeavesScan(c, d);
    case Sleep => SleepShortensScan(c);
    case _ =>
  }

  lemma CyclesGrow(steps: seq<Step>, i: nat, k: nat)
    requires i < k <= |steps|
    ensures Cycles(steps[i..k]) == Cycles(steps[i..k - 1]) + if steps[k - 1].Sleep? then 1 else 0
  {
    assert steps[i..k][..k - i - 1] == steps[i..k - 1];
  }

  /** Every sleep brings the end of the scan nearer, so a scan lasts at most as many cycles as it has time left. */
  lemma {:induction false} ScanIsBounded(states: seq<Control>, steps: seq<Step>, i: nat, k: nat)
    requires IsRun(states, steps) && Init(states[0]) && i < k < |states|
    requires forall m {:trigger SameScan(states[m], steps[m])} :: i <= m < k ==> SameScan(states[m], steps[m])
    ensures Scanning(states[k].afState)
    ensures 0 <= states[k].afScanDuration
    ensures states[k].afScanDuration + Cycles(steps[i..k]) <= states[i].afScanDuration
    ensures states[k].slept - states[i].slept == states[i].afScanDuration - states[k].afScanDuration
    decreases k
  {
    var c, step, d := states[k - 1], steps[k - 1], states[k];
    assert ScanGoesOn(c, step, d) && 0 <= d.afScanDuration by {
      RunKeepsInv(states, steps, k - 1);
      RunKeepsInv(states, steps, k);
      assert Follows(c, step, d);
      assert SameScan(c, step);
      SameScanStep(c, step);
    }
    CyclesGrow(steps, i, k);
    if i < k - 1 {
      ScanIsBounded(states, steps, i, k - 1);
    } else {
      assert steps[i..k - 1] == [];
    }
  }
}
