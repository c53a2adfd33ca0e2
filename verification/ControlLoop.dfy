/**
 * The control thread as the object it is: fields under the input mutex, fields of the thread itself, and methods
 * that switch over the AF mode and, within a mode, over the AF state. Each critical section is shown to be the step
 * of the same name in module ControlThread, so that every interleaving of calls is one of the runs studied there.
 */
module ControlLoop {
  import opened ControlThread

  class Controller {
    // set by requests and triggers, taken by the cycle
    var startAf: bool
    var cancelAf: bool
    var startPrecapture: bool
    var afMode: AfMode
    var afModeChange: bool
    var aeMode: AeMode
    var aeLock: bool

    // reported outside
    var afState: AfState
    var aeState: AeState
    var exposureTime: int

    // the cycle's own
    var afScanDuration: int
    var aeScanDuration: int
    var lockAfterPassiveScan: bool

    // history of the latest scan
    ghost var drawn: int
    ghost var slept: int

    /** The object together with a cycle that stands at `at` and holds the locals `l`. */
    ghost function View(at: At, l: Local): (c: Control)
      reads this
    {
      Control(Inputs(startAf, cancelAf, startPrecapture, afMode, afModeChange, aeMode, aeLock), afState, aeState,
              exposureTime, afScanDuration, aeScanDuration, lockAfterPassiveScan, at, l, drawn, slept)
    }

    ghost function FocusOf(state: AfState): Focus
      reads this
    {
      Focus(state, afScanDuration, lockAfterPassiveScan)
    }

    constructor (lock: bool, l: Local)
      requires l.afMode == Auto
      ensures Init(View(LoopTop, l)) && aeLock == lock
    {
      startAf, cancelAf, startPrecapture := false, false, false;
      afMode, afModeChange, aeMode, aeLock := Auto, false, AeOn, lock;
      afState, aeState, exposureTime := Inactive, AeInactive, NORMAL_EXPOSURE_TIME;
      afScanDuration, aeScanDuration, lockAfterPassiveScan := 0, 0, false;
    }

    method ProcessRequest(q: Request, ghost at: At, ghost l: Local)
      modifies `startAf, `cancelAf, `afMode, `afModeChange, `aeMode, `aeLock, `aeState
      ensures View(at, l) == Requested(old(View(at, l)), q)
    {
      ghost var after := Requested(View(at, l), q);
      if q.ModeOff? {
        afMode, aeLock, aeMode := AfOff, true, AeOff;
        afModeChange, startAf, cancelAf := true, false, true;
        aeState := AeInactive;
        assert View(at, l) == after;
      } else {
        TakeAfMode(q.afMode);
        aeMode := q.aeMode;
        if aeLock && !q.aeLock {
          aeState := AeInactive;
        }
        aeLock := q.aeLock;
        assert View(at, l) == after;
      }
    }

    method TakeAfMode(mode: AfMode)
      modifies `startAf, `cancelAf, `afMode, `afModeChange
      ensures afMode == mode && afModeChange == (old(afModeChange) || mode != old(afMode))
      ensures startAf == (old(startAf) && mode == old(afMode)) && cancelAf == (old(cancelAf) && mode == old(afMode))
    {
      if afMode != mode {
        afMode := mode;
        afModeChange := true;
        startAf := false;
        cancelAf := false;
      }
    }

    method TriggerAction(t: Trigger, ghost at: At, ghost l: Local)
      modifies `startAf, `cancelAf, `startPrecapture
      ensures View(at, l) == Triggered(old(View(at, l)), t)
    {
      match t
      case Autofocus =>
        startAf := true;
        cancelAf := false;
      case CancelAutofocus =>
        startAf := false;
        cancelAf := true;
      case PrecaptureMetering =>
        startPrecapture := true;
    }

    /** The first critical section of the cycle. */
    method TakeInputs(ghost before: Local) returns (l: Local)
      modifies `startAf, `cancelAf, `afModeChange, `startPrecapture
      ensures View(Resetting, l) == Begun(old(View(LoopTop, before)))
    {
      var triggered, cancelled, precapture := false, false, false;
      if startAf {
        triggered := true;
        startAf := false;
      } else if cancelAf {
        cancelled := true;
        cancelAf := false;
      }
      var change := afModeChange;
      afModeChange := false;
      if startPrecapture {
        precapture := true;
        startPrecapture := false;
      }
      l := Local(triggered, cancelled, change, afState, afMode, precapture, aeState, aeMode, aeLock,
                 CONTROL_CYCLE_DELAY);
    }

    method ResetIfAsked(l: Local) returns (m: Local)
      modifies `afState, `afScanDuration, `lockAfterPassiveScan
      ensures View(FocusDue, m) == WasReset(old(View(Resetting, l)))
    {
      m := l;
      if l.afCancelled || l.afModeChange {
        m := m.(afState := Inactive);
        afState := m.afState;
        afScanDuration := 0;
        lockAfterPassiveScan := false;
      }
    }

    method ProcessAfTrigger(mode: AfMode, s: AfState, r: Random) returns (t: AfState)
      modifies `afScanDuration, `lockAfterPassiveScan
      ensures FocusOf(t) == AfterTrigger(mode, old(FocusOf(s)), r)
    {
      t := s;
      match mode
      case AfOff =>
      case Edof =>
      case OtherAfMode(_) =>
      case Macro => t := StartFocusCycle(s, r);
      case Auto => t := StartFocusCycle(s, r);
      case ContinuousPicture =>
        match s {
          case PassiveScan => lockAfterPassiveScan := true;
          case Inactive => t := NotFocusedLocked;
          case PassiveFocused => t := FocusedLocked;
          case _ =>
        }
      case ContinuousVideo =>
        match s {
          case PassiveScan => t := NotFocusedLocked;
          case Inactive => t := NotFocusedLocked;
          case PassiveFocused => t := FocusedLocked;
          case _ =>
        }
    }

    method StartFocusCycle(s: AfState, r: Random) returns (t: AfState)
      modifies `afScanDuration
      ensures FocusOf(t) == StartOnTrigger(old(FocusOf(s)), r)
    {
      t := s;
      match s
      case Inactive => t := BeginActiveScan(r);
      case FocusedLocked => t := BeginActiveScan(r);
      case NotFocusedLocked => t := BeginActiveScan(r);
      case _ =>
    }

    method BeginActiveScan(r: Random) returns (t: AfState)
      modifies `afScanDuration
      ensures t == ActiveScan && afScanDuration == Draw(r, MIN_AF_DURATION, MAX_AF_DURATION)
    {
      afScanDuration := Draw(r, MIN_AF_DURATION, MAX_AF_DURATION);
      t := ActiveScan;
    }

    method MaybeStartAfScan(mode: AfMode, s: AfState, d: AfDraws) returns (t: AfState)
      modifies `afScanDuration
      ensures FocusOf(t) == MaybeStarted(mode, old(FocusOf(s)), d)
    {
      t := s;
      if (mode == ContinuousVideo || mode == ContinuousPicture) && (s == Inactive || s == PassiveFocused) {
        if d.start < CONTINUOUS_AF_START_RATE {
          afScanDuration := Draw(d.duration, MIN_AF_DURATION, MAX_AF_DURATION);
          t := PassiveScan;
        }
      }
    }

    method UpdateAfScan(mode: AfMode, s: AfState, maxSleep: int, r: Random) returns (t: AfState, sleep: int)
      requires maxSleep == CONTROL_CYCLE_DELAY
      modifies `lockAfterPassiveScan
      ensures FocusOf(t) == ScanUpdated(mode, old(FocusOf(s)), r)
      ensures Scanning(t) ==> sleep == AfSleep(FocusOf(t))
      ensures !Scanning(t) ==> sleep == maxSleep
    {
      t, sleep := s, maxSleep;
      if !(s == ActiveScan || s == PassiveScan) {
        return;
      }
      if afScanDuration <= 0 {
        match mode {
          case Macro => t := if r < AF_SUCCESS_RATE then FocusedLocked else NotFocusedLocked;
          case Auto => t := if r < AF_SUCCESS_RATE then FocusedLocked else NotFocusedLocked;
          case ContinuousPicture =>
            if lockAfterPassiveScan {
              t := FocusedLocked;
              lockAfterPassiveScan := false;
            } else {
              t := PassiveFocused;
            }
          case ContinuousVideo => t := PassiveFocused;
          case _ =>
        }
      } else if afScanDuration <= maxSleep {
        sleep := afScanDuration;
      }
    }

    /** A trigger is answered before a passive scan may start. */
    method StartFocusPart(l: Local, d: AfDraws) returns (s: AfState)
      modifies `afScanDuration, `lockAfterPassiveScan
      ensures FocusOf(s) == FocusStarted(old(View(FocusDue, l)), d)
    {
      s := l.afState;
      if l.afTriggered {
        s := ProcessAfTrigger(l.afMode, s, d.triggered);
      }
      s := MaybeStartAfScan(l.afMode, s, d);
    }

    /** The auto-focus part of the cycle, up to the report of its outcome. */
    method RunFocusPart(l: Local, d: AfDraws) returns (m: Local)
      requires l.nextSleep == CONTROL_CYCLE_DELAY
      modifies `afScanDuration, `lockAfterPassiveScan, `afState, `drawn, `slept
      ensures View(ExposureDue, m) == Focused(old(View(FocusDue, l)), d)
    {
      ghost var begins := BeginsScan(View(FocusDue, l), d);
      var s := StartFocusPart(l, d);
      m := FinishFocusPart(l, s, begins, d.success);
    }

    method FinishFocusPart(l: Local, s: AfState, ghost begins: bool, r: Random) returns (m: Local)
      requires l.nextSleep == CONTROL_CYCLE_DELAY
      modifies `lockAfterPassiveScan, `afState, `drawn, `slept
      ensures View(ExposureDue, m) == ScanLookedAt(old(View(FocusDue, l)), old(FocusOf(s)), begins, r)
    {
      var t, sleep := UpdateAfScan(l.afMode, s, l.nextSleep, r);
      if begins {
        drawn, slept := afScanDuration, 0;
      }
      afState := t;
      m := l.(afState := t, nextSleep := sleep);
    }

    method ProcessPrecaptureTrigger(mode: AeMode, s: AeState, r: Random) returns (t: AeState)
      modifies `aeScanDuration
      ensures Exposure(t, aeScanDuration, exposureTime) ==
              AfterPrecapture(mode, old(Exposure(s, aeScanDuration, exposureTime)), r)
    {
      t := s;
      if MetersExposure(mode) {
        t := Precapture;
        aeScanDuration := Draw(r, MIN_PRECAPTURE_AE_DURATION, MAX_PRECAPTURE_AE_DURATION);
      }
    }

    method MaybeStartAeScan(mode: AeMode, locked: bool, s: AeState, d: AeDraws) returns (t: AeState)
      modifies `aeScanDuration
      ensures Exposure(t, aeScanDuration, exposureTime) ==
              AeMaybeStarted(mode, locked, old(Exposure(s, aeScanDuration, exposureTime)), d)
    {
      t := s;
      if locked {
        return;
      }
      if MetersExposure(mode) && !(s != AeInactive && s != Converged) {
        if d.start < AE_SCAN_START_RATE {
          aeScanDuration := Draw(d.duration, MIN_AE_DURATION, MAX_AE_DURATION);
          t := Searching;
        }
      }
    }

    method UpdateAeScan(locked: bool, s: AeState, maxSleep: int, r: Random) returns (t: AeState, sleep: int)
      modifies `aeScanDuration, `exposureTime
      ensures Exposure(t, aeScanDuration, exposureTime) ==
              AeUpdated(locked, old(Exposure(s, aeScanDuration, exposureTime)), r)
      ensures sleep == AeSleep(locked, old(Exposure(s, aeScanDuration, exposureTime)), maxSleep)
    {
      t, sleep := s, maxSleep;
      if locked && s != Precapture {
        aeScanDuration := 0;
        t := Locked;
      } else if s == Searching || s == Precapture {
        if aeScanDuration <= 0 {
          t := if locked then Locked else Converged;
          exposureTime := NORMAL_EXPOSURE_TIME;
        } else {
          if aeScanDuration <= maxSleep {
            sleep := aeScanDuration;
          }
          exposureTime := exposureTime + ExposureDelta(r);
          if exposureTime < MIN_EXPOSURE_TIME {
            exposureTime := MIN_EXPOSURE_TIME;
          }
        }
      }
    }

    /** The auto-exposure part of the cycle. */
    method RunExposurePart(l: Local, d: AeDraws) returns (m: Local)
      modifies `aeState, `aeScanDuration, `exposureTime
      ensures View(Sleeping, m) == Exposed(old(View(ExposureDue, l)), d)
    {
      var s := l.aeState;
      if l.precaptureTriggered {
        s := ProcessPrecaptureTrigger(l.aeMode, s, d.precapture);
      }
      s := MaybeStartAeScan(l.aeMode, l.aeLock, s, d);
      var t, sleep := UpdateAeScan(l.aeLock, s, l.nextSleep, d.exposure);
      aeState := t;
      m := l.(aeState := t, nextSleep := sleep);
    }

    /** What follows the sleep. */
    method Wake(l: Local)
      modifies `afScanDuration, `aeScanDuration, `slept
      ensures View(LoopTop, l) == Woken(old(View(Sleeping, l)))
    {
      if afScanDuration > 0 {
        afScanDuration := afScanDuration - l.nextSleep;
      }
      if aeScanDuration > 0 {
        aeScanDuration := aeScanDuration - l.nextSleep;
      }
      slept := slept + l.nextSleep;
    }

    /** A whole cycle during which nothing is requested: five steps of the machine, so the invariant is kept. */
    method ThreadLoop(af: AfDraws, ae: AeDraws, ghost before: Local) returns (l: Local)
      requires Inv(View(LoopTop, before))
      modifies this
      ensures Inv(View(LoopTop, l))
      ensures IsRun([old(View(LoopTop, before))] + CycleStates(old(View(LoopTop, before)), af, ae),
                    CycleSteps(af, ae))
      ensures View(LoopTop, l) == CycleStates(old(View(LoopTop, before)), af, ae)[4]
    {
      ghost var c := View(LoopTop, before);
      l := TakeInputs(before);
      l := ResetIfAsked(l);
      l := RunFocusPart(l, af);
      l := RunExposurePart(l, ae);
      Wake(l);
      CycleKeepsInv(c, af, ae);
    }
  }

  ghost function CycleSteps(af: AfDraws, ae: AeDraws): seq<Step> {
    [Begin, Reset, RunFocus(af), RunExposure(ae), Sleep]
  }

  ghost function CycleStates(c: Control, af: AfDraws, ae: AeDraws): (states: seq<Control>)
    requires c.at == LoopTop
    ensures |states| == 5
  {
    var c1 := Begun(c);
    var c2 := WasReset(c1);
    var c3 := Focused(c2, af);
    var c4 := Exposed(c3, ae);
    [c1, c2, c3, c4, Woken(c4)]
  }

  lemma CycleKeepsInv(c: Control, af: AfDraws, ae: AeDraws)
    requires Inv(c) && c.at == LoopTop
    ensures IsRun([c] + CycleStates(c, af, ae), CycleSteps(af, ae))
    ensures Inv(CycleStates(c, af, ae)[4])
  {
    var states, steps := [c] + CycleStates(c, af, ae), CycleSteps(af, ae);
    StepKeepsInv(states[0], steps[0]);
    StepKeepsInv(states[1], steps[1]);
    StepKeepsInv(states[2], steps[2]);
    StepKeepsInv(states[3], steps[3]);
    StepKeepsInv(states[4], steps[4]);
  }
}
