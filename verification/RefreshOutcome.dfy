/** What the watcher's messages say, told by the steps of the run itself. */
module RefreshOutcome {
  import opened Text
  import opened RefreshWatcher

  /** How the rebuilds of a run ended, in order. */
  function Outcomes(steps: seq<Step>): seq<Rebuild> {
    if steps == [] then []
    else
      var last := steps[|steps| - 1];
      Outcomes(steps[..|steps| - 1]) + if last.Refresh? then [last.outcome] else []
  }

  /** The message tells how the rebuild of its number ended: an error exactly if it failed, and that error. */
  predicate Tells(outcomes: seq<Rebuild>, m: Message) {
    && 1 <= m.epoch <= |outcomes|
    && match outcomes[m.epoch - 1]
       case Fails(x) => m.err == Some(x)
       case Succeeds => m.err == None
       case Panics => m.err == None
  }

  /** The call arrived when all rebuilds before this one were over. */
  ghost predicate JoinedFor(steps: seq<Step>, c: Call, rebuild: nat) {
    exists a :: 0 <= a < |steps| && steps[a] == Arrive(c) && |Outcomes(steps[..a])| + 1 == rebuild
  }

  /** Rebuilds are counted from their first caller on; the messages and the one being sent tell how they ended. */
  ghost predicate Told(s: State, steps: seq<Step>) {
    var outcomes := Outcomes(steps);
    && s.epoch == |outcomes| + (if s.phase.Counting? || s.phase.Refreshing? then 1 else 0)
    && (forall i :: 0 <= i < |s.sentLog| ==> Tells(outcomes, s.sentLog[i]))
    && (s.phase.Dispatching? ==> Tells(outcomes, Message(s.phase.err, s.epoch)))
  }

  ghost predicate Joined(s: State, steps: seq<Step>) {
    && (forall c :: c in s.waiting ==> JoinedFor(steps, c, s.waiting[c]))
    && (forall i :: 0 <= i < |s.served| ==> JoinedFor(steps, s.served[i].0, s.served[i].1))
  }

  lemma OutcomesAfter(steps: seq<Step>, step: Step)
    ensures Outcomes(steps + [step]) == Outcomes(steps) + if step.Refresh? then [step.outcome] else []
  {
    assert (steps + [step])[..|steps|] == steps;
  }

  lemma StepTells(s: State, steps: seq<Step>, step: Step)
    requires Told(s, steps) && Enabled(s, step)
    ensures Told(Apply(s, step), steps + [step])
  {
    OutcomesAfter(steps, step);
    var before, after := Outcomes(steps), Outcomes(steps + [step]);
    forall m | Tells(before, m) ensures Tells(after, m) {
    }
  }

  lemma StillJoinedFor(steps: seq<Step>, step: Step, c: Call, rebuild: nat)
    requires JoinedFor(steps, c, rebuild)
    ensures JoinedFor(steps + [step], c, rebuild)
  {
    var a :| 0 <= a < |steps| && steps[a] == Arrive(c) && |Outcomes(steps[..a])| + 1 == rebuild;
    assert (steps + [step])[a] == Arrive(c) && (steps + [step])[..a] == steps[..a];
  }

  lemma StepJoins(s: State, steps: seq<Step>, step: Step)
    requires Told(s, steps) && Joined(s, steps) && Enabled(s, step)
    ensures Joined(Apply(s, step), steps + [step])
  {
    var t, after := Apply(s, step), steps + [step];
    forall c | c in t.waiting ensures JoinedFor(after, c, t.waiting[c]) {
      if c in s.waiting && t.waiting[c] == s.waiting[c] {
        StillJoinedFor(steps, step, c, s.waiting[c]);
      } else {
        assert after[|steps|] == Arrive(c) && after[..|steps|] == steps;
      }
    }
    forall i | 0 <= i < |t.served| ensures JoinedFor(after, t.served[i].0, t.served[i].1) {
      StillJoinedFor(steps, step, t.served[i].0, t.served[i].1);
    }
  }

  ghost predicate ToldAndJoined(s: State, steps: seq<Step>) {
    Told(s, steps) && Joined(s, steps)
  }

  lemma StepTellsAll(s: State, steps: seq<Step>, step: Step)
    requires ToldAndJoined(s, steps) && Enabled(s, step)
    ensures ToldAndJoined(Apply(s, step), steps + [step])
  {
    StepTells(s, steps, step);
    StepJoins(s, steps, step);
  }

  lemma {:induction false} RunTells(states: seq<State>, steps: seq<Step>, k: nat)
    requires IsRun(states, steps) && Init(states[0]) && k < |states|
    ensures ToldAndJoined(states[k], steps[..k])
  {
    if k == 0 {
      assert steps[..0] == [];
    } else {
      RunTells(states, steps, k - 1);
      assert Enabled(states[k - 1], steps[k - 1]);
      assert steps[..k] == steps[..k - 1] + [steps[k - 1]];
      StepTellsAll(states[k - 1], steps[..k - 1], steps[k - 1]);
    }
  }

  /**
   * Over every run: each message ever sent, and each one a follower got, carries the error of the rebuild of its
   * number exactly if that one failed, and nil if it succeeded or panicked.
   */
  lemma MessagesTellOutcome(states: seq<State>, steps: seq<Step>, k: nat)
    requires IsRun(states, steps) && Init(states[0]) && k < |states|
    ensures forall i :: 0 <= i < |states[k].sentLog| ==> Tells(Outcomes(steps[..k]), states[k].sentLog[i])
    ensures forall i :: 0 <= i < |states[k].served| ==>
              && Tells(Outcomes(steps[..k]), states[k].served[i].2)
              && JoinedFor(steps[..k], states[k].served[i].0, states[k].served[i].1)
  {
    var s := states[k];
    RunTells(states, steps, k);
    InitInv(states[0]);
    RunKeepsInv(states, steps, k);
    forall i | 0 <= i < |s.served| ensures Tells(Outcomes(steps[..k]), s.served[i].2) {
      assert s.served[i].2 == MessagesOf(s.served)[i] == s.sentLog[i];
    }
  }

  /** If every leader started on an empty channel, a follower is told how the rebuild ended that followed its arrival. */
  lemma FollowerIsToldItsOwn(states: seq<State>, steps: seq<Step>, k: nat, i: nat)
    requires IsRun(states, steps) && Init(states[0]) && LeadsDrained(states, steps)
    requires k < |states| && i < |states[k].served|
    ensures var (c, rebuild, m) := states[k].served[i];
      JoinedFor(steps[..k], c, rebuild) && Tells(Outcomes(steps[..k]), Message(m.err, rebuild))
  {
    MessagesTellOutcome(states, steps, k);
    InitInv(states[0]);
    DrainedRunKeepsOneEpoch(states, steps, k);
  }

  /** The channel holds ten messages; the leader waits only when it is full. */
  lemma TenFit(states: seq<State>, steps: seq<Step>, k: nat)
    requires IsRun(states, steps) && Init(states[0]) && k < |states|
    ensures |states[k].refreshChannel| <= 10
    ensures states[k].phase.Dispatching? && states[k].phase.sent < states[k].refreshChannelCount ==>
              (Enabled(states[k], Send) <==> |states[k].refreshChannel| < 10)
  {
    InitInv(states[0]);
    RunKeepsInv(states, steps, k);
  }

  // ---------- when a rebuild is forced ----------

  /** Some call arrived since the last rebuild that succeeded, or none ever did. */
  function MustRebuild(steps: seq<Step>): bool {
    if steps == [] then true
    else
      var last := steps[|steps| - 1];
      if last.Arrive? then true
      else if last == Refresh(Succeeds) then false
      else MustRebuild(steps[..|steps| - 1])
  }

  lemma {:induction false} ForcedUntilSuccess(states: seq<State>, steps: seq<Step>, k: nat)
    requires IsRun(states, steps) && Init(states[0]) && k < |states|
    ensures states[k].forceRefresh == MustRebuild(steps[..k]) && states[k].lastError == -1
  {
    if k > 0 {
      ForcedUntilSuccess(states, steps, k - 1);
      assert Enabled(states[k - 1], steps[k - 1]);
      assert steps[..k][..k - 1] == steps[..k - 1];
    }
  }
}
