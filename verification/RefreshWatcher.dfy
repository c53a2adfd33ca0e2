/**
 * Refresh coalescing: the first caller leads and rebuilds, the callers that arrive meanwhile follow and get the
 * leader's result over a channel. A step is one critical section of timerMutex or one channel operation.
 */
module RefreshWatcher {
  import opened Text

  const CHANNEL_CAPACITY: nat := 10

  /** One call of notifyInProcess. */
  type Call = nat

  /** The error sent, None standing for nil, with the number of the rebuild it comes from. */
  datatype Message = Message(err: Option<int>, epoch: nat)

  /** How listener.Refresh ends. */
  datatype Rebuild = Succeeds | Fails(error: int) | Panics

  /** From Refreshing to the end of Dispatching the leader holds timerMutex. */
  datatype Phase =
    | Idle
    | Counting(leader: Call)
    | Refreshing(leader: Call)
    | Dispatching(leader: Call, err: Option<int>, sent: nat)

  datatype State = State(
    phase: Phase,
    refreshChannelCount: nat,
    refreshChannel: seq<Message>,
    forceRefresh: bool,
    lastError: int,
    epoch: nat,                        // rebuilds begun so far
    waiting: map<Call, nat>,           // followers not yet served, with the epoch they joined
    served: seq<(Call, nat, Message)>, // followers served, with the epoch they joined and what they got
    sentLog: seq<Message>,             // every message ever sent
    arrived: set<Call>
  )

  datatype Step = Arrive(c: Call) | Expire | Refresh(outcome: Rebuild) | Send | Receive(c: Call) | Finish

  ghost predicate Init(s: State) {
    && s.phase == Idle && s.refreshChannelCount == 0 && s.refreshChannel == []
    && s.forceRefresh && s.lastError == -1
    && s.epoch == 0 && s.waiting == map[] && s.served == [] && s.sentLog == [] && s.arrived == {}
  }

  predicate Enabled(s: State, step: Step) {
    match step
    case Arrive(c) => (s.phase.Idle? || s.phase.Counting?) && c !in s.arrived
    case Expire => s.phase.Counting?
    case Refresh(_) => s.phase.Refreshing?
    case Send => s.phase.Dispatching? && s.phase.sent < s.refreshChannelCount && |s.refreshChannel| < CHANNEL_CAPACITY
    case Receive(c) => c in s.waiting && s.refreshChannel != []
    case Finish => s.phase.Dispatching? && s.phase.sent >= s.refreshChannelCount
  }

  function Apply(s: State, step: Step): State
    requires Enabled(s, step)
  {
    match step
    case Arrive(c) =>
      var t := s.(forceRefresh := true, arrived := s.arrived + {c});
      if s.phase.Counting?
      then t.(refreshChannelCount := s.refreshChannelCount + 1, waiting := s.waiting[c := s.epoch])
      else t.(phase := Counting(c), epoch := s.epoch + 1)
    case Expire => s.(phase := Refreshing(s.phase.leader))
    case Refresh(outcome) =>
      (match outcome
       case Succeeds => s.(phase := Dispatching(s.phase.leader, None, 0), lastError := -1, forceRefresh := false)
       case Fails(e) => s.(phase := Dispatching(s.phase.leader, Some(e), 0))
       case Panics => s.(phase := Dispatching(s.phase.leader, None, 0)))
    case Send =>
      var m := Message(s.phase.err, s.epoch);
      s.(refreshChannel := s.refreshChannel + [m], sentLog := s.sentLog + [m], phase := s.phase.(sent := s.phase.sent + 1))
    case Receive(c) =>
      s.(refreshChannel := s.refreshChannel[1..], waiting := map d | d in s.waiting && d != c :: s.waiting[d],
         served := s.served + [(c, s.waiting[c], s.refreshChannel[0])])
    case Finish => s.(phase := Idle, refreshChannelCount := 0)
  }

  // ---------- what every run keeps ----------

  function Unsent(s: State): int {
    if s.phase.Dispatching? then s.refreshChannelCount - s.phase.sent else s.refreshChannelCount
  }

  function MessagesOf(served: seq<(Call, nat, Message)>): seq<Message> {
    seq(|served|, i requires 0 <= i < |served| => served[i].2)
  }

  /** Followers still blocked equal the messages they will get; messages come out in the order they were sent. */
  ghost predicate Inv(s: State) {
    && |s.refreshChannel| <= CHANNEL_CAPACITY
    && 0 <= Unsent(s)
    && (s.phase.Idle? ==> s.refreshChannelCount == 0)
    && (s.phase.Counting? || s.phase.Refreshing? ==> s.forceRefresh)
    && |s.waiting| == |s.refreshChannel| + Unsent(s)
    && s.sentLog == MessagesOf(s.served) + s.refreshChannel
    && ServedOnce(s)
  }

  /** Every call is the leader, waits, or was served exactly once. */
  ghost predicate ServedOnce(s: State) {
    && s.waiting.Keys <= s.arrived
    && (forall i :: 0 <= i < |s.served| ==> s.served[i].0 in s.arrived && s.served[i].0 !in s.waiting)
    && (forall i, j :: 0 <= i < j < |s.served| ==> s.served[i].0 != s.served[j].0)
    && (!s.phase.Idle? ==> s.phase.leader in s.arrived && s.phase.leader !in s.waiting
                           && forall i :: 0 <= i < |s.served| ==> s.served[i].0 != s.phase.leader)
  }

  lemma ServedOnceKept(s: State, step: Step)
    requires ServedOnce(s) && Enabled(s, step)
    ensures ServedOnce(Apply(s, step))
  {
  }

  lemma StepKeepsInv(s: State, step: Step)
    requires Inv(s) && Enabled(s, step)
    ensures Inv(Apply(s, step))
  {
    ServedOnceKept(s, step);
    var t := Apply(s, step);
    match step
    case Arrive(c) =>
      if s.phase.Counting? {
        assert t.waiting.Keys == s.waiting.Keys + {c};
      }
    case Send =>
      assert MessagesOf(s.served) + s.refreshChannel + [Message(s.phase.err, s.epoch)]
          == MessagesOf(s.served) + (s.refreshChannel + [Message(s.phase.err, s.epoch)]);
    case Receive(c) =>
      assert t.waiting.Keys == s.waiting.Keys - {c};
      assert MessagesOf(t.served) == MessagesOf(s.served) + [s.refreshChannel[0]];
      assert s.refreshChannel == [s.refreshChannel[0]] + t.refreshChannel;
    case _ =>
  }

  ghost predicate IsRun(states: seq<State>, steps: seq<Step>) {
    && |states| == |steps| + 1
    && forall i {:trigger steps[i]} :: 0 <= i < |steps| ==>
         Enabled(states[i], steps[i]) && states[i + 1] == Apply(states[i], steps[i])
  }

  /** Message conservation over every interleaving of any number of calls. */
  lemma {:induction false} RunKeepsInv(states: seq<State>, steps: seq<Step>, k: nat)
    requires IsRun(states, steps) && Inv(states[0]) && k < |states|
    ensures Inv(states[k])
  {
    if k > 0 {
      RunKeepsInv(states, steps, k - 1);
      assert Enabled(states[k - 1], steps[k - 1]);
      StepKeepsInv(states[k - 1], steps[k - 1]);
    }
  }

  lemma InitInv(s: State)
    requires Init(s)
    ensures Inv(s)
  {
  }

  // ---------- no deadlock, and an end ----------

  /** A leader facing a full channel always has a follower that can make room. */
  lemma FullChannelHasReader(s: State)
    requires Inv(s) && s.phase.Dispatching? && |s.refreshChannel| == CHANNEL_CAPACITY
    ensures exists c :: Enabled(s, Receive(c))
  {
    assert |s.waiting| > 0;
    assert s.waiting.Keys != {};
    var c :| c in s.waiting;
    assert Enabled(s, Receive(c));
  }

  /** A state in which nothing but a new call can happen has nobody left inside. */
  lemma StuckOnlyWhenEmpty(s: State)
    requires Inv(s)
    requires forall step :: Enabled(s, step) ==> step.Arrive?
    ensures s.phase.Idle? && s.waiting == map[] && s.refreshChannel == [] && s.sentLog == MessagesOf(s.served)
  {
    assert !Enabled(s, Expire) && !Enabled(s, Refresh(Succeeds)) && !Enabled(s, Send) && !Enabled(s, Finish);
    if s.phase.Dispatching? && |s.refreshChannel| == CHANNEL_CAPACITY {
      FullChannelHasReader(s);
    }
    if s.refreshChannel != [] {
      assert s.waiting.Keys != {};
      var c :| c in s.waiting;
      assert Enabled(s, Receive(c));
    }
    assert |s.waiting.Keys| == 0;
  }

  /** What is left to do for the calls already inside. */
  function Work(s: State): int {
    2 * Unsent(s) + |s.refreshChannel|
      + (match s.phase case Idle => 0 case Dispatching(_, _, _) => 1 case Refreshing(_) => 2 case Counting(_) => 3)
  }

  /** The steps a call brings: a leader expires, refreshes and finishes; a follower is sent a message and receives it. */
  function Brings(s: State, step: Step): nat {
    if !step.Arrive? then 0 else if s.phase.Idle? then 3 else 2
  }

  /** Every other step is one of those brought by a call. */
  lemma StepDoesWork(s: State, step: Step)
    requires Inv(s) && Enabled(s, step)
    ensures Work(Apply(s, step)) == Work(s) + if step.Arrive? then Brings(s, step) else -1
    ensures 0 <= Work(Apply(s, step))
  {
    StepKeepsInv(s, step);
  }

  lemma NoWorkWhenEmpty(s: State)
    requires Inv(s)
    ensures Work(s) == 0 <==> s.phase.Idle? && s.waiting == map[] && s.refreshChannel == []
  {
    assert |s.waiting| == 0 <==> s.waiting == map[];
  }

  /** What the calls that arrive in a run take in all, their arrivals included. */
  function Demand(states: seq<State>, steps: seq<Step>): nat
    requires |states| == |steps| + 1
  {
    if steps == [] then 0
    else
      var n := |steps| - 1;
      Demand(states[..n + 1], steps[..n]) + if steps[n].Arrive? then 1 + Brings(states[n], steps[n]) else 0
  }

  /**
   * Over every run, whatever arrives when: the steps taken and those left to take are what was left at the start and
   * what the arrivals demand, four steps for a leader and three for a follower.
   */
  lemma {:induction false} RunPaysDemand(states: seq<State>, steps: seq<Step>)
    requires IsRun(states, steps) && Inv(states[0])
    ensures Inv(states[|steps|]) && 0 <= Work(states[|steps|])
    ensures |steps| + Work(states[|steps|]) == Work(states[0]) + Demand(states, steps)
    decreases |steps|
  {
    if steps != [] {
      var n := |steps| - 1;
      RunPaysDemand(states[..n + 1], steps[..n]);
      assert Enabled(states[n], steps[n]);
      StepDoesWork(states[n], steps[n]);
      StepKeepsInv(states[n], steps[n]);
    }
  }

  /** So no run takes more steps, and one that can go on only by a new call has taken them all and left nobody inside. */
  lemma RunEnds(states: seq<State>, steps: seq<Step>)
    requires IsRun(states, steps) && Inv(states[0])
    ensures |steps| <= Work(states[0]) + Demand(states, steps)
    ensures (forall step :: Enabled(states[|steps|], step) ==> step.Arrive?) ==>
              states[|steps|].phase.Idle? && states[|steps|].waiting == map[]
              && |steps| == Work(states[0]) + Demand(states, steps)
  {
    RunPaysDemand(states, steps);
    if forall step :: Enabled(states[|steps|], step) ==> step.Arrive? {
      StuckOnlyWhenEmpty(states[|steps|]);
      NoWorkWhenEmpty(states[|steps|]);
    }
  }

  // ---------- whose result a follower gets ----------

  /** Every message in flight and every follower belong to the rebuild in progress or just over. */
  ghost predicate OneEpoch(s: State) {
    && (forall i :: 0 <= i < |s.refreshChannel| ==> s.refreshChannel[i].epoch == s.epoch)
    && (forall c :: c in s.waiting ==> s.waiting[c] == s.epoch)
    && (forall i :: 0 <= i < |s.served| ==> s.served[i].1 == s.served[i].2.epoch)
  }

  /** A leader that finds the channel drained keeps epochs apart. */
  lemma DrainedKeepsOneEpoch(s: State, step: Step)
    requires Inv(s) && OneEpoch(s) && Enabled(s, step)
    requires step.Arrive? && s.phase.Idle? ==> s.refreshChannel == []
    ensures OneEpoch(Apply(s, step))
  {
    if step.Arrive? && s.phase.Idle? {
      assert |s.waiting.Keys| == 0;
    }
  }

  /** Every leader of the run starts on an empty channel. */
  ghost predicate LeadsDrained(states: seq<State>, steps: seq<Step>)
    requires |states| == |steps| + 1
  {
    forall i {:trigger steps[i]} :: 0 <= i < |steps| ==>
      (steps[i].Arrive? && states[i].phase.Idle? ==> states[i].refreshChannel == [])
  }

  /** Then, over the whole run, every follower gets the result of the rebuild it joined. */
  lemma {:induction false} DrainedRunKeepsOneEpoch(states: seq<State>, steps: seq<Step>, k: nat)
    requires IsRun(states, steps) && Inv(states[0]) && OneEpoch(states[0]) && LeadsDrained(states, steps)
    requires k < |states|
    ensures Inv(states[k]) && OneEpoch(states[k])
  {
    if k > 0 {
      DrainedRunKeepsOneEpoch(states, steps, k - 1);
      assert Enabled(states[k - 1], steps[k - 1]);
      StepKeepsInv(states[k - 1], steps[k - 1]);
      DrainedKeepsOneEpoch(states[k - 1], steps[k - 1]);
    }
  }

  /** A message is never younger than the rebuild counter. */
  ghost predicate NothingFromTheFuture(s: State) {
    forall i :: 0 <= i < |s.refreshChannel| ==> s.refreshChannel[i].epoch <= s.epoch
  }

  lemma {:induction false} RunKeepsPast(states: seq<State>, steps: seq<Step>, k: nat)
    requires IsRun(states, steps) && NothingFromTheFuture(states[0]) && k < |states|
    ensures NothingFromTheFuture(states[k])
  {
    if k > 0 {
      RunKeepsPast(states, steps, k - 1);
      assert Enabled(states[k - 1], steps[k - 1]);
    }
  }

  lemma {:induction false} FreshCall(calls: set<Call>) returns (c: Call)
    ensures forall d :: d in calls ==> d < c
    decreases |calls|
  {
    if calls == {} {
      c := 0;
    } else {
      var d :| d in calls;
      var low := FreshCall(calls - {d});
      c := if low <= d then d + 1 else low;
      assert forall e :: e in calls ==> e == d || e in calls - {d};
    }
  }

  /** Some follower has been served the result of another rebuild than the one it joined. */
  predicate ServedStale(s: State) {
    exists i :: 0 <= i < |s.served| && s.served[i].1 != s.served[i].2.epoch
  }

  /** Whatever went before, once a leader starts on a channel that is not empty, a follower may be served wrongly. */
  lemma UndrainedLeaderGoesStale(before: seq<State>, past: seq<Step>, leader: Call)
      returns (states: seq<State>, steps: seq<Step>)
    requires IsRun(before, past) && Init(before[0])
    requires var s := before[|past|]; s.phase.Idle? && Enabled(s, Arrive(leader)) && s.refreshChannel != []
    ensures IsRun(states, steps) && states[0] == Apply(before[|past|], Arrive(leader))
    ensures LeadsDrained(states, steps) && ServedStale(states[|steps|])
  {
    var s := before[|past|];
    RunKeepsPast(before, past, |past|);
    var t := Apply(s, Arrive(leader));
    var follower := FreshCall(t.arrived);
    var joined := Apply(t, Arrive(follower));
    var served := Apply(joined, Receive(follower));
    states, steps := [t, joined, served], [Arrive(follower), Receive(follower)];
    assert served.served[|s.served|] == (follower, s.epoch + 1, s.refreshChannel[0]);
  }

  /** Some continuation serves a follower wrongly although all later leaders start on an empty channel. */
  ghost predicate CanServeStale(s: State) {
    exists states: seq<State>, steps: seq<Step> ::
      IsRun(states, steps) && states[0] == s && LeadsDrained(states, steps) && ServedStale(states[|steps|])
  }

  /**
   * After any run whose leaders all found the channel empty, the next leader can cause a follower to be handed the
   * result of an earlier rebuild exactly if it does not find the channel empty.
   */
  lemma StaleResultIffUndrained(before: seq<State>, past: seq<Step>, leader: Call)
    requires IsRun(before, past) && Init(before[0]) && LeadsDrained(before, past)
    requires var s := before[|past|]; s.phase.Idle? && Enabled(s, Arrive(leader))
    ensures CanServeStale(Apply(before[|past|], Arrive(leader))) <==> before[|past|].refreshChannel != []
  {
    var s := before[|past|];
    var t := Apply(s, Arrive(leader));
    InitInv(before[0]);
    DrainedRunKeepsOneEpoch(before, past, |past|);
    if s.refreshChannel != [] {
      var states, steps := UndrainedLeaderGoesStale(before, past, leader);
      assert states[0] == t;
    } else {
      StepKeepsInv(s, Arrive(leader));
      DrainedKeepsOneEpoch(s, Arrive(leader));
      forall states: seq<State>, steps: seq<Step>
        | IsRun(states, steps) && states[0] == t && LeadsDrained(states, steps)
        ensures !ServedStale(states[|steps|])
      {
        DrainedRunKeepsOneEpoch(states, steps, |steps|);
      }
    }
  }

  /** One rebuild with one follower, which has not looked at the channel when the leader is done. */
  lemma FollowerStillWaits() returns (states: seq<State>, steps: seq<Step>)
    ensures IsRun(states, steps) && Init(states[0])
    ensures states[|steps|] ==
            State(Idle, 0, [Message(None, 1)], false, -1, 1, map[1 := 1], [], [Message(None, 1)], {0, 1})
  {
    var s0 := State(Idle, 0, [], true, -1, 0, map[], [], [], {});
    var s1 := Apply(s0, Arrive(0));
    var s2 := Apply(s1, Arrive(1));
    var s3 := Apply(s2, Expire);
    var s4 := Apply(s3, Refresh(Succeeds));
    var s5 := Apply(s4, Send);
    var s6 := Apply(s5, Finish);
    states, steps := [s0, s1, s2, s3, s4, s5, s6], [Arrive(0), Arrive(1), Expire, Refresh(Succeeds), Send, Finish];
  }

  /** Such a run: before that follower has looked, call 2 leads and call 3 follows, and 3 gets the old result. */
  lemma StaleRun() returns (states: seq<State>, steps: seq<Step>)
    ensures IsRun(states, steps) && Init(states[0]) && ServedStale(states[|steps|])
    ensures states[|steps|].served == [(3, 2, Message(None, 1))]
  {
    var first, past := FollowerStillWaits();
    var n := |past|;
    var s1 := Apply(first[n], Arrive(2));
    var s2 := Apply(s1, Arrive(3));
    var s3 := Apply(s2, Receive(3));
    states, steps := first + [s1, s2, s3], past + [Arrive(2), Arrive(3), Receive(3)];
    forall i | 0 <= i < |steps| ensures Enabled(states[i], steps[i]) && states[i + 1] == Apply(states[i], steps[i]) {
      if i < n {
        assert steps[i] == past[i];
      }
    }
    assert s3.served[0] == (3, 2, Message(None, 1));
  }

  // ---------- the watcher's own fields ----------

  function Errors(ms: seq<Message>): seq<Option<int>> {
    seq(|ms|, i requires 0 <= i < |ms| => ms[i].err)
  }

  class Watcher {
    var forceRefresh: bool
    var lastError: int
    var refreshTimer: bool
    var refreshChannel: seq<Option<int>>
    var refreshChannelCount: nat
    ghost var state: State

    /** The fields are the shared part of the state. */
    ghost predicate Valid()
      reads this
    {
      && Inv(state)
      && forceRefresh == state.forceRefresh && lastError == state.lastError
      && refreshChannel == Errors(state.refreshChannel) && refreshChannelCount == state.refreshChannelCount
      && refreshTimer == !state.phase.Idle?
    }

    constructor ()
      ensures Valid() && Init(state)
    {
      forceRefresh, lastError, refreshTimer := true, -1, false;
      refreshChannel, refreshChannelCount := [], 0;
      state := State(Idle, 0, [], true, -1, 0, map[], [], [], {});
    }

    /** The first critical section: lead if there is no timer, else join the queue. */
    method Register(ghost c: Call) returns (shouldReturn: bool)
      requires Valid() && Enabled(state, Arrive(c))
      modifies this
      ensures Valid() && state == Apply(old(state), Arrive(c))
      ensures shouldReturn <==> c in state.waiting
    {
      forceRefresh := true;
      if refreshTimer {
        shouldReturn := true;
        refreshChannelCount := refreshChannelCount + 1;
      } else {
        shouldReturn := false;
        refreshTimer := true;
      }
      StepKeepsInv(state, Arrive(c));
      state := Apply(state, Arrive(c));
    }

    /** What the leader records once listener.Refresh is over; `err` is what it will send and return. */
    method Record(outcome: Rebuild) returns (err: Option<int>)
      requires Valid() && Enabled(state, Refresh(outcome))
      modifies this
      ensures Valid() && state == Apply(old(state), Refresh(outcome))
      ensures state.phase.Dispatching? && state.phase.err == err
      ensures if outcome.Fails? then err == Some(outcome.error) else err == None
    {
      err := if outcome.Fails? then Some(outcome.error) else None;
      if outcome == Succeeds {
        lastError := -1;
        forceRefresh := false;
      }
      StepKeepsInv(state, Refresh(outcome));
      state := Apply(state, Refresh(outcome));
    }

    /** One round of the dispatch loop; it blocks while the channel is full. */
    method SendOne(x: nat, err: Option<int>)
      requires Valid() && state.phase.Dispatching? && x == state.phase.sent && err == state.phase.err
      requires x < refreshChannelCount && |refreshChannel| < CHANNEL_CAPACITY
      modifies this
      ensures Valid() && state == Apply(old(state), Send)
    {
      StepKeepsInv(state, Send);
      refreshChannel := refreshChannel + [err];
      state := Apply(state, Send);
    }

    /** A follower's receive; it blocks while the channel is empty. */
    method TakeResult(ghost c: Call) returns (err: Option<int>)
      requires Valid() && c in state.waiting && refreshChannel != []
      modifies this
      ensures Valid() && state == Apply(old(state), Receive(c))
      ensures [err] + refreshChannel == old(refreshChannel)
    {
      StepKeepsInv(state, Receive(c));
      err := refreshChannel[0];
      refreshChannel := refreshChannel[1..];
      state := Apply(state, Receive(c));
    }

    /** The end of the deferred dispatch. */
    method Release()
      requires Valid() && Enabled(state, Finish)
      modifies this
      ensures Valid() && state == Apply(old(state), Finish)
    {
      StepKeepsInv(state, Finish);
      refreshChannelCount := 0;
      refreshTimer := false;
      state := Apply(state, Finish);
    }
  }
}
