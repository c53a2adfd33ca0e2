/** The readout thread's in-flight queue: a ring of four slots, of which one always stays free. */
module InFlightRing {
  import opened Text
  import opened CameraPipeline

  const K_IN_FLIGHT_QUEUE_SIZE: nat := 4

  /** A slot is cleared when its request is taken out. */
  datatype Slot = Slot(isCapture: bool, request: Option<nat>, buffers: Option<Buffers>)

  const CLEARED: Slot := Slot(false, None, None)

  predicate Filled(slot: Slot) {
    slot.request.Some? && slot.buffers.Some?
  }

  function EntryOf(slot: Slot): Entry
    requires Filled(slot)
  {
    Entry(slot.isCapture, slot.request.value, slot.buffers.value)
  }

  function Wrap(i: nat): (r: nat)
    ensures r < K_IN_FLIGHT_QUEUE_SIZE
    ensures i < K_IN_FLIGHT_QUEUE_SIZE ==> r == i
    ensures K_IN_FLIGHT_QUEUE_SIZE <= i < 2 * K_IN_FLIGHT_QUEUE_SIZE ==> r == i - K_IN_FLIGHT_QUEUE_SIZE
  {
    i % K_IN_FLIGHT_QUEUE_SIZE
  }

  /** How many slots lie between head and tail. */
  function Distance(head: nat, tail: nat): (n: nat)
    requires head < K_IN_FLIGHT_QUEUE_SIZE && tail < K_IN_FLIGHT_QUEUE_SIZE
    ensures n < K_IN_FLIGHT_QUEUE_SIZE && Wrap(head + n) == tail
  {
    if head <= tail then tail - head else tail + K_IN_FLIGHT_QUEUE_SIZE - head
  }

  /** The slot that holds the i-th oldest request. */
  function SlotAt(head: nat, i: nat): (p: nat)
    requires head < K_IN_FLIGHT_QUEUE_SIZE && i < K_IN_FLIGHT_QUEUE_SIZE
    ensures p < K_IN_FLIGHT_QUEUE_SIZE && Age(head, p) == i
  {
    Wrap(head + i)
  }

  /** How far behind head a slot lies. */
  function Age(head: nat, p: nat): nat
    requires head < K_IN_FLIGHT_QUEUE_SIZE && p < K_IN_FLIGHT_QUEUE_SIZE
  {
    Wrap(p + K_IN_FLIGHT_QUEUE_SIZE - head)
  }

  ghost predicate WindowFilled(slots: seq<Slot>, head: nat, n: nat)
    requires |slots| == K_IN_FLIGHT_QUEUE_SIZE && head < K_IN_FLIGHT_QUEUE_SIZE
  {
    forall p :: 0 <= p < K_IN_FLIGHT_QUEUE_SIZE && Age(head, p) < n ==> Filled(slots[p])
  }

  /** The requests in the ring, oldest first; slots outside the window play no part. */
  ghost function Window(slots: seq<Slot>, head: nat, n: nat): seq<Entry>
    requires |slots| == K_IN_FLIGHT_QUEUE_SIZE && head < K_IN_FLIGHT_QUEUE_SIZE && n < K_IN_FLIGHT_QUEUE_SIZE
    requires WindowFilled(slots, head, n)
  {
    seq(n, i requires 0 <= i < n => EntryOf(slots[SlotAt(head, i)]))
  }

  class ReadoutThread {
    const mInFlightQueue: array<Slot>
    var mInFlightHead: nat
    var mInFlightTail: nat
    var mActive: bool
    var mRequestCount: int
    var mIsCapture: bool
    var mRequest: Option<nat>
    var mBuffers: Option<Buffers>
    ghost var at: ReadoutAt

    ghost predicate Valid()
      reads this, mInFlightQueue
    {
      && mInFlightQueue.Length == K_IN_FLIGHT_QUEUE_SIZE
      && mInFlightHead < K_IN_FLIGHT_QUEUE_SIZE && mInFlightTail < K_IN_FLIGHT_QUEUE_SIZE
      && WindowFilled(mInFlightQueue[..], mInFlightHead, Distance(mInFlightHead, mInFlightTail))
    }

    ghost function View(): Readout
      reads this, mInFlightQueue
      requires Valid()
    {
      Readout(at, mActive, Window(mInFlightQueue[..], mInFlightHead, Distance(mInFlightHead, mInFlightTail)),
              mRequestCount, mRequest, mIsCapture, mBuffers)
    }

    constructor ()
      ensures Valid() && fresh(mInFlightQueue)
      ensures View() == Readout(Idle, false, [], 0, None, false, None)
    {
      mInFlightQueue := new Slot[K_IN_FLIGHT_QUEUE_SIZE](_ => CLEARED);
      mInFlightHead, mInFlightTail := 0, 0;
      mActive, mRequestCount, mIsCapture, mRequest, mBuffers := false, 0, false, None, None;
      at := Idle;
    }

    /** readyForNextCapture */
    method IsReady() returns (ready: bool)
      requires Valid()
      ensures ready <==> ReadyForNextCapture(View())
    {
      ready := Wrap(mInFlightTail + 1) != mInFlightHead;
    }

    method SetNextOperation(isCapture: bool, request: nat, buffers: Buffers)
      requires Valid()
      modifies this, mInFlightQueue
      ensures Valid() && View() == Pushed(old(View()), Entry(isCapture, request, buffers))
    {
      var ready := IsReady();
      if !ready {
        return;
      }
      ghost var was, n := mInFlightQueue[..], Distance(mInFlightHead, mInFlightTail);
      mInFlightQueue[mInFlightTail] := Slot(isCapture, Some(request), Some(buffers));
      assert mInFlightQueue[..] == was[mInFlightTail := Slot(isCapture, Some(request), Some(buffers))];
      WindowPushed(was, mInFlightHead, n, Slot(isCapture, Some(request), Some(buffers)));
      mInFlightTail := Wrap(mInFlightTail + 1);
      mRequestCount := mRequestCount + 1;
      if !mActive {
        mActive := true;
      }
      assert Distance(mInFlightHead, mInFlightTail) == n + 1;
    }

    /** The start of threadLoop when no request is at hand: take the oldest one, or go to sleep. */
    method TakeNext()
      requires Valid() && mRequest.None?
      modifies this, mInFlightQueue
      ensures Valid() && View() == Taken(old(View()))
    {
      if mInFlightHead == mInFlightTail {
        mActive := false;
      } else {
        TakeOldest();
      }
    }

    method TakeOldest()
      requires Valid() && mRequest.None? && mInFlightHead != mInFlightTail
      modifies `mInFlightHead, `mRequest, `mIsCapture, `mBuffers, `at, mInFlightQueue
      ensures Valid() && View() == Taken(old(View()))
    {
      var slot := ClearHead();
      mIsCapture := slot.isCapture;
      mRequest := slot.request;
      mBuffers := slot.buffers;
      at := Reading;
    }

    /** Hands out the oldest slot and moves on the head. */
    method ClearHead() returns (slot: Slot)
      requires Valid() && mInFlightHead != mInFlightTail
      modifies `mInFlightHead, mInFlightQueue
      ensures Valid() && Filled(slot) && old(View()).queue == [EntryOf(slot)] + View().queue
    {
      ghost var was, head, n := mInFlightQueue[..], mInFlightHead, Distance(mInFlightHead, mInFlightTail);
      slot := mInFlightQueue[mInFlightHead];
      ghost var cleared := slot.(request := None, buffers := None);
      mInFlightQueue[mInFlightHead] := slot.(request := None, buffers := None);
      WindowTaken(was, head, n, cleared);
      assert mInFlightQueue[..] == was[head := cleared];
      mInFlightHead := Wrap(mInFlightHead + 1);
      assert Distance(mInFlightHead, mInFlightTail) == n - 1;
    }

    method IsStreamInUse(id: int) returns (inUse: bool)
      requires Valid()
      ensures inUse <==> ReadoutUses(View(), id)
    {
      var i := mInFlightHead;
      ghost var k := 0;
      ghost var queue := View().queue;
      while i != mInFlightTail
        invariant 0 <= k <= |queue| && i == Wrap(mInFlightHead + k)
        invariant forall j :: 0 <= j < k ==> !Mentions(queue[j].buffers, id)
        decreases |queue| - k
      {
        assert k < |queue| && queue[k] == EntryOf(mInFlightQueue[SlotAt(mInFlightHead, k)]);
        var found := Search(mInFlightQueue[i].buffers.value, id);
        if found {
          assert Mentions(queue[k].buffers, id);
          return true;
        }
        i := Wrap(i + 1);
        k := k + 1;
      }
      assert k == |queue|;
      if mBuffers.Some? {
        inUse := Search(mBuffers.value, id);
      } else {
        inUse := false;
      }
    }

    method GetInProgressCount() returns (n: int)
      requires Valid()
      ensures n == View().count
    {
      n := mRequestCount;
    }
  }

  method Search(buffers: Buffers, id: int) returns (found: bool)
    ensures found <==> Mentions(buffers, id)
  {
    for i := 0 to |buffers.list|
      invariant forall j :: 0 <= j < i ==> buffers.list[j].streamId != id
    {
      if buffers.list[i].streamId == id {
        return true;
      }
    }
    return false;
  }

  lemma WindowPushed(slots: seq<Slot>, head: nat, n: nat, slot: Slot)
    requires |slots| == K_IN_FLIGHT_QUEUE_SIZE && head < K_IN_FLIGHT_QUEUE_SIZE && n < IN_FLIGHT_LIMIT
    requires WindowFilled(slots, head, n) && Filled(slot)
    ensures var after := slots[SlotAt(head, n) := slot];
      WindowFilled(after, head, n + 1) && Window(after, head, n + 1) == Window(slots, head, n) + [EntryOf(slot)]
  {
    var after := slots[SlotAt(head, n) := slot];
    forall p | 0 <= p < K_IN_FLIGHT_QUEUE_SIZE && Age(head, p) < n + 1 ensures Filled(after[p]) {
      assert p != SlotAt(head, n) ==> Age(head, p) < n;
    }
  }

  lemma WindowTaken(slots: seq<Slot>, head: nat, n: nat, slot: Slot)
    requires |slots| == K_IN_FLIGHT_QUEUE_SIZE && head < K_IN_FLIGHT_QUEUE_SIZE && 0 < n <= IN_FLIGHT_LIMIT
    requires WindowFilled(slots, head, n)
    ensures var after := slots[head := slot];
      WindowFilled(after, Wrap(head + 1), n - 1)
      && Window(slots, head, n) == [EntryOf(slots[head])] + Window(after, Wrap(head + 1), n - 1)
  {
    var after, next := slots[head := slot], Wrap(head + 1);
    forall p | 0 <= p < K_IN_FLIGHT_QUEUE_SIZE && Age(next, p) < n - 1 ensures Filled(after[p]) {
      assert p != head && Age(head, p) == Age(next, p) + 1;
    }
    assert SlotAt(head, 0) == head;
    forall i | 0 <= i < n - 1 ensures SlotAt(next, i) == SlotAt(head, i + 1) != head {
    }
  }
}
