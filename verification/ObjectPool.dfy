/** The locked object pool: a doubly linked list whose nodes are reused, used as a bounded stack. */
module ObjectPool {

  // ---------- the stack a client sees ----------

  /** `nodes` counts the list cells allocated so far; `items` are the stored objects, the top one last. */
  datatype Pool<V> = Pool(items: seq<V>, nodes: nat, capacity: int, active: int, maxsize: int)

  function NewPool<V>(startsize: int, maxsize: int, made: seq<V>): Pool<V>
    requires |made| == if startsize > 0 then startsize else 1
  {
    if startsize > 0 then Pool(made, startsize, startsize, 0, maxsize) else Pool([], 1, 0, 0, maxsize)
  }

  /** What Pop hands out; `made` is what Creator returns if it is called. */
  function Popped<V>(p: Pool<V>, made: V): V {
    if p.items == [] then made else p.items[|p.items| - 1]
  }

  function AfterPop<V>(p: Pool<V>): Pool<V> {
    p.(items := if p.items == [] then [] else p.items[..|p.items| - 1], active := p.active + 1)
  }

  /** A full pool, unless it is empty as well, drops the object and leaves its count of active ones alone. */
  predicate Drops<V>(p: Pool<V>) {
    p.items != [] && |p.items| >= p.maxsize
  }

  function AfterPush<V>(p: Pool<V>, v: V): Pool<V> {
    if Drops(p) then p
    else
      var grows := p.items != [] && |p.items| >= p.nodes;
      p.(items := p.items + [v], active := p.active - 1,
         nodes := if grows then p.nodes + 1 else p.nodes,
         capacity := if grows then p.capacity + 1 else p.capacity)
  }

  /** A pool that is empty or below its size keeps what is pushed, and the next Pop hands it out again; else it is lost. */
  lemma RoomKeepsObject<V>(p: Pool<V>, v: V, made: V)
    ensures var room := |p.items| == 0 || |p.items| < p.maxsize; var q := AfterPush(p, v);
      if room then q.items == p.items + [v] && q.active == p.active - 1
                   && Popped(q, made) == v && AfterPop(q).items == p.items && AfterPop(q).active == p.active
      else q == p
  {
  }

  /** Only an empty pool hands out a new object. */
  lemma EmptyPoolCreates<V>(p: Pool<V>, made: V)
    ensures |p.items| == 0 ==> Popped(p, made) == made && AfterPop(p).items == []
    ensures |p.items| > 0 ==> p.items == AfterPop(p).items + [Popped(p, made)]
    ensures AfterPop(p).active == p.active + 1
  {
  }

  // ---------- the linked list ----------

  class Node<V> {
    var value: V
    var previous: Node?<V>
    var next: Node?<V>

    constructor (value: V, previous: Node?<V>)
      ensures this.value == value && this.previous == previous && next == null
    {
      this.value := value;
      this.previous := previous;
      this.next := null;
    }
  }

  class SimpleLockStack<V> {
    var current: Node<V>
    var len: int
    var capacity: int
    var active: int
    const maxsize: int
    ghost var nodes: seq<Node<V>>

    /** Each node points back at the one before it and forward at the one after it. */
    ghost predicate Linked()
      reads this, nodes
    {
      && (forall i, j :: 0 <= i < j < |nodes| ==> nodes[i] != nodes[j])
      && (forall i {:trigger nodes[i].previous} ::
            0 <= i < |nodes| ==> nodes[i].previous == if i == 0 then null else nodes[i - 1])
      && (forall i {:trigger nodes[i].next} ::
            0 <= i < |nodes| ==> nodes[i].next == if i == |nodes| - 1 then null else nodes[i + 1])
    }

    ghost predicate Valid()
      reads this, nodes
    {
      && Linked()
      && 0 <= len <= |nodes|
      && |nodes| > 0
      && current == nodes[if len == 0 then 0 else len - 1]
    }

    /** The values of the first len nodes; whatever the nodes above hold is stale. */
    ghost function Contents(): Pool<V>
      reads this, nodes
      requires Valid()
    {
      Pool(ValuesOf(nodes, len), |nodes|, capacity, active, maxsize)
    }

    static ghost function ValuesOf(ns: seq<Node<V>>, n: nat): seq<V>
      reads ns
      requires n <= |ns|
    {
      seq(n, i requires 0 <= i < |ns| reads ns => ns[i].value)
    }

    /** `made` are the objects that creator returns, call by call; it is called once even for an empty pool. */
    constructor (startsize: int, maxsize: int, made: seq<V>)
      requires |made| == if startsize > 0 then startsize else 1
      ensures Valid() && fresh(nodes)
      ensures Contents() == NewPool(startsize, maxsize, made)
    {
      var first := new Node(made[0], null);
      this.maxsize := maxsize;
      current := first;
      len, capacity, active := 0, 0, 0;
      nodes := [first];
      new;
      if startsize > 0 {
        var last := current;
        for i := 1 to startsize
          invariant |nodes| == i && fresh(nodes) && last == nodes[i - 1] && current == nodes[0]
          invariant Linked()
          invariant forall k :: 0 <= k < i ==> nodes[k].value == made[k]
          invariant len == capacity == active == 0 && this.maxsize == maxsize
        {
          var e := new Node(made[i], last);
          last.next := e;
          last := e;
          nodes := nodes + [e];
        }
        capacity, len, active := startsize, startsize, 0;
        current := last;
      }
    }

    method Pop(made: V) returns (value: V)
      requires Valid()
      modifies this
      ensures Valid() && nodes == old(nodes)
      ensures value == Popped(old(Contents()), made)
      ensures Contents() == AfterPop(old(Contents()))
    {
      if len == 0 {
        value := made;
      } else {
        value := current.value;
        len := len - 1;
        if current.previous != null {
          current := current.previous;
        }
      }
      active := active + 1;
    }

    /** Links a new node behind the last one. */
    method AddNode(value: V)
      requires Valid() && current.next == null && len > 0
      modifies `capacity, `nodes, current`next
      ensures Linked() && |nodes| == |old(nodes)| + 1 && nodes[..|old(nodes)|] == old(nodes)
      ensures fresh(nodes[|old(nodes)|]) && nodes[|old(nodes)|].value == value && capacity == old(capacity) + 1
    {
      var e := new Node(value, current);
      current.next := e;
      capacity := capacity + 1;
      nodes := nodes + [e];
    }

    method Push(value: V)
      requires Valid()
      modifies this, nodes
      ensures Valid() && old(nodes) <= nodes && fresh(nodes[|old(nodes)|..])
      ensures Contents() == AfterPush(old(Contents()), value)
    {
      if len == 0 {
        current.value := value;
      } else if len < maxsize {
        if current.next == null {
          AddNode(value);
        } else {
          current.next.value := value;
        }
        current := current.next;
      } else {
        return;
      }
      len := len + 1;
      active := active - 1;
    }

    method Len() returns (n: int)
      requires Valid()
      ensures n == |Contents().items|
    {
      n := len;
    }
  }

  // ---------- every history of clients ----------

  datatype Op<V> = PopOp(made: V) | PushOp(v: V)

  /**
   * The pool and its clients: what they hold, what Creator has ever returned, how many Pops called it, how many
   * Pushes were dropped and how long the pool has ever been.
   */
  datatype World<V> = World(pool: Pool<V>, held: multiset<V>, issued: set<V>, created: nat, dropped: nat, high: nat)

  ghost function Start<V>(startsize: int, maxsize: int, made: seq<V>): World<V>
    requires |made| == if startsize > 0 then startsize else 1
  {
    var p := NewPool(startsize, maxsize, made);
    World(p, multiset{}, set v | v in made, 0, 0, |p.items|)
  }

  /** Creator never returns an object twice, and a client pushes only what it holds. */
  ghost predicate Legal<V>(w: World<V>, op: Op<V>) {
    match op
    case PopOp(made) => w.pool.items == [] ==> made !in w.issued
    case PushOp(v) => v in w.held
  }

  ghost function Act<V>(w: World<V>, op: Op<V>): World<V> {
    match op
    case PopOp(made) =>
      var empty := w.pool.items == [];
      w.(pool := AfterPop(w.pool), held := w.held + multiset{Popped(w.pool, made)},
         issued := if empty then w.issued + {made} else w.issued,
         created := if empty then w.created + 1 else w.created)
    case PushOp(v) =>
      var p := AfterPush(w.pool, v);
      w.(pool := p, held := w.held - multiset{v},
         dropped := if Drops(w.pool) then w.dropped + 1 else w.dropped,
         high := if |p.items| > w.high then |p.items| else w.high)
  }

  ghost predicate LegalRun<V>(w: World<V>, ops: seq<Op<V>>)
    decreases |ops|
  {
    ops == [] || (Legal(w, ops[0]) && LegalRun(Act(w, ops[0]), ops[1..]))
  }

  ghost function Run<V>(w: World<V>, ops: seq<Op<V>>): World<V>
    decreases |ops|
  {
    if ops == [] then w else Run(Act(w, ops[0]), ops[1..])
  }

  function Positive(n: int): nat {
    if n > 0 then n else 0
  }

  /** No object is held twice, stored twice, or both held and stored. */
  ghost predicate OwnedOnce<V>(w: World<V>) {
    forall v :: v in w.held + multiset(w.pool.items) ==>
      (w.held + multiset(w.pool.items))[v] == 1 && v in w.issued
  }

  /** Every object ever made is stored, held or was dropped, and `active` counts the last two. */
  ghost predicate Conserved<V>(w: World<V>, startsize: int) {
    && |w.pool.items| + w.pool.active == Positive(startsize) + w.created
    && w.pool.active == |w.held| + w.dropped
  }

  /** Capacity is the high-water mark, which counts one cell less if the pool started empty. */
  ghost predicate Bounded<V>(w: World<V>, startsize: int, maxsize: int) {
    && w.pool.maxsize == maxsize
    && |w.pool.items| <= w.high
    && (w.high <= 1 || w.high <= startsize || w.high <= maxsize)
    && w.pool.nodes == (if w.high > 0 then w.high else 1)
    && w.pool.capacity == (if startsize > 0 then w.high else Positive(w.high - 1))
    && w.high >= startsize
  }

  ghost predicate Inv<V>(w: World<V>, startsize: int, maxsize: int) {
    OwnedOnce(w) && Conserved(w, startsize) && Bounded(w, startsize, maxsize)
  }

  lemma StartInv<V>(startsize: int, maxsize: int, made: seq<V>)
    requires |made| == if startsize > 0 then startsize else 1
    requires forall i, j :: 0 <= i < j < |made| ==> made[i] != made[j]
    ensures Inv(Start(startsize, maxsize, made), startsize, maxsize)
  {
    DistinctOnce(made);
  }

  lemma {:induction false} DistinctOnce<V>(s: seq<V>)
    requires forall i, j :: 0 <= i < j < |s| ==> s[i] != s[j]
    ensures forall v :: v in multiset(s) ==> multiset(s)[v] == 1
  {
    if s != [] {
      var init, last := s[..|s| - 1], s[|s| - 1];
      DistinctOnce(init);
      assert s == init + [last];
      assert last !in init;
    }
  }

  lemma PopKeepsInv<V>(w: World<V>, made: V, startsize: int, maxsize: int)
    requires Inv(w, startsize, maxsize) && Legal(w, PopOp(made))
    ensures Inv(Act(w, PopOp(made)), startsize, maxsize)
  {
    var w' := Act(w, PopOp(made));
    if w.pool.items != [] {
      var init, last := w.pool.items[..|w.pool.items| - 1], w.pool.items[|w.pool.items| - 1];
      assert w.pool.items == init + [last];
      assert w'.held + multiset(w'.pool.items) == w.held + multiset(w.pool.items);
    } else {
      assert made !in w.held + multiset(w.pool.items);
      assert w'.held + multiset(w'.pool.items) == w.held + multiset(w.pool.items) + multiset{made};
    }
  }

  lemma PushKeepsInv<V>(w: World<V>, v: V, startsize: int, maxsize: int)
    requires Inv(w, startsize, maxsize) && Legal(w, PushOp(v))
    ensures Inv(Act(w, PushOp(v)), startsize, maxsize)
  {
    var w' := Act(w, PushOp(v));
    if Drops(w.pool) {
      assert forall u :: u in w'.held + multiset(w'.pool.items) ==>
          (w'.held + multiset(w'.pool.items))[u] <= (w.held + multiset(w.pool.items))[u];
    } else {
      assert w'.held + multiset(w'.pool.items) == w.held + multiset(w.pool.items);
    }
  }

  lemma StepKeepsInv<V>(w: World<V>, op: Op<V>, startsize: int, maxsize: int)
    requires Inv(w, startsize, maxsize) && Legal(w, op)
    ensures Inv(Act(w, op), startsize, maxsize)
  {
    match op
    case PopOp(made) => PopKeepsInv(w, made, startsize, maxsize);
    case PushOp(v) => PushKeepsInv(w, v, startsize, maxsize);
  }

  lemma {:induction false} HistoryInv<V>(w: World<V>, ops: seq<Op<V>>, startsize: int, maxsize: int)
    requires Inv(w, startsize, maxsize) && LegalRun(w, ops)
    ensures Inv(Run(w, ops), startsize, maxsize)
    decreases |ops|
  {
    if ops != [] {
      StepKeepsInv(w, ops[0], startsize, maxsize);
      HistoryInv(Act(w, ops[0]), ops[1..], startsize, maxsize);
    }
  }

  /** After any legal history, ownership, conservation and the bounds hold. */
  lemma PoolHistory<V>(startsize: int, maxsize: int, made: seq<V>, ops: seq<Op<V>>)
    requires |made| == if startsize > 0 then startsize else 1
    requires forall i, j :: 0 <= i < j < |made| ==> made[i] != made[j]
    requires LegalRun(Start(startsize, maxsize, made), ops)
    ensures OwnedOnce(Run(Start(startsize, maxsize, made), ops))
    ensures Conserved(Run(Start(startsize, maxsize, made), ops), startsize)
    ensures Bounded(Run(Start(startsize, maxsize, made), ops), startsize, maxsize)
  {
    StartInv(startsize, maxsize, made);
    HistoryInv(Start(startsize, maxsize, made), ops, startsize, maxsize);
  }
}
