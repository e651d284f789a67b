/** The parking lot's queue operations as functions on the queue of a bucket. */
module ParkingQueue {
  import opened Bits
  import opened Sequences

  const NUM_BUCKETS: nat := 64

  /** A waiting thread and the address of the lock it waits for. */
  datatype Waiter = Waiter(key: nat, thread: nat)

  datatype UnparkResult = NoWaiter | NoMoreWaiters | HasMoreWaiters

  /** The bucket of a lock address. */
  function HashAddress(address: nat): (bucket: nat)
    ensures bucket < NUM_BUCKETS
  {
    (address / 8) % NUM_BUCKETS
  }

  /** The source computes it as `(addr >> 3) & (NUM_BUCKETS - 1)`. */
  lemma HashIsShiftAndMask(address: nat)
    ensures HashAddress(address) == And(Shr(address, 3), NUM_BUCKETS - 1)
  {
    ShiftMeaning(address, 3);
    assert Pow2(3) == 8 && Pow2(6) == 64;
    AndLowMask(Shr(address, 3), 6);
  }

  /** Where the first waiter with the key is, or the length if there is none. */
  function FirstOf(queue: seq<Waiter>, key: nat): (i: nat)
    ensures i <= |queue|
    ensures i < |queue| ==> queue[i].key == key
    ensures forall j :: 0 <= j < i ==> queue[j].key != key
  {
    if queue == [] then 0
    else if queue[0].key == key then 0
    else
      var i := FirstOf(queue[1..], key);
      assert forall j :: 1 <= j < i + 1 ==> queue[j] == queue[1..][j - 1];
      i + 1
  }

  predicate HasKey(queue: seq<Waiter>, key: nat) {
    FirstOf(queue, key) < |queue|
  }

  /** The queue after `unpark_one`, and what it reports. */
  function AfterUnpark(queue: seq<Waiter>, key: nat): (rest: seq<Waiter>) {
    if HasKey(queue, key) then Without(queue, FirstOf(queue, key)) else queue
  }

  function ResultOf(queue: seq<Waiter>, key: nat): UnparkResult {
    if !HasKey(queue, key) then NoWaiter
    else if HasKey(AfterUnpark(queue, key), key) then HasMoreWaiters
    else NoMoreWaiters
  }

  /** The waiters of one key, in queue order, and the queue without them. */
  function OfKey(queue: seq<Waiter>, key: nat): (waiters: seq<Waiter>) {
    if queue == [] then []
    else (if queue[0].key == key then [queue[0]] else []) + OfKey(queue[1..], key)
  }

  function NotOfKey(queue: seq<Waiter>, key: nat): (waiters: seq<Waiter>) {
    if queue == [] then []
    else (if queue[0].key == key then [] else [queue[0]]) + NotOfKey(queue[1..], key)
  }

  lemma {:induction false} OfKeyConcat(a: seq<Waiter>, b: seq<Waiter>, key: nat)
    ensures OfKey(a + b, key) == OfKey(a, key) + OfKey(b, key)
  {
    if a == [] {
      assert a + b == b;
    } else {
      OfKeyConcat(a[1..], b, key);
      assert (a + b)[0] == a[0] && (a + b)[1..] == a[1..] + b;
      var first := if a[0].key == key then [a[0]] else [];
      Associative(first, OfKey(a[1..], key), OfKey(b, key));
    }
  }

  lemma {:induction false} NotOfKeyConcat(a: seq<Waiter>, b: seq<Waiter>, key: nat)
    ensures NotOfKey(a + b, key) == NotOfKey(a, key) + NotOfKey(b, key)
  {
    if a == [] {
      assert a + b == b;
    } else {
      NotOfKeyConcat(a[1..], b, key);
      assert (a + b)[0] == a[0] && (a + b)[1..] == a[1..] + b;
      var first := if a[0].key == key then [] else [a[0]];
      Associative(first, NotOfKey(a[1..], key), NotOfKey(b, key));
    }
  }

  lemma {:induction false} OfKeyNone(queue: seq<Waiter>, key: nat)
    requires forall i :: 0 <= i < |queue| ==> queue[i].key != key
    ensures OfKey(queue, key) == []
  {
    if queue != [] {
      OfKeyNone(queue[1..], key);
    }
  }

  lemma HasKeyMeans(queue: seq<Waiter>, key: nat)
    ensures HasKey(queue, key) <==> exists i :: 0 <= i < |queue| && queue[i].key == key
  {
  }

  lemma HasKeyAppend(queue: seq<Waiter>, w: Waiter, key: nat)
    ensures HasKey(queue + [w], key) <==> HasKey(queue, key) || w.key == key
  {
    HasKeyMeans(queue, key);
    HasKeyMeans(queue + [w], key);
    assert (queue + [w])[|queue|] == w;
    if HasKey(queue, key) {
      assert (queue + [w])[FirstOf(queue, key)].key == key;
    }
  }

  /** `unpark_one` takes out the longest waiting thread of its key and nobody
      else, and reports truthfully how many of that key are left. */
  lemma UnparkOneIsExact(queue: seq<Waiter>, key: nat)
    ensures var rest, mine := AfterUnpark(queue, key), OfKey(queue, key);
      && (mine == [] <==> ResultOf(queue, key) == NoWaiter)
      && (|mine| == 1 <==> ResultOf(queue, key) == NoMoreWaiters)
      && (|mine| > 1 <==> ResultOf(queue, key) == HasMoreWaiters)
      && (mine == [] ==> rest == queue)
      && (mine != [] ==> queue[FirstOf(queue, key)] == mine[0] && OfKey(rest, key) == mine[1..])
      && forall k :: k != key ==> OfKey(rest, k) == OfKey(queue, k)
  {
    hide OfKey, FirstOf;
    FirstIsOldest(queue, key);
    FirstIsOldest(AfterUnpark(queue, key), key);
    UnparkTakesOldest(queue, key);
    forall k | k != key
      ensures OfKey(AfterUnpark(queue, key), k) == OfKey(queue, k)
    {
      OtherKeysStay(queue, key, k);
    }
  }

  lemma OtherKeysStay(queue: seq<Waiter>, key: nat, k: nat)
    requires k != key
    ensures OfKey(AfterUnpark(queue, key), k) == OfKey(queue, k)
  {
    hide OfKey, FirstOf;
    if HasKey(queue, key) {
      OfKeyWithout(queue, FirstOf(queue, key), k);
    }
  }

  lemma UnparkTakesOldest(queue: seq<Waiter>, key: nat)
    ensures OfKey(queue, key) != [] ==> OfKey(AfterUnpark(queue, key), key) == OfKey(queue, key)[1..]
  {
    hide FirstOf;
    FirstIsOldest(queue, key);
    if HasKey(queue, key) {
      var i := FirstOf(queue, key);
      OfKeyWithout(queue, i, key);
      OfKeyNone(queue[..i], key);
    }
  }

  lemma OfKeyWithout(queue: seq<Waiter>, i: nat, k: nat)
    requires i < |queue|
    ensures OfKey(queue, k) ==
              OfKey(queue[..i], k) + (if queue[i].key == k then [queue[i]] else []) + OfKey(queue[i + 1..], k)
    ensures OfKey(Without(queue, i), k) == OfKey(queue[..i], k) + OfKey(queue[i + 1..], k)
  {
    assert queue == queue[..i] + queue[i..];
    OfKeyConcat(queue[..i], queue[i..], k);
    assert queue[i..][1..] == queue[i + 1..];
    OfKeyConcat(queue[..i], queue[i + 1..], k);
  }

  lemma FirstIsOldest(queue: seq<Waiter>, key: nat)
    ensures HasKey(queue, key) <==> OfKey(queue, key) != []
    ensures HasKey(queue, key) ==> queue[FirstOf(queue, key)] == OfKey(queue, key)[0]
  {
    var i := FirstOf(queue, key);
    OfKeyNone(queue[..i], key);
    if i < |queue| {
      OfKeyWithout(queue, i, key);
    } else {
      assert queue[..i] == queue;
    }
  }
}

/** A bucket of the parking lot as an object: waiter nodes linked from head to
    tail, and unlinked in place. */
module ParkingLot {
  import opened ParkingQueue
  import opened Sequences

  class WaiterNode {
    const thread: nat
    var key: nat
    var wakeFlag: nat
    var next: WaiterNode?

    constructor (thread: nat)
      ensures this.thread == thread && key == 0 && wakeFlag == 0 && next == null
    {
      this.thread := thread;
      key := 0;
      wakeFlag := 0;
      next := null;
    }
  }

  /** The nodes form a chain from the first to null and hold these waiters. */
  ghost predicate Chain(nodes: seq<WaiterNode>, waiters: seq<Waiter>)
    reads nodes
  {
    && Distinct(nodes) && |waiters| == |nodes|
    && (forall i :: 0 <= i < |nodes| ==> nodes[i].next == At(nodes, i + 1, null))
    && (forall i :: 0 <= i < |nodes| ==> waiters[i] == Waiter(nodes[i].key, nodes[i].thread))
  }

  ghost predicate Apart(a: seq<WaiterNode>, b: seq<WaiterNode>) {
    forall i, j :: 0 <= i < |a| && 0 <= j < |b| ==> a[i] != b[j]
  }

  ghost predicate Within(nodes: seq<WaiterNode>, all: set<WaiterNode>) {
    forall i :: 0 <= i < |nodes| ==> nodes[i] in all
  }

  lemma AfterMove(nodes: seq<WaiterNode>, woken: seq<WaiterNode>, k: nat, all: set<WaiterNode>)
    requires Distinct(nodes) && Apart(nodes, woken) && Within(nodes, all) && Within(woken, all) && k < |nodes|
    ensures Apart(Without(nodes, k), woken) && Apart(Without(nodes, k), woken + [nodes[k]]) && nodes[k] !in woken
    ensures Within(Without(nodes, k), all) && Within(woken + [nodes[k]], all)
  {
    Removed(nodes, k, null);
  }

  /** The items that stand where the queue holds a waiter of the key, and the others. */
  ghost function Picked<T>(items: seq<T>, queue: seq<Waiter>, key: nat): (picked: seq<T>)
    requires |items| == |queue|
    ensures forall x :: x in picked ==> x in items
  {
    if items == [] then []
    else (if queue[0].key == key then [items[0]] else []) + Picked(items[1..], queue[1..], key)
  }

  ghost function Left<T>(items: seq<T>, queue: seq<Waiter>, key: nat): (left: seq<T>)
    requires |items| == |queue|
    ensures forall x :: x in left ==> x in items
  {
    if items == [] then []
    else (if queue[0].key == key then [] else [items[0]]) + Left(items[1..], queue[1..], key)
  }

  lemma {:induction false} PickedIsOfKey(queue: seq<Waiter>, key: nat)
    ensures Picked(queue, queue, key) == OfKey(queue, key) && Left(queue, queue, key) == NotOfKey(queue, key)
  {
    if queue != [] {
      PickedIsOfKey(queue[1..], key);
    }
  }

  /** What visiting the waiter at k does to the split by key. */
  lemma SplitOne<T>(items: seq<T>, queue: seq<Waiter>, k: nat, key: nat)
    requires k < |queue| == |items|
    ensures queue[k].key == key ==>
              var items', queue' := Without(items, k), Without(queue, k);
              && Picked(items[k..], queue[k..], key) == [items[k]] + Picked(items'[k..], queue'[k..], key)
              && items[..k] + Left(items[k..], queue[k..], key) == items'[..k] + Left(items'[k..], queue'[k..], key)
    ensures queue[k].key != key ==>
              && Picked(items[k..], queue[k..], key) == Picked(items[k + 1..], queue[k + 1..], key)
              && items[..k] + Left(items[k..], queue[k..], key) ==
                 items[..k + 1] + Left(items[k + 1..], queue[k + 1..], key)
  {
    assert queue[k..][1..] == queue[k + 1..] && items[k..][1..] == items[k + 1..];
    if queue[k].key == key {
      assert Without(queue, k)[k..] == queue[k + 1..];
      assert Without(items, k)[k..] == items[k + 1..] && Without(items, k)[..k] == items[..k];
    }
  }

  /** What a visit of `unpark_all` leaves to be said: the items kept so far and
      those still to come, and the items taken so far and those still to come. */
  ghost predicate Splits<T>(items: seq<T>, queue: seq<Waiter>, k: nat, taken: seq<T>, key: nat,
                            others: seq<T>, mine: seq<T>)
  {
    && k <= |queue| == |items|
    && others == items[..k] + Left(items[k..], queue[k..], key)
    && mine == taken + Picked(items[k..], queue[k..], key)
  }

  lemma Visit<T>(items: seq<T>, queue: seq<Waiter>, k: nat, taken: seq<T>, key: nat, others: seq<T>, mine: seq<T>)
    requires Splits(items, queue, k, taken, key, others, mine)
    ensures k < |queue| && queue[k].key == key ==>
              Splits(Without(items, k), Without(queue, k), k, taken + [items[k]], key, others, mine)
    ensures k < |queue| && queue[k].key != key ==>
              Splits(items, queue, k + 1, taken, key, others, mine)
    ensures k == |queue| ==> others == items && mine == taken
  {
    if k < |queue| {
      SplitOne(items, queue, k, key);
      Associative(taken, [items[k]], Picked(Without(items, k)[k..], Without(queue, k)[k..], key));
    } else {
      assert items[..k] == items;
    }
  }

  /** The four pointers that the loop of `unpark_all` moves along. */
  datatype Cursor = Cursor(prev: WaiterNode?, curr: WaiterNode?, first: WaiterNode?, last: WaiterNode?)

  class Bucket {
    var head: WaiterNode?
    var tail: WaiterNode?
    ghost var nodes: seq<WaiterNode>
    /** Who waits here, in order. */
    ghost var queue: seq<Waiter>

    ghost predicate Valid()
      reads this, nodes
    {
      && Chain(nodes, queue)
      && head == At(nodes, 0, null) && tail == At(nodes, |nodes| - 1, null)
    }

    constructor ()
      ensures Valid() && queue == []
    {
      head := null;
      tail := null;
      nodes := [];
      queue := [];
    }

    /** Links a node behind the last one of a list: the bucket, or the nodes to wake. */
    static method Append(first: WaiterNode?, last: WaiterNode?, node: WaiterNode,
                         ghost list: seq<WaiterNode>, ghost waiters: seq<Waiter>)
      returns (first': WaiterNode?)
      requires Chain(list, waiters) && first == At(list, 0, null) && last == At(list, |list| - 1, null) && node !in list
      modifies node`next, (if last == null then {} else {last})`next
      ensures Chain(list + [node], waiters + [Waiter(node.key, node.thread)]) && first' == At(list + [node], 0, null)
    {
      Appended(list, node, null);
      node.next := null;
      if last != null {
        last.next := node;
        first' := first;
      } else {
        first' := node;
      }
    }

    /** What `park` does while it holds the bucket: puts its node at the end. */
    method Enqueue(address: nat, node: WaiterNode)
      requires Valid() && node !in nodes
      modifies this, node, (if tail == null then {} else {tail})`next
      ensures Valid() && nodes == old(nodes) + [node]
      ensures queue == old(queue) + [Waiter(address, node.thread)]
      ensures node.wakeFlag == 0
    {
      node.key := address;
      node.wakeFlag := 0;
      head := Append(head, tail, node, nodes, queue);
      tail := node;
      nodes := nodes + [node];
      queue := queue + [Waiter(address, node.thread)];
    }

    /** Lets `prev`, or the head, point past `curr`. */
    method SkipOver(prev: WaiterNode?, curr: WaiterNode, ghost k: nat)
      requires Chain(nodes, queue) && head == At(nodes, 0, null)
      requires k < |nodes| && curr == nodes[k] && prev == At(nodes, k - 1, null)
      modifies this`head, (if prev == null then {} else {prev})`next
      ensures Chain(Without(nodes, k), Without(queue, k)) && head == At(Without(nodes, k), 0, null)
    {
      Removed(nodes, k, null);
      if prev != null {
        prev.next := curr.next;
      } else {
        head := curr.next;
      }
    }

    /** Lets the tail be `prev` when `curr` is the last node. */
    method StepBack(prev: WaiterNode?, curr: WaiterNode, ghost k: nat)
      requires Distinct(nodes) && tail == At(nodes, |nodes| - 1, null)
      requires k < |nodes| && curr == nodes[k] && prev == At(nodes, k - 1, null)
      modifies this`tail
      ensures tail == At(Without(nodes, k), |nodes| - 2, null)
    {
      if tail == curr {
        tail := prev;
      }
    }

    /** Takes the node at `curr`, behind `prev`, out of the chain. */
    method Unlink(prev: WaiterNode?, curr: WaiterNode, ghost k: nat)
      requires Valid() && k < |nodes| && curr == nodes[k] && prev == At(nodes, k - 1, null)
      modifies this`head, this`tail, this`nodes, this`queue, (if prev == null then {} else {prev})`next
      ensures Valid() && nodes == Without(old(nodes), k) && queue == Without(old(queue), k)
    {
      assert Distinct(nodes) && |queue| == |nodes|;
      ghost var rest, waiting := Without(nodes, k), Without(queue, k);
      hide Chain, Distinct, Without, At;
      StepBack(prev, curr, k);
      SkipOver(prev, curr, k);
      nodes, queue := rest, waiting;
    }

    /** The first node of the address, with the node before it. */
    method Find(address: nat) returns (prev: WaiterNode?, curr: WaiterNode?)
      requires Valid()
      ensures curr == At(nodes, FirstOf(queue, address), null) && prev == At(nodes, FirstOf(queue, address) - 1, null)
    {
      prev := null;
      curr := head;
      ghost var k := 0;
      while curr != null && curr.key != address
        invariant k <= |nodes| && curr == At(nodes, k, null) && prev == At(nodes, k - 1, null)
        invariant forall j :: 0 <= j < k ==> queue[j].key != address
        decreases |nodes| - k
      {
        prev := curr;
        curr := curr.next;
        k := k + 1;
      }
      FirstIs(queue, address, k);
    }

    method UnlinkFirst(address: nat) returns (target: WaiterNode?)
      requires Valid()
      modifies this, nodes
      ensures Valid() && queue == AfterUnpark(old(queue), address)
      ensures target == At(old(nodes), FirstOf(old(queue), address), null)
      ensures target != null <==> HasKey(old(queue), address)
      ensures nodes == if target == null then old(nodes) else Without(old(nodes), FirstOf(old(queue), address))
      ensures forall n :: n in old(nodes) ==> n.wakeFlag == old(n.wakeFlag)
    {
      hide FirstOf;
      var prev, curr := Find(address);
      target := curr;
      if target != null {
        Unlink(prev, curr, FirstOf(queue, address));
      }
    }

    method HasWaiter(address: nat) returns (more: bool)
      requires Valid()
      ensures more <==> HasKey(queue, address)
    {
      hide FirstOf;
      var _, check := Find(address);
      more := check != null;
    }

    method Signal(node: WaiterNode)
      requires Valid()
      modifies node`wakeFlag
      ensures Valid() && node.wakeFlag == 1
    {
      node.wakeFlag := 1;
    }

    /** `unpark_one`: takes the first node of the address out, sets its wake flag,
        and reports whether others of that address are left. */
    method UnparkOne(address: nat) returns (result: UnparkResult, target: WaiterNode?)
      requires Valid()
      modifies this, nodes
      ensures Valid() && queue == AfterUnpark(old(queue), address)
      ensures result == ResultOf(old(queue), address)
      ensures target == At(old(nodes), FirstOf(old(queue), address), null)
      ensures nodes == if target == null then old(nodes) else Without(old(nodes), FirstOf(old(queue), address))
      ensures target != null ==> target.wakeFlag == 1
      ensures forall n :: n in old(nodes) && n != target ==> n.wakeFlag == old(n.wakeFlag)
    {
      hide FirstOf, HasKey, AfterUnpark, Chain;
      target := UnlinkFirst(address);
      if target == null {
        result := NoWaiter;
      } else {
        var more := HasWaiter(address);
        result := if more then HasMoreWaiters else NoMoreWaiters;
        Signal(target);
      }
    }

    /** Appending to the list to wake leaves the bucket alone. */
    method AppendApart(first: WaiterNode?, last: WaiterNode?, node: WaiterNode,
                       ghost woken: seq<WaiterNode>, ghost taken: seq<Waiter>)
      returns (first': WaiterNode?)
      requires Valid() && Chain(woken, taken) && first == At(woken, 0, null) && last == At(woken, |woken| - 1, null)
      requires node !in woken && node !in nodes && Apart(nodes, woken)
      modifies node`next, (if last == null then {} else {last})`next
      ensures Valid()
      ensures Chain(woken + [node], taken + [Waiter(node.key, node.thread)]) && first' == At(woken + [node], 0, null)
    {
      first' := Append(first, last, node, woken, taken);
    }

    /** Moves the node at `curr` from the bucket to the end of the list to wake. */
    method MoveToWake(prev: WaiterNode?, curr: WaiterNode, ghost k: nat, first: WaiterNode?, last: WaiterNode?,
                      ghost woken: seq<WaiterNode>, ghost taken: seq<Waiter>, ghost all: set<WaiterNode>)
      returns (first': WaiterNode?)
      requires Valid() && k < |nodes| && curr == nodes[k] && prev == At(nodes, k - 1, null)
      requires Chain(woken, taken) && first == At(woken, 0, null) && last == At(woken, |woken| - 1, null)
      requires Apart(nodes, woken) && Within(nodes, all) && Within(woken, all)
      modifies this`head, this`tail, this`nodes, this`queue, all`next
      ensures Valid() && nodes == Without(old(nodes), k) && queue == Without(old(queue), k)
      ensures Chain(woken + [curr], taken + [old(queue)[k]]) && first' == At(woken + [curr], 0, null)
    {
      AfterMove(nodes, woken, k, all);
      Unlink(prev, curr, k);
      first' := AppendApart(first, last, curr, woken, taken);
    }

    /** Walks the list and sets every wake flag. */
    static method WakeAll(first: WaiterNode?, ghost list: seq<WaiterNode>, ghost waiters: seq<Waiter>)
      requires Chain(list, waiters) && first == At(list, 0, null)
      modifies (set n | n in list)`wakeFlag
      ensures Chain(list, waiters)
      ensures forall i :: 0 <= i < |list| ==> list[i].wakeFlag == 1
    {
      var curr := first;
      ghost var i := 0;
      while curr != null
        invariant i <= |list| && curr == At(list, i, null)
        invariant Chain(list, waiters)
        invariant forall j :: 0 <= j < i ==> list[j].wakeFlag == 1
        decreases |list| - i
      {
        var next := curr.next;
        curr.wakeFlag := 1;
        curr := next;
        i := i + 1;
      }
    }

    /** The state of the loop of `unpark_all`, with k nodes behind it. */
    ghost predicate Collecting(c: Cursor, k: nat, woken: seq<WaiterNode>, taken: seq<Waiter>, all: set<WaiterNode>)
      reads this, nodes, woken
    {
      && Valid() && k <= |nodes| && c.curr == At(nodes, k, null) && c.prev == At(nodes, k - 1, null)
      && Chain(woken, taken) && c.first == At(woken, 0, null) && c.last == At(woken, |woken| - 1, null)
      && Apart(nodes, woken) && Within(nodes, all) && Within(woken, all)
    }

    /** A node of the address goes to the list to wake. */
    method Take(c: Cursor, ghost k: nat, ghost woken: seq<WaiterNode>, ghost taken: seq<Waiter>,
                ghost all: set<WaiterNode>)
      returns (c': Cursor, ghost woken': seq<WaiterNode>)
      requires Collecting(c, k, woken, taken, all) && c.curr != null
      modifies this`head, this`tail, this`nodes, this`queue, all`next
      ensures nodes == Without(old(nodes), k) && queue == Without(old(queue), k)
      ensures woken' == woken + [old(nodes)[k]]
      ensures Collecting(c', k, woken', taken + [old(queue)[k]], all)
    {
      var node: WaiterNode := c.curr;
      var next := node.next;
      AfterMove(nodes, woken, k, all);
      var first := MoveToWake(c.prev, node, k, c.first, c.last, woken, taken, all);
      c' := Cursor(c.prev, next, first, node);
      woken' := woken + [node];
    }

    /** Any other node is passed. */
    method Pass(c: Cursor, ghost k: nat, ghost woken: seq<WaiterNode>, ghost taken: seq<Waiter>,
                ghost all: set<WaiterNode>)
      returns (c': Cursor)
      requires Collecting(c, k, woken, taken, all) && c.curr != null
      ensures Collecting(c', k + 1, woken, taken, all)
    {
      c' := Cursor(c.curr, c.curr.next, c.first, c.last);
    }

    /** The loop of `unpark_all`: takes every node of the address out, in order,
        into a list of their own. */
    method TakeAll(address: nat, ghost all: set<WaiterNode>)
      returns (count: nat, first: WaiterNode?, ghost woken: seq<WaiterNode>, ghost taken: seq<Waiter>)
      requires Valid() && Within(nodes, all)
      modifies this`head, this`tail, this`nodes, this`queue, all`next
      ensures Valid() && queue == NotOfKey(old(queue), address)
      ensures taken == OfKey(old(queue), address) && count == |taken|
      ensures nodes == Left(old(nodes), old(queue), address) && woken == Picked(old(nodes), old(queue), address)
      ensures Chain(woken, taken) && first == At(woken, 0, null) && Apart(nodes, woken) && Within(woken, all)
    {
      ghost var others, mine := NotOfKey(queue, address), OfKey(queue, address);
      ghost var kept, moved := Left(nodes, queue, address), Picked(nodes, queue, address);
      PickedIsOfKey(queue, address);
      ghost var k := 0;
      woken, taken := [], [];
      count := 0;
      var c := Cursor(null, head, null, null);
      assert queue[0..] == queue && nodes[0..] == nodes;
      while c.curr != null
        invariant Collecting(c, k, woken, taken, all)
        invariant Splits(queue, queue, k, taken, address, others, mine) && count == |taken|
        invariant Splits(nodes, queue, k, woken, address, kept, moved)
        decreases |nodes| - k
      {
        Visit(queue, queue, k, taken, address, others, mine);
        Visit(nodes, queue, k, woken, address, kept, moved);
        if c.curr.key == address {
          ghost var w := queue[k];
          c, woken := Take(c, k, woken, taken, all);
          taken := taken + [w];
          count := count + 1;
        } else {
          c := Pass(c, k, woken, taken, all);
          k := k + 1;
        }
      }
      Visit(queue, queue, k, taken, address, others, mine);
      Visit(nodes, queue, k, woken, address, kept, moved);
      first := c.first;
    }

    /** `unpark_all`: takes every node of the address out, in order, and wakes them. */
    method UnparkAll(address: nat) returns (count: nat, ghost woken: seq<WaiterNode>, ghost taken: seq<Waiter>)
      requires Valid()
      modifies this, set n | n in nodes
      ensures Valid() && queue == NotOfKey(old(queue), address)
      ensures taken == OfKey(old(queue), address) && count == |taken|
      ensures nodes == Left(old(nodes), old(queue), address) && woken == Picked(old(nodes), old(queue), address)
      ensures Chain(woken, taken) && Apart(nodes, woken)
      ensures forall i :: 0 <= i < |woken| ==> woken[i].wakeFlag == 1
      ensures forall n :: n in old(nodes) && n !in woken ==> n.wakeFlag == old(n.wakeFlag)
    {
      var first: WaiterNode?;
      count, first, woken, taken := TakeAll(address, set n | n in nodes);
      Finish(first, woken, taken);
    }

    /** Wakes the unlinked nodes, which leaves the bucket alone. */
    method Finish(first: WaiterNode?, ghost woken: seq<WaiterNode>, ghost taken: seq<Waiter>)
      requires Valid() && Chain(woken, taken) && first == At(woken, 0, null) && Apart(nodes, woken)
      modifies (set n | n in woken)`wakeFlag
      ensures Valid() && Chain(woken, taken)
      ensures forall i :: 0 <= i < |woken| ==> woken[i].wakeFlag == 1
    {
      WakeAll(first, woken, taken);
    }
  }

  lemma FirstIs(queue: seq<Waiter>, key: nat, k: nat)
    requires k <= |queue| && (k < |queue| ==> queue[k].key == key)
    requires forall j :: 0 <= j < k ==> queue[j].key != key
    ensures FirstOf(queue, key) == k
  {
  }
}
