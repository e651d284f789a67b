/** The ring of one producer and one consumer, each with a stale copy of the
    other's index.  The indices are 64-bit words that wrap. */
module SpscQueue {
  import opened Bits
  import opened Options
  import opened Ring
  import opened Threads

  /** What is pushed; a slot holds a constructed value, or raw memory. */
  type Item = nat

  /** Where the producer is in try_push, before its next access to shared memory. */
  datatype Producer =
    | Away
    | Refreshing(value: Item)   // full by its stale copy, before loading the tail
    | Writing(value: Item)      // before constructing the value in the slot
    | Publishing(value: Item)   // before storing the head

  /** Where the consumer is in try_pop. */
  datatype Consumer =
    | Gone
    | Reloading                 // empty by its stale copy, before loading the head
    | Reading                   // before moving the value out of the slot
    | Releasing(value: Item)    // before storing the tail

  /** The four words, and beside them the unbounded indices that they stand for:
      how many values were pushed and popped, and what the stale copies mean. */
  datatype State = State(mask: nat, buffer: seq<Option<Item>>,
                         head: nat, tailCached: nat, tail: nat, headCached: nat,
                         producer: Producer, consumer: Consumer,
                         pushed: seq<Item>, popped: seq<Item>, knownTail: nat, knownHead: nat)
  {
    ghost predicate Shaped() {
      && IsCapacity(mask + 1) && |buffer| == mask + 1
      && head < TWO64 && tailCached < TWO64 && tail < TWO64 && headCached < TWO64
    }

    function At(word: nat): Option<Item>
      requires Shaped()
    {
      buffer[SlotOf(word, mask)]
    }

    function Put(word: nat, content: Option<Item>): State
      requires Shaped()
    {
      this.(buffer := buffer[SlotOf(word, mask) := content])
    }
  }

  ghost predicate Init(s: State) {
    && s.Shaped() && (forall i :: 0 <= i < |s.buffer| ==> s.buffer[i] == None)
    && s.head == s.tailCached == s.tail == s.headCached == 0
    && s.producer == Away && s.consumer == Gone
    && s.pushed == [] && s.popped == [] && s.knownTail == s.knownHead == 0
  }

  predicate LooksFull(s: State)
    requires s.head < TWO64 && s.tailCached < TWO64
  {
    Sub(s.head, s.tailCached, TWO64) > s.mask
  }

  /** The producer calls try_push and compares with its copy of the tail. */
  ghost predicate CallPush(s: State, value: Item, s': State)
    requires s.Shaped()
  {
    s.producer.Away? && s' == s.(producer := if LooksFull(s) then Refreshing(value) else Writing(value))
  }

  ghost predicate PushStep(s: State, s': State)
    requires s.Shaped()
  {
    match s.producer
    case Away => false
    case Refreshing(v) =>
      var again := s.(tailCached := s.tail, knownTail := |s.popped|);
      s' == again.(producer := if LooksFull(again) then Away else Writing(v))
    case Writing(v) => s' == s.Put(s.head, Some(v)).(producer := Publishing(v))
    case Publishing(v) => s' == s.(head := Add(s.head, 1, TWO64), pushed := s.pushed + [v], producer := Away)
  }

  /** The consumer calls try_pop and compares with its copy of the head. */
  ghost predicate CallPop(s: State, s': State) {
    s.consumer.Gone? && s' == s.(consumer := if s.tail == s.headCached then Reloading else Reading)
  }

  ghost predicate PopStep(s: State, s': State)
    requires s.Shaped()
  {
    match s.consumer
    case Gone => false
    case Reloading =>
      s' == s.(headCached := s.head, knownHead := |s.pushed|, consumer := if s.tail == s.head then Gone else Reading)
    case Reading =>
      s.At(s.tail).Some? && s' == s.Put(s.tail, None).(consumer := Releasing(s.At(s.tail).value))
    case Releasing(v) => s' == s.(tail := Add(s.tail, 1, TWO64), popped := s.popped + [v], consumer := Gone)
  }

  ghost predicate Next(s: State, s': State) {
    && s.Shaped()
    && ((exists value :: CallPush(s, value, s')) || PushStep(s, s') || CallPop(s, s') || PopStep(s, s'))
  }

  // The invariant.

  /** The words stand for the indices, which are in order and at most a turn apart. */
  ghost predicate IndicesOk(s: State) {
    && s.Shaped()
    && s.head == |s.pushed| % TWO64 && s.tail == |s.popped| % TWO64
    && s.tailCached == s.knownTail % TWO64 && s.headCached == s.knownHead % TWO64
    && s.knownTail <= |s.popped| <= s.knownHead <= |s.pushed| <= s.knownTail + s.mask + 1
  }

  /** What the slot of index `p` contains, for the indices of the turn from the tail. */
  function Content(s: State, p: nat): Option<Item> {
    if p < |s.pushed| then (if p == |s.popped| && s.consumer.Releasing? then None else Some(s.pushed[p]))
    else if p == |s.pushed| && s.producer.Publishing? then Some(s.producer.value)
    else None
  }

  ghost predicate SlotOk(s: State, p: nat)
    requires s.Shaped()
  {
    s.At(p) == Content(s, p)
  }

  ghost predicate InTurn(s: State, p: nat) {
    |s.popped| <= p <= |s.popped| + s.mask
  }

  ghost predicate Inv(s: State) {
    && IndicesOk(s)
    && s.popped <= s.pushed
    && (s.producer.Writing? || s.producer.Publishing? ==> |s.pushed| <= s.knownTail + s.mask)
    && (s.consumer.Reading? || s.consumer.Releasing? ==> |s.popped| < s.knownHead)
    && (s.consumer.Releasing? ==> s.consumer.value == s.pushed[|s.popped|])
    && forall p :: InTurn(s, p) ==> SlotOk(s, p)
  }

  /** Differences of wrapped words are differences of the indices. */
  lemma WrappedDifference(a: nat, b: nat)
    requires b <= a < b + TWO64
    ensures Sub(a % TWO64, b % TWO64, TWO64) == a - b
    ensures a % TWO64 == b % TWO64 <==> a == b
  {
    AddRemainder(b, a - b, TWO64);
  }

  lemma NextWord(a: nat)
    ensures Add(a % TWO64, 1, TWO64) == (a + 1) % TWO64
  {
    AddRemainder(a, 1, TWO64);
  }

  lemma LooksFullMeans(s: State)
    requires IndicesOk(s)
    ensures LooksFull(s) <==> |s.pushed| == s.knownTail + s.mask + 1
    ensures s.tail == s.headCached <==> |s.popped| == s.knownHead
    ensures s.tail == s.head <==> |s.popped| == |s.pushed|
  {
    WrappedDifference(|s.pushed|, s.knownTail);
    WrappedDifference(s.knownHead, |s.popped|);
    WrappedDifference(|s.pushed|, |s.popped|);
  }

  /** Writing the slot of one index of the turn spares the others. */
  lemma PutSpares(s: State, h: nat, content: Option<Item>, p: nat)
    requires s.Shaped() && InTurn(s, h) && InTurn(s, p)
    ensures s.Put(h % TWO64, content).Shaped() && s.Put(h % TWO64, content).At(p) == if p == h then content else s.At(p)
    ensures s.At(h % TWO64) == s.At(h)
  {
    WrapKeepsSlot(h, s.mask);
    if p < h {
      SlotsDiffer(p, h, s.mask + 1);
    } else if h < p {
      SlotsDiffer(h, p, s.mask + 1);
    }
  }

  lemma QuietKeepsInv(s: State, s': State)
    requires Inv(s) && IndicesOk(s')
    requires s'.mask == s.mask && s'.buffer == s.buffer && s'.pushed == s.pushed && s'.popped == s.popped
    requires s.producer.Publishing? || s'.producer.Publishing? ==>
               s'.producer == s.producer && s'.knownTail == s.knownTail
    requires s.consumer.Releasing? || s'.consumer.Releasing? ==>
               s'.consumer == s.consumer && s'.knownHead == s.knownHead
    requires s'.producer.Writing? ==> |s'.pushed| <= s'.knownTail + s'.mask
    requires s'.consumer.Reading? ==> |s'.popped| < s'.knownHead
    ensures Inv(s')
  {
    hide SlotOf;
    forall p | InTurn(s', p)
      ensures SlotOk(s', p)
    {
      assert InTurn(s, p) && SlotOk(s, p);
    }
  }

  lemma CallsKeepInv(s: State, s': State)
    requires Inv(s) && ((exists value :: CallPush(s, value, s')) || CallPop(s, s'))
    ensures Inv(s')
  {
    LooksFullMeans(s);
    hide SlotOf;
    QuietKeepsInv(s, s');
  }

  lemma RefreshKeepsInv(s: State, s': State)
    requires Inv(s) && s.producer.Refreshing? && PushStep(s, s')
    ensures Inv(s')
    ensures s'.producer.Away? <==> |s.pushed| == |s.popped| + s.mask + 1
  {
    hide SlotOf;
    LooksFullMeans(s.(tailCached := s.tail, knownTail := |s.popped|));
    QuietKeepsInv(s, s');
  }

  lemma ReloadKeepsInv(s: State, s': State)
    requires Inv(s) && s.consumer.Reloading? && PopStep(s, s')
    ensures Inv(s')
    ensures s'.consumer.Gone? <==> |s.pushed| == |s.popped|
  {
    hide SlotOf;
    LooksFullMeans(s);
    QuietKeepsInv(s, s');
  }

  lemma WriteKeepsInv(s: State, s': State)
    requires Inv(s) && s.producer.Writing? && PushStep(s, s')
    ensures Inv(s')
    ensures s.At(s.head) == None
  {
    hide SlotOf;
    var h := |s.pushed|;
    assert InTurn(s, h) && SlotOk(s, h);
    PutSpares(s, h, Some(s.producer.value), h);
    forall p | InTurn(s', p)
      ensures s'.Shaped() && SlotOk(s', p)
    {
      assert InTurn(s, p) && SlotOk(s, p);
      PutSpares(s, h, Some(s.producer.value), p);
    }
  }

  lemma PublishKeepsInv(s: State, s': State)
    requires Inv(s) && s.producer.Publishing? && PushStep(s, s')
    ensures Inv(s')
  {
    hide SlotOf;
    NextWord(|s.pushed|);
    forall p | InTurn(s', p)
      ensures SlotOk(s', p)
    {
      assert InTurn(s, p) && SlotOk(s, p);
    }
  }

  lemma ReadKeepsInv(s: State, s': State)
    requires Inv(s) && s.consumer.Reading? && PopStep(s, s')
    ensures Inv(s')
    ensures s'.consumer == Releasing(s.pushed[|s.popped|])
  {
    hide SlotOf;
    var t := |s.popped|;
    assert InTurn(s, t) && SlotOk(s, t);
    PutSpares(s, t, None, t);
    forall p | InTurn(s', p)
      ensures s'.Shaped() && SlotOk(s', p)
    {
      assert InTurn(s, p) && SlotOk(s, p);
      PutSpares(s, t, None, p);
    }
  }

  lemma ReleaseKeepsInv(s: State, s': State)
    requires Inv(s) && s.consumer.Releasing? && PopStep(s, s')
    ensures Inv(s')
  {
    hide SlotOf;
    NextWord(|s.popped|);
    var t := |s.popped|;
    assert InTurn(s, t) && SlotOk(s, t);
    forall p: nat | InTurn(s', p)
      ensures SlotOk(s', p)
    {
      if p <= t + s.mask {
        assert InTurn(s, p) && SlotOk(s, p);
      } else {
        FreedSlot(s, s');
      }
    }
  }

  /** The slot that was just emptied is the last one of the next turn. */
  lemma FreedSlot(s: State, s': State)
    requires s.Shaped() && s'.Shaped() && s'.mask == s.mask && s'.buffer == s.buffer
    ensures s'.At(|s.popped| + s.mask + 1) == s.At(|s.popped|)
  {
    NextTurn(|s.popped|, s.mask + 1);
  }

  lemma StepKeepsInv(s: State, s': State)
    requires Inv(s) && Next(s, s')
    ensures Inv(s')
  {
    hide SlotOf;
    if (exists value :: CallPush(s, value, s')) || CallPop(s, s') {
      CallsKeepInv(s, s');
    } else if PushStep(s, s') {
      match s.producer
      case Refreshing(_) => RefreshKeepsInv(s, s');
      case Writing(_) => WriteKeepsInv(s, s');
      case Publishing(_) => PublishKeepsInv(s, s');
    } else {
      match s.consumer
      case Reloading => ReloadKeepsInv(s, s');
      case Reading => ReadKeepsInv(s, s');
      case Releasing(_) => ReleaseKeepsInv(s, s');
    }
  }

  lemma InitHasInv(s: State)
    requires Init(s)
    ensures Inv(s)
  {
  }

  lemma {:induction false} RunsKeepInv(run: seq<State>, i: nat)
    requires IsRun(run, Init, Next) && i < |run|
    ensures Inv(run[i])
  {
    if i == 0 {
      InitHasInv(run[0]);
    } else {
      RunsKeepInv(run, i - 1);
      assert Next(run[i - 1], run[i - 1 + 1]);
      StepKeepsInv(run[i - 1], run[i]);
    }
  }

  // What holds of every run.

  /** On the unbounded indices, tail_cached <= tail <= head_cached <= head <=
      tail_cached + capacity, and the words are these indices modulo 2^64. */
  lemma IndicesStayInOrder(run: seq<State>, i: nat)
    requires IsRun(run, Init, Next) && i < |run|
    ensures var s := run[i];
      && s.knownTail <= |s.popped| <= s.knownHead <= |s.pushed| <= s.knownTail + s.mask + 1
      && s.head == |s.pushed| % TWO64 && s.tail == |s.popped| % TWO64
      && s.tailCached == s.knownTail % TWO64 && s.headCached == s.knownHead % TWO64
  {
    RunsKeepInv(run, i);
  }

  /** The abstract queue: what was pushed and not yet popped. */
  function Queue(s: State): seq<Item> {
    if |s.popped| <= |s.pushed| then s.pushed[|s.popped|..] else []
  }

  /** What a step does to a bounded first-in first-out queue. */
  ghost predicate FifoStep(q: seq<Item>, q': seq<Item>, capacity: nat) {
    || q' == q
    || (|q| < capacity && exists v :: q' == q + [v])
    || (q != [] && q' == q[1..])
  }

  /** Every step of the ring is a step of a bounded queue, which a push extends by
      its own value and a pop shortens by the value it returns. */
  lemma RefinesBoundedFifo(run: seq<State>, i: nat)
    requires IsRun(run, Init, Next) && i < |run| - 1
    ensures var s, s' := run[i], run[i + 1];
      && FifoStep(Queue(s), Queue(s'), s.mask + 1)
      && |Queue(s')| <= s.mask + 1
      && (s.producer.Publishing? && s'.producer.Away? ==> Queue(s') == Queue(s) + [s.producer.value])
      && (s.consumer.Releasing? && s'.consumer.Gone? ==> Queue(s) == [s.consumer.value] + Queue(s'))
  {
    hide SlotOf;
    RunsKeepInv(run, i);
    RunsKeepInv(run, i + 1);
    assert Next(run[i], run[i + 1]);
    NextRefines(run[i], run[i + 1]);
  }

  lemma NextRefines(s: State, s': State)
    requires Inv(s) && Inv(s') && Next(s, s')
    ensures FifoStep(Queue(s), Queue(s'), s.mask + 1) && |Queue(s')| <= s.mask + 1
    ensures s.producer.Publishing? && s'.producer.Away? ==> Queue(s') == Queue(s) + [s.producer.value]
    ensures s.consumer.Releasing? && s'.consumer.Gone? ==> Queue(s) == [s.consumer.value] + Queue(s')
  {
    hide SlotOf;
    if PushStep(s, s') && s.producer.Publishing? {
      assert Queue(s') == Queue(s) + [s.producer.value];
    } else if PopStep(s, s') && s.consumer.Releasing? {
      assert Queue(s) == [s.consumer.value] + Queue(s');
    }
  }

  /** try_push gives up only if the queue was full when it loaded the tail. */
  lemma RefusedMeansFull(run: seq<State>, i: nat)
    requires IsRun(run, Init, Next) && i < |run| - 1
    requires run[i].producer.Refreshing? && run[i + 1].producer.Away?
    ensures |Queue(run[i])| == run[i].mask + 1
  {
    RunsKeepInv(run, i);
    assert Next(run[i], run[i + 1]);
    RefreshKeepsInv(run[i], run[i + 1]);
  }

  /** try_pop gives up only if the queue was empty when it loaded the head. */
  lemma NothingMeansEmpty(run: seq<State>, i: nat)
    requires IsRun(run, Init, Next) && i < |run| - 1
    requires run[i].consumer.Reloading? && run[i + 1].consumer.Gone?
    ensures Queue(run[i]) == []
  {
    RunsKeepInv(run, i);
    assert Next(run[i], run[i + 1]);
    ReloadKeepsInv(run[i], run[i + 1]);
  }

  /** A value is constructed only in raw memory, and moved only out of a
      constructed value, the oldest one pushed. */
  lemma SlotsAreUsedInTurn(run: seq<State>, i: nat)
    requires IsRun(run, Init, Next) && i < |run| && run[i].Shaped()
    ensures run[i].producer.Writing? ==> run[i].At(run[i].head) == None
    ensures run[i].consumer.Reading? ==> Queue(run[i]) != [] && run[i].At(run[i].tail) == Some(Queue(run[i])[0])
  {
    RunsKeepInv(run, i);
    var s := run[i];
    if s.producer.Writing? {
      assert InTurn(s, |s.pushed|) && SlotOk(s, |s.pushed|);
      WrapKeepsSlot(|s.pushed|, s.mask);
    }
    if s.consumer.Reading? {
      assert InTurn(s, |s.popped|) && SlotOk(s, |s.popped|);
      WrapKeepsSlot(|s.popped|, s.mask);
    }
  }
}
