/** The bounded ring of many producers and one consumer.  A producer claims a
    position by a compare-and-swap on the head and publishes it through the
    sequence number of its slot. */
module MpscQueue {
  import opened Bits
  import opened Ring
  import opened Threads

  const TWO63: nat := 0x8000_0000_0000_0000

  /** What is pushed; the queue never looks inside. */
  type Item = nat

  datatype Slot = Slot(sequence: nat, data: Item)

  /** What became of a position, kept beside the ring. */
  datatype Status = Pending | Published | Abandoned
  datatype Claim = Claim(value: Item, producer: nat, status: Status)

  /** Where a producer is in try_push, before its next atomic operation. */
  datatype PC =
    | Idle
    | Loading(value: Item)                 // before loading the head
    | Looking(value: Item, head: nat)      // before loading the slot's sequence
    | Claiming(value: Item, head: nat)     // difference 0, before the compare-and-swap
    | Claimed(value: Item, head: nat)      // before loading closed
    | Abandoning(value: Item, head: nat)   // closed, before storing the sequence back
    | Writing(value: Item, head: nat)      // before storing the value
    | Publishing(value: Item, head: nat)   // before storing the next sequence

  /** Where the consumer is in try_pop. */
  datatype Consumer =
    | Resting               // before loading the slot's sequence
    | Taking                // difference 0, before taking the value
    | Freeing(tail: nat)    // value taken, before storing the sequence of the next turn

  datatype State = State(mask: nat, slots: seq<Slot>, head: nat, tail: nat, closed: bool,
                         pcs: seq<PC>, consumer: Consumer, claims: seq<Claim>, output: seq<Item>)
  {
    function Go(t: nat, p: PC): State
      requires t < |pcs|
    {
      this.(pcs := pcs[t := p])
    }

    /** What position `p` claims becomes. */
    function Mark(p: nat, status: Status): State
      requires p < |claims|
    {
      this.(claims := claims[p := claims[p].(status := status)])
    }

    ghost predicate Shaped() {
      IsCapacity(mask + 1) && |slots| == mask + 1
    }

    function At(p: nat): Slot
      requires Shaped()
    {
      slots[SlotOf(p, mask)]
    }

    function Put(p: nat, slot: Slot): State
      requires Shaped()
    {
      this.(slots := slots[SlotOf(p, mask) := slot])
    }
  }

  /** `static_cast<isize>(a) - static_cast<isize>(b)`. */
  function Signed(w: nat): int { if w < TWO63 then w else w - TWO64 }
  function Diff(a: nat, b: nat): int { Signed(a) - Signed(b) }

  ghost predicate Init(s: State) {
    && s.Shaped()
    && (forall i :: 0 <= i < |s.slots| ==> s.slots[i].sequence == i)
    && s.head == 0 && s.tail == 0 && !s.closed
    && (forall t :: 0 <= t < |s.pcs| ==> s.pcs[t] == Idle)
    && s.consumer == Resting && s.claims == [] && s.output == []
  }

  ghost predicate CallPush(s: State, t: nat, value: Item, s': State) {
    t < |s.pcs| && s.pcs[t].Idle? && s' == s.Go(t, Loading(value))
  }

  /** One atomic operation of producer t. */
  ghost predicate PushStep(s: State, t: nat, s': State)
    requires s.Shaped() && t < |s.pcs|
  {
    match s.pcs[t]
    case Idle => false
    case Loading(v) => s' == s.Go(t, Looking(v, s.head))
    case Looking(v, h) =>
      var diff := Diff(s.At(h).sequence, h);
      s' == s.Go(t, if diff == 0 then Claiming(v, h) else if diff < 0 then Idle else Loading(v))
    case Claiming(v, h) =>
      || (s.head == h
          && s' == s.Go(t, Claimed(v, h)).(head := Add(h, 1, TWO64), claims := s.claims + [Claim(v, t, Pending)]))
      || s' == s.Go(t, Looking(v, s.head))
    case Claimed(v, h) => s' == s.Go(t, if s.closed then Abandoning(v, h) else Writing(v, h))
    case Abandoning(v, h) =>
      h < |s.claims| && s' == s.Put(h, s.At(h).(sequence := h)).Mark(h, Abandoned).Go(t, Idle)
    case Writing(v, h) =>
      s' == s.Put(h, s.At(h).(data := v)).Go(t, Publishing(v, h))
    case Publishing(v, h) =>
      h < |s.claims| && s' == s.Put(h, s.At(h).(sequence := Add(h, 1, TWO64))).Mark(h, Published).Go(t, Idle)
  }

  /** One operation of the consumer; a try_pop that finds nothing leaves no trace. */
  ghost predicate PopStep(s: State, s': State)
    requires s.Shaped()
  {
    match s.consumer
    case Resting =>
      s' == if Diff(s.At(s.tail).sequence, Add(s.tail, 1, TWO64)) == 0 then s.(consumer := Taking) else s
    case Taking =>
      s' == s.(tail := Add(s.tail, 1, TWO64), output := s.output + [s.At(s.tail).data], consumer := Freeing(s.tail))
    case Freeing(t) =>
      s' == s.Put(t, s.At(t).(sequence := Add(t + s.mask, 1, TWO64))).(consumer := Resting)
  }

  ghost predicate Next(s: State, s': State) {
    && s.Shaped()
    && (|| (exists t, value :: CallPush(s, t, value, s'))
        || (exists t :: 0 <= t < |s.pcs| && PushStep(s, t, s'))
        || PopStep(s, s')
        || s' == s.(closed := true))
  }

  /** The positions taken, and those of the turn after them, are below 2^63. */
  predicate Small(s: State) {
    s.head + s.mask + 1 < TWO63
  }

  ghost predicate SmallStep(s: State, s': State) {
    Small(s) && Next(s, s')
  }

  // The invariant.

  /** The oldest position whose slot has not been handed to the next turn. */
  function Base(s: State): nat {
    if s.consumer.Freeing? then s.consumer.tail else s.tail
  }

  predicate IsPublished(s: State, p: nat) {
    p < |s.claims| && s.claims[p].status.Published?
  }

  ghost predicate InTurn(s: State, p: nat) {
    Base(s) <= p <= Base(s) + s.mask
  }

  /** The sequence number of a slot follows from the position that has the slot in
      this turn, and from whether it is published. */
  ghost predicate SequenceOk(s: State, p: nat)
    requires s.Shaped()
  {
    s.At(p).sequence == if IsPublished(s, p) then p + 1 else p
  }

  ghost predicate DataOk(s: State, p: nat)
    requires s.Shaped()
  {
    IsPublished(s, p) ==> s.At(p).data == s.claims[p].value
  }

  predicate InFlight(p: PC) {
    p.Claimed? || p.Abandoning? || p.Writing? || p.Publishing?
  }

  ghost predicate ProducerOk(s: State, t: nat)
    requires s.Shaped() && t < |s.pcs|
  {
    var p := s.pcs[t];
    && (p.Looking? ==> p.head <= s.head)
    && (p.Claiming? ==> p.head <= s.head && p.head <= Base(s) + s.mask)
    && (InFlight(p) ==> s.tail <= p.head < |s.claims| && s.claims[p.head] == Claim(p.value, t, Pending))
    && (p.Publishing? ==> s.At(p.head).data == p.value)
  }

  ghost predicate PendingOk(s: State, h: nat)
    requires h < |s.claims|
  {
    s.claims[h].status.Pending? ==>
      var t := s.claims[h].producer;
      t < |s.pcs| && InFlight(s.pcs[t]) && s.pcs[t].head == h
  }

  ghost predicate Counts(s: State) {
    && s.Shaped()
    && |s.claims| == s.head && |s.output| == s.tail <= s.head <= Base(s) + s.mask + 1
    && (s.consumer.Freeing? ==> s.consumer.tail + 1 == s.tail)
    && (s.consumer.Taking? ==> IsPublished(s, s.tail))
  }

  ghost predicate Inv(s: State) {
    && Counts(s)
    && (forall p :: InTurn(s, p) ==> SequenceOk(s, p))
    && (forall p :: s.tail <= p < s.head ==> DataOk(s, p))
    && (forall p :: 0 <= p < s.tail ==> IsPublished(s, p) && s.output[p] == s.claims[p].value)
    && (forall t :: 0 <= t < |s.pcs| ==> ProducerOk(s, t))
    && (forall h :: 0 <= h < s.head ==> PendingOk(s, h))
  }

  /** A slot belongs to one position of the turn, so writing to it spares the others. */
  lemma PutSpares(s: State, h: nat, slot: Slot, p: nat)
    requires s.Shaped() && InTurn(s, h) && InTurn(s, p)
    ensures s.Put(h, slot).Shaped()
    ensures s.Put(h, slot).At(p) == if p == h then slot else s.At(p)
  {
    if p < h {
      SlotsDiffer(p, h, s.mask + 1);
    } else if h < p {
      SlotsDiffer(h, p, s.mask + 1);
    }
  }

  /** What a load of a slot's sequence tells a producer. */
  lemma LookTells(s: State, h: nat)
    requires Inv(s) && Small(s) && h <= s.head
    ensures Diff(s.At(h).sequence, h) == 0 ==> h <= Base(s) + s.mask
    ensures Diff(s.At(h).sequence, h) < 0 ==> s.head == Base(s) + s.mask + 1
  {
    var p := Occupant(Base(s), s.mask + 1, h);
    assert InTurn(s, p) && SequenceOk(s, p);
    SameSlotApart(p, h, s.mask + 1);
  }

  /** What a load of the slot's sequence tells the consumer. */
  lemma PeekTells(s: State)
    requires Inv(s) && Small(s) && s.consumer.Resting?
    ensures Diff(s.At(s.tail).sequence, Add(s.tail, 1, TWO64)) == 0 <==> IsPublished(s, s.tail)
  {
    assert InTurn(s, s.tail) && SequenceOk(s, s.tail);
  }

  // Every step keeps it.

  /** A producer's step that writes nothing shared. */
  lemma QuietKeepsInv(s: State, t: nat, s': State)
    requires Inv(s) && t < |s.pcs| && t < |s'.pcs| && s' == s.Go(t, s'.pcs[t]) && ProducerOk(s', t)
    requires InFlight(s.pcs[t]) ==> InFlight(s'.pcs[t]) && s'.pcs[t].head == s.pcs[t].head
    ensures Inv(s')
  {
    hide SlotOf;
    forall p | InTurn(s', p)
      ensures SequenceOk(s', p)
    {
      assert InTurn(s, p) && SequenceOk(s, p);
    }
    forall p | s'.tail <= p < s'.head
      ensures DataOk(s', p)
    {
      assert DataOk(s, p);
    }
    forall u | 0 <= u < |s'.pcs|
      ensures ProducerOk(s', u)
    {
      assert u != t ==> ProducerOk(s, u);
    }
    forall h | 0 <= h < s'.head
      ensures PendingOk(s', h)
    {
      assert PendingOk(s, h);
    }
  }

  lemma QuietStepsKeepInv(s: State, t: nat, s': State)
    requires Inv(s) && Small(s) && t < |s.pcs| && PushStep(s, t, s')
    requires || s.pcs[t].Loading? || s.pcs[t].Looking? || s.pcs[t].Claimed?
             || s' == s.Go(t, Looking(s.pcs[t].value, s.head))
    ensures Inv(s')
  {
    assert ProducerOk(s, t);
    if s.pcs[t].Looking? {
      LookTells(s, s.pcs[t].head);
    }
    QuietKeepsInv(s, t, s');
  }

  /** A claim takes the next position, which no producer had before. */
  lemma ClaimKeepsInv(s: State, t: nat, s': State)
    requires Inv(s) && Small(s) && t < |s.pcs| && PushStep(s, t, s') && s.pcs[t].Claiming? && s'.pcs[t].Claimed?
    ensures Inv(s')
  {
    hide SlotOf;
    assert ProducerOk(s, t);
    forall p | InTurn(s', p)
      ensures SequenceOk(s', p)
    {
      assert InTurn(s, p) && SequenceOk(s, p);
    }
    forall p | s'.tail <= p < s'.head
      ensures DataOk(s', p)
    {
      assert p < s.head ==> DataOk(s, p);
    }
    forall u | 0 <= u < |s'.pcs|
      ensures ProducerOk(s', u)
    {
      assert u != t ==> ProducerOk(s, u);
    }
    forall h | 0 <= h < s'.head
      ensures PendingOk(s', h)
    {
      assert h < s.head ==> PendingOk(s, h);
    }
  }

  /** A producer writes to the slot of the position it claimed, and to its claim. */
  ghost predicate Settles(s: State, t: nat, s': State, slot: Slot, status: Status) {
    && s.Shaped() && t < |s.pcs| && t < |s'.pcs| && InFlight(s.pcs[t]) && s.pcs[t].head < |s.claims|
    && var h := s.pcs[t].head;
       s' == s.Put(h, slot).Mark(h, status).Go(t, s'.pcs[t])
  }

  /** What settling a position does to the slots of the turn. */
  lemma SettleSpares(s: State, t: nat, s': State, slot: Slot, status: Status, p: nat)
    requires Inv(s) && Settles(s, t, s', slot, status) && InTurn(s, p)
    ensures InTurn(s, s.pcs[t].head) && s'.Shaped() && s'.At(p) == if p == s.pcs[t].head then slot else s.At(p)
  {
    hide SlotOf;
    assert ProducerOk(s, t);
    PutSpares(s, s.pcs[t].head, slot, p);
  }

  lemma SettleKeepsProducer(s: State, t: nat, s': State, slot: Slot, status: Status, u: nat)
    requires Inv(s) && Settles(s, t, s', slot, status) && u < |s.pcs| && u < |s'.pcs|
    requires if status.Pending? then
               s'.pcs[t] == Publishing(s.pcs[t].value, s.pcs[t].head) && slot.data == s.pcs[t].value
             else s'.pcs[t] == Idle
    ensures s'.Shaped() && ProducerOk(s', u)
  {
    hide SlotOf;
    assert ProducerOk(s, t) && ProducerOk(s, u);
    SettleSpares(s, t, s', slot, status, s.pcs[t].head);
    if s.pcs[u].Publishing? {
      SettleSpares(s, t, s', slot, status, s.pcs[u].head);
    }
  }

  lemma SettleKeepsInv(s: State, t: nat, s': State, slot: Slot, status: Status)
    requires Inv(s) && Settles(s, t, s', slot, status)
    requires slot.sequence == if status.Published? then s.pcs[t].head + 1 else s.pcs[t].head
    requires status.Published? ==> slot.data == s.pcs[t].value
    requires if status.Pending? then
               s'.pcs[t] == Publishing(s.pcs[t].value, s.pcs[t].head) && slot.data == s.pcs[t].value
             else s'.pcs[t] == Idle
    ensures Inv(s')
  {
    hide SlotOf;
    assert ProducerOk(s, t);
    var h := s.pcs[t].head;
    assert InTurn(s, h);
    forall p | InTurn(s, p)
      ensures s'.Shaped() && s'.At(p) == (if p == h then slot else s.At(p)) && SequenceOk(s', p)
    {
      SettleSpares(s, t, s', slot, status, p);
      assert SequenceOk(s, p);
    }
    forall p | s'.tail <= p < s'.head
      ensures DataOk(s', p)
    {
      assert InTurn(s, p) && DataOk(s, p);
    }
    forall u | 0 <= u < |s'.pcs|
      ensures ProducerOk(s', u)
    {
      SettleKeepsProducer(s, t, s', slot, status, u);
    }
    forall k | 0 <= k < s'.head
      ensures PendingOk(s', k)
    {
      assert PendingOk(s, k);
    }
  }

  lemma SettlingStepsKeepInv(s: State, t: nat, s': State)
    requires Inv(s) && Small(s) && t < |s.pcs| && PushStep(s, t, s')
    requires s.pcs[t].Abandoning? || s.pcs[t].Writing? || s.pcs[t].Publishing?
    ensures Inv(s')
  {
    assert ProducerOk(s, t);
    var h := s.pcs[t].head;
    assert InTurn(s, h) && SequenceOk(s, h);
    hide SlotOf;
    if s.pcs[t].Abandoning? {
      SettleKeepsInv(s, t, s', s.At(h).(sequence := h), Abandoned);
    } else if s.pcs[t].Writing? {
      assert s.claims[h := s.claims[h].(status := Pending)] == s.claims;
      SettleKeepsInv(s, t, s', s.At(h).(data := s.pcs[t].value), Pending);
    } else {
      SettleKeepsInv(s, t, s', s.At(h).(sequence := Add(h, 1, TWO64)), Published);
    }
  }

  lemma TakeKeepsInv(s: State, s': State)
    requires Inv(s) && Small(s) && PopStep(s, s') && s.consumer.Taking?
    ensures Inv(s')
  {
    hide SlotOf;
    assert DataOk(s, s.tail);
    forall p | InTurn(s', p)
      ensures SequenceOk(s', p)
    {
      assert InTurn(s, p) && SequenceOk(s, p);
    }
    forall p | s'.tail <= p < s'.head
      ensures DataOk(s', p)
    {
      assert DataOk(s, p);
    }
    forall u | 0 <= u < |s'.pcs|
      ensures ProducerOk(s', u)
    {
      assert ProducerOk(s, u);
    }
    forall h | 0 <= h < s'.head
      ensures PendingOk(s', h)
    {
      assert PendingOk(s, h);
    }
  }

  /** The slot that is freed belongs to the last position of the next turn. */
  lemma FreedSlotMoves(s: State, s': State, p: nat)
    requires Inv(s) && PopStep(s, s') && s.consumer.Freeing? && InTurn(s', p)
    ensures s'.Shaped()
    ensures p <= Base(s) + s.mask ==> s'.At(p) == s.At(p)
    ensures p == Base(s) + s.mask + 1 ==> s'.At(p) == s.At(Base(s)).(sequence := Add(Base(s) + s.mask, 1, TWO64))
  {
    hide SlotOf;
    var b := Base(s);
    var slot := s.At(b).(sequence := Add(b + s.mask, 1, TWO64));
    assert InTurn(s, b);
    PutSpares(s, b, slot, b);
    if p <= b + s.mask {
      PutSpares(s, b, slot, p);
    } else {
      NextTurn(b, s.mask + 1);
    }
  }

  lemma FreeKeepsInv(s: State, s': State)
    requires Inv(s) && Small(s) && PopStep(s, s') && s.consumer.Freeing?
    ensures Inv(s')
  {
    hide SlotOf;
    forall p: nat | InTurn(s', p)
      ensures s'.Shaped() && SequenceOk(s', p)
    {
      FreedSlotMoves(s, s', p);
      if p <= Base(s) + s.mask {
        assert InTurn(s, p) && SequenceOk(s, p);
      }
    }
    forall p | s'.tail <= p < s'.head
      ensures DataOk(s', p)
    {
      assert InTurn(s', p) && DataOk(s, p);
      FreedSlotMoves(s, s', p);
    }
    forall u | 0 <= u < |s'.pcs|
      ensures ProducerOk(s', u)
    {
      assert ProducerOk(s, u);
      if s.pcs[u].Publishing? {
        assert InTurn(s', s.pcs[u].head);
        FreedSlotMoves(s, s', s.pcs[u].head);
      }
    }
    forall h | 0 <= h < s'.head
      ensures PendingOk(s', h)
    {
      assert PendingOk(s, h);
    }
  }

  /** Closing, or the consumer's peek, changes none of what the invariant speaks of. */
  lemma FlagsKeepInv(s: State, s': State)
    requires Inv(s) && s' == s.(closed := s'.closed, consumer := s'.consumer)
    requires s'.consumer == s.consumer || (s.consumer.Resting? && s'.consumer.Taking? && IsPublished(s, s.tail))
    ensures Inv(s')
  {
    hide SlotOf;
    forall p | InTurn(s', p)
      ensures SequenceOk(s', p)
    {
      assert InTurn(s, p) && SequenceOk(s, p);
    }
    forall p | s'.tail <= p < s'.head
      ensures DataOk(s', p)
    {
      assert DataOk(s, p);
    }
    forall u | 0 <= u < |s'.pcs|
      ensures ProducerOk(s', u)
    {
      assert ProducerOk(s, u);
    }
    forall h | 0 <= h < s'.head
      ensures PendingOk(s', h)
    {
      assert PendingOk(s, h);
    }
  }

  lemma PopKeepsInv(s: State, s': State)
    requires Inv(s) && Small(s) && PopStep(s, s')
    ensures Inv(s')
  {
    if s.consumer.Taking? {
      TakeKeepsInv(s, s');
    } else if s.consumer.Freeing? {
      FreeKeepsInv(s, s');
    } else {
      PeekTells(s);
      FlagsKeepInv(s, s');
    }
  }

  lemma PushKeepsInv(s: State, t: nat, s': State)
    requires Inv(s) && Small(s) && t < |s.pcs| && PushStep(s, t, s')
    ensures Inv(s')
  {
    if s.pcs[t].Abandoning? || s.pcs[t].Writing? || s.pcs[t].Publishing? {
      SettlingStepsKeepInv(s, t, s');
    } else if s.pcs[t].Claiming? && s'.pcs[t].Claimed? {
      ClaimKeepsInv(s, t, s');
    } else {
      QuietStepsKeepInv(s, t, s');
    }
  }

  lemma StepKeepsInv(s: State, s': State)
    requires Inv(s) && Small(s) && Next(s, s')
    ensures Inv(s')
  {
    if t, value :| CallPush(s, t, value, s') {
      QuietKeepsInv(s, t, s');
    } else if t :| 0 <= t < |s.pcs| && PushStep(s, t, s') {
      PushKeepsInv(s, t, s');
    } else if PopStep(s, s') {
      PopKeepsInv(s, s');
    } else {
      FlagsKeepInv(s, s');
    }
  }

  lemma InitHasInv(s: State)
    requires Init(s)
    ensures Inv(s)
  {
    forall p | InTurn(s, p)
      ensures SequenceOk(s, p)
    {
      RemainderUnique(p, s.mask + 1, 0, p);
    }
  }

  lemma {:induction false} RunsKeepInv(run: seq<State>, i: nat)
    requires IsRun(run, Init, Next) && i < |run|
    requires forall j :: 0 <= j < i ==> Small(run[j])
    ensures Inv(run[i])
  {
    if i == 0 {
      InitHasInv(run[0]);
    } else {
      RunsKeepInv(run, i - 1);
      assert Next(run[i - 1], run[i - 1 + 1]);
      StepKeepsInv(run[i - 1], run[i]);
    }
  }

  // What holds of every run.

  ghost predicate SmallUntil(run: seq<State>, i: nat) {
    i < |run| && forall j :: 0 <= j <= i ==> Small(run[j])
  }

  /** Every position has been claimed by exactly one producer: no two producers
      work on one position, or on one slot, and none works on a position that the
      consumer has taken. */
  lemma PositionsAreExclusive(run: seq<State>, i: nat, t: nat, u: nat)
    requires IsRun(run, Init, Next) && SmallUntil(run, i) && t < |run[i].pcs| && u < |run[i].pcs| && t != u
    requires InFlight(run[i].pcs[t]) && InFlight(run[i].pcs[u])
    ensures var s := run[i];
      && s.Shaped()
      && s.pcs[t].head != s.pcs[u].head
      && SlotOf(s.pcs[t].head, s.mask) != SlotOf(s.pcs[u].head, s.mask)
      && s.tail <= s.pcs[t].head < |s.claims| && s.claims[s.pcs[t].head].producer == t
  {
    RunsKeepInv(run, i);
    var s := run[i];
    assert ProducerOk(s, t) && ProducerOk(s, u);
    if s.pcs[t].head < s.pcs[u].head {
      SlotsDiffer(s.pcs[t].head, s.pcs[u].head, s.mask + 1);
    } else {
      SlotsDiffer(s.pcs[u].head, s.pcs[t].head, s.mask + 1);
    }
  }

  /** The sequence number of every slot is determined by the head, the tail and
      what became of the position that has the slot in this turn; and an unread
      value is still there. */
  lemma SlotsAreDetermined(run: seq<State>, i: nat, p: nat)
    requires IsRun(run, Init, Next) && SmallUntil(run, i) && InTurn(run[i], p)
    ensures var s := run[i];
      && s.Shaped() && |s.claims| == s.head
      && s.At(p).sequence == (if p < s.head && s.claims[p].status.Published? then p + 1 else p)
      && (s.tail <= p < s.head && s.claims[p].status.Published? ==> s.At(p).data == s.claims[p].value)
  {
    RunsKeepInv(run, i);
    assert SequenceOk(run[i], p);
    assert run[i].tail <= p < run[i].head ==> DataOk(run[i], p);
  }

  ghost function ClaimedValues(s: State): seq<Item> {
    seq(|s.claims|, k requires 0 <= k < |s.claims| => s.claims[k].value)
  }

  /** What the consumer has taken is a prefix of the values in the order in which
      their positions were claimed, closed or not, and none of it was abandoned. */
  lemma OutputIsInClaimOrder(run: seq<State>, i: nat)
    requires IsRun(run, Init, Next) && SmallUntil(run, i)
    ensures run[i].output <= ClaimedValues(run[i])
    ensures forall k :: 0 <= k < |run[i].output| && k < |run[i].claims| ==> run[i].claims[k].status == Published
  {
    RunsKeepInv(run, i);
  }

  ghost predicate Extends(claims: seq<Claim>, claims': seq<Claim>) {
    && |claims| <= |claims'|
    && forall k :: 0 <= k < |claims| ==>
         && claims'[k].value == claims[k].value && claims'[k].producer == claims[k].producer
         && (claims[k].status.Pending? || claims'[k].status == claims[k].status)
  }

  lemma StepExtends(s: State, s': State)
    requires Inv(s) && Next(s, s')
    ensures Extends(s.claims, s'.claims) && s.output <= s'.output
  {
    if t :| 0 <= t < |s.pcs| && PushStep(s, t, s') {
      PushExtends(s, t, s');
    } else {
      hide SlotOf, Diff;
    }
  }

  lemma PushExtends(s: State, t: nat, s': State)
    requires Inv(s) && t < |s.pcs| && PushStep(s, t, s')
    ensures Extends(s.claims, s'.claims) && s.output <= s'.output
  {
    hide SlotOf, Diff;
    assert ProducerOk(s, t);
  }

  /** Claims are for good: later states only add claims behind them and settle the
      pending ones once, and what was taken stays taken. */
  lemma {:induction false} ClaimsAreForGood(run: seq<State>, i: nat, j: nat)
    requires IsRun(run, Init, Next) && i <= j && SmallUntil(run, j)
    ensures Extends(run[i].claims, run[j].claims) && run[i].output <= run[j].output
  {
    if i < j {
      ClaimsAreForGood(run, i, j - 1);
      RunsKeepInv(run, j - 1);
      assert Next(run[j - 1], run[j - 1 + 1]);
      StepExtends(run[j - 1], run[j]);
    }
  }

  /** A position that was given up after close stops the consumer there: what was
      accepted behind it is never popped. */
  lemma AbandonedPositionStops(run: seq<State>, i: nat, j: nat, p: nat)
    requires IsRun(run, Init, Next) && i <= j && SmallUntil(run, j)
    requires p < |run[i].claims| && run[i].claims[p].status == Abandoned
    ensures |run[j].output| <= p
  {
    ClaimsAreForGood(run, i, j);
    RunsKeepInv(run, j);
    assert !IsPublished(run[j], p);
  }

  /** try_push reports full only if every slot is claimed and not yet freed. */
  lemma RefusedMeansFull(run: seq<State>, i: nat, t: nat)
    requires IsRun(run, Init, Next) && i < |run| - 1 && SmallUntil(run, i)
    requires t < |run[i].pcs| && t < |run[i + 1].pcs| && run[i].pcs[t].Looking? && run[i + 1].pcs[t].Idle?
    ensures run[i].head == Base(run[i]) + run[i].mask + 1
  {
    RunsKeepInv(run, i);
    var s, s' := run[i], run[i + 1];
    assert ProducerOk(s, t);
    LookTells(s, s.pcs[t].head);
    assert Next(s, s');
    RefusalLooked(s, s', t);
  }

  lemma RefusalLooked(s: State, s': State, t: nat)
    requires Next(s, s') && t < |s.pcs| && t < |s'.pcs| && s.pcs[t].Looking? && s'.pcs[t].Idle?
    ensures Diff(s.At(s.pcs[t].head).sequence, s.pcs[t].head) < 0
  {
    hide SlotOf, Diff;
    if u :| 0 <= u < |s.pcs| && PushStep(s, u, s') {
      assert u == t;
    }
  }

  /** A look of try_pop finds a value exactly if the oldest position is published,
      and a look that finds none changes nothing. */
  lemma PopFindsTheOldest(run: seq<State>, i: nat)
    requires IsRun(run, Init, Next) && i < |run| - 1 && SmallUntil(run, i)
    requires run[i].Shaped() && run[i].consumer.Resting? && PopStep(run[i], run[i + 1])
    ensures run[i + 1].consumer.Taking? <==>
            run[i].tail < |run[i].claims| && run[i].claims[run[i].tail].status == Published
    ensures run[i + 1].consumer.Taking? || run[i + 1] == run[i]
  {
    RunsKeepInv(run, i);
    PeekTells(run[i]);
  }
}
