/** The bounded ring as an object that changes its slots in place, one call at a
    time, and why such a call is a run of the step system. */
module MpscAlone {
  import opened Bits
  import opened MpscQueue
  import opened Ring
  import opened Threads

  /** Producer t is not inside try_push, nor the consumer inside try_pop. */
  predicate AtRest(s: State, t: nat) {
    t < |s.pcs| && s.pcs[t] == Idle && s.consumer == Resting
  }

  /** One more position can be taken below 2^63. */
  predicate HasRoom(s: State) {
    s.head + s.mask + 2 < TWO63
  }

  predicate IsFull(s: State) {
    s.head > s.tail + s.mask
  }

  /** The state after a push that nobody disturbs: a closed ring that is not full
      gives up the position. */
  function Pushed(s: State, t: nat, value: Item): State
    requires s.Shaped()
  {
    var h := s.head;
    if IsFull(s) then s
    else if s.closed then
      s.Put(h, s.At(h).(sequence := h)).(head := h + 1, claims := s.claims + [Claim(value, t, Abandoned)])
    else
      s.Put(h, Slot(h + 1, value)).(head := h + 1, claims := s.claims + [Claim(value, t, Published)])
  }

  /** The state after a pop that nobody disturbs. */
  function Popped(s: State): State
    requires s.Shaped()
  {
    if !IsPublished(s, s.tail) then s
    else
      s.Put(s.tail, s.At(s.tail).(sequence := s.tail + s.mask + 1))
       .(tail := s.tail + 1, output := s.output + [s.At(s.tail).data])
  }

  /** One more step of producer t. */
  lemma Advance(s: State, mid: State, t: nat, s': State)
    requires Reaches(SmallStep, s, mid) && Inv(mid) && Small(mid) && t < |mid.pcs|
    requires (exists value :: CallPush(mid, t, value, s')) || PushStep(mid, t, s')
    ensures Reaches(SmallStep, s, s') && Inv(s')
  {
    assert Next(mid, s');
    ReachesOneMore(SmallStep, s, mid, s');
    StepKeepsInv(mid, s');
  }

  lemma AdvancePop(s: State, mid: State, s': State)
    requires Reaches(SmallStep, s, mid) && Inv(mid) && Small(mid) && PopStep(mid, s')
    ensures Reaches(SmallStep, s, s') && Inv(s')
  {
    assert Next(mid, s');
    ReachesOneMore(SmallStep, s, mid, s');
    StepKeepsInv(mid, s');
  }

  /** The load of the head and of its slot's sequence: full or free. */
  lemma LookAtHead(s: State)
    requires Inv(s) && Small(s)
    ensures Diff(s.At(s.head).sequence, s.head) == 0 <==> s.head <= Base(s) + s.mask
    ensures Diff(s.At(s.head).sequence, s.head) < 0 <==> s.head > Base(s) + s.mask
  {
    var p := Occupant(Base(s), s.mask + 1, s.head);
    assert InTurn(s, p) && SequenceOk(s, p);
    SameSlotApart(p, s.head, s.mask + 1);
  }

  lemma StartsAlone(s: State, t: nat, value: Item) returns (looking: State)
    requires Inv(s) && Small(s) && AtRest(s, t)
    ensures looking == s.Go(t, Looking(value, s.head)) && Reaches(SmallStep, s, looking) && Inv(looking)
  {
    var loading := s.Go(t, Loading(value));
    ReachesSelf(SmallStep, s);
    assert CallPush(s, t, value, loading);
    Advance(s, s, t, loading);
    looking := loading.Go(t, Looking(value, s.head));
    Advance(s, loading, t, looking);
  }

  /** What the compare-and-swap adds: one claim, with nothing decided yet. */
  function Taken(s: State, t: nat, value: Item): State {
    s.(head := s.head + 1, claims := s.claims + [Claim(value, t, Pending)])
  }

  lemma TakesPosition(s: State, t: nat, value: Item) returns (claimed: State)
    requires Inv(s) && Small(s) && AtRest(s, t) && !IsFull(s)
    ensures claimed == Taken(s, t, value).Go(t, Claimed(value, s.head))
    ensures Reaches(SmallStep, s, claimed) && Inv(claimed)
  {
    var looking := StartsAlone(s, t, value);
    LookAtHead(s);
    hide SlotOf;
    var claiming := looking.Go(t, Claiming(value, s.head));
    Advance(s, looking, t, claiming);
    claimed := Taken(claiming, t, value).Go(t, Claimed(value, s.head));
    Advance(s, claiming, t, claimed);
  }

  lemma ClaimsAlone(s: State, t: nat, value: Item) returns (claimed: State)
    requires Inv(s) && HasRoom(s) && AtRest(s, t) && !IsFull(s)
    ensures claimed == Taken(s, t, value).Go(t, if s.closed then Abandoning(value, s.head) else Writing(value, s.head))
    ensures Reaches(SmallStep, s, claimed) && Inv(claimed)
  {
    var before := TakesPosition(s, t, value);
    hide SlotOf;
    claimed := before.Go(t, if s.closed then Abandoning(value, s.head) else Writing(value, s.head));
    Advance(s, before, t, claimed);
  }

  lemma AbandonsAlone(s: State, t: nat, value: Item)
    requires Inv(s) && HasRoom(s) && AtRest(s, t) && !IsFull(s) && s.closed
    ensures Reaches(SmallStep, s, Pushed(s, t, value)) && Inv(Pushed(s, t, value))
  {
    var claimed := ClaimsAlone(s, t, value);
    hide SlotOf;
    assert claimed.At(s.head) == s.At(s.head);
    assert s.claims + [Claim(value, t, Abandoned)] == claimed.claims[s.head := Claim(value, t, Abandoned)];
    assert Pushed(s, t, value).pcs == claimed.pcs[t := Idle];
    Advance(s, claimed, t, Pushed(s, t, value));
  }

  lemma PublishesAlone(s: State, t: nat, value: Item)
    requires Inv(s) && HasRoom(s) && AtRest(s, t) && !IsFull(s) && !s.closed
    ensures Reaches(SmallStep, s, Pushed(s, t, value)) && Inv(Pushed(s, t, value))
  {
    var claimed := ClaimsAlone(s, t, value);
    assert InTurn(s, s.head) && SequenceOk(s, s.head);
    hide SlotOf;
    var written := claimed.Put(s.head, Slot(s.head, value)).Go(t, Publishing(value, s.head));
    Advance(s, claimed, t, written);
    assert s.claims + [Claim(value, t, Published)] == claimed.claims[s.head := Claim(value, t, Published)];
    assert Pushed(s, t, value).pcs == written.pcs[t := Idle];
    assert Pushed(s, t, value).slots == written.slots[SlotOf(s.head, s.mask) := Slot(s.head + 1, value)];
    Advance(s, written, t, Pushed(s, t, value));
  }

  /** A push that nobody disturbs is a run of the step system. */
  lemma PushAlone(s: State, t: nat, value: Item)
    requires Inv(s) && HasRoom(s) && AtRest(s, t)
    ensures Reaches(SmallStep, s, Pushed(s, t, value)) && Inv(Pushed(s, t, value))
  {
    if IsFull(s) {
      var looking := StartsAlone(s, t, value);
      LookAtHead(s);
      assert s == looking.Go(t, Idle);
      Advance(s, looking, t, s);
    } else if s.closed {
      AbandonsAlone(s, t, value);
    } else {
      PublishesAlone(s, t, value);
    }
  }

  /** A pop that nobody disturbs is a run of the step system. */
  lemma PopAlone(s: State)
    requires Inv(s) && Small(s) && s.consumer.Resting?
    ensures Reaches(SmallStep, s, Popped(s)) && Inv(Popped(s))
  {
    PeekTells(s);
    ReachesSelf(SmallStep, s);
    hide SlotOf;
    if IsPublished(s, s.tail) {
      var taking := s.(consumer := Taking);
      AdvancePop(s, s, taking);
      var freeing := taking.(tail := s.tail + 1, output := s.output + [s.At(s.tail).data], consumer := Freeing(s.tail));
      AdvancePop(s, taking, freeing);
      assert Popped(s) == freeing.Put(s.tail, s.At(s.tail).(sequence := s.tail + s.mask + 1)).(consumer := Resting);
      AdvancePop(s, freeing, Popped(s));
    }
  }
}

module MpscRing {
  import opened Bits
  import opened MpscAlone
  import opened MpscQueue
  import opened Options
  import opened Ring

  class Buffer {
    const mask: nat
    const buffer: array<Slot>
    var head: nat
    var tail: nat
    var closed: bool
    /** What became of each position, and what was popped. */
    ghost var claims: seq<Claim>
    ghost var output: seq<Item>

    ghost function View(): (s: State)
      reads this, buffer
      ensures AtRest(s, 0)
    {
      State(mask, buffer[..], head, tail, closed, [Idle], Resting, claims, output)
    }

    ghost predicate Valid()
      reads this, buffer
    {
      Inv(View())
    }

    constructor (capacity: nat)
      requires capacity <= TWO63
      ensures Valid() && fresh(buffer)
      ensures IsLeastPow2(mask + 1, if capacity < 2 then 2 else capacity)
      ensures claims == [] && output == [] && !closed
    {
      var size := RoundUpPow2(if capacity < 2 then 2 else capacity);
      mask := size - 1;
      buffer := new Slot[size](_ => Slot(0, 0));
      head, tail, closed := 0, 0, false;
      claims, output := [], [];
      new;
      for i := 0 to buffer.Length
        invariant forall j :: 0 <= j < i ==> buffer[j].sequence == j
        invariant head == tail == 0 && !closed && claims == [] && output == []
      {
        buffer[i] := buffer[i].(sequence := i);
      }
      LeastIsCapacity(mask + 1, if capacity < 2 then 2 else capacity);
      InitHasInv(View());
    }

    /** Accepted unless the ring is full or closed.  A closed ring that is not full
        gives up one position, and the consumer will stop there. */
    method TryPush(value: Item) returns (ok: bool)
      requires Valid() && HasRoom(View())
      modifies this`head, this`claims, buffer
      ensures Valid() && View() == Pushed(old(View()), 0, value)
      ensures ok <==> !closed && !IsFull(old(View()))
    {
      PushAlone(View(), 0, value);
      LookAtHead(View());
      // With nobody else pushing, the first turn of the retry loop is the last.
      var h := head;
      var i := SlotOf(h, mask);
      var diff := Diff(buffer[i].sequence, h);
      if diff < 0 {
        return false;
      }
      head := Add(h, 1, TWO64);
      if closed {
        buffer[i] := buffer[i].(sequence := h);
        claims := claims + [Claim(value, 0, Abandoned)];
        assert View() == Pushed(old(View()), 0, value);
        return false;
      }
      buffer[i] := buffer[i].(data := value);
      buffer[i] := buffer[i].(sequence := Add(h, 1, TWO64));
      claims := claims + [Claim(value, 0, Published)];
      assert View() == Pushed(old(View()), 0, value);
      return true;
    }

    method TryPop() returns (r: Option<Item>)
      requires Valid() && Small(View())
      modifies this`tail, this`output, buffer
      ensures Valid() && View() == Popped(old(View()))
      ensures r == if IsPublished(old(View()), old(tail)) then Some(old(claims)[old(tail)].value) else None
    {
      PopAlone(View());
      PeekTells(View());
      assert DataAtTail(View());
      var t := tail;
      var i := SlotOf(t, mask);
      var diff := Diff(buffer[i].sequence, Add(t, 1, TWO64));
      if diff == 0 {
        tail := Add(t, 1, TWO64);
        var result := buffer[i].data;
        buffer[i] := buffer[i].(sequence := Add(t + mask, 1, TWO64));
        output := output + [result];
        assert View() == Popped(old(View()));
        return Some(result);
      }
      return None;
    }

    method Close()
      requires Valid()
      modifies this`closed
      ensures Valid() && View() == old(View()).(closed := true)
    {
      closed := true;
      FlagsKeepInv(old(View()), View());
    }
  }

  ghost predicate DataAtTail(s: State)
    requires s.Shaped()
  {
    s.tail < s.head ==> DataOk(s, s.tail)
  }

  /** The values that were accepted and not yet popped, oldest first. */
  function Unread(s: State): seq<Item> {
    seq(|s.claims|, k requires 0 <= k < |s.claims| => s.claims[k].value)[if s.tail <= |s.claims| then s.tail else 0..]
  }

  /** An open ring, no position of which was given up, is a bounded
      first-in first-out queue. */
  lemma BehavesAsFifo(s: State, value: Item)
    requires Inv(s) && HasRoom(s) && AtRest(s, 0) && !s.closed
    requires forall p :: s.tail <= p < s.head ==> IsPublished(s, p)
    ensures IsFull(s) <==> |Unread(s)| == s.mask + 1
    ensures Unread(Pushed(s, 0, value)) ==
              if |Unread(s)| == s.mask + 1 then Unread(s)
              else Unread(s) + [value]
    ensures Unread(s) == [] ==> Popped(s) == s
    ensures Unread(s) != [] ==>
              && Unread(Popped(s)) == Unread(s)[1..]
              && Popped(s).output == s.output + [Unread(s)[0]]
  {
    if s.tail < s.head {
      assert DataOk(s, s.tail);
    }
  }
}
