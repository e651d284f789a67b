/** The ring of one producer and one consumer as an object that changes its slots
    in place, and why a call that nobody disturbs is a run of the step system. */
module SpscAlone {
  import opened Bits
  import opened Options
  import opened Ring
  import opened SpscQueue
  import opened Threads

  predicate AtRest(s: State) {
    s.producer == Away && s.consumer == Gone
  }

  function Refreshed(s: State): State {
    s.(tailCached := s.tail, knownTail := |s.popped|)
  }

  function Appended(s: State, value: Item): State
    requires s.Shaped()
  {
    s.Put(s.head, Some(value)).(head := Add(s.head, 1, TWO64), pushed := s.pushed + [value])
  }

  /** The state after try_push, and after try_pop. */
  function Pushed(s: State, value: Item): State
    requires s.Shaped()
  {
    if !LooksFull(s) then Appended(s, value)
    else if !LooksFull(Refreshed(s)) then Appended(Refreshed(s), value)
    else Refreshed(s)
  }

  function Reloaded(s: State): State {
    if s.tail == s.headCached then s.(headCached := s.head, knownHead := |s.pushed|) else s
  }

  function Popped(s: State): State
    requires s.Shaped()
  {
    var r := Reloaded(s);
    if r.tail == r.headCached || s.At(s.tail).None? then r
    else r.Put(s.tail, None).(tail := Add(s.tail, 1, TWO64), popped := s.popped + [s.At(s.tail).value])
  }

  lemma Advance(s: State, mid: State, s': State)
    requires Reaches(Next, s, mid) && Inv(mid)
    requires (exists value :: CallPush(mid, value, s')) || PushStep(mid, s') || CallPop(mid, s') || PopStep(mid, s')
    ensures Reaches(Next, s, s') && Inv(s')
  {
    assert Next(mid, s');
    ReachesOneMore(Next, s, mid, s');
    StepKeepsInv(mid, s');
  }

  /** From the point where the producer has found room. */
  lemma AppendAlone(s: State, r: State, value: Item)
    requires AtRest(r) && Inv(r.(producer := Writing(value))) && Reaches(Next, s, r.(producer := Writing(value)))
    ensures Reaches(Next, s, Appended(r, value)) && Inv(Appended(r, value))
  {
    hide SlotOf;
    var writing := r.(producer := Writing(value));
    var publishing := writing.Put(r.head, Some(value)).(producer := Publishing(value));
    Advance(s, writing, publishing);
    assert Appended(r, value) ==
           publishing.(head := Add(r.head, 1, TWO64), pushed := r.pushed + [value], producer := Away);
    Advance(s, publishing, Appended(r, value));
  }

  lemma PushAlone(s: State, value: Item)
    requires Inv(s) && AtRest(s)
    ensures Reaches(Next, s, Pushed(s, value)) && Inv(Pushed(s, value))
  {
    hide SlotOf;
    ReachesSelf(Next, s);
    if !LooksFull(s) {
      assert CallPush(s, value, s.(producer := Writing(value)));
      Advance(s, s, s.(producer := Writing(value)));
      AppendAlone(s, s, value);
    } else {
      var refreshing := s.(producer := Refreshing(value));
      assert CallPush(s, value, refreshing);
      Advance(s, s, refreshing);
      var r := Refreshed(s);
      if LooksFull(r) {
        assert r == r.(producer := Away);
        Advance(s, refreshing, r);
      } else {
        Advance(s, refreshing, r.(producer := Writing(value)));
        AppendAlone(s, r, value);
      }
    }
  }

  /** From the point where the consumer has found a value. */
  lemma RemoveAlone(s: State, r: State)
    requires AtRest(r) && Inv(r.(consumer := Reading)) && Reaches(Next, s, r.(consumer := Reading))
    ensures r.At(r.tail).Some?
    ensures var s' := r.Put(r.tail, None).(tail := Add(r.tail, 1, TWO64), popped := r.popped + [r.At(r.tail).value]);
      Reaches(Next, s, s') && Inv(s')
  {
    var reading := r.(consumer := Reading);
    assert InTurn(reading, |r.popped|) && SlotOk(reading, |r.popped|);
    WrapKeepsSlot(|r.popped|, r.mask);
    hide SlotOf;
    var value := r.At(r.tail).value;
    var releasing := reading.Put(r.tail, None).(consumer := Releasing(value));
    Advance(s, reading, releasing);
    var s' := r.Put(r.tail, None).(tail := Add(r.tail, 1, TWO64), popped := r.popped + [value]);
    assert s' == releasing.(tail := Add(r.tail, 1, TWO64), popped := r.popped + [value], consumer := Gone);
    Advance(s, releasing, s');
  }

  lemma PopAlone(s: State)
    requires Inv(s) && AtRest(s)
    ensures Reaches(Next, s, Popped(s)) && Inv(Popped(s))
    ensures s.tail != s.head ==> s.At(s.tail).Some?
  {
    hide SlotOf;
    LooksFullMeans(s);
    ReachesSelf(Next, s);
    if s.tail != s.headCached {
      Advance(s, s, s.(consumer := Reading));
      RemoveAlone(s, s);
    } else {
      Advance(s, s, s.(consumer := Reloading));
      var r := Reloaded(s);
      if s.tail == s.head {
        assert r == r.(consumer := Gone);
        Advance(s, s.(consumer := Reloading), r);
      } else {
        Advance(s, s.(consumer := Reloading), r.(consumer := Reading));
        RemoveAlone(s, r);
      }
    }
  }

  /** What a push does to the queue that the ring stands for. */
  lemma PushIsFifo(s: State, value: Item)
    requires Inv(s) && AtRest(s)
    ensures Queue(Pushed(s, value)) ==
              if |Queue(s)| == s.mask + 1 then Queue(s) else Queue(s) + [value]
    ensures LooksFull(s) && LooksFull(Refreshed(s)) <==> |Queue(s)| == s.mask + 1
  {
    hide SlotOf;
    LooksFullMeans(s);
    LooksFullMeans(Refreshed(s));
    if |Queue(s)| != s.mask + 1 {
      assert Pushed(s, value).pushed == s.pushed + [value] && Pushed(s, value).popped == s.popped;
    }
  }

  /** What a pop does to it. */
  lemma PopIsFifo(s: State)
    requires Inv(s) && AtRest(s)
    ensures Reloaded(s).tail == Reloaded(s).headCached <==> Queue(s) == []
    ensures if Queue(s) == [] then Queue(Popped(s)) == []
            else Queue(Popped(s)) == Queue(s)[1..] && s.At(s.tail) == Some(Queue(s)[0])
  {
    hide SlotOf;
    LooksFullMeans(s);
    LooksFullMeans(Reloaded(s));
    if Queue(s) != [] {
      OldestIsAtTail(s);
      assert Popped(s).popped == s.popped + [Queue(s)[0]] && Popped(s).pushed == s.pushed;
    }
  }

  lemma OldestIsAtTail(s: State)
    requires Inv(s) && AtRest(s) && Queue(s) != []
    ensures s.At(s.tail) == Some(Queue(s)[0])
  {
    assert InTurn(s, |s.popped|) && SlotOk(s, |s.popped|);
    WrapKeepsSlot(|s.popped|, s.mask);
  }
}

module SpscRing {
  import opened Bits
  import opened Options
  import opened Ring
  import opened SpscAlone
  import opened SpscQueue

  class Buffer {
    const mask: nat
    const buffer: array<Option<Item>>
    var head: nat
    var tailCached: nat
    var tail: nat
    var headCached: nat
    /** All values pushed and popped, and the indices behind the two copies. */
    ghost var pushed: seq<Item>
    ghost var popped: seq<Item>
    ghost var knownTail: nat
    ghost var knownHead: nat

    ghost function View(): (s: State)
      reads this, buffer
      ensures AtRest(s)
    {
      State(mask, buffer[..], head, tailCached, tail, headCached, Away, Gone, pushed, popped, knownTail, knownHead)
    }

    ghost predicate Valid()
      reads this, buffer
    {
      Inv(View())
    }

    constructor (capacity: nat)
      requires capacity <= 0x8000_0000_0000_0000
      ensures Valid() && fresh(buffer) && Queue(View()) == []
      ensures IsLeastPow2(mask + 1, if capacity < 2 then 2 else capacity)
    {
      var size := RoundUpPow2(if capacity < 2 then 2 else capacity);
      mask := size - 1;
      buffer := new Option<Item>[size](_ => None);
      head, tail, tailCached, headCached := 0, 0, 0, 0;
      pushed, popped, knownTail, knownHead := [], [], 0, 0;
      new;
      LeastIsCapacity(mask + 1, if capacity < 2 then 2 else capacity);
      InitHasInv(View());
    }

    /** False exactly if the ring is full; otherwise the value is the newest. */
    method TryPush(value: Item) returns (ok: bool)
      requires Valid()
      modifies this`head, this`tailCached, this`pushed, this`knownTail, buffer
      ensures Valid() && View() == Pushed(old(View()), value)
      ensures ok <==> |Queue(old(View()))| <= mask
      ensures Queue(View()) == Queue(old(View())) + if ok then [value] else []
    {
      PushAlone(View(), value);
      PushIsFifo(View(), value);
      var h := head;
      if Sub(h, tailCached, TWO64) > mask {
        tailCached := tail;
        knownTail := |popped|;
        if Sub(h, tailCached, TWO64) > mask {
          return false;
        }
      }
      buffer[SlotOf(h, mask)] := Some(value);
      head := Add(h, 1, TWO64);
      pushed := pushed + [value];
      return true;
    }

    /** Nothing exactly if the ring is empty; otherwise the oldest value. */
    method TryPop() returns (r: Option<Item>)
      requires Valid()
      modifies this`tail, this`headCached, this`popped, this`knownHead, buffer
      ensures Valid() && View() == Popped(old(View()))
      ensures r == if Queue(old(View())) == [] then None else Some(Queue(old(View()))[0])
      ensures Queue(View()) == if r.None? then [] else Queue(old(View()))[1..]
    {
      PopAlone(View());
      PopIsFifo(View());
      var t := tail;
      if t == headCached {
        headCached := head;
        knownHead := |pushed|;
        if t == headCached {
          return None;
        }
      }
      var i := SlotOf(t, mask);
      r := buffer[i];
      buffer[i] := None;
      tail := Add(t, 1, TWO64);
      popped := popped + [r.value];
    }
  }
}
