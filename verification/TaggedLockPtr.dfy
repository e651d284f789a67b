/** The lock in the low bits of a pointer word, over the parking lot: any number
    of threads and of tagged pointers, several of which may share a bucket. */
module TaggedLockPtr {
  import opened Bits
  import opened Holders
  import opened Options
  import opened Parking
  import opened ParkingQueue
  import opened Threads

  const LOCKED_BIT: nat := 0x1
  const WAITERS_BIT: nat := 0x2
  const MARKED_BIT: nat := 0x4
  const FLAG_MASK: nat := 0x7
  const POINTER_MASK: nat := 0xffff_ffff_ffff_fff8

  /** Where a thread is in the lock's own code; the parking lot knows the rest. */
  datatype PC =
    | Idle                                          // in no call; it may hold locks
    | Locking(lock: nat, seen: nat, slow: bool)     // saw the lock bit clear, before the exchange
    | Contended(lock: nat)                          // in lock_contended, before loading the word
    | Sleeping(lock: nat)                           // in park
    | Marking(lock: nat)                            // in park's validation, before setting WAITERS_BIT
    | Unlocking(lock: nat)                          // in unlock, before loading the word again
    | Freeing(lock: nat, seen: nat)                 // in unlock, before the exchange
    | Unparking(lock: nat)                          // in unlock, word released, in unpark_one
    | Swapping(lock: nat, expected: nat, desired: nat)  // in compare_exchange, before the exchange

  /** The tagged words by their address, and the locks each thread holds. */
  datatype System = System(lot: Parking.State, words: map<nat, nat>, held: seq<set<nat>>, pcs: seq<PC>) {
    function Go(t: nat, p: PC): System
      requires t < |pcs|
    {
      this.(pcs := pcs[t := p])
    }

    function Put(lock: nat, word: nat): System {
      this.(words := words[lock := word])
    }

    function Hold(t: nat, locks: set<nat>): System
      requires t < |held|
    {
      this.(held := held[t := locks])
    }
  }

  // The words: what the masks of the source test and change, in arithmetic terms.

  predicate IsLocked(w: nat) { w % 2 == 1 }
  predicate HasWaiters(w: nat) { w / 2 % 2 == 1 }
  predicate IsMarked(w: nat) { w / 4 % 2 == 1 }
  predicate Untagged(w: nat) { w % 8 == 0 }

  function PointerOf(w: nat): nat { w - w % 8 }

  /** The bits that no lock operation changes: the pointer and the reserved flag. */
  function Rest(w: nat): nat { w / 2 / 2 }

  function SetLocked(w: nat): (r: nat)
    requires w < TWO64
    ensures r < TWO64 && IsLocked(r) && HasWaiters(r) == HasWaiters(w) && Rest(r) == Rest(w)
  {
    var high := w / 2;
    assert (2 * high + 1) / 2 == high;
    2 * high + 1
  }

  function ClearLocked(w: nat): (r: nat)
    requires w < TWO64
    ensures r < TWO64 && !IsLocked(r) && HasWaiters(r) == HasWaiters(w) && Rest(r) == Rest(w)
  {
    var high := w / 2;
    assert 2 * high / 2 == high;
    2 * high
  }

  function SetWaiters(w: nat): (r: nat)
    requires w < TWO64
    ensures r < TWO64 && HasWaiters(r) && IsLocked(r) == IsLocked(w) && Rest(r) == Rest(w)
  {
    var high := SetLocked(w / 2);
    assert (2 * high + w % 2) / 2 == high;
    2 * high + w % 2
  }

  function ClearWaiters(w: nat): (r: nat)
    requires w < TWO64
    ensures r < TWO64 && !HasWaiters(r) && IsLocked(r) == IsLocked(w) && Rest(r) == Rest(w)
  {
    var high := ClearLocked(w / 2);
    assert (2 * high + w % 2) / 2 == high;
    2 * high + w % 2
  }

  /** The tests of the source are masks with the flag constants. */
  lemma TestsAreMasks(w: nat)
    requires w < TWO64
    ensures IsLocked(w) <==> And(w, LOCKED_BIT) != 0
    ensures HasWaiters(w) <==> And(w, WAITERS_BIT) != 0
    ensures IsMarked(w) <==> And(w, MARKED_BIT) != 0
    ensures Untagged(w) <==> And(w, FLAG_MASK) == 0
    ensures PointerOf(w) == And(w, POINTER_MASK)
  {
    assert Pow2(3) == 8;
    hide And, Or, Pow2;
    LowBit(w);
    SecondBit(w);
    ThirdBit(w);
    AndLowMask(w, 3);
    FlagsCleared(w);
  }

  /** Its updates are masks with those constants and their complements. */
  lemma UpdatesAreMasks(w: nat)
    requires w < TWO64
    ensures SetLocked(w) == Or(w, LOCKED_BIT) && ClearLocked(w) == And(w, 0xffff_ffff_ffff_fffe)
    ensures SetWaiters(w) == Or(w, WAITERS_BIT) && ClearWaiters(w) == And(w, 0xffff_ffff_ffff_fffd)
  {
    hide And, Or;
    LowBit(w);
    SecondBit(w);
    FlagsCleared(w);
  }

  /** The word after unpark_one's callback. */
  function Answered(w: nat, result: UnparkResult): (r: nat)
    requires w < TWO64
    ensures r < TWO64 && IsLocked(r) == IsLocked(w) && Rest(r) == Rest(w)
    ensures HasWaiters(r) <==> HasWaiters(w) && result == HasMoreWaiters
  {
    if result != HasMoreWaiters then ClearWaiters(w) else w
  }

  // The steps.

  ghost predicate InitSystem(s: System) {
    && Parking.Init(s.lot) && |s.lot.pcs| == |s.pcs| && |s.held| == |s.pcs|
    && (forall l :: l in s.words ==> s.words[l] < TWO64 && Untagged(s.words[l]))
    && (forall t :: 0 <= t < |s.pcs| ==> s.pcs[t] == Idle && s.held[t] == {})
  }

  ghost predicate Sized(s: System) {
    && s.lot.Sized() && |s.lot.pcs| == |s.pcs| && |s.held| == |s.pcs|
    && forall l :: l in s.words ==> s.words[l] < TWO64
  }

  /** The load in lock, try_lock or lock_contended.  A failed try_lock returns. */
  ghost predicate LoadToLock(s: System, t: nat, lock: nat, s': System)
    requires Sized(s) && t < |s.pcs|
  {
    && lock in s.words
    && (s.pcs[t].Idle? || s.pcs[t] == Contended(lock))
    && if !IsLocked(s.words[lock]) then s' == s.Go(t, Locking(lock, s.words[lock], s.pcs[t].Contended?))
       else
         || s' == s
         || (s.pcs[t].Idle? && s' == s.Go(t, Contended(lock)))
         || (s.pcs[t].Contended? && Parking.Enter(s.lot, t, Arriving(lock), s'.lot)
             && s' == s.Go(t, Sleeping(lock)).(lot := s'.lot))
  }

  /** The exchange that takes the lock; if it fails, lock and lock_contended load again. */
  ghost predicate ExchangeToLock(s: System, t: nat, s': System)
    requires Sized(s) && t < |s.pcs|
  {
    && s.pcs[t].Locking? && s.pcs[t].lock in s.words
    && var l := s.pcs[t].lock;
       if s.words[l] == s.pcs[t].seen then
         s' == s.Go(t, PC.Idle).Put(l, SetLocked(s.pcs[t].seen)).Hold(t, s.held[t] + {l})
       else s' == s.Go(t, if s.pcs[t].slow then Contended(l) else PC.Idle)
  }

  ghost predicate LoadToUnlock(s: System, t: nat, lock: nat, s': System)
    requires Sized(s) && t < |s.pcs|
  {
    && lock in s.words && lock in s.held[t]
    && (s.pcs[t].Idle? || s.pcs[t] == Unlocking(lock))
    && s' == s.Go(t, Freeing(lock, s.words[lock]))
  }

  /** The exchange that releases the lock; with waiters, unpark_one is called next. */
  ghost predicate ExchangeToUnlock(s: System, t: nat, s': System)
    requires Sized(s) && t < |s.pcs|
  {
    && s.pcs[t].Freeing? && s.pcs[t].lock in s.words && s.pcs[t].seen < TWO64
    && var l, seen := s.pcs[t].lock, s.pcs[t].seen;
       if s.words[l] != seen then s' == s.Go(t, Unlocking(l))
       else
         var freed := s.Put(l, ClearLocked(seen)).Hold(t, s.held[t] - {l});
         if HasWaiters(seen) then
           Parking.Enter(s.lot, t, Calling(l), s'.lot) && s' == freed.Go(t, Unparking(l)).(lot := s'.lot)
         else s' == freed.Go(t, PC.Idle)
  }

  /** A step of the parking lot itself, and the return to the lock's code. */
  ghost predicate LotStep(s: System, t: nat, s': System)
    requires Sized(s) && t < |s.pcs|
  {
    && (s.pcs[t].Sleeping? || s.pcs[t].Unparking?) && s.pcs[t].lock in s.words
    && Parking.Step(s.lot, t, s'.lot) && t < |s'.lot.pcs|
    && s' == s.Go(t, if !s'.lot.pcs[t].Out? then s.pcs[t]
                     else if s.pcs[t].Sleeping? then Contended(s.pcs[t].lock) else PC.Idle).(lot := s'.lot)
  }

  /** The load in park's validation. */
  ghost predicate Validate(s: System, t: nat, s': System)
    requires Sized(s) && t < |s.pcs|
  {
    && s.pcs[t].Sleeping? && s.pcs[t].lock in s.words && s.lot.pcs[t].Deciding?
    && var w := s.words[s.pcs[t].lock];
       if IsLocked(w) && !HasWaiters(w) then s' == s.Go(t, Marking(s.pcs[t].lock))
       else Parking.Decide(s.lot, t, IsLocked(w), s'.lot) && s' == s.(lot := s'.lot)
  }

  /** The fetch_or in park's validation. */
  ghost predicate Mark(s: System, t: nat, s': System)
    requires Sized(s) && t < |s.pcs|
  {
    && s.pcs[t].Marking? && s.pcs[t].lock in s.words
    && var l := s.pcs[t].lock;
       Parking.Decide(s.lot, t, true, s'.lot)
       && s' == s.Go(t, Sleeping(l)).Put(l, SetWaiters(s.words[l])).(lot := s'.lot)
  }

  /** The callback of unpark_one: the fetch_and, unless more waiters are left. */
  ghost predicate Callback(s: System, t: nat, s': System)
    requires Sized(s) && t < |s.pcs|
  {
    && s.pcs[t].Unparking? && s.pcs[t].lock in s.words && s.lot.pcs[t].Unlinked?
    && var l := s.pcs[t].lock;
       Parking.Answer(s.lot, t, s'.lot)
       && s' == s.Put(l, Answered(s.words[l], s.lot.pcs[t].result)).(lot := s'.lot)
  }

  /** A call of compare_exchange, whose pointers are aligned. */
  ghost predicate CallExchange(s: System, t: nat, lock: nat, expected: nat, desired: nat, s': System)
    requires t < |s.pcs|
  {
    && s.pcs[t].Idle? && lock in s.words
    && expected < TWO64 && desired < TWO64 && Untagged(expected) && Untagged(desired)
    && s' == s.Go(t, Swapping(lock, expected, desired))
  }

  ghost predicate CompareExchange(s: System, t: nat, s': System)
    requires t < |s.pcs|
  {
    && s.pcs[t].Swapping? && s.pcs[t].lock in s.words
    && var l := s.pcs[t].lock;
       s' == (if s.words[l] == s.pcs[t].expected then s.Put(l, s.pcs[t].desired) else s).Go(t, PC.Idle)
  }

  ghost predicate StepOf(s: System, t: nat, s': System)
    requires Sized(s) && t < |s.pcs|
  {
    || (exists lock :: LoadToLock(s, t, lock, s'))
    || ExchangeToLock(s, t, s')
    || (exists lock :: LoadToUnlock(s, t, lock, s'))
    || ExchangeToUnlock(s, t, s')
    || LotStep(s, t, s')
    || Validate(s, t, s')
    || Mark(s, t, s')
    || Callback(s, t, s')
    || (exists lock, expected, desired :: CallExchange(s, t, lock, expected, desired, s'))
    || CompareExchange(s, t, s')
  }

  ghost predicate Next(s: System, s': System) {
    Sized(s) && exists t :: 0 <= t < |s.pcs| && StepOf(s, t, s')
  }

  // The invariant.

  /** The thread's place in the lot agrees with its place in the lock's code. */
  ghost predicate Agrees(s: System, t: nat)
    requires Sized(s) && t < |s.pcs|
  {
    var q := s.lot.pcs[t];
    match s.pcs[t]
    case Idle => q.Out?
    case Locking(lock, seen, _) => q.Out? && lock in s.words && seen < TWO64 && !IsLocked(seen)
    case Contended(lock) => q.Out? && lock in s.words
    case Sleeping(lock) =>
      && lock in s.words
      && (q.Arriving? || q.Deciding? || q.Accepting? || q.Refused? || Waits(q)) && q.key == lock
    case Marking(lock) => lock in s.words && q == Deciding(lock)
    case Unlocking(lock) => q.Out? && lock in s.held[t]
    case Freeing(lock, seen) => q.Out? && lock in s.held[t] && seen < TWO64
    case Unparking(lock) =>
      && lock in s.words
      && (q.Waking? || ((q.Calling? || q.Searching? || q.Unlinked? || q.Told? || q.Releasing?) && q.key == lock))
    case Swapping(lock, expected, desired) =>
      q.Out? && lock in s.words && expected < TWO64 && desired < TWO64 && Untagged(expected) && Untagged(desired)
  }

  /** The lock bit says whether some thread holds the lock, and no two do. */
  ghost predicate HeldInv(s: System) {
    && (forall l :: l in s.words ==> (IsLocked(s.words[l]) <==> IsHeld(s.held, l)))
    && (forall t, l :: 0 <= t < |s.held| && l in s.held[t] ==> l in s.words)
    && Exclusive(s.held)
  }

  /** What the holder of the lock's bucket is doing, Out if nobody holds it. */
  ghost function OwnerPC(lot: Parking.State, l: nat): Parking.PC
    requires lot.Sized()
  {
    var owner := lot.buckets[HashAddress(l)].owner;
    if owner.Some? && owner.value < |lot.pcs| then lot.pcs[owner.value] else Out
  }

  /** How the waiters flag stands to the queue, given what the bucket's holder is doing. */
  predicate FlagOk(q: Parking.PC, l: nat, flag: bool, queued: bool) {
    if q == Accepting(l) then flag
    else if q.Unlinked? && q.key == l then
      (flag <==> q.result != NoWaiter) && (queued <==> q.result == HasMoreWaiters)
    else flag <==> queued
  }

  ghost predicate FlagInv(s: System, l: nat)
    requires s.lot.Sized() && l in s.words
  {
    FlagOk(OwnerPC(s.lot, l), l, HasWaiters(s.words[l]), HasKey(s.lot.QueueOf(l), l))
  }

  ghost predicate Inv(s: System) {
    && Sized(s)
    && Parking.Inv(s.lot)
    && HeldInv(s)
    && (forall t :: 0 <= t < |s.pcs| ==> Agrees(s, t))
    && (forall l :: l in s.words ==> FlagInv(s, l))
  }

  // The flag and the queue.

  predicate InBucket(q: Parking.PC, l: nat) {
    Parking.Holds(q) && HashAddress(q.key) == HashAddress(l)
  }

  lemma OwnerMoves(lot: Parking.State, t: nat, lot': Parking.State, l: nat)
    requires OwnerInv(lot) && OwnerInv(lot') && Effect(lot, t, lot')
    ensures OwnerPC(lot', l) ==
              if InBucket(lot'.pcs[t], l) then lot'.pcs[t]
              else if InBucket(lot.pcs[t], l) then Out
              else OwnerPC(lot, l)
  {
    var b := HashAddress(l);
    var owner, owner' := lot.buckets[b].owner, lot'.buckets[b].owner;
    if owner'.Some? && owner'.value != t {
      assert Unmoved(lot, lot', owner'.value);
    } else if owner'.None? && owner.Some? && owner.value != t {
      assert Unmoved(lot, lot', owner.value);
    }
  }

  /** A step of the lot changes the queue of its own key, and only in two places. */
  predicate KeyMove(q: Parking.PC, q': Parking.PC, l: nat, queued: bool, queued': bool) {
    && (q == Accepting(l) ==> queued')
    && (q == Searching(l) ==>
          && q'.Unlinked?
          && (queued <==> q'.result != NoWaiter)
          && (queued' <==> q'.result == HasMoreWaiters))
    && (q != Accepting(l) && q != Searching(l) ==> (queued' <==> queued))
  }

  lemma KeyMoves(lot: Parking.State, t: nat, lot': Parking.State, l: nat)
    requires Parking.Inv(lot) && t < |lot.pcs| && AnyStep(lot, t, lot')
    requires lot'.Sized() && t < |lot'.pcs| && !lot.pcs[t].Gathering?
    ensures KeyMove(lot.pcs[t], lot'.pcs[t], l, HasKey(lot.QueueOf(l), l), HasKey(lot'.QueueOf(l), l))
  {
    if lot.pcs[t] == Accepting(l) {
      HasKeyAppend(lot.QueueOf(l), Waiter(l, t), l);
    } else if lot.pcs[t] == Searching(l) {
      assert Parking.Step(lot, t, lot');
    } else {
      OtherKeysUnmoved(lot, t, lot', l);
    }
  }

  /** What a step does to the word of a lock, as far as the flags go. */
  predicate FlagMove(q: Parking.PC, q': Parking.PC, l: nat, w: nat, w': nat) {
    if q == Deciding(l) && q' == Accepting(l) then HasWaiters(w')
    else if q.Unlinked? && q.key == l then HasWaiters(w') <==> HasWaiters(w) && q.result == HasMoreWaiters
    else HasWaiters(w') <==> HasWaiters(w)
  }

  lemma FlagOkMoves(o: Parking.PC, o': Parking.PC, q: Parking.PC, q': Parking.PC, l: nat, w: nat, w': nat,
                    queued: bool, queued': bool)
    requires Follows(q, q') && FlagMove(q, q', l, w, w') && KeyMove(q, q', l, queued, queued')
    requires o == if InBucket(q, l) then q else if InBucket(q', l) then Out else o'
    requires o' == if InBucket(q', l) then q' else if InBucket(q, l) then Out else o
    requires FlagOk(o, l, HasWaiters(w), queued)
    ensures FlagOk(o', l, HasWaiters(w'), queued')
  {
  }

  lemma OwnerBefore(lot: Parking.State, t: nat, lot': Parking.State, l: nat)
    requires OwnerInv(lot) && OwnerInv(lot') && Effect(lot, t, lot')
    ensures InBucket(lot.pcs[t], l) ==> OwnerPC(lot, l) == lot.pcs[t]
    ensures !InBucket(lot.pcs[t], l) && InBucket(lot'.pcs[t], l) ==> OwnerPC(lot, l) == Out
  {
    assert TookFree(lot, t);
  }

  lemma LotKeepsFlag(s: System, t: nat, s': System, l: nat)
    requires Inv(s) && t < |s.pcs| && AnyStep(s.lot, t, s'.lot) && l in s.words && l in s'.words
    requires Parking.Inv(s'.lot) && Effect(s.lot, t, s'.lot)
    requires FlagMove(s.lot.pcs[t], s'.lot.pcs[t], l, s.words[l], s'.words[l])
    ensures FlagInv(s', l)
  {
    OwnerMoves(s.lot, t, s'.lot, l);
    OwnerBefore(s.lot, t, s'.lot, l);
    assert Agrees(s, t);
    KeyMoves(s.lot, t, s'.lot, l);
    assert FlagInv(s, l);
    FlagOkMoves(OwnerPC(s.lot, l), OwnerPC(s'.lot, l), s.lot.pcs[t], s'.lot.pcs[t], l, s.words[l], s'.words[l],
                HasKey(s.lot.QueueOf(l), l), HasKey(s'.lot.QueueOf(l), l));
  }

  // The invariant is kept.

  lemma OthersAgree(s: System, t: nat, s': System, u: nat)
    requires Sized(s) && Sized(s') && |s'.pcs| == |s.pcs| && t < |s.pcs| && u < |s.pcs| && u != t && Agrees(s, u)
    requires s'.lot == s.lot || Effect(s.lot, t, s'.lot)
    requires s'.words.Keys == s.words.Keys && s'.pcs[u] == s.pcs[u] && s'.held[u] == s.held[u]
    ensures Agrees(s', u)
  {
    assert s'.lot != s.lot ==> Unmoved(s.lot, s'.lot, u);
  }

  /** Only thread t moves, in the lock's code and in the set of locks it holds. */
  ghost predicate OnlyMoves(s: System, t: nat, s': System) {
    && t < |s.pcs| == |s'.pcs| && |s'.held| == |s.held| == |s.pcs|
    && s'.pcs == s.pcs[t := s'.pcs[t]]
    && s'.held == s.held[t := s'.held[t]]
    && s'.words.Keys == s.words.Keys
    && forall l :: l in s'.words ==> s'.words[l] < TWO64
  }

  /** What every step is: thread t's words, locks and place in the code still fit
      together, and the flags of the words move as the queues do. */
  ghost predicate Sound(s: System, t: nat, s': System)
    requires Sized(s)
  {
    && OnlyMoves(s, t, s') && HeldInv(s')
    && (Sized(s') ==> Agrees(s', t))
    && if s'.lot == s.lot then
         forall l :: l in s.words ==> (HasWaiters(s'.words[l]) <==> HasWaiters(s.words[l]))
       else
         && AnyStep(s.lot, t, s'.lot)
         && forall l :: l in s.words && t < |s'.lot.pcs| ==>
              FlagMove(s.lot.pcs[t], s'.lot.pcs[t], l, s.words[l], s'.words[l])
  }

  lemma SoundKeepsInv(s: System, t: nat, s': System)
    requires Inv(s) && Sound(s, t, s')
    ensures Inv(s')
  {
    if s'.lot != s.lot {
      StepHasEffect(s.lot, t, s'.lot);
    }
    forall u | 0 <= u < |s'.pcs|
      ensures Agrees(s', u)
    {
      if u != t {
        OthersAgree(s, t, s', u);
      }
    }
    forall l | l in s'.words
      ensures FlagInv(s', l)
    {
      if s'.lot != s.lot {
        LotKeepsFlag(s, t, s', l);
      } else {
        assert FlagInv(s, l);
      }
    }
  }

  lemma SameLocksSameHeld(s: System, s': System)
    requires HeldInv(s) && s'.held == s.held && s'.words.Keys == s.words.Keys
    requires forall l :: l in s.words ==> (IsLocked(s'.words[l]) <==> IsLocked(s.words[l]))
    ensures HeldInv(s')
  {
  }

  lemma TakingHeld(s: System, t: nat, l: nat, s': System)
    requires HeldInv(s) && t < |s.held| && l in s.words && s.words[l] < TWO64 && !IsLocked(s.words[l])
    requires s'.held == s.held[t := s.held[t] + {l}] && s'.words == s.words[l := SetLocked(s.words[l])]
    ensures HeldInv(s')
  {
    TakeFree(s.held, t, l);
  }

  lemma ReleasingHeld(s: System, t: nat, l: nat, s': System)
    requires HeldInv(s) && t < |s.held| && l in s.held[t] && l in s.words && s.words[l] < TWO64
    requires s'.held == s.held[t := s.held[t] - {l}] && s'.words == s.words[l := ClearLocked(s.words[l])]
    ensures HeldInv(s')
  {
    GiveBack(s.held, t, l);
  }

  lemma LoadIsSound(s: System, t: nat, lock: nat, s': System)
    requires Sized(s) && HeldInv(s) && t < |s.pcs| && Agrees(s, t)
    requires (LoadToLock(s, t, lock, s') && s' != s) || LoadToUnlock(s, t, lock, s')
    ensures Sound(s, t, s')
  {
    hide HasWaiters;
    SameLocksSameHeld(s, s');
  }

  lemma ExchangeToLockIsSound(s: System, t: nat, s': System)
    requires Sized(s) && HeldInv(s) && t < |s.pcs| && Agrees(s, t) && ExchangeToLock(s, t, s')
    ensures Sound(s, t, s')
  {
    hide IsLocked, HasWaiters;
    var l := s.pcs[t].lock;
    if s.words[l] == s.pcs[t].seen {
      TakingHeld(s, t, l, s');
    } else {
      SameLocksSameHeld(s, s');
    }
  }

  lemma ExchangeToUnlockIsSound(s: System, t: nat, s': System)
    requires Sized(s) && HeldInv(s) && t < |s.pcs| && Agrees(s, t) && ExchangeToUnlock(s, t, s')
    ensures Sound(s, t, s')
  {
    hide IsLocked, HasWaiters;
    var l := s.pcs[t].lock;
    if s.words[l] == s.pcs[t].seen {
      ReleasingHeld(s, t, l, s');
    } else {
      SameLocksSameHeld(s, s');
    }
  }

  lemma ValidateIsSound(s: System, t: nat, s': System)
    requires Sized(s) && HeldInv(s) && t < |s.pcs| && Agrees(s, t) && Validate(s, t, s')
    ensures Sound(s, t, s')
  {
    hide IsLocked, HasWaiters;
    SameLocksSameHeld(s, s');
  }

  lemma MarkIsSound(s: System, t: nat, s': System)
    requires Sized(s) && HeldInv(s) && t < |s.pcs| && Agrees(s, t) && Mark(s, t, s')
    ensures Sound(s, t, s')
  {
    hide IsLocked, HasWaiters;
    SameLocksSameHeld(s, s');
  }

  lemma CallbackIsSound(s: System, t: nat, s': System)
    requires Sized(s) && HeldInv(s) && t < |s.pcs| && Agrees(s, t) && Callback(s, t, s')
    ensures Sound(s, t, s')
  {
    hide IsLocked, HasWaiters, Answered;
    SameLocksSameHeld(s, s');
  }

  lemma UntaggedHasNoFlags(w: nat)
    requires Untagged(w)
    ensures !IsLocked(w) && !HasWaiters(w)
  {
    var q := w / 8;
    assert w == 8 * q && w / 2 == 4 * q;
  }

  lemma CallExchangeIsSound(s: System, t: nat, lock: nat, expected: nat, desired: nat, s': System)
    requires Sized(s) && HeldInv(s) && t < |s.pcs| && Agrees(s, t)
    requires CallExchange(s, t, lock, expected, desired, s')
    ensures Sound(s, t, s')
  {
    hide IsLocked, HasWaiters;
    SameLocksSameHeld(s, s');
  }

  lemma CompareExchangeIsSound(s: System, t: nat, s': System)
    requires Sized(s) && HeldInv(s) && t < |s.pcs| && Agrees(s, t) && CompareExchange(s, t, s')
    ensures Sound(s, t, s')
  {
    hide IsLocked, HasWaiters;
    UntaggedHasNoFlags(s.pcs[t].expected);
    UntaggedHasNoFlags(s.pcs[t].desired);
    SameLocksSameHeld(s, s');
  }

  /** What a step of the lot itself does to its thread. */
  lemma LotStepMoves(s: System, t: nat, s': System)
    requires Sized(s) && Parking.Inv(s.lot) && t < |s.pcs| && LotStep(s, t, s')
    ensures AnyStep(s.lot, t, s'.lot) && Effect(s.lot, t, s'.lot)
    ensures !s.lot.pcs[t].Deciding? && !s.lot.pcs[t].Unlinked?
    ensures s'.words == s.words && s'.held == s.held && OnlyMoves(s, t, s')
    ensures s'.pcs[t] == if !s'.lot.pcs[t].Out? then s.pcs[t]
                         else if s.pcs[t].Sleeping? then Contended(s.pcs[t].lock) else PC.Idle
    ensures (s.pcs[t].Sleeping? || s.pcs[t].Unparking?) && s.pcs[t].lock in s.words
  {
    StepHasEffect(s.lot, t, s'.lot);
  }

  lemma LotMoveIsSound(s: System, t: nat, s': System)
    requires Sized(s) && HeldInv(s) && OnlyMoves(s, t, s') && Agrees(s, t)
    requires AnyStep(s.lot, t, s'.lot) && Effect(s.lot, t, s'.lot)
    requires !s.lot.pcs[t].Deciding? && !s.lot.pcs[t].Unlinked?
    requires s'.words == s.words && s'.held == s.held
    requires s.pcs[t].Sleeping? || s.pcs[t].Unparking?
    requires s'.pcs[t] == if !s'.lot.pcs[t].Out? then s.pcs[t]
                         else if s.pcs[t].Sleeping? then Contended(s.pcs[t].lock) else PC.Idle
    ensures Sound(s, t, s')
  {
    assert s'.lot.pcs[t] != s.lot.pcs[t];
    hide Parking.Step, Parking.Enter, Parking.Decide, Parking.Answer, IsLocked, HasWaiters;
    SameLocksSameHeld(s, s');
  }

  lemma StepIsSound(s: System, t: nat, s': System)
    requires Inv(s) && t < |s.pcs| && StepOf(s, t, s') && s' != s
    ensures Sound(s, t, s')
  {
    assert Agrees(s, t);
    if lock :| LoadToLock(s, t, lock, s') || LoadToUnlock(s, t, lock, s') {
      LoadIsSound(s, t, lock, s');
    } else if ExchangeToLock(s, t, s') {
      ExchangeToLockIsSound(s, t, s');
    } else if ExchangeToUnlock(s, t, s') {
      ExchangeToUnlockIsSound(s, t, s');
    } else if LotStep(s, t, s') {
      LotStepMoves(s, t, s');
      LotMoveIsSound(s, t, s');
    } else if Validate(s, t, s') {
      ValidateIsSound(s, t, s');
    } else if Mark(s, t, s') {
      MarkIsSound(s, t, s');
    } else if Callback(s, t, s') {
      CallbackIsSound(s, t, s');
    } else if CompareExchange(s, t, s') {
      CompareExchangeIsSound(s, t, s');
    } else {
      var lock, expected, desired :| CallExchange(s, t, lock, expected, desired, s');
      CallExchangeIsSound(s, t, lock, expected, desired, s');
    }
  }

  lemma StepKeepsInv(s: System, t: nat, s': System)
    requires Inv(s) && t < |s.pcs| && StepOf(s, t, s')
    ensures Inv(s')
  {
    if s' != s {
      StepIsSound(s, t, s');
      SoundKeepsInv(s, t, s');
    }
  }

  lemma InitKeepsInv(s: System)
    requires InitSystem(s)
    ensures Inv(s)
  {
    InitHasInv(s.lot);
    forall l | l in s.words
      ensures !IsLocked(s.words[l]) && FlagInv(s, l)
    {
      UntaggedHasNoFlags(s.words[l]);
    }
  }

  lemma NextKeepsInv(s: System, s': System)
    requires Inv(s) && Next(s, s')
    ensures Inv(s')
  {
    var t :| 0 <= t < |s.pcs| && StepOf(s, t, s');
    StepKeepsInv(s, t, s');
  }

  lemma {:induction false} RunsKeepInv(run: seq<System>, i: nat)
    requires IsRun(run, InitSystem, Next) && i < |run|
    ensures Inv(run[i])
  {
    if i == 0 {
      InitKeepsInv(run[0]);
    } else {
      RunsKeepInv(run, i - 1);
      assert Next(run[i - 1], run[i - 1 + 1]);
      NextKeepsInv(run[i - 1], run[i]);
    }
  }

  /** Whenever the bucket of a tagged pointer is free, WAITERS_BIT is set exactly
      if the bucket holds a node keyed by the pointer. */
  lemma FlagMeansQueued(run: seq<System>, i: nat, lock: nat)
    requires IsRun(run, InitSystem, Next) && i < |run| && lock in run[i].words && run[i].lot.Sized()
    requires run[i].lot.buckets[HashAddress(lock)].owner.None?
    ensures HasWaiters(run[i].words[lock]) <==>
            exists k :: 0 <= k < |run[i].lot.QueueOf(lock)| && run[i].lot.QueueOf(lock)[k].key == lock
  {
    RunsKeepInv(run, i);
    assert FlagInv(run[i], lock);
    HasKeyMeans(run[i].lot.QueueOf(lock), lock);
  }

  /** In every reachable state LOCKED_BIT is set exactly if some thread holds the
      lock, and no two threads do. */
  lemma LockedMeansHeldByOne(run: seq<System>, i: nat, lock: nat)
    requires IsRun(run, InitSystem, Next) && i < |run| && lock in run[i].words
    ensures IsLocked(run[i].words[lock]) <==> exists t :: 0 <= t < |run[i].held| && lock in run[i].held[t]
    ensures forall t, u :: 0 <= t < u < |run[i].held| ==> lock !in run[i].held[t] || lock !in run[i].held[u]
  {
    RunsKeepInv(run, i);
  }

  lemma RestIsPointerAndMark(w: nat)
    ensures PointerOf(w) == 8 * (Rest(w) / 2) && (IsMarked(w) <==> Rest(w) % 2 == 1)
  {
    var q := w / 4;
    assert w / 2 / 2 == q;
    assert w == 4 * q + w % 4;
    assert w == 8 * (q / 2) + (4 * (q % 2) + w % 4);
  }

  /** Thread t was in a compare_exchange of the lock's word against what it held,
      and has stored what that call asked for. */
  ghost predicate Replaced(s: System, t: nat, lock: nat, s': System)
    requires t < |s.pcs|
  {
    && lock in s.words && lock in s'.words
    && s.pcs[t] == Swapping(lock, s.words[lock], s'.words[lock])
    && t < |s'.pcs| && s'.pcs[t].Idle?
  }

  ghost predicate SomebodyReplaces(s: System, lock: nat, s': System) {
    exists t :: 0 <= t < |s.pcs| && Replaced(s, t, lock, s')
  }

  lemma StepKeepsRest(s: System, t: nat, s': System, lock: nat)
    requires Sized(s) && t < |s.pcs| && Agrees(s, t) && StepOf(s, t, s') && lock in s.words
    ensures lock in s'.words
    ensures Rest(s'.words[lock]) == Rest(s.words[lock]) || Replaced(s, t, lock, s')
  {
    if CompareExchange(s, t, s') {
      assert s.pcs[t].lock == lock && s.words[lock] == s.pcs[t].expected ==> Replaced(s, t, lock, s');
    } else if l, expected, desired :| CallExchange(s, t, l, expected, desired, s') {
    } else if LotStep(s, t, s') || Validate(s, t, s') || Mark(s, t, s') || Callback(s, t, s') {
    } else if ExchangeToUnlock(s, t, s') {
      UnlockKeepsRest(s, t, s', lock);
    } else {
      LockKeepsRest(s, t, s', lock);
    }
  }

  lemma LockKeepsRest(s: System, t: nat, s': System, lock: nat)
    requires Sized(s) && t < |s.pcs| && Agrees(s, t) && lock in s.words
    requires || (exists l :: LoadToLock(s, t, l, s')) || (exists l :: LoadToUnlock(s, t, l, s'))
             || ExchangeToLock(s, t, s')
    ensures lock in s'.words && Rest(s'.words[lock]) == Rest(s.words[lock])
  {
  }

  lemma UnlockKeepsRest(s: System, t: nat, s': System, lock: nat)
    requires Sized(s) && t < |s.pcs| && Agrees(s, t) && lock in s.words && ExchangeToUnlock(s, t, s')
    ensures lock in s'.words && Rest(s'.words[lock]) == Rest(s.words[lock])
  {
  }

  /** No operation on the lock changes the pointer or the reserved flag; only a
      successful compare_exchange does, and it needs a word without flags. */
  lemma PointerStays(run: seq<System>, i: nat, lock: nat)
    requires IsRun(run, InitSystem, Next) && i < |run| - 1 && lock in run[i].words && Sized(run[i]) && Sized(run[i + 1])
    ensures lock in run[i + 1].words
    ensures
      || (PointerOf(run[i + 1].words[lock]) == PointerOf(run[i].words[lock])
          && IsMarked(run[i + 1].words[lock]) == IsMarked(run[i].words[lock]))
      || (Untagged(run[i].words[lock]) && Untagged(run[i + 1].words[lock])
          && SomebodyReplaces(run[i], lock, run[i + 1]))
  {
    RunsKeepInv(run, i);
    assert Next(run[i], run[i + 1]);
    var t :| 0 <= t < |run[i].pcs| && StepOf(run[i], t, run[i + 1]);
    assert Agrees(run[i], t);
    StepKeepsRest(run[i], t, run[i + 1], lock);
    if Rest(run[i + 1].words[lock]) == Rest(run[i].words[lock]) {
      RestIsPointerAndMark(run[i].words[lock]);
      RestIsPointerAndMark(run[i + 1].words[lock]);
    }
  }

  // What the lot goes through is a run of the lot.

  ghost function Lots(run: seq<System>): seq<Parking.State> {
    seq(|run|, i requires 0 <= i < |run| => run[i].lot)
  }

  lemma NextMovesLot(s: System, s': System)
    requires Next(s, s')
    ensures AnyNext(s.lot, s'.lot)
  {
    var t :| 0 <= t < |s.pcs| && StepOf(s, t, s');
    hide Parking.Step, Parking.Enter, Parking.Decide, Parking.Answer, IsLocked, HasWaiters, Untagged;
    assert s'.lot == s.lot || AnyStep(s.lot, t, s'.lot);
  }

  /** So the theorems on the lot hold in every run of the tagged pointers. */
  lemma LotsAreARun(run: seq<System>)
    requires IsRun(run, InitSystem, Next)
    ensures IsRun(Lots(run), Parking.Init, AnyNext)
  {
    hide Next;
    forall i | 0 <= i < |run| - 1
      ensures AnyNext(run[i].lot, run[i + 1].lot)
    {
      assert Next(run[i], run[i + 1]);
      NextMovesLot(run[i], run[i + 1]);
    }
  }
}
