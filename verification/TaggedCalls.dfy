/** What a call of the lock in the pointer word does when nobody disturbs it, and
    what a failed attempt means. */
module TaggedCalls {
  import opened Bits
  import opened Holders
  import opened Options
  import opened Parking
  import opened ParkingCalls
  import opened ParkingQueue
  import opened TaggedLockPtr
  import opened Threads

  /** A step of thread t. */
  ghost function By(t: nat): (System, System) -> bool {
    (s: System, s': System) => Sized(s) && t < |s.pcs| && StepOf(s, t, s')
  }

  ghost predicate HasThread(s: System, t: nat) {
    Sized(s) && t < |s.pcs|
  }

  lemma Advance(s: System, mid: System, t: nat, s': System)
    requires Reaches(By(t), s, mid) && TaggedLockPtr.Inv(mid) && HasThread(mid, t) && StepOf(mid, t, s')
    ensures Reaches(By(t), s, s') && TaggedLockPtr.Inv(s') && HasThread(s', t)
  {
    hide StepOf, TaggedLockPtr.Inv, Sized;
    ReachesOneMore(By(t), s, mid, s');
    TaggedLockPtr.StepKeepsInv(mid, t, s');
    SizesOf(s');
    StepKeepsThreads(mid, t, s');
  }

  lemma SizesOf(s: System)
    requires TaggedLockPtr.Inv(s)
    ensures Sized(s) && Parking.Inv(s.lot)
  {
  }

  lemma StepKeepsThreads(s: System, t: nat, s': System)
    requires HasThread(s, t) && StepOf(s, t, s')
    ensures |s'.pcs| == |s.pcs|
  {
    hide Parking.Step, Parking.Enter, Parking.Decide, Parking.Answer, IsLocked, HasWaiters, Untagged, SetLocked;
    hide ClearLocked, SetWaiters, Answered;
  }

  lemma AgreesOf(s: System, t: nat)
    requires TaggedLockPtr.Inv(s) && t < |s.pcs|
    ensures HasThread(s, t) && Agrees(s, t)
    ensures forall l :: l in s.words ==> (IsLocked(s.words[l]) <==> IsHeld(s.held, l))
  {
  }

  // Steps of the lot are steps of the lock.

  function Lifted(s: System, t: nat, lot': Parking.State): System
    requires t < |s.pcs| && t < |lot'.pcs| && (s.pcs[t].Sleeping? || s.pcs[t].Unparking?)
  {
    s.Go(t, if !lot'.pcs[t].Out? then s.pcs[t]
            else if s.pcs[t].Sleeping? then Contended(s.pcs[t].lock) else Idle).(lot := lot')
  }

  ghost predicate InLot(s: System, t: nat) {
    && HasThread(s, t) && !s.lot.pcs[t].Out?
    && (s.pcs[t].Sleeping? || s.pcs[t].Unparking?) && s.pcs[t].lock in s.words
  }

  lemma {:induction false} PathLifts(s: System, t: nat, path: seq<Parking.State>)
    requires TaggedLockPtr.Inv(s) && InLot(s, t) && IsPath(path, LotBy(t)) && path[0] == s.lot
    ensures t < |path[|path| - 1].pcs|
    ensures Reaches(By(t), s, Lifted(s, t, path[|path| - 1])) && TaggedLockPtr.Inv(Lifted(s, t, path[|path| - 1]))
  {
    hide TaggedLockPtr.Inv, Parking.Step;
    var n := |path| - 1;
    if n == 0 {
      assert s.pcs[t := s.pcs[t]] == s.pcs;
      assert Lifted(s, t, path[0]) == s;
      ReachesSelf(By(t), s);
    } else {
      PathLifts(s, t, path[..n]);
      assert LotBy(t)(path[n - 1], path[n - 1 + 1]);
      OneLifts(s, t, path[n - 1], path[n]);
    }
  }

  lemma OneLifts(s: System, t: nat, lot: Parking.State, lot': Parking.State)
    requires InLot(s, t) && t < |lot.pcs| && LotBy(t)(lot, lot')
    requires Reaches(By(t), s, Lifted(s, t, lot)) && TaggedLockPtr.Inv(Lifted(s, t, lot))
    ensures t < |lot'.pcs|
    ensures Reaches(By(t), s, Lifted(s, t, lot')) && TaggedLockPtr.Inv(Lifted(s, t, lot'))
  {
    hide TaggedLockPtr.Inv, HashAddress, HasKey, FirstOf, AfterUnpark, ResultOf;
    OwnMove(lot, t, lot');
    var mid := Lifted(s, t, lot);
    SizesOf(mid);
    assert mid.pcs[t] == s.pcs[t];
    assert mid.pcs[t := Lifted(s, t, lot').pcs[t]] == Lifted(s, t, lot').pcs;
    assert LotStep(mid, t, Lifted(s, t, lot'));
    Advance(s, mid, t, Lifted(s, t, lot'));
  }

  lemma Lifts(s: System, t: nat, lot': Parking.State)
    requires TaggedLockPtr.Inv(s) && InLot(s, t) && Reaches(LotBy(t), s.lot, lot')
    ensures t < |lot'.pcs| && Reaches(By(t), s, Lifted(s, t, lot')) && TaggedLockPtr.Inv(Lifted(s, t, lot'))
  {
    hide TaggedLockPtr.Inv, InLot;
    var path :| IsPath(path, LotBy(t)) && path[0] == s.lot && path[|path| - 1] == lot';
    PathLifts(s, t, path);
  }

  // The calls.

  /** A lone compare_exchange stores the desired pointer exactly if the word is the
      expected pointer without flags, and changes nothing else. */
  lemma CompareExchangeAlone(s: System, t: nat, lock: nat, expected: nat, desired: nat)
    requires TaggedLockPtr.Inv(s) && t < |s.pcs| && s.pcs[t].Idle? && lock in s.words
    requires expected < TWO64 && desired < TWO64 && Untagged(expected) && Untagged(desired)
    ensures Reaches(By(t), s, s.(words := if s.words[lock] == expected then s.words[lock := desired] else s.words))
  {
    hide TaggedLockPtr.Inv, Untagged;
    AgreesOf(s, t);
    ReachesSelf(By(t), s);
    var swapping := s.Go(t, Swapping(lock, expected, desired));
    assert CallExchange(s, t, lock, expected, desired, swapping);
    Advance(s, s, t, swapping);
    var s' := s.(words := if s.words[lock] == expected then s.words[lock := desired] else s.words);
    assert swapping.pcs[t := Idle] == s'.pcs;
    assert CompareExchange(swapping, t, s');
    Advance(s, swapping, t, s');
  }

  /** What taking the lock comes to. */
  function Taken(s: System, t: nat, lock: nat): System
    requires t < |s.pcs| && t < |s.held| && lock in s.words && s.words[lock] < TWO64
  {
    s.Go(t, Idle).Put(lock, SetLocked(s.words[lock])).Hold(t, s.held[t] + {lock})
  }

  /** A lone lock or try_lock of a lock that nobody holds takes it, from outside or
      from lock_contended. */
  lemma LockAlone(s: System, t: nat, lock: nat)
    requires TaggedLockPtr.Inv(s) && t < |s.pcs| && lock in s.words && !IsHeld(s.held, lock)
    requires s.pcs[t].Idle? || s.pcs[t] == Contended(lock)
    ensures HasThread(s, t) && Reaches(By(t), s, Taken(s, t, lock))
  {
    hide TaggedLockPtr.Inv, IsLocked, SetLocked, IsHeld;
    AgreesOf(s, t);
    ReachesSelf(By(t), s);
    var locking := s.Go(t, Locking(lock, s.words[lock], s.pcs[t].Contended?));
    assert LoadToLock(s, t, lock, locking);
    Advance(s, s, t, locking);
    assert locking.pcs[t := Idle] == s.pcs[t := Idle];
    assert ExchangeToLock(locking, t, Taken(s, t, lock));
    Advance(s, locking, t, Taken(s, t, lock));
  }

  /** The load of lock or try_lock goes on to the exchange if and only if nobody
      holds the lock, and changes no word. */
  lemma LoadIsExact(run: seq<System>, i: nat, t: nat, lock: nat)
    requires IsRun(run, InitSystem, Next) && i < |run| - 1
    requires HasThread(run[i], t) && LoadToLock(run[i], t, lock, run[i + 1])
    ensures var s, s' := run[i], run[i + 1];
      && |s'.pcs| == |s.pcs| && s'.words == s.words && s'.held == s.held
      && (s'.pcs[t].Locking? <==> forall u :: 0 <= u < |s.held| ==> lock !in s.held[u])
      && (s'.pcs[t].Locking? ==> s'.pcs[t] == Locking(lock, s.words[lock], s.pcs[t].Contended?))
  {
    TaggedLockPtr.RunsKeepInv(run, i);
    hide TaggedLockPtr.Inv, IsLocked;
    AgreesOf(run[i], t);
  }

  /** The exchange takes the lock if and only if the word is still the one that was
      loaded, and then nobody holds it. */
  lemma ExchangeIsExact(run: seq<System>, i: nat, t: nat)
    requires IsRun(run, InitSystem, Next) && i < |run| - 1
    requires HasThread(run[i], t) && ExchangeToLock(run[i], t, run[i + 1])
    ensures var s, s', lock := run[i], run[i + 1], run[i].pcs[t].lock;
      if s.words[lock] == s.pcs[t].seen then
        && (forall u :: 0 <= u < |s.held| ==> lock !in s.held[u])
        && s' == Taken(s, t, lock)
      else s'.words == s.words && s'.held == s.held && s'.lot == s.lot
  {
    TaggedLockPtr.RunsKeepInv(run, i);
    hide TaggedLockPtr.Inv, IsLocked, SetLocked;
    AgreesOf(run[i], t);
  }

  /** The system when thread t has given the lock back, and no more. */
  function Freed(s: System, t: nat, lock: nat): System
    requires t < |s.pcs| && t < |s.held| && lock in s.words && s.words[lock] < TWO64
  {
    s.Put(lock, ClearLocked(s.words[lock])).Hold(t, s.held[t] - {lock})
  }

  /** A lone unlock without waiters only clears the lock bit. */
  lemma PlainUnlockAlone(s: System, t: nat, lock: nat)
    requires TaggedLockPtr.Inv(s) && HasThread(s, t) && s.pcs[t].Idle? && lock in s.words && lock in s.held[t]
    requires !HasWaiters(s.words[lock])
    ensures Reaches(By(t), s, Freed(s, t, lock))
  {
    hide TaggedLockPtr.Inv, IsLocked, HasWaiters, ClearLocked;
    ReachesSelf(By(t), s);
    var freeing := s.Go(t, Freeing(lock, s.words[lock]));
    assert LoadToUnlock(s, t, lock, freeing);
    Advance(s, s, t, freeing);
    assert freeing.pcs[t := Idle] == s.pcs;
    assert ExchangeToUnlock(freeing, t, Freed(s, t, lock));
    Advance(s, freeing, t, Freed(s, t, lock));
  }

  /** The steps of unlock with waiters up to unpark_one's callback. */
  lemma UnlockSearches(s: System, t: nat, lock: nat) returns (s': System)
    requires TaggedLockPtr.Inv(s) && HasThread(s, t) && s.pcs[t].Idle? && lock in s.words && lock in s.held[t]
    requires HasWaiters(s.words[lock]) && s.lot.pcs[t].Out? && IsOpen(s.lot, lock)
    requires HasKey(s.lot.QueueOf(lock), lock) ==> Oldest(s.lot.QueueOf(lock), lock) < |s.lot.pcs|
    ensures Reaches(By(t), s, s') && TaggedLockPtr.Inv(s') && InLot(s', t)
    ensures s' == Freed(s, t, lock).Go(t, Unparking(lock)).(lot := Searched(s.lot.Move(t, Calling(lock)), t, lock))
  {
    hide TaggedLockPtr.Inv, IsLocked, HasWaiters, ClearLocked, Searched, HashAddress, HasKey, Oldest;
    ReachesSelf(By(t), s);
    var freeing := s.Go(t, Freeing(lock, s.words[lock]));
    assert LoadToUnlock(s, t, lock, freeing);
    Advance(s, s, t, freeing);
    var calling := Freed(s, t, lock).Go(t, Unparking(lock)).(lot := s.lot.Move(t, Calling(lock)));
    assert freeing.pcs[t := Unparking(lock)] == calling.pcs;
    assert ExchangeToUnlock(freeing, t, calling);
    Advance(s, freeing, t, calling);
    SizesOf(calling);
    var lot := SearchAlone(calling.lot, t);
    Lifts(calling, t, lot);
    s' := Lifted(calling, t, lot);
    SearchedIsIn(calling.lot, t, lock);
    assert calling.pcs[t := Unparking(lock)] == calling.pcs;
    SizesOf(s');
    ReachesTransitive(By(t), s, calling, s');
  }

  lemma SearchedIsIn(lot: Parking.State, t: nat, key: nat)
    requires lot.Sized() && t < |lot.pcs|
    requires HasKey(lot.QueueOf(key), key) ==> Oldest(lot.QueueOf(key), key) < |lot.pcs|
    ensures |Searched(lot, t, key).pcs| == |lot.pcs| && Searched(lot, t, key).pcs[t].Unlinked?
    ensures Searched(lot, t, key).pcs[t].key == key
  {
  }

  /** The rest of unlock, from unpark_one's callback. */
  lemma UnlockFinishes(s: System, mid: System, t: nat) returns (s': System)
    requires Reaches(By(t), s, mid) && TaggedLockPtr.Inv(mid) && InLot(mid, t) && mid.pcs[t].Unparking?
    requires mid.lot.pcs[t].Unlinked?
    ensures mid.lot.pcs[t].target.Some? ==> mid.lot.pcs[t].target.value < |mid.lot.pcs|
    ensures Reaches(By(t), s, s') && TaggedLockPtr.Inv(s')
    ensures var q, lock := mid.lot.pcs[t], mid.pcs[t].lock;
      s' == mid.Go(t, Idle).Put(lock, Answered(mid.words[lock], q.result))
               .(lot := Finished(mid.lot.Move(t, Told(q.key, q.target)), t, q.key, q.target))
  {
    hide TaggedLockPtr.Inv, Finished, HashAddress, HasKey, Answered, IsLocked, HasWaiters, Rest;
    var q, lock := mid.lot.pcs[t], mid.pcs[t].lock;
    var told := mid.Put(lock, Answered(mid.words[lock], q.result)).(lot := mid.lot.Move(t, Told(q.key, q.target)));
    assert Callback(mid, t, told);
    Advance(s, mid, t, told);
    SizesOf(told);
    var lot := FinishAlone(told.lot, t);
    FinishedIsOut(told.lot, t, q.key, q.target);
    Lifts(told, t, lot);
    s' := Lifted(told, t, lot);
    ReachesTransitive(By(t), s, told, s');
  }

  lemma FinishedIsOut(lot: Parking.State, t: nat, key: nat, target: Option<nat>)
    requires lot.Sized() && t < |lot.pcs| && (target.Some? ==> target.value < |lot.pcs|)
    ensures t < |Finished(lot, t, key, target).pcs| && Finished(lot, t, key, target).pcs[t].Out?
  {
  }

  lemma IdleIsOut(s: System, t: nat)
    requires TaggedLockPtr.Inv(s) && t < |s.pcs|
    ensures HasThread(s, t) && Parking.Inv(s.lot)
    ensures s.pcs[t].Idle? || s.pcs[t].Contended? ==> s.lot.pcs[t].Out?
  {
    assert Agrees(s, t);
  }

  /** A lone unlock with waiters clears the lock bit, takes out and wakes the one that
      waited longest, and leaves WAITERS_BIT set exactly if there are more. */
  lemma UnlockAlone(s: System, t: nat, lock: nat) returns (s': System)
    requires TaggedLockPtr.Inv(s) && HasThread(s, t) && s.pcs[t].Idle? && lock in s.words && lock in s.held[t]
    requires HasWaiters(s.words[lock]) && IsOpen(s.lot, lock)
    ensures HasKey(s.lot.QueueOf(lock), lock) ==> Oldest(s.lot.QueueOf(lock), lock) < |s.lot.pcs|
    ensures Reaches(By(t), s, s') && TaggedLockPtr.Inv(s')
    ensures var word := Answered(ClearLocked(s.words[lock]), ResultOf(s.lot.QueueOf(lock), lock));
      s' == System(Unparked(s.lot, lock), s.words[lock := word], s.held[t := s.held[t] - {lock}], s.pcs)
  {
    hide TaggedLockPtr.Inv, Parking.Inv, Finished, Searched, Unparked, HashAddress, HasKey, Oldest, ResultOf;
    hide Answered, ClearLocked, HasWaiters, IsLocked, Rest;
    IdleIsOut(s, t);
    OldestWaits(s.lot, t, lock);
    UnparkedIsWhole(s.lot, t, lock);
    var searched := UnlockSearches(s, t, lock);
    s' := UnlockFinishes(s, searched, t);
    assert searched.pcs[t := Idle] == s.pcs;
    assert s'.words == s.words[lock := s'.words[lock]];
  }

  /** A lone lock of a held lock sets WAITERS_BIT, puts a node at the end of the
      queue and sleeps. */
  lemma LockWaitsAlone(s: System, t: nat, lock: nat) returns (s': System)
    requires TaggedLockPtr.Inv(s) && HasThread(s, t) && lock in s.words && IsLocked(s.words[lock])
    requires (s.pcs[t].Idle? || s.pcs[t] == Contended(lock)) && IsOpen(s.lot, lock)
    ensures Reaches(By(t), s, s') && TaggedLockPtr.Inv(s')
    ensures s' == s.Go(t, Sleeping(lock)).Put(lock, Flagged(s.words[lock])).(lot := Waited(s.lot, t, lock))
  {
    hide TaggedLockPtr.Inv, Parking.Inv, Waited, Joined, HashAddress, HasKey, IsLocked, HasWaiters, Flagged;
    IdleIsOut(s, t);
    ReachesSelf(By(t), s);
    var contended := s.Go(t, Contended(lock));
    if s.pcs[t].Idle? {
      assert LoadToLock(s, t, lock, contended);
      Advance(s, s, t, contended);
    } else {
      assert contended == s;
    }
    var accepting := LockArrives(s, contended, t, lock);
    SizesOf(accepting);
    WaitedIsWhole(s.lot, t, lock);
    var lot := JoinAlone(accepting.lot, t);
    Lifts(accepting, t, lot);
    JoinedSleeps(accepting.lot, t, lock);
    s' := Lifted(accepting, t, lot);
    assert s'.pcs == s.pcs[t := Sleeping(lock)];
    ReachesTransitive(By(t), s, accepting, s');
  }

  /** The word with WAITERS_BIT set. */
  function Flagged(w: nat): (r: nat)
    requires w < TWO64
    ensures r < TWO64 && HasWaiters(r) && IsLocked(r) == IsLocked(w) && Rest(r) == Rest(w)
  {
    if HasWaiters(w) then w else SetWaiters(w)
  }

  lemma JoinedSleeps(lot: Parking.State, t: nat, key: nat)
    requires lot.Sized() && t < |lot.pcs|
    ensures t < |Joined(lot, t, key).pcs| && Joined(lot, t, key).pcs[t].Asleep?
  {
  }

  /** The steps from lock_contended up to an accepted park. */
  lemma LockArrives(s: System, mid: System, t: nat, lock: nat) returns (s': System)
    requires Reaches(By(t), s, mid) && TaggedLockPtr.Inv(mid) && HasThread(mid, t) && mid.pcs[t] == Contended(lock)
    requires lock in mid.words && IsLocked(mid.words[lock]) && mid.lot.pcs[t].Out? && IsOpen(mid.lot, lock)
    ensures Reaches(By(t), s, s') && TaggedLockPtr.Inv(s') && InLot(s', t)
    ensures s' == mid.Go(t, Sleeping(lock)).Put(lock, Flagged(mid.words[lock]))
                     .(lot := mid.lot.Move(t, Accepting(lock)).Own(lock, Some(t)))
  {
    hide TaggedLockPtr.Inv, HashAddress, IsLocked, HasWaiters, SetWaiters;
    var arriving := mid.Go(t, Sleeping(lock)).(lot := mid.lot.Move(t, Arriving(lock)));
    assert Parking.Enter(mid.lot, t, Arriving(lock), arriving.lot);
    assert LoadToLock(mid, t, lock, arriving);
    Advance(s, mid, t, arriving);
    SizesOf(arriving);
    var lot := ArriveAlone(arriving.lot, t);
    Lifts(arriving, t, lot);
    var deciding := Lifted(arriving, t, lot);
    ReachesTransitive(By(t), s, arriving, deciding);
    SizesOf(deciding);
    assert deciding == mid.Go(t, Sleeping(lock)).(lot := mid.lot.Move(t, Deciding(lock)).Own(lock, Some(t)));
    s' := ValidatesAlone(s, deciding, t, lock);
    assert deciding.lot.pcs[t := Accepting(lock)] == mid.lot.pcs[t := Accepting(lock)];
  }

  /** park's validation of a locked word, with the flag set if need be. */
  lemma ValidatesAlone(s: System, mid: System, t: nat, lock: nat) returns (s': System)
    requires Reaches(By(t), s, mid) && TaggedLockPtr.Inv(mid) && HasThread(mid, t) && mid.pcs[t] == Sleeping(lock)
    requires lock in mid.words && IsLocked(mid.words[lock]) && mid.lot.pcs[t] == Deciding(lock)
    ensures Reaches(By(t), s, s') && TaggedLockPtr.Inv(s') && InLot(s', t)
    ensures s' == mid.Put(lock, Flagged(mid.words[lock])).(lot := mid.lot.Move(t, Accepting(lock)))
  {
    hide TaggedLockPtr.Inv, IsLocked, HasWaiters, SetWaiters;
    s' := mid.Put(lock, Flagged(mid.words[lock])).(lot := mid.lot.Move(t, Accepting(lock)));
    if HasWaiters(mid.words[lock]) {
      assert mid.words[lock := mid.words[lock]] == mid.words;
      assert Parking.Decide(mid.lot, t, true, s'.lot);
      assert Validate(mid, t, s');
      Advance(s, mid, t, s');
    } else {
      var marking := mid.Go(t, Marking(lock));
      assert Validate(mid, t, marking);
      Advance(s, mid, t, marking);
      assert marking.pcs[t := Sleeping(lock)] == mid.pcs;
      assert Parking.Decide(marking.lot, t, true, s'.lot);
      assert Mark(marking, t, s');
      Advance(s, marking, t, s');
    }
  }

  /** A thread that was taken out of the queue and flagged takes the free lock by
      its own steps alone. */
  lemma WokenTakesAlone(s: System, t: nat) returns (s': System)
    requires TaggedLockPtr.Inv(s) && HasThread(s, t) && s.pcs[t].Sleeping? && s.pcs[t].lock in s.words
    requires Waits(s.lot.pcs[t]) && !s.lot.pcs[t].Enqueued? && s.lot.flags[t] != 0 && !IsHeld(s.held, s.pcs[t].lock)
    ensures Reaches(By(t), s, s')
    ensures s' == Taken(s, t, s.pcs[t].lock).(lot := s.lot.Move(t, Out))
  {
    hide TaggedLockPtr.Inv, HashAddress, IsHeld, SetLocked;
    var lock := s.pcs[t].lock;
    SizesOf(s);
    var lot := ReturnAlone(s.lot, t);
    Lifts(s, t, lot);
    var contended := Lifted(s, t, lot);
    SizesOf(contended);
    LockAlone(contended, t, lock);
    s' := Taken(contended, t, lock);
    assert contended.pcs[t := Idle] == s.pcs[t := Idle];
    ReachesTransitive(By(t), s, contended, s');
  }
}
