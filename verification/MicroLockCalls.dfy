/** What a call of the one-byte lock does when nobody disturbs it, and what a
    failed attempt means. */
module MicroLockCalls {
  import opened Holders
  import opened MicroLock
  import opened Options
  import opened Parking
  import opened ParkingCalls
  import opened ParkingQueue
  import opened Threads

  /** A step of thread t. */
  ghost function By(t: nat): (System, System) -> bool {
    (s: System, s': System) =>
      s.lot.Sized() && t < |s.pcs| && t < |s.lot.pcs| && t < |s.held| && StepOf(s, t, s')
  }

  lemma Advance(s: System, mid: System, t: nat, s': System)
    requires Reaches(By(t), s, mid) && MicroLock.Inv(mid) && t < |mid.pcs|
    requires mid.lot.Sized() && t < |mid.lot.pcs| && t < |mid.held| && StepOf(mid, t, s')
    ensures Reaches(By(t), s, s') && MicroLock.Inv(s') && HasThread(s', t)
  {
    hide StepOf, MicroLock.Inv;
    ReachesOneMore(By(t), s, mid, s');
    MicroLock.StepKeepsInv(mid, t, s');
    SizesOf(mid);
    SizesOf(s');
    StepKeepsThreads(mid, t, s');
  }

  ghost predicate HasThread(s: System, t: nat) {
    s.lot.Sized() && t < |s.pcs| == |s.lot.pcs| == |s.held|
  }

  lemma SizesOf(s: System)
    requires MicroLock.Inv(s)
    ensures s.lot.Sized() && |s.pcs| == |s.lot.pcs| == |s.held| && Parking.Inv(s.lot)
  {
  }

  lemma StepKeepsThreads(s: System, t: nat, s': System)
    requires HasThread(s, t) && StepOf(s, t, s')
    ensures |s'.pcs| == |s.pcs|
  {
    hide Parking.Step, Parking.Enter, Parking.Decide, Parking.Answer;
  }

  // Steps of the lot are steps of the lock.

  /** The system when the lot's own steps of thread t have led to another lot. */
  function Lifted(s: System, t: nat, lot': Parking.State): System
    requires t < |s.pcs| && t < |lot'.pcs| && (s.pcs[t].Sleeping? || s.pcs[t].Unparking?)
  {
    s.Go(t, if !lot'.pcs[t].Out? then s.pcs[t]
            else if s.pcs[t].Sleeping? then Contended(s.pcs[t].lock) else Idle, lot')
  }

  ghost predicate InLot(s: System, t: nat) {
    && HasThread(s, t) && !s.lot.pcs[t].Out?
    && (s.pcs[t].Sleeping? || s.pcs[t].Unparking?) && s.pcs[t].lock in s.words
  }

  lemma {:induction false} PathLifts(s: System, t: nat, path: seq<Parking.State>)
    requires MicroLock.Inv(s) && InLot(s, t) && IsPath(path, LotBy(t)) && path[0] == s.lot
    ensures t < |path[|path| - 1].pcs|
    ensures Reaches(By(t), s, Lifted(s, t, path[|path| - 1])) && MicroLock.Inv(Lifted(s, t, path[|path| - 1]))
  {
    hide MicroLock.Inv, Parking.Step;
    var n := |path| - 1;
    if n == 0 {
      assert s.pcs[t := s.pcs[t]] == s.pcs;
      assert Lifted(s, t, path[0]) == s;
      ReachesSelf(By(t), s);
    } else {
      PathLifts(s, t, path[..n]);
      assert LotBy(t)(path[n - 1], path[n - 1 + 1]);
      OneLifts(s, t, path[n - 1], path[n]);
    }
  }

  lemma OneLifts(s: System, t: nat, lot: Parking.State, lot': Parking.State)
    requires InLot(s, t) && t < |lot.pcs| && LotBy(t)(lot, lot')
    requires Reaches(By(t), s, Lifted(s, t, lot)) && MicroLock.Inv(Lifted(s, t, lot))
    ensures t < |lot'.pcs|
    ensures Reaches(By(t), s, Lifted(s, t, lot')) && MicroLock.Inv(Lifted(s, t, lot'))
  {
    hide MicroLock.Inv, HashAddress, HasKey, FirstOf, AfterUnpark, ResultOf;
    OwnMove(lot, t, lot');
    var mid := Lifted(s, t, lot);
    SizesOf(mid);
    assert mid.pcs[t] == s.pcs[t];
    assert mid.pcs[t := Lifted(s, t, lot').pcs[t]] == Lifted(s, t, lot').pcs;
    assert LotStep(mid, t, Lifted(s, t, lot'));
    Advance(s, mid, t, Lifted(s, t, lot'));
  }

  /** So a lone stretch of the lot's own code is a lone stretch of the lock's. */
  lemma Lifts(s: System, t: nat, lot': Parking.State)
    requires MicroLock.Inv(s) && InLot(s, t) && Reaches(LotBy(t), s.lot, lot')
    ensures t < |lot'.pcs| && Reaches(By(t), s, Lifted(s, t, lot')) && MicroLock.Inv(Lifted(s, t, lot'))
  {
    hide MicroLock.Inv, InLot;
    var path :| IsPath(path, LotBy(t)) && path[0] == s.lot && path[|path| - 1] == lot';
    PathLifts(s, t, path);
  }

  // The calls.

  /** An attempt of lock, try_lock or lock_contended takes the lock if and only if
      nobody holds it. */
  lemma AttemptIsExact(run: seq<System>, i: nat, t: nat, lock: nat)
    requires IsRun(run, InitSystem, Next) && i < |run| - 1
    requires t < |run[i].pcs| && t < |run[i].held| && Attempt(run[i], t, lock, run[i + 1])
    ensures var s, s' := run[i], run[i + 1];
      if forall u :: 0 <= u < |s.held| ==> lock !in s.held[u] then
        && s'.words == s.words[lock := LOCKED] && s'.held == s.held[t := s.held[t] + {lock}]
        && s'.pcs == s.pcs[t := Idle] && s'.lot == s.lot
      else s'.words == s.words && s'.held == s.held && s'.lot == s.lot
  {
    MicroLock.RunsKeepInv(run, i);
  }

  /** A lone attempt on a lock that nobody holds takes it, from outside or from
      lock_contended. */
  lemma LockAlone(s: System, t: nat, lock: nat)
    requires MicroLock.Inv(s) && t < |s.pcs| && lock in s.words && !IsHeld(s.held, lock)
    requires s.pcs[t].Idle? || s.pcs[t] == Contended(lock)
    ensures t < |s.held| && Reaches(By(t), s, s.Take(t, lock))
  {
    assert Attempt(s, t, lock, s.Take(t, lock));
    ReachesSelf(By(t), s);
    ReachesOneMore(By(t), s, s, s.Take(t, lock));
  }

  /** The steps of unlock up to unpark_one's callback. */
  lemma UnlockSearches(s: System, t: nat, lock: nat) returns (s': System)
    requires MicroLock.Inv(s) && HasThread(s, t) && s.pcs[t].Idle? && lock in s.words && lock in s.held[t]
    requires s.lot.pcs[t].Out? && IsOpen(s.lot, lock)
    requires HasKey(s.lot.QueueOf(lock), lock) ==> Oldest(s.lot.QueueOf(lock), lock) < |s.lot.pcs|
    ensures Reaches(By(t), s, s') && MicroLock.Inv(s')
    ensures s' == s.Go(t, Unparking(lock), Searched(s.lot.Move(t, Calling(lock)), t, lock))
                   .(words := s.words[lock := UNLOCKED], held := s.held[t := s.held[t] - {lock}])
  {
    hide MicroLock.Inv, Searched, HashAddress, HasKey, Oldest;
    ReachesSelf(By(t), s);
    var calling := s.Go(t, Unparking(lock), s.lot.Move(t, Calling(lock)))
                    .(words := s.words[lock := UNLOCKED], held := s.held[t := s.held[t] - {lock}]);
    assert Unlock(s, t, lock, calling);
    Advance(s, s, t, calling);
    SizesOf(calling);
    var lot := SearchAlone(calling.lot, t);
    Lifts(calling, t, lot);
    s' := Lifted(calling, t, lot);
    SearchedIsIn(calling.lot, t, lock);
    assert calling.pcs[t := Unparking(lock)] == calling.pcs;
    ReachesTransitive(By(t), s, calling, s');
  }

  lemma SearchedIsIn(lot: Parking.State, t: nat, key: nat)
    requires lot.Sized() && t < |lot.pcs|
    requires HasKey(lot.QueueOf(key), key) ==> Oldest(lot.QueueOf(key), key) < |lot.pcs|
    ensures t < |Searched(lot, t, key).pcs| && Searched(lot, t, key).pcs[t].Unlinked?
    ensures Searched(lot, t, key).pcs[t].key == key
  {
  }

  /** The rest of unlock, from unpark_one's callback. */
  lemma UnlockFinishes(s: System, mid: System, t: nat) returns (s': System)
    requires Reaches(By(t), s, mid) && MicroLock.Inv(mid) && InLot(mid, t) && mid.pcs[t].Unparking?
    requires mid.lot.pcs[t].Unlinked?
    ensures mid.lot.pcs[t].target.Some? ==> mid.lot.pcs[t].target.value < |mid.lot.pcs|
    ensures Reaches(By(t), s, s') && MicroLock.Inv(s')
    ensures var q := mid.lot.pcs[t];
      s' == mid.Go(t, Idle, Finished(mid.lot.Move(t, Told(q.key, q.target)), t, q.key, q.target))
  {
    hide MicroLock.Inv, Finished, HashAddress, HasKey;
    var q := mid.lot.pcs[t];
    var told := mid.Go(t, mid.pcs[t], mid.lot.Move(t, Told(q.key, q.target)));
    assert LotStep(mid, t, told);
    SizesOf(mid);
    Advance(s, mid, t, told);
    SizesOf(told);
    var lot := FinishAlone(told.lot, t);
    FinishedIsOut(told.lot, t, q.key, q.target);
    Lifts(told, t, lot);
    s' := Lifted(told, t, lot);
    assert told.pcs[t := Idle] == mid.pcs[t := Idle];
    ReachesTransitive(By(t), s, told, s');
  }

  lemma FinishedIsOut(lot: Parking.State, t: nat, key: nat, target: Option<nat>)
    requires lot.Sized() && t < |lot.pcs| && (target.Some? ==> target.value < |lot.pcs|)
    ensures t < |Finished(lot, t, key, target).pcs| && Finished(lot, t, key, target).pcs[t].Out?
  {
  }

  lemma IdleIsOut(s: System, t: nat)
    requires MicroLock.Inv(s) && t < |s.pcs|
    ensures HasThread(s, t) && Parking.Inv(s.lot)
    ensures s.pcs[t].Idle? || s.pcs[t].Contended? ==> s.lot.pcs[t].Out?
  {
    assert Agrees(s, t);
  }

  /** A lone unlock of a held lock frees it; and if a node of the lock is queued,
      the one that waited longest is taken out and flagged, and its thread woken. */
  lemma UnlockAlone(s: System, t: nat, lock: nat) returns (s': System)
    requires MicroLock.Inv(s) && HasThread(s, t) && s.pcs[t].Idle? && lock in s.words && lock in s.held[t]
    requires IsOpen(s.lot, lock)
    ensures HasKey(s.lot.QueueOf(lock), lock) ==> Oldest(s.lot.QueueOf(lock), lock) < |s.lot.pcs|
    ensures Reaches(By(t), s, s') && MicroLock.Inv(s')
    ensures s' == System(Unparked(s.lot, lock), s.words[lock := UNLOCKED], s.held[t := s.held[t] - {lock}], s.pcs)
  {
    hide MicroLock.Inv, Parking.Inv, Finished, Searched, Unparked, HashAddress, HasKey, Oldest, ResultOf;
    IdleIsOut(s, t);
    OldestWaits(s.lot, t, lock);
    UnparkedIsWhole(s.lot, t, lock);
    var searched := UnlockSearches(s, t, lock);
    s' := UnlockFinishes(s, searched, t);
    assert searched.pcs[t := Idle] == s.pcs;
  }

  /** A lone lock of a held lock puts a node at the end of the queue and sleeps. */
  lemma LockWaitsAlone(s: System, t: nat, lock: nat) returns (s': System)
    requires MicroLock.Inv(s) && HasThread(s, t) && lock in s.words && s.words[lock] == LOCKED
    requires (s.pcs[t].Idle? || s.pcs[t] == Contended(lock)) && IsOpen(s.lot, lock)
    ensures Reaches(By(t), s, s') && MicroLock.Inv(s')
    ensures s' == s.Go(t, Sleeping(lock), Waited(s.lot, t, lock))
  {
    hide MicroLock.Inv, Parking.Inv, Waited, Joined, HashAddress, HasKey;
    IdleIsOut(s, t);
    ReachesSelf(By(t), s);
    var contended := s.Go(t, Contended(lock), s.lot);
    assert Attempt(s, t, lock, contended);
    Advance(s, s, t, contended);
    var accepting := LockArrives(s, contended, t, lock);
    SizesOf(accepting);
    WaitedIsWhole(s.lot, t, lock);
    var lot := JoinAlone(accepting.lot, t);
    Lifts(accepting, t, lot);
    JoinedSleeps(accepting.lot, t, lock);
    s' := Lifted(accepting, t, lot);
    assert s'.pcs == s.pcs[t := Sleeping(lock)];
    ReachesTransitive(By(t), s, accepting, s');
  }

  lemma JoinedSleeps(lot: Parking.State, t: nat, key: nat)
    requires lot.Sized() && t < |lot.pcs|
    ensures t < |Joined(lot, t, key).pcs| && Joined(lot, t, key).pcs[t].Asleep?
  {
  }

  /** The steps from lock_contended up to an accepted park. */
  lemma LockArrives(s: System, mid: System, t: nat, lock: nat) returns (s': System)
    requires Reaches(By(t), s, mid) && MicroLock.Inv(mid) && HasThread(mid, t) && mid.pcs[t] == Contended(lock)
    requires lock in mid.words && mid.words[lock] == LOCKED && mid.lot.pcs[t].Out? && IsOpen(mid.lot, lock)
    ensures Reaches(By(t), s, s') && MicroLock.Inv(s') && InLot(s', t)
    ensures s' == mid.Go(t, Sleeping(lock), mid.lot.Move(t, Accepting(lock)).Own(lock, Some(t)))
  {
    hide MicroLock.Inv, HashAddress;
    var arriving := mid.Go(t, Sleeping(lock), mid.lot.Move(t, Arriving(lock)));
    assert CallPark(mid, t, arriving);
    Advance(s, mid, t, arriving);
    SizesOf(arriving);
    var lot := ArriveAlone(arriving.lot, t);
    Lifts(arriving, t, lot);
    var deciding := Lifted(arriving, t, lot);
    ReachesTransitive(By(t), s, arriving, deciding);
    SizesOf(deciding);
    s' := mid.Go(t, Sleeping(lock), mid.lot.Move(t, Accepting(lock)).Own(lock, Some(t)));
    assert deciding.pcs == s'.pcs && deciding.lot.pcs[t := Accepting(lock)] == s'.lot.pcs;
    assert Parking.Decide(deciding.lot, t, true, s'.lot);
    assert LotStep(deciding, t, s');
    Advance(s, deciding, t, s');
  }

  /** A thread that was taken out of the queue and flagged takes the free lock by
      its own steps alone. */
  lemma WokenTakesAlone(s: System, t: nat) returns (s': System)
    requires MicroLock.Inv(s) && HasThread(s, t) && s.pcs[t].Sleeping?
    requires Waits(s.lot.pcs[t]) && !s.lot.pcs[t].Enqueued? && s.lot.flags[t] != 0 && !IsHeld(s.held, s.pcs[t].lock)
    ensures Reaches(By(t), s, s')
    ensures s' == s.Take(t, s.pcs[t].lock).(lot := s.lot.Move(t, Out))
  {
    hide MicroLock.Inv, HashAddress, IsHeld;
    var lock := s.pcs[t].lock;
    SleeperIsIn(s, t);
    SizesOf(s);
    var lot := ReturnAlone(s.lot, t);
    Lifts(s, t, lot);
    var contended := Lifted(s, t, lot);
    SizesOf(contended);
    LockAlone(contended, t, lock);
    s' := contended.Take(t, lock);
    assert contended.pcs[t := Idle] == s.pcs[t := Idle];
    ReachesTransitive(By(t), s, contended, s');
  }

  lemma SleeperIsIn(s: System, t: nat)
    requires MicroLock.Inv(s) && HasThread(s, t) && s.pcs[t].Sleeping?
    ensures s.pcs[t].lock in s.words
  {
    assert Agrees(s, t);
  }
}
