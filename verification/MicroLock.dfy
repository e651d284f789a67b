/** The one-byte lock over the parking lot: any number of threads and of locks,
    several of which may share a bucket. */
module MicroLock {
  import opened Holders
  import opened Options
  import opened Parking
  import opened ParkingQueue
  import opened Threads

  const UNLOCKED: nat := 0x00
  const LOCKED: nat := 0x01

  /** Where a thread is in the lock's own code; the parking lot knows the rest. */
  datatype PC =
    | Idle                    // in no call; it may hold locks
    | Contended(lock: nat)    // in lock_contended, before an exchange attempt or the call of park
    | Sleeping(lock: nat)     // in park
    | Unparking(lock: nat)    // in unlock, word stored, in unpark_one

  /** The words of the locks by address, and the locks each thread holds. */
  datatype System = System(lot: Parking.State, words: map<nat, nat>, held: seq<set<nat>>, pcs: seq<PC>) {
    function Go(t: nat, p: PC, lot': Parking.State): System
      requires t < |pcs|
    {
      this.(pcs := pcs[t := p], lot := lot')
    }

    function Take(t: nat, lock: nat): System
      requires t < |pcs| && t < |held|
    {
      this.(words := words[lock := LOCKED], held := held[t := held[t] + {lock}], pcs := pcs[t := PC.Idle])
    }
  }

  ghost predicate InitSystem(s: System) {
    && Parking.Init(s.lot) && |s.lot.pcs| == |s.pcs| && |s.held| == |s.pcs|
    && (forall l :: l in s.words ==> s.words[l] == UNLOCKED)
    && (forall t :: 0 <= t < |s.pcs| ==> s.pcs[t] == Idle && s.held[t] == {})
  }

  /** Inside park or unpark_one: the lot's own steps and the callbacks, and the
      return to the lock's code. */
  ghost predicate LotStep(s: System, t: nat, s': System)
    requires t < |s.pcs| && s.lot.Sized() && t < |s.lot.pcs|
  {
    && (s.pcs[t].Sleeping? || s.pcs[t].Unparking?)
    && s.pcs[t].lock in s.words
    && (|| Parking.Step(s.lot, t, s'.lot)
        || Parking.Answer(s.lot, t, s'.lot)
        || Parking.Decide(s.lot, t, s.words[s.pcs[t].lock] == LOCKED, s'.lot))
    && t < |s'.lot.pcs|
    && s' == s.Go(t, if !s'.lot.pcs[t].Out? then s.pcs[t]
                     else if s.pcs[t].Sleeping? then Contended(s.pcs[t].lock) else PC.Idle, s'.lot)
  }

  /** An exchange of UNLOCKED for LOCKED, from lock, try_lock or lock_contended. */
  ghost predicate Attempt(s: System, t: nat, lock: nat, s': System)
    requires t < |s.pcs| && t < |s.held|
  {
    && lock in s.words
    && (s.pcs[t].Idle? || s.pcs[t] == Contended(lock))
    && if s.words[lock] == UNLOCKED then s' == s.Take(t, lock)
       else s' == s || s' == s.Go(t, Contended(lock), s.lot)
  }

  ghost predicate CallPark(s: System, t: nat, s': System)
    requires t < |s.pcs|
  {
    && s.pcs[t].Contended?
    && Parking.Enter(s.lot, t, Arriving(s.pcs[t].lock), s'.lot)
    && s' == s.Go(t, Sleeping(s.pcs[t].lock), s'.lot)
  }

  /** The holder stores UNLOCKED and calls unpark_one. */
  ghost predicate Unlock(s: System, t: nat, lock: nat, s': System)
    requires t < |s.pcs| && t < |s.held|
  {
    && s.pcs[t].Idle? && lock in s.words && lock in s.held[t]
    && Parking.Enter(s.lot, t, Calling(lock), s'.lot)
    && s' == s.Go(t, Unparking(lock), s'.lot)
              .(words := s.words[lock := UNLOCKED], held := s.held[t := s.held[t] - {lock}])
  }

  ghost predicate StepOf(s: System, t: nat, s': System)
    requires t < |s.pcs| && s.lot.Sized() && t < |s.lot.pcs| && t < |s.held|
  {
    || LotStep(s, t, s')
    || (exists lock :: Attempt(s, t, lock, s'))
    || CallPark(s, t, s')
    || (exists lock :: Unlock(s, t, lock, s'))
  }

  ghost predicate Next(s: System, s': System) {
    && s.lot.Sized() && |s.lot.pcs| == |s.pcs| && |s.held| == |s.pcs|
    && exists t :: 0 <= t < |s.pcs| && StepOf(s, t, s')
  }

  // The invariant.

  /** The thread's place in the lot agrees with its place in the lock's code. */
  ghost predicate Agrees(s: System, t: nat)
    requires t < |s.pcs| && t < |s.lot.pcs|
  {
    var q := s.lot.pcs[t];
    match s.pcs[t]
    case Idle => q.Out?
    case Contended(lock) => q.Out? && lock in s.words
    case Sleeping(lock) =>
      && lock in s.words
      && (q.Arriving? || q.Deciding? || q.Accepting? || q.Refused? || Waits(q)) && q.key == lock
    case Unparking(lock) =>
      && lock in s.words
      && (q.Waking? || ((q.Calling? || q.Searching? || q.Unlinked? || q.Told? || q.Releasing?) && q.key == lock))
  }

  /** The word of a lock says whether some thread holds it, and no two do. */
  ghost predicate WordInv(s: System) {
    && |s.held| == |s.pcs|
    && (forall l :: l in s.words ==>
          (s.words[l] == LOCKED || s.words[l] == UNLOCKED) && (s.words[l] == LOCKED <==> IsHeld(s.held, l)))
    && Exclusive(s.held)
  }

  /** Somebody on whom a queued waiter of the lock can rely: an unlocker that has
      not searched yet, or a thread on its way to another attempt. */
  ghost predicate Rescues(s: System, u: nat, lock: nat)
    requires s.lot.Sized() && u < |s.pcs| && u < |s.lot.pcs|
  {
    var q := s.lot.pcs[u];
    || WillUnpark(q, lock)
    || s.pcs[u] == Contended(lock)
    || q == Arriving(lock) || q == Deciding(lock) || q == Refused(lock)
    || (Waits(q) && q.key == lock && !Queued(s.lot, u))
  }

  ghost predicate NotStranded(s: System, lock: nat)
    requires lock in s.words && s.lot.Sized() && |s.lot.pcs| == |s.pcs|
  {
    HasKey(s.lot.QueueOf(lock), lock) ==>
      s.words[lock] == LOCKED || exists u :: 0 <= u < |s.pcs| && Rescues(s, u, lock)
  }

  /** A thread that was told to wait, and is about to, does so for a reason. */
  ghost predicate AcceptedForReason(s: System, t: nat)
    requires t < |s.lot.pcs|
  {
    s.lot.pcs[t].Accepting? ==>
      var lock := s.lot.pcs[t].key;
      && lock in s.words
      && (s.words[lock] == LOCKED || exists u :: 0 <= u < |s.lot.pcs| && s.lot.pcs[u] == Calling(lock))
  }

  ghost predicate Inv(s: System) {
    && Parking.Inv(s.lot) && |s.lot.pcs| == |s.pcs|
    && WordInv(s)
    && (forall t :: 0 <= t < |s.pcs| ==> Agrees(s, t))
    && (forall t :: 0 <= t < |s.pcs| ==> AcceptedForReason(s, t))
    && (forall l :: l in s.words ==> NotStranded(s, l))
  }

  /** What a step inside the lot amounts to for the lock. */
  ghost predicate LotMove(s: System, t: nat, s': System) {
    && t < |s.pcs| == |s'.pcs| && |s.lot.pcs| == |s.pcs|
    && Parking.Inv(s'.lot) && Effect(s.lot, t, s'.lot)
    && s'.words == s.words && s'.held == s.held
    && (s.pcs[t].Sleeping? || s.pcs[t].Unparking?) && s.pcs[t].lock in s.words
    && s'.pcs == s.pcs[t := if !s'.lot.pcs[t].Out? then s.pcs[t]
                            else if s.pcs[t].Sleeping? then Contended(s.pcs[t].lock) else PC.Idle]
    && (s'.lot.pcs[t].Accepting? ==> s.words[s.pcs[t].lock] == LOCKED)
  }

  lemma LotStepMoves(s: System, t: nat, s': System)
    requires Inv(s) && t < |s.pcs| && LotStep(s, t, s')
    ensures Parking.AnyStep(s.lot, t, s'.lot) && LotMove(s, t, s')
  {
    StepHasEffect(s.lot, t, s'.lot);
  }

  lemma LotKeepsAgreement(s: System, t: nat, s': System, u: nat)
    requires Inv(s) && LotMove(s, t, s') && u < |s.pcs|
    ensures Agrees(s', u)
  {
    assert Agrees(s, u);
    assert u != t ==> Unmoved(s.lot, s'.lot, u);
  }

  /** Nobody else stops being somebody to rely on. */
  lemma OthersKeepRescue(s: System, t: nat, s': System, u: nat, lock: nat)
    requires Inv(s) && LotMove(s, t, s') && u < |s.pcs| && u != t && Rescues(s, u, lock)
    ensures Rescues(s', u, lock)
  {
    assert Unmoved(s.lot, s'.lot, u);
  }

  lemma LotKeepsReasons(s: System, t: nat, s': System, v: nat)
    requires Inv(s) && LotMove(s, t, s') && v < |s.pcs|
    ensures AcceptedForReason(s', v)
  {
    assert AcceptedForReason(s, v) && Agrees(s, t);
    if v != t && s'.lot.pcs[v].Accepting? {
      assert Unmoved(s.lot, s'.lot, v);
      var lock := s.lot.pcs[v].key;
      if s.words[lock] != LOCKED {
        var u :| 0 <= u < |s.lot.pcs| && s.lot.pcs[u] == Calling(lock);
        // Nobody takes the bucket that v holds.
        assert s.lot.buckets[HashAddress(lock)].owner == Some(v);
        assert u != t && Unmoved(s.lot, s'.lot, u);
      }
    }
  }

  /** For another lock than the one thread t works on, nothing changes. */
  lemma OtherLocksUnharmed(s: System, t: nat, s': System, l: nat)
    requires Inv(s) && LotMove(s, t, s') && l in s.words && l != s.pcs[t].lock
    requires HasKey(s'.lot.QueueOf(l), l) <==> HasKey(s.lot.QueueOf(l), l)
    ensures NotStranded(s', l)
  {
    hide HashAddress, HasKey;
    assert Agrees(s, t) && NotStranded(s, l);
    if HasKey(s.lot.QueueOf(l), l) && s.words[l] != LOCKED {
      var u :| 0 <= u < |s.pcs| && Rescues(s, u, l);
      OthersKeepRescue(s, t, s', u, l);
    }
  }

  /** A thread that is added to the queue of its lock has somebody to rely on. */
  lemma EnqueueUnharmed(s: System, t: nat, s': System)
    requires Inv(s) && LotMove(s, t, s') && s.lot.pcs[t].Accepting?
    ensures NotStranded(s', s.pcs[t].lock)
  {
    var l := s.pcs[t].lock;
    assert Agrees(s, t) && AcceptedForReason(s, t);
    if s.words[l] != LOCKED {
      var u :| 0 <= u < |s.lot.pcs| && s.lot.pcs[u] == Calling(l);
      assert Rescues(s, u, l);
      OthersKeepRescue(s, t, s', u, l);
    }
  }

  /** Whoever a search takes out of the queue will try again. */
  lemma SearchUnharmed(s: System, t: nat, s': System)
    requires Inv(s) && t < |s.pcs| && LotStep(s, t, s') && LotMove(s, t, s') && s.lot.pcs[t].Searching?
    ensures NotStranded(s', s.pcs[t].lock)
  {
    var l := s.pcs[t].lock;
    assert Agrees(s, t);
    if HasKey(s.lot.QueueOf(l), l) {
      var u := Found(s.lot, t);
      FoundWaits(s.lot, t);
      UnlinkQueued(s.lot, t, s'.lot, u);
      assert Unmoved(s.lot, s'.lot, u);
      assert Rescues(s', u, l);
    }
  }

  /** A thread on its way to another attempt stays on it, or learns that the lock is held. */
  lemma SelfKeepsRescue(s: System, t: nat, s': System)
    requires Inv(s) && LotMove(s, t, s') && Rescues(s, t, s.pcs[t].lock)
    requires !s.lot.pcs[t].Searching? && s.words[s.pcs[t].lock] != LOCKED
    ensures Rescues(s', t, s.pcs[t].lock)
  {
    assert Agrees(s, t);
    assert Parking.ThreadInv(s.lot, t);
  }

  lemma OtherStepUnharmed(s: System, t: nat, s': System)
    requires Inv(s) && LotMove(s, t, s') && !s.lot.pcs[t].Accepting? && !s.lot.pcs[t].Searching?
    requires var l := s.pcs[t].lock; HasKey(s'.lot.QueueOf(l), l) <==> HasKey(s.lot.QueueOf(l), l)
    ensures NotStranded(s', s.pcs[t].lock)
  {
    var l := s.pcs[t].lock;
    assert NotStranded(s, l);
    if HasKey(s.lot.QueueOf(l), l) && s.words[l] != LOCKED {
      var u :| 0 <= u < |s.pcs| && Rescues(s, u, l);
      if u != t {
        OthersKeepRescue(s, t, s', u, l);
      } else {
        SelfKeepsRescue(s, t, s');
      }
    }
  }

  lemma LotKeepsInv(s: System, t: nat, s': System)
    requires Inv(s) && t < |s.pcs| && LotStep(s, t, s')
    ensures Inv(s')
  {
    LotStepMoves(s, t, s');
    assert Agrees(s, t);
    forall u | 0 <= u < |s'.pcs|
      ensures Agrees(s', u) && AcceptedForReason(s', u)
    {
      LotKeepsAgreement(s, t, s', u);
      LotKeepsReasons(s, t, s', u);
    }
    forall l | l in s'.words
      ensures NotStranded(s', l)
    {
      if l != s.pcs[t].lock {
        OtherKeysUnmoved(s.lot, t, s'.lot, l);
        OtherLocksUnharmed(s, t, s', l);
      } else if s.lot.pcs[t].Accepting? {
        EnqueueUnharmed(s, t, s');
      } else if s.lot.pcs[t].Searching? {
        SearchUnharmed(s, t, s');
      } else {
        OtherKeysUnmoved(s.lot, t, s'.lot, l);
        OtherStepUnharmed(s, t, s');
      }
    }
  }

  lemma AttemptKeepsInv(s: System, t: nat, lock: nat, s': System)
    requires Inv(s) && t < |s.pcs| && Attempt(s, t, lock, s')
    ensures Inv(s')
  {
    assert Agrees(s, t);
    if s.words[lock] == UNLOCKED {
      TakeFree(s.held, t, lock);
    }
    forall u | 0 <= u < |s'.pcs|
      ensures Agrees(s', u) && AcceptedForReason(s', u)
    {
      assert Agrees(s, u) && AcceptedForReason(s, u);
    }
    forall l | l in s'.words
      ensures NotStranded(s', l)
    {
      assert NotStranded(s, l);
      if s'.words[l] != LOCKED && HasKey(s.lot.QueueOf(l), l) {
        var u :| 0 <= u < |s.pcs| && Rescues(s, u, l);
        assert Rescues(s', u, l);
      }
    }
  }

  /** Calling park or unpark_one moves one thread of the lot and nothing else. */
  lemma EnterMoves(s: System, t: nat, q: Parking.PC, lot': Parking.State)
    requires Inv(s) && t < |s.pcs| && Parking.Enter(s.lot, t, q, lot')
    ensures Parking.Inv(lot') && Effect(s.lot, t, lot')
    ensures lot'.buckets == s.lot.buckets && lot'.pcs == s.lot.pcs[t := q]
  {
    assert Parking.AnyStep(s.lot, t, lot');
    StepHasEffect(s.lot, t, lot');
  }

  lemma CallParkKeepsInv(s: System, t: nat, s': System)
    requires Inv(s) && t < |s.pcs| && CallPark(s, t, s')
    ensures Inv(s')
  {
    hide HashAddress, HasKey;
    assert Agrees(s, t);
    EnterMoves(s, t, Arriving(s.pcs[t].lock), s'.lot);
    forall u | 0 <= u < |s'.pcs|
      ensures Agrees(s', u) && AcceptedForReason(s', u)
    {
      assert Agrees(s, u) && AcceptedForReason(s, u);
      EnterKeepsCalls(s, t, s', u);
    }
    forall l | l in s'.words
      ensures NotStranded(s', l)
    {
      assert NotStranded(s, l);
      if s.words[l] != LOCKED && HasKey(s.lot.QueueOf(l), l) {
        var u :| 0 <= u < |s.pcs| && Rescues(s, u, l);
        assert u != t ==> Unmoved(s.lot, s'.lot, u);
        assert Rescues(s', u, l);
      }
    }
  }

  /** Reasons to wait outlive another thread's call into the lot. */
  lemma EnterKeepsCalls(s: System, t: nat, s': System, v: nat)
    requires t < |s.lot.pcs| && s.lot.pcs[t].Out? && v < |s.lot.pcs| && AcceptedForReason(s, v)
    requires |s'.lot.pcs| == |s.lot.pcs| && s'.lot.pcs == s.lot.pcs[t := s'.lot.pcs[t]] && s'.words == s.words
    requires s'.lot.pcs[t].Arriving? || s'.lot.pcs[t].Calling?
    ensures AcceptedForReason(s', v)
  {
    if s'.lot.pcs[v].Accepting? && s.words[s.lot.pcs[v].key] != LOCKED {
      var u :| 0 <= u < |s.lot.pcs| && s.lot.pcs[u] == Calling(s.lot.pcs[v].key);
      assert s'.lot.pcs[u] == Calling(s.lot.pcs[v].key);
    }
  }

  lemma UnlockKeepsWaiters(s: System, t: nat, lock: nat, s': System, l: nat)
    requires Inv(s) && t < |s.pcs| && Unlock(s, t, lock, s') && l in s.words
    requires Effect(s.lot, t, s'.lot) && s'.lot.buckets == s.lot.buckets && s'.lot.pcs[t] == Calling(lock)
    ensures NotStranded(s', l)
  {
    assert NotStranded(s, l) && Agrees(s, t);
    if l == lock {
      assert Rescues(s', t, l);
    } else if s.words[l] != LOCKED && HasKey(s.lot.QueueOf(l), l) {
      var u :| 0 <= u < |s.pcs| && Rescues(s, u, l);
      assert u != t && Unmoved(s.lot, s'.lot, u);
      assert Rescues(s', u, l);
    }
  }

  lemma UnlockKeepsInv(s: System, t: nat, lock: nat, s': System)
    requires Inv(s) && t < |s.pcs| && Unlock(s, t, lock, s')
    ensures Inv(s')
  {
    assert Agrees(s, t);
    EnterMoves(s, t, Calling(lock), s'.lot);
    GiveBack(s.held, t, lock);
    assert s'.lot.pcs[t] == Calling(lock);
    forall u | 0 <= u < |s'.pcs|
      ensures Agrees(s', u) && AcceptedForReason(s', u)
    {
      assert Agrees(s, u) && AcceptedForReason(s, u);
      EnterKeepsCalls(s, t, s'.(words := s.words), u);
    }
    forall l | l in s'.words
      ensures NotStranded(s', l)
    {
      UnlockKeepsWaiters(s, t, lock, s', l);
    }
  }

  lemma StepKeepsInv(s: System, t: nat, s': System)
    requires Inv(s) && t < |s.pcs| && StepOf(s, t, s')
    ensures Inv(s')
  {
    if LotStep(s, t, s') {
      LotKeepsInv(s, t, s');
    } else if lock :| Attempt(s, t, lock, s') {
      AttemptKeepsInv(s, t, lock, s');
    } else if CallPark(s, t, s') {
      CallParkKeepsInv(s, t, s');
    } else {
      var lock :| Unlock(s, t, lock, s');
      UnlockKeepsInv(s, t, lock, s');
    }
  }

  lemma InitKeepsInv(s: System)
    requires InitSystem(s)
    ensures Inv(s)
  {
    InitHasInv(s.lot);
  }

  lemma NextKeepsInv(s: System, s': System)
    requires Inv(s) && Next(s, s')
    ensures Inv(s')
  {
    var t :| 0 <= t < |s.pcs| && StepOf(s, t, s');
    StepKeepsInv(s, t, s');
  }

  lemma {:induction false} RunsKeepInv(run: seq<System>, i: nat)
    requires IsRun(run, InitSystem, Next) && i < |run|
    ensures Inv(run[i])
  {
    hide Inv, Next, InitSystem;
    if i == 0 {
      InitKeepsInv(run[0]);
    } else {
      RunsKeepInv(run, i - 1);
      assert Next(run[i - 1], run[i - 1 + 1]);
      NextKeepsInv(run[i - 1], run[i]);
    }
  }

  /** A thread that will try the lock again: awake in lock_contended, or taken out
      of the queue, in which case its flag is set or about to be, and if it still
      sleeps the wake is on its way. */
  ghost predicate WillRetry(s: System, u: nat, lock: nat)
    requires s.lot.Sized() && |s.lot.pcs| == |s.pcs| && u < |s.pcs|
  {
    || s.pcs[u] == Contended(lock)
    || s.lot.pcs[u] == Arriving(lock)
    || (s.pcs[u] == Sleeping(lock) && Waits(s.lot.pcs[u]) && !Queued(s.lot, u)
        && (s.lot.flags[u] == 0 ==> HasTargeter(s.lot, u))
        && (s.lot.pcs[u].Asleep? && s.lot.flags[u] != 0 ==> HasWaker(s.lot, u)))
  }

  /** No stranded waiter: whenever a lock's bucket is free and a node of the lock
      is queued, the lock is held, or an unlocker has stored UNLOCKED and not yet
      run unpark_one, or some thread will try the lock again. */
  lemma QueuedMeansHeldOrComing(run: seq<System>, i: nat, lock: nat)
    requires IsRun(run, InitSystem, Next) && i < |run| && lock in run[i].words
    requires run[i].lot.Sized() && |run[i].lot.pcs| == |run[i].pcs|
    requires run[i].lot.buckets[HashAddress(lock)].owner.None? && HasKey(run[i].lot.QueueOf(lock), lock)
    ensures
      || run[i].words[lock] == LOCKED
      || (exists u :: 0 <= u < |run[i].pcs| && run[i].pcs[u] == Unparking(lock) && run[i].lot.pcs[u] == Calling(lock))
      || (exists u :: 0 <= u < |run[i].pcs| && WillRetry(run[i], u, lock))
  {
    RunsKeepInv(run, i);
    var s := run[i];
    assert NotStranded(s, lock);
    if s.words[lock] != LOCKED {
      var u :| 0 <= u < |s.pcs| && Rescues(s, u, lock);
      assert Agrees(s, u) && WakeOk(s.lot, u);
      if s.lot.pcs[u] == Calling(lock) {
        assert s.pcs[u] == Unparking(lock);
      } else {
        assert WillRetry(s, u, lock);
      }
    }
  }

  /** With no lock held and every thread either outside or asleep, nobody sleeps. */
  lemma NobodyIsStranded(run: seq<System>, i: nat)
    requires IsRun(run, InitSystem, Next) && i < |run|
    requires run[i].lot.Sized() && |run[i].lot.pcs| == |run[i].pcs|
    requires forall l :: l in run[i].words ==> run[i].words[l] != LOCKED
    requires forall u :: 0 <= u < |run[i].pcs| ==> run[i].pcs[u].Idle? || run[i].lot.pcs[u].Asleep?
    ensures forall u :: 0 <= u < |run[i].pcs| ==> run[i].pcs[u].Idle?
  {
    RunsKeepInv(run, i);
    forall u | 0 <= u < |run[i].lot.pcs|
      ensures run[i].lot.pcs[u].Out? || run[i].lot.pcs[u].Asleep?
    {
      assert Agrees(run[i], u);
    }
    NobodyComing(run[i].lot);
    forall u | 0 <= u < |run[i].pcs|
      ensures run[i].pcs[u].Idle?
    {
      SleeperHasHope(run[i], u);
    }
  }

  /** With no wake coming, whoever sleeps is queued, and so nobody to rely on. */
  lemma SleepersAreQueued(s: System, v: nat, lock: nat)
    requires Inv(s) && v < |s.pcs| && (s.pcs[v].Idle? || s.lot.pcs[v].Asleep?)
    requires !HasTargeter(s.lot, v) && !HasWaker(s.lot, v)
    ensures s.lot.pcs[v].Asleep? ==> Queued(s.lot, v)
    ensures !Rescues(s, v, lock)
  {
    assert Agrees(s, v) && WakeOk(s.lot, v);
  }

  lemma NobodyQueued(s: System, lock: nat)
    requires Inv(s) && lock in s.words && s.words[lock] != LOCKED
    requires forall v :: 0 <= v < |s.pcs| ==> !Rescues(s, v, lock)
    ensures !HasKey(s.lot.QueueOf(lock), lock)
  {
    assert NotStranded(s, lock);
  }

  lemma SleeperHasHope(s: System, u: nat)
    requires Inv(s) && u < |s.pcs| && (s.pcs[u].Idle? || s.lot.pcs[u].Asleep?)
    requires forall l :: l in s.words ==> s.words[l] != LOCKED
    requires forall v :: 0 <= v < |s.pcs| ==> s.pcs[v].Idle? || s.lot.pcs[v].Asleep?
    requires forall v :: !HasTargeter(s.lot, v) && !HasWaker(s.lot, v)
    ensures s.pcs[u].Idle?
  {
    assert Agrees(s, u);
    if s.lot.pcs[u].Asleep? {
      var lock := s.pcs[u].lock;
      SleepersAreQueued(s, u, lock);
      forall v | 0 <= v < |s.pcs|
        ensures !Rescues(s, v, lock)
      {
        SleepersAreQueued(s, v, lock);
      }
      NobodyQueued(s, lock);
      QueuedHasKey(s.lot, u);
    }
  }

  /** The word of a lock says LOCKED exactly if some thread holds it, and no two
      do; and a call of park that queued its node returns with the node taken out
      as often as it was put in. */
  lemma HoldersAndNodesAgree(run: seq<System>, i: nat)
    requires IsRun(run, InitSystem, Next) && i < |run|
    ensures var s := run[i];
      && |s.held| == |s.pcs| == |s.lot.joined| == |s.lot.removed|
      && (forall l :: l in s.words ==> (s.words[l] == LOCKED <==> exists t :: 0 <= t < |s.held| && l in s.held[t]))
      && (forall t, u :: 0 <= t < u < |s.held| ==> s.held[t] !! s.held[u])
      && (forall u :: 0 <= u < |s.pcs| && (s.pcs[u].Idle? || s.pcs[u].Contended?) ==>
            s.lot.joined[u] == s.lot.removed[u])
  {
    RunsKeepInv(run, i);
    var s := run[i];
    forall u | 0 <= u < |s.pcs| && (s.pcs[u].Idle? || s.pcs[u].Contended?)
      ensures s.lot.joined[u] == s.lot.removed[u]
    {
      assert Agrees(s, u) && Parking.ThreadInv(s.lot, u);
    }
  }

  // What the lot goes through is a run of the lot.

  ghost function Lots(run: seq<System>): seq<Parking.State> {
    seq(|run|, i requires 0 <= i < |run| => run[i].lot)
  }

  lemma NextMovesLot(s: System, s': System)
    requires Next(s, s')
    ensures AnyNext(s.lot, s'.lot)
  {
    var t :| 0 <= t < |s.pcs| && StepOf(s, t, s');
    hide Parking.Step, Parking.Enter, Parking.Decide, Parking.Answer;
    assert s'.lot == s.lot || AnyStep(s.lot, t, s'.lot);
  }

  /** So the theorems on the lot hold in every run of the locks. */
  lemma LotsAreARun(run: seq<System>)
    requires IsRun(run, InitSystem, Next)
    ensures IsRun(Lots(run), Parking.Init, AnyNext)
  {
    forall i | 0 <= i < |run| - 1
      ensures AnyNext(run[i].lot, run[i + 1].lot)
    {
      assert Next(run[i], run[i + 1]);
      NextMovesLot(run[i], run[i + 1]);
    }
  }
}
