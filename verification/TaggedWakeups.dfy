/** When the lock in a tagged pointer forgets a waiter, and when it does not. */
module TaggedWakeups {
  import opened Bits
  import opened Options
  import opened Parking
  import opened ParkingQueue
  import opened TaggedLockPtr
  import opened Threads

  /** Somebody on whom a queued waiter of the lock can rely: an unlocker that has
      not searched yet, or a thread on its way to another attempt. */
  ghost predicate Rescues(s: System, u: nat, l: nat)
    requires Sized(s) && u < |s.pcs|
  {
    var p, q := s.pcs[u], s.lot.pcs[u];
    || WillUnpark(q, l)
    || p == Contended(l) || (p.Locking? && p.lock == l && p.slow)
    || q == Arriving(l) || (q == Deciding(l) && p.Sleeping?) || q == Refused(l)
    || (Waits(q) && q.key == l && !Queued(s.lot, u))
  }

  ghost predicate HasRescuer(s: System, l: nat)
    requires Sized(s)
  {
    exists u :: 0 <= u < |s.pcs| && Rescues(s, u, l)
  }

  /** Waiters are queued for a lock that nobody holds and nobody is coming for. */
  ghost predicate Forgotten(s: System, l: nat) {
    && Sized(s) && l in s.words
    && HasKey(s.lot.QueueOf(l), l) && !IsLocked(s.words[l]) && !HasRescuer(s, l)
  }

  /** A validation sets WAITERS_BIT too late: after it saw LOCKED_BIT the lock has
      been released, and nobody is on the way to the queue or to another attempt. */
  ghost predicate MarksTooLate(s: System, t: nat, s': System, l: nat) {
    && Sized(s) && t < |s.pcs| && Mark(s, t, s') && s.pcs[t] == Marking(l) && l in s.words
    && !IsLocked(s.words[l]) && !HasRescuer(s, l)
  }

  ghost predicate TooLate(s: System, s': System, l: nat) {
    exists t :: 0 <= t < |s.pcs| && MarksTooLate(s, t, s', l)
  }

  predicate Joining(q: Parking.PC, l: nat) {
    q == Accepting(l)
  }

  /** A thread that is about to wait does so for a reason. */
  ghost predicate JoinsForReason(s: System, t: nat, l: nat)
    requires Sized(s) && t < |s.pcs| && l in s.words
  {
    Joining(s.lot.pcs[t], l) ==> IsLocked(s.words[l]) || HasRescuer(s, l)
  }

  ghost predicate Watched(s: System, l: nat)
    requires Sized(s) && l in s.words
  {
    && (forall t :: 0 <= t < |s.pcs| ==> JoinsForReason(s, t, l))
    && !Forgotten(s, l)
  }

  // Steps that leave the lock bit as it is.

  ghost predicate LotMoves(s: System, t: nat, s': System) {
    s'.lot == s.lot || Effect(s.lot, t, s'.lot)
  }

  /** Thread t gives up neither its reason to wait nor its readiness to try again. */
  ghost predicate Faithful(s: System, t: nat, s': System, l: nat)
    requires Sized(s) && Sized(s') && t < |s.pcs| && t < |s'.pcs| && l in s'.words
  {
    && (Joining(s'.lot.pcs[t], l) ==>
          Joining(s.lot.pcs[t], l) || IsLocked(s'.words[l]) || (HasRescuer(s, l) && !WillUnpark(s.lot.pcs[t], l)))
    && (Rescues(s, t, l) ==>
          Rescues(s', t, l) || IsLocked(s'.words[l]) || (s.lot.pcs[t] == Searching(l) && s'.lot != s.lot))
  }

  /** What thread t's step amounts to for the waiters of lock l. */
  ghost predicate Calm(s: System, t: nat, s': System, l: nat) {
    && Sized(s) && Sized(s') && OwnerInv(s.lot) && OnlyMoves(s, t, s') && l in s.words
    && (IsLocked(s.words[l]) ==> IsLocked(s'.words[l]))
    && LotMoves(s, t, s')
    && Faithful(s, t, s', l)
    && (s'.lot != s.lot ==>
          KeyMove(s.lot.pcs[t], s'.lot.pcs[t], l, HasKey(s.lot.QueueOf(l), l), HasKey(s'.lot.QueueOf(l), l)))
  }

  lemma OthersKeepRescue(s: System, t: nat, s': System, u: nat, l: nat)
    requires Sized(s) && Sized(s') && OnlyMoves(s, t, s') && LotMoves(s, t, s')
    requires u < |s.pcs| && u != t && Rescues(s, u, l)
    ensures Rescues(s', u, l)
  {
    assert s'.lot != s.lot ==> Unmoved(s.lot, s'.lot, u);
  }

  /** Unless t searches the queue, somebody goes on being there to rely on. */
  lemma RescuersStay(s: System, t: nat, s': System, l: nat)
    requires Calm(s, t, s', l) && HasRescuer(s, l)
    requires s'.lot != s.lot ==> s.lot.pcs[t] != Searching(l)
    ensures IsLocked(s'.words[l]) || HasRescuer(s', l)
  {
    var u :| 0 <= u < |s.pcs| && Rescues(s, u, l);
    if u != t {
      OthersKeepRescue(s, t, s', u, l);
    }
  }

  /** While v holds the bucket to join the queue, nobody searches it. */
  lemma NobodySearches(lot: Parking.State, t: nat, lot': Parking.State, l: nat, v: nat)
    requires OwnerInv(lot) && (lot' == lot || Effect(lot, t, lot')) && t < |lot.pcs| && v < |lot.pcs| && v < |lot'.pcs|
    requires Joining(lot'.pcs[v], l) && (v == t ==> !WillUnpark(lot.pcs[t], l))
    ensures lot.pcs[t] != Searching(l)
  {
    if v != t {
      assert lot.pcs[v] == Accepting(l) by {
        assert lot' != lot ==> Unmoved(lot, lot', v);
      }
      assert lot.buckets[HashAddress(l)].owner == Some(v);
    }
  }

  lemma CalmKeepsReasons(s: System, t: nat, s': System, l: nat, v: nat)
    requires Calm(s, t, s', l) && Watched(s, l) && v < |s.pcs|
    ensures JoinsForReason(s', v, l)
  {
    assert JoinsForReason(s, v, l);
    if Joining(s'.lot.pcs[v], l) && !IsLocked(s'.words[l]) {
      assert v != t && s'.lot != s.lot ==> Unmoved(s.lot, s'.lot, v);
      NobodySearches(s.lot, t, s'.lot, l, v);
      RescuersStay(s, t, s', l);
    }
  }

  lemma JoinKeepsWaiters(s: System, t: nat, s': System, l: nat)
    requires Calm(s, t, s', l) && Watched(s, l) && s.lot.pcs[t] == Accepting(l)
    ensures !Forgotten(s', l)
  {
    assert JoinsForReason(s, t, l);
    if !IsLocked(s.words[l]) {
      RescuersStay(s, t, s', l);
    }
  }

  /** Whoever a search takes out of the queue will try again. */
  lemma SearchKeepsWaiters(s: System, t: nat, s': System, l: nat)
    requires Calm(s, t, s', l) && QueueInv(s.lot) && s.lot.pcs[t] == Searching(l) && Parking.Step(s.lot, t, s'.lot)
    requires Effect(s.lot, t, s'.lot)
    ensures !Forgotten(s', l)
  {
    if HasKey(s.lot.QueueOf(l), l) {
      var u := Found(s.lot, t);
      FoundWaits(s.lot, t);
      UnlinkQueued(s.lot, t, s'.lot, u);
      assert Unmoved(s.lot, s'.lot, u);
      assert Rescues(s', u, l);
    }
  }

  lemma CalmKeepsWaiters(s: System, t: nat, s': System, l: nat)
    requires Calm(s, t, s', l) && Watched(s, l)
    requires s'.lot != s.lot ==> s.lot.pcs[t] != Accepting(l) && s.lot.pcs[t] != Searching(l)
    ensures !Forgotten(s', l)
  {
    if HasRescuer(s, l) {
      RescuersStay(s, t, s', l);
    }
  }

  lemma CalmKeepsWatch(s: System, t: nat, s': System, l: nat)
    requires Calm(s, t, s', l) && Watched(s, l) && QueueInv(s.lot)
    requires s.lot.pcs[t] == Searching(l) && s'.lot != s.lot ==> Parking.Step(s.lot, t, s'.lot)
    ensures Watched(s', l)
  {
    forall v | 0 <= v < |s'.pcs|
      ensures JoinsForReason(s', v, l)
    {
      CalmKeepsReasons(s, t, s', l, v);
    }
    if s'.lot != s.lot && s.lot.pcs[t] == Accepting(l) {
      JoinKeepsWaiters(s, t, s', l);
    } else if s'.lot != s.lot && s.lot.pcs[t] == Searching(l) {
      SearchKeepsWaiters(s, t, s', l);
    } else {
      CalmKeepsWaiters(s, t, s', l);
    }
  }

  /** What a step of the code is, seen from the waiters of lock l. */
  ghost predicate Gentle(s: System, t: nat, s': System, l: nat)
    requires Sized(s) && Sized(s')
  {
    && OnlyMoves(s, t, s') && l in s.words
    && (s'.lot == s.lot || AnyStep(s.lot, t, s'.lot))
    && (IsLocked(s.words[l]) ==> IsLocked(s'.words[l]))
    && Faithful(s, t, s', l)
  }

  /** The locks call park and unpark_one only. */
  lemma NobodyGathers(s: System, t: nat)
    requires TaggedLockPtr.Inv(s) && t < |s.pcs|
    ensures Sized(s) && Parking.Inv(s.lot) && QueueInv(s.lot) && OwnerInv(s.lot) && !s.lot.pcs[t].Gathering?
  {
    assert Agrees(s, t);
  }

  lemma GentleIsCalm(s: System, t: nat, s': System, l: nat)
    requires TaggedLockPtr.Inv(s) && Sized(s') && Gentle(s, t, s', l)
    ensures Calm(s, t, s', l) && QueueInv(s.lot)
  {
    hide TaggedLockPtr.Inv, Parking.Inv, QueueInv, OwnerInv, AnyStep, Effect, Faithful, Joining, IsLocked, KeyMove;
    NobodyGathers(s, t);
    if s'.lot != s.lot {
      StepHasEffect(s.lot, t, s'.lot);
      EffectIsSized(s.lot, t, s'.lot);
      KeyMoves(s.lot, t, s'.lot, l);
    }
  }

  lemma EffectIsSized(lot: Parking.State, t: nat, lot': Parking.State)
    requires Effect(lot, t, lot')
    ensures lot.Sized() && lot'.Sized() && t < |lot.pcs| == |lot'.pcs|
  {
  }

  lemma LoadsAreGentle(s: System, t: nat, lock: nat, s': System, l: nat)
    requires Sized(s) && Sized(s') && t < |s.pcs| && Agrees(s, t) && l in s.words && s' != s
    requires LoadToLock(s, t, lock, s') || LoadToUnlock(s, t, lock, s')
    ensures Gentle(s, t, s', l)
    ensures !s.lot.pcs[t].Searching?
  {
  }

  lemma ExchangesAreGentle(s: System, t: nat, s': System, l: nat)
    requires Sized(s) && Sized(s') && t < |s.pcs| && Agrees(s, t) && l in s.words
    requires || ExchangeToLock(s, t, s')
             || (ExchangeToUnlock(s, t, s') && (l != s.pcs[t].lock || s'.pcs[t].Unlocking?))
    ensures Gentle(s, t, s', l)
    ensures !s.lot.pcs[t].Searching?
  {
  }

  lemma CallbacksAreGentle(s: System, t: nat, s': System, l: nat)
    requires Sized(s) && Sized(s') && t < |s.pcs| && Agrees(s, t) && l in s.words
    requires Validate(s, t, s') || (Mark(s, t, s') && !MarksTooLate(s, t, s', l)) || Callback(s, t, s')
    ensures Gentle(s, t, s', l)
    ensures !s.lot.pcs[t].Searching?
  {
    if Validate(s, t, s') {
    } else if Mark(s, t, s') {
    } else {
    }
  }

  lemma ReplacingIsGentle(s: System, t: nat, s': System, l: nat)
    requires Sized(s) && Sized(s') && t < |s.pcs| && Agrees(s, t) && l in s.words
    requires CompareExchange(s, t, s') ||
             exists lock, expected, desired :: CallExchange(s, t, lock, expected, desired, s')
    ensures Gentle(s, t, s', l)
    ensures !s.lot.pcs[t].Searching?
  {
    if s.pcs[t].Swapping? {
      UntaggedHasNoFlags(s.pcs[t].expected);
    }
  }

  lemma LotStepIsGentle(s: System, t: nat, s': System, l: nat)
    requires Sized(s) && Sized(s') && OnlyMoves(s, t, s') && Agrees(s, t) && l in s.words
    requires AnyStep(s.lot, t, s'.lot) && Effect(s.lot, t, s'.lot) && s'.words == s.words
    requires !s.lot.pcs[t].Deciding? && !s.lot.pcs[t].Unlinked?
    requires s.pcs[t].Sleeping? || s.pcs[t].Unparking?
    requires s'.pcs[t] == if !s'.lot.pcs[t].Out? then s.pcs[t]
                         else if s.pcs[t].Sleeping? then Contended(s.pcs[t].lock) else Idle
    ensures Gentle(s, t, s', l)
  {
    assert s'.lot.pcs[t] != s.lot.pcs[t];
    hide Parking.Step, Parking.Enter, Parking.Decide, Parking.Answer;
  }

  lemma AcceptorOwns(lot: Parking.State, l: nat, v: nat)
    requires OwnerInv(lot) && v < |lot.pcs| && lot.pcs[v] == Accepting(l)
    ensures OwnerPC(lot, l) == Accepting(l)
  {
    assert Parking.Holds(lot.pcs[v]);
  }

  /** Without the waiters flag, nobody is queued or about to be. */
  lemma NoFlagNobody(s: System, l: nat)
    requires TaggedLockPtr.Inv(s) && l in s.words && !HasWaiters(s.words[l])
    ensures !HasKey(s.lot.QueueOf(l), l)
    ensures forall v :: 0 <= v < |s.lot.pcs| ==> s.lot.pcs[v] != Accepting(l)
  {
    forall v | 0 <= v < |s.lot.pcs| && s.lot.pcs[v] == Accepting(l)
      ensures OwnerPC(s.lot, l) == Accepting(l)
    {
      AcceptorOwns(s.lot, l, v);
    }
    assert FlagInv(s, l);
  }

  /** The unlocker is on its way to the queue. */
  lemma UnlockerIsWatch(s: System, t: nat, l: nat)
    requires Sized(s) && t < |s.pcs| && l in s.words && s.lot.pcs[t] == Calling(l)
    ensures Watched(s, l)
  {
    assert Rescues(s, t, l);
  }

  /** The release of the lock itself. */
  lemma ReleaseKeepsWatch(s: System, t: nat, s': System, l: nat)
    requires TaggedLockPtr.Inv(s) && Sized(s') && t < |s.pcs| && l in s.words
    requires ExchangeToUnlock(s, t, s') && l == s.pcs[t].lock && !s'.pcs[t].Unlocking?
    ensures l in s'.words && Watched(s', l)
  {
    assert Agrees(s, t);
    if s'.pcs[t].Idle? {
      NoFlagNobody(s, l);
    } else {
      UnlockerIsWatch(s', t, l);
    }
  }

  lemma StepIsGentle(s: System, t: nat, s': System, l: nat)
    requires TaggedLockPtr.Inv(s) && Sized(s') && t < |s.pcs| && l in s.words && StepOf(s, t, s') && s' != s
    requires !(ExchangeToUnlock(s, t, s') && l == s.pcs[t].lock && !s'.pcs[t].Unlocking?) && !MarksTooLate(s, t, s', l)
    ensures Gentle(s, t, s', l)
    ensures s.lot.pcs[t].Searching? ==> Parking.Step(s.lot, t, s'.lot)
  {
    assert Agrees(s, t);
    if lock :| LoadToLock(s, t, lock, s') || LoadToUnlock(s, t, lock, s') {
      LoadsAreGentle(s, t, lock, s', l);
    } else if ExchangeToLock(s, t, s') || ExchangeToUnlock(s, t, s') {
      ExchangesAreGentle(s, t, s', l);
    } else if LotStep(s, t, s') {
      LotStepMoves(s, t, s');
      LotStepIsGentle(s, t, s', l);
    } else if Validate(s, t, s') || Mark(s, t, s') || Callback(s, t, s') {
      CallbacksAreGentle(s, t, s', l);
    } else {
      ReplacingIsGentle(s, t, s', l);
    }
  }

  lemma StepKeepsWatch(s: System, t: nat, s': System, l: nat)
    requires TaggedLockPtr.Inv(s) && Sized(s') && t < |s.pcs| && StepOf(s, t, s')
    requires l in s.words && Watched(s, l) && !TooLate(s, s', l)
    ensures l in s'.words && Watched(s', l)
  {
    if s' == s {
    } else if ExchangeToUnlock(s, t, s') && l == s.pcs[t].lock && !s'.pcs[t].Unlocking? {
      ReleaseKeepsWatch(s, t, s', l);
    } else {
      StepIsGentle(s, t, s', l);
      GentleIsCalm(s, t, s', l);
      CalmKeepsWatch(s, t, s', l);
    }
  }

  /** The first states of a run, between which no validation of the lock marks too late. */
  ghost predicate NoneTooLate(run: seq<System>, i: nat, l: nat) {
    i < |run| && forall j :: 0 <= j < i ==> !TooLate(run[j], run[j + 1], l)
  }

  lemma {:induction false} RunsKeepWatch(run: seq<System>, i: nat, l: nat)
    requires IsRun(run, InitSystem, Next) && NoneTooLate(run, i, l) && l in run[0].words
    ensures TaggedLockPtr.Inv(run[i]) && l in run[i].words && Watched(run[i], l)
  {
    TaggedLockPtr.RunsKeepInv(run, i);
    if i > 0 {
      RunsKeepWatch(run, i - 1, l);
      assert Next(run[i - 1], run[i - 1 + 1]) && !TooLate(run[i - 1], run[i - 1 + 1], l);
      NextKeepsWatch(run[i - 1], run[i], l);
    }
  }

  lemma NextKeepsWatch(s: System, s': System, l: nat)
    requires TaggedLockPtr.Inv(s) && Sized(s') && Next(s, s')
    requires l in s.words && Watched(s, l) && !TooLate(s, s', l)
    ensures l in s'.words && Watched(s', l)
  {
    var t :| 0 <= t < |s.pcs| && StepOf(s, t, s');
    StepKeepsWatch(s, t, s', l);
  }

  /** As long as no validation marks too late, a waiter of a free lock is not
      forgotten: an unlocker has not yet searched the queue, or some thread will
      try the lock again. */
  lemma NotForgottenUnlessTooLate(run: seq<System>, i: nat, l: nat)
    requires IsRun(run, InitSystem, Next) && NoneTooLate(run, i, l) && l in run[0].words
    requires Sized(run[i]) && HasKey(run[i].lot.QueueOf(l), l)
    ensures l in run[i].words
    ensures IsLocked(run[i].words[l]) || exists u :: 0 <= u < |run[i].pcs| && Rescues(run[i], u, l)
  {
    RunsKeepWatch(run, i, l);
  }

  // The condition is exact.

  lemma LateThreadAlone(s: System, t: nat, s': System, l: nat)
    requires TaggedLockPtr.Inv(s) && Sized(s') && MarksTooLate(s, t, s', l) && TaggedLockPtr.Inv(s')
    ensures l in s'.words && s'.lot.pcs[t] == Accepting(l) && !IsLocked(s'.words[l]) && !HasRescuer(s', l)
  {
    assert Agrees(s, t) && Agrees(s', t);
    assert AnyStep(s.lot, t, s'.lot);
    StepHasEffect(s.lot, t, s'.lot);
    forall u | 0 <= u < |s'.pcs|
      ensures !Rescues(s', u, l)
    {
      assert !Rescues(s, u, l);
      LateStepRescuesNobody(s, t, s', l, u);
    }
  }

  lemma LateStepRescuesNobody(s: System, t: nat, s': System, l: nat, u: nat)
    requires Parking.Inv(s.lot) && Sized(s') && MarksTooLate(s, t, s', l) && u < |s.pcs| && !Rescues(s, u, l)
    requires s.lot.pcs[t] == Deciding(l)
    ensures u < |s'.pcs| && !Rescues(s', u, l)
  {
    PlainStep(s.lot, t, s'.lot);
  }

  /** The step by which the late thread joins the queue. */
  function Joined(s: System, t: nat, l: nat): System
    requires Sized(s) && t < |s.pcs|
  {
    s.(lot := s.lot.Move(t, Enqueued(l)).SetQueue(l, s.lot.QueueOf(l) + [Waiter(l, t)])
               .(flags := s.lot.flags[t := 0], joined := s.lot.joined[t := s.lot.joined[t] + 1]))
  }

  lemma JoinedIsNext(s: System, t: nat, l: nat)
    requires Sized(s) && t < |s.pcs| && Agrees(s, t) && s.lot.pcs[t] == Accepting(l)
    ensures Next(s, Joined(s, t, l))
  {
    assert LotStep(s, t, Joined(s, t, l));
    assert StepOf(s, t, Joined(s, t, l));
  }

  lemma JoinedIsForgotten(s: System, t: nat, l: nat)
    requires Sized(s) && t < |s.pcs| && Agrees(s, t) && s.lot.pcs[t] == Accepting(l)
    requires !IsLocked(s.words[l]) && !HasRescuer(s, l)
    ensures Forgotten(Joined(s, t, l), l)
  {
    var s' := Joined(s, t, l);
    HasKeyAppend(s.lot.QueueOf(l), Waiter(l, t), l);
    forall u | 0 <= u < |s'.pcs|
      ensures !Rescues(s', u, l)
    {
      OccursAppend(s.lot.QueueOf(l), Waiter(l, t), u);
      assert !Rescues(s, u, l);
    }
  }

  /** A late mark itself queues nobody. */
  lemma LateMarkQueuesNobody(s: System, s': System, l: nat)
    requires TaggedLockPtr.Inv(s) && Sized(s') && l in s.words && Watched(s, l) && TooLate(s, s', l)
    ensures !Forgotten(s', l)
  {
    var t :| 0 <= t < |s.pcs| && MarksTooLate(s, t, s', l);
    assert Agrees(s, t) && AnyStep(s.lot, t, s'.lot);
    StepHasEffect(s.lot, t, s'.lot);
    KeyMoves(s.lot, t, s'.lot, l);
  }

  /** Up to the first late mark no waiter is forgotten, and the next step can
      forget one exactly if a mark is late. */
  lemma LateMarkIsExact(run: seq<System>, i: nat, l: nat)
    requires IsRun(run, InitSystem, Next) && i < |run| - 1 && NoneTooLate(run, i, l) && l in run[0].words
    ensures TooLate(run[i], run[i + 1], l) <==> exists s :: Next(run[i + 1], s) && Forgotten(s, l)
  {
    hide Next, Forgotten, TaggedLockPtr.Inv, TooLate;
    RunsKeepWatch(run, i, l);
    TaggedLockPtr.RunsKeepInv(run, i + 1);
    assert Next(run[i], run[i + 1]);
    if TooLate(run[i], run[i + 1], l) {
      var s := ForgetsNext(run[i], run[i + 1], l);
    } else {
      NextKeepsWatch(run[i], run[i + 1], l);
      forall s | Next(run[i + 1], s)
        ensures !Forgotten(s, l)
      {
        RememberedNext(run[i + 1], s, l);
      }
    }
  }

  lemma ForgetsNext(s: System, s': System, l: nat) returns (s'': System)
    requires TaggedLockPtr.Inv(s) && TaggedLockPtr.Inv(s') && TooLate(s, s', l)
    ensures Next(s', s'') && Forgotten(s'', l)
  {
    var t :| 0 <= t < |s.pcs| && MarksTooLate(s, t, s', l);
    LateThreadAlone(s, t, s', l);
    assert Agrees(s', t);
    JoinedIsNext(s', t, l);
    JoinedIsForgotten(s', t, l);
    s'' := Joined(s', t, l);
  }

  lemma RememberedNext(s: System, s': System, l: nat)
    requires TaggedLockPtr.Inv(s) && Next(s, s') && l in s.words && Watched(s, l)
    ensures !Forgotten(s', l)
  {
    if Sized(s') {
      if TooLate(s, s', l) {
        LateMarkQueuesNobody(s, s', l);
      } else {
        NextKeepsWatch(s, s', l);
      }
    }
  }

  /** With no late mark, no lock held and every thread outside or asleep, nobody sleeps. */
  lemma NobodySleepsUnlessTooLate(run: seq<System>, i: nat, u: nat)
    requires IsRun(run, InitSystem, Next) && i < |run| && u < |run[i].pcs| && Sized(run[i])
    requires forall l :: l in run[i].words ==> NoneTooLate(run, i, l) && !IsLocked(run[i].words[l])
    requires forall v :: 0 <= v < |run[i].pcs| ==> run[i].pcs[v].Idle? || run[i].lot.pcs[v].Asleep?
    ensures run[i].pcs[u].Idle?
  {
    TaggedLockPtr.RunsKeepInv(run, i);
    var s := run[i];
    assert Agrees(s, u);
    if s.lot.pcs[u].Asleep? {
      WordsStay(run, i, s.pcs[u].lock);
      RunsKeepWatch(run, i, s.pcs[u].lock);
      forall v | 0 <= v < |s.lot.pcs|
        ensures s.lot.pcs[v].Out? || s.lot.pcs[v].Asleep?
      {
        assert Agrees(s, v);
      }
      NobodyComing(s.lot);
      NobodyToRelyOn(s, s.pcs[u].lock);
      assert WakeOk(s.lot, u);
      QueuedHasKey(s.lot, u);
    }
  }

  lemma {:induction false} WordsStay(run: seq<System>, i: nat, l: nat)
    requires IsRun(run, InitSystem, Next) && i < |run| && l in run[i].words
    ensures l in run[0].words
  {
    if i > 0 {
      assert Next(run[i - 1], run[i - 1 + 1]);
      NextKeepsKeys(run[i - 1], run[i]);
      WordsStay(run, i - 1, l);
    }
  }

  lemma NextKeepsKeys(s: System, s': System)
    requires Next(s, s')
    ensures s'.words.Keys == s.words.Keys
  {
    var t :| 0 <= t < |s.pcs| && StepOf(s, t, s');
    hide IsLocked, HasWaiters, Untagged, SetLocked, ClearLocked, SetWaiters, Answered;
    hide Parking.Step, Parking.Enter, Parking.Decide, Parking.Answer;
    if lock :| LoadToLock(s, t, lock, s') {
    } else if lock :| LoadToUnlock(s, t, lock, s') {
    } else if lock, expected, desired :| CallExchange(s, t, lock, expected, desired, s') {
    } else {
      PutKeepsKeys(s, t, s');
    }
  }

  lemma PutKeepsKeys(s: System, t: nat, s': System)
    requires Sized(s) && t < |s.pcs|
    requires || ExchangeToLock(s, t, s') || ExchangeToUnlock(s, t, s') || LotStep(s, t, s') || Validate(s, t, s')
             || Mark(s, t, s') || Callback(s, t, s') || CompareExchange(s, t, s')
    ensures s'.words.Keys == s.words.Keys
  {
    hide IsLocked, HasWaiters, Untagged, SetLocked, ClearLocked, SetWaiters, Answered;
    hide Parking.Step, Parking.Enter, Parking.Decide, Parking.Answer;
    if s'.words != s.words {
      assert s'.words == s.words[s.pcs[t].lock := s'.words[s.pcs[t].lock]];
    }
  }

  /** With no wake coming, whoever sleeps is queued, and so nobody to rely on. */
  lemma NobodyToRelyOn(s: System, l: nat)
    requires TaggedLockPtr.Inv(s)
    requires forall v :: 0 <= v < |s.pcs| ==> s.pcs[v].Idle? || s.lot.pcs[v].Asleep?
    requires forall v :: !HasTargeter(s.lot, v) && !HasWaker(s.lot, v)
    ensures forall v :: 0 <= v < |s.pcs| ==> !Rescues(s, v, l)
  {
    forall v | 0 <= v < |s.pcs|
      ensures !Rescues(s, v, l)
    {
      assert Agrees(s, v) && WakeOk(s.lot, v);
    }
  }

  // A late mark happens.

  /** Two threads and one lock, at address 8: the second thread waits in bucket 1. */
  function Scene(word: nat, held: set<nat>, p: TaggedLockPtr.PC, p': TaggedLockPtr.PC, q': Parking.PC,
                 owner: Option<nat>, queue: seq<Waiter>, joined: nat): System
  {
    System(Parking.State(seq(NUM_BUCKETS, b => if b == 1 then Bucket(owner, queue) else Bucket(None, [])),
                         [Out, q'], [0, 0], [0, joined], [0, 0]),
           map[8 := word], [held, {}], [p, p'])
  }

  function Shot(k: nat): System {
    match k
    case 0 => Scene(0, {}, Idle, Idle, Out, None, [], 0)
    case 1 => Scene(0, {}, Locking(8, 0, false), Idle, Out, None, [], 0)
    case 2 => Scene(1, {8}, Idle, Idle, Out, None, [], 0)
    case 3 => Scene(1, {8}, Idle, Contended(8), Out, None, [], 0)
    case 4 => Scene(1, {8}, Idle, Sleeping(8), Arriving(8), None, [], 0)
    case 5 => Scene(1, {8}, Idle, Sleeping(8), Deciding(8), Some(1), [], 0)
    case 6 => Scene(1, {8}, Idle, Marking(8), Deciding(8), Some(1), [], 0)
    case 7 => Scene(1, {8}, Freeing(8, 1), Marking(8), Deciding(8), Some(1), [], 0)
    case 8 => Scene(0, {}, Idle, Marking(8), Deciding(8), Some(1), [], 0)
    case 9 => Scene(2, {}, Idle, Sleeping(8), Accepting(8), Some(1), [], 0)
    case 10 => Scene(2, {}, Idle, Sleeping(8), Enqueued(8), Some(1), [Waiter(8, 1)], 1)
    case 11 => Scene(2, {}, Idle, Sleeping(8), Parked(8), None, [Waiter(8, 1)], 1)
    case 12 => Scene(2, {}, Idle, Sleeping(8), Blocking(8), None, [Waiter(8, 1)], 1)
    case _ => Scene(2, {}, Idle, Sleeping(8), Asleep(8), None, [Waiter(8, 1)], 1)
  }

  lemma TakesLock()
    ensures Next(Shot(0), Shot(1)) && Next(Shot(1), Shot(2))
  {
    assert LoadToLock(Shot(0), 0, 8, Shot(1));
    assert StepOf(Shot(0), 0, Shot(1));
    assert map[8 := 0][8 := 1] == map[8 := 1];
    assert {} + {8} == {8};
    assert ExchangeToLock(Shot(1), 0, Shot(2));
    assert StepOf(Shot(1), 0, Shot(2));
  }

  lemma Contends()
    ensures Next(Shot(2), Shot(3)) && Next(Shot(3), Shot(4))
  {
    assert LoadToLock(Shot(2), 1, 8, Shot(3));
    assert StepOf(Shot(2), 1, Shot(3));
    assert LoadToLock(Shot(3), 1, 8, Shot(4));
    assert StepOf(Shot(3), 1, Shot(4));
  }

  lemma TakesBucket()
    ensures Next(Shot(4), Shot(5))
  {
    assert Shot(5).lot.buckets == Shot(4).lot.Own(8, Some(1)).buckets;
    assert LotStep(Shot(4), 1, Shot(5));
    assert StepOf(Shot(4), 1, Shot(5));
  }

  lemma SeesLocked()
    ensures Next(Shot(5), Shot(6))
  {
    assert Validate(Shot(5), 1, Shot(6));
    assert StepOf(Shot(5), 1, Shot(6));
  }

  lemma Unlocks()
    ensures Next(Shot(6), Shot(7)) && Next(Shot(7), Shot(8))
  {
    assert LoadToUnlock(Shot(6), 0, 8, Shot(7));
    assert StepOf(Shot(6), 0, Shot(7));
    assert {8} - {8} == {};
    assert map[8 := 1][8 := 0] == map[8 := 0];
    assert ExchangeToUnlock(Shot(7), 0, Shot(8));
    assert StepOf(Shot(7), 0, Shot(8));
  }

  lemma Marks()
    ensures Mark(Shot(8), 1, Shot(9)) && Next(Shot(8), Shot(9))
  {
    assert map[8 := 0][8 := 2] == map[8 := 2];
    assert Mark(Shot(8), 1, Shot(9));
    assert StepOf(Shot(8), 1, Shot(9));
  }

  lemma NobodyIsComing()
    ensures !HasRescuer(Shot(8), 8)
    ensures Sized(Shot(8)) && |Shot(8).pcs| == 2 && Shot(8).pcs[1] == Marking(8)
    ensures 8 in Shot(8).words && !IsLocked(Shot(8).words[8])
  {
    var s := Shot(8);
    forall u | 0 <= u < |s.pcs|
      ensures !Rescues(s, u, 8)
    {
    }
  }

  lemma MarksLate()
    ensures TooLate(Shot(8), Shot(9), 8)
  {
    hide Mark, HasRescuer, Sized, Shot, Next;
    Marks();
    NobodyIsComing();
    assert MarksTooLate(Shot(8), 1, Shot(9), 8);
  }

  lemma Joins()
    ensures Next(Shot(9), Shot(10))
  {
    assert [] + [Waiter(8, 1)] == [Waiter(8, 1)];
    assert Shot(10).lot.buckets == Shot(9).lot.SetQueue(8, [Waiter(8, 1)]).buckets;
    assert LotStep(Shot(9), 1, Shot(10));
    assert StepOf(Shot(9), 1, Shot(10));
  }

  lemma LetsGo()
    ensures Next(Shot(10), Shot(11))
  {
    assert Shot(11).lot.buckets == Shot(10).lot.Own(8, None).buckets;
    assert LotStep(Shot(10), 1, Shot(11));
    assert StepOf(Shot(10), 1, Shot(11));
  }

  lemma SeesNoFlag()
    ensures Next(Shot(11), Shot(12))
  {
    assert LotStep(Shot(11), 1, Shot(12));
    assert StepOf(Shot(11), 1, Shot(12));
  }

  lemma FallsAsleep()
    ensures Next(Shot(12), Shot(13))
  {
    assert LotStep(Shot(12), 1, Shot(13));
    assert StepOf(Shot(12), 1, Shot(13));
  }

  function LostWakeup(): seq<System> {
    seq(14, k requires 0 <= k => Shot(k))
  }

  /** What is left at the end: one thread sleeps, queued for a lock that nobody
      holds, and the other is in no call. */
  ghost predicate Stranded(s: System) {
    && Sized(s) && |s.pcs| == 2 && 8 in s.words && !IsLocked(s.words[8])
    && s.held == [{}, {}]
    && s.pcs[0].Idle? && s.lot.pcs[0].Out?
    && s.lot.pcs[1] == Asleep(8) && s.lot.flags[1] == 0 && s.lot.QueueOf(8) == [Waiter(8, 1)]
  }

  lemma FirstAndLast()
    ensures InitSystem(Shot(0)) && Stranded(Shot(13))
  {
  }

  lemma ShotsFollow(k: nat)
    requires k < 13
    ensures Next(Shot(k), Shot(k + 1))
  {
    hide *;
    match k
    case 0 => TakesLock();
    case 1 => TakesLock();
    case 2 => Contends();
    case 3 => Contends();
    case 4 => TakesBucket();
    case 5 => SeesLocked();
    case 6 => Unlocks();
    case 7 => Unlocks();
    case 8 => Marks();
    case 9 => Joins();
    case 10 => LetsGo();
    case 11 => SeesNoFlag();
    case _ => FallsAsleep();
  }

  /** A run in which the validation of one thread marks too late, at whose end that
      thread sleeps, queued for a lock that nobody holds, and the other is in no call. */
  lemma LateMarkStrands()
    ensures IsRun(LostWakeup(), InitSystem, Next) && |LostWakeup()| == 14
    ensures TooLate(LostWakeup()[8], LostWakeup()[9], 8) && Stranded(LostWakeup()[13])
  {
    var r := LostWakeup();
    forall i | 0 <= i < |r| - 1
      ensures Next(r[i], r[i + 1])
    {
      ShotsFollow(i);
    }
    MarksLate();
    FirstAndLast();
  }
}
