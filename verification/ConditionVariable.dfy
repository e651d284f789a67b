/** The condition variable over the adaptive mutex: a waiter loads the sequence
    word under the mutex, releases the mutex and sleeps unless the word moved. */
module ConditionVariable {
  import opened Bits
  import opened Threads
  import Mutex

  /** Where a thread is in the condition variable's code; the mutex's system knows
      where it is in `lock` or `unlock`.  Next to the word that a waiter loaded
      stands the number of notifications until then. */
  datatype PC =
    | Outside                              // in no call of the condition variable
    | Owing                                // made the predicate true, before its signal or broadcast
    | Checking                             // in wait(pred), before evaluating the predicate
    | Loading                              // saw it false, before loading the word
    | Unlocking(seen: nat, born: nat)      // in mutex.unlock
    | Blocking(seen: nat, born: nat)       // before the futex wait
    | Asleep
    | Relocking                            // in mutex.lock
    | WakingOne                            // in signal, word incremented, before the futex wake
    | WakingAll                            // in broadcast, likewise

  /** The word, how often it was incremented, and the predicate that is waited for.
      The callers keep to one of two disciplines: they answer every change of the
      predicate with a broadcast, or, if `single`, at most one thread waits at a
      time and a signal will do as well. */
  datatype State = State(mutex: Mutex.State, word: nat, count: nat, pred: bool, pcs: seq<PC>, single: bool) {
    function Go(t: nat, p: PC): State
      requires t < |pcs|
    {
      this.(pcs := pcs[t := p])
    }
  }

  function Sleeps(p: PC): nat { if p.Asleep? then 1 else 0 }
  function Awaken(p: PC): PC { Relocking }

  /** Inside wait(pred). */
  predicate Waiting(p: PC) {
    p.Checking? || p.Loading? || p.Unlocking? || p.Blocking? || p.Asleep? || p.Relocking?
  }

  ghost predicate Init(s: State) {
    && Mutex.Init(s.mutex) && |s.pcs| == |s.mutex.pcs|
    && s.word == 0 && s.count == 0
    && forall t :: 0 <= t < |s.pcs| ==> s.pcs[t] == Outside
  }

  ghost predicate Sized(s: State) {
    |s.pcs| == |s.mutex.pcs| && s.mutex.word < TWO32
  }

  /** A step of `lock`, `try_lock` or `unlock`, which the code runs outside the
      condition variable and twice inside a wait. */
  ghost predicate MutexStep(s: State, t: nat, s': State)
    requires Sized(s) && t < |s.pcs|
  {
    && Mutex.Step(s.mutex, t, s'.mutex) && t < |s'.mutex.pcs|
    && (s.pcs[t].Outside? || s.pcs[t].Owing? || s.pcs[t].Unlocking? || s.pcs[t].Relocking?)
    && s' == s.Go(t, if s.pcs[t].Unlocking? && s'.mutex.pcs[t].Idle? then Blocking(s.pcs[t].seen, s.pcs[t].born)
                     else if s.pcs[t].Relocking? && s'.mutex.pcs[t].Holding? then Checking
                     else s.pcs[t]).(mutex := s'.mutex)
  }

  /** The predicate changes under the mutex only, and whoever makes it true has to
      notify before anything else on the condition variable. */
  ghost predicate SetPredicate(s: State, t: nat, value: bool, s': State)
    requires Sized(s) && t < |s.pcs|
  {
    && (s.pcs[t].Outside? || s.pcs[t].Owing?) && s.mutex.pcs[t].Holding?
    && s' == s.Go(t, if value && !s.pred then Owing else s.pcs[t]).(pred := value)
  }

  ghost predicate CallWait(s: State, t: nat, s': State)
    requires Sized(s) && t < |s.pcs|
  {
    && s.pcs[t].Outside? && s.mutex.pcs[t].Holding?
    && (s.single ==> forall u :: 0 <= u < |s.pcs| ==> !Waiting(s.pcs[u]))
    && s' == s.Go(t, Checking)
  }

  /** signal or broadcast increments the word. */
  ghost predicate Notify(s: State, t: nat, all: bool, s': State)
    requires Sized(s) && t < |s.pcs|
  {
    && (s.pcs[t].Outside? || (s.pcs[t].Owing? && (all || s.single)))
    && (s.mutex.pcs[t].Idle? || s.mutex.pcs[t].Holding?)
    && s' == s.Go(t, if all then WakingAll else WakingOne).(word := Add(s.word, 1, TWO32), count := s.count + 1)
  }

  /** One atomic operation inside the condition variable's own code. */
  ghost predicate OwnStep(s: State, t: nat, s': State)
    requires Sized(s) && t < |s.pcs|
  {
    match s.pcs[t]
    case Outside => false
    case Owing => false
    case Checking => s' == s.Go(t, if s.pred then Outside else Loading)
    case Loading => s' == s.Go(t, Unlocking(s.word, s.count))
    case Unlocking(_, _) => false
    case Blocking(seen, born) => s' == s.Go(t, if s.word == seen then Asleep else Relocking)
    case Asleep => s' == s.Go(t, Relocking)
    case Relocking => false
    case WakingOne =>
      s' == s.(pcs := s'.pcs) && FutexWake(s.pcs[t := Outside], s'.pcs, 1, Sleeps, Awaken)
    case WakingAll =>
      s' == s.(pcs := s'.pcs) && FutexWake(s.pcs[t := Outside], s'.pcs, MAX_FUTEX_WAKE, Sleeps, Awaken)
  }

  ghost predicate StepOf(s: State, t: nat, s': State)
    requires Sized(s) && t < |s.pcs|
  {
    || MutexStep(s, t, s')
    || (exists value :: SetPredicate(s, t, value, s'))
    || CallWait(s, t, s')
    || (exists all :: Notify(s, t, all, s'))
    || OwnStep(s, t, s')
  }

  ghost predicate Next(s: State, s': State) {
    Sized(s) && exists t :: 0 <= t < |s.pcs| && StepOf(s, t, s')
  }

  /** Fewer than 2^32 notifications fall between a waiter's load and its futex wait. */
  ghost predicate Fresh(s: State) {
    forall t :: 0 <= t < |s.pcs| && s.pcs[t].Blocking? ==> s.count < s.pcs[t].born + TWO32
  }

  // The invariant.

  /** The thread's place in the mutex agrees with its place in the wait. */
  predicate Agrees(p: PC, m: Mutex.PC) {
    match p
    case Checking => m.Holding?
    case Loading => m.Holding?
    case Unlocking(_, _) => m.Holding? || m.FastRelease? || m.SlowRelease? || m.Waking?
    case Blocking(_, _) => m.Idle?
    case Asleep => m.Idle?
    case Relocking => Mutex.Holds(m) == 0 && !m.Waking?
    case _ => true
  }

  ghost predicate SomebodyOwes(s: State) {
    exists u :: 0 <= u < |s.pcs| && s.pcs[u].Owing?
  }

  /** A notifier that has not finished its increment and its wake of everybody who
      can be waiting. */
  predicate Notifies(p: PC, single: bool) {
    p.Owing? || p.WakingAll? || (single && p.WakingOne?)
  }

  ghost predicate SomebodyNotifies(s: State) {
    exists u :: 0 <= u < |s.pcs| && Notifies(s.pcs[u], s.single)
  }

  ghost predicate OneWaits(pcs: seq<PC>) {
    forall t, u :: 0 <= t < |pcs| && 0 <= u < |pcs| && Waiting(pcs[t]) && Waiting(pcs[u]) ==> t == u
  }

  /** What a waiter can rely on. */
  ghost predicate WaitOk(s: State, p: PC, m: Mutex.PC) {
    match p
    case Loading => !s.pred
    case Unlocking(seen, born) =>
      && seen == born % TWO32 && born <= s.count
      && (Mutex.Holds(m) == 1 ==> !s.pred)
      && (s.pred ==> born < s.count || SomebodyOwes(s))
    case Blocking(seen, born) =>
      && seen == born % TWO32 && born <= s.count
      && (s.pred ==> born < s.count || SomebodyOwes(s))
    case Asleep => s.pred ==> SomebodyNotifies(s)
    case _ => true
  }

  ghost predicate ThreadOk(s: State, t: nat)
    requires Sized(s) && t < |s.pcs|
  {
    Agrees(s.pcs[t], s.mutex.pcs[t]) && WaitOk(s, s.pcs[t], s.mutex.pcs[t])
  }

  ghost predicate Inv(s: State) {
    && Mutex.Inv(s.mutex) && Sized(s)
    && s.word == s.count % TWO32
    && (s.single ==> OneWaits(s.pcs))
    && forall t :: 0 <= t < |s.pcs| ==> ThreadOk(s, t)
  }

  /** A mutex step of thread t moves another thread only out of the mutex's futex. */
  lemma MutexMoves(m: Mutex.State, t: nat, m': Mutex.State)
    requires Mutex.Inv(m) && t < |m.pcs| && Mutex.Step(m, t, m')
    ensures Mutex.Inv(m') && |m'.pcs| == |m.pcs|
    ensures forall u :: 0 <= u < |m.pcs| && u != t ==>
              m'.pcs[u] == m.pcs[u] || (m.pcs[u].Asleep? && m'.pcs[u].Registered?)
    ensures MutexFollows(m.pcs[t], m'.pcs[t])
  {
    Mutex.StepKeepsInv(m, t, m');
  }

  predicate MutexFollows(p: Mutex.PC, p': Mutex.PC) {
    match p
    case Holding => p'.FastRelease? || p'.SlowRelease?
    case FastRelease => p'.Idle? || p'.SlowRelease?
    case SlowRelease => p'.Waking?
    case Waking => p'.Idle?
    case _ => p'.Holding? || (Mutex.Holds(p') == 0 && !p'.Waking?)
  }

  lemma MutexStepKeepsInv(s: State, t: nat, s': State)
    requires Inv(s) && t < |s.pcs| && MutexStep(s, t, s')
    ensures Inv(s')
  {
    MutexMoves(s.mutex, t, s'.mutex);
    OwersStay(s, t, s');
    forall u | 0 <= u < |s'.pcs|
      ensures ThreadOk(s', u)
    {
      assert ThreadOk(s, u);
    }
  }

  /** Notifiers other than t stay notifiers; t does if its program point does. */
  lemma OwersStay(s: State, t: nat, s': State)
    requires t < |s.pcs| == |s'.pcs|
    requires s'.single == s.single
    requires forall u :: 0 <= u < |s.pcs| && u != t ==> s'.pcs[u] == s.pcs[u] || s.pcs[u].Asleep?
    ensures SomebodyOwes(s) && (s.pcs[t].Owing? ==> s'.pcs[t].Owing?) ==> SomebodyOwes(s')
    ensures SomebodyNotifies(s) && (Notifies(s.pcs[t], s.single) ==> Notifies(s'.pcs[t], s.single)) ==>
              SomebodyNotifies(s')
  {
    if SomebodyOwes(s) {
      var u :| 0 <= u < |s.pcs| && s.pcs[u].Owing?;
      assert u != t ==> s'.pcs[u].Owing?;
    }
    if SomebodyNotifies(s) {
      var u :| 0 <= u < |s.pcs| && Notifies(s.pcs[u], s.single);
      assert u != t ==> s'.pcs[u] == s.pcs[u];
      assert Notifies(s.pcs[t], s.single) && Notifies(s'.pcs[t], s.single) ==> SomebodyNotifies(s');
    }
  }

  /** While t holds the mutex, nobody else has it. */
  lemma OneHolds(m: Mutex.State, t: nat, u: nat)
    requires Mutex.Inv(m) && t < |m.pcs| && u < |m.pcs| && u != t && Mutex.Holds(m.pcs[t]) == 1
    ensures Mutex.Holds(m.pcs[u]) == 0
  {
    SumIncludes(m.pcs, t, Mutex.Holds);
  }

  lemma SetPredicateKeepsInv(s: State, t: nat, value: bool, s': State)
    requires Inv(s) && t < |s.pcs| && SetPredicate(s, t, value, s')
    ensures Inv(s')
  {
    OwersStay(s, t, s');
    forall u | 0 <= u < |s'.pcs|
      ensures ThreadOk(s', u)
    {
      assert ThreadOk(s, u);
      if u != t {
        OneHolds(s.mutex, t, u);
      }
      if value && !s.pred {
        assert s'.pcs[t].Owing?;
      }
    }
  }

  lemma CallWaitKeepsInv(s: State, t: nat, s': State)
    requires Inv(s) && t < |s.pcs| && CallWait(s, t, s')
    ensures Inv(s')
  {
    OwersStay(s, t, s');
    forall u | 0 <= u < |s'.pcs|
      ensures ThreadOk(s', u)
    {
      assert ThreadOk(s, u);
    }
  }

  lemma NotifyKeepsInv(s: State, t: nat, all: bool, s': State)
    requires Inv(s) && t < |s.pcs| && Notify(s, t, all, s')
    ensures Inv(s')
  {
    OwersStay(s, t, s');
    forall u | 0 <= u < |s'.pcs|
      ensures ThreadOk(s', u)
    {
      assert ThreadOk(s, u);
      assert s'.pcs[t].WakingAll? || s'.pcs[t].WakingOne?;
    }
  }

  lemma WaiterStepKeepsInv(s: State, t: nat, s': State)
    requires Inv(s) && Fresh(s) && t < |s.pcs| && OwnStep(s, t, s') && !s.pcs[t].WakingOne? && !s.pcs[t].WakingAll?
    ensures Inv(s')
  {
    OwersStay(s, t, s');
    forall u | 0 <= u < |s'.pcs|
      ensures ThreadOk(s', u)
    {
      assert ThreadOk(s, u) && ThreadOk(s, t);
      if s.pcs[t].Blocking? && s.word == s.pcs[t].seen {
        SameWordSameCount(s.pcs[t].born, s.count);
      }
    }
  }

  lemma SameWordSameCount(born: nat, count: nat)
    requires born <= count < born + TWO32 && born % TWO32 == count % TWO32
    ensures born == count
  {
  }

  lemma WakeKeepsInv(s: State, t: nat, s': State)
    requires Inv(s) && t < |s.pcs| && OwnStep(s, t, s') && (s.pcs[t].WakingOne? || s.pcs[t].WakingAll?)
    ensures Inv(s')
  {
    var mid := s.pcs[t := Outside];
    if s.pcs[t].WakingAll? {
      WakeAllLeavesNone(mid, s'.pcs, Sleeps, Awaken);
    } else if s.single {
      SumAtMostOne(mid, Sleeps);
      SumZero(s'.pcs, Sleeps);
    }
    OwersStay(s, t, s');
    forall u | 0 <= u < |s'.pcs|
      ensures ThreadOk(s', u)
    {
      assert ThreadOk(s, u);
      assert s'.pcs[u] == mid[u] || (mid[u].Asleep? && s'.pcs[u] == Relocking);
    }
  }

  lemma StepKeepsInv(s: State, s': State)
    requires Inv(s) && Fresh(s) && Next(s, s')
    ensures Inv(s')
  {
    var t :| 0 <= t < |s.pcs| && StepOf(s, t, s');
    if MutexStep(s, t, s') {
      MutexStepKeepsInv(s, t, s');
    } else if value :| SetPredicate(s, t, value, s') {
      SetPredicateKeepsInv(s, t, value, s');
    } else if CallWait(s, t, s') {
      CallWaitKeepsInv(s, t, s');
    } else if all :| Notify(s, t, all, s') {
      NotifyKeepsInv(s, t, all, s');
    } else if s.pcs[t].WakingOne? || s.pcs[t].WakingAll? {
      WakeKeepsInv(s, t, s');
    } else {
      WaiterStepKeepsInv(s, t, s');
    }
  }

  lemma {:induction false} RunsKeepInv(run: seq<State>, i: nat)
    requires IsRun(run, Init, Next) && i < |run|
    requires forall j :: 0 <= j < i ==> Fresh(run[j])
    ensures Inv(run[i])
  {
    if i == 0 {
      MutexInit(run[0].mutex);
    } else {
      RunsKeepInv(run, i - 1);
      assert Next(run[i - 1], run[i - 1 + 1]);
      StepKeepsInv(run[i - 1], run[i]);
    }
  }

  lemma MutexInit(m: Mutex.State)
    requires Mutex.Init(m)
    ensures Mutex.Inv(m)
  {
    Mutex.RunsKeepInv([m], 0);
  }

  /** No wakeup is lost: a thread asleep in wait(pred) means that the predicate is
      false, or that somebody who made it true has not finished its notification, or
      another broadcast is about to wake everybody, or a signal the only waiter. */
  lemma SleeperIsNotForgotten(run: seq<State>, i: nat, t: nat)
    requires IsRun(run, Init, Next) && i < |run| && t < |run[i].pcs| && run[i].pcs[t].Asleep?
    requires forall j :: 0 <= j < i ==> Fresh(run[j])
    ensures !run[i].pred || exists u :: 0 <= u < |run[i].pcs| && Notifies(run[i].pcs[u], run[i].single)
  {
    RunsKeepInv(run, i);
    assert ThreadOk(run[i], t);
  }

  /** Between its load of the word and its sleep, a waiter misses nothing: if the
      predicate has become true, either the futex wait will return at once, or the
      one who made it true has still to increment the word. */
  lemma WaiterMissesNothing(run: seq<State>, i: nat, t: nat)
    requires IsRun(run, Init, Next) && i < |run| && t < |run[i].pcs| && run[i].pcs[t].Blocking?
    requires forall j :: 0 <= j <= i ==> Fresh(run[j])
    ensures run[i].pred && run[i].word == run[i].pcs[t].seen ==>
              exists u :: 0 <= u < |run[i].pcs| && run[i].pcs[u].Owing?
  {
    RunsKeepInv(run, i);
    var s := run[i];
    assert ThreadOk(s, t) && Fresh(s);
    if s.word == s.pcs[t].seen {
      SameWordSameCount(s.pcs[t].born, s.count);
    }
  }

  /** A thread in wait(pred) evaluates the predicate, loads the word and leaves the
      wait with the mutex held, and then nobody else holds it. */
  lemma WaitersHoldTheMutex(run: seq<State>, i: nat, t: nat, u: nat)
    requires IsRun(run, Init, Next) && i < |run| && t < |run[i].pcs| && u < |run[i].pcs| && u != t && Sized(run[i])
    requires forall j :: 0 <= j < i ==> Fresh(run[j])
    requires run[i].pcs[t].Checking? || run[i].pcs[t].Loading?
    ensures run[i].mutex.pcs[t].Holding? && Mutex.Holds(run[i].mutex.pcs[u]) == 0
  {
    RunsKeepInv(run, i);
    assert ThreadOk(run[i], t);
    OneHolds(run[i].mutex, t, u);
  }

  // What a call does.

  /** A step of thread t. */
  ghost function By(t: nat): (State, State) -> bool {
    (s: State, s': State) => Sized(s) && t < |s.pcs| && StepOf(s, t, s')
  }

  lemma Advance(s: State, mid: State, t: nat, s': State)
    requires Reaches(By(t), s, mid) && Sized(mid) && t < |mid.pcs| && StepOf(mid, t, s')
    ensures Reaches(By(t), s, s')
  {
    hide StepOf;
    ReachesOneMore(By(t), s, mid, s');
  }

  /** Another thread's step does not finish t's wake. */
  lemma NotifierFinishes(s: State, s': State, t: nat)
    requires Next(s, s') && t < |s.pcs| && t < |s'.pcs|
    requires (s.pcs[t].WakingOne? || s.pcs[t].WakingAll?) && s'.pcs[t].Outside?
    ensures Sized(s) && OwnStep(s, t, s')
  {
    var u :| 0 <= u < |s.pcs| && StepOf(s, u, s');
    hide Mutex.Step;
  }

  /** In every run, the step that finishes a signal leaves one thread fewer asleep,
      if any slept; and the one that finishes a broadcast leaves none. */
  lemma NotifyWakes(run: seq<State>, i: nat, t: nat)
    requires IsRun(run, Init, Next) && i < |run| - 1 && t < |run[i].pcs| && t < |run[i + 1].pcs|
    requires |run[i].pcs| <= MAX_FUTEX_WAKE && run[i + 1].pcs[t].Outside?
    ensures run[i].pcs[t].WakingOne? ==>
              Sum(run[i + 1].pcs, Sleeps) == if Sum(run[i].pcs, Sleeps) > 0 then Sum(run[i].pcs, Sleeps) - 1 else 0
    ensures run[i].pcs[t].WakingAll? ==> Sum(run[i + 1].pcs, Sleeps) == 0
  {
    var s, s' := run[i], run[i + 1];
    assert Next(s, s');
    if s.pcs[t].WakingOne? || s.pcs[t].WakingAll? {
      NotifierFinishes(s, s', t);
      SumUpdate(s.pcs, t, Outside, Sleeps);
      SumAtMost(s.pcs[t := Outside], Sleeps);
    }
  }

  /** A lone signal increments the word and gets one sleeper out of the futex if
      there is any; a lone broadcast gets all of them out. */
  lemma NotifyAlone(s: State, t: nat, all: bool) returns (s': State)
    requires Sized(s) && t < |s.pcs| && s.pcs[t].Outside? && (s.mutex.pcs[t].Idle? || s.mutex.pcs[t].Holding?)
    ensures Reaches(By(t), s, s')
    ensures s' == s.(word := Add(s.word, 1, TWO32), count := s.count + 1, pcs := s'.pcs)
    ensures FutexWake(s.pcs, s'.pcs, if all then MAX_FUTEX_WAKE else 1, Sleeps, Awaken)
  {
    hide FutexWake, Mutex.Step;
    var waking := s.Go(t, if all then WakingAll else WakingOne).(word := Add(s.word, 1, TWO32), count := s.count + 1);
    assert Notify(s, t, all, waking);
    ReachesSelf(By(t), s);
    Advance(s, s, t, waking);
    assert waking.pcs[t := Outside] == s.pcs;
    var pcs := WakeExists(s.pcs, if all then MAX_FUTEX_WAKE else 1, Sleeps, Awaken);
    s' := waking.(pcs := pcs);
    assert OwnStep(waking, t, s');
    Advance(s, waking, t, s');
  }

  /** wait(pred) returns only with the predicate true and the mutex held. */
  lemma WaitReturnsOnTrue(run: seq<State>, i: nat, t: nat)
    requires IsRun(run, Init, Next) && i < |run| - 1 && t < |run[i].pcs| && t < |run[i + 1].pcs| && Sized(run[i])
    requires forall j :: 0 <= j < i ==> Fresh(run[j])
    requires Waiting(run[i].pcs[t]) && !Waiting(run[i + 1].pcs[t])
    ensures run[i].pred && run[i + 1].pred && run[i].mutex.pcs[t].Holding?
  {
    RunsKeepInv(run, i);
    var s, s' := run[i], run[i + 1];
    assert ThreadOk(s, t);
    assert Next(s, s');
    var u :| 0 <= u < |s.pcs| && StepOf(s, u, s');
    hide Mutex.Step;
  }

  /** In the futex of the condition variable or on the way back to the mutex. */
  predicate Returning(p: PC) {
    p.Asleep? || p.Relocking?
  }

  lemma {:induction false} RelocksAlone(s: State, mid: State, t: nat) returns (s': State)
    requires Reaches(By(t), s, mid) && Sized(mid) && Mutex.Inv(mid.mutex) && t < |mid.pcs| && mid.pcs[t].Relocking?
    requires Mutex.IsFree(mid.mutex) && Mutex.WantsLock(mid.mutex.pcs[t])
    ensures Reaches(By(t), s, s') && Sized(s')
    ensures s' == mid.Go(t, Checking).(mutex := s'.mutex)
    ensures s'.mutex.pcs == mid.mutex.pcs[t := Mutex.Holding]
    decreases Mutex.Distance(mid.mutex, t)
  {
    hide Mutex.Inv, Mutex.Step, Mutex.TowardsLock, Mutex.Distance, Mutex.IsFree, Mutex.WantsLock;
    Mutex.InvHas(mid.mutex, t);
    Mutex.TowardsLockIsStep(mid.mutex, t);
    Mutex.TowardsLockNears(mid.mutex, t);
    var m := Mutex.TowardsLock(mid.mutex, t);
    Mutex.StepKeepsInv(mid.mutex, t, m);
    Mutex.InvHas(m, t);
    var next := mid.Go(t, if m.pcs[t].Holding? then Checking else Relocking).(mutex := m);
    assert mid.pcs[t := mid.pcs[t]] == mid.pcs;
    assert MutexStep(mid, t, next);
    Advance(s, mid, t, next);
    if m.pcs[t].Holding? {
      s' := next;
    } else {
      s' := RelocksAlone(s, next, t);
    }
  }

  /** With the predicate true and the mutex free, a thread in the futex or on its
      way back to the mutex returns from wait(pred) by its own steps alone. */
  lemma WaiterReturnsAlone(run: seq<State>, i: nat, t: nat) returns (s': State)
    requires IsRun(run, Init, Next) && i < |run| && t < |run[i].pcs| && Returning(run[i].pcs[t])
    requires forall j :: 0 <= j < i ==> Fresh(run[j])
    requires run[i].pred && Mutex.IsFree(run[i].mutex)
    ensures Sized(run[i]) && Reaches(By(t), run[i], s')
    ensures s' == run[i].Go(t, Outside).(mutex := s'.mutex)
    ensures s'.mutex.pcs == run[i].mutex.pcs[t := Mutex.Holding]
  {
    RunsKeepInv(run, i);
    var s := run[i];
    assert ThreadOk(s, t);
    hide Mutex.Inv, Mutex.Step, Mutex.Distance;
    ReachesSelf(By(t), s);
    var relocking := s.Go(t, Relocking);
    if s.pcs[t].Asleep? {
      assert OwnStep(s, t, relocking);
      Advance(s, s, t, relocking);
    } else {
      assert relocking == s;
    }
    var checking := RelocksAlone(s, relocking, t);
    s' := checking.Go(t, Outside);
    assert OwnStep(checking, t, s');
    Advance(s, checking, t, s');
  }

  // Going to sleep.

  /** The waiter when its unlock has led to another state of the mutex. */
  function Unlocked(s: State, t: nat, m: Mutex.State): State
    requires t < |s.pcs| && t < |m.pcs| && s.pcs[t].Unlocking?
  {
    s.Go(t, if m.pcs[t].Idle? then Blocking(s.pcs[t].seen, s.pcs[t].born) else s.pcs[t]).(mutex := m)
  }

  lemma {:induction false} UnlockLifts(s: State, t: nat, path: seq<Mutex.State>)
    requires Sized(s) && Mutex.Inv(s.mutex) && t < |s.pcs| && s.pcs[t].Unlocking? && !s.mutex.pcs[t].Idle?
    requires IsPath(path, Mutex.UnlockBy(t)) && path[0] == s.mutex
    ensures Mutex.Inv(path[|path| - 1]) && |path[|path| - 1].pcs| == |s.pcs| && path[|path| - 1].word < TWO32
    ensures Reaches(By(t), s, Unlocked(s, t, path[|path| - 1]))
  {
    hide Mutex.Inv, Mutex.Step;
    var n := |path| - 1;
    if n == 0 {
      assert s.pcs[t := s.pcs[t]] == s.pcs;
      ReachesSelf(By(t), s);
    } else {
      UnlockLifts(s, t, path[..n]);
      assert Mutex.UnlockBy(t)(path[n - 1], path[n - 1 + 1]);
      UnlockStepLifts(s, t, path[n - 1], path[n]);
    }
  }

  lemma UnlockStepLifts(s: State, t: nat, m: Mutex.State, m': Mutex.State)
    requires Sized(s) && t < |s.pcs| == |m.pcs| && s.pcs[t].Unlocking?
    requires Mutex.Inv(m) && Mutex.UnlockBy(t)(m, m') && Reaches(By(t), s, Unlocked(s, t, m))
    ensures Mutex.Inv(m') && |m'.pcs| == |s.pcs| && m'.word < TWO32
    ensures Reaches(By(t), s, Unlocked(s, t, m'))
  {
    hide Mutex.Inv, Mutex.Step, MutexFollows;
    MutexMoves(m, t, m');
    Mutex.InvHas(m', t);
    var mid := Unlocked(s, t, m);
    assert mid.pcs == s.pcs;
    assert MutexStep(mid, t, Unlocked(s, t, m'));
    Advance(s, mid, t, Unlocked(s, t, m'));
  }

  /** wait(pred) with the predicate false releases the mutex and sleeps, if nobody
      moves meanwhile. */
  lemma WaitSleepsAlone(run: seq<State>, i: nat, t: nat) returns (s': State)
    requires IsRun(run, Init, Next) && i < |run| && t < |run[i].pcs| && run[i].pcs[t].Checking? && !run[i].pred
    requires forall j :: 0 <= j < i ==> Fresh(run[j])
    ensures Sized(run[i]) && Reaches(By(t), run[i], s')
    ensures s' == run[i].Go(t, Asleep).(mutex := s'.mutex) && s'.mutex.word == run[i].mutex.word - 1
    ensures FutexWake(run[i].mutex.pcs[t := Mutex.Idle], s'.mutex.pcs, 1, Mutex.Sleeps, Mutex.Awaken)
  {
    RunsKeepInv(run, i);
    CheckerHolds(run[i], t);
    s' := SleepsAlone(run[i], t);
  }

  lemma CheckerHolds(s: State, t: nat)
    requires Inv(s) && t < |s.pcs| && s.pcs[t].Checking?
    ensures Sized(s) && Mutex.Inv(s.mutex) && s.mutex.pcs[t].Holding?
  {
    assert ThreadOk(s, t);
  }

  lemma SleepsAlone(s: State, t: nat) returns (s': State)
    requires Sized(s) && Mutex.Inv(s.mutex) && t < |s.pcs| && s.mutex.pcs[t].Holding?
    requires s.pcs[t].Checking? && !s.pred
    ensures Reaches(By(t), s, s') && s' == s.Go(t, Asleep).(mutex := s'.mutex)
    ensures s'.mutex.word == s.mutex.word - 1
    ensures FutexWake(s.mutex.pcs[t := Mutex.Idle], s'.mutex.pcs, 1, Mutex.Sleeps, Mutex.Awaken)
  {
    hide Mutex.Inv, Mutex.Step, FutexWake, Mutex.UnlockBy;
    ReachesSelf(By(t), s);
    var loading := s.Go(t, Loading);
    assert OwnStep(s, t, loading);
    Advance(s, s, t, loading);
    var unlocking := s.Go(t, Unlocking(s.word, s.count));
    assert loading.pcs[t := unlocking.pcs[t]] == unlocking.pcs;
    assert OwnStep(loading, t, unlocking);
    Advance(s, loading, t, unlocking);
    var m := Mutex.UnlockAlone(s.mutex, t);
    var path :| IsPath(path, Mutex.UnlockBy(t)) && path[0] == s.mutex && path[|path| - 1] == m;
    UnlockLifts(unlocking, t, path);
    WokenIsIdle(s.mutex.pcs, m.pcs, t);
    var blocking := Unlocked(unlocking, t, m);
    ReachesTransitive(By(t), s, unlocking, blocking);
    s' := s.Go(t, Asleep).(mutex := m);
    assert blocking.pcs[t := Asleep] == s'.pcs;
    assert OwnStep(blocking, t, s');
    Advance(s, blocking, t, s');
  }

  lemma WokenIsIdle(before: seq<Mutex.PC>, after: seq<Mutex.PC>, t: nat)
    requires t < |before| && FutexWake(before[t := Mutex.Idle], after, 1, Mutex.Sleeps, Mutex.Awaken)
    ensures t < |after| && after[t].Idle?
  {
  }
}
