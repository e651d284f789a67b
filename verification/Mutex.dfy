/** The adaptive mutex: one lock bit and a waiter count packed in one word. */
module Mutex {
  import opened Bits
  import opened Threads

  const UNLOCKED: nat := 0x0000_0000
  const LOCKED_NO_WAITERS: nat := 0x0000_0001
  const LOCKED_FLAG: nat := 0x0000_0001
  const NOT_LOCKED_FLAG: nat := 0xffff_fffe
  const WAITER_INCREMENT: nat := 0x0000_0002
  const MAX_THREADS: nat := 0x7fff_ffff

  /** Where a thread is in `lock`, `try_lock` or `unlock`.  Each program point
      stands just before one atomic operation. */
  datatype PC =
    | Idle                       // outside, not holding
    | Spinning                   // lock_contended, before a spin attempt or the registration
    | Registered                 // counted as a waiter, before loading the word
    | Acquiring(seen: nat)       // saw the lock bit clear, before the exchange
    | Blocking(seen: nat)        // saw the lock bit set, before the futex wait
    | Asleep                     // in the futex
    | Holding                    // owns the mutex
    | FastRelease                // in unlock, saw exactly LOCKED_NO_WAITERS
    | SlowRelease                // in unlock, before clearing the lock bit
    | Waking                     // in unlock, lock bit cleared, before the futex wake

  datatype State = State(word: nat, pcs: seq<PC>) {
    function Move(t: nat, w: nat, p: PC): State
      requires t < |pcs|
    {
      State(w, pcs[t := p])
    }
  }

  function Holds(p: PC): nat { if p.Holding? || p.FastRelease? || p.SlowRelease? then 1 else 0 }
  function Waits(p: PC): nat { if p.Registered? || p.Acquiring? || p.Blocking? || p.Asleep? then 1 else 0 }
  function Sleeps(p: PC): nat { if p.Asleep? then 1 else 0 }
  /** A pending wake, or a waiter that is awake and will look at the word again. */
  function Rescues(p: PC): nat { if p.Waking? || (Waits(p) == 1 && !p.Asleep?) then 1 else 0 }
  function Awaken(p: PC): PC { Registered }

  function LockBit(w: nat): (r: nat)
    ensures r == w % 2
  {
    LowBit(w); And(w, LOCKED_FLAG)
  }

  /** The word a registered waiter installs: one waiter fewer, lock bit set. */
  function TakenByWaiter(w: nat): (r: nat)
    requires w < TWO32
    ensures w % 2 == 0 && w >= 2 ==> r == w - 1
  {
    LowBit(Sub(w, WAITER_INCREMENT, TWO32)); Or(Sub(w, WAITER_INCREMENT, TWO32), LOCKED_FLAG)
  }

  function LockBitCleared(w: nat): (r: nat)
    requires w < TWO32
    ensures r == w - w % 2
  {
    LowBitCleared(w);
    And(w, NOT_LOCKED_FLAG)
  }

  ghost predicate Init(s: State) {
    && s.word == UNLOCKED
    && |s.pcs| <= MAX_THREADS
    && forall i :: 0 <= i < |s.pcs| ==> s.pcs[i] == Idle
  }

  /** One atomic operation of thread t. */
  ghost predicate Step(s: State, t: nat, s': State)
    requires t < |s.pcs|
    requires s.word < TWO32
  {
    match s.pcs[t]
    case Idle =>
      if s.word == UNLOCKED then s' == s.Move(t, LOCKED_NO_WAITERS, Holding)
      else s' == s.Move(t, s.word, Spinning) || s' == s
    case Spinning =>
      || (if s.word == UNLOCKED then s' == s.Move(t, LOCKED_NO_WAITERS, Holding) else s' == s)
      || s' == s.Move(t, Add(s.word, WAITER_INCREMENT, TWO32), Registered)
    case Registered =>
      s' == s.Move(t, s.word, if LockBit(s.word) == 0 then Acquiring(s.word) else Blocking(s.word))
    case Acquiring(seen) =>
      if s.word == seen then s' == s.Move(t, TakenByWaiter(seen), Holding)
      else s' == s.Move(t, s.word, Registered)
    case Blocking(seen) =>
      s' == s.Move(t, s.word, if s.word == seen then Asleep else Registered)
    case Asleep =>
      s' == s.Move(t, s.word, Registered)
    case Holding =>
      s' == s.Move(t, s.word, if s.word == LOCKED_NO_WAITERS then FastRelease else SlowRelease)
    case FastRelease =>
      if s.word == LOCKED_NO_WAITERS then s' == s.Move(t, UNLOCKED, Idle)
      else s' == s.Move(t, s.word, SlowRelease)
    case SlowRelease =>
      s' == s.Move(t, LockBitCleared(s.word), Waking)
    case Waking =>
      && s'.word == s.word
      && FutexWake(s.pcs[t := Idle], s'.pcs, 1, Sleeps, Awaken)
  }

  ghost predicate Inv(s: State) {
    && |s.pcs| <= MAX_THREADS
    && Sum(s.pcs, Holds) <= 1
    && s.word == Sum(s.pcs, Holds) + 2 * Sum(s.pcs, Waits)
    && s.word < TWO32
    && (forall i :: 0 <= i < |s.pcs| ==> SeenWord(s.pcs[i]))
    && (Sum(s.pcs, Sleeps) > 0 && Sum(s.pcs, Holds) == 0 ==> Sum(s.pcs, Rescues) > 0)
  }

  ghost predicate SeenWord(p: PC) {
    && (p.Acquiring? ==> p.seen < TWO32 && p.seen % 2 == 0 && p.seen >= 2)
    && (p.Blocking? ==> p.seen % 2 == 1)
  }

  lemma MoveCounts(pcs: seq<PC>, t: nat, p: PC)
    requires t < |pcs|
    ensures Sum(pcs[t := p], Holds) == Sum(pcs, Holds) + Holds(p) - Holds(pcs[t])
    ensures Sum(pcs[t := p], Waits) == Sum(pcs, Waits) + Waits(p) - Waits(pcs[t])
    ensures Sum(pcs[t := p], Sleeps) == Sum(pcs, Sleeps) + Sleeps(p) - Sleeps(pcs[t])
    ensures Sum(pcs[t := p], Rescues) == Sum(pcs, Rescues) + Rescues(p) - Rescues(pcs[t])
    ensures Holds(pcs[t]) <= Sum(pcs, Holds) <= |pcs|
    ensures Waits(pcs[t]) <= Sum(pcs, Waits)
    ensures Sum(pcs, Holds) + Sum(pcs, Waits) <= |pcs|
    ensures Sum(pcs, Sleeps) <= Sum(pcs, Waits)
    ensures Sum(pcs[t := p], Holds) + Sum(pcs[t := p], Waits) <= |pcs|
  {
    HoldersAndWaiters(pcs[t := p]);
    SumUpdate(pcs, t, p, Holds);
    SumUpdate(pcs, t, p, Waits);
    SumUpdate(pcs, t, p, Sleeps);
    SumUpdate(pcs, t, p, Rescues);
    SumIncludes(pcs, t, Holds);
    SumIncludes(pcs, t, Waits);
    HoldersAndWaiters(pcs);
  }

  lemma {:induction false} HoldersAndWaiters(pcs: seq<PC>)
    ensures Sum(pcs, Holds) + Sum(pcs, Waits) <= |pcs|
    ensures Sum(pcs, Sleeps) <= Sum(pcs, Waits)
  {
    if pcs != [] {
      HoldersAndWaiters(pcs[..|pcs| - 1]);
    }
  }

  /** A wake changes no count, and if anybody still sleeps, it woke somebody. */
  lemma WakeMovesSleepers(pcs: seq<PC>, pcs': seq<PC>)
    requires FutexWake(pcs, pcs', 1, Sleeps, Awaken)
    ensures Sum(pcs', Holds) == Sum(pcs, Holds) && Sum(pcs', Waits) == Sum(pcs, Waits)
    ensures Sum(pcs', Sleeps) > 0 ==> Sum(pcs', Rescues) > 0
    ensures forall i :: 0 <= i < |pcs'| ==> pcs'[i] == pcs[i] || pcs'[i] == Registered
  {
    SumCongruent(pcs, pcs', Holds);
    SumCongruent(pcs, pcs', Waits);
    WakeOneFindsNone(pcs, pcs', 1, Sleeps, Awaken);
    SumZero(pcs', Sleeps);
    SumZero(pcs', Rescues);
  }

  lemma WakeKeepsInv(s: State, t: nat, s': State)
    requires Inv(s) && t < |s.pcs| && s.pcs[t].Waking? && Step(s, t, s')
    ensures Inv(s')
  {
    hide And, Or;
    MoveCounts(s.pcs, t, Idle);
    WakeMovesSleepers(s.pcs[t := Idle], s'.pcs);
  }

  lemma AttemptKeepsInv(s: State, t: nat, s': State)
    requires Inv(s) && t < |s.pcs| && Step(s, t, s')
    requires s.pcs[t].Idle?
    ensures Inv(s')
  {
    hide And, Or;
    if s' != s {
      MoveCounts(s.pcs, t, s'.pcs[t]);
    }
  }

  lemma SpinKeepsInv(s: State, t: nat, s': State)
    requires Inv(s) && t < |s.pcs| && Step(s, t, s')
    requires s.pcs[t].Spinning?
    ensures Inv(s')
  {
    hide And, Or;
    if s' != s {
      MoveCounts(s.pcs, t, s'.pcs[t]);
    }
  }

  lemma TakeKeepsInv(s: State, t: nat, s': State)
    requires Inv(s) && t < |s.pcs| && Step(s, t, s')
    requires s.pcs[t].Acquiring?
    ensures Inv(s')
  {
    hide And, Or;
    if s' != s {
      MoveCounts(s.pcs, t, s'.pcs[t]);
    }
  }

  lemma WaitKeepsInv(s: State, t: nat, s': State)
    requires Inv(s) && t < |s.pcs| && Step(s, t, s')
    requires s.pcs[t].Registered? || s.pcs[t].Blocking? || s.pcs[t].Asleep?
    ensures Inv(s')
  {
    hide And, Or;
    if s' != s {
      MoveCounts(s.pcs, t, s'.pcs[t]);
    }
  }

  lemma ReleaseKeepsInv(s: State, t: nat, s': State)
    requires Inv(s) && t < |s.pcs| && Step(s, t, s')
    requires s.pcs[t].Holding? || s.pcs[t].FastRelease? || s.pcs[t].SlowRelease?
    ensures Inv(s')
  {
    hide And, Or;
    if s' != s {
      MoveCounts(s.pcs, t, s'.pcs[t]);
    }
  }

  lemma StepKeepsInv(s: State, t: nat, s': State)
    requires Inv(s) && t < |s.pcs| && Step(s, t, s')
    ensures Inv(s')
  {
    match s.pcs[t]
    case Idle => AttemptKeepsInv(s, t, s');
    case Spinning => SpinKeepsInv(s, t, s');
    case Acquiring(_) => TakeKeepsInv(s, t, s');
    case Registered => WaitKeepsInv(s, t, s');
    case Blocking(_) => WaitKeepsInv(s, t, s');
    case Asleep => WaitKeepsInv(s, t, s');
    case Holding => ReleaseKeepsInv(s, t, s');
    case FastRelease => ReleaseKeepsInv(s, t, s');
    case SlowRelease => ReleaseKeepsInv(s, t, s');
    case Waking => WakeKeepsInv(s, t, s');
  }

  ghost predicate Next(s: State, s': State) {
    s.word < TWO32 && exists t :: 0 <= t < |s.pcs| && Step(s, t, s')
  }

  lemma {:induction false} RunsKeepInv(run: seq<State>, i: nat)
    requires IsRun(run, Init, Next) && i < |run|
    ensures Inv(run[i])
  {
    if i == 0 {
      SumZero(run[0].pcs, Holds);
      SumZero(run[0].pcs, Waits);
      SumZero(run[0].pcs, Sleeps);
    } else {
      RunsKeepInv(run, i - 1);
      assert Next(run[i - 1], run[i - 1 + 1]);
      var t :| 0 <= t < |run[i - 1].pcs| && Step(run[i - 1], t, run[i]);
      StepKeepsInv(run[i - 1], t, run[i]);
    }
  }

  /** In every reachable state the lock bit says whether some thread holds the
      mutex, no two threads do, and the rest of the word counts the threads
      between registration and acquisition. */
  lemma WordIsExact(run: seq<State>, i: nat)
    requires IsRun(run, Init, Next) && i < |run|
    ensures var s := run[i];
      && (forall a, b :: 0 <= a < b < |s.pcs| ==> !(Holds(s.pcs[a]) == 1 && Holds(s.pcs[b]) == 1))
      && (LockBit(s.word) == 1 <==> exists a :: 0 <= a < |s.pcs| && Holds(s.pcs[a]) == 1)
      && s.word / 2 == Sum(s.pcs, Waits)
  {
    RunsKeepInv(run, i);
    var s := run[i];
    forall a, b | 0 <= a < b < |s.pcs|
      ensures !(Holds(s.pcs[a]) == 1 && Holds(s.pcs[b]) == 1)
    {
      SumIncludes(s.pcs, a, Holds);
    }
    SumZero(s.pcs, Holds);
    SumEach(s.pcs, Holds);
  }

  /** While some waiter is registered, whoever takes the mutex is one of them,
      and it leaves the count one lower. */
  lemma OnlyWaitersTake(run: seq<State>, i: nat, taker: nat)
    requires IsRun(run, Init, Next) && i < |run| - 1
    requires taker < |run[i].pcs| && taker < |run[i + 1].pcs|
    requires Holds(run[i].pcs[taker]) == 0 && Holds(run[i + 1].pcs[taker]) == 1
    requires exists w :: 0 <= w < |run[i].pcs| && Waits(run[i].pcs[w]) == 1
    ensures Waits(run[i].pcs[taker]) == 1
    ensures run[i + 1].word / 2 == run[i].word / 2 - 1
  {
    RunsKeepInv(run, i);
    RunsKeepInv(run, i + 1);
    assert Next(run[i], run[i + 1]);
    var t :| 0 <= t < |run[i].pcs| && Step(run[i], t, run[i + 1]);
    SumEach(run[i].pcs, Waits);
    TakerWaited(run[i], t, run[i + 1], taker);
  }

  lemma TakerWaited(s: State, t: nat, s': State, taker: nat)
    requires Inv(s) && t < |s.pcs| && Step(s, t, s') && taker < |s'.pcs|
    requires Holds(s.pcs[taker]) == 0 && Holds(s'.pcs[taker]) == 1
    requires Sum(s.pcs, Waits) > 0
    ensures Waits(s.pcs[taker]) == 1
    ensures s'.word == s.word - 1 && s.word % 2 == 0
  {
    assert s.word != UNLOCKED;
    assert t == taker;
  }

  /** A thread asleep on the free mutex is never forgotten: an unlocker has yet
      to issue its wake, or a registered waiter is awake and will try again. */
  lemma NoStrandedSleeper(run: seq<State>, i: nat)
    requires IsRun(run, Init, Next) && i < |run|
    requires LockBit(run[i].word) == 0
    requires exists a :: 0 <= a < |run[i].pcs| && run[i].pcs[a].Asleep?
    ensures exists b ::
              && 0 <= b < |run[i].pcs|
              && var p := run[i].pcs[b];
                 p.Waking? || p.Registered? || p.Acquiring? || p.Blocking?
  {
    RunsKeepInv(run, i);
    SumZero(run[i].pcs, Sleeps);
    SumZero(run[i].pcs, Rescues);
    var b :| 0 <= b < |run[i].pcs| && Rescues(run[i].pcs[b]) != 0;
  }

  // A call that nobody disturbs, and what a failed attempt means.

  /** A step of thread t. */
  ghost function By(t: nat): (State, State) -> bool {
    (s: State, s': State) => s.word < TWO32 && t < |s.pcs| && Step(s, t, s')
  }

  /** Neither holding nor in unlock. */
  predicate WantsLock(p: PC) {
    Holds(p) == 0 && !p.Waking?
  }

  /** The step of `lock` that brings thread t closer to the free mutex. */
  function TowardsLock(s: State, t: nat): State
    requires t < |s.pcs| && WantsLock(s.pcs[t]) && s.word < TWO32
    requires s.pcs[t].Acquiring? ==> s.pcs[t].seen < TWO32
  {
    match s.pcs[t]
    case Idle => if s.word == UNLOCKED then s.Move(t, LOCKED_NO_WAITERS, Holding) else s.Move(t, s.word, Spinning)
    case Spinning =>
      if s.word == UNLOCKED then s.Move(t, LOCKED_NO_WAITERS, Holding)
      else s.Move(t, Add(s.word, WAITER_INCREMENT, TWO32), Registered)
    case Registered => s.Move(t, s.word, Acquiring(s.word))
    case Acquiring(seen) =>
      if s.word == seen then s.Move(t, TakenByWaiter(seen), Holding) else s.Move(t, s.word, Registered)
    case _ => s.Move(t, s.word, Registered)
  }

  /** How many such steps are left at most. */
  function Distance(s: State, t: nat): nat
    requires t < |s.pcs|
  {
    match s.pcs[t]
    case Idle => 5
    case Spinning => 4
    case Blocking(_) => 3
    case Asleep => 3
    case Registered => 2
    case Acquiring(seen) => if seen == s.word then 1 else 3
    case _ => 0
  }

  ghost predicate IsFree(s: State) {
    forall u :: 0 <= u < |s.pcs| ==> Holds(s.pcs[u]) == 0
  }

  lemma TowardsLockIsStep(s: State, t: nat)
    requires Inv(s) && IsFree(s) && t < |s.pcs| && WantsLock(s.pcs[t])
    ensures s.word < TWO32 && (s.pcs[t].Acquiring? ==> s.pcs[t].seen < TWO32)
    ensures var s' := TowardsLock(s, t);
      Step(s, t, s') && |s'.pcs| == |s.pcs| && s'.pcs == s.pcs[t := s'.pcs[t]]
  {
    hide And, Or, Inv;
    InvHas(s, t);
  }

  lemma TowardsLockNears(s: State, t: nat)
    requires Inv(s) && IsFree(s) && t < |s.pcs| && WantsLock(s.pcs[t]) && s.word < TWO32
    requires s.pcs[t].Acquiring? ==> s.pcs[t].seen < TWO32
    ensures var s' := TowardsLock(s, t);
      && |s'.pcs| == |s.pcs|
      && s'.word == s.word + Holds(s'.pcs[t]) + 2 * Waits(s'.pcs[t]) - 2 * Waits(s.pcs[t])
      && (s'.pcs[t].Holding? || (IsFree(s') && WantsLock(s'.pcs[t]) && Distance(s', t) < Distance(s, t)))
  {
    hide And, Or, Inv, Step;
    InvHas(s, t);
    MoveCounts(s.pcs, t, TowardsLock(s, t).pcs[t]);
  }

  lemma InvHas(s: State, t: nat)
    requires Inv(s) && t < |s.pcs|
    ensures s.word < TWO32 && |s.pcs| <= MAX_THREADS && SeenWord(s.pcs[t])
    ensures s.word == Sum(s.pcs, Holds) + 2 * Sum(s.pcs, Waits)
    ensures IsFree(s) <==> Sum(s.pcs, Holds) == 0
  {
    SumZero(s.pcs, Holds);
  }

  /** Whoever is outside or anywhere in `lock` can take the free mutex by its own
      steps alone, and leaves everybody else where they are. */
  lemma {:induction false} LockAlone(s: State, t: nat) returns (s': State)
    requires Inv(s) && IsFree(s) && t < |s.pcs| && WantsLock(s.pcs[t])
    ensures Reaches(By(t), s, s') && Inv(s')
    ensures s'.pcs == s.pcs[t := Holding] && s'.word == s.word + 1 - 2 * Waits(s.pcs[t])
    decreases Distance(s, t)
  {
    hide Inv, Step, TakenByWaiter, Distance, IsFree, WantsLock;
    InvHas(s, t);
    TowardsLockIsStep(s, t);
    TowardsLockNears(s, t);
    var next := TowardsLock(s, t);
    StepKeepsInv(s, t, next);
    ReachesSelf(By(t), s);
    ReachesOneMore(By(t), s, s, next);
    if next.pcs[t].Holding? {
      s' := next;
    } else {
      s' := LockAlone(next, t);
      ReachesTransitive(By(t), s, next, s');
    }
  }

  /** The first step of `lock`, and all of `try_lock`: in every run it takes the
      mutex if and only if nobody holds it and nobody is registered. */
  lemma AttemptIsExact(run: seq<State>, i: nat, t: nat)
    requires IsRun(run, Init, Next) && i < |run| - 1
    requires By(t)(run[i], run[i + 1]) && run[i].pcs[t].Idle?
    ensures var s, s' := run[i], run[i + 1];
      && |s'.pcs| == |s.pcs|
      && (s'.pcs[t].Holding? <==> forall u :: 0 <= u < |s.pcs| ==> Holds(s.pcs[u]) == 0 && Waits(s.pcs[u]) == 0)
      && s'.pcs == s.pcs[t := s'.pcs[t]] && (s'.pcs[t].Holding? || s'.word == s.word)
  {
    RunsKeepInv(run, i);
    hide Inv, And, Or;
    InvHas(run[i], t);
    SumZero(run[i].pcs, Waits);
    assert run[i].pcs[t := run[i].pcs[t]] == run[i].pcs;
  }

  /** What the holder finds in the word. */
  lemma HolderWord(s: State, t: nat)
    requires Inv(s) && t < |s.pcs| && s.pcs[t].Holding?
    ensures s.word % 2 == 1 && s.word < TWO32
    ensures s.word == LOCKED_NO_WAITERS ==> Sum(s.pcs[t := Idle], Sleeps) == 0
  {
    MoveCounts(s.pcs, t, Idle);
  }

  /** A step of thread t in unlock. */
  ghost function UnlockBy(t: nat): (State, State) -> bool {
    (s: State, s': State) =>
      s.word < TWO32 && t < |s.pcs| && Step(s, t, s') && (Holds(s.pcs[t]) == 1 || s.pcs[t].Waking?)
  }

  /** One more step of thread t in unlock. */
  lemma Release(s: State, mid: State, t: nat, s': State)
    requires Reaches(UnlockBy(t), s, mid) && Inv(mid) && t < |mid.pcs| && Step(mid, t, s')
    requires Holds(mid.pcs[t]) == 1 || mid.pcs[t].Waking?
    ensures Reaches(UnlockBy(t), s, s') && Inv(s')
  {
    hide Step;
    InvHas(mid, t);
    ReachesOneMore(UnlockBy(t), s, mid, s');
    StepKeepsInv(mid, t, s');
  }

  lemma FastUnlockAlone(s: State, t: nat) returns (s': State)
    requires Inv(s) && t < |s.pcs| && s.pcs[t].Holding? && s.word == LOCKED_NO_WAITERS
    ensures Reaches(UnlockBy(t), s, s') && Inv(s') && s' == s.Move(t, UNLOCKED, Idle)
  {
    hide Inv, And, Or, Sum;
    ReachesSelf(UnlockBy(t), s);
    var fast := s.Move(t, s.word, FastRelease);
    Release(s, s, t, fast);
    s' := s.Move(t, UNLOCKED, Idle);
    assert fast.pcs[t := Idle] == s.pcs[t := Idle];
    Release(s, fast, t, s');
  }

  lemma SlowUnlockAlone(s: State, t: nat) returns (s': State)
    requires Inv(s) && t < |s.pcs| && s.pcs[t].Holding? && s.word != LOCKED_NO_WAITERS
    ensures Reaches(UnlockBy(t), s, s') && Inv(s')
    ensures s'.word == s.word - 1 && FutexWake(s.pcs[t := Idle], s'.pcs, 1, Sleeps, Awaken)
  {
    hide Inv, And, Or, FutexWake;
    HolderWord(s, t);
    ReachesSelf(UnlockBy(t), s);
    var slow := s.Move(t, s.word, SlowRelease);
    Release(s, s, t, slow);
    var waking := s.Move(t, LockBitCleared(s.word), Waking);
    assert slow.pcs[t := Waking] == waking.pcs && waking.pcs[t := Idle] == s.pcs[t := Idle];
    Release(s, slow, t, waking);
    var pcs := WakeExists(s.pcs[t := Idle], 1, Sleeps, Awaken);
    s' := State(waking.word, pcs);
    Release(s, waking, t, s');
  }

  /** A lone `unlock` frees the mutex, leaves the count of waiters, and gets one
      sleeper out of the futex if there is any. */
  lemma UnlockAlone(s: State, t: nat) returns (s': State)
    requires Inv(s) && t < |s.pcs| && s.pcs[t].Holding?
    ensures Reaches(UnlockBy(t), s, s') && Inv(s')
    ensures s'.word == s.word - 1 && FutexWake(s.pcs[t := Idle], s'.pcs, 1, Sleeps, Awaken)
  {
    hide Inv, Step;
    if s.word == LOCKED_NO_WAITERS {
      HolderWord(s, t);
      s' := FastUnlockAlone(s, t);
    } else {
      s' := SlowUnlockAlone(s, t);
    }
  }

  /** A lone lock of the held mutex registers its thread and sleeps. */
  lemma WaitAlone(s: State, t: nat) returns (s': State)
    requires Inv(s) && t < |s.pcs| && s.pcs[t].Idle? && !IsFree(s)
    ensures Reaches(By(t), s, s') && Inv(s') && s' == s.Move(t, s.word + 2, Asleep)
  {
    hide Inv, And, Or, IsFree, Sum;
    InvHas(s, t);
    HeldWord(s, t);
    ReachesSelf(By(t), s);
    var spinning := s.Move(t, s.word, Spinning);
    Advance(s, s, t, spinning);
    var registered := s.Move(t, s.word + 2, Registered);
    assert spinning.pcs[t := Registered] == registered.pcs;
    Advance(s, spinning, t, registered);
    var blocking := s.Move(t, s.word + 2, Blocking(s.word + 2));
    assert registered.pcs[t := blocking.pcs[t]] == blocking.pcs;
    Advance(s, registered, t, blocking);
    s' := s.Move(t, s.word + 2, Asleep);
    assert blocking.pcs[t := Asleep] == s'.pcs;
    Advance(s, blocking, t, s');
  }

  lemma HeldWord(s: State, t: nat)
    requires Inv(s) && t < |s.pcs| && s.pcs[t].Idle? && !IsFree(s)
    ensures s.word % 2 == 1 && s.word + 2 < TWO32
  {
    SumZero(s.pcs, Holds);
    MoveCounts(s.pcs, t, Registered);
  }

  /** One more step of thread t. */
  lemma Advance(s: State, mid: State, t: nat, s': State)
    requires Reaches(By(t), s, mid) && Inv(mid) && t < |mid.pcs| && mid.word < TWO32 && Step(mid, t, s')
    ensures Reaches(By(t), s, s') && Inv(s') && s'.word < TWO32
  {
    hide Step;
    ReachesOneMore(By(t), s, mid, s');
    StepKeepsInv(mid, t, s');
    InvBounds(s');
  }

  lemma InvBounds(s: State)
    requires Inv(s)
    ensures s.word < TWO32
  {
  }
}
