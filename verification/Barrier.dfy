/** The cyclic barrier, used by exactly as many threads as it expects. */
module Barrier {
  import opened Bits
  import opened Threads

  const MAX_THREADS: nat := 0x7fff_ffff

  /** Where a thread is in `arrive_and_wait`; each point stands just before one
      atomic operation. */
  datatype PC =
    | Idle
    | Entered(seen: nat)   // phase loaded, before counting itself in
    | Resetting            // last to arrive, before restoring the arrival counter
    | Advancing            // before moving the phase on
    | Waking               // phase moved on, before wake_all
    | Watching(seen: nat)  // before loading the phase again
    | Blocking(seen: nat)  // phase unchanged, before the futex wait
    | Asleep(seen: nat)

  /** A thread with the number of its calls that arrived and that returned. */
  datatype Thread = Thread(pc: PC, arrivals: nat, completed: nat)

  /** The two words, and how many times the phase has moved on. */
  datatype State = State(arrived: nat, phase: nat, threads: seq<Thread>, rounds: nat) {
    function Move(t: nat, th: Thread): State
      requires t < |threads|
    {
      this.(threads := threads[t := th])
    }
  }

  function Sleeps(th: Thread): nat { if th.pc.Asleep? then 1 else 0 }
  function Resets(th: Thread): nat { if th.pc.Resetting? then 1 else 0 }
  function Advances(th: Thread): nat { if th.pc.Advancing? then 1 else 0 }
  function WillWakeAll(th: Thread): nat { if th.pc.Waking? then 1 else 0 }
  function Awaken(th: Thread): Thread { if th.pc.Asleep? then th.(pc := Watching(th.pc.seen)) else th }
  /** Counts the threads that have arrived in the given round. */
  function ArrivedIn(round: nat): Thread -> nat {
    (th: Thread) => if th.arrivals == round + 1 then 1 else 0
  }

  ghost predicate Init(s: State) {
    && 0 < |s.threads| <= MAX_THREADS
    && s == State(|s.threads|, 0, s.threads, 0)
    && forall i :: 0 <= i < |s.threads| ==> s.threads[i] == Thread(Idle, 0, 0)
  }

  ghost predicate Step(s: State, t: nat, s': State)
    requires t < |s.threads| && s.arrived < TWO32
  {
    var th := s.threads[t];
    match th.pc
    case Idle =>
      s' == s.Move(t, th.(pc := Entered(s.phase)))
    case Entered(seen) =>
      s' == s.Move(t, Thread(if s.arrived == 1 then Resetting else Watching(seen), th.arrivals + 1, th.completed))
             .(arrived := Sub(s.arrived, 1, TWO32))
    case Resetting =>
      s' == s.Move(t, th.(pc := Advancing)).(arrived := |s.threads|)
    case Advancing =>
      s' == s.Move(t, th.(pc := Waking)).(phase := Add(s.phase, 1, TWO32), rounds := s.rounds + 1)
    case Waking =>
      && s' == s.(threads := s'.threads)
      && FutexWake(s.threads[t := Thread(Idle, th.arrivals, th.completed + 1)], s'.threads,
                   MAX_FUTEX_WAKE, Sleeps, Awaken)
    case Watching(seen) =>
      s' == s.Move(t, if s.phase == seen then th.(pc := Blocking(seen))
                      else Thread(Idle, th.arrivals, th.completed + 1))
    case Blocking(seen) =>
      s' == s.Move(t, th.(pc := if s.phase == seen then Asleep(seen) else Watching(seen)))
    case Asleep(seen) =>
      s' == s.Move(t, th.(pc := Watching(seen)))
  }

  ghost predicate Next(s: State, s': State) {
    s.arrived < TWO32 && exists t :: 0 <= t < |s.threads| && Step(s, t, s')
  }

  /** Which round a thread can be in when the phase has moved on k times. */
  ghost predicate InRound(th: Thread, k: nat) {
    match th.pc
    case Idle => th.arrivals == th.completed == k
    case Entered(seen) => th.arrivals == th.completed == k && seen == k % TWO32
    case Resetting => th.arrivals == k + 1 && th.completed == k
    case Advancing => th.arrivals == k + 1 && th.completed == k
    case Waking => th.arrivals == k && th.completed + 1 == k
    case Watching(seen) => Waits(th, seen, k)
    case Blocking(seen) => Waits(th, seen, k)
    case Asleep(seen) => Waits(th, seen, k)
  }

  ghost predicate Waits(th: Thread, seen: nat, k: nat) {
    && th.arrivals == th.completed + 1
    && seen == th.completed % TWO32
    && (th.completed == k || th.completed + 1 == k)
  }

  ghost predicate CounterAgrees(s: State) {
    var arrivals := Sum(s.threads, ArrivedIn(s.rounds));
    var resets, advances := Sum(s.threads, Resets), Sum(s.threads, Advances);
    && arrivals <= |s.threads|
    && (arrivals < |s.threads| ==> resets == 0 && advances == 0 && s.arrived == |s.threads| - arrivals)
    && (arrivals == |s.threads| ==> resets + advances == 1 && s.arrived == if resets == 1 then 0 else |s.threads|)
  }

  ghost predicate Inv(s: State) {
    && 0 < |s.threads| <= MAX_THREADS
    && s.phase == s.rounds % TWO32
    && s.arrived < TWO32
    && (forall i :: 0 <= i < |s.threads| ==> InRound(s.threads[i], s.rounds))
    && CounterAgrees(s)
    && (forall i :: 0 <= i < |s.threads| && LeftAsleep(s.threads[i], s.rounds) ==> Sum(s.threads, WillWakeAll) > 0)
  }

  /** Asleep on a phase that is over. */
  ghost predicate LeftAsleep(th: Thread, rounds: nat) {
    th.pc.Asleep? && th.completed < rounds
  }

  lemma MoveCounts(s: State, t: nat, th: Thread)
    requires t < |s.threads|
    ensures var ts' := s.threads[t := th];
      && Sum(ts', ArrivedIn(s.rounds)) == Sum(s.threads, ArrivedIn(s.rounds))
           + ArrivedIn(s.rounds)(th) - ArrivedIn(s.rounds)(s.threads[t])
      && Sum(ts', Resets) == Sum(s.threads, Resets) + Resets(th) - Resets(s.threads[t])
      && Sum(ts', Advances) == Sum(s.threads, Advances) + Advances(th) - Advances(s.threads[t])
      && Sum(ts', WillWakeAll) == Sum(s.threads, WillWakeAll) + WillWakeAll(th) - WillWakeAll(s.threads[t])
      && Sum(ts', ArrivedIn(s.rounds)) <= |s.threads|
      && Resets(s.threads[t]) <= Sum(s.threads, Resets)
      && Advances(s.threads[t]) <= Sum(s.threads, Advances)
  {
    SumUpdate(s.threads, t, th, ArrivedIn(s.rounds));
    SumUpdate(s.threads, t, th, Resets);
    SumUpdate(s.threads, t, th, Advances);
    SumUpdate(s.threads, t, th, WillWakeAll);
    SumAtMost(s.threads[t := th], ArrivedIn(s.rounds));
    SumIncludes(s.threads, t, Resets);
    SumIncludes(s.threads, t, Advances);
  }

  lemma PhasesDiffer(k: nat)
    requires k > 0
    ensures k % TWO32 != (k - 1) % TWO32
    ensures (k - 1 + 1) % TWO32 == Add((k - 1) % TWO32, 1, TWO32)
  {
  }

  /** Once a thread is about to end the round, every thread has arrived in it. */
  lemma AllArrived(s: State, t: nat)
    requires Inv(s) && t < |s.threads|
    requires s.threads[t].pc.Resetting? || s.threads[t].pc.Advancing?
    ensures Sum(s.threads, ArrivedIn(s.rounds)) == |s.threads|
    ensures forall i :: 0 <= i < |s.threads| ==>
              s.threads[i].arrivals == s.rounds + 1 && s.threads[i].completed == s.rounds
  {
    MoveCounts(s, t, s.threads[t]);
    assert s.threads[t := s.threads[t]] == s.threads;
    FullSum(s.threads, ArrivedIn(s.rounds));
    forall i | 0 <= i < |s.threads|
      ensures s.threads[i].arrivals == s.rounds + 1 && s.threads[i].completed == s.rounds
    {
      assert ArrivedIn(s.rounds)(s.threads[i]) == 1;
      assert InRound(s.threads[i], s.rounds);
    }
  }

  lemma {:induction false} FullSum(ts: seq<Thread>, w: Thread -> nat)
    requires forall i :: 0 <= i < |ts| ==> w(ts[i]) <= 1
    requires Sum(ts, w) == |ts|
    ensures forall i :: 0 <= i < |ts| ==> w(ts[i]) == 1
  {
    if ts != [] {
      SumAtMost(ts[..|ts| - 1], w);
      FullSum(ts[..|ts| - 1], w);
      assert forall i :: 0 <= i < |ts| - 1 ==> ts[..|ts| - 1][i] == ts[i];
    }
  }

  lemma EnterKeepsInv(s: State, t: nat, s': State)
    requires Inv(s) && t < |s.threads| && Step(s, t, s')
    requires s.threads[t].pc.Idle?
    ensures Inv(s')
  {
    MoveCounts(s, t, s'.threads[t]);
  }

  lemma ArriveKeepsInv(s: State, t: nat, s': State)
    requires Inv(s) && t < |s.threads| && Step(s, t, s')
    requires s.threads[t].pc.Entered?
    ensures Inv(s')
  {
    MoveCounts(s, t, s'.threads[t]);
  }

  lemma ResetKeepsInv(s: State, t: nat, s': State)
    requires Inv(s) && t < |s.threads| && Step(s, t, s')
    requires s.threads[t].pc.Resetting?
    ensures Inv(s')
  {
    AllArrived(s, t);
    MoveCounts(s, t, s'.threads[t]);
  }

  /** A move of a waiting thread that leaves it waiting or lets it return. */
  lemma WaiterMoves(s: State, t: nat, th: Thread)
    requires Inv(s) && t < |s.threads|
    requires s.threads[t].pc.Watching? || s.threads[t].pc.Blocking? || s.threads[t].pc.Asleep?
    requires th.arrivals == s.threads[t].arrivals && InRound(th, s.rounds)
    requires th.pc.Idle? || th.pc.Watching? || th.pc.Blocking? || th.pc.Asleep?
    requires !LeftAsleep(th, s.rounds)
    ensures Inv(s.Move(t, th))
  {
    MoveCounts(s, t, th);
    var s' := s.Move(t, th);
    forall i | 0 <= i < |s'.threads|
      ensures InRound(s'.threads[i], s.rounds)
      ensures LeftAsleep(s'.threads[i], s.rounds) ==> Sum(s.threads, WillWakeAll) > 0
    {
      if i != t {
        assert s'.threads[i] == s.threads[i];
      }
    }
  }

  lemma WatchKeepsInv(s: State, t: nat, s': State)
    requires Inv(s) && t < |s.threads| && Step(s, t, s')
    requires s.threads[t].pc.Watching? || s.threads[t].pc.Blocking? || s.threads[t].pc.Asleep?
    ensures Inv(s')
  {
    var th := s.threads[t];
    assert InRound(th, s.rounds);
    if s.rounds > 0 {
      PhasesDiffer(s.rounds);
    }
    assert s' == s.Move(t, s'.threads[t]);
    WaiterMoves(s, t, s'.threads[t]);
  }

  /** With the round over, whoever arrived in it is in the next one. */
  lemma NextRound(s: State, t: nat, i: nat)
    requires Inv(s) && t < |s.threads| && i < |s.threads| && i != t
    requires s.threads[i].arrivals == s.rounds + 1 && s.threads[i].completed == s.rounds
    requires Advances(s.threads[i]) == 0 && Resets(s.threads[i]) == 0
    ensures InRound(s.threads[i], s.rounds + 1) && ArrivedIn(s.rounds + 1)(s.threads[i]) == 0
  {
    assert InRound(s.threads[i], s.rounds);
  }

  lemma AdvanceKeepsInv(s: State, t: nat, s': State)
    requires Inv(s) && t < |s.threads| && Step(s, t, s')
    requires s.threads[t].pc.Advancing?
    ensures Inv(s')
  {
    AllArrived(s, t);
    MoveCounts(s, t, s'.threads[t]);
    SumZero(s.threads, Resets);
    SumIncludes(s.threads, t, Advances);
    forall i | 0 <= i < |s'.threads|
      ensures InRound(s'.threads[i], s'.rounds) && ArrivedIn(s'.rounds)(s'.threads[i]) == 0
    {
      if i != t {
        NextRound(s, t, i);
      }
    }
    SumZero(s'.threads, ArrivedIn(s'.rounds));
    SumIncludes(s'.threads, t, WillWakeAll);
    PhasesDiffer(s'.rounds);
  }

  /** Waking changes no count and no round. */
  lemma WakeKeepsRounds(before: seq<Thread>, after: seq<Thread>, k: nat)
    requires FutexWake(before, after, MAX_FUTEX_WAKE, Sleeps, Awaken)
    requires forall i :: 0 <= i < |before| ==> InRound(before[i], k)
    ensures forall i :: 0 <= i < |after| ==> InRound(after[i], k)
    ensures Sum(after, ArrivedIn(k)) == Sum(before, ArrivedIn(k))
    ensures Sum(after, Resets) == Sum(before, Resets)
    ensures Sum(after, Advances) == Sum(before, Advances)
  {
    SumCongruent(before, after, ArrivedIn(k));
    SumCongruent(before, after, Resets);
    SumCongruent(before, after, Advances);
    forall i | 0 <= i < |after|
      ensures InRound(after[i], k)
    {
      assert InRound(before[i], k);
    }
  }

  lemma WakeKeepsInv(s: State, t: nat, s': State)
    requires Inv(s) && t < |s.threads| && Step(s, t, s')
    requires s.threads[t].pc.Waking?
    ensures Inv(s')
  {
    var th := s.threads[t];
    var mid := Thread(Idle, th.arrivals, th.completed + 1);
    assert InRound(th, s.rounds);
    var ts := s.threads[t := mid];
    assert forall i :: 0 <= i < |ts| ==> InRound(ts[i], s.rounds);
    MoveCounts(s, t, mid);
    WakeKeepsRounds(ts, s'.threads, s.rounds);
    WakeAllLeavesNone(ts, s'.threads, Sleeps, Awaken);
    NoneLeftAsleep(s'.threads, s.rounds);
  }

  lemma NoneLeftAsleep(ts: seq<Thread>, rounds: nat)
    requires forall i :: 0 <= i < |ts| ==> Sleeps(ts[i]) == 0
    ensures forall i :: 0 <= i < |ts| ==> !LeftAsleep(ts[i], rounds)
  {
    forall i | 0 <= i < |ts|
      ensures !LeftAsleep(ts[i], rounds)
    {
      assert Sleeps(ts[i]) == 0;
    }
  }

  lemma StepKeepsInv(s: State, t: nat, s': State)
    requires Inv(s) && t < |s.threads| && Step(s, t, s')
    ensures Inv(s')
  {
    match s.threads[t].pc
    case Idle => EnterKeepsInv(s, t, s');
    case Entered(_) => ArriveKeepsInv(s, t, s');
    case Resetting => ResetKeepsInv(s, t, s');
    case Advancing => AdvanceKeepsInv(s, t, s');
    case Waking => WakeKeepsInv(s, t, s');
    case Watching(_) => WatchKeepsInv(s, t, s');
    case Blocking(_) => WatchKeepsInv(s, t, s');
    case Asleep(_) => WatchKeepsInv(s, t, s');
  }

  lemma {:induction false} RunsKeepInv(run: seq<State>, i: nat)
    requires IsRun(run, Init, Next) && i < |run|
    ensures Inv(run[i])
    ensures |run[i].threads| == |run[0].threads|
  {
    if i == 0 {
      SumZero(run[0].threads, ArrivedIn(0));
      SumZero(run[0].threads, Resets);
      SumZero(run[0].threads, Advances);
    } else {
      RunsKeepInv(run, i - 1);
      assert Next(run[i - 1], run[i - 1 + 1]);
      var t :| 0 <= t < |run[i - 1].threads| && Step(run[i - 1], t, run[i]);
      StepKeepsInv(run[i - 1], t, run[i]);
    }
  }

  /** Nobody returns from its k-th call before every thread has arrived in its
      k-th; the numbers of returned calls differ by at most one; and the
      arrival counter never goes below zero. */
  lemma PhasesStayTogether(run: seq<State>, i: nat)
    requires IsRun(run, Init, Next) && i < |run|
    ensures forall t, u :: 0 <= t < |run[i].threads| && 0 <= u < |run[i].threads| ==>
              && run[i].threads[t].completed <= run[i].threads[u].arrivals
              && run[i].threads[t].completed <= run[i].threads[u].completed + 1
    ensures run[i].arrived <= |run[0].threads|
    ensures forall t :: 0 <= t < |run[i].threads| && run[i].threads[t].pc.Entered? ==> run[i].arrived >= 1
  {
    RunsKeepInv(run, i);
    var s := run[i];
    forall t, u | 0 <= t < |s.threads| && 0 <= u < |s.threads|
      ensures s.threads[t].completed <= s.threads[u].arrivals
      ensures s.threads[t].completed <= s.threads[u].completed + 1
    {
      assert InRound(s.threads[t], s.rounds) && InRound(s.threads[u], s.rounds);
    }
    forall t | 0 <= t < |s.threads| && s.threads[t].pc.Entered?
      ensures s.arrived >= 1
    {
      ArrivalIsMissing(s, t);
    }
  }

  lemma ArrivalIsMissing(s: State, t: nat)
    requires Inv(s) && t < |s.threads| && s.threads[t].pc.Entered?
    ensures s.arrived >= 1
  {
    assert InRound(s.threads[t], s.rounds);
    assert ArrivedIn(s.rounds)(s.threads[t]) == 0;
    if Sum(s.threads, ArrivedIn(s.rounds)) == |s.threads| {
      FullSum(s.threads, ArrivedIn(s.rounds));
    }
  }

  /** A thread asleep on a phase that is over has a wake_all coming, however
      often the phase word has wrapped. */
  lemma OldSleepersWillWake(run: seq<State>, i: nat, t: nat)
    requires IsRun(run, Init, Next) && i < |run| && t < |run[i].threads|
    requires run[i].threads[t].pc.Asleep? && run[i].threads[t].pc.seen != run[i].phase
    ensures exists u :: 0 <= u < |run[i].threads| && run[i].threads[u].pc.Waking?
  {
    RunsKeepInv(run, i);
    var s := run[i];
    assert InRound(s.threads[t], s.rounds);
    assert LeftAsleep(s.threads[t], s.rounds);
    SumZero(s.threads, WillWakeAll);
    var u :| 0 <= u < |s.threads| && WillWakeAll(s.threads[u]) != 0;
  }

  /** The barrier never deadlocks: some thread is always awake. */
  lemma SomebodyIsAwake(run: seq<State>, i: nat)
    requires IsRun(run, Init, Next) && i < |run|
    ensures exists t :: 0 <= t < |run[i].threads| && !run[i].threads[t].pc.Asleep?
  {
    RunsKeepInv(run, i);
    var s := run[i];
    if forall t :: 0 <= t < |s.threads| ==> s.threads[t].pc.Asleep? {
      SumZero(s.threads, WillWakeAll);
      SumZero(s.threads, Resets);
      SumZero(s.threads, Advances);
      forall t | 0 <= t < |s.threads|
        ensures s.threads[t].arrivals == s.rounds + 1
      {
        assert InRound(s.threads[t], s.rounds) && !LeftAsleep(s.threads[t], s.rounds);
      }
      EverybodyArrived(s.threads, s.rounds);
      assert false;
    }
  }

  lemma {:induction false} EverybodyArrived(ts: seq<Thread>, round: nat)
    requires forall t :: 0 <= t < |ts| ==> ts[t].arrivals == round + 1
    ensures Sum(ts, ArrivedIn(round)) == |ts|
  {
    if ts != [] {
      EverybodyArrived(ts[..|ts| - 1], round);
    }
  }
}
