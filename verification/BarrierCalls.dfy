/** What arrive_and_wait does when nobody disturbs it. */
module BarrierCalls {
  import opened Barrier
  import opened Bits
  import opened Threads

  /** A step of thread t. */
  ghost function By(t: nat): (State, State) -> bool {
    (s: State, s': State) => s.arrived < TWO32 && t < |s.threads| && Step(s, t, s')
  }

  lemma Advance(s: State, mid: State, t: nat, s': State)
    requires Reaches(By(t), s, mid) && Inv(mid) && t < |mid.threads| && mid.arrived < TWO32 && Step(mid, t, s')
    ensures Reaches(By(t), s, s') && Inv(s') && s'.arrived < TWO32
  {
    hide Step;
    ReachesOneMore(By(t), s, mid, s');
    StepKeepsInv(mid, t, s');
  }

  predicate HasArrived(th: Thread, round: nat) {
    th.arrivals == round + 1
  }

  /** How many have arrived decides what the counter holds. */
  lemma CounterIs(s: State, t: nat)
    requires Inv(s) && t < |s.threads| && s.threads[t].pc.Idle?
    ensures s.arrived < TWO32 && 0 < |s.threads| <= MAX_THREADS && InRound(s.threads[t], s.rounds)
    ensures (forall u :: 0 <= u < |s.threads| && u != t ==> HasArrived(s.threads[u], s.rounds)) ==> s.arrived == 1
    ensures (exists u :: 0 <= u < |s.threads| && u != t && !HasArrived(s.threads[u], s.rounds)) ==> s.arrived > 1
  {
    var th := s.threads[t].(arrivals := s.rounds + 1);
    var ts := s.threads[t := th];
    MoveCounts(s, t, th);
    assert ArrivedIn(s.rounds)(s.threads[t]) == 0 && ArrivedIn(s.rounds)(th) == 1;
    if forall u :: 0 <= u < |s.threads| && u != t ==> HasArrived(s.threads[u], s.rounds) {
      EverybodyArrived(ts, s.rounds);
    } else {
      var u :| 0 <= u < |s.threads| && u != t && !HasArrived(s.threads[u], s.rounds);
      assert ArrivedIn(s.rounds)(ts[u]) == 0;
      if Sum(ts, ArrivedIn(s.rounds)) == |ts| {
        FullSum(ts, ArrivedIn(s.rounds));
      }
    }
  }

  /** The last thread to arrive ends the phase on its own: it sets the counter back,
      advances the phase, gets everybody out of the futex and returns. */
  lemma LastArrives(s: State, t: nat) returns (s': State)
    requires Inv(s) && t < |s.threads| && s.threads[t].pc.Idle?
    requires forall u :: 0 <= u < |s.threads| && u != t ==> HasArrived(s.threads[u], s.rounds)
    ensures Reaches(By(t), s, s') && Inv(s')
    ensures s' == State(|s.threads|, Add(s.phase, 1, TWO32), s'.threads, s.rounds + 1)
    ensures FutexWake(s.threads[t := Thread(Idle, s.threads[t].arrivals + 1, s.threads[t].completed + 1)],
                      s'.threads, MAX_FUTEX_WAKE, Sleeps, Awaken)
  {
    hide Inv, FutexWake;
    CounterIs(s, t);
    var a, c := s.threads[t].arrivals + 1, s.threads[t].completed;
    ReachesSelf(By(t), s);
    var entered := s.Move(t, Thread(Entered(s.phase), a - 1, c));
    Advance(s, s, t, entered);
    var resetting := s.Move(t, Thread(Resetting, a, c)).(arrived := 0);
    assert entered.threads[t := resetting.threads[t]] == resetting.threads;
    Advance(s, entered, t, resetting);
    var advancing := s.Move(t, Thread(Advancing, a, c)).(arrived := |s.threads|);
    assert resetting.threads[t := advancing.threads[t]] == advancing.threads;
    Advance(s, resetting, t, advancing);
    s' := AdvancesAlone(s, advancing, t);
    assert advancing.threads[t := Thread(Idle, a, c + 1)] == s.threads[t := Thread(Idle, a, c + 1)];
  }

  lemma AdvancesAlone(s: State, mid: State, t: nat) returns (s': State)
    requires Reaches(By(t), s, mid) && Inv(mid) && t < |mid.threads| && mid.arrived < TWO32
    requires mid.threads[t].pc.Advancing?
    ensures Reaches(By(t), s, s') && Inv(s')
    ensures s' == State(mid.arrived, Add(mid.phase, 1, TWO32), s'.threads, mid.rounds + 1)
    ensures FutexWake(mid.threads[t := Thread(Idle, mid.threads[t].arrivals, mid.threads[t].completed + 1)],
                      s'.threads, MAX_FUTEX_WAKE, Sleeps, Awaken)
  {
    hide Inv, FutexWake;
    var th := mid.threads[t];
    var waking := mid.Move(t, th.(pc := Waking)).(phase := Add(mid.phase, 1, TWO32), rounds := mid.rounds + 1);
    Advance(s, mid, t, waking);
    var back := mid.threads[t := Thread(Idle, th.arrivals, th.completed + 1)];
    assert waking.threads[t := back[t]] == back;
    var threads := WakeExists(back, MAX_FUTEX_WAKE, Sleeps, Awaken);
    s' := waking.(threads := threads);
    Advance(s, waking, t, s');
  }

  /** A thread that arrives before the last one counts itself and sleeps. */
  lemma EarlyWaits(s: State, t: nat) returns (s': State)
    requires Inv(s) && t < |s.threads| && s.threads[t].pc.Idle?
    requires exists u :: 0 <= u < |s.threads| && u != t && !HasArrived(s.threads[u], s.rounds)
    ensures s.arrived > 0 && Reaches(By(t), s, s') && Inv(s')
    ensures s' == s.Move(t, Thread(Asleep(s.phase), s.threads[t].arrivals + 1, s.threads[t].completed))
                   .(arrived := s.arrived - 1)
  {
    hide Inv;
    CounterIs(s, t);
    var a, c := s.threads[t].arrivals + 1, s.threads[t].completed;
    ReachesSelf(By(t), s);
    var entered := s.Move(t, Thread(Entered(s.phase), a - 1, c));
    Advance(s, s, t, entered);
    var watching := s.Move(t, Thread(Watching(s.phase), a, c)).(arrived := s.arrived - 1);
    assert entered.threads[t := watching.threads[t]] == watching.threads;
    Advance(s, entered, t, watching);
    var blocking := s.Move(t, Thread(Blocking(s.phase), a, c)).(arrived := s.arrived - 1);
    assert watching.threads[t := blocking.threads[t]] == blocking.threads;
    Advance(s, watching, t, blocking);
    s' := s.Move(t, Thread(Asleep(s.phase), a, c)).(arrived := s.arrived - 1);
    assert blocking.threads[t := s'.threads[t]] == s'.threads;
    Advance(s, blocking, t, s');
  }

  predicate WaitsForPhase(th: Thread) {
    th.pc.Watching? || th.pc.Blocking? || th.pc.Asleep?
  }

  lemma WaiterPhase(s: State, t: nat)
    requires Inv(s) && t < |s.threads| && WaitsForPhase(s.threads[t])
    ensures s.arrived < TWO32 && (s.phase != s.threads[t].pc.seen <==> s.threads[t].completed < s.rounds)
  {
    assert InRound(s.threads[t], s.rounds);
    if s.rounds > 0 {
      PhasesDiffer(s.rounds);
    }
  }

  /** Once its phase is over, a waiting thread returns by its own steps alone. */
  lemma WaiterReturnsAlone(s: State, t: nat) returns (s': State)
    requires Inv(s) && t < |s.threads| && WaitsForPhase(s.threads[t]) && s.threads[t].completed < s.rounds
    ensures Reaches(By(t), s, s') && Inv(s')
    ensures s' == s.Move(t, Thread(Idle, s.threads[t].arrivals, s.threads[t].completed + 1))
  {
    hide Inv;
    WaiterPhase(s, t);
    var th := s.threads[t];
    ReachesSelf(By(t), s);
    var watching := s.Move(t, th.(pc := Watching(th.pc.seen)));
    if th.pc.Watching? {
      assert watching == s;
    } else {
      Advance(s, s, t, watching);
    }
    s' := s.Move(t, Thread(Idle, th.arrivals, th.completed + 1));
    assert watching.threads[t := s'.threads[t]] == s'.threads;
    Advance(s, watching, t, s');
  }

  /** A waiting thread that looks at the phase returns if and only if the phase it
      arrived in is over. */
  lemma ReturnIsExact(run: seq<State>, i: nat, t: nat)
    requires IsRun(run, Init, Next) && i < |run| - 1
    requires By(t)(run[i], run[i + 1]) && run[i].threads[t].pc.Watching?
    ensures var th := run[i].threads[t];
      run[i + 1] == run[i].Move(t, if th.completed < run[i].rounds then Thread(Idle, th.arrivals, th.completed + 1)
                                   else th.(pc := Blocking(th.pc.seen)))
  {
    RunsKeepInv(run, i);
    hide Inv;
    WaiterPhase(run[i], t);
  }
}
