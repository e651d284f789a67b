/** What a call of the reader/writer mutex does: on its own it gets in whenever the
    lock lets it, and an attempt is refused only for a reason. */
module SharedMutexCalls {
  import opened Bits
  import opened SharedMutex
  import opened Threads

  /** A step of thread t. */
  ghost function By(t: nat): (State, State) -> bool {
    (s: State, s': State) => s.word < TWO32 && t < |s.pcs| && Step(s, t, s')
  }

  lemma Advance(s: State, mid: State, t: nat, s': State)
    requires Reaches(By(t), s, mid) && Inv(mid) && t < |mid.pcs| && mid.word < TWO32 && Step(mid, t, s')
    ensures Reaches(By(t), s, s') && Inv(s')
  {
    hide Step;
    ReachesOneMore(By(t), s, mid, s');
    StepKeepsInv(mid, t, s');
  }

  /** What the invariant says of the word and of thread t. */
  lemma InvHas(s: State, t: nat)
    requires Inv(s) && t < |s.pcs|
    ensures s.word < TWO32 && |s.pcs| <= MAX_THREADS && SeenWord(s.pcs[t])
    ensures s.word == Sum(s.pcs, IsWriter) + 2 * Sum(s.pcs, IsRegistered) + 0x1_0000 * Sum(s.pcs, IsReader)
    ensures StopsReader(s.word) <==> WriterPresent(s)
    ensures StopsWriter(s.word) <==> SomebodyHolds(s)
    ensures s.word == UNLOCKED <==> !WriterPresent(s) && !SomebodyHolds(s)
  {
    hide And, Shr, HasRegistered, ReaderCount, StopsReader, StopsWriter;
    FieldsDecode(s);
  }

  ghost predicate SomebodyHolds(s: State) {
    Sum(s.pcs, IsWriter) > 0 || Sum(s.pcs, IsReader) > 0
  }

  // Readers.

  /** Outside, or anywhere in lock_shared, or in a try_lock_shared that has not
      seen a writer. */
  predicate WantsRead(p: PC) {
    || p.Idle? || p.RLoad? || p.RTake? || p.RBlock? || p.RAsleep?
    || (p.RTry? && (p.blocking || !StopsReader(p.seen)))
  }

  /** The step that brings the reader closer when no writer is present. */
  function TowardsRead(s: State, t: nat, blocking: bool): State
    requires t < |s.pcs|
  {
    match s.pcs[t]
    case Idle => s.Move(t, s.word, RTry(s.word, blocking))
    case RTry(seen, b) =>
      if StopsReader(seen) then s.Move(t, s.word, RLoad)
      else if s.word == seen then s.Move(t, Add(seen, READER_INCREMENT, TWO32), RHold)
      else s.Move(t, s.word, RTry(s.word, b))
    case RLoad => s.Move(t, s.word, RTake(s.word))
    case RTake(seen) =>
      if s.word == seen then s.Move(t, Add(seen, READER_INCREMENT, TWO32), RHold) else s.Move(t, s.word, RLoad)
    case _ => s.Move(t, s.word, RLoad)
  }

  function ReadDistance(s: State, t: nat): nat
    requires t < |s.pcs|
  {
    match s.pcs[t]
    case RTry(seen, _) => if StopsReader(seen) then 3 else if seen == s.word then 1 else 2
    case RTake(seen) => if seen == s.word then 1 else 3
    case RBlock(_) => 3
    case RAsleep => 3
    case _ => 2
  }

  lemma TowardsReadIsStep(s: State, t: nat, blocking: bool)
    requires Inv(s) && !WriterPresent(s) && t < |s.pcs| && WantsRead(s.pcs[t])
    ensures s.word < TWO32
    ensures var s' := TowardsRead(s, t, blocking);
      Step(s, t, s') && |s'.pcs| == |s.pcs| && s'.pcs == s.pcs[t := s'.pcs[t]]
  {
    hide Inv, StopsReader, WriterPresent;
    InvHas(s, t);
  }

  lemma TowardsReadCounts(s: State, t: nat, blocking: bool)
    requires Inv(s) && !WriterPresent(s) && t < |s.pcs| && WantsRead(s.pcs[t])
    ensures var s' := TowardsRead(s, t, blocking);
      && |s'.pcs| == |s.pcs| && !WriterPresent(s')
      && s'.word == s.word + (if s'.pcs[t].RHold? then READER_INCREMENT else 0)
  {
    hide Inv, StopsReader, Step;
    InvHas(s, t);
    MoveCounts(s.pcs, t, TowardsRead(s, t, blocking).pcs[t]);
  }

  lemma TowardsReadNears(s: State, t: nat, blocking: bool)
    requires Inv(s) && !WriterPresent(s) && t < |s.pcs| && WantsRead(s.pcs[t])
    ensures var s' := TowardsRead(s, t, blocking);
      && |s'.pcs| == |s.pcs|
      && (s'.pcs[t].RHold? || (WantsRead(s'.pcs[t]) && ReadDistance(s', t) < ReadDistance(s, t)))
  {
    hide Inv, StopsReader, Step, Sum;
    InvHas(s, t);
  }

  /** With no writer present, whoever is outside or in lock_shared gets its read
      lock by its own steps alone, whatever other readers hold, and so does
      try_lock_shared; everybody else stays where they are. */
  lemma {:induction false} ReadAlone(s: State, t: nat, blocking: bool) returns (s': State)
    requires Inv(s) && !WriterPresent(s) && t < |s.pcs| && WantsRead(s.pcs[t])
    ensures Reaches(By(t), s, s') && Inv(s')
    ensures s' == s.Move(t, s.word + READER_INCREMENT, RHold)
    decreases ReadDistance(s, t)
  {
    hide Inv, Step, StopsReader, ReadDistance, WantsRead, WriterPresent;
    TowardsReadIsStep(s, t, blocking);
    TowardsReadCounts(s, t, blocking);
    TowardsReadNears(s, t, blocking);
    var next := TowardsRead(s, t, blocking);
    ReachesSelf(By(t), s);
    Advance(s, s, t, next);
    if next.pcs[t].RHold? {
      s' := next;
    } else {
      s' := ReadAlone(next, t, blocking);
      ReachesTransitive(By(t), s, next, s');
    }
  }

  // Writers.

  predicate WantsWrite(p: PC) {
    p.Idle? || p.WRegister? || p.WLoad? || p.WTake? || p.WBlock? || p.WAsleep?
  }

  function TowardsWrite(s: State, t: nat): State
    requires t < |s.pcs| && (s.pcs[t].WTake? ==> s.pcs[t].seen < TWO32)
  {
    match s.pcs[t]
    case Idle => if s.word == UNLOCKED then s.Move(t, WRITER_LOCKED, WHold) else s.Move(t, s.word, WRegister)
    case WRegister => s.Move(t, Add(s.word, WRITER_WAITING_INC, TWO32), WLoad)
    case WLoad => s.Move(t, s.word, WTake(s.word))
    case WTake(seen) =>
      if s.word == seen then s.Move(t, TakenByWriter(seen), WHold) else s.Move(t, s.word, WLoad)
    case _ => s.Move(t, s.word, WLoad)
  }

  function WriteDistance(s: State, t: nat): nat
    requires t < |s.pcs|
  {
    match s.pcs[t]
    case Idle => 4
    case WTake(seen) => if seen == s.word then 1 else 3
    case WLoad => 2
    case _ => 3
  }

  lemma TowardsWriteIsStep(s: State, t: nat)
    requires Inv(s) && !SomebodyHolds(s) && t < |s.pcs| && WantsWrite(s.pcs[t])
    ensures s.word < TWO32 && (s.pcs[t].WTake? ==> s.pcs[t].seen < TWO32)
    ensures var s' := TowardsWrite(s, t);
      Step(s, t, s') && |s'.pcs| == |s.pcs| && s'.pcs == s.pcs[t := s'.pcs[t]]
  {
    hide Inv, StopsWriter, SomebodyHolds, TakenByWriter;
    InvHas(s, t);
  }

  lemma TowardsWriteNears(s: State, t: nat)
    requires Inv(s) && !SomebodyHolds(s) && t < |s.pcs| && WantsWrite(s.pcs[t])
    requires s.pcs[t].WTake? ==> s.pcs[t].seen < TWO32
    ensures var s' := TowardsWrite(s, t);
      && |s'.pcs| == |s.pcs|
      && s'.word == s.word + IsWriter(s'.pcs[t]) + 2 * IsRegistered(s'.pcs[t]) - 2 * IsRegistered(s.pcs[t])
      && (s'.pcs[t].WHold? ||
          (!SomebodyHolds(s') && WantsWrite(s'.pcs[t]) && WriteDistance(s', t) < WriteDistance(s, t)))
  {
    hide Inv, StopsWriter, Step;
    InvHas(s, t);
    MoveCounts(s.pcs, t, TowardsWrite(s, t).pcs[t]);
  }

  /** With nobody holding the lock, whoever is outside or anywhere in lock gets the
      write lock by its own steps alone. */
  lemma {:induction false} WriteAlone(s: State, t: nat) returns (s': State)
    requires Inv(s) && !SomebodyHolds(s) && t < |s.pcs| && WantsWrite(s.pcs[t])
    ensures Reaches(By(t), s, s') && Inv(s')
    ensures s'.pcs == s.pcs[t := WHold] && s'.word == s.word + 1 - 2 * IsRegistered(s.pcs[t])
    decreases WriteDistance(s, t)
  {
    hide Inv, Step, WriteDistance, WantsWrite, SomebodyHolds;
    TowardsWriteIsStep(s, t);
    TowardsWriteNears(s, t);
    var next := TowardsWrite(s, t);
    ReachesSelf(By(t), s);
    Advance(s, s, t, next);
    if next.pcs[t].WHold? {
      s' := next;
    } else {
      s' := WriteAlone(next, t);
      ReachesTransitive(By(t), s, next, s');
    }
  }

  // Going to sleep.

  /** A lone lock_shared sleeps while a writer is present. */
  lemma ReadWaitsAlone(s: State, t: nat) returns (s': State)
    requires Inv(s) && WriterPresent(s) && t < |s.pcs| && s.pcs[t].Idle?
    ensures Reaches(By(t), s, s') && Inv(s') && s' == s.Move(t, s.word, RAsleep)
  {
    hide Inv, StopsReader, WriterPresent;
    InvHas(s, t);
    ReachesSelf(By(t), s);
    var trying := s.Move(t, s.word, RTry(s.word, true));
    Advance(s, s, t, trying);
    var loading := s.Move(t, s.word, RLoad);
    assert trying.pcs[t := RLoad] == loading.pcs;
    Advance(s, trying, t, loading);
    var blocking := s.Move(t, s.word, RBlock(s.word));
    assert loading.pcs[t := blocking.pcs[t]] == blocking.pcs;
    Advance(s, loading, t, blocking);
    s' := s.Move(t, s.word, RAsleep);
    assert blocking.pcs[t := RAsleep] == s'.pcs;
    Advance(s, blocking, t, s');
  }

  /** A lone lock registers its thread and sleeps while somebody holds the lock. */
  lemma WriteWaitsAlone(s: State, t: nat) returns (s': State)
    requires Inv(s) && SomebodyHolds(s) && t < |s.pcs| && s.pcs[t].Idle?
    ensures Reaches(By(t), s, s') && Inv(s') && s' == s.Move(t, s.word + 2, WAsleep)
  {
    hide Inv, StopsWriter, SomebodyHolds, Sum;
    InvHas(s, t);
    ReachesSelf(By(t), s);
    var registering := s.Move(t, s.word, WRegister);
    Advance(s, s, t, registering);
    RegisteredStops(s, t);
    var loading := s.Move(t, s.word + 2, WLoad);
    assert registering.pcs[t := WLoad] == loading.pcs;
    Advance(s, registering, t, loading);
    var blocking := s.Move(t, s.word + 2, WBlock(s.word + 2));
    assert loading.pcs[t := blocking.pcs[t]] == blocking.pcs;
    Advance(s, loading, t, blocking);
    s' := s.Move(t, s.word + 2, WAsleep);
    assert blocking.pcs[t := WAsleep] == s'.pcs;
    Advance(s, blocking, t, s');
  }

  lemma RegisteredStops(s: State, t: nat)
    requires Inv(s) && SomebodyHolds(s) && t < |s.pcs| && s.pcs[t].Idle?
    ensures s.word + 2 < TWO32 && StopsWriter(s.word + 2)
  {
    hide And, Shr, HasRegistered, ReaderCount, StopsReader;
    FieldsDecode(s);
    MoveCounts(s.pcs, t, WLoad);
  }

  // What a refusal means.

  /** The first step of lock, and all of try_lock: it takes the lock if and only if
      nobody holds it and no writer is registered. */
  lemma AttemptIsExact(run: seq<State>, i: nat, t: nat)
    requires IsRun(run, Init, Next) && i < |run| - 1 && t < |run[i].pcs| && run[i].word < TWO32
    requires run[i].pcs[t].Idle? && WriterStep(run[i], t, run[i + 1])
    ensures var s, s' := run[i], run[i + 1];
      && |s'.pcs| == |s.pcs| && s'.pcs == s.pcs[t := s'.pcs[t]]
      && (s'.pcs[t].WHold? <==> !WriterPresent(s) && !SomebodyHolds(s))
      && (s'.pcs[t].WHold? || s'.word == s.word)
  {
    RunsKeepInv(run, i);
    hide Inv, WriterPresent, SomebodyHolds;
    InvHas(run[i], t);
    assert run[i].pcs[t := run[i].pcs[t]] == run[i].pcs;
  }

  /** Whoever goes to wait has found a reason in the word it loaded. */
  lemma WaitersHaveReason(run: seq<State>, i: nat, t: nat)
    requires IsRun(run, Init, Next) && i < |run| - 1 && t < |run[i].pcs| && t < |run[i + 1].pcs|
    ensures run[i].pcs[t].RLoad? && run[i + 1].pcs[t].RBlock? ==> WriterPresent(run[i])
    ensures run[i].pcs[t].WLoad? && run[i + 1].pcs[t].WBlock? ==> SomebodyHolds(run[i])
  {
    RunsKeepInv(run, i);
    var s, s' := run[i], run[i + 1];
    assert Next(s, s');
    var u :| 0 <= u < |s.pcs| && Step(s, u, s');
    hide Inv, WriterPresent, SomebodyHolds, StopsReader, StopsWriter;
    InvHas(s, t);
    OthersStay(s, u, s', t);
  }

  /** A step of one thread moves another only out of the futex. */
  lemma OthersStay(s: State, u: nat, s': State, t: nat)
    requires s.word < TWO32 && u < |s.pcs| && Step(s, u, s') && t < |s.pcs|
    ensures t < |s'.pcs| && (u != t ==> s'.pcs[t] == s.pcs[t] || Sleeps(s.pcs[t]) == 1)
  {
    hide StopsReader, StopsWriter, And, Or;
  }

  /** A reader that tries has loaded the word it tries with. */
  lemma TryGoesBack(s: State, s': State, t: nat)
    requires Inv(s) && Next(s, s') && t < |s.pcs| && t < |s'.pcs| && s'.pcs[t].RTry?
    ensures s.pcs[t] == s'.pcs[t] ||
            ((s.pcs[t].Idle? || s.pcs[t].RTry?) && s'.pcs[t].seen == s.word && s.word == s'.word)
  {
    var u :| 0 <= u < |s.pcs| && Step(s, u, s');
    OthersStay(s, u, s', t);
    if u == t {
      OwnTry(s, t, s');
    } else {
      SleepersLoad(s, u, s', t);
    }
  }

  lemma OwnTry(s: State, t: nat, s': State)
    requires s.word < TWO32 && t < |s.pcs| && Step(s, t, s') && t < |s'.pcs| && s'.pcs[t].RTry?
    ensures s.pcs[t] == s'.pcs[t] ||
            ((s.pcs[t].Idle? || s.pcs[t].RTry?) && s'.pcs[t].seen == s.word && s.word == s'.word)
  {
    hide StopsReader, StopsWriter, And, Or;
  }

  lemma SleepersLoad(s: State, u: nat, s': State, t: nat)
    requires s.word < TWO32 && u < |s.pcs| && Step(s, u, s') && t < |s.pcs| && u != t && t < |s'.pcs|
    ensures Sleeps(s.pcs[t]) == 1 ==> !s'.pcs[t].RTry?
  {
    hide StopsReader, StopsWriter, And, Or;
  }

  lemma NobodyTriesAtStart(run: seq<State>, i: nat, t: nat)
    requires IsRun(run, Init, Next) && i < |run| && t < |run[i].pcs| && run[i].pcs[t].RTry?
    ensures i > 0
  {
  }

  /** When the word was loaded that a reader tries with. */
  lemma {:induction false} LoadOf(run: seq<State>, i: nat, t: nat) returns (j: nat)
    requires IsRun(run, Init, Next) && i < |run| && t < |run[i].pcs| && run[i].pcs[t].RTry?
    ensures j < i && run[j].word == run[i].pcs[t].seen
    ensures forall k :: j < k <= i ==> t < |run[k].pcs| && run[k].pcs[t] == run[i].pcs[t]
    decreases i
  {
    hide Inv, Init, Next;
    NobodyTriesAtStart(run, i, t);
    RunsKeepInv(run, i - 1);
    assert Next(run[i - 1], run[i - 1 + 1]);
    SameThreads(run[i - 1], run[i]);
    TryGoesBack(run[i - 1], run[i], t);
    if run[i - 1].pcs[t] == run[i].pcs[t] {
      j := LoadOf(run, i - 1, t);
    } else {
      j := i - 1;
    }
  }

  lemma SameThreads(s: State, s': State)
    requires Next(s, s')
    ensures |s'.pcs| == |s.pcs|
  {
    hide StopsReader, StopsWriter, And, Or;
  }

  /** A try_lock_shared that fails, and a lock_shared that goes on to wait, had
      found a writer holding or registered at the load that decided it. */
  lemma RefusedMeansWriter(run: seq<State>, i: nat, t: nat) returns (j: nat)
    requires IsRun(run, Init, Next) && i < |run| - 1 && t < |run[i].pcs| && t < |run[i + 1].pcs|
    requires run[i].pcs[t].RTry? && (run[i + 1].pcs[t].Idle? || run[i + 1].pcs[t].RLoad?)
    ensures j < i && WriterPresent(run[j]) && run[j].word == run[i].pcs[t].seen
    ensures forall k :: j < k <= i ==> t < |run[k].pcs| && run[k].pcs[t] == run[i].pcs[t]
  {
    hide Inv, Init, Next, WriterPresent;
    j := LoadOf(run, i, t);
    RunsKeepInv(run, j);
    assert Next(run[j], run[j + 1]) && Next(run[i], run[i + 1]);
    SameThreads(run[j], run[j + 1]);
    InvHas(run[j], t);
    RefusedStopped(run[i], run[i + 1], t);
  }

  lemma RefusedStopped(s: State, s': State, t: nat)
    requires Next(s, s') && t < |s.pcs| && t < |s'.pcs| && s.pcs[t].RTry? && (s'.pcs[t].Idle? || s'.pcs[t].RLoad?)
    ensures StopsReader(s.pcs[t].seen)
  {
    var u :| 0 <= u < |s.pcs| && Step(s, u, s');
    hide StopsReader, StopsWriter, And, Or;
    OthersStay(s, u, s', t);
  }

  // The way out.

  /** A lone unlock takes the writer off the word and gets every sleeper out of the
      futex. */
  lemma UnlockAlone(s: State, t: nat) returns (s': State)
    requires Inv(s) && t < |s.pcs| && s.pcs[t].WHold?
    ensures Reaches(By(t), s, s') && Inv(s')
    ensures s'.word == s.word - 1 && FutexWake(s.pcs[t := Idle], s'.pcs, MAX_FUTEX_WAKE, Sleeps, Awaken)
    ensures forall u :: 0 <= u < |s'.pcs| ==> Sleeps(s'.pcs[u]) == 0
  {
    hide Inv, FutexWake, And;
    WriterWord(s, t);
    ReachesSelf(By(t), s);
    var waking := s.Move(t, WriterBitCleared(s.word), WWake);
    Advance(s, s, t, waking);
    var pcs := WakeExists(s.pcs[t := Idle], MAX_FUTEX_WAKE, Sleeps, Awaken);
    assert waking.pcs[t := Idle] == s.pcs[t := Idle];
    s' := State(waking.word, pcs);
    Advance(s, waking, t, s');
    WakeAllKeepsInv(waking, t, s');
  }

  lemma WriterWord(s: State, t: nat)
    requires Inv(s) && t < |s.pcs| && s.pcs[t].WHold?
    ensures s.word < TWO32 && s.word % 2 == 1
  {
    FieldsDecode(s);
    SumIncludes(s.pcs, t, IsWriter);
  }

  lemma ReaderWord(s: State, t: nat)
    requires Inv(s) && t < |s.pcs| && s.pcs[t].RHold?
    ensures READER_INCREMENT <= s.word < TWO32
    ensures ReaderCount(s.word) == Sum(s.pcs, IsReader) && (HasRegistered(s.word) <==> Sum(s.pcs, IsRegistered) > 0)
  {
    FieldsDecode(s);
    SumIncludes(s.pcs, t, IsReader);
  }

  /** A lone unlock_shared takes one reader off the word; the last reader out gets
      every sleeper out of the futex if a writer is registered. */
  lemma UnlockSharedAlone(s: State, t: nat) returns (s': State)
    requires Inv(s) && t < |s.pcs| && s.pcs[t].RHold?
    ensures Reaches(By(t), s, s') && Inv(s') && s'.word == s.word - READER_INCREMENT
    ensures if Sum(s.pcs, IsReader) == 1 && Sum(s.pcs, IsRegistered) > 0 then
              FutexWake(s.pcs[t := Idle], s'.pcs, MAX_FUTEX_WAKE, Sleeps, Awaken)
            else s'.pcs == s.pcs[t := Idle]
  {
    hide Inv, FutexWake, ReaderCount, HasRegistered;
    ReaderWord(s, t);
    ReachesSelf(By(t), s);
    if ReaderCount(s.word) == 1 && HasRegistered(s.word) {
      var waking := s.Move(t, s.word - READER_INCREMENT, RWake);
      Advance(s, s, t, waking);
      var pcs := WakeExists(s.pcs[t := Idle], MAX_FUTEX_WAKE, Sleeps, Awaken);
      assert waking.pcs[t := Idle] == s.pcs[t := Idle];
      s' := State(waking.word, pcs);
      Advance(s, waking, t, s');
    } else {
      s' := s.Move(t, s.word - READER_INCREMENT, Idle);
      Advance(s, s, t, s');
    }
  }
}
