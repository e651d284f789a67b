/** The reader/writer mutex: a writer bit, a count of registered writers and a
    count of readers packed in one word. */
module SharedMutex {
  import opened Bits
  import opened Threads

  const UNLOCKED: nat := 0x0000_0000
  const WRITER_LOCKED: nat := 0x0000_0001
  const NOT_WRITER_LOCKED: nat := 0xffff_fffe
  const WRITER_WAITING_INC: nat := 0x0000_0002
  const WRITER_WAITING_MASK: nat := 0x0000_fffe
  const READER_SHIFT: nat := 16
  const READER_INCREMENT: nat := 0x0001_0000
  const READER_MASK: nat := 0xffff_0000
  const MAX_THREADS: nat := 32767

  /** Where a thread is; each point stands just before one atomic operation. */
  datatype PC =
    | Idle
      // lock, try_lock, unlock
    | WRegister                          // fast exchange failed, before the registration
    | WLoad                              // registered, before loading the word
    | WTake(seen: nat)                   // saw neither writer nor reader, before the exchange
    | WBlock(seen: nat)                  // saw a writer or a reader, before the futex wait
    | WAsleep
    | WHold
    | WWake                              // writer bit cleared, before wake_all
      // lock_shared, try_lock_shared, unlock_shared
    | RTry(seen: nat, blocking: bool)    // fast path with the word last seen
    | RLoad                              // contended, before loading the word
    | RTake(seen: nat)
    | RBlock(seen: nat)
    | RAsleep
    | RHold
    | RWake                              // last reader out, before wake_all

  datatype State = State(word: nat, pcs: seq<PC>) {
    function Move(t: nat, w: nat, p: PC): State
      requires t < |pcs|
    {
      State(w, pcs[t := p])
    }
  }

  function IsWriter(p: PC): nat { if p.WHold? then 1 else 0 }
  function IsReader(p: PC): nat { if p.RHold? then 1 else 0 }
  function IsRegistered(p: PC): nat { if p.WLoad? || p.WTake? || p.WBlock? || p.WAsleep? then 1 else 0 }
  function WriterSleeps(p: PC): nat { if p.WAsleep? then 1 else 0 }
  function ReaderSleeps(p: PC): nat { if p.RAsleep? then 1 else 0 }
  function Sleeps(p: PC): nat { if p.WAsleep? || p.RAsleep? then 1 else 0 }
  function WillWakeAll(p: PC): nat { if p.WWake? || p.RWake? then 1 else 0 }
  function Awaken(p: PC): PC { if p.WAsleep? then WLoad else RLoad }

  // The bit tests and updates of the source, with their arithmetic meaning.

  lemma LowHalf(w: nat)
    ensures And(w, 0xffff) == w % 0x1_0000
  {
    Pow2At16();
    AndLowMask(w, 16);
  }

  /** `word & (WRITER_LOCKED | WRITER_WAITING_MASK)` is what stops a reader. */
  function StopsReader(w: nat): (r: bool)
    ensures r <==> w % 0x1_0000 != 0
  {
    LowHalf(w);
    And(w, WRITER_LOCKED + WRITER_WAITING_MASK) != 0
  }

  function HasRegistered(w: nat): (r: bool)
    ensures r <==> (w % 0x1_0000) / 2 != 0
  {
    assert Pow2(7) == 128 && Pow2(15) == 0x8000;
    AndLowMask(w / 2, 15);
    And(w, WRITER_WAITING_MASK) != 0
  }

  function ReaderCount(w: nat): (r: nat)
    requires w < TWO32
    ensures r == w / 0x1_0000
  {
    ReaderField(w);
    Shr(And(w, READER_MASK), READER_SHIFT)
  }

  /** `word & (WRITER_LOCKED | READER_MASK)` is what stops a writer. */
  function StopsWriter(w: nat): (r: bool)
    requires w < TWO32
    ensures r <==> w % 2 != 0 || w / 0x1_0000 != 0
  {
    ReaderField(w);
    And(w, WRITER_LOCKED + READER_MASK) != 0
  }

  lemma ReaderField(w: nat)
    requires w < TWO32
    ensures And(w, READER_MASK) == w - w % 0x1_0000
    ensures Shr(And(w, READER_MASK), READER_SHIFT) == w / 0x1_0000
    ensures And(w, WRITER_LOCKED + READER_MASK) == w - w % 0x1_0000 + w % 2
  {
    hide And, Shr, Shl, Pow2;
    var high := w / 0x1_0000;
    Pow2At16();
    ShiftMeaning(w, 16);
    ShiftMeaning(0xffff, 16);
    LowHalf(high);
    AndShiftedMask(w, 0xffff, 16);
    ShiftMeaning(high, 16);
    ShiftMeaning(high * 0x1_0000, 16);
    AndEvenMask(w, READER_MASK / 2);
    AndOddMask(w, READER_MASK / 2);
  }

  function TakenByWriter(w: nat): (r: nat)
    requires w < TWO32
    ensures w % 2 == 0 && w >= 2 ==> r == w - 1
  {
    LowBit(Sub(w, WRITER_WAITING_INC, TWO32));
    Or(Sub(w, WRITER_WAITING_INC, TWO32), WRITER_LOCKED)
  }

  function WriterBitCleared(w: nat): (r: nat)
    requires w < TWO32
    ensures r == w - w % 2
  {
    LowBitCleared(w);
    And(w, NOT_WRITER_LOCKED)
  }

  ghost predicate Init(s: State) {
    && s.word == UNLOCKED
    && |s.pcs| <= MAX_THREADS
    && forall i :: 0 <= i < |s.pcs| ==> s.pcs[i] == Idle
  }

  ghost predicate WakeAll(s: State, t: nat, s': State)
    requires t < |s.pcs|
  {
    && s'.word == s.word
    && FutexWake(s.pcs[t := Idle], s'.pcs, MAX_FUTEX_WAKE, Sleeps, Awaken)
  }

  ghost predicate WriterStep(s: State, t: nat, s': State)
    requires t < |s.pcs| && s.word < TWO32
  {
    match s.pcs[t]
    case Idle =>
      if s.word == UNLOCKED then s' == s.Move(t, WRITER_LOCKED, WHold)
      else s' == s.Move(t, s.word, WRegister) || s' == s
    case WRegister =>
      s' == s.Move(t, Add(s.word, WRITER_WAITING_INC, TWO32), WLoad)
    case WLoad =>
      if !StopsWriter(s.word) then s' == s.Move(t, s.word, WTake(s.word))
      else s' == s || s' == s.Move(t, s.word, WBlock(s.word))
    case WTake(seen) =>
      if s.word == seen then s' == s.Move(t, TakenByWriter(seen), WHold)
      else s' == s.Move(t, s.word, WLoad)
    case WBlock(seen) =>
      s' == s.Move(t, s.word, if s.word == seen then WAsleep else WLoad)
    case WAsleep =>
      s' == s.Move(t, s.word, WLoad)
    case WHold =>
      s' == s.Move(t, WriterBitCleared(s.word), WWake)
    case WWake =>
      WakeAll(s, t, s')
    case _ => false
  }

  ghost predicate ReaderStep(s: State, t: nat, s': State)
    requires t < |s.pcs| && s.word < TWO32
  {
    match s.pcs[t]
    case Idle =>
      exists blocking :: s' == s.Move(t, s.word, RTry(s.word, blocking))
    case RTry(seen, blocking) =>
      if StopsReader(seen) then s' == s.Move(t, s.word, if blocking then RLoad else Idle)
      else if s.word == seen then s' == s.Move(t, Add(seen, READER_INCREMENT, TWO32), RHold)
      else s' == s.Move(t, s.word, RTry(s.word, blocking))
    case RLoad =>
      if !StopsReader(s.word) then s' == s.Move(t, s.word, RTake(s.word))
      else s' == s || s' == s.Move(t, s.word, RBlock(s.word))
    case RTake(seen) =>
      if s.word == seen then s' == s.Move(t, Add(seen, READER_INCREMENT, TWO32), RHold)
      else s' == s.Move(t, s.word, RLoad)
    case RBlock(seen) =>
      s' == s.Move(t, s.word, if s.word == seen then RAsleep else RLoad)
    case RAsleep =>
      s' == s.Move(t, s.word, RLoad)
    case RHold =>
      var lastOut := ReaderCount(s.word) == 1 && HasRegistered(s.word);
      s' == s.Move(t, Sub(s.word, READER_INCREMENT, TWO32), if lastOut then RWake else Idle)
    case RWake =>
      WakeAll(s, t, s')
    case _ => false
  }

  ghost predicate Step(s: State, t: nat, s': State)
    requires t < |s.pcs| && s.word < TWO32
  {
    WriterStep(s, t, s') || ReaderStep(s, t, s')
  }

  ghost predicate Next(s: State, s': State) {
    s.word < TWO32 && exists t :: 0 <= t < |s.pcs| && Step(s, t, s')
  }

  // The invariant.

  ghost predicate SeenWord(p: PC) {
    && (p.WTake? ==> p.seen < TWO32 && !StopsWriter(p.seen) && p.seen >= 2)
    && (p.WBlock? ==> p.seen < TWO32 && StopsWriter(p.seen))
    && (p.RTake? ==> !StopsReader(p.seen))
    && (p.RBlock? ==> StopsReader(p.seen))
  }

  ghost predicate WordCounts(s: State) {
    && s.word == Sum(s.pcs, IsWriter) + 2 * Sum(s.pcs, IsRegistered) + 0x1_0000 * Sum(s.pcs, IsReader)
    && s.word < TWO32
  }

  ghost predicate WritersExclude(s: State) {
    && Sum(s.pcs, IsWriter) <= 1
    && (Sum(s.pcs, IsWriter) == 1 ==> Sum(s.pcs, IsReader) == 0)
  }

  ghost predicate SleepersExcused(s: State) {
    && (Sum(s.pcs, WriterSleeps) > 0 ==>
          Sum(s.pcs, IsWriter) > 0 || Sum(s.pcs, IsReader) > 0 || Sum(s.pcs, WillWakeAll) > 0)
    && (Sum(s.pcs, ReaderSleeps) > 0 ==>
          Sum(s.pcs, IsWriter) > 0 || Sum(s.pcs, IsRegistered) > 0 || Sum(s.pcs, WillWakeAll) > 0)
  }

  ghost predicate Inv(s: State) {
    && |s.pcs| <= MAX_THREADS
    && WordCounts(s)
    && WritersExclude(s)
    && SleepersExcused(s)
    && forall i :: 0 <= i < |s.pcs| ==> SeenWord(s.pcs[i])
  }

  lemma {:induction false} Roles(pcs: seq<PC>)
    ensures Sum(pcs, IsWriter) + Sum(pcs, IsRegistered) + Sum(pcs, IsReader) <= |pcs|
    ensures Sum(pcs, WriterSleeps) <= Sum(pcs, IsRegistered)
  {
    if pcs != [] {
      Roles(pcs[..|pcs| - 1]);
    }
  }

  /** What moving one thread does to every count. */
  lemma MoveCounts(pcs: seq<PC>, t: nat, p: PC)
    requires t < |pcs|
    ensures Sum(pcs[t := p], IsWriter) == Sum(pcs, IsWriter) + IsWriter(p) - IsWriter(pcs[t])
    ensures Sum(pcs[t := p], IsReader) == Sum(pcs, IsReader) + IsReader(p) - IsReader(pcs[t])
    ensures Sum(pcs[t := p], IsRegistered) == Sum(pcs, IsRegistered) + IsRegistered(p) - IsRegistered(pcs[t])
    ensures Sum(pcs[t := p], WriterSleeps) == Sum(pcs, WriterSleeps) + WriterSleeps(p) - WriterSleeps(pcs[t])
    ensures Sum(pcs[t := p], ReaderSleeps) == Sum(pcs, ReaderSleeps) + ReaderSleeps(p) - ReaderSleeps(pcs[t])
    ensures Sum(pcs[t := p], WillWakeAll) == Sum(pcs, WillWakeAll) + WillWakeAll(p) - WillWakeAll(pcs[t])
    ensures Sum(pcs[t := p], IsWriter) + Sum(pcs[t := p], IsRegistered) + Sum(pcs[t := p], IsReader) <= |pcs|
    ensures Sum(pcs, IsWriter) + Sum(pcs, IsRegistered) + Sum(pcs, IsReader) <= |pcs|
    ensures Sum(pcs, WriterSleeps) <= Sum(pcs, IsRegistered)
    ensures IsWriter(pcs[t]) <= Sum(pcs, IsWriter)
    ensures IsReader(pcs[t]) <= Sum(pcs, IsReader)
    ensures IsRegistered(pcs[t]) <= Sum(pcs, IsRegistered)
  {
    Roles(pcs);
    Roles(pcs[t := p]);
    SumUpdate(pcs, t, p, IsWriter);
    SumUpdate(pcs, t, p, IsReader);
    SumUpdate(pcs, t, p, IsRegistered);
    SumUpdate(pcs, t, p, WriterSleeps);
    SumUpdate(pcs, t, p, ReaderSleeps);
    SumUpdate(pcs, t, p, WillWakeAll);
    SumIncludes(pcs, t, IsWriter);
    SumIncludes(pcs, t, IsReader);
    SumIncludes(pcs, t, IsRegistered);
  }

  /** The bit tests read the counts off the word, with no carry between them. */
  lemma FieldsDecode(s: State)
    requires |s.pcs| <= MAX_THREADS && WordCounts(s)
    ensures s.word % 2 == Sum(s.pcs, IsWriter) % 2
    ensures Sum(s.pcs, IsWriter) <= 1 ==> (HasRegistered(s.word) <==> Sum(s.pcs, IsRegistered) > 0)
    ensures ReaderCount(s.word) == Sum(s.pcs, IsReader)
    ensures StopsReader(s.word) <==> Sum(s.pcs, IsWriter) > 0 || Sum(s.pcs, IsRegistered) > 0
    ensures Sum(s.pcs, IsWriter) <= 1 ==>
              (StopsWriter(s.word) <==> Sum(s.pcs, IsWriter) > 0 || Sum(s.pcs, IsReader) > 0)
  {
    hide And, Shr, HasRegistered, ReaderCount, StopsReader, StopsWriter;
    Roles(s.pcs);
  }

  /** A move that changes neither the word nor any count; whoever falls asleep
      has just compared the word. */
  lemma QuietMove(s: State, t: nat, p: PC)
    requires Inv(s) && t < |s.pcs|
    requires IsWriter(p) == IsWriter(s.pcs[t]) && IsReader(p) == IsReader(s.pcs[t])
    requires IsRegistered(p) == IsRegistered(s.pcs[t]) && WillWakeAll(p) == WillWakeAll(s.pcs[t])
    requires SeenWord(p)
    requires p.WAsleep? ==> StopsWriter(s.word)
    requires p.RAsleep? ==> StopsReader(s.word)
    ensures Inv(s.Move(t, s.word, p))
  {
    FieldsDecode(s);
    MoveCounts(s.pcs, t, p);
  }

  lemma WriterWaits(s: State, t: nat, s': State)
    requires Inv(s) && t < |s.pcs| && WriterStep(s, t, s')
    requires s.pcs[t].WLoad? || s.pcs[t].WBlock? || s.pcs[t].WAsleep?
    ensures Inv(s')
  {
    SumIncludes(s.pcs, t, IsRegistered);
    if s' != s {
      FieldsDecode(s);
      QuietMove(s, t, s'.pcs[t]);
    }
  }

  lemma ReaderWaits(s: State, t: nat, s': State)
    requires Inv(s) && t < |s.pcs| && ReaderStep(s, t, s')
    requires s.pcs[t].RLoad? || s.pcs[t].RBlock? || s.pcs[t].RAsleep?
    ensures Inv(s')
  {
    if s' != s {
      FieldsDecode(s);
      QuietMove(s, t, s'.pcs[t]);
    }
  }

  lemma WriterArrives(s: State, t: nat, s': State)
    requires Inv(s) && t < |s.pcs| && WriterStep(s, t, s')
    requires s.pcs[t].Idle?
    ensures Inv(s')
  {
    if s' == s {
    } else if s'.pcs[t].WRegister? {
      QuietMove(s, t, WRegister);
    } else {
      MoveCounts(s.pcs, t, WHold);
    }
  }

  lemma WriterRegisters(s: State, t: nat, s': State)
    requires Inv(s) && t < |s.pcs| && WriterStep(s, t, s')
    requires s.pcs[t].WRegister?
    ensures Inv(s')
  {
    MoveCounts(s.pcs, t, WLoad);
  }

  lemma WriterTakes(s: State, t: nat, s': State)
    requires Inv(s) && t < |s.pcs| && WriterStep(s, t, s')
    requires s.pcs[t].WTake?
    ensures Inv(s')
  {
    hide And, Or, Shr;
    if s.word == s.pcs[t].seen {
      FieldsDecode(s);
      MoveCounts(s.pcs, t, WHold);
    } else {
      QuietMove(s, t, WLoad);
    }
  }

  lemma WriterLeaves(s: State, t: nat, s': State)
    requires Inv(s) && t < |s.pcs| && WriterStep(s, t, s')
    requires s.pcs[t].WHold?
    ensures Inv(s')
  {
    if s' != s {
      FieldsDecode(s);
      MoveCounts(s.pcs, t, s'.pcs[t]);
    }
  }

  lemma ReaderEnters(s: State, t: nat)
    requires Inv(s) && t < |s.pcs|
    requires s.pcs[t].RTry? || s.pcs[t].RTake?
    requires !StopsReader(s.word)
    ensures Inv(s.Move(t, Add(s.word, READER_INCREMENT, TWO32), RHold))
  {
    FieldsDecode(s);
    MoveCounts(s.pcs, t, RHold);
  }

  lemma ReaderTries(s: State, t: nat, s': State)
    requires Inv(s) && t < |s.pcs| && ReaderStep(s, t, s')
    requires s.pcs[t].Idle? || s.pcs[t].RTry? || s.pcs[t].RTake?
    ensures Inv(s')
  {
    if s'.pcs[t].RHold? {
      ReaderEnters(s, t);
    } else {
      QuietMove(s, t, s'.pcs[t]);
    }
  }

  lemma ReaderLeaves(s: State, t: nat, s': State)
    requires Inv(s) && t < |s.pcs| && ReaderStep(s, t, s')
    requires s.pcs[t].RHold?
    ensures Inv(s')
  {
    if s' != s {
      FieldsDecode(s);
      MoveCounts(s.pcs, t, s'.pcs[t]);
    }
  }

  /** Waking changes where the sleepers are, not what they are. */
  lemma WakeKeepsRoles(before: seq<PC>, after: seq<PC>)
    requires FutexWake(before, after, MAX_FUTEX_WAKE, Sleeps, Awaken)
    ensures Sum(after, IsWriter) == Sum(before, IsWriter)
    ensures Sum(after, IsReader) == Sum(before, IsReader)
    ensures Sum(after, IsRegistered) == Sum(before, IsRegistered)
    ensures (forall i :: 0 <= i < |before| ==> SeenWord(before[i])) ==>
            forall i :: 0 <= i < |after| ==> SeenWord(after[i])
  {
    SumCongruent(before, after, IsWriter);
    SumCongruent(before, after, IsReader);
    SumCongruent(before, after, IsRegistered);
  }

  lemma WakeAllKeepsInv(s: State, t: nat, s': State)
    requires Inv(s) && t < |s.pcs| && (s.pcs[t].WWake? || s.pcs[t].RWake?) && WakeAll(s, t, s')
    ensures Inv(s')
    ensures forall i :: 0 <= i < |s'.pcs| ==> Sleeps(s'.pcs[i]) == 0
  {
    var mid := s.pcs[t := Idle];
    assert forall i :: 0 <= i < |mid| ==> SeenWord(mid[i]);
    MoveCounts(s.pcs, t, Idle);
    WakeKeepsRoles(mid, s'.pcs);
    WakeAllLeavesNone(mid, s'.pcs, Sleeps, Awaken);
    NobodySleeps(s'.pcs);
  }

  lemma NobodySleeps(pcs: seq<PC>)
    requires forall i :: 0 <= i < |pcs| ==> Sleeps(pcs[i]) == 0
    ensures Sum(pcs, WriterSleeps) == 0 && Sum(pcs, ReaderSleeps) == 0
  {
    forall i | 0 <= i < |pcs|
      ensures WriterSleeps(pcs[i]) == 0 && ReaderSleeps(pcs[i]) == 0
    {
      assert Sleeps(pcs[i]) == 0;
    }
    SumZero(pcs, WriterSleeps);
    SumZero(pcs, ReaderSleeps);
  }

  lemma StepKeepsInv(s: State, t: nat, s': State)
    requires Inv(s) && t < |s.pcs| && Step(s, t, s')
    ensures Inv(s')
  {
    match s.pcs[t]
    case Idle => if WriterStep(s, t, s') { WriterArrives(s, t, s'); } else { ReaderTries(s, t, s'); }
    case WRegister => WriterRegisters(s, t, s');
    case WLoad => WriterWaits(s, t, s');
    case WTake(_) => WriterTakes(s, t, s');
    case WBlock(_) => WriterWaits(s, t, s');
    case WAsleep => WriterWaits(s, t, s');
    case WHold => WriterLeaves(s, t, s');
    case WWake => WakeAllKeepsInv(s, t, s');
    case RTry(_, _) => ReaderTries(s, t, s');
    case RLoad => ReaderWaits(s, t, s');
    case RTake(_) => ReaderTries(s, t, s');
    case RBlock(_) => ReaderWaits(s, t, s');
    case RAsleep => ReaderWaits(s, t, s');
    case RHold => ReaderLeaves(s, t, s');
    case RWake => WakeAllKeepsInv(s, t, s');
  }

  lemma {:induction false} RunsKeepInv(run: seq<State>, i: nat)
    requires IsRun(run, Init, Next) && i < |run|
    ensures Inv(run[i])
  {
    if i == 0 {
      var pcs := run[0].pcs;
      SumZero(pcs, IsWriter);
      SumZero(pcs, IsReader);
      SumZero(pcs, IsRegistered);
      SumZero(pcs, WriterSleeps);
      SumZero(pcs, ReaderSleeps);
    } else {
      RunsKeepInv(run, i - 1);
      assert Next(run[i - 1], run[i - 1 + 1]);
      var t :| 0 <= t < |run[i - 1].pcs| && Step(run[i - 1], t, run[i]);
      StepKeepsInv(run[i - 1], t, run[i]);
    }
  }

  // What every run guarantees.

  /** The word is exactly the three counts side by side, each test of the source
      reads its own count, and a writer excludes everybody else. */
  lemma PackedWordIsExact(run: seq<State>, i: nat)
    requires IsRun(run, Init, Next) && i < |run|
    ensures var s := run[i];
      var writers, registered, readers := Sum(s.pcs, IsWriter), Sum(s.pcs, IsRegistered), Sum(s.pcs, IsReader);
      && s.word == writers + 2 * registered + READER_INCREMENT * readers
      && writers <= 1 && registered < 0x8000 && readers < 0x1_0000
      && (HasRegistered(s.word) <==> registered > 0)
      && ReaderCount(s.word) == readers
      && (StopsReader(s.word) <==> writers > 0 || registered > 0)
      && (StopsWriter(s.word) <==> writers > 0 || readers > 0)
    ensures forall a, b :: 0 <= a < |run[i].pcs| && 0 <= b < |run[i].pcs| && a != b && run[i].pcs[a].WHold? ==>
              !run[i].pcs[b].WHold? && !run[i].pcs[b].RHold?
  {
    RunsKeepInv(run, i);
    var s := run[i];
    FieldsDecode(s);
    Roles(s.pcs);
    forall a, b | 0 <= a < |s.pcs| && 0 <= b < |s.pcs| && a != b && s.pcs[a].WHold?
      ensures !s.pcs[b].WHold? && !s.pcs[b].RHold?
    {
      SumIncludes(s.pcs, a, IsWriter);
      assert IsWriter(s.pcs[a]) + IsWriter(s.pcs[b]) <= Sum(s.pcs, IsWriter);
      SumIncludes(s.pcs, b, IsReader);
    }
  }

  ghost predicate Somebody(pcs: seq<PC>, weight: PC -> nat) {
    exists i :: 0 <= i < |pcs| && weight(pcs[i]) > 0
  }

  lemma SomebodyIsSum(pcs: seq<PC>, weight: PC -> nat)
    ensures Somebody(pcs, weight) <==> Sum(pcs, weight) > 0
  {
    SumZero(pcs, weight);
  }

  /** Whoever sleeps has an excuse: somebody the sleeper must wait for, or a
      wake of all sleepers that is still to come. */
  lemma SleepersHaveExcuse(run: seq<State>, i: nat)
    requires IsRun(run, Init, Next) && i < |run|
    ensures var pcs := run[i].pcs;
      && (Somebody(pcs, WriterSleeps) ==>
            Somebody(pcs, IsWriter) || Somebody(pcs, IsReader) || Somebody(pcs, WillWakeAll))
      && (Somebody(pcs, ReaderSleeps) ==>
            Somebody(pcs, IsWriter) || Somebody(pcs, IsRegistered) || Somebody(pcs, WillWakeAll))
  {
    RunsKeepInv(run, i);
    var pcs := run[i].pcs;
    SomebodyIsSum(pcs, WriterSleeps);
    SomebodyIsSum(pcs, ReaderSleeps);
    SomebodyIsSum(pcs, IsWriter);
    SomebodyIsSum(pcs, IsReader);
    SomebodyIsSum(pcs, IsRegistered);
    SomebodyIsSum(pcs, WillWakeAll);
  }

  /** With nobody holding, no wake to come and no registered writer awake,
      nobody sleeps: no thread is left behind. */
  lemma NobodyIsStranded(run: seq<State>, i: nat)
    requires IsRun(run, Init, Next) && i < |run|
    requires forall a :: 0 <= a < |run[i].pcs| ==>
               var p := run[i].pcs[a];
               && !p.WHold? && !p.RHold? && WillWakeAll(p) == 0
               && (IsRegistered(p) == 1 ==> p.WAsleep?)
    ensures forall a :: 0 <= a < |run[i].pcs| ==> Sleeps(run[i].pcs[a]) == 0
  {
    SleepersHaveExcuse(run, i);
    var pcs := run[i].pcs;
    assert !Somebody(pcs, IsWriter) && !Somebody(pcs, IsReader) && !Somebody(pcs, WillWakeAll);
    assert !Somebody(pcs, WriterSleeps);
    forall a | 0 <= a < |pcs|
      ensures Sleeps(pcs[a]) == 0
    {
      assert WriterSleeps(pcs[a]) == 0;
      assert IsRegistered(pcs[a]) == 0;
    }
    assert !Somebody(pcs, IsRegistered);
    forall a | 0 <= a < |pcs|
      ensures Sleeps(pcs[a]) == 0
    {
      assert ReaderSleeps(pcs[a]) == 0;
    }
  }

  ghost predicate WriterPresent(s: State) {
    Sum(s.pcs, IsWriter) > 0 || Sum(s.pcs, IsRegistered) > 0
  }

  lemma ReaderStepUnderWriter(s: State, t: nat, s': State)
    requires Inv(s) && t < |s.pcs| && Step(s, t, s') && WriterPresent(s)
    ensures Sum(s'.pcs, IsReader) <= Sum(s.pcs, IsReader)
  {
    FieldsDecode(s);
    if s.pcs[t].WWake? || s.pcs[t].RWake? {
      SumUpdate(s.pcs, t, Idle, IsReader);
      WakeKeepsRoles(s.pcs[t := Idle], s'.pcs);
    } else if s' != s {
      SumUpdate(s.pcs, t, s'.pcs[t], IsReader);
    }
  }

  lemma NoReaderUnderWriter(s: State, s': State)
    requires Inv(s) && Next(s, s') && WriterPresent(s)
    ensures Sum(s'.pcs, IsReader) <= Sum(s.pcs, IsReader)
  {
    var t :| 0 <= t < |s.pcs| && Step(s, t, s');
    ReaderStepUnderWriter(s, t, s');
  }

  /** Writer preference: as long as a writer is registered or holds, no reader
      comes in, whatever else happens in between. */
  lemma {:induction false} WritersHoldReadersBack(run: seq<State>, i: nat, j: nat)
    requires IsRun(run, Init, Next) && i <= j < |run|
    requires forall k :: i <= k < j ==> WriterPresent(run[k])
    ensures Sum(run[j].pcs, IsReader) <= Sum(run[i].pcs, IsReader)
  {
    hide Inv, Next, WriterPresent;
    if i < j {
      WritersHoldReadersBack(run, i, j - 1);
      RunsKeepInv(run, j - 1);
      assert Next(run[j - 1], run[j - 1 + 1]);
      NoReaderUnderWriter(run[j - 1], run[j]);
    }
  }
}
