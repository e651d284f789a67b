/** The counting semaphore: a token count that is also the futex word. */
module Semaphore {
  import opened Bits
  import opened Threads

  const MAX_THREADS: nat := 0x7fff_ffff

  /** Where a thread is; each point stands just before one atomic operation. */
  datatype PC =
    | Idle(got: bool)                    // in no call; whether the last call took a token
    | Trying(seen: nat, blocking: bool)  // in try_acquire with the count last seen; on behalf of acquire if blocking
    | Checking                           // in acquire after a failed attempt
    | Blocking                           // saw no token, before the futex wait
    | Asleep
    | Signalling(update: nat)            // in release, tokens added, before the futex wake

  datatype State = State(count: nat, pcs: seq<PC>) {
    function Move(t: nat, p: PC): State
      requires t < |pcs|
    {
      this.(pcs := pcs[t := p])
    }
  }

  function Sleeps(p: PC): nat { if p.Asleep? then 1 else 0 }
  /** An acquirer that is awake and will look at the count again. */
  function Seeks(p: PC): nat { if (p.Trying? && p.blocking) || p.Checking? || p.Blocking? then 1 else 0 }
  function PendingUnits(p: PC): nat { if p.Signalling? then p.update else 0 }
  function Awaken(p: PC): PC { Checking }

  /** `futex::wake(&count_, static_cast<i32>(update))`: a negative count asks
      for the largest positive one. */
  function WakeCount(update: nat): (r: nat)
    requires 0 < update < TWO32
    ensures r == update || (r == MAX_FUTEX_WAKE && update > MAX_FUTEX_WAKE)
    ensures r > 0
  {
    var signed: int := if update < 0x8000_0000 then update else update - TWO32;
    if signed <= 0 then MAX_FUTEX_WAKE else signed
  }

  ghost predicate Init(s: State) {
    && s.count < TWO32
    && |s.pcs| <= MAX_THREADS
    && forall i :: 0 <= i < |s.pcs| ==> s.pcs[i] == Idle(false)
  }

  ghost predicate Released(s: State, t: nat, update: nat, s': State)
    requires t < |s.pcs|
  {
    && 0 < update < TWO32
    && s' == s.Move(t, Signalling(update)).(count := Add(s.count, update, TWO32))
  }

  ghost predicate Step(s: State, t: nat, s': State)
    requires t < |s.pcs|
  {
    match s.pcs[t]
    case Idle(_) =>
      || (exists update :: Released(s, t, update, s'))
      || (exists blocking :: s' == s.Move(t, Trying(s.count, blocking)))
    case Trying(seen, blocking) =>
      if seen == 0 then s' == s.Move(t, if blocking then Checking else Idle(false))
      else if s.count == seen then s' == s.Move(t, Idle(true)).(count := seen - 1)
      else s' == s.Move(t, Trying(s.count, blocking))
    case Checking =>
      || s' == s.Move(t, Trying(s.count, true))
      || (if s.count == 0 then s' == s.Move(t, Blocking) else s' == s)
    case Blocking =>
      s' == s.Move(t, if s.count == 0 then Asleep else Checking)
    case Asleep =>
      s' == s.Move(t, Checking)
    case Signalling(update) =>
      && 0 < update < TWO32
      && s' == s.(pcs := s'.pcs)
      && FutexWake(s.pcs[t := Idle(false)], s'.pcs, WakeCount(update), Sleeps, Awaken)
  }

  ghost predicate Next(s: State, s': State) {
    exists t :: 0 <= t < |s.pcs| && Step(s, t, s')
  }

  ghost predicate Inv(s: State) {
    && |s.pcs| <= MAX_THREADS
    && s.count < TWO32
    && (forall i :: 0 <= i < |s.pcs| && s.pcs[i].Signalling? ==> 0 < s.pcs[i].update < TWO32)
    && (Sum(s.pcs, Sleeps) > 0 ==> s.count <= Sum(s.pcs, PendingUnits) + Sum(s.pcs, Seeks))
  }

  lemma MoveCounts(pcs: seq<PC>, t: nat, p: PC)
    requires t < |pcs|
    ensures Sum(pcs[t := p], Sleeps) == Sum(pcs, Sleeps) + Sleeps(p) - Sleeps(pcs[t])
    ensures Sum(pcs[t := p], Seeks) == Sum(pcs, Seeks) + Seeks(p) - Seeks(pcs[t])
    ensures Sum(pcs[t := p], PendingUnits) == Sum(pcs, PendingUnits) + PendingUnits(p) - PendingUnits(pcs[t])
  {
    SumUpdate(pcs, t, p, Sleeps);
    SumUpdate(pcs, t, p, Seeks);
    SumUpdate(pcs, t, p, PendingUnits);
  }

  /** A wake turns as many sleepers into seekers as it promised, or all. */
  lemma {:induction false} WakeTradesSleepers(before: seq<PC>, after: seq<PC>)
    requires |after| == |before|
    requires forall i :: 0 <= i < |before| ==>
               after[i] == before[i] || (Sleeps(before[i]) == 1 && after[i] == Awaken(before[i]))
    ensures Sum(after, Sleeps) + Sum(after, Seeks) == Sum(before, Sleeps) + Sum(before, Seeks)
    ensures Sum(after, PendingUnits) == Sum(before, PendingUnits)
  {
    if before != [] {
      WakeTradesSleepers(before[..|before| - 1], after[..|after| - 1]);
    }
  }

  lemma SignalKeepsInv(s: State, t: nat, s': State)
    requires Inv(s) && t < |s.pcs| && s.pcs[t].Signalling? && Step(s, t, s')
    ensures Inv(s')
  {
    var mid := s.pcs[t := Idle(false)];
    MoveCounts(s.pcs, t, Idle(false));
    WakeTradesSleepers(mid, s'.pcs);
    SumAtMost(mid, Sleeps);
  }

  lemma ReleaseKeepsInv(s: State, t: nat, update: nat, s': State)
    requires Inv(s) && t < |s.pcs| && s.pcs[t].Idle? && Released(s, t, update, s')
    ensures Inv(s')
  {
    MoveCounts(s.pcs, t, Signalling(update));
  }

  lemma TakeKeepsInv(s: State, t: nat)
    requires Inv(s) && t < |s.pcs| && s.pcs[t].Trying? && s.pcs[t].seen == s.count > 0
    ensures Inv(s.Move(t, Idle(true)).(count := s.count - 1))
  {
    MoveCounts(s.pcs, t, Idle(true));
  }

  /** A move that leaves the count alone and falls asleep only on no tokens. */
  lemma QuietMove(s: State, t: nat, p: PC)
    requires Inv(s) && t < |s.pcs|
    requires !s.pcs[t].Signalling? && !p.Signalling?
    requires Seeks(s.pcs[t]) == 1 ==> Seeks(p) == 1 || s.count == 0
    requires p.Asleep? ==> s.count == 0
    ensures Inv(s.Move(t, p))
  {
    MoveCounts(s.pcs, t, p);
  }

  lemma StepKeepsInv(s: State, t: nat, s': State)
    requires Inv(s) && t < |s.pcs| && Step(s, t, s')
    ensures Inv(s')
  {
    if s.pcs[t].Signalling? {
      SignalKeepsInv(s, t, s');
    } else if update :| Released(s, t, update, s') && s.pcs[t].Idle? {
      ReleaseKeepsInv(s, t, update, s');
    } else if s'.count != s.count {
      TakeKeepsInv(s, t);
    } else if s' != s {
      QuietMove(s, t, s'.pcs[t]);
    }
  }

  lemma {:induction false} RunsKeepInv(run: seq<State>, i: nat)
    requires IsRun(run, Init, Next) && i < |run|
    ensures Inv(run[i])
  {
    if i == 0 {
      SumZero(run[0].pcs, Sleeps);
    } else {
      RunsKeepInv(run, i - 1);
      assert Next(run[i - 1], run[i - 1 + 1]);
      var t :| 0 <= t < |run[i - 1].pcs| && Step(run[i - 1], t, run[i]);
      StepKeepsInv(run[i - 1], t, run[i]);
    }
  }

  // Tokens are counted by the calls: what each step of a run released or took.

  /** How many units the step releases: those of a call of release. */
  ghost function Gives(s: State, s': State): (units: nat) {
    if exists t: nat :: Gave(s, s', t) then
      var t: nat :| Gave(s, s', t); s'.pcs[t].update
    else 0
  }

  ghost predicate Gave(s: State, s': State, t: nat) {
    t < |s.pcs| == |s'.pcs| && s.pcs[t].Idle? && s'.pcs[t].Signalling?
  }

  /** How many acquiring calls return with a token in the step. */
  ghost function Takes(s: State, s': State): (calls: nat) {
    if exists t: nat :: Took(s, s', t) then 1 else 0
  }

  ghost predicate Took(s: State, s': State, t: nat) {
    t < |s.pcs| == |s'.pcs| && !s.pcs[t].Idle? && s'.pcs[t] == Idle(true)
  }

  ghost function ReleasedBy(run: seq<State>, i: nat): (units: nat)
    requires i < |run|
  {
    if i == 0 then 0 else ReleasedBy(run, i - 1) + Gives(run[i - 1], run[i])
  }

  /** The number of successful calls of acquire and try_acquire. */
  ghost function AcquiredBy(run: seq<State>, i: nat): (calls: nat)
    requires i < |run|
  {
    if i == 0 then 0 else AcquiredBy(run, i - 1) + Takes(run[i - 1], run[i])
  }

  lemma StepMoves(s: State, t: nat, s': State, u: nat)
    requires t < |s.pcs| && Step(s, t, s') && u < |s.pcs|
    ensures |s'.pcs| == |s.pcs|
    ensures u != t ==> s'.pcs[u] == s.pcs[u] || (s.pcs[u].Asleep? && s'.pcs[u] == Checking)
  {
  }

  /** The thread whose step it is tells what the step gives and takes. */
  lemma StepTokens(s: State, t: nat, s': State)
    requires Inv(s) && t < |s.pcs| && Step(s, t, s')
    ensures if Takes(s, s') == 1 then Gives(s, s') == 0 && s.count > 0 && s'.count == s.count - 1
            else s'.count == Add(s.count, Gives(s, s'), TWO32)
  {
    forall u: nat | Gave(s, s', u) || Took(s, s', u)
      ensures u == t
    {
      StepMoves(s, t, s', u);
    }
    if s.pcs[t].Idle? && s'.pcs[t].Signalling? {
      assert Gave(s, s', t);
    } else if !s.pcs[t].Idle? && s'.pcs[t] == Idle(true) {
      assert Took(s, s', t);
    }
  }

  lemma TakeToken(balance: nat)
    requires balance % TWO32 > 0
    ensures balance > 0 && (balance - 1) % TWO32 == balance % TWO32 - 1
  {
  }

  lemma AddTokens(balance: nat, update: nat)
    ensures Add(balance % TWO32, update, TWO32) == (balance + update) % TWO32
  {
  }

  /** No token is made or lost, and every successful call takes exactly one: the
      count is what was there, plus the units of all calls of release, minus the
      number of calls that acquired, as long as the total fits the word; past that
      it is the same number modulo the word. */
  lemma {:induction false} TokensAreConserved(run: seq<State>, i: nat)
    requires IsRun(run, Init, Next) && i < |run|
    ensures AcquiredBy(run, i) <= run[0].count + ReleasedBy(run, i)
    ensures var tokens := run[0].count + ReleasedBy(run, i) - AcquiredBy(run, i);
      && run[i].count == tokens % TWO32
      && (run[i].count == tokens <==> tokens < TWO32)
  {
    hide Init, Next, Inv, Gives, Takes;
    if i > 0 {
      TokensAreConserved(run, i - 1);
      RunsKeepInv(run, i - 1);
      assert Next(run[i - 1], run[i - 1 + 1]);
      NextTokens(run[i - 1], run[i]);
      var before := run[0].count + ReleasedBy(run, i - 1) - AcquiredBy(run, i - 1);
      if Takes(run[i - 1], run[i]) == 1 {
        TakeToken(before);
      } else {
        AddTokens(before, Gives(run[i - 1], run[i]));
      }
    } else {
      RunsKeepInv(run, 0);
      InvBounds(run[0]);
    }
  }

  lemma InvBounds(s: State)
    requires Inv(s)
    ensures s.count < TWO32
  {
  }

  lemma NextTokens(s: State, s': State)
    requires Inv(s) && Next(s, s')
    ensures if Takes(s, s') == 1 then Gives(s, s') == 0 && s.count > 0 && s'.count == s.count - 1
            else Takes(s, s') == 0 && s'.count == Add(s.count, Gives(s, s'), TWO32)
  {
    var t :| 0 <= t < |s.pcs| && Step(s, t, s');
    StepTokens(s, t, s');
  }

  /** Beside a sleeping acquirer every token is spoken for: some release still
      has a wake to issue for it, or an acquirer that is awake will take it. */
  lemma NoTokenIdlesBesideSleeper(run: seq<State>, i: nat)
    requires IsRun(run, Init, Next) && i < |run|
    requires exists a :: 0 <= a < |run[i].pcs| && run[i].pcs[a].Asleep?
    ensures run[i].count <= Sum(run[i].pcs, PendingUnits) + Sum(run[i].pcs, Seeks)
    ensures (forall b :: 0 <= b < |run[i].pcs| ==> !run[i].pcs[b].Signalling? && Seeks(run[i].pcs[b]) == 0)
            ==> run[i].count == 0
  {
    RunsKeepInv(run, i);
    SumZero(run[i].pcs, Sleeps);
    SumZero(run[i].pcs, PendingUnits);
    SumZero(run[i].pcs, Seeks);
  }

  // A call that nobody disturbs, and what a refusal means.

  /** A step of thread t. */
  ghost function By(t: nat): (State, State) -> bool {
    (s: State, s': State) => t < |s.pcs| && Step(s, t, s')
  }

  lemma Advance(s: State, mid: State, t: nat, s': State)
    requires Reaches(By(t), s, mid) && Inv(mid) && t < |mid.pcs| && Step(mid, t, s')
    ensures Reaches(By(t), s, s') && Inv(s')
  {
    hide Step;
    ReachesOneMore(By(t), s, mid, s');
    StepKeepsInv(mid, t, s');
  }

  /** Outside, or anywhere in acquire, or in a try_acquire that has seen a token. */
  predicate WantsToken(p: PC) {
    p.Idle? || Seeks(p) == 1 || p.Asleep? || (p.Trying? && p.seen > 0)
  }

  /** The step that brings the thread closer to one of the tokens. */
  function TowardsToken(s: State, t: nat, blocking: bool): State
    requires t < |s.pcs|
  {
    match s.pcs[t]
    case Idle(_) => s.Move(t, Trying(s.count, blocking))
    case Trying(seen, b) =>
      if seen == 0 then s.Move(t, Checking)
      else if s.count == seen then s.Move(t, Idle(true)).(count := seen - 1)
      else s.Move(t, Trying(s.count, b))
    case Checking => s.Move(t, Trying(s.count, true))
    case _ => s.Move(t, Checking)
  }

  function TokenDistance(s: State, t: nat): nat
    requires t < |s.pcs|
  {
    match s.pcs[t]
    case Trying(seen, _) => if seen == s.count then 1 else if seen == 0 then 3 else 2
    case Blocking => 3
    case Asleep => 3
    case _ => 2
  }

  lemma TowardsTokenIsStep(s: State, t: nat, blocking: bool)
    requires s.count > 0 && t < |s.pcs| && WantsToken(s.pcs[t])
    ensures var s' := TowardsToken(s, t, blocking);
      && Step(s, t, s') && |s'.pcs| == |s.pcs| && s'.pcs == s.pcs[t := s'.pcs[t]]
      && (s' == s.Move(t, Idle(true)).(count := s.count - 1)
          || (s'.count == s.count && WantsToken(s'.pcs[t]) && TokenDistance(s', t) < TokenDistance(s, t)))
  {
  }

  /** With a token there, whoever is outside or anywhere in acquire takes one by its
      own steps alone, and exactly one; and so does try_acquire. */
  lemma {:induction false} AcquireAlone(s: State, t: nat, blocking: bool) returns (s': State)
    requires Inv(s) && s.count > 0 && t < |s.pcs| && WantsToken(s.pcs[t])
    ensures Reaches(By(t), s, s') && Inv(s')
    ensures s' == s.Move(t, Idle(true)).(count := s.count - 1)
    decreases TokenDistance(s, t)
  {
    hide Inv, Step, TowardsToken, TokenDistance, WantsToken;
    TowardsTokenIsStep(s, t, blocking);
    var next := TowardsToken(s, t, blocking);
    ReachesSelf(By(t), s);
    Advance(s, s, t, next);
    if next == s.Move(t, Idle(true)).(count := s.count - 1) {
      s' := next;
    } else {
      s' := AcquireAlone(next, t, blocking);
      ReachesTransitive(By(t), s, next, s');
    }
  }

  /** A lone release adds its units and gets as many sleepers out of the futex, or all. */
  lemma ReleaseAlone(s: State, t: nat, update: nat) returns (s': State)
    requires Inv(s) && t < |s.pcs| && s.pcs[t].Idle? && 0 < update < TWO32
    ensures Reaches(By(t), s, s') && Inv(s') && s'.count == Add(s.count, update, TWO32)
    ensures FutexWake(s.pcs[t := Idle(false)], s'.pcs, WakeCount(update), Sleeps, Awaken)
  {
    hide Inv, FutexWake, WakeCount;
    ReachesSelf(By(t), s);
    var signalling := s.Move(t, Signalling(update)).(count := Add(s.count, update, TWO32));
    assert Released(s, t, update, signalling);
    Advance(s, s, t, signalling);
    var pcs := WakeExists(s.pcs[t := Idle(false)], WakeCount(update), Sleeps, Awaken);
    assert signalling.pcs[t := Idle(false)] == s.pcs[t := Idle(false)];
    s' := signalling.(pcs := pcs);
    Advance(s, signalling, t, s');
  }

  /** A thread that tries has loaded the count it tries with. */
  lemma TryGoesBack(s: State, s': State, t: nat)
    requires Next(s, s') && t < |s.pcs| && t < |s'.pcs| && s'.pcs[t].Trying?
    ensures s.pcs[t] == s'.pcs[t] || (s'.pcs[t].seen == s.count && s.count == s'.count)
  {
    var u :| 0 <= u < |s.pcs| && Step(s, u, s');
    StepMoves(s, u, s', t);
  }

  lemma {:induction false} LoadOf(run: seq<State>, i: nat, t: nat) returns (j: nat)
    requires IsRun(run, Init, Next) && i < |run| && t < |run[i].pcs| && run[i].pcs[t].Trying?
    ensures j < i && run[j].count == run[i].pcs[t].seen
    ensures forall k :: j < k <= i ==> t < |run[k].pcs| && run[k].pcs[t] == run[i].pcs[t]
    decreases i
  {
    hide Init, Next;
    NobodyTriesAtStart(run, i, t);
    assert Next(run[i - 1], run[i - 1 + 1]);
    SameThreads(run[i - 1], run[i]);
    TryGoesBack(run[i - 1], run[i], t);
    if run[i - 1].pcs[t] == run[i].pcs[t] {
      j := LoadOf(run, i - 1, t);
    } else {
      j := i - 1;
    }
  }

  lemma NobodyTriesAtStart(run: seq<State>, i: nat, t: nat)
    requires IsRun(run, Init, Next) && i < |run| && t < |run[i].pcs| && run[i].pcs[t].Trying?
    ensures i > 0
  {
  }

  lemma SameThreads(s: State, s': State)
    requires Next(s, s')
    ensures |s'.pcs| == |s.pcs|
  {
  }

  /** A try_acquire that fails, on its own behalf or that of acquire, had found no
      token at the load that decided it. */
  lemma RefusedMeansNone(run: seq<State>, i: nat, t: nat) returns (j: nat)
    requires IsRun(run, Init, Next) && i < |run| - 1 && t < |run[i].pcs| && t < |run[i + 1].pcs|
    requires run[i].pcs[t].Trying? && (run[i + 1].pcs[t] == Idle(false) || run[i + 1].pcs[t].Checking?)
    ensures j < i && run[j].count == 0
    ensures forall k :: j < k <= i ==> t < |run[k].pcs| && run[k].pcs[t] == run[i].pcs[t]
  {
    j := LoadOf(run, i, t);
    var s, s' := run[i], run[i + 1];
    assert Next(s, s');
    var u :| 0 <= u < |s.pcs| && Step(s, u, s');
    StepMoves(s, u, s', t);
  }

  /** A lone acquire without a token sleeps. */
  lemma AcquireWaitsAlone(s: State, t: nat) returns (s': State)
    requires Inv(s) && s.count == 0 && t < |s.pcs| && s.pcs[t].Idle?
    ensures Reaches(By(t), s, s') && Inv(s') && s' == s.Move(t, Asleep)
  {
    hide Inv;
    ReachesSelf(By(t), s);
    var trying := s.Move(t, Trying(0, true));
    Advance(s, s, t, trying);
    var checking := s.Move(t, Checking);
    assert trying.pcs[t := Checking] == checking.pcs;
    Advance(s, trying, t, checking);
    var blocking := s.Move(t, Blocking);
    assert checking.pcs[t := Blocking] == blocking.pcs;
    Advance(s, checking, t, blocking);
    s' := s.Move(t, Asleep);
    assert blocking.pcs[t := Asleep] == s'.pcs;
    Advance(s, blocking, t, s');
  }
}
