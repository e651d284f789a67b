/** What `unpark_all` does as steps of the parking lot: it takes out exactly the
    nodes of its key, and flags and wakes every thread it took out, outside the
    bucket and among any other threads' steps. */
module ParkingAll {
  import opened Options
  import opened Parking
  import opened ParkingQueue
  import opened Sequences
  import opened Threads

  function ThreadsOf(waiters: seq<Waiter>): (threads: seq<nat>)
    ensures |threads| == |waiters|
    ensures forall i :: 0 <= i < |waiters| ==> threads[i] == waiters[i].thread
  {
    seq(|waiters|, i requires 0 <= i < |waiters| => waiters[i].thread)
  }

  // The queue.

  lemma NotOfKeyWithout(queue: seq<Waiter>, i: nat, key: nat)
    requires i < |queue| && queue[i].key == key
    ensures NotOfKey(Without(queue, i), key) == NotOfKey(queue, key)
  {
    assert queue == queue[..i] + queue[i..];
    NotOfKeyConcat(queue[..i], queue[i..], key);
    assert queue[i..][1..] == queue[i + 1..];
    NotOfKeyConcat(queue[..i], queue[i + 1..], key);
  }

  /** With no node of the key left, the others are the whole queue. */
  lemma {:induction false} NotOfKeyAll(queue: seq<Waiter>, key: nat)
    requires forall i :: 0 <= i < |queue| ==> queue[i].key != key
    ensures NotOfKey(queue, key) == queue
  {
    if queue != [] {
      NotOfKeyAll(queue[1..], key);
    }
  }

  /** What is gathered so far, and what is left of the queue. */
  ghost predicate Gathered(start: seq<Waiter>, key: nat, targets: seq<nat>, queue: seq<Waiter>) {
    && ThreadsOf(OfKey(start, key)) == targets + ThreadsOf(OfKey(queue, key))
    && NotOfKey(queue, key) == NotOfKey(start, key)
  }

  lemma GatherOne(start: seq<Waiter>, key: nat, targets: seq<nat>, queue: seq<Waiter>)
    requires Gathered(start, key, targets, queue) && HasKey(queue, key)
    ensures Gathered(start, key, targets + [Oldest(queue, key)], AfterUnpark(queue, key))
  {
    hide OfKey, NotOfKey, FirstOf;
    FirstIsOldest(queue, key);
    UnparkTakesOldest(queue, key);
    NotOfKeyWithout(queue, FirstOf(queue, key), key);
    var mine := OfKey(queue, key);
    assert ThreadsOf(mine) == [Oldest(queue, key)] + ThreadsOf(mine[1..]);
    Associative(targets, [Oldest(queue, key)], ThreadsOf(mine[1..]));
  }

  lemma GatheredAll(start: seq<Waiter>, key: nat, targets: seq<nat>, queue: seq<Waiter>)
    requires Gathered(start, key, targets, queue) && !HasKey(queue, key)
    ensures targets == ThreadsOf(OfKey(start, key)) && queue == NotOfKey(start, key)
  {
    OfKeyNone(queue, key);
    NotOfKeyAll(queue, key);
  }

  // The steps.

  predicate Gathers(p: PC) {
    p.Gathering? || p.Emptied?
  }

  ghost predicate GatherInv(s: State, t: nat)
    requires s.Sized() && t < |s.pcs|
  {
    Gathers(s.pcs[t]) ==>
      var p, queue := s.pcs[t], s.QueueOf(s.pcs[t].key);
      Gathered(p.start, p.key, p.targets, queue) && (p.Emptied? ==> !HasKey(queue, p.key))
  }

  /** Nobody else touches the queue of a bucket that is held. */
  lemma HeldQueueStays(s: State, t: nat, s': State, v: nat)
    requires Inv(s) && t < |s.pcs| && AnyStep(s, t, s') && v < |s.pcs| && v != t && Holds(s.pcs[v])
    ensures s'.Sized() && s'.QueueOf(s.pcs[v].key) == s.QueueOf(s.pcs[v].key)
  {
    hide Inv, QueueInv, AnyStep, Step, HashAddress, HasKey, AfterUnpark, FirstOf, Targets, ThreadInv;
    InvOf(s, t);
    if Plain(s, t) {
      PlainStep(s, t, s');
    } else {
      NotPlain(s, t, s');
      if s.pcs[t].Accepting? {
        EnqueueMoves(s, t, s');
      } else if Finds(s, t) {
        UnlinkMoves(s, t, s');
      } else if Flags(s.pcs[t]) {
        FlagMoves(s, t, s');
      } else {
        WakeMoves(s, t, s');
      }
    }
  }

  /** The gathering thread's own step. */
  lemma GathererMoves(s: State, t: nat, s': State)
    requires Inv(s) && t < |s.pcs| && AnyStep(s, t, s') && GatherInv(s, t)
    ensures s'.Sized() && t < |s'.pcs| && GatherInv(s', t)
    ensures Gathers(s'.pcs[t]) && !Gathers(s.pcs[t]) ==>
              s.pcs[t] == CallingAll(s'.pcs[t].key) && s'.pcs[t].start == s.QueueOf(s'.pcs[t].key)
    ensures Gathers(s'.pcs[t]) && Gathers(s.pcs[t]) ==>
              s'.pcs[t].key == s.pcs[t].key && s'.pcs[t].start == s.pcs[t].start
  {
    hide Inv, OfKey, NotOfKey, HasKey, FirstOf, AfterUnpark, ResultOf;
    InvOf(s, t);
    OwnMove(s, t, s');
    if s.pcs[t].Gathering? && HasKey(s.QueueOf(s.pcs[t].key), s.pcs[t].key) {
      GatherOne(s.pcs[t].start, s.pcs[t].key, s.pcs[t].targets, s.QueueOf(s.pcs[t].key));
    }
  }

  lemma StepKeepsGathers(s: State, t: nat, s': State, v: nat)
    requires Inv(s) && t < |s.pcs| && AnyStep(s, t, s') && v < |s.pcs| && GatherInv(s, v)
    ensures s'.Sized() && v < |s'.pcs| && GatherInv(s', v)
  {
    hide Inv, AnyStep, HashAddress, HasKey, Gathered, Queued;
    StepHasEffect(s, t, s');
    if v == t {
      GathererMoves(s, t, s');
    } else {
      assert Unmoved(s, s', v);
      if Gathers(s'.pcs[v]) {
        HeldQueueStays(s, t, s', v);
      }
    }
  }

  // Over every run.

  /** The thread is gathering for the key, from the queue that it found. */
  ghost predicate GathersFrom(s: State, t: nat, key: nat, start: seq<Waiter>) {
    && s.Sized() && t < |s.pcs| && GatherInv(s, t)
    && Gathers(s.pcs[t]) && s.pcs[t].key == key && s.pcs[t].start == start
  }

  /** A gathering thread has just taken the bucket, or was gathering before. */
  lemma GatherGoesBack(s: State, s': State, t: nat)
    requires Inv(s) && AnyNext(s, s') && t < |s.pcs| && t < |s'.pcs| && GatherInv(s, t) && Gathers(s'.pcs[t])
    ensures s.Sized() && GathersFrom(s', t, s'.pcs[t].key, s'.pcs[t].start)
    ensures if Gathers(s.pcs[t]) then s.pcs[t].key == s'.pcs[t].key && s.pcs[t].start == s'.pcs[t].start
            else s.pcs[t] == CallingAll(s'.pcs[t].key) && s'.pcs[t].start == s.QueueOf(s'.pcs[t].key)
  {
    hide Inv, AnyStep, Queued, Gathered, HashAddress;
    InvOf(s, t);
    if s' != s {
      var u :| 0 <= u < |s.pcs| && AnyStep(s, u, s');
      StepKeepsGathers(s, u, s', t);
      if u == t {
        GathererMoves(s, t, s');
      } else {
        StepHasEffect(s, u, s');
        assert Unmoved(s, s', t);
      }
    }
  }

  lemma NextKeepsGathers(s: State, s': State, t: nat)
    requires Inv(s) && AnyNext(s, s') && t < |s.pcs| && GatherInv(s, t)
    ensures s'.Sized() && t < |s'.pcs| && GatherInv(s', t)
  {
    hide Inv, AnyStep, Queued, Gathered, GatherInv;
    InvOf(s, t);
    if s' != s {
      var u :| 0 <= u < |s.pcs| && AnyStep(s, u, s');
      StepKeepsGathers(s, u, s', t);
    }
  }

  lemma {:induction false} RunsKeepGathers(run: seq<State>, i: nat, t: nat)
    requires IsRun(run, Init, AnyNext) && i < |run| && t < |run[i].pcs|
    ensures run[i].Sized() && GatherInv(run[i], t)
  {
    if i > 0 {
      hide Inv, AnyNext, Init, GatherInv;
      RunsKeepInv(run, i);
      RunsKeepInv(run, i - 1);
      RunStep(run, i - 1);
      RunsKeepGathers(run, i - 1, t);
      NextKeepsGathers(run[i - 1], run[i], t);
    }
  }

  lemma NobodyGathersAtStart(run: seq<State>, i: nat, t: nat)
    requires IsRun(run, Init, AnyNext) && i < |run| && t < |run[i].pcs| && Gathers(run[i].pcs[t])
    ensures i > 0
  {
  }

  /** When the gathering thread took the bucket. */
  lemma {:induction false} GatherOf(run: seq<State>, i: nat, t: nat) returns (j: nat)
    requires IsRun(run, Init, AnyNext) && i < |run| && t < |run[i].pcs| && Gathers(run[i].pcs[t])
    ensures j < i && run[j].Sized() && t < |run[j].pcs| && run[j].pcs[t] == CallingAll(run[i].pcs[t].key)
    ensures run[i].pcs[t].start == run[j].QueueOf(run[i].pcs[t].key)
    ensures forall k :: j < k <= i ==> t < |run[k].pcs| && Gathers(run[k].pcs[t])
  {
    hide Inv, AnyNext, Init, GatherInv, Gathers;
    NobodyGathersAtStart(run, i, t);
    RunsKeepInv(run, i);
    RunsKeepInv(run, i - 1);
    RunStep(run, i - 1);
    RunsKeepGathers(run, i - 1, t);
    GatherGoesBack(run[i - 1], run[i], t);
    if Gathers(run[i - 1].pcs[t]) {
      j := GatherOf(run, i - 1, t);
    } else {
      j := i - 1;
    }
  }

  /** When `unpark_all` lets go of its bucket it has taken out exactly the nodes of
      its key that were queued when it took the bucket, in queue order, and left
      exactly the others, in theirs. */
  lemma UnparkAllIsExact(run: seq<State>, i: nat, t: nat) returns (j: nat)
    requires IsRun(run, Init, AnyNext) && i < |run| && t < |run[i].pcs| && run[i].pcs[t].Emptied?
    ensures var key := run[i].pcs[t].key;
      && j < i && run[j].Sized() && run[i].Sized()
      && t < |run[j].pcs| && run[j].pcs[t] == CallingAll(key)
      && (forall k :: j < k <= i ==> t < |run[k].pcs| && Gathers(run[k].pcs[t]))
      && run[i].pcs[t].targets == ThreadsOf(OfKey(run[j].QueueOf(key), key))
      && run[i].QueueOf(key) == NotOfKey(run[j].QueueOf(key), key)
  {
    j := GatherOf(run, i, t);
    RunsKeepGathers(run, i, t);
    var p := run[i].pcs[t];
    GatheredAll(p.start, p.key, p.targets, run[i].QueueOf(p.key));
  }

  // Everybody who was taken out is flagged and woken.

  lemma OthersKeepTargets(s: State, u: nat, s': State, t: nat)
    requires Inv(s) && u < |s.pcs| && AnyStep(s, u, s') && t < |s.pcs| && t != u
    ensures t < |s'.pcs| && Targets(s'.pcs[t]) == Targets(s.pcs[t])
  {
    hide Inv, AnyStep, Queued;
    StepHasEffect(s, u, s');
    assert Unmoved(s, s', t);
  }

  /** A thread gives up a target only by setting its flag, with the wake to follow. */
  lemma TargetIsFlagged(s: State, s': State, t: nat, v: nat)
    requires Inv(s) && AnyNext(s, s') && t < |s.pcs| && t < |s'.pcs| && v < |s.pcs|
    requires Aims(s.pcs[t], v) && !Aims(s'.pcs[t], v)
    ensures v < |s'.flags| && v < |s'.joined| && s'.flags[v] == 1 && WillWake(s'.pcs[t], v, s'.joined[v])
  {
    hide Inv, QueueInv, AnyStep, Step, HashAddress, HasKey, AfterUnpark, FirstOf, Queued, ThreadInv, OwnerInv;
    InvOf(s, t);
    var u :| 0 <= u < |s.pcs| && AnyStep(s, u, s');
    if u != t {
      OthersKeepTargets(s, u, s', t);
    } else if Plain(s, t) {
      PlainStep(s, t, s');
    } else {
      NotPlain(s, t, s');
      if s.pcs[t].Accepting? {
        EnqueueMoves(s, t, s');
      } else if Finds(s, t) {
        UnlinkMoves(s, t, s');
      } else if Flags(s.pcs[t]) {
        FlagMoves(s, t, s');
      } else {
        WakeMoves(s, t, s');
      }
    }
  }

  /** So an unlinked thread has been flagged by the time its unparker has gone on:
      in particular, unpark_one and unpark_all return only after flagging everybody
      they took out. */
  lemma {:induction false} UnlinkedMeansFlagged(run: seq<State>, i: nat, m: nat, t: nat, v: nat) returns (k: nat)
    requires IsRun(run, Init, AnyNext) && i <= m < |run| && t < |run[i].pcs| && t < |run[m].pcs| && v < |run[i].pcs|
    requires Aims(run[i].pcs[t], v) && !Aims(run[m].pcs[t], v)
    ensures i <= k < m && t < |run[k].pcs| && Aims(run[k].pcs[t], v)
    ensures v < |run[k + 1].flags| && run[k + 1].flags[v] == 1
    ensures t < |run[k + 1].pcs| && v < |run[k + 1].joined| && WillWake(run[k + 1].pcs[t], v, run[k + 1].joined[v])
  {
    hide Inv, AnyNext, Init, Aims, WillWake;
    RunsKeepInv(run, i);
    RunsKeepInv(run, m - 1);
    if Aims(run[m - 1].pcs[t], v) {
      k := m - 1;
      RunStep(run, k);
      RunsKeepInv(run, m);
      TargetIsFlagged(run[k], run[m], t, v);
    } else {
      k := UnlinkedMeansFlagged(run, i, m - 1, t, v);
    }
  }
}
