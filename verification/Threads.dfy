/** Threads of a step system and the futex they share.

    A step system keeps one program point per thread in a sequence, and every
    step moves one thread.  Counting threads by program point is done with a
    weight per program point, summed over the sequence. */
module Threads {

  const MAX_FUTEX_WAKE: nat := 0x7fff_ffff

  /** A run: starts in an initial state, and any step of any thread leads from
      each state to the next.  Every interleaving is a run. */
  ghost predicate IsRun<S>(run: seq<S>, init: S -> bool, next: (S, S) -> bool) {
    && run != []
    && init(run[0])
    && forall i :: 0 <= i < |run| - 1 ==> next(run[i], run[i + 1])
  }

  /** Some steps lead from one state to the other. */
  ghost predicate Reaches<S(!new)>(next: (S, S) -> bool, s: S, s': S) {
    exists path :: IsPath(path, next) && path[0] == s && path[|path| - 1] == s'
  }

  ghost predicate IsPath<S(!new)>(path: seq<S>, next: (S, S) -> bool) {
    path != [] && forall i :: 0 <= i < |path| - 1 ==> next(path[i], path[i + 1])
  }

  lemma ReachesSelf<S(!new)>(next: (S, S) -> bool, s: S)
    ensures Reaches(next, s, s)
  {
    assert IsPath([s], next);
  }

  lemma ReachesOneMore<S(!new)>(next: (S, S) -> bool, s: S, mid: S, s': S)
    requires Reaches(next, s, mid) && next(mid, s')
    ensures Reaches(next, s, s')
  {
    var path :| IsPath(path, next) && path[0] == s && path[|path| - 1] == mid;
    var longer := path + [s'];
    assert IsPath(longer, next);
    assert longer[0] == s && longer[|longer| - 1] == s';
  }

  lemma ReachesTransitive<S(!new)>(next: (S, S) -> bool, s: S, mid: S, s': S)
    requires Reaches(next, s, mid) && Reaches(next, mid, s')
    ensures Reaches(next, s, s')
  {
    var path :| IsPath(path, next) && path[0] == s && path[|path| - 1] == mid;
    var more :| IsPath(more, next) && more[0] == mid && more[|more| - 1] == s';
    var longer := path + more[1..];
    forall i | 0 <= i < |longer| - 1
      ensures next(longer[i], longer[i + 1])
    {
      var k := i - (|path| - 1);
      assert i >= |path| - 1 ==> longer[i] == more[k] && longer[i + 1] == more[k + 1];
    }
    assert IsPath(longer, next) && longer[0] == s && longer[|longer| - 1] == s';
  }

  /** One more step of a run. */
  lemma Extend<S>(run: seq<S>, s': S, init: S -> bool, next: (S, S) -> bool) returns (longer: seq<S>)
    requires IsRun(run, init, next) && next(run[|run| - 1], s')
    ensures IsRun(longer, init, next) && longer[|longer| - 1] == s'
    ensures |longer| == |run| + 1 && longer[..|run|] == run
  {
    longer := run + [s'];
  }

  ghost function Sum<T>(ts: seq<T>, w: T -> nat): nat {
    if ts == [] then 0 else Sum(ts[..|ts| - 1], w) + w(ts[|ts| - 1])
  }

  lemma {:induction false} SumUpdate<T>(ts: seq<T>, i: nat, x: T, w: T -> nat)
    requires i < |ts|
    ensures Sum(ts[i := x], w) + w(ts[i]) == Sum(ts, w) + w(x)
  {
    var last := |ts| - 1;
    if i == last {
      assert ts[i := x][..last] == ts[..last];
    } else {
      SumUpdate(ts[..last], i, x, w);
      assert ts[i := x][..last] == ts[..last][i := x];
    }
  }

  lemma {:induction false} SumCongruent<T>(a: seq<T>, b: seq<T>, w: T -> nat)
    requires |a| == |b|
    requires forall i :: 0 <= i < |a| ==> w(a[i]) == w(b[i])
    ensures Sum(a, w) == Sum(b, w)
  {
    if a != [] {
      SumCongruent(a[..|a| - 1], b[..|b| - 1], w);
    }
  }

  lemma {:induction false} SumAtMost<T>(ts: seq<T>, w: T -> nat)
    requires forall i :: 0 <= i < |ts| ==> w(ts[i]) <= 1
    ensures Sum(ts, w) <= |ts|
  {
    if ts != [] {
      SumAtMost(ts[..|ts| - 1], w);
    }
  }

  lemma {:induction false} SumZero<T>(ts: seq<T>, w: T -> nat)
    ensures Sum(ts, w) == 0 <==> forall i :: 0 <= i < |ts| ==> w(ts[i]) == 0
  {
    if ts != [] {
      SumZero(ts[..|ts| - 1], w);
      assert forall i :: 0 <= i < |ts| - 1 ==> ts[..|ts| - 1][i] == ts[i];
    }
  }

  /** If no two threads weigh anything, all of them weigh at most one. */
  lemma {:induction false} SumAtMostOne<T>(ts: seq<T>, w: T -> nat)
    requires forall i :: 0 <= i < |ts| ==> w(ts[i]) <= 1
    requires forall i, j :: 0 <= i < j < |ts| ==> w(ts[i]) == 0 || w(ts[j]) == 0
    ensures Sum(ts, w) <= 1
  {
    if ts != [] {
      var rest := ts[..|ts| - 1];
      SumAtMostOne(rest, w);
      if w(ts[|ts| - 1]) == 1 {
        assert forall i :: 0 <= i < |rest| ==> w(rest[i]) == 0;
        SumZero(rest, w);
      }
    }
  }

  /** Any one thread, or any two, weigh no more than all of them. */
  lemma {:induction false} SumIncludes<T>(ts: seq<T>, i: nat, w: T -> nat)
    requires i < |ts|
    ensures w(ts[i]) <= Sum(ts, w)
    ensures forall j :: 0 <= j < |ts| && j != i ==> w(ts[i]) + w(ts[j]) <= Sum(ts, w)
  {
    var last := |ts| - 1;
    if i < last {
      SumIncludes(ts[..last], i, w);
      assert forall j :: 0 <= j < last ==> ts[..last][j] == ts[j];
    } else {
      SumEach(ts[..last], w);
      assert forall j :: 0 <= j < last ==> ts[..last][j] == ts[j];
    }
  }

  lemma {:induction false} SumEach<T>(ts: seq<T>, w: T -> nat)
    ensures forall i :: 0 <= i < |ts| ==> w(ts[i]) <= Sum(ts, w)
  {
    if ts != [] {
      SumEach(ts[..|ts| - 1], w);
      assert forall i :: 0 <= i < |ts| - 1 ==> ts[..|ts| - 1][i] == ts[i];
    }
  }

  /** The futex wake: some sleepers move to `wake` of their program point,
      `count` of them if there are that many and all of them otherwise.
      Which ones is the kernel's choice. */
  ghost predicate FutexWake<T>(before: seq<T>, after: seq<T>, count: nat, asleep: T -> nat, wake: T -> T) {
    && |after| == |before|
    && (forall i :: 0 <= i < |before| ==>
          after[i] == before[i] || (asleep(before[i]) == 1 && after[i] == wake(before[i])))
    && Sum(after, asleep) == (if Sum(before, asleep) <= count then 0 else Sum(before, asleep) - count)
  }

  /** Waking as many threads as there can be leaves nobody asleep. */
  lemma WakeAllLeavesNone<T>(before: seq<T>, after: seq<T>, asleep: T -> nat, wake: T -> T)
    requires FutexWake(before, after, MAX_FUTEX_WAKE, asleep, wake)
    requires |before| <= MAX_FUTEX_WAKE
    requires forall i :: 0 <= i < |before| ==> asleep(before[i]) <= 1
    ensures forall i :: 0 <= i < |after| ==> asleep(after[i]) == 0
  {
    SumAtMost(before, asleep);
    SumZero(after, asleep);
  }

  /** A wake that may wake someone, and does not, found nobody asleep. */
  lemma WakeOneFindsNone<T>(before: seq<T>, after: seq<T>, count: nat, asleep: T -> nat, wake: T -> T)
    requires FutexWake(before, after, count, asleep, wake)
    requires count > 0
    requires forall i :: 0 <= i < |before| ==> asleep(before[i]) <= 1 && asleep(wake(before[i])) == 0
    ensures (forall i :: 0 <= i < |after| ==> asleep(after[i]) == 0)
         || exists i :: 0 <= i < |before| && asleep(before[i]) == 1 && after[i] == wake(before[i])
  {
    if forall i :: 0 <= i < |before| ==> after[i] == before[i] {
      assert after == before;
      SumZero(after, asleep);
    }
  }

  /** The kernel can always carry a wake out. */
  lemma {:induction false} WakeExists<T>(before: seq<T>, count: nat, asleep: T -> nat, wake: T -> T)
    returns (after: seq<T>)
    requires forall i :: 0 <= i < |before| ==> asleep(before[i]) <= 1 && asleep(wake(before[i])) == 0
    ensures FutexWake(before, after, count, asleep, wake)
  {
    if before == [] {
      after := [];
    } else {
      var last := |before| - 1;
      var woken := WakeExists(before[..last], count, asleep, wake);
      var wakes := asleep(before[last]) == 1 && Sum(before[..last], asleep) < count;
      after := woken + [if wakes then wake(before[last]) else before[last]];
      assert after[..last] == woken;
    }
  }
}
