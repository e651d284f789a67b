/** What a call of the parking lot does when nobody disturbs it. */
module ParkingCalls {
  import opened Options
  import opened Parking
  import opened ParkingQueue
  import opened Sequences
  import opened Threads

  /** A step of thread t in the lot's own code; the locks' callbacks are between
      such steps. */
  ghost function LotBy(t: nat): (State, State) -> bool {
    (s: State, s': State) => s.Sized() && t < |s.pcs| && Step(s, t, s')
  }

  lemma Advance(s: State, mid: State, t: nat, s': State)
    requires Reaches(LotBy(t), s, mid) && Inv(mid) && mid.Sized() && t < |mid.pcs| && Step(mid, t, s')
    ensures Reaches(LotBy(t), s, s') && Inv(s') && s'.Sized() && |s'.pcs| == |mid.pcs|
  {
    hide Step, Inv, QueueInv;
    ReachesOneMore(LotBy(t), s, mid, s');
    StepHasEffect(mid, t, s');
  }

  ghost predicate IsOpen(s: State, key: nat)
    requires s.Sized()
  {
    s.buckets[HashAddress(key)].owner.None?
  }

  /** The lot after thread t has taken the key's bucket and looked for a node. */
  function Searched(s: State, t: nat, key: nat): State
    requires s.Sized() && t < |s.pcs|
    requires HasKey(s.QueueOf(key), key) ==> Oldest(s.QueueOf(key), key) < |s.pcs|
  {
    var queue := s.QueueOf(key);
    if HasKey(queue, key) then
      s.Move(t, Unlinked(key, ResultOf(queue, key), Some(Oldest(queue, key)))).Own(key, Some(t)).TakeOldest(key)
    else
      s.Move(t, Unlinked(key, NoWaiter, None)).Own(key, Some(t))
  }

  lemma OldestIsThread(s: State, key: nat)
    requires Inv(s)
    ensures s.Sized() && (HasKey(s.QueueOf(key), key) ==> Oldest(s.QueueOf(key), key) < |s.pcs|)
  {
    var b := HashAddress(key);
    assert BucketInv(s, b, s.buckets[b].queue);
    if HasKey(s.QueueOf(key), key) {
      assert WaiterInv(s, b, s.buckets[b].queue[FirstOf(s.buckets[b].queue, key)]);
    }
  }

  /** The first part of unpark_one, up to its callback. */
  lemma SearchAlone(s: State, t: nat) returns (s': State)
    requires Inv(s) && s.Sized() && t < |s.pcs| && s.pcs[t].Calling? && IsOpen(s, s.pcs[t].key)
    ensures HasKey(s.QueueOf(s.pcs[t].key), s.pcs[t].key) ==> Oldest(s.QueueOf(s.pcs[t].key), s.pcs[t].key) < |s.pcs|
    ensures Reaches(LotBy(t), s, s') && Inv(s') && s' == Searched(s, t, s.pcs[t].key)
  {
    hide Inv, QueueInv, HashAddress, HasKey, FirstOf, AfterUnpark, ResultOf;
    var key := s.pcs[t].key;
    OldestIsThread(s, key);
    ReachesSelf(LotBy(t), s);
    var searching := s.Move(t, Searching(key)).Own(key, Some(t));
    Advance(s, s, t, searching);
    SameQueue(s, t, searching, key);
    s' := Searched(s, t, key);
    assert searching.pcs[t := s'.pcs[t]] == s.pcs[t := s'.pcs[t]];
    Advance(s, searching, t, s');
  }

  lemma SameQueue(s: State, t: nat, s': State, key: nat)
    requires s.Sized() && t < |s.pcs| && s' == s.Move(t, Searching(key)).Own(key, Some(t))
    ensures s'.Sized() && s'.QueueOf(key) == s.QueueOf(key)
  {
  }

  /** The lot after unpark_one has flagged its target, released the bucket and woken it. */
  function Finished(s: State, t: nat, key: nat, target: Option<nat>): State
    requires s.Sized() && t < |s.pcs| && (target.Some? ==> target.value < |s.pcs|)
  {
    if target.None? then s.Move(t, Out).Own(key, None)
    else
      var u := target.value;
      var woken := if s.pcs[u].Asleep? then Parked(s.pcs[u].key) else s.pcs[u];
      s.Move(u, woken).Move(t, Out).Own(key, None).(flags := s.flags[u := 1])
  }

  lemma TargetIsThread(s: State, t: nat)
    requires Inv(s) && s.Sized() && t < |s.pcs| && s.pcs[t].Told? && s.pcs[t].target.Some?
    ensures s.pcs[t].target.value < |s.pcs| && s.pcs[t].target.value != t
  {
    assert TargetInv(s, t) && Aims(s.pcs[t], s.pcs[t].target.value);
  }

  /** The rest of unpark_one, from behind its callback. */
  lemma FinishAlone(s: State, t: nat) returns (s': State)
    requires Inv(s) && s.Sized() && t < |s.pcs| && s.pcs[t].Told?
    ensures s.pcs[t].target.Some? ==> s.pcs[t].target.value < |s.pcs|
    ensures Reaches(LotBy(t), s, s') && Inv(s') && s' == Finished(s, t, s.pcs[t].key, s.pcs[t].target)
  {
    hide Inv, QueueInv, HashAddress, HasKey, FirstOf, AfterUnpark, ResultOf;
    var key, target := s.pcs[t].key, s.pcs[t].target;
    ReachesSelf(LotBy(t), s);
    if target.None? {
      var releasing := s.Move(t, Releasing(key, target, 0));
      Advance(s, s, t, releasing);
      s' := Finished(s, t, key, target);
      assert releasing.pcs[t := Out] == s.pcs[t := Out];
      Advance(s, releasing, t, s');
    } else {
      TargetIsThread(s, t);
      s' := FlagsAlone(s, t);
    }
  }

  lemma FlagsAlone(s: State, t: nat) returns (s': State)
    requires Inv(s) && s.Sized() && t < |s.pcs| && s.pcs[t].Told? && s.pcs[t].target.Some?
    requires s.pcs[t].target.value < |s.pcs| && s.pcs[t].target.value != t
    ensures Reaches(LotBy(t), s, s') && Inv(s') && s' == Finished(s, t, s.pcs[t].key, s.pcs[t].target)
  {
    hide Inv, QueueInv, HashAddress, HasKey, FirstOf, AfterUnpark, ResultOf;
    var key, target := s.pcs[t].key, s.pcs[t].target;
    var u := target.value;
    ReachesSelf(LotBy(t), s);
    var releasing := s.Move(t, Releasing(key, target, s.joined[u])).(flags := s.flags[u := 1]);
    Advance(s, s, t, releasing);
    var waking := s.Move(t, Waking(u, s.joined[u])).Own(key, None).(flags := s.flags[u := 1]);
    assert releasing.pcs[t := waking.pcs[t]] == waking.pcs;
    Advance(s, releasing, t, waking);
    s' := WakesAlone(s, waking, t);
    SameEnd(s, t, key, u, waking);
  }

  lemma SameEnd(s: State, t: nat, key: nat, u: nat, waking: State)
    requires s.Sized() && t < |s.pcs| && u < |s.pcs| && u != t
    requires waking == s.Move(t, Waking(u, s.joined[u])).Own(key, None).(flags := s.flags[u := 1])
    ensures Woken(waking, t, u) == Finished(s, t, key, Some(u))
  {
    assert waking.pcs[u] == s.pcs[u];
    assert Woken(waking, t, u).pcs == Finished(s, t, key, Some(u)).pcs;
  }

  /** The lot after thread t has woken thread u and returned. */
  function Woken(s: State, t: nat, u: nat): State
    requires t < |s.pcs| && u < |s.pcs|
  {
    s.Move(t, Out).Move(u, if s.pcs[u].Asleep? then Parked(s.pcs[u].key) else s.pcs[u])
  }

  lemma WakesAlone(s: State, mid: State, t: nat) returns (s': State)
    requires Reaches(LotBy(t), s, mid) && Inv(mid) && mid.Sized() && t < |mid.pcs| && mid.pcs[t].Waking?
    requires mid.pcs[t].thread < |mid.pcs| && mid.pcs[t].thread != t
    ensures Reaches(LotBy(t), s, s') && Inv(s') && s' == Woken(mid, t, mid.pcs[t].thread)
  {
    hide Inv, QueueInv, HashAddress, HasKey, FirstOf, AfterUnpark, ResultOf;
    s' := Woken(mid, t, mid.pcs[t].thread);
    assert mid.pcs[t := Out][mid.pcs[t].thread := mid.pcs[mid.pcs[t].thread]] == mid.pcs[t := Out];
    Advance(s, mid, t, s');
  }

  /** The lot after thread t has queued its node, released the bucket and gone to sleep. */
  function Joined(s: State, t: nat, key: nat): State
    requires s.Sized() && t < |s.pcs|
  {
    s.Move(t, Asleep(key)).SetQueue(key, s.QueueOf(key) + [Waiter(key, t)]).Own(key, None)
     .(flags := s.flags[t := 0], joined := s.joined[t := s.joined[t] + 1])
  }

  /** The part of park behind its validation, up to the futex. */
  lemma JoinAlone(s: State, t: nat) returns (s': State)
    requires Inv(s) && s.Sized() && t < |s.pcs| && s.pcs[t].Accepting?
    ensures Reaches(LotBy(t), s, s') && Inv(s') && s' == Joined(s, t, s.pcs[t].key)
  {
    hide Inv, QueueInv, HashAddress, HasKey, FirstOf, AfterUnpark, ResultOf;
    var key := s.pcs[t].key;
    ReachesSelf(LotBy(t), s);
    var enqueued := s.Move(t, Enqueued(key)).SetQueue(key, s.QueueOf(key) + [Waiter(key, t)])
                     .(flags := s.flags[t := 0], joined := s.joined[t := s.joined[t] + 1]);
    Advance(s, s, t, enqueued);
    s' := Joined(s, t, key);
    var parked := s'.Move(t, Parked(key));
    assert enqueued.pcs[t := Parked(key)] == parked.pcs;
    Advance(s, enqueued, t, parked);
    var blocking := s'.Move(t, Blocking(key));
    assert parked.pcs[t := Blocking(key)] == blocking.pcs;
    Advance(s, parked, t, blocking);
    assert blocking.pcs[t := Asleep(key)] == s'.pcs;
    Advance(s, blocking, t, s');
  }

  /** A parked thread whose flag is set returns by its own steps alone. */
  lemma ReturnAlone(s: State, t: nat) returns (s': State)
    requires Inv(s) && s.Sized() && t < |s.pcs| && s.flags[t] != 0
    requires s.pcs[t].Parked? || s.pcs[t].Blocking? || s.pcs[t].Asleep?
    ensures Reaches(LotBy(t), s, s') && Inv(s') && s' == s.Move(t, Out)
  {
    hide Inv, QueueInv, HashAddress, HasKey, FirstOf, AfterUnpark, ResultOf;
    ReachesSelf(LotBy(t), s);
    var parked := s.Move(t, Parked(s.pcs[t].key));
    if s.pcs[t].Parked? {
      assert parked == s;
    } else {
      Advance(s, s, t, parked);
    }
    s' := s.Move(t, Out);
    assert parked.pcs[t := Out] == s'.pcs;
    Advance(s, parked, t, s');
  }

  // Whole calls, with the lock's callback in the middle.

  /** What a whole unpark_one leaves: the node that waited longest is out of the
      queue, its flag is set and its thread out of the futex. */
  function Unparked(s: State, key: nat): State
    requires s.Sized() && (HasKey(s.QueueOf(key), key) ==> Oldest(s.QueueOf(key), key) < |s.pcs|)
  {
    if !HasKey(s.QueueOf(key), key) then s
    else
      var u := Oldest(s.QueueOf(key), key);
      var woken := if s.pcs[u].Asleep? then Parked(s.pcs[u].key) else s.pcs[u];
      s.TakeOldest(key).(flags := s.flags[u := 1], pcs := s.pcs[u := woken])
  }

  lemma UnparkedIsWhole(s: State, t: nat, key: nat)
    requires s.Sized() && t < |s.pcs| && s.pcs[t].Out? && IsOpen(s, key)
    requires HasKey(s.QueueOf(key), key) ==>
               Oldest(s.QueueOf(key), key) < |s.pcs| && Oldest(s.QueueOf(key), key) != t
    ensures var found := Searched(s.Move(t, Calling(key)), t, key);
      && found.Sized() && |found.pcs| == |s.pcs| && found.pcs[t].Unlinked? && found.pcs[t].key == key
      && found.pcs[t].result == ResultOf(s.QueueOf(key), key)
      && (found.pcs[t].target.Some? ==> found.pcs[t].target.value < |s.pcs|)
      && Finished(found.Move(t, Told(key, found.pcs[t].target)), t, key, found.pcs[t].target) == Unparked(s, key)
  {
    hide HasKey, AfterUnpark, FirstOf;
    var found := Searched(s.Move(t, Calling(key)), t, key);
    var after := Finished(found.Move(t, Told(key, found.pcs[t].target)), t, key, found.pcs[t].target);
    assert after.pcs == Unparked(s, key).pcs;
    assert after.buckets == Unparked(s, key).buckets;
  }

  /** What a whole park that is accepted leaves: the thread sleeps, and its node is
      behind all others with its flag cleared. */
  function Waited(s: State, t: nat, key: nat): State
    requires s.Sized() && t < |s.pcs|
  {
    s.Move(t, Asleep(key)).SetQueue(key, s.QueueOf(key) + [Waiter(key, t)])
     .(flags := s.flags[t := 0], joined := s.joined[t := s.joined[t] + 1])
  }

  lemma WaitedIsWhole(s: State, t: nat, key: nat)
    requires s.Sized() && t < |s.pcs| && s.pcs[t].Out? && IsOpen(s, key)
    ensures var accepting := s.Move(t, Accepting(key)).Own(key, Some(t));
      accepting.Sized() && |accepting.pcs| == |s.pcs| && Joined(accepting, t, key) == Waited(s, t, key)
  {
    var accepting := s.Move(t, Accepting(key)).Own(key, Some(t));
    assert Joined(accepting, t, key).pcs == Waited(s, t, key).pcs;
    assert Joined(accepting, t, key).buckets == Waited(s, t, key).buckets;
  }

  /** The oldest node of a key is not that of a thread outside. */
  lemma OldestWaits(s: State, t: nat, key: nat)
    requires Inv(s) && s.Sized() && t < |s.pcs| && s.pcs[t].Out?
    ensures HasKey(s.QueueOf(key), key) ==>
              Oldest(s.QueueOf(key), key) < |s.pcs| && Oldest(s.QueueOf(key), key) != t
  {
    var b := HashAddress(key);
    assert BucketInv(s, b, s.buckets[b].queue);
    if HasKey(s.QueueOf(key), key) {
      assert WaiterInv(s, b, s.buckets[b].queue[FirstOf(s.buckets[b].queue, key)]);
    }
  }

  lemma ArriveAlone(s: State, t: nat) returns (s': State)
    requires Inv(s) && s.Sized() && t < |s.pcs| && s.pcs[t].Arriving? && IsOpen(s, s.pcs[t].key)
    ensures Reaches(LotBy(t), s, s') && Inv(s')
    ensures s' == s.Move(t, Deciding(s.pcs[t].key)).Own(s.pcs[t].key, Some(t))
  {
    hide Inv, QueueInv, HashAddress, HasKey, FirstOf, AfterUnpark, ResultOf;
    ReachesSelf(LotBy(t), s);
    s' := s.Move(t, Deciding(s.pcs[t].key)).Own(s.pcs[t].key, Some(t));
    Advance(s, s, t, s');
  }
}
