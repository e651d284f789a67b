/** The parking lot as a step system: any number of threads park and unpark on
    any number of lock addresses, which share 64 buckets.  What a lock decides in
    its callbacks is left to the lock's own step system. */
module Parking {
  import opened Options
  import opened ParkingQueue
  import opened Sequences
  import opened Threads

  /** Where a thread is in `park`, `unpark_one` or `unpark_all`; each point stands
      just before one atomic operation, and the bucket is held from Deciding to
      Enqueued or Refused, from Searching to Releasing, and in Gathering and Emptied. */
  datatype PC =
    | Out
    | Arriving(key: nat)    // park: before taking the bucket
    | Deciding(key: nat)    // before the validation
    | Accepting(key: nat)   // validated, before adding the node
    | Enqueued(key: nat)    // before releasing the bucket
    | Refused(key: nat)     // not validated, before releasing the bucket
    | Parked(key: nat)      // before loading its wake flag
    | Blocking(key: nat)    // flag was 0, before the futex wait
    | Asleep(key: nat)
    | Calling(key: nat)     // unpark_one: before taking the bucket
    | Searching(key: nat)   // before unlinking a node
    | Unlinked(key: nat, result: UnparkResult, target: Option<nat>)  // before the callback
    | Told(key: nat, target: Option<nat>)                            // before storing the wake flag
    | Releasing(key: nat, target: Option<nat>, turn: nat)            // before releasing the bucket
    | Waking(thread: nat, turn: nat)   // before the futex wake, on the node of the thread's turn-th park
    | CallingAll(key: nat)             // unpark_all: before taking the bucket
    | Gathering(key: nat, start: seq<Waiter>, targets: seq<nat>)  // before unlinking the next node of the key
    | Emptied(key: nat, start: seq<Waiter>, targets: seq<nat>)    // before releasing the bucket
    | Flagging(targets: seq<nat>)                                 // before storing the first one's wake flag
    | WakingNext(thread: nat, turn: nat, targets: seq<nat>)       // before its futex wake, the others to follow

  datatype Bucket = Bucket(owner: Option<nat>, queue: seq<Waiter>)

  /** Kept beside the buckets and flags: how often each thread's node was added
      to a queue, and how often it was taken out. */
  datatype State = State(buckets: seq<Bucket>, pcs: seq<PC>, flags: seq<nat>, joined: seq<nat>, removed: seq<nat>)
  {
    ghost predicate Sized() {
      |buckets| == NUM_BUCKETS && |flags| == |pcs| && |joined| == |pcs| && |removed| == |pcs|
    }

    function Move(t: nat, p: PC): State
      requires t < |pcs|
    {
      this.(pcs := pcs[t := p])
    }

    function Own(key: nat, owner: Option<nat>): State
      requires |buckets| == NUM_BUCKETS
    {
      var b := HashAddress(key);
      this.(buckets := buckets[b := buckets[b].(owner := owner)])
    }

    function QueueOf(key: nat): seq<Waiter>
      requires |buckets| == NUM_BUCKETS
    {
      buckets[HashAddress(key)].queue
    }

    function SetQueue(key: nat, queue: seq<Waiter>): State
      requires |buckets| == NUM_BUCKETS
    {
      var b := HashAddress(key);
      this.(buckets := buckets[b := buckets[b].(queue := queue)])
    }

    /** The oldest node of the key leaves the queue. */
    function TakeOldest(key: nat): State
      requires |buckets| == NUM_BUCKETS && HasKey(QueueOf(key), key)
      requires Oldest(QueueOf(key), key) < |removed|
    {
      var u := Oldest(QueueOf(key), key);
      SetQueue(key, AfterUnpark(QueueOf(key), key)).(removed := removed[u := removed[u] + 1])
    }
  }

  /** The thread that has waited longest for the key. */
  function Oldest(queue: seq<Waiter>, key: nat): nat
    requires HasKey(queue, key)
  {
    queue[FirstOf(queue, key)].thread
  }

  predicate Holds(p: PC) {
    || p.Deciding? || p.Accepting? || p.Enqueued? || p.Refused?
    || p.Searching? || p.Unlinked? || p.Told? || p.Releasing?
    || p.Gathering? || p.Emptied?
  }

  /** The node may be in the queue. */
  predicate Waits(p: PC) {
    p.Enqueued? || p.Parked? || p.Blocking? || p.Asleep?
  }

  /** The threads that were unlinked and have still to be flagged. */
  function Targets(p: PC): seq<nat> {
    if p.Unlinked? || p.Told? then (if p.target.None? then [] else [p.target.value])
    else if p.Gathering? || p.Emptied? || p.Flagging? || p.WakingNext? then p.targets
    else []
  }

  predicate Aims(p: PC, v: nat) {
    v in Targets(p)
  }

  ghost predicate Init(s: State) {
    && s.Sized()
    && (forall b :: 0 <= b < NUM_BUCKETS ==> s.buckets[b] == Bucket(None, []))
    && (forall t :: 0 <= t < |s.pcs| ==> s.pcs[t] == Out && s.flags[t] == 0 && s.joined[t] == 0 && s.removed[t] == 0)
  }

  /** A lock calls park, unpark_one or unpark_all. */
  ghost predicate Enter(s: State, t: nat, p: PC, s': State) {
    && t < |s.pcs| && s.pcs[t].Out? && (p.Arriving? || p.Calling? || p.CallingAll?)
    && s' == s.Move(t, p)
  }

  /** The lock's validation callback has spoken. */
  ghost predicate Decide(s: State, t: nat, accept: bool, s': State) {
    && t < |s.pcs| && s.pcs[t].Deciding?
    && s' == s.Move(t, if accept then Accepting(s.pcs[t].key) else Refused(s.pcs[t].key))
  }

  /** The lock's unpark callback has returned. */
  ghost predicate Answer(s: State, t: nat, s': State) {
    && t < |s.pcs| && s.pcs[t].Unlinked?
    && s' == s.Move(t, Told(s.pcs[t].key, s.pcs[t].target))
  }

  /** One atomic operation of the parking lot itself. */
  ghost predicate Step(s: State, t: nat, s': State)
    requires s.Sized() && t < |s.pcs|
  {
    match s.pcs[t]
    case Out => false
    case Arriving(key) =>
      s.buckets[HashAddress(key)].owner.None? && s' == s.Move(t, Deciding(key)).Own(key, Some(t))
    case Deciding(key) => false
    case Accepting(key) =>
      s' == s.Move(t, Enqueued(key)).SetQueue(key, s.QueueOf(key) + [Waiter(key, t)])
             .(flags := s.flags[t := 0], joined := s.joined[t := s.joined[t] + 1])
    case Enqueued(key) =>
      s' == s.Move(t, Parked(key)).Own(key, None)
    case Refused(key) =>
      s' == s.Move(t, Out).Own(key, None)
    case Parked(key) =>
      s' == s.Move(t, if s.flags[t] == 0 then Blocking(key) else Out)
    case Blocking(key) =>
      s' == s.Move(t, if s.flags[t] == 0 then Asleep(key) else Parked(key))
    case Asleep(key) =>
      s' == s.Move(t, Parked(key))
    case Calling(key) =>
      s.buckets[HashAddress(key)].owner.None? && s' == s.Move(t, Searching(key)).Own(key, Some(t))
    case Searching(key) =>
      var queue := s.QueueOf(key);
      if HasKey(queue, key) then
        var u := Oldest(queue, key);
        u < |s.pcs| && s' == s.Move(t, Unlinked(key, ResultOf(queue, key), Some(u))).TakeOldest(key)
      else
        s' == s.Move(t, Unlinked(key, NoWaiter, None))
    case Unlinked(_, _, _) => false
    case Told(key, target) =>
      if target.None? then s' == s.Move(t, Releasing(key, target, 0))
      else
        && target.value < |s.pcs|
        && s' == s.Move(t, Releasing(key, target, s.joined[target.value])).(flags := s.flags[target.value := 1])
    case Releasing(key, target, turn) =>
      s' == s.Move(t, if target.None? then Out else Waking(target.value, turn)).Own(key, None)
    case Waking(u, turn) => WakeStep(s, t, Out, u, turn, s')
    case CallingAll(key) =>
      && s.buckets[HashAddress(key)].owner.None?
      && s' == s.Move(t, Gathering(key, s.QueueOf(key), [])).Own(key, Some(t))
    case Gathering(key, start, targets) =>
      var queue := s.QueueOf(key);
      if HasKey(queue, key) then
        var u := Oldest(queue, key);
        u < |s.pcs| && s' == s.Move(t, Gathering(key, start, targets + [u])).TakeOldest(key)
      else
        s' == s.Move(t, Emptied(key, start, targets))
    case Emptied(key, _, targets) =>
      s' == s.Move(t, Flagging(targets)).Own(key, None)
    case Flagging(targets) =>
      if targets == [] then s' == s.Move(t, Out)
      else
        var u := targets[0];
        && u < |s.pcs|
        && s' == s.Move(t, WakingNext(u, s.joined[u], targets[1..])).(flags := s.flags[u := 1])
    case WakingNext(u, turn, targets) => WakeStep(s, t, Flagging(targets), u, turn, s')
  }

  /** The futex wake of thread u, for the node of its turn-th park: a thread that
      has parked again may or may not do so with the same node. */
  ghost predicate WakeStep(s: State, t: nat, p: PC, u: nat, turn: nat, s': State)
    requires t < |s.pcs|
  {
    || (u < |s.joined| && s.joined[u] != turn && s' == s.Move(t, p))
    || s' == if u < |s.pcs| && s.pcs[u].Asleep? then s.Move(t, p).Move(u, Parked(s.pcs[u].key)) else s.Move(t, p)
  }

  /** Any step of the lot, with the locks' decisions left open. */
  ghost predicate AnyStep(s: State, t: nat, s': State)
    requires s.Sized() && t < |s.pcs|
  {
    || Step(s, t, s')
    || (exists p :: Enter(s, t, p, s'))
    || (exists accept :: Decide(s, t, accept, s'))
    || Answer(s, t, s')
  }

  // Who holds a bucket.

  ghost predicate OwnerInv(s: State) {
    && s.Sized()
    && (forall t :: 0 <= t < |s.pcs| && Holds(s.pcs[t]) ==>
          s.buckets[HashAddress(s.pcs[t].key)].owner == Some(t))
    && (forall b :: 0 <= b < NUM_BUCKETS && s.buckets[b].owner.Some? ==>
          var t := s.buckets[b].owner.value;
          t < |s.pcs| && Holds(s.pcs[t]) && HashAddress(s.pcs[t].key) == b)
  }

  /** A step that changes nobody's hold on a bucket. */
  ghost predicate SameHolds(s: State, s': State) {
    && |s'.pcs| == |s.pcs| && |s'.buckets| == |s.buckets|
    && (forall b :: 0 <= b < |s.buckets| ==> s'.buckets[b].owner == s.buckets[b].owner)
    && (forall t :: 0 <= t < |s.pcs| ==>
          Holds(s'.pcs[t]) == Holds(s.pcs[t]) && (Holds(s.pcs[t]) ==> s'.pcs[t].key == s.pcs[t].key))
  }

  lemma TakeKeepsOwner(s: State, t: nat, s': State)
    requires OwnerInv(s) && t < |s.pcs| && Step(s, t, s')
    requires s.pcs[t].Arriving? || s.pcs[t].Calling? || s.pcs[t].CallingAll?
    ensures OwnerInv(s')
  {
  }

  lemma ReleaseKeepsOwner(s: State, t: nat, s': State)
    requires OwnerInv(s) && t < |s.pcs| && Step(s, t, s')
    requires s.pcs[t].Enqueued? || s.pcs[t].Refused? || s.pcs[t].Releasing? || s.pcs[t].Emptied?
    ensures OwnerInv(s')
  {
    var b := HashAddress(s.pcs[t].key);
    forall u | 0 <= u < |s'.pcs| && Holds(s'.pcs[u])
      ensures s'.buckets[HashAddress(s'.pcs[u].key)].owner == Some(u)
    {
      assert u != t && HashAddress(s.pcs[u].key) != b;
    }
  }

  /** A callback's step, or one of park's that does not touch the bucket's owner. */
  lemma ParkStepsKeepHolds(s: State, t: nat, s': State)
    requires s.Sized() && t < |s.pcs| && AnyStep(s, t, s')
    requires !Step(s, t, s') || s.pcs[t].Accepting? || s.pcs[t].Parked? || s.pcs[t].Blocking? || s.pcs[t].Asleep?
    ensures SameHolds(s, s') && s'.Sized()
  {
    hide HashAddress, HasKey, AfterUnpark, FirstOf, ResultOf;
  }

  lemma UnparkStepsKeepHolds(s: State, t: nat, s': State)
    requires s.Sized() && t < |s.pcs| && Step(s, t, s')
    requires s.pcs[t].Searching? || s.pcs[t].Told? || s.pcs[t].Waking?
    ensures SameHolds(s, s') && s'.Sized()
  {
    hide HashAddress, HasKey, AfterUnpark, FirstOf, ResultOf;
  }

  lemma GatherKeepsHolds(s: State, t: nat, s': State)
    requires s.Sized() && t < |s.pcs| && Step(s, t, s') && s.pcs[t].Gathering?
    ensures SameHolds(s, s') && s'.Sized()
  {
    hide HashAddress, HasKey, AfterUnpark, FirstOf, ResultOf;
  }

  lemma FlaggingKeepsHolds(s: State, t: nat, s': State)
    requires s.Sized() && t < |s.pcs| && Step(s, t, s') && (s.pcs[t].Flagging? || s.pcs[t].WakingNext?)
    ensures SameHolds(s, s') && s'.Sized()
  {
    hide HashAddress, HasKey, AfterUnpark, FirstOf, ResultOf;
  }

  lemma StepKeepsOwner(s: State, t: nat, s': State)
    requires OwnerInv(s) && t < |s.pcs| && AnyStep(s, t, s')
    ensures OwnerInv(s')
  {
    var p := s.pcs[t];
    if p.Arriving? || p.Calling? || p.CallingAll? {
      TakeKeepsOwner(s, t, s');
    } else if p.Enqueued? || p.Refused? || p.Releasing? || p.Emptied? {
      ReleaseKeepsOwner(s, t, s');
    } else if p.Gathering? {
      GatherKeepsHolds(s, t, s');
    } else if p.Flagging? || p.WakingNext? {
      FlaggingKeepsHolds(s, t, s');
    } else if p.Searching? || p.Told? || p.Waking? {
      UnparkStepsKeepHolds(s, t, s');
    } else {
      ParkStepsKeepHolds(s, t, s');
    }
  }

  // Who is in a queue.

  ghost predicate Occurs(queue: seq<Waiter>, t: nat) {
    exists i :: 0 <= i < |queue| && queue[i].thread == t
  }

  /** The thread's node is in the queue it was added to. */
  ghost predicate Queued(s: State, t: nat)
    requires s.Sized() && t < |s.pcs|
  {
    Waits(s.pcs[t]) && Occurs(s.QueueOf(s.pcs[t].key), t)
  }

  ghost predicate WaiterInv(s: State, b: nat, w: Waiter) {
    && HashAddress(w.key) == b && w.thread < |s.pcs| && w.thread < |s.flags|
    && Waits(s.pcs[w.thread]) && s.pcs[w.thread].key == w.key && s.flags[w.thread] == 0
  }

  ghost predicate BucketInv(s: State, b: nat, queue: seq<Waiter>) {
    && (forall i :: 0 <= i < |queue| ==> WaiterInv(s, b, queue[i]))
    && (forall i, j :: 0 <= i < j < |queue| ==> queue[i].thread != queue[j].thread)
  }

  ghost predicate TargetInv(s: State, u: nat)
    requires s.Sized() && u < |s.pcs|
  {
    && Distinct(Targets(s.pcs[u]))
    && forall t: nat :: Aims(s.pcs[u], t) ==>
         t < |s.pcs| && Waits(s.pcs[t]) && !s.pcs[t].Enqueued? && s.flags[t] == 0 && !Queued(s, t)
  }

  /** No two threads are about to flag the same one. */
  ghost predicate TargetsDiffer(pcs: seq<PC>) {
    forall u, v, t: nat :: 0 <= u < |pcs| && 0 <= v < |pcs| && Aims(pcs[u], t) && Aims(pcs[v], t) ==> u == v
  }

  ghost predicate ThreadInv(s: State, t: nat)
    requires s.Sized() && t < |s.pcs|
  {
    && (s.pcs[t].Enqueued? ==> Queued(s, t))
    && s.joined[t] == s.removed[t] + (if Queued(s, t) then 1 else 0)
  }

  ghost predicate QueueInv(s: State) {
    && OwnerInv(s)
    && (forall b :: 0 <= b < NUM_BUCKETS ==> BucketInv(s, b, s.buckets[b].queue))
    && (forall t :: 0 <= t < |s.pcs| ==> ThreadInv(s, t))
    && (forall u :: 0 <= u < |s.pcs| ==> TargetInv(s, u))
    && TargetsDiffer(s.pcs)
  }

  lemma QueueInvOf(s: State, u: nat)
    requires QueueInv(s) && u < |s.pcs|
    ensures OwnerInv(s) && s.Sized() && TargetsDiffer(s.pcs) && ThreadInv(s, u) && TargetInv(s, u)
  {
  }

  lemma BucketInvOf(s: State, b: nat)
    requires QueueInv(s) && b < NUM_BUCKETS
    ensures s.Sized() && BucketInv(s, b, s.buckets[b].queue)
  {
  }

  /** A thread's move that leaves queues and flags alone: it goes on waiting, or
      stops waiting because its flag is set. */
  ghost predicate Quiet(p: PC, p': PC, flag: nat) {
    && ((Waits(p) <==> Waits(p')) || (Waits(p) && flag != 0))
    && (Waits(p) && Waits(p') ==> p'.key == p.key)
    && (p'.Enqueued? ==> p.Enqueued?)
    && (Targets(p') == [] || Targets(p') == Targets(p))
  }

  lemma QuietKeepsTargets(pcs: seq<PC>, pcs': seq<PC>, flags: seq<nat>)
    requires TargetsDiffer(pcs) && |pcs'| == |pcs| == |flags|
    requires forall t :: 0 <= t < |pcs| ==> Quiet(pcs[t], pcs'[t], flags[t])
    ensures TargetsDiffer(pcs')
  {
    forall u, v, t: nat | 0 <= u < |pcs| && 0 <= v < |pcs| && Aims(pcs'[u], t) && Aims(pcs'[v], t)
      ensures u == v
    {
      assert Quiet(pcs[u], pcs'[u], flags[u]) && Quiet(pcs[v], pcs'[v], flags[v]);
      assert Aims(pcs[u], t) && Aims(pcs[v], t);
    }
  }

  lemma QuietKeepsQueue(s: State, s': State)
    requires QueueInv(s) && OwnerInv(s') && |s'.pcs| == |s.pcs|
    requires s'.flags == s.flags && s'.joined == s.joined && s'.removed == s.removed
    requires forall b :: 0 <= b < NUM_BUCKETS ==> s'.buckets[b].queue == s.buckets[b].queue
    requires forall t :: 0 <= t < |s.pcs| ==> Quiet(s.pcs[t], s'.pcs[t], s.flags[t])
    ensures QueueInv(s')
    ensures forall t :: 0 <= t < |s.pcs| ==> (Queued(s', t) <==> Queued(s, t))
  {
    forall b | 0 <= b < NUM_BUCKETS
      ensures BucketInv(s', b, s'.buckets[b].queue)
    {
      var queue := s.buckets[b].queue;
      assert BucketInv(s, b, queue);
      forall i | 0 <= i < |queue|
        ensures WaiterInv(s', b, queue[i])
      {
        assert WaiterInv(s, b, queue[i]);
        assert Quiet(s.pcs[queue[i].thread], s'.pcs[queue[i].thread], s.flags[queue[i].thread]);
      }
    }
    forall t | 0 <= t < |s.pcs|
      ensures Queued(s', t) <==> Queued(s, t)
    {
      assert Quiet(s.pcs[t], s'.pcs[t], s.flags[t]);
      if Queued(s, t) {
        OccupantWaits(s, HashAddress(s.pcs[t].key), t);
      }
    }
    forall t | 0 <= t < |s.pcs|
      ensures ThreadInv(s', t) && TargetInv(s', t)
    {
      assert Quiet(s.pcs[t], s'.pcs[t], s.flags[t]);
      assert ThreadInv(s, t) && TargetInv(s, t);
      forall u: nat | Aims(s'.pcs[t], u)
        ensures u < |s.pcs| && Waits(s'.pcs[u]) && !s'.pcs[u].Enqueued? && s.flags[u] == 0 && !Queued(s', u)
      {
        assert Aims(s.pcs[t], u) && Quiet(s.pcs[u], s'.pcs[u], s.flags[u]);
      }
    }
    QuietKeepsTargets(s.pcs, s'.pcs, s.flags);
  }

  /** Whoever is in a queue waits there, with its flag at 0. */
  lemma OccupantWaits(s: State, b: nat, t: nat)
    requires QueueInv(s) && b < NUM_BUCKETS
    ensures Occurs(s.buckets[b].queue, t) ==>
              t < |s.pcs| && Waits(s.pcs[t]) && HashAddress(s.pcs[t].key) == b && s.flags[t] == 0
  {
    var queue := s.buckets[b].queue;
    if Occurs(queue, t) {
      var i :| 0 <= i < |queue| && queue[i].thread == t;
      assert BucketInv(s, b, queue) && WaiterInv(s, b, queue[i]);
    }
  }

  lemma OccursAppend(queue: seq<Waiter>, w: Waiter, t: nat)
    ensures Occurs(queue + [w], t) <==> Occurs(queue, t) || w.thread == t
  {
    var longer := queue + [w];
    if Occurs(queue, t) {
      var i :| 0 <= i < |queue| && queue[i].thread == t;
      assert longer[i].thread == t;
    }
    assert longer[|queue|] == w;
  }

  lemma OccursWithout(queue: seq<Waiter>, k: nat, t: nat)
    requires k < |queue|
    requires forall i, j :: 0 <= i < j < |queue| ==> queue[i].thread != queue[j].thread
    ensures Occurs(Without(queue, k), t) <==> Occurs(queue, t) && queue[k].thread != t
  {
    var rest := Without(queue, k);
    if Occurs(queue, t) && queue[k].thread != t {
      var i :| 0 <= i < |queue| && queue[i].thread == t;
      assert rest[if i < k then i else i - 1].thread == t;
    }
    if Occurs(rest, t) {
      var i :| 0 <= i < |rest| && rest[i].thread == t;
      assert queue[if i < k then i else i + 1].thread == t;
    }
  }

  /** What adding a node does. */
  lemma EnqueueMoves(s: State, t: nat, s': State)
    requires s.Sized() && t < |s.pcs| && s.pcs[t].Accepting? && Step(s, t, s')
    ensures s'.Sized() && s'.pcs == s.pcs[t := Enqueued(s.pcs[t].key)] && s'.flags == s.flags[t := 0]
    ensures s'.joined == s.joined[t := s.joined[t] + 1] && s'.removed == s.removed
    ensures forall b :: 0 <= b < NUM_BUCKETS ==>
              s'.buckets[b].queue == if b != HashAddress(s.pcs[t].key) then s.buckets[b].queue
                                     else s.buckets[b].queue + [Waiter(s.pcs[t].key, t)]
    ensures forall u :: 0 <= u < |s.pcs| ==> Targets(s'.pcs[u]) == Targets(s.pcs[u])
  {
    hide HasKey, AfterUnpark, FirstOf, ResultOf;
  }

  lemma EnqueueQueued(s: State, t: nat, s': State, u: nat)
    requires QueueInv(s) && t < |s.pcs| && s.pcs[t].Accepting? && Step(s, t, s') && u < |s.pcs|
    ensures s'.Sized() && u < |s'.pcs| && !Queued(s, t) && (Queued(s', u) <==> Queued(s, u) || u == t)
  {
    hide QueueInv, Step, OwnerInv, ThreadInv, TargetInv, HashAddress, Targets;
    QueueInvOf(s, t);
    EnqueueMoves(s, t, s');
    OccursAppend(s.QueueOf(s.pcs[t].key), Waiter(s.pcs[t].key, t), u);
  }

  lemma EnqueueKeepsBucket(s: State, t: nat, s': State, b: nat)
    requires QueueInv(s) && t < |s.pcs| && s.pcs[t].Accepting? && Step(s, t, s') && b < NUM_BUCKETS
    ensures s'.Sized() && BucketInv(s', b, s'.buckets[b].queue)
  {
    hide QueueInv, Step, OwnerInv, ThreadInv, TargetInv, Targets;
    QueueInvOf(s, t);
    BucketInvOf(s, b);
    EnqueueMoves(s, t, s');
    OccupantWaits(s, b, t);
    var queue := s.buckets[b].queue;
    forall i | 0 <= i < |queue|
      ensures WaiterInv(s', b, queue[i]) && queue[i].thread != t
    {
      assert Occurs(queue, queue[i].thread);
      assert WaiterInv(s, b, queue[i]);
    }
  }

  lemma EnqueueKeepsThread(s: State, t: nat, s': State, u: nat)
    requires QueueInv(s) && t < |s.pcs| && s.pcs[t].Accepting? && Step(s, t, s') && u < |s.pcs|
    ensures s'.Sized() && u < |s'.pcs| && ThreadInv(s', u) && TargetInv(s', u)
  {
    hide QueueInv, Step, OwnerInv, HashAddress, Targets, Queued;
    QueueInvOf(s, u);
    EnqueueMoves(s, t, s');
    EnqueueQueued(s, t, s', u);
    forall v: nat | Aims(s'.pcs[u], v)
      ensures v < |s.pcs| && Waits(s'.pcs[v]) && !s'.pcs[v].Enqueued? && s'.flags[v] == 0 && !Queued(s', v)
    {
      assert Aims(s.pcs[u], v);
      EnqueueQueued(s, t, s', v);
    }
  }

  lemma EnqueueKeepsQueue(s: State, t: nat, s': State)
    requires QueueInv(s) && OwnerInv(s') && t < |s.pcs| && s.pcs[t].Accepting? && Step(s, t, s')
    ensures QueueInv(s')
  {
    hide Step, OwnerInv, BucketInv, ThreadInv, TargetInv, Targets;
    QueueInvOf(s, t);
    EnqueueMoves(s, t, s');
    forall b | 0 <= b < NUM_BUCKETS
      ensures BucketInv(s', b, s'.buckets[b].queue)
    {
      EnqueueKeepsBucket(s, t, s', b);
    }
    forall u | 0 <= u < |s'.pcs|
      ensures ThreadInv(s', u) && TargetInv(s', u)
    {
      EnqueueKeepsThread(s, t, s', u);
    }
    assert forall u, v :: 0 <= u < |s.pcs| ==> (Aims(s'.pcs[u], v) <==> Aims(s.pcs[u], v));
  }

  /** The thread is about to unlink a node of its key. */
  ghost predicate Finds(s: State, t: nat)
    requires s.Sized() && t < |s.pcs|
  {
    (s.pcs[t].Searching? || s.pcs[t].Gathering?) && HasKey(s.QueueOf(s.pcs[t].key), s.pcs[t].key)
  }

  /** The thread whose node it takes out of the queue. */
  ghost function Found(s: State, t: nat): (u: nat)
    requires s.Sized() && t < |s.pcs| && Finds(s, t)
  {
    Oldest(s.QueueOf(s.pcs[t].key), s.pcs[t].key)
  }

  lemma FoundWaits(s: State, t: nat)
    requires QueueInv(s) && t < |s.pcs| && Finds(s, t)
    ensures var u := Found(s, t);
      && u < |s.pcs| && u != t && Queued(s, u) && !s.pcs[u].Enqueued? && s.flags[u] == 0
      && s.pcs[u].key == s.pcs[t].key
  {
    var key := s.pcs[t].key;
    var queue := s.QueueOf(key);
    assert BucketInv(s, HashAddress(key), queue);
    assert WaiterInv(s, HashAddress(key), queue[FirstOf(queue, key)]);
  }

  /** What unlinking a node does. */
  lemma UnlinkMoves(s: State, t: nat, s': State)
    requires s.Sized() && t < |s.pcs| && Finds(s, t) && Step(s, t, s')
    ensures t < |s'.pcs| && Found(s, t) < |s.removed| && s' == s.Move(t, s'.pcs[t]).TakeOldest(s.pcs[t].key)
    ensures s'.Sized() && !Waits(s'.pcs[t]) && Targets(s'.pcs[t]) == Targets(s.pcs[t]) + [Found(s, t)]
    ensures s'.flags == s.flags && s'.pcs == s.pcs[t := s'.pcs[t]] && s'.joined == s.joined
    ensures forall b :: 0 <= b < NUM_BUCKETS ==>
              s'.buckets[b].queue == if b != HashAddress(s.pcs[t].key) then s.buckets[b].queue
                                     else AfterUnpark(s.buckets[b].queue, s.pcs[t].key)
    ensures forall u :: 0 <= u < |s.removed| ==> s'.removed[u] == s.removed[u] + if u == Found(s, t) then 1 else 0
  {
    hide HasKey, FirstOf, AfterUnpark, ResultOf;
  }

  /** Whoever waits in a queue does not notice another thread's move. */
  lemma WaiterStays(s: State, s': State, t: nat, b: nat, w: Waiter)
    requires WaiterInv(s, b, w) && t < |s.pcs| && !Waits(s.pcs[t])
    requires |s'.pcs| == |s.pcs| && s'.pcs == s.pcs[t := s'.pcs[t]] && s'.flags == s.flags
    ensures WaiterInv(s', b, w)
  {
    hide HashAddress;
  }

  lemma UnlinkKeepsBucket(s: State, t: nat, s': State, b: nat)
    requires QueueInv(s) && t < |s.pcs| && Finds(s, t) && Step(s, t, s') && b < NUM_BUCKETS
    ensures BucketInv(s', b, s'.buckets[b].queue)
  {
    UnlinkMoves(s, t, s');
    FoundWaits(s, t);
    var key := s.pcs[t].key;
    var before, after := s.buckets[b].queue, s'.buckets[b].queue;
    assert BucketInv(s, b, before);
    assert b == HashAddress(key) ==> after == Without(before, FirstOf(before, key));
    var k := if b == HashAddress(key) then FirstOf(before, key) else |before|;
    hide *;
    ListStays(s, s', t, b, before, k, after);
  }

  lemma ListStays(s: State, s': State, t: nat, b: nat, before: seq<Waiter>, k: nat, after: seq<Waiter>)
    requires BucketInv(s, b, before) && t < |s.pcs| && !Waits(s.pcs[t])
    requires |s'.pcs| == |s.pcs| && s'.pcs == s.pcs[t := s'.pcs[t]] && s'.flags == s.flags
    requires after == if k < |before| then Without(before, k) else before
    ensures BucketInv(s', b, after)
  {
    hide WaiterInv, Waits;
    forall i | 0 <= i < |after|
      ensures WaiterInv(s', b, after[i])
    {
      assert WaiterInv(s, b, before[if i >= k then i + 1 else i]);
      WaiterStays(s, s', t, b, after[i]);
    }
  }

  lemma UnlinkQueued(s: State, t: nat, s': State, u: nat)
    requires QueueInv(s) && t < |s.pcs| && Finds(s, t) && Step(s, t, s') && u < |s.pcs|
    ensures s'.Sized()
    ensures Queued(s', u) <==> Queued(s, u) && u != Found(s, t)
  {
    UnlinkMoves(s, t, s');
    hide Step, HasKey, Targets;
    var queue := s.QueueOf(s.pcs[t].key);
    assert BucketInv(s, HashAddress(s.pcs[t].key), queue);
    OccursWithout(queue, FirstOf(queue, s.pcs[t].key), u);
    FoundWaits(s, t);
  }

  /** A thread becomes the target of another, and was nobody's before. */
  lemma OneMoreAim(pcs: seq<PC>, t: nat, pcs': seq<PC>, f: nat)
    requires TargetsDiffer(pcs) && t < |pcs| == |pcs'| && Distinct(Targets(pcs[t]))
    requires forall u :: 0 <= u < |pcs| ==> Targets(pcs'[u]) == Targets(pcs[u]) + if u == t then [f] else []
    requires forall u :: 0 <= u < |pcs| ==> !Aims(pcs[u], f)
    ensures forall u, v: nat :: 0 <= u < |pcs| ==> (Aims(pcs'[u], v) <==> Aims(pcs[u], v) || (u == t && v == f))
    ensures Distinct(Targets(pcs'[t])) && TargetsDiffer(pcs')
  {
    hide Targets;
    assert !Aims(pcs[t], f);
    forall u, v: nat | 0 <= u < |pcs|
      ensures Aims(pcs'[u], v) <==> Aims(pcs[u], v) || (u == t && v == f)
    {
      assert Targets(pcs'[u]) == Targets(pcs[u]) + if u == t then [f] else [];
    }
  }

  lemma UnlinkAims(s: State, t: nat, s': State)
    requires QueueInv(s) && t < |s.pcs| && Finds(s, t) && Step(s, t, s')
    ensures |s'.pcs| == |s.pcs|
    ensures forall u, v: nat :: 0 <= u < |s.pcs| ==>
              (Aims(s'.pcs[u], v) <==> Aims(s.pcs[u], v) || (u == t && v == Found(s, t)))
    ensures Distinct(Targets(s'.pcs[t])) && TargetsDiffer(s'.pcs)
  {
    hide QueueInv, Step, HashAddress, HasKey, AfterUnpark, FirstOf, Targets, ThreadInv, OwnerInv, Aims, Queued, Found;
    QueueInvOf(s, t);
    UnlinkMoves(s, t, s');
    FoundWaits(s, t);
    var f := Found(s, t);
    forall u | 0 <= u < |s.pcs|
      ensures !Aims(s.pcs[u], f)
    {
      QueueInvOf(s, u);
    }
    OneMoreAim(s.pcs, t, s'.pcs, f);
  }

  lemma UnlinkKeepsThread(s: State, t: nat, s': State, u: nat)
    requires QueueInv(s) && t < |s.pcs| && Finds(s, t) && Step(s, t, s') && u < |s.pcs|
    ensures s'.Sized() && u < |s'.pcs| && ThreadInv(s', u)
  {
    hide QueueInv, Step, HashAddress, HasKey, AfterUnpark, FirstOf, Queued, Targets, Found, TargetInv, OwnerInv;
    QueueInvOf(s, u);
    UnlinkMoves(s, t, s');
    FoundWaits(s, t);
    UnlinkQueued(s, t, s', u);
  }

  lemma UnlinkKeepsTarget(s: State, t: nat, s': State, u: nat)
    requires QueueInv(s) && t < |s.pcs| && Finds(s, t) && Step(s, t, s') && u < |s.pcs|
    ensures s'.Sized() && u < |s'.pcs| && TargetInv(s', u)
  {
    hide QueueInv, Step, HashAddress, HasKey, AfterUnpark, FirstOf, Queued, Found, Aims;
    hide ThreadInv, OwnerInv, TargetsDiffer;
    QueueInvOf(s, u);
    UnlinkMoves(s, t, s');
    FoundWaits(s, t);
    UnlinkAims(s, t, s');
    assert Distinct(Targets(s'.pcs[u]));
    hide Targets;
    forall v: nat | Aims(s'.pcs[u], v)
      ensures v < |s.pcs| && Waits(s'.pcs[v]) && !s'.pcs[v].Enqueued? && s'.flags[v] == 0 && !Queued(s', v)
    {
      assert Aims(s.pcs[u], v) || v == Found(s, t);
      UnlinkQueued(s, t, s', v);
    }
  }

  lemma UnlinkKeepsQueue(s: State, t: nat, s': State)
    requires QueueInv(s) && OwnerInv(s') && t < |s.pcs| && Finds(s, t) && Step(s, t, s')
    ensures QueueInv(s')
  {
    UnlinkAims(s, t, s');
    hide Step, OwnerInv, BucketInv, ThreadInv, TargetInv, TargetsDiffer;
    forall b | 0 <= b < NUM_BUCKETS
      ensures BucketInv(s', b, s'.buckets[b].queue)
    {
      UnlinkKeepsBucket(s, t, s', b);
    }
    forall u | 0 <= u < |s'.pcs|
      ensures ThreadInv(s', u) && TargetInv(s', u)
    {
      UnlinkKeepsThread(s, t, s', u);
      UnlinkKeepsTarget(s, t, s', u);
    }
  }

  /** The thread is about to set a wake flag, that of its first target. */
  predicate Flags(p: PC) {
    (p.Told? && p.target.Some?) || (p.Flagging? && p.targets != [])
  }

  /** What setting a wake flag does. */
  lemma FlagMoves(s: State, t: nat, s': State)
    requires s.Sized() && t < |s.pcs| && Flags(s.pcs[t]) && Step(s, t, s')
    ensures Targets(s.pcs[t]) != [] && t < |s'.pcs|
    ensures var u := Targets(s.pcs[t])[0];
      && u < |s.pcs| && s' == s.Move(t, s'.pcs[t]).(flags := s.flags[u := 1])
      && WillWake(s'.pcs[t], u, s.joined[u])
    ensures !Waits(s.pcs[t]) && !Waits(s'.pcs[t]) && Targets(s'.pcs[t]) == Targets(s.pcs[t])[1..]
  {
    hide HashAddress, HasKey, FirstOf, AfterUnpark, ResultOf;
  }

  /** A thread gives up its first target, which is nobody's then. */
  lemma OneLessAim(pcs: seq<PC>, t: nat, pcs': seq<PC>)
    requires TargetsDiffer(pcs) && t < |pcs| == |pcs'| && Distinct(Targets(pcs[t])) && Targets(pcs[t]) != []
    requires forall u :: 0 <= u < |pcs| ==> Targets(pcs'[u]) == if u == t then Targets(pcs[t])[1..] else Targets(pcs[u])
    ensures forall u, v: nat :: 0 <= u < |pcs| ==>
              (Aims(pcs'[u], v) <==> Aims(pcs[u], v) && v != Targets(pcs[t])[0])
    ensures Distinct(Targets(pcs'[t])) && TargetsDiffer(pcs')
  {
    hide Targets;
    var f := Targets(pcs[t])[0];
    assert Targets(pcs[t]) == [f] + Targets(pcs[t])[1..];
    assert Aims(pcs[t], f);
    forall u, v: nat | 0 <= u < |pcs|
      ensures Aims(pcs'[u], v) <==> Aims(pcs[u], v) && v != f
    {
      assert Targets(pcs'[u]) == if u == t then Targets(pcs[t])[1..] else Targets(pcs[u]);
    }
  }

  lemma FlagAims(s: State, t: nat, s': State)
    requires QueueInv(s) && t < |s.pcs| && Flags(s.pcs[t]) && Step(s, t, s')
    ensures |s'.pcs| == |s.pcs| && Targets(s.pcs[t]) != []
    ensures forall u, v: nat :: 0 <= u < |s.pcs| ==>
              (Aims(s'.pcs[u], v) <==> Aims(s.pcs[u], v) && v != Targets(s.pcs[t])[0])
    ensures Distinct(Targets(s'.pcs[t])) && TargetsDiffer(s'.pcs)
  {
    FlagMoves(s, t, s');
    hide Step, Targets, BucketInv, ThreadInv, OwnerInv, Aims, Queued;
    assert TargetInv(s, t);
    OneLessAim(s.pcs, t, s'.pcs);
  }

  lemma FlagQueued(s: State, t: nat, s': State, u: nat)
    requires QueueInv(s) && t < |s.pcs| && Flags(s.pcs[t]) && Step(s, t, s') && u < |s.pcs|
    ensures s'.Sized() && u < |s'.pcs| && (Queued(s', u) <==> Queued(s, u))
  {
    FlagMoves(s, t, s');
    hide Step, HashAddress;
  }

  lemma FlagKeepsBucket(s: State, t: nat, s': State, b: nat)
    requires QueueInv(s) && t < |s.pcs| && Flags(s.pcs[t]) && Step(s, t, s') && b < NUM_BUCKETS
    ensures BucketInv(s', b, s'.buckets[b].queue)
  {
    FlagMoves(s, t, s');
    hide Step, HashAddress;
    var target := Targets(s.pcs[t])[0];
    assert TargetInv(s, t) && Aims(s.pcs[t], target);
    var queue := s.buckets[b].queue;
    assert BucketInv(s, b, queue);
    forall i | 0 <= i < |queue|
      ensures WaiterInv(s', b, queue[i])
    {
      assert WaiterInv(s, b, queue[i]);
      assert Occurs(queue, queue[i].thread);
    }
  }

  lemma FlagKeepsThread(s: State, t: nat, s': State, u: nat)
    requires QueueInv(s) && t < |s.pcs| && Flags(s.pcs[t]) && Step(s, t, s') && u < |s.pcs|
    ensures s'.Sized() && u < |s'.pcs| && ThreadInv(s', u) && TargetInv(s', u)
  {
    FlagMoves(s, t, s');
    FlagAims(s, t, s');
    FlagQueued(s, t, s', u);
    hide Step, HashAddress, BucketInv, OwnerInv, Aims, Queued;
    assert ThreadInv(s, u) && TargetInv(s, u);
    forall v: nat | Aims(s'.pcs[u], v)
      ensures v < |s.pcs| && Waits(s'.pcs[v]) && !s'.pcs[v].Enqueued? && s'.flags[v] == 0 && !Queued(s', v)
    {
      assert Aims(s.pcs[u], v);
      FlagQueued(s, t, s', v);
    }
  }

  lemma FlagKeepsQueue(s: State, t: nat, s': State)
    requires QueueInv(s) && OwnerInv(s') && t < |s.pcs| && Flags(s.pcs[t]) && Step(s, t, s')
    ensures QueueInv(s')
  {
    FlagAims(s, t, s');
    hide Step, OwnerInv, BucketInv, ThreadInv, TargetInv, TargetsDiffer;
    forall b | 0 <= b < NUM_BUCKETS
      ensures BucketInv(s', b, s'.buckets[b].queue)
    {
      FlagKeepsBucket(s, t, s', b);
    }
    forall u | 0 <= u < |s'.pcs|
      ensures ThreadInv(s', u) && TargetInv(s', u)
    {
      FlagKeepsThread(s, t, s', u);
    }
  }

  predicate Wakes(p: PC) {
    p.Waking? || p.WakingNext?
  }

  /** What a futex wake does: it may get its thread out of the futex. */
  lemma WakeMoves(s: State, t: nat, s': State)
    requires s.Sized() && t < |s.pcs| && Wakes(s.pcs[t]) && Step(s, t, s')
    ensures s'.Sized() && |s'.pcs| == |s.pcs| && s' == s.(pcs := s'.pcs)
    ensures !Waits(s.pcs[t]) && !Waits(s'.pcs[t]) && !s'.pcs[t].Asleep? && Targets(s'.pcs[t]) == Targets(s.pcs[t])
    ensures forall u :: 0 <= u < |s.pcs| && u != t ==>
              s'.pcs[u] == s.pcs[u] || (s.pcs[u].Asleep? && s'.pcs[u] == Parked(s.pcs[u].key))
    ensures forall u :: 0 <= u < |s.pcs| && WillWake(s.pcs[t], u, s.joined[u]) ==> !s'.pcs[u].Asleep?
  {
    hide HashAddress, HasKey, AfterUnpark, FirstOf, ResultOf;
  }

  /** A wake that finds its thread asleep, or finds it awake or gone. */
  lemma WakeKeepsQueue(s: State, t: nat, s': State)
    requires QueueInv(s) && OwnerInv(s') && t < |s.pcs| && Wakes(s.pcs[t]) && Step(s, t, s')
    ensures QueueInv(s')
    ensures forall u :: 0 <= u < |s.pcs| ==> (Queued(s', u) <==> Queued(s, u))
  {
    hide QueueInv, Step, HashAddress, Queued, OwnerInv;
    QueueInvOf(s, t);
    WakeMoves(s, t, s');
    QuietKeepsQueue(s, s');
  }

  lemma StepKeepsQueue(s: State, t: nat, s': State)
    requires QueueInv(s) && t < |s.pcs| && AnyStep(s, t, s')
    ensures QueueInv(s')
  {
    hide QueueInv, Step, AnyStep, HashAddress, HasKey, OwnerInv, Queued;
    QueueInvOf(s, t);
    StepKeepsOwner(s, t, s');
    if Plain(s, t) {
      PlainKeepsQueue(s, t, s');
    } else {
      NotPlain(s, t, s');
      if s.pcs[t].Accepting? {
        EnqueueKeepsQueue(s, t, s');
      } else if Finds(s, t) {
        UnlinkKeepsQueue(s, t, s');
      } else if Flags(s.pcs[t]) {
        FlagKeepsQueue(s, t, s');
      } else {
        WakeKeepsQueue(s, t, s');
      }
    }
  }

  /** The steps that move one thread and change no queue. */
  ghost predicate Plain(s: State, t: nat)
    requires s.Sized() && t < |s.pcs|
  {
    !s.pcs[t].Accepting? && !Wakes(s.pcs[t]) && !Flags(s.pcs[t]) && !Finds(s, t)
  }

  lemma NotPlain(s: State, t: nat, s': State)
    requires s.Sized() && t < |s.pcs| && AnyStep(s, t, s') && !Plain(s, t)
    ensures Step(s, t, s')
  {
    hide Step;
  }

  lemma PlainStep(s: State, t: nat, s': State)
    requires s.Sized() && t < |s.pcs| && AnyStep(s, t, s') && Plain(s, t)
    ensures s'.flags == s.flags && s'.joined == s.joined && s'.removed == s.removed
    ensures s'.pcs == s.pcs[t := s'.pcs[t]] && s'.Sized()
    ensures forall b :: 0 <= b < NUM_BUCKETS ==> s'.buckets[b].queue == s.buckets[b].queue
    ensures Quiet(s.pcs[t], s'.pcs[t], s.flags[t])
    ensures Targets(s'.pcs[t]) == Targets(s.pcs[t]) && (s'.pcs[t].Asleep? ==> s.flags[t] == 0)
    ensures forall v, turn :: WillWake(s.pcs[t], v, turn) ==> WillWake(s'.pcs[t], v, turn)
  {
    hide HashAddress, HasKey, AfterUnpark, FirstOf, ResultOf;
  }

  lemma PlainKeepsQueue(s: State, t: nat, s': State)
    requires QueueInv(s) && OwnerInv(s') && t < |s.pcs| && AnyStep(s, t, s') && Plain(s, t)
    ensures QueueInv(s')
    ensures forall u :: 0 <= u < |s.pcs| ==> (Queued(s', u) <==> Queued(s, u))
  {
    hide QueueInv, AnyStep, HashAddress, Queued, OwnerInv, Targets;
    QueueInvOf(s, t);
    PlainStep(s, t, s');
    QuietKeepsQueue(s, s');
  }

  // Who will be woken.

  ghost predicate HasTargeter(s: State, v: nat) {
    exists u :: 0 <= u < |s.pcs| && Aims(s.pcs[u], v)
  }

  predicate WillWake(p: PC, v: nat, turn: nat) {
    || (p.Releasing? && p.target == Some(v) && p.turn == turn)
    || (Wakes(p) && p.thread == v && p.turn == turn)
  }

  /** An unlocker of the key's lock that has not searched the queue yet. */
  predicate WillUnpark(p: PC, key: nat) {
    p == Calling(key) || p == Searching(key)
  }

  ghost predicate HasWaker(s: State, v: nat) {
    v < |s.joined| && exists u :: 0 <= u < |s.pcs| && WillWake(s.pcs[u], v, s.joined[v])
  }

  /** A parked thread that is in no queue will have its flag set, and if it
      sleeps with its flag set it will be woken. */
  ghost predicate WakeOk(s: State, v: nat)
    requires s.Sized() && v < |s.pcs|
  {
    && (Waits(s.pcs[v]) && !Queued(s, v) && s.flags[v] == 0 ==> HasTargeter(s, v))
    && (s.pcs[v].Asleep? && s.flags[v] != 0 ==> HasWaker(s, v))
  }

  ghost predicate Inv(s: State) {
    && QueueInv(s)
    && forall v :: 0 <= v < |s.pcs| ==> WakeOk(s, v)
  }

  lemma InvOf(s: State, v: nat)
    requires Inv(s) && v < |s.pcs|
    ensures QueueInv(s) && OwnerInv(s) && s.Sized() && ThreadInv(s, v) && WakeOk(s, v)
  {
  }

  /** The witnesses of a move of thread t, if it gives none up. */
  lemma WitnessesKept(s: State, t: nat, s': State, v: nat)
    requires t < |s.pcs| && |s'.pcs| == |s.pcs| && v < |s.joined| && v < |s'.joined|
    requires forall u :: 0 <= u < |s.pcs| && u != t ==> s'.pcs[u] == s.pcs[u] || (s.pcs[u].Asleep? && s'.pcs[u].Parked?)
    ensures HasTargeter(s, v) && (Aims(s.pcs[t], v) ==> Aims(s'.pcs[t], v)) ==> HasTargeter(s', v)
    ensures HasWaker(s, v) && s'.joined[v] == s.joined[v] && !WillWake(s.pcs[t], v, s.joined[v]) ==> HasWaker(s', v)
    ensures Aims(s'.pcs[t], v) ==> HasTargeter(s', v)
    ensures WillWake(s'.pcs[t], v, s'.joined[v]) ==> HasWaker(s', v)
  {
    if HasTargeter(s, v) && (Aims(s.pcs[t], v) ==> Aims(s'.pcs[t], v)) {
      var u :| 0 <= u < |s.pcs| && Aims(s.pcs[u], v);
      assert Aims(s'.pcs[u], v);
    }
    if HasWaker(s, v) && s'.joined[v] == s.joined[v] && !WillWake(s.pcs[t], v, s.joined[v]) {
      var u :| 0 <= u < |s.pcs| && WillWake(s.pcs[u], v, s.joined[v]);
      assert WillWake(s'.pcs[u], v, s'.joined[v]);
    }
  }

  lemma PlainKeepsWake(s: State, t: nat, s': State, v: nat)
    requires Inv(s) && OwnerInv(s') && t < |s.pcs| && AnyStep(s, t, s') && Plain(s, t) && v < |s.pcs|
    ensures s'.Sized() && v < |s'.pcs| && WakeOk(s', v)
  {
    hide Inv, QueueInv, Step, HashAddress, HasKey, AfterUnpark, FirstOf, Queued, Targets;
    hide HasTargeter, HasWaker, ThreadInv, OwnerInv;
    InvOf(s, v);
    PlainKeepsQueue(s, t, s');
    PlainStep(s, t, s');
    WitnessesKept(s, t, s', v);
  }

  lemma EnqueueKeepsWake(s: State, t: nat, s': State, v: nat)
    requires Inv(s) && QueueInv(s') && t < |s.pcs| && s.pcs[t].Accepting? && Step(s, t, s') && v < |s.pcs|
    ensures v < |s'.pcs| && WakeOk(s', v)
  {
    hide Inv, QueueInv, Step, HashAddress, Queued, Targets, HasTargeter, HasWaker, ThreadInv, OwnerInv;
    InvOf(s, v);
    EnqueueMoves(s, t, s');
    EnqueueQueued(s, t, s', v);
    WitnessesKept(s, t, s', v);
  }

  lemma UnlinkKeepsWake(s: State, t: nat, s': State, v: nat)
    requires Inv(s) && t < |s.pcs| && Finds(s, t) && Step(s, t, s') && v < |s.pcs|
    ensures s'.Sized() && v < |s'.pcs| && WakeOk(s', v)
  {
    hide Inv, QueueInv, Step, HashAddress, HasKey, AfterUnpark, FirstOf, Queued, Targets, Aims;
    hide HasTargeter, HasWaker, ThreadInv, OwnerInv, Found;
    InvOf(s, v);
    UnlinkMoves(s, t, s');
    UnlinkAims(s, t, s');
    UnlinkQueued(s, t, s', v);
    WitnessesKept(s, t, s', v);
  }

  lemma FlagKeepsWake(s: State, t: nat, s': State, v: nat)
    requires Inv(s) && t < |s.pcs| && Flags(s.pcs[t]) && Step(s, t, s') && v < |s.pcs|
    ensures s'.Sized() && v < |s'.pcs| && WakeOk(s', v)
  {
    hide Inv, QueueInv, Step, HashAddress, HasKey, AfterUnpark, FirstOf, Queued, Targets, Aims;
    hide HasTargeter, HasWaker, ThreadInv, OwnerInv;
    InvOf(s, v);
    FlagMoves(s, t, s');
    FlagAims(s, t, s');
    FlagQueued(s, t, s', v);
    WitnessesKept(s, t, s', v);
  }

  lemma WakeKeepsWake(s: State, t: nat, s': State, v: nat)
    requires Inv(s) && OwnerInv(s') && t < |s.pcs| && Wakes(s.pcs[t]) && Step(s, t, s') && v < |s.pcs|
    ensures s'.Sized() && v < |s'.pcs| && WakeOk(s', v)
  {
    hide Inv, QueueInv, Step, HashAddress, HasKey, AfterUnpark, FirstOf, Queued, Targets;
    hide HasTargeter, HasWaker, ThreadInv, OwnerInv;
    InvOf(s, v);
    WakeMoves(s, t, s');
    WakeKeepsQueue(s, t, s');
    WitnessesKept(s, t, s', v);
  }

  lemma UnplainKeepsWake(s: State, t: nat, s': State, v: nat)
    requires Inv(s) && QueueInv(s') && t < |s.pcs| && Step(s, t, s') && !Plain(s, t) && v < |s.pcs|
    ensures s'.Sized() && v < |s'.pcs| && WakeOk(s', v)
  {
    hide Inv, Step, WakeOk, HashAddress, HasKey, ThreadInv, Queued;
    InvOf(s, v);
    if s.pcs[t].Accepting? {
      EnqueueKeepsWake(s, t, s', v);
    } else if Finds(s, t) {
      UnlinkKeepsWake(s, t, s', v);
    } else if Flags(s.pcs[t]) {
      FlagKeepsWake(s, t, s', v);
    } else {
      WakeKeepsWake(s, t, s', v);
    }
  }

  /** Every step of the lot, whatever the locks decide, keeps the invariant. */
  lemma StepKeepsInv(s: State, t: nat, s': State)
    requires Inv(s) && t < |s.pcs| && AnyStep(s, t, s')
    ensures Inv(s') && |s'.pcs| == |s.pcs|
  {
    hide QueueInv, Step, AnyStep, WakeOk, HashAddress, HasKey, OwnerInv, ThreadInv, Queued;
    InvOf(s, t);
    StepKeepsOwner(s, t, s');
    StepKeepsQueue(s, t, s');
    forall v | 0 <= v < |s.pcs|
      ensures s'.Sized() && v < |s'.pcs| && WakeOk(s', v)
    {
      if Plain(s, t) {
        PlainKeepsWake(s, t, s', v);
      } else {
        NotPlain(s, t, s');
        UnplainKeepsWake(s, t, s', v);
      }
    }
    OwnMove(s, t, s');
  }

  lemma InitHasInv(s: State)
    requires Init(s)
    ensures Inv(s)
  {
  }

  // What a step amounts to, for the locks built on top.

  /** Where a thread can go from a program point. */
  predicate Follows(p: PC, p': PC) {
    match p
    case Out => p'.Arriving? || p'.Calling? || p'.CallingAll?
    case Arriving(key) => p' == Deciding(key)
    case Deciding(key) => p' == Accepting(key) || p' == Refused(key)
    case Accepting(key) => p' == Enqueued(key)
    case Enqueued(key) => p' == Parked(key)
    case Refused(key) => p' == Out
    case Parked(key) => p' == Blocking(key) || p' == Out
    case Blocking(key) => p' == Asleep(key) || p' == Parked(key)
    case Asleep(key) => p' == Parked(key)
    case Calling(key) => p' == Searching(key)
    case Searching(key) => p'.Unlinked? && p'.key == key
    case Unlinked(key, _, target) => p' == Told(key, target)
    case Told(key, target) => p'.Releasing? && p'.key == key && p'.target == target
    case Releasing(key, target, turn) => p' == if target.None? then Out else Waking(target.value, turn)
    case Waking(_, _) => p' == Out
    case CallingAll(key) => p'.Gathering? && p'.key == key
    case Gathering(key, start, _) => (p'.Gathering? || p'.Emptied?) && p'.key == key && p'.start == start
    case Emptied(_, _, targets) => p' == Flagging(targets)
    case Flagging(_) => p'.Out? || p'.WakingNext?
    case WakingNext(_, _, targets) => p' == Flagging(targets)
  }

  /** The thread took a bucket that was free. */
  ghost predicate TookFree(s: State, t: nat)
    requires s.Sized() && t < |s.pcs|
  {
    (s.pcs[t].Arriving? || s.pcs[t].Calling? || s.pcs[t].CallingAll?) ==>
      s.buckets[HashAddress(s.pcs[t].key)].owner.None?
  }

  /** Another thread stays where it is, except that a wake gets it out of the
      futex, and no node of its own is added. */
  ghost predicate Unmoved(s: State, s': State, u: nat)
    requires s.Sized() && s'.Sized() && u < |s.pcs| == |s'.pcs|
  {
    && (s'.pcs[u] == s.pcs[u] || (s.pcs[u].Asleep? && s'.pcs[u] == Parked(s.pcs[u].key)))
    && (Queued(s', u) ==> Queued(s, u))
  }

  ghost predicate Effect(s: State, t: nat, s': State) {
    && s.Sized() && s'.Sized() && t < |s.pcs| == |s'.pcs|
    && Follows(s.pcs[t], s'.pcs[t]) && TookFree(s, t)
    && (Queued(s', t) && !s.pcs[t].Accepting? ==> Queued(s, t))
    && (forall u :: 0 <= u < |s.pcs| && u != t ==> Unmoved(s, s', u))
  }

  lemma UnplainUnmoved(s: State, t: nat, s': State, u: nat)
    requires QueueInv(s) && OwnerInv(s') && t < |s.pcs| && Step(s, t, s') && !Plain(s, t) && u < |s.pcs| && u != t
    ensures s'.Sized() && |s'.pcs| == |s.pcs| && Unmoved(s, s', u)
  {
    hide QueueInv, Step, HashAddress, Queued, OwnerInv, Targets, HasKey, AfterUnpark, FirstOf;
    QueueInvOf(s, t);
    if s.pcs[t].Accepting? {
      EnqueueMoves(s, t, s');
      EnqueueQueued(s, t, s', u);
    } else if Finds(s, t) {
      UnlinkMoves(s, t, s');
      UnlinkQueued(s, t, s', u);
    } else if Flags(s.pcs[t]) {
      FlagMoves(s, t, s');
      FlagQueued(s, t, s', u);
    } else {
      WakeMoves(s, t, s');
      WakeKeepsQueue(s, t, s');
    }
  }

  lemma OthersUnmoved(s: State, t: nat, s': State, u: nat)
    requires QueueInv(s) && t < |s.pcs| && AnyStep(s, t, s') && u < |s.pcs| && u != t
    ensures s'.Sized() && |s'.pcs| == |s.pcs| && Unmoved(s, s', u)
  {
    hide QueueInv, Step, AnyStep, HashAddress, Queued, OwnerInv, Targets, HasKey, AfterUnpark, FirstOf;
    QueueInvOf(s, t);
    StepKeepsOwner(s, t, s');
    if Plain(s, t) {
      PlainKeepsQueue(s, t, s');
      PlainStep(s, t, s');
    } else {
      NotPlain(s, t, s');
      UnplainUnmoved(s, t, s', u);
    }
  }

  lemma OwnQueued(s: State, t: nat, s': State)
    requires QueueInv(s) && t < |s.pcs| && AnyStep(s, t, s') && !s.pcs[t].Accepting?
    ensures s'.Sized() && |s'.pcs| == |s.pcs| && (Queued(s', t) ==> Queued(s, t))
  {
    hide QueueInv, Step, AnyStep, HashAddress, Queued, OwnerInv, Targets, HasKey, AfterUnpark, FirstOf;
    QueueInvOf(s, t);
    StepKeepsOwner(s, t, s');
    if Plain(s, t) {
      PlainKeepsQueue(s, t, s');
      PlainStep(s, t, s');
    } else {
      NotPlain(s, t, s');
      if Finds(s, t) {
        UnlinkMoves(s, t, s');
        UnlinkQueued(s, t, s', t);
      } else if Flags(s.pcs[t]) {
        FlagMoves(s, t, s');
        FlagQueued(s, t, s', t);
      } else {
        WakeMoves(s, t, s');
        WakeKeepsQueue(s, t, s');
      }
    }
  }

  lemma OwnMove(s: State, t: nat, s': State)
    requires s.Sized() && t < |s.pcs| && AnyStep(s, t, s')
    ensures s'.Sized() && |s'.pcs| == |s.pcs| && Follows(s.pcs[t], s'.pcs[t]) && TookFree(s, t)
  {
  }

  lemma StepHasEffect(s: State, t: nat, s': State)
    requires Inv(s) && t < |s.pcs| && AnyStep(s, t, s')
    ensures Inv(s') && Effect(s, t, s')
  {
    StepKeepsInv(s, t, s');
    OwnMove(s, t, s');
    if !s.pcs[t].Accepting? {
      OwnQueued(s, t, s');
    }
    forall u | 0 <= u < |s.pcs| && u != t
      ensures Unmoved(s, s', u)
    {
      OthersUnmoved(s, t, s', u);
    }
  }

  /** A step changes only what its own key has in the queues. */
  lemma OtherKeysUnmoved(s: State, t: nat, s': State, key: nat)
    requires Inv(s) && t < |s.pcs| && AnyStep(s, t, s')
    requires (s.pcs[t].Accepting? || s.pcs[t].Searching? || s.pcs[t].Gathering?) ==> s.pcs[t].key != key
    ensures s'.Sized() && (HasKey(s'.QueueOf(key), key) <==> HasKey(s.QueueOf(key), key))
  {
    hide Inv, Step, AnyStep, HashAddress, OwnerInv, Targets, HasKey, AfterUnpark, FirstOf;
    InvOf(s, t);
    if Plain(s, t) {
      PlainStep(s, t, s');
    } else {
      NotPlain(s, t, s');
      if s.pcs[t].Accepting? {
        EnqueueMoves(s, t, s');
        HasKeyAppend(s.QueueOf(key), Waiter(s.pcs[t].key, t), key);
      } else if Finds(s, t) {
        OtherKeysAfterUnpark(s, t, s', key);
      } else if Flags(s.pcs[t]) {
        FlagMoves(s, t, s');
      } else {
        WakeMoves(s, t, s');
      }
    }
  }

  lemma OtherKeysAfterUnpark(s: State, t: nat, s': State, key: nat)
    requires s.Sized() && t < |s.pcs| && Finds(s, t) && Step(s, t, s') && s.pcs[t].key != key
    ensures s'.Sized() && (HasKey(s'.QueueOf(key), key) <==> HasKey(s.QueueOf(key), key))
  {
    var p := s.pcs[t];
    UnparkOneIsExact(s.QueueOf(p.key), p.key);
    FirstIsOldest(s.QueueOf(p.key), key);
    FirstIsOldest(AfterUnpark(s.QueueOf(p.key), p.key), key);
  }

  // Runs of the lot, whatever the locks decide.

  /** A step of some thread, or of a lock outside the lot. */
  ghost predicate AnyNext(s: State, s': State) {
    s.Sized() && (s' == s || exists t :: 0 <= t < |s.pcs| && AnyStep(s, t, s'))
  }

  lemma NextKeepsInv(s: State, s': State)
    requires Inv(s) && AnyNext(s, s')
    ensures Inv(s') && |s'.pcs| == |s.pcs|
  {
    if s' != s {
      var t :| 0 <= t < |s.pcs| && AnyStep(s, t, s');
      StepKeepsInv(s, t, s');
    }
  }

  lemma {:induction false} RunsKeepInv(run: seq<State>, i: nat)
    requires IsRun(run, Init, AnyNext) && i < |run|
    ensures Inv(run[i]) && |run[i].pcs| == |run[0].pcs|
  {
    hide Inv, AnyNext, Init;
    if i == 0 {
      InitHasInv(run[0]);
    } else {
      RunsKeepInv(run, i - 1);
      assert AnyNext(run[i - 1], run[i - 1 + 1]);
      NextKeepsInv(run[i - 1], run[i]);
    }
  }

  /** Thread t's node may be in the queue, as it was put there by the last join. */
  lemma WaitingGoesBack(s: State, s': State, t: nat)
    requires Inv(s) && AnyNext(s, s') && t < |s.pcs| && t < |s'.pcs| && Waits(s'.pcs[t])
    ensures t < |s.joined| && t < |s'.joined|
    ensures if s.pcs[t].Accepting? then s'.joined[t] == s.joined[t] + 1
            else Waits(s.pcs[t]) && s'.joined[t] == s.joined[t]
  {
    hide Inv, AnyStep, Queued, OwnerInv, QueueInv;
    InvOf(s, t);
    if s' != s {
      var u :| 0 <= u < |s.pcs| && AnyStep(s, u, s');
      StepHasEffect(s, u, s');
      JoinsCount(s, u, s', t);
      if u != t {
        assert Unmoved(s, s', t);
      }
    }
  }

  lemma JoinsCount(s: State, u: nat, s': State, t: nat)
    requires s.Sized() && u < |s.pcs| && t < |s.pcs| && AnyStep(s, u, s')
    ensures t < |s'.joined|
    ensures s'.joined[t] == if u == t && s.pcs[u].Accepting? then s.joined[t] + 1 else s.joined[t]
  {
    hide HashAddress, HasKey, AfterUnpark, ResultOf, FirstOf;
  }

  lemma NobodyWaitsAtStart(run: seq<State>, i: nat, t: nat)
    requires IsRun(run, Init, AnyNext) && i < |run| && t < |run[i].pcs| && Waits(run[i].pcs[t])
    ensures i > 0
  {
  }

  lemma RunStep(run: seq<State>, i: nat)
    requires IsRun(run, Init, AnyNext) && i < |run| - 1
    ensures AnyNext(run[i], run[i + 1])
  {
  }

  /** A thread that waits has joined the queue once since it was accepted. */
  lemma {:induction false} JoinOf(run: seq<State>, i: nat, t: nat) returns (j: nat)
    requires IsRun(run, Init, AnyNext) && i < |run| && t < |run[i].pcs| && Waits(run[i].pcs[t])
    ensures j < i && t < |run[j].pcs| && run[j].pcs[t].Accepting?
    ensures forall k :: j < k <= i ==> t < |run[k].pcs| && Waits(run[k].pcs[t])
    ensures t < |run[j].joined| && t < |run[i].joined| && run[i].joined[t] == run[j].joined[t] + 1
  {
    hide Inv, AnyNext, Init, Waits;
    NobodyWaitsAtStart(run, i, t);
    RunsKeepInv(run, i - 1);
    RunsKeepInv(run, i);
    RunStep(run, i - 1);
    WaitingGoesBack(run[i - 1], run[i], t);
    if run[i - 1].pcs[t].Accepting? {
      j := i - 1;
    } else {
      j := JoinOf(run, i - 1, t);
    }
  }

  /** A call of park that added its node returns only after the node was taken out
      again, exactly once since the call joined the queue, and is in no bucket. */
  lemma ParkReturnsAfterRemoval(run: seq<State>, i: nat, t: nat) returns (j: nat)
    requires IsRun(run, Init, AnyNext) && i < |run| - 1 && t < |run[i].pcs| && t < |run[i + 1].pcs|
    requires run[i].pcs[t].Parked? && run[i + 1].pcs[t].Out?
    ensures j < i && t < |run[j].pcs| && run[j].pcs[t].Accepting?
    ensures forall k :: j < k <= i ==> t < |run[k].pcs| && Waits(run[k].pcs[t])
    ensures run[j].Sized() && run[i].Sized()
    ensures run[i].joined[t] == run[j].joined[t] + 1 && run[i].removed[t] == run[j].removed[t] + 1
    ensures forall b :: 0 <= b < NUM_BUCKETS ==> !Occurs(run[i].buckets[b].queue, t)
  {
    j := JoinOf(run, i, t);
    RunsKeepInv(run, i);
    RunsKeepInv(run, j);
    assert AnyNext(run[i], run[i + 1]);
    LeavesUnqueued(run[i], run[i + 1], t);
    assert ThreadInv(run[j], t) && ThreadInv(run[i], t);
    OccupantWaits(run[j], HashAddress(run[j].pcs[t].key), t);
  }

  lemma LeavesUnqueued(s: State, s': State, t: nat)
    requires Inv(s) && AnyNext(s, s') && t < |s.pcs| && t < |s'.pcs| && s.pcs[t].Parked? && s'.pcs[t].Out?
    ensures forall b :: 0 <= b < NUM_BUCKETS ==> !Occurs(s.buckets[b].queue, t)
  {
    var u :| 0 <= u < |s.pcs| && AnyStep(s, u, s');
    StepHasEffect(s, u, s');
    assert u != t ==> Unmoved(s, s', t);
    forall b | 0 <= b < NUM_BUCKETS
      ensures !Occurs(s.buckets[b].queue, t)
    {
      OccupantWaits(s, b, t);
    }
  }

  // Everybody outside or asleep.

  lemma NobodyComing(s: State)
    requires forall u :: 0 <= u < |s.pcs| ==> s.pcs[u].Out? || s.pcs[u].Asleep?
    ensures forall v :: !HasTargeter(s, v) && !HasWaker(s, v)
  {
  }

  lemma QueuedHasKey(s: State, u: nat)
    requires Inv(s) && u < |s.pcs| && Queued(s, u)
    ensures HasKey(s.QueueOf(s.pcs[u].key), s.pcs[u].key)
  {
    var b := HashAddress(s.pcs[u].key);
    var queue := s.buckets[b].queue;
    var i :| 0 <= i < |queue| && queue[i].thread == u;
    assert BucketInv(s, b, queue) && WaiterInv(s, b, queue[i]);
    HasKeyMeans(queue, s.pcs[u].key);
  }
}
