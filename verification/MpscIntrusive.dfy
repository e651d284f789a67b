/** The intrusive multi-producer single-consumer queue: producers exchange the
    head and link behind it in a second step, the consumer walks from the tail
    and recycles one stub entry. */
module MpscIntrusive {
  import opened Options
  import opened Sequences
  import opened Threads

  /** Entries are named by numbers; the queue's own stub is number 0. */
  const STUB: nat := 0

  /** Where a thread is in `push`. */
  datatype Pusher =
    | Idle
    | Clearing(entry: nat)              // before entry->next = null
    | Swapping(entry: nat)              // before the exchange of head
    | Linking(prev: nat, entry: nat)    // exchanged, before prev->next = entry

  /** Where the consumer is in `pop`. */
  datatype Consumer =
    | Outside(last: Option<nat>)   // what the last call returned
    | Skipped                      // moved past the stub, before loading next again
    | CheckingHead                 // next was null, before loading head
    | PushingStub                  // calling push(&stub), then before the last load of next

  /** A null `next` is an absent key.  Thread 0 of the pushers is the consumer,
      when it pushes the stub.  Kept beside the words: the chain of entries from
      tail to head in the order of the exchanges, and everything ever pushed and
      popped. */
  datatype State = State(
    next: map<nat, nat>, head: nat, tail: nat, pushers: seq<Pusher>, consumer: Consumer,
    chain: seq<nat>, pushed: seq<nat>, popped: seq<nat>)
  {
    function Push(k: nat, p: Pusher): State
      requires k < |pushers|
    {
      this.(pushers := pushers[k := p])
    }

    /** The consumer takes the first entry off, which its `next` follows. */
    function Advance(successor: nat): State
      requires chain != []
    {
      this.(tail := successor, chain := chain[1..])
    }

    /** The consumer returns what it had at the tail. */
    function Deliver(successor: nat): State
      requires chain != []
    {
      Advance(successor).(consumer := Outside(Some(tail)), popped := popped + [tail])
    }
  }

  /** The queued entries, oldest first: the chain without the stub. */
  function Entries(chain: seq<nat>): (entries: seq<nat>)
    ensures STUB !in entries
  {
    Except(chain, STUB)
  }

  ghost predicate Init(s: State) {
    && s == State(map[], STUB, STUB, s.pushers, Outside(None), [STUB], [], [])
    && s.pushers != []
    && forall k :: 0 <= k < |s.pushers| ==> s.pushers[k] == Idle
  }

  /** Not queued and not being queued: what a caller of push must own. */
  ghost predicate Free(s: State, e: nat) {
    && e !in s.chain
    && forall k :: 0 <= k < |s.pushers| ==> !Carries(s.pushers[k], e)
  }

  predicate Carries(p: Pusher, e: nat) {
    (p.Clearing? || p.Swapping?) && p.entry == e
  }

  /** A producer calls push. */
  ghost predicate StartPush(s: State, k: nat, e: nat, s': State) {
    && 0 < k < |s.pushers| && s.pushers[k].Idle?
    && e != STUB && Free(s, e)
    && s' == s.Push(k, Clearing(e))
  }

  /** One atomic operation of push. */
  ghost predicate PushStep(s: State, k: nat, s': State)
    requires k < |s.pushers|
  {
    match s.pushers[k]
    case Idle => false
    case Clearing(e) =>
      s' == s.Push(k, Swapping(e)).(next := s.next - {e})
    case Swapping(e) =>
      s' == s.Push(k, Linking(s.head, e))
             .(head := e, chain := s.chain + [e], pushed := if e == STUB then s.pushed else s.pushed + [e])
    case Linking(prev, e) =>
      s' == s.Push(k, Idle).(next := s.next[prev := e])
  }

  /** One atomic operation of pop, together with the consumer's own bookkeeping. */
  ghost predicate PopStep(s: State, s': State)
    requires s.chain != [] && s.pushers != []
  {
    match s.consumer
    case Outside(_) =>
      if s.tail == STUB then
        if STUB !in s.next then s' == s.(consumer := Outside(None))
        else s' == s.Advance(s.next[STUB]).(consumer := Skipped)
      else if s.tail in s.next then s' == s.Deliver(s.next[s.tail])
      else s' == s.(consumer := CheckingHead)
    case Skipped =>
      if s.tail in s.next then s' == s.Deliver(s.next[s.tail])
      else s' == s.(consumer := CheckingHead)
    case CheckingHead =>
      if s.tail != s.head then s' == s.(consumer := Outside(None))
      else s.pushers[0].Idle? && s' == s.Push(0, Clearing(STUB)).(consumer := PushingStub)
    case PushingStub =>
      && s.pushers[0].Idle?
      && if s.tail in s.next then s' == s.Deliver(s.next[s.tail])
         else s' == s.(consumer := Outside(None))
  }

  ghost predicate Next(s: State, s': State) {
    || (exists k, e :: StartPush(s, k, e, s'))
    || (exists k :: 0 <= k < |s.pushers| && PushStep(s, k, s'))
    || (s.chain != [] && s.pushers != [] && PopStep(s, s'))
  }

  // The invariant.

  /** The pair stands side by side in the chain. */
  ghost predicate Adjacent(chain: seq<nat>, prev: nat, e: nat) {
    exists i :: 0 <= i < |chain| - 1 && chain[i] == prev && chain[i + 1] == e
  }

  /** Some push has still to link the pair. */
  ghost predicate Pending(pushers: seq<Pusher>, prev: nat, e: nat) {
    exists k :: 0 <= k < |pushers| && pushers[k] == Linking(prev, e)
  }

  ghost predicate ChainInv(s: State) {
    && s.chain != [] && Distinct(s.chain)
    && s.tail == s.chain[0] && s.head == s.chain[|s.chain| - 1]
    && s.head !in s.next
    && (forall i :: 0 <= i < |s.chain| - 1 ==> Joined(s, s.chain[i], s.chain[i + 1]))
  }

  ghost predicate Joined(s: State, prev: nat, e: nat) {
    if prev in s.next then s.next[prev] == e else Pending(s.pushers, prev, e)
  }

  ghost predicate PusherInv(s: State, k: nat)
    requires k < |s.pushers|
  {
    match s.pushers[k]
    case Idle => true
    case Clearing(e) => e !in s.chain && (e == STUB <==> k == 0)
    case Swapping(e) => e !in s.chain && e !in s.next && (e == STUB <==> k == 0)
    case Linking(prev, e) => Adjacent(s.chain, prev, e) && prev !in s.next && (e == STUB <==> k == 0)
  }

  ghost predicate PushersDiffer(p: Pusher, q: Pusher) {
    && ((p.Clearing? || p.Swapping?) && (q.Clearing? || q.Swapping?) ==> p.entry != q.entry)
    && (p.Linking? && q.Linking? ==> p.prev != q.prev)
  }

  ghost predicate ConsumerInv(s: State) {
    && s.pushers != []
    && (s.consumer.Outside? || s.tail != STUB)
    && (s.consumer.PushingStub? || s.pushers[0].Idle?)
  }

  ghost predicate Inv(s: State) {
    && ChainInv(s)
    && ConsumerInv(s)
    && (forall k :: 0 <= k < |s.pushers| ==> PusherInv(s, k))
    && (forall j, k :: 0 <= j < k < |s.pushers| ==> PushersDiffer(s.pushers[j], s.pushers[k]))
    && s.pushed == s.popped + Entries(s.chain)
  }

  /** In a chain without repetitions a pair has one place. */
  lemma AdjacentOnce(chain: seq<nat>, i: nat, prev: nat, e: nat)
    requires Distinct(chain) && Adjacent(chain, prev, e) && i < |chain| && chain[i] == prev
    ensures i < |chain| - 1 && chain[i + 1] == e
  {
    var j :| 0 <= j < |chain| - 1 && chain[j] == prev && chain[j + 1] == e;
  }

  lemma StartKeepsInv(s: State, k: nat, p: Pusher)
    requires Inv(s) && k < |s.pushers| && s.pushers[k].Idle? && p.Clearing?
    requires p.entry == STUB <==> k == 0
    requires Free(s, p.entry)
    requires k == 0 ==> s.consumer.PushingStub?
    ensures Inv(s.Push(k, p))
  {
    var s' := s.Push(k, p);
    PendingKept(s, k, p);
    forall j | 0 <= j < |s'.pushers|
      ensures PusherInv(s', j)
    {
      assert PusherInv(s, j);
    }
    forall i, j | 0 <= i < j < |s'.pushers|
      ensures PushersDiffer(s'.pushers[i], s'.pushers[j])
    {
      assert PushersDiffer(s.pushers[i], s.pushers[j]);
      assert !Carries(s.pushers[i], p.entry) && !Carries(s.pushers[j], p.entry);
    }
  }

  /** Moving a thread that is not linking leaves every pending link pending. */
  lemma PendingKept(s: State, k: nat, p: Pusher)
    requires k < |s.pushers| && !s.pushers[k].Linking?
    ensures forall prev, e :: Pending(s.pushers, prev, e) ==> Pending(s.pushers[k := p], prev, e)
  {
    forall prev, e | Pending(s.pushers, prev, e)
      ensures Pending(s.pushers[k := p], prev, e)
    {
      var j :| 0 <= j < |s.pushers| && s.pushers[j] == Linking(prev, e);
      assert s.pushers[k := p][j] == Linking(prev, e);
    }
  }

  lemma ClearKeepsInv(s: State, k: nat, s': State)
    requires Inv(s) && k < |s.pushers| && s.pushers[k].Clearing? && PushStep(s, k, s')
    ensures Inv(s')
  {
    var e := s.pushers[k].entry;
    assert PusherInv(s, k);
    PendingKept(s, k, Swapping(e));
    forall i | 0 <= i < |s'.chain| - 1
      ensures Joined(s', s'.chain[i], s'.chain[i + 1])
    {
      assert Joined(s, s.chain[i], s.chain[i + 1]);
    }
    forall j | 0 <= j < |s'.pushers|
      ensures PusherInv(s', j)
    {
      assert PusherInv(s, j);
    }
    forall i, j | 0 <= i < j < |s'.pushers|
      ensures PushersDiffer(s'.pushers[i], s'.pushers[j])
    {
      assert PushersDiffer(s.pushers[i], s.pushers[j]);
    }
  }

  lemma SwapKeepsPusher(s: State, k: nat, s': State, j: nat)
    requires Inv(s) && k < |s.pushers| && s.pushers[k].Swapping? && PushStep(s, k, s') && j < |s.pushers|
    ensures PusherInv(s', j)
  {
    hide Except;
    var e := s.pushers[k].entry;
    var last := |s.chain| - 1;
    assert PusherInv(s, j) && PusherInv(s, k);
    if j == k {
      assert s'.chain[last] == s.head && s'.chain[last + 1] == e;
    } else if s.pushers[j].Linking? {
      var i :| 0 <= i < |s.chain| - 1 && s.chain[i] == s.pushers[j].prev && s.chain[i + 1] == s.pushers[j].entry;
      assert s'.chain[i] == s.pushers[j].prev && s'.chain[i + 1] == s.pushers[j].entry;
    } else if k < j {
      assert PushersDiffer(s.pushers[k], s.pushers[j]);
    } else {
      assert PushersDiffer(s.pushers[j], s.pushers[k]);
    }
  }

  lemma SwapKeepsInv(s: State, k: nat, s': State)
    requires Inv(s) && k < |s.pushers| && s.pushers[k].Swapping? && PushStep(s, k, s')
    ensures Inv(s')
  {
    hide Except;
    var e := s.pushers[k].entry;
    var last := |s.chain| - 1;
    assert PusherInv(s, k);
    PendingKept(s, k, Linking(s.head, e));
    ExceptAppend(s.chain, e, STUB);
    Associative(s.popped, Entries(s.chain), if e == STUB then [] else [e]);
    forall i | 0 <= i < |s'.chain| - 1
      ensures Joined(s', s'.chain[i], s'.chain[i + 1])
    {
      if i < last {
        assert Joined(s, s.chain[i], s.chain[i + 1]);
      } else {
        assert s'.pushers[k] == Linking(s'.chain[i], s'.chain[i + 1]);
      }
    }
    forall j | 0 <= j < |s'.pushers|
      ensures PusherInv(s', j)
    {
      SwapKeepsPusher(s, k, s', j);
    }
    forall i, j | 0 <= i < j < |s'.pushers|
      ensures PushersDiffer(s'.pushers[i], s'.pushers[j])
    {
      assert PushersDiffer(s.pushers[i], s.pushers[j]);
      assert PusherInv(s, i) && PusherInv(s, j);
    }
  }

  lemma LinkKeepsInv(s: State, k: nat, s': State)
    requires Inv(s) && k < |s.pushers| && s.pushers[k].Linking? && PushStep(s, k, s')
    ensures Inv(s')
  {
    var prev, e := s.pushers[k].prev, s.pushers[k].entry;
    assert PusherInv(s, k);
    forall i | 0 <= i < |s'.chain| - 1
      ensures Joined(s', s'.chain[i], s'.chain[i + 1])
    {
      assert Joined(s, s.chain[i], s.chain[i + 1]);
      if s.chain[i] == prev {
        AdjacentOnce(s.chain, i, prev, e);
      } else if s.chain[i] !in s.next {
        var j :| 0 <= j < |s.pushers| && s.pushers[j] == Linking(s.chain[i], s.chain[i + 1]);
        assert s'.pushers[j] == s.pushers[j];
      }
    }
    forall j | 0 <= j < |s'.pushers|
      ensures PusherInv(s', j)
    {
      assert PusherInv(s, j);
      if k < j {
        assert PushersDiffer(s.pushers[k], s.pushers[j]);
      } else if j < k {
        assert PushersDiffer(s.pushers[j], s.pushers[k]);
      }
    }
    forall i, j | 0 <= i < j < |s'.pushers|
      ensures PushersDiffer(s'.pushers[i], s'.pushers[j])
    {
      assert PushersDiffer(s.pushers[i], s.pushers[j]);
    }
  }

  /** A consumer's move that leaves chain, words and pushers alone. */
  lemma QuietPop(s: State, c: Consumer)
    requires Inv(s) && s.pushers[0].Idle?
    requires c.Outside? || s.tail != STUB
    ensures Inv(s.(consumer := c))
  {
    var s' := s.(consumer := c);
    forall i | 0 <= i < |s'.chain| - 1
      ensures Joined(s', s'.chain[i], s'.chain[i + 1])
    {
      assert Joined(s, s.chain[i], s.chain[i + 1]);
    }
    forall k | 0 <= k < |s'.pushers|
      ensures PusherInv(s', k)
    {
      assert PusherInv(s, k);
    }
  }

  /** When the tail is linked, what it links to is next in the chain. */
  lemma TailLink(s: State)
    requires Inv(s) && s.tail in s.next
    ensures |s.chain| > 1 && s.next[s.tail] == s.chain[1]
  {
    assert s.tail != s.head;
    assert Joined(s, s.chain[0], s.chain[0 + 1]);
  }

  lemma AdvanceKeepsInv(s: State, c: Consumer, popped: seq<nat>)
    requires Inv(s) && s.pushers[0].Idle? && s.tail in s.next
    requires c.Outside? || s.next[s.tail] != STUB
    requires popped == if s.tail == STUB then s.popped else s.popped + [s.tail]
    ensures Inv(s.Advance(s.next[s.tail]).(consumer := c, popped := popped))
  {
    hide Except;
    TailLink(s);
    ExceptHead(s.chain, STUB);
    var s' := s.Advance(s.next[s.tail]).(consumer := c, popped := popped);
    forall i | 0 <= i < |s'.chain| - 1
      ensures Joined(s', s'.chain[i], s'.chain[i + 1])
    {
      assert Joined(s, s.chain[i + 1], s.chain[i + 1 + 1]);
    }
    forall k | 0 <= k < |s'.pushers|
      ensures PusherInv(s', k)
    {
      assert PusherInv(s, k);
      if s.pushers[k].Linking? {
        var i :| 0 <= i < |s.chain| - 1 && s.chain[i] == s.pushers[k].prev && s.chain[i + 1] == s.pushers[k].entry;
        assert s'.chain[i - 1] == s.pushers[k].prev && s'.chain[i - 1 + 1] == s.pushers[k].entry;
      }
    }
    Associative(s.popped, [s.tail], Entries(s.chain[1..]));
  }

  lemma PopKeepsInv(s: State, s': State)
    requires Inv(s) && PopStep(s, s')
    ensures Inv(s')
  {
    if s'.consumer.PushingStub? {
      assert s.chain == [s.tail];
      var s1 := s.(consumer := PushingStub);
      QuietPop(s, PushingStub);
      forall k | 0 <= k < |s1.pushers|
        ensures !Carries(s1.pushers[k], STUB)
      {
        assert PusherInv(s1, k);
      }
      StartKeepsInv(s1, 0, Clearing(STUB));
    } else if s.tail in s.next && !s.consumer.CheckingHead? {
      TailLink(s);
      AdvanceKeepsInv(s, s'.consumer, s'.popped);
    } else {
      QuietPop(s, s'.consumer);
    }
  }

  lemma StepKeepsInv(s: State, s': State)
    requires Inv(s) && Next(s, s')
    ensures Inv(s')
  {
    if k, e :| StartPush(s, k, e, s') {
      StartKeepsInv(s, k, Clearing(e));
    } else if k :| 0 <= k < |s.pushers| && PushStep(s, k, s') {
      match s.pushers[k]
      case Clearing(_) => ClearKeepsInv(s, k, s');
      case Swapping(_) => SwapKeepsInv(s, k, s');
      case Linking(_, _) => LinkKeepsInv(s, k, s');
    } else {
      PopKeepsInv(s, s');
    }
  }

  lemma {:induction false} RunsKeepInv(run: seq<State>, i: nat)
    requires IsRun(run, Init, Next) && i < |run|
    ensures Inv(run[i])
  {
    if i > 0 {
      RunsKeepInv(run, i - 1);
      assert Next(run[i - 1], run[i - 1 + 1]);
      StepKeepsInv(run[i - 1], run[i]);
    }
  }

  /** The queue is first in, first out: with any number of producers stopped
      between exchange and link, what was popped and then what is queued is what
      was pushed, in the order of the exchanges.  The stub is never delivered and
      is in the chain at most once. */
  lemma FirstInFirstOut(run: seq<State>, i: nat)
    requires IsRun(run, Init, Next) && i < |run|
    ensures run[i].pushed == run[i].popped + Entries(run[i].chain)
    ensures STUB !in run[i].pushed && STUB !in run[i].popped
    ensures forall a, b :: 0 <= a < b < |run[i].chain| ==> run[i].chain[a] != run[i].chain[b]
  {
    RunsKeepInv(run, i);
    NoStubPushed(run, i);
    assert forall e :: e in run[i].popped ==> e in run[i].pushed;
  }

  lemma {:induction false} NoStubPushed(run: seq<State>, i: nat)
    requires IsRun(run, Init, Next) && i < |run|
    ensures STUB !in run[i].pushed
  {
    if i > 0 {
      hide Inv, Next, Init;
      NoStubPushed(run, i - 1);
      assert Next(run[i - 1], run[i - 1 + 1]);
      RunsKeepInv(run, i - 1);
      StepPushesNoStub(run[i - 1], run[i]);
    }
  }

  lemma StepPushesNoStub(s: State, s': State)
    requires Inv(s) && Next(s, s') && STUB !in s.pushed
    ensures STUB !in s'.pushed
  {
    hide Inv, Except;
    if k, e :| StartPush(s, k, e, s') {
    } else if k :| 0 <= k < |s.pushers| && PushStep(s, k, s') {
      PusherOf(s, k);
    }
  }

  ghost predicate HeldByLink(pushers: seq<Pusher>, e: nat) {
    exists k :: 0 <= k < |pushers| && pushers[k].Linking? && (pushers[k].prev == e || pushers[k].entry == e)
  }

  /** What pop returns is the oldest entry; it is out of the chain, no push in
      flight holds it, as its entry or as the one to link behind, and so it may be
      pushed again at once. */
  lemma DeliveredEntryIsFree(run: seq<State>, i: nat, e: nat)
    requires IsRun(run, Init, Next) && i < |run| - 1
    requires run[i].chain != [] && run[i].pushers != []
    requires PopStep(run[i], run[i + 1]) && run[i + 1].consumer == Outside(Some(e))
    ensures Entries(run[i].chain) != [] && e == Entries(run[i].chain)[0]
    ensures Free(run[i + 1], e) && e != STUB
    ensures !HeldByLink(run[i + 1].pushers, e)
  {
    RunsKeepInv(run, i);
    RunsKeepInv(run, i + 1);
    var s, s' := run[i], run[i + 1];
    TailLink(s);
    assert e == s.chain[0] && s'.chain == s.chain[1..];
    forall k | 0 <= k < |s'.pushers|
      ensures !Carries(s'.pushers[k], e)
      ensures s'.pushers[k].Linking? ==> s'.pushers[k].prev != e && s'.pushers[k].entry != e
    {
      assert PusherInv(s, k) && PusherInv(s', k);
    }
  }

  // Pop with nobody pushing.

  /** The consumer's next atomic operation, in pop itself or in its push of the stub. */
  ghost predicate ConsumerStep(s: State, s': State) {
    && s.chain != [] && s.pushers != []
    && (PopStep(s, s') || PushStep(s, 0, s'))
  }

  ghost predicate NoLinkPending(s: State) {
    forall k :: 0 < k < |s.pushers| ==> !s.pushers[k].Linking?
  }

  /** Pop in progress on a queue that held `entries` when it was called. */
  ghost predicate PopInProgress(s: State, entries: seq<nat>, popped: seq<nat>) {
    && Inv(s) && NoLinkPending(s) && Entries(s.chain) == entries && s.popped == popped
    && match s.consumer
       case Outside(_) => true
       case Skipped => true
       case CheckingHead => s.chain == [s.tail] && s.tail !in s.next
       case PushingStub =>
         s.chain == if s.pushers[0].Clearing? || s.pushers[0].Swapping? then [s.tail] else [s.tail, STUB]
  }

  ghost predicate PopFinished(s: State, entries: seq<nat>, popped: seq<nat>) {
    if entries == [] then
      s.consumer == Outside(None) && Entries(s.chain) == [] && s.popped == popped
    else
      s.consumer == Outside(Some(entries[0])) && Entries(s.chain) == entries[1..] && s.popped == popped + [entries[0]]
  }

  /** With no link pending, only the head is unlinked. */
  lemma OnlyHeadUnlinked(s: State)
    requires Inv(s) && NoLinkPending(s) && s.pushers[0].Idle?
    ensures |s.chain| > 1 ==> s.tail in s.next
    ensures |s.chain| == 1 ==> s.chain == [s.tail]
  {
    if |s.chain| > 1 {
      assert Joined(s, s.chain[0], s.chain[0 + 1]);
    }
  }

  lemma ConsumerStepAlone(s: State, s': State, entries: seq<nat>, popped: seq<nat>)
    requires PopInProgress(s, entries, popped) && ConsumerStep(s, s')
    ensures if s'.consumer.Outside? then PopFinished(s', entries, popped) else PopInProgress(s', entries, popped)
  {
    if PushStep(s, 0, s') {
      assert PusherInv(s, 0);
      StubStepAlone(s, s', entries, popped);
    } else {
      PopKeepsInv(s, s');
      if s.tail in s.next {
        TailLink(s);
      } else if s.pushers[0].Idle? {
        OnlyHeadUnlinked(s);
      }
    }
  }

  lemma StubStepAlone(s: State, s': State, entries: seq<nat>, popped: seq<nat>)
    requires PopInProgress(s, entries, popped) && PushStep(s, 0, s')
    ensures s'.consumer.PushingStub? && PopInProgress(s', entries, popped)
  {
    assert PusherInv(s, 0);
    match s.pushers[0]
    case Clearing(_) => ClearKeepsInv(s, 0, s');
    case Swapping(_) =>
      SwapKeepsInv(s, 0, s');
      ExceptAppend(s.chain, STUB, STUB);
    case Linking(_, _) => LinkKeepsInv(s, 0, s');
  }

  lemma {:induction false} PopProgresses(run: seq<State>, a: nat, b: nat)
    requires IsRun(run, Init, Next) && a < b < |run|
    requires run[a].consumer.Outside? && NoLinkPending(run[a])
    requires forall k :: a <= k < b ==> ConsumerStep(run[k], run[k + 1])
    requires forall k :: a < k < b ==> !run[k].consumer.Outside?
    ensures if run[b].consumer.Outside? then PopFinished(run[b], Entries(run[a].chain), run[a].popped)
            else PopInProgress(run[b], Entries(run[a].chain), run[a].popped)
  {
    if b == a + 1 {
      RunsKeepInv(run, a);
    } else {
      PopProgresses(run, a, b - 1);
    }
    ConsumerStepAlone(run[b - 1], run[b - 1 + 1], Entries(run[a].chain), run[a].popped);
  }

  /** A pop during which no producer is between exchange and link, and none
      moves, returns null exactly if the queue is empty, and otherwise the oldest
      entry, also where it has to put the stub back behind the last one. */
  lemma PopAloneIsExact(run: seq<State>, a: nat, b: nat)
    requires IsRun(run, Init, Next) && a < b < |run|
    requires run[a].consumer.Outside? && run[b].consumer.Outside? && NoLinkPending(run[a])
    requires forall k :: a <= k < b ==> ConsumerStep(run[k], run[k + 1])
    requires forall k :: a < k < b ==> !run[k].consumer.Outside?
    ensures var entries := Entries(run[a].chain);
      && (run[b].consumer.last == None <==> entries == [])
      && (entries != [] ==> run[b].consumer.last == Some(entries[0]) && Entries(run[b].chain) == entries[1..])
  {
    PopProgresses(run, a, b);
  }

  // What null means with producers about.

  /** Some producer stands between its exchange and its link. */
  ghost predicate LinkPending(s: State) {
    exists k :: 0 < k < |s.pushers| && s.pushers[k].Linking?
  }

  /** An entry behind which more stand, but no link leads on, waits for a producer. */
  lemma UnlinkedIsPending(s: State)
    requires Inv(s) && s.pushers[0].Idle? && |s.chain| > 1 && s.tail !in s.next
    ensures LinkPending(s)
  {
    assert Joined(s, s.chain[0], s.chain[0 + 1]);
    var k :| 0 <= k < |s.pushers| && s.pushers[k] == Linking(s.chain[0], s.chain[1]);
    assert k != 0;
  }

  /** The consumer has put the stub back. */
  ghost predicate StubIsBack(s: State) {
    s.consumer.PushingStub? && s.pushers != [] && (s.pushers[0].Idle? || s.pushers[0].Linking?) ==> STUB in s.chain
  }

  lemma StepKeepsStub(s: State, s': State)
    requires Inv(s) && Next(s, s') && StubIsBack(s)
    ensures StubIsBack(s')
  {
    hide Inv, Except;
    if k, e :| StartPush(s, k, e, s') {
    } else if k :| 0 <= k < |s.pushers| && PushStep(s, k, s') {
      PusherOf(s, k);
      if s.pushers[k].Swapping? {
        assert s'.chain[|s.chain|] == s.pushers[k].entry;
      }
    }
  }

  lemma PusherOf(s: State, k: nat)
    requires Inv(s) && k < |s.pushers|
    ensures PusherInv(s, k) && ConsumerInv(s)
  {
  }

  lemma InitHasStub(s: State)
    requires Init(s)
    ensures StubIsBack(s)
  {
  }

  lemma {:induction false} RunsKeepStub(run: seq<State>, i: nat)
    requires IsRun(run, Init, Next) && i < |run|
    ensures StubIsBack(run[i])
  {
    hide Inv, Next, Init, StubIsBack;
    if i == 0 {
      InitHasStub(run[0]);
    } else {
      RunsKeepStub(run, i - 1);
      RunsKeepInv(run, i - 1);
      assert Next(run[i - 1], run[i - 1 + 1]);
      StepKeepsStub(run[i - 1], run[i]);
    }
  }

  /** A step that links the tail while the consumer looks at the head is a producer's. */
  lemma LinksTail(s: State, s': State)
    requires Inv(s) && Next(s, s') && s'.consumer.CheckingHead? && s'.tail in s'.next
    ensures s.consumer.CheckingHead? && s.tail == s'.tail
    ensures s.tail in s.next || LinkPending(s)
  {
    hide Inv, Except;
    if k, e :| StartPush(s, k, e, s') {
    } else if k :| 0 <= k < |s.pushers| && PushStep(s, k, s') {
      PusherOf(s, k);
      PusherOf(s, 0);
    }
  }

  /** A link that has come while the consumer was looking at the head was pending
      meanwhile. */
  lemma {:induction false} LinkedMeanwhile(run: seq<State>, i: nat) returns (j: nat)
    requires IsRun(run, Init, Next) && i < |run| && run[i].consumer.CheckingHead? && run[i].tail in run[i].next
    ensures j < i && LinkPending(run[j])
    ensures forall m :: j <= m <= i ==> run[m].consumer.CheckingHead?
  {
    hide Inv, Next, Init, LinkPending;
    NobodyChecksAtStart(run, i);
    RunsKeepInv(run, i - 1);
    assert Next(run[i - 1], run[i - 1 + 1]);
    LinksTail(run[i - 1], run[i]);
    if run[i - 1].tail in run[i - 1].next {
      j := LinkedMeanwhile(run, i - 1);
    } else {
      j := i - 1;
    }
  }

  lemma NobodyChecksAtStart(run: seq<State>, i: nat)
    requires IsRun(run, Init, Next) && i < |run| && run[i].consumer.CheckingHead?
    ensures i > 0
  {
  }

  /** pop returns null only if nothing is queued, or if during the call some
      producer stood between its exchange and its link. */
  lemma NullMeansEmptyOrPending(run: seq<State>, i: nat) returns (j: nat)
    requires IsRun(run, Init, Next) && i < |run| - 1 && run[i].chain != [] && run[i].pushers != []
    requires PopStep(run[i], run[i + 1]) && run[i + 1].consumer == Outside(None)
    ensures Entries(run[i].chain) == [] || (j <= i && LinkPending(run[j]))
    ensures forall m :: j <= m < i ==> !run[m].consumer.Outside?
  {
    j := i;
    RunsKeepInv(run, i);
    RunsKeepStub(run, i);
    var s := run[i];
    if s.consumer.CheckingHead? && s.tail in s.next {
      j := LinkedMeanwhile(run, i);
    } else if |s.chain| > 1 {
      UnlinkedIsPending(s);
    } else {
      assert s.chain == [s.tail];
      ExceptHead(s.chain, STUB);
    }
  }
}
