/** Which accepted values the bounded ring delivers, and a closed ring that keeps
    one back. */
module MpscDelivery {
  import opened Bits
  import opened MpscAlone
  import opened MpscQueue
  import opened Ring
  import opened Threads

  // An abandoned position stops the consumer on every way on.

  lemma {:induction false} PathStops(path: seq<State>, p: nat)
    requires IsPath(path, SmallStep) && Inv(path[0])
    requires p < |path[0].claims| && path[0].claims[p].status == Abandoned
    ensures var s := path[|path| - 1]; Inv(s) && p < |s.claims| && s.claims[p].status == Abandoned && |s.output| <= p
  {
    var n := |path| - 1;
    if n > 0 {
      PathStops(path[..n], p);
      assert SmallStep(path[n - 1], path[n - 1 + 1]);
      StepKeepsInv(path[n - 1], path[n]);
      StepExtends(path[n - 1], path[n]);
    }
    assert !IsPublished(path[n], p);
  }

  lemma ReachesStops(s: State, p: nat, s': State)
    requires Inv(s) && p < |s.claims| && s.claims[p].status == Abandoned && Reaches(SmallStep, s, s')
    ensures |s'.output| <= p
  {
    var path :| IsPath(path, SmallStep) && path[0] == s && path[|path| - 1] == s';
    PathStops(path, p);
  }

  // Published positions can be popped one after the other.

  lemma {:induction false} Drains(s: State, q: nat) returns (s': State)
    requires Inv(s) && Small(s) && s.consumer.Resting? && s.tail <= q + 1 <= s.head
    requires forall p :: s.tail <= p <= q ==> s.claims[p].status == Published
    ensures Reaches(SmallStep, s, s') && |s'.output| == q + 1
    decreases q + 1 - s.tail
  {
    if s.tail == q + 1 {
      ReachesSelf(SmallStep, s);
      s' := s;
    } else {
      PopAlone(s);
      s' := Drains(Popped(s), q);
      ReachesTransitive(SmallStep, s, Popped(s), s');
    }
  }

  /** Some way on from the state pops the value of position `q`. */
  ghost predicate CanDeliver(s: State, q: nat) {
    exists s' :: Reaches(SmallStep, s, s') && |s'.output| > q
  }

  /** When every claim up to position `q` is settled, its value can be delivered
      exactly if none of the claims from the tail to `q` was abandoned. */
  lemma DeliveredUnlessAbandoned(run: seq<State>, i: nat, q: nat)
    requires IsRun(run, Init, Next) && SmallUntil(run, i) && run[i].consumer.Resting?
    requires run[i].tail <= q < run[i].head && |run[i].claims| == run[i].head
    requires forall p :: run[i].tail <= p <= q ==> run[i].claims[p].status != Pending
    ensures CanDeliver(run[i], q) <==>
            forall p :: run[i].tail <= p <= q ==> run[i].claims[p].status != Abandoned
  {
    RunsKeepInv(run, i);
    var s := run[i];
    if p :| s.tail <= p <= q && s.claims[p].status == Abandoned {
      forall s' | Reaches(SmallStep, s, s')
        ensures |s'.output| <= q
      {
        ReachesStops(s, p, s');
      }
    } else {
      var s' := Drains(s, q);
    }
  }

  // A value that was accepted and is kept back.

  /** The second producer publishes while the first stands between its claim and
      its load of closed; then the ring is closed and the first gives up. */
  lemma KeepsOneBack(s: State, a: Item, b: Item) returns (s': State)
    requires Init(s) && |s.pcs| >= 2 && s.mask + 4 < TWO63
    ensures Reaches(SmallStep, s, s') && Inv(s')
    ensures s'.claims == [Claim(a, 0, Abandoned), Claim(b, 1, Published)]
    ensures s'.closed && s'.consumer.Resting? && s'.output == [] && s'.pcs == s.pcs && s'.mask == s.mask && Small(s')
  {
    InitHasInv(s);
    var claimed := TakesPosition(s, 0, a);
    PushAlone(claimed, 1, b);
    var pushed := Pushed(claimed, 1, b);
    ReachesTransitive(SmallStep, s, claimed, pushed);
    assert pushed.claims == [Claim(a, 0, Pending), Claim(b, 1, Published)];
    hide SlotOf;
    var closed := pushed.(closed := true);
    assert SmallStep(pushed, closed);
    ReachesOneMore(SmallStep, s, pushed, closed);
    StepKeepsInv(pushed, closed);
    var abandoning := closed.Go(0, Abandoning(a, 0));
    Advance(s, closed, 0, abandoning);
    s' := abandoning.Put(0, abandoning.At(0).(sequence := 0)).Mark(0, Abandoned).Go(0, Idle);
    Advance(s, abandoning, 0, s');
  }

  lemma {:induction false} PathIsRun(path: seq<State>)
    requires IsPath(path, SmallStep) && Init(path[0])
    ensures IsRun(path, Init, Next)
    ensures forall j :: 0 <= j < |path| - 1 ==> Small(path[j])
  {
    forall i | 0 <= i < |path| - 1
      ensures Next(path[i], path[i + 1]) && Small(path[i])
    {
      assert SmallStep(path[i], path[i + 1]);
    }
  }

  /** A run of a ring with two slots at whose end a value that try_push accepted
      cannot be popped any more, and nothing else either. */
  lemma AcceptedAndKeptBack() returns (run: seq<State>)
    ensures IsRun(run, Init, Next) && SmallUntil(run, |run| - 1)
    ensures var s := run[|run| - 1];
      && s.mask == 1 && s.closed && s.pcs == [Idle, Idle] && s.consumer.Resting? && s.output == []
      && s.claims == [Claim(7, 0, Abandoned), Claim(9, 1, Published)]
      && !CanDeliver(s, 0) && !CanDeliver(s, 1)
  {
    var s := State(1, [Slot(0, 0), Slot(1, 0)], 0, 0, false, [Idle, Idle], Resting, [], []);
    assert Pow2(1) == 2;
    var s' := KeepsOneBack(s, 7, 9);
    run :| IsPath(run, SmallStep) && run[0] == s && run[|run| - 1] == s';
    PathIsRun(run);
    forall s'' | Reaches(SmallStep, s', s'')
      ensures |s''.output| <= 0
    {
      ReachesStops(s', 0, s'');
    }
  }
}
