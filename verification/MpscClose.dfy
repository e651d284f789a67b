/** What a close of the bounded ring puts at risk: exactly when a value that was
    accepted can come to stand behind a position that was given up. */
module MpscClose {
  import opened Bits
  import opened MpscAlone
  import opened MpscDelivery
  import opened MpscQueue
  import opened Ring
  import opened Threads

  /** A value was accepted behind a position that was given up. */
  ghost predicate KeepsBack(s: State) {
    exists p, q :: 0 <= p < q < |s.claims| && s.claims[p].status == Abandoned && s.claims[q].status == Published
  }

  ghost predicate CanKeepBack(s: State) {
    exists s' :: Reaches(SmallStep, s, s') && KeepsBack(s')
  }

  /** The position is published, or its producer has found the ring open. */
  predicate Accepted(s: State, q: nat) {
    && q < |s.claims|
    && (s.claims[q].status.Published?
        || (s.claims[q].status.Pending? && s.claims[q].producer < |s.pcs|
            && var p := s.pcs[s.claims[q].producer]; p.Writing? || p.Publishing?))
  }

  /** Producer t stands between its claim and its load of closed, and behind its
      position one is accepted. */
  predicate Overtaken(s: State, t: nat, q: nat) {
    t < |s.pcs| && s.pcs[t].Claimed? && s.pcs[t].head < q && Accepted(s, q)
  }

  ghost predicate SomebodyOvertaken(s: State) {
    exists t, q :: Overtaken(s, t, q)
  }

  // Before the close nothing is given up.

  ghost predicate NothingGivenUp(s: State) {
    && (forall p :: 0 <= p < |s.claims| ==> s.claims[p].status != Abandoned)
    && (forall t :: 0 <= t < |s.pcs| ==> !s.pcs[t].Abandoning?)
  }

  /** What a producer's step does to its program point and to the claims. */
  predicate PushMove(s: State, t: nat, s': State)
    requires t < |s.pcs|
  {
    && t < |s'.pcs| && s'.pcs == s.pcs[t := s'.pcs[t]] && s'.closed == s.closed
    && var p, p', claims' := s.pcs[t], s'.pcs[t], s'.claims;
       match p
       case Claimed(v, h) => p' == (if s.closed then Abandoning(v, h) else Writing(v, h)) && claims' == s.claims
       case Abandoning(_, h) => p'.Idle? && h < |s.claims| && claims' == s.Mark(h, Abandoned).claims
       case Writing(v, h) => p' == Publishing(v, h) && claims' == s.claims
       case Publishing(_, h) => p'.Idle? && h < |s.claims| && claims' == s.Mark(h, Published).claims
       case _ =>
         || (!InFlight(p') && claims' == s.claims)
         || (p'.Claimed? && p'.head == |s.claims| && claims' == s.claims + [Claim(p'.value, t, Pending)])
  }

  lemma PushMoves(s: State, t: nat, s': State)
    requires Inv(s) && t < |s.pcs| && PushStep(s, t, s')
    ensures PushMove(s, t, s')
  {
    hide SlotOf, Diff;
    assert ProducerOk(s, t);
  }

  /** Every step but a producer's leaves the claims, and nobody in flight. */
  lemma OtherMoves(s: State, s': State)
    requires Next(s, s') && forall t :: 0 <= t < |s.pcs| ==> !PushStep(s, t, s')
    ensures s'.claims == s.claims && (s.closed ==> s'.closed) && |s'.pcs| == |s.pcs|
    ensures forall t :: 0 <= t < |s.pcs| ==> s'.pcs[t] == s.pcs[t] || s'.pcs[t].Loading?
  {
    hide SlotOf, Diff;
  }

  lemma OpenStepGivesNothingUp(s: State, s': State)
    requires Inv(s) && Next(s, s') && (!s.closed ==> NothingGivenUp(s)) && !s'.closed
    ensures NothingGivenUp(s')
  {
    assert s.Shaped();
    hide PushStep;
    if t :| 0 <= t < |s.pcs| && PushStep(s, t, s') {
      PushMoves(s, t, s');
    } else {
      OtherMoves(s, s');
    }
  }

  lemma {:induction false} OpenRunsGiveNothingUp(run: seq<State>, i: nat)
    requires IsRun(run, Init, Next) && SmallUntil(run, i) && !run[i].closed
    ensures NothingGivenUp(run[i])
  {
    if i > 0 {
      RunsKeepInv(run, i - 1);
      assert Next(run[i - 1], run[i - 1 + 1]);
      if !run[i - 1].closed {
        OpenRunsGiveNothingUp(run, i - 1);
      }
      OpenStepGivesNothingUp(run[i - 1], run[i]);
    }
  }

  // After the close exactly what was accepted by then is published.

  /** What can have become of a position, and where a producer can be with its
      position, after the close `c`. */
  predicate StatusOk(c: State, p: nat, status: Status) {
    && (status.Published? ==> Accepted(c, p))
    && (status.Abandoned? ==> !Accepted(c, p))
  }

  predicate PlaceOk(c: State, pc: PC) {
    && (pc.Writing? || pc.Publishing? ==> Accepted(c, pc.head))
    && (pc.Claimed? || pc.Abandoning? ==> !Accepted(c, pc.head))
  }

  ghost predicate AfterClose(c: State, s: State) {
    && s.closed && |c.claims| <= |s.claims|
    && (forall p :: 0 <= p < |s.claims| ==> StatusOk(c, p, s.claims[p].status))
    && (forall t :: 0 <= t < |s.pcs| ==> PlaceOk(c, s.pcs[t]))
  }

  lemma CloseBegins(c: State)
    requires Inv(c) && c.closed && NothingGivenUp(c)
    ensures AfterClose(c, c)
  {
    forall t | 0 <= t < |c.pcs|
      ensures PlaceOk(c, c.pcs[t])
    {
      assert ProducerOk(c, t);
    }
  }

  lemma PushStaysAfterClose(c: State, s: State, t: nat, s': State)
    requires AfterClose(c, s) && t < |s.pcs| && PushMove(s, t, s')
    ensures AfterClose(c, s')
  {
    BehindTheClose(c, s);
    assert PlaceOk(c, s.pcs[t]);
    hide Accepted;
    forall p | 0 <= p < |s'.claims|
      ensures StatusOk(c, p, s'.claims[p].status)
    {
      assert p < |s.claims| ==> StatusOk(c, p, s.claims[p].status);
    }
    forall u | 0 <= u < |s'.pcs|
      ensures PlaceOk(c, s'.pcs[u])
    {
      assert u != t ==> PlaceOk(c, s.pcs[u]);
    }
  }

  lemma StepStaysAfterClose(c: State, s: State, s': State)
    requires AfterClose(c, s) && Inv(s) && Next(s, s')
    ensures AfterClose(c, s')
  {
    assert s.Shaped();
    hide PushStep, Accepted, StatusOk;
    if t :| 0 <= t < |s.pcs| && PushStep(s, t, s') {
      PushMoves(s, t, s');
      PushStaysAfterClose(c, s, t, s');
    } else {
      OtherMoves(s, s');
      forall u | 0 <= u < |s'.pcs|
        ensures PlaceOk(c, s'.pcs[u])
      {
        assert PlaceOk(c, s.pcs[u]);
      }
    }
  }

  /** A position that is still to be claimed was not accepted at the close. */
  lemma BehindTheClose(c: State, s: State)
    requires |c.claims| <= |s.claims|
    ensures !Accepted(c, |s.claims|)
  {
  }

  lemma {:induction false} PathStaysAfterClose(path: seq<State>)
    requires IsPath(path, SmallStep) && Inv(path[0]) && path[0].closed && NothingGivenUp(path[0])
    ensures Inv(path[|path| - 1]) && AfterClose(path[0], path[|path| - 1])
  {
    hide Inv, AfterClose, NothingGivenUp, Next;
    var n := |path| - 1;
    if n == 0 {
      CloseBegins(path[0]);
    } else {
      PathStaysAfterClose(path[..n]);
      assert SmallStep(path[n - 1], path[n - 1 + 1]);
      StepKeepsInv(path[n - 1], path[n]);
      StepStaysAfterClose(path[0], path[n - 1], path[n]);
    }
  }

  lemma ReachesAfterClose(c: State, s: State)
    requires Inv(c) && c.closed && NothingGivenUp(c) && Reaches(SmallStep, c, s)
    ensures Inv(s) && AfterClose(c, s)
  {
    var path :| IsPath(path, SmallStep) && path[0] == c && path[|path| - 1] == s;
    PathStaysAfterClose(path);
  }

  /** So a value behind a position that was given up was overtaken at the close. */
  lemma KeptBackWasOvertaken(c: State, s: State)
    requires Inv(c) && c.closed && NothingGivenUp(c) && Reaches(SmallStep, c, s) && KeepsBack(s)
    ensures SomebodyOvertaken(c)
  {
    ReachesAfterClose(c, s);
    var p, q :| 0 <= p < q < |s.claims| && s.claims[p].status == Abandoned && s.claims[q].status == Published;
    assert StatusOk(c, p, s.claims[p].status) && StatusOk(c, q, s.claims[q].status);
    assert PendingOk(c, p);
    assert Overtaken(c, c.claims[p].producer, q);
  }

  // And an overtaken producer can give its position up.

  lemma GivesUp(c: State, t: nat) returns (s: State)
    requires Inv(c) && Small(c) && c.closed && t < |c.pcs| && c.pcs[t].Claimed?
    ensures Reaches(SmallStep, c, s) && Inv(s) && Small(s) && c.pcs[t].head < |c.claims|
    ensures s.claims == c.Mark(c.pcs[t].head, Abandoned).claims && s.pcs == c.pcs[t := Idle]
  {
    var v, h := c.pcs[t].value, c.pcs[t].head;
    assert ProducerOk(c, t);
    hide SlotOf, Inv;
    ReachesSelf(SmallStep, c);
    var abandoning := c.Go(t, Abandoning(v, h));
    Advance(c, c, t, abandoning);
    s := abandoning.Put(h, abandoning.At(h).(sequence := h)).Mark(h, Abandoned).Go(t, Idle);
    Advance(c, abandoning, t, s);
  }

  lemma Publishes(c: State, s: State, u: nat) returns (s': State)
    requires Reaches(SmallStep, c, s) && Inv(s) && Small(s) && u < |s.pcs|
    requires s.pcs[u].Writing? || s.pcs[u].Publishing?
    ensures Reaches(SmallStep, c, s') && s.pcs[u].head < |s.claims|
    ensures s'.claims == s.Mark(s.pcs[u].head, Published).claims
  {
    var v, h := s.pcs[u].value, s.pcs[u].head;
    assert ProducerOk(s, u);
    hide SlotOf, Inv;
    var written := s;
    if s.pcs[u].Writing? {
      written := s.Put(h, s.At(h).(data := v)).Go(u, Publishing(v, h));
      Advance(c, s, u, written);
    }
    s' := written.Put(h, written.At(h).(sequence := Add(h, 1, TWO64))).Mark(h, Published).Go(u, Idle);
    Advance(c, written, u, s');
  }

  lemma OvertakenIsKeptBack(c: State, t: nat, q: nat)
    requires Inv(c) && Small(c) && c.closed && Overtaken(c, t, q)
    ensures CanKeepBack(c)
  {
    assert ProducerOk(c, t) && PendingOk(c, q);
    var s := GivesUp(c, t);
    if s.claims[q].status.Pending? {
      s := Publishes(c, s, s.claims[q].producer);
    }
    assert s.claims[c.pcs[t].head].status == Abandoned && s.claims[q].status == Published;
  }

  /** The step that closes the ring decides it: some way on leads to an accepted
      value behind a position that was given up if and only if a producer stands
      between its claim and its load of closed, with a position accepted behind. */
  lemma CloseKeepsBackExactly(run: seq<State>, i: nat)
    requires IsRun(run, Init, Next) && i < |run| - 1 && SmallUntil(run, i + 1)
    requires !run[i].closed && run[i + 1].closed
    ensures CanKeepBack(run[i + 1]) <==> SomebodyOvertaken(run[i + 1])
  {
    var c := run[i + 1];
    ClosesInOrder(run, i);
    if t, q :| Overtaken(c, t, q) {
      OvertakenIsKeptBack(c, t, q);
    }
    if s :| Reaches(SmallStep, c, s) && KeepsBack(s) {
      KeptBackWasOvertaken(c, s);
    }
  }

  lemma ClosesInOrder(run: seq<State>, i: nat)
    requires IsRun(run, Init, Next) && i < |run| - 1 && SmallUntil(run, i + 1)
    requires !run[i].closed && run[i + 1].closed
    ensures Inv(run[i + 1]) && NothingGivenUp(run[i + 1])
  {
    RunsKeepInv(run, i);
    RunsKeepInv(run, i + 1);
    OpenRunsGiveNothingUp(run, i);
    var s, s' := run[i], run[i + 1];
    assert Next(s, s');
    if t :| 0 <= t < |s.pcs| && PushStep(s, t, s') {
      PushMoves(s, t, s');
    } else {
      OtherMoves(s, s');
    }
  }

  lemma RunReaches(run: seq<State>, i: nat, j: nat)
    requires IsRun(run, Init, Next) && i <= j && SmallUntil(run, j)
    ensures Reaches(SmallStep, run[i], run[j])
  {
    var path := run[i..j + 1];
    forall k | 0 <= k < |path| - 1
      ensures SmallStep(path[k], path[k + 1])
    {
      assert Next(run[i + k], run[i + k + 1]) && Small(run[i + k]);
    }
    assert IsPath(path, SmallStep) && path[0] == run[i] && path[|path| - 1] == run[j];
  }

  /** If nobody was overtaken at the close, as when no producer stood between its
      claim and its load of closed, then from then on every value that is published
      can be popped as soon as the claims before it are settled. */
  lemma NothingKeptBack(run: seq<State>, i: nat, j: nat, q: nat)
    requires IsRun(run, Init, Next) && i < j && SmallUntil(run, j)
    requires !run[i].closed && run[i + 1].closed && !SomebodyOvertaken(run[i + 1])
    requires run[j].consumer.Resting? && run[j].tail <= q < run[j].head && |run[j].claims| == run[j].head
    requires run[j].claims[q].status == Published
    requires forall p :: run[j].tail <= p < q ==> run[j].claims[p].status != Pending
    ensures CanDeliver(run[j], q)
  {
    ClosesInOrder(run, i);
    RunReaches(run, i + 1, j);
    assert !KeepsBack(run[j]) by {
      if KeepsBack(run[j]) {
        KeptBackWasOvertaken(run[i + 1], run[j]);
      }
    }
    DeliveredUnlessAbandoned(run, j, q);
  }
}
