/** The intrusive queue with nobody else inside it: why a lone push or pop is a
    run of the step system, and the queue as an object whose entries are linked
    in place. */
module IntrusiveAlone {
  import opened MpscIntrusive
  import opened Options
  import opened Sequences
  import opened Threads

  /** What a lone pop returns, and the chain that it leaves: the stub is skipped
      at the tail, and put back behind the last entry. */
  function AfterPop(chain: seq<nat>): (Option<nat>, seq<nat>)
    requires chain != []
  {
    var rest := if chain[0] == STUB && |chain| > 1 then chain[1..] else chain;
    if rest[0] == STUB then (None, rest)
    else (Some(rest[0]), if |rest| > 1 then rest[1..] else [STUB])
  }

  /** It is the oldest entry that leaves, if there is one. */
  lemma PopTakesOldest(chain: seq<nat>)
    requires chain != [] && Distinct(chain)
    ensures var (result, rest) := AfterPop(chain);
      && rest != []
      && (Entries(chain) == [] ==> result == None && rest == chain)
      && (Entries(chain) != [] ==> result == Some(Entries(chain)[0]) && Entries(rest) == Entries(chain)[1..])
  {
    ExceptHead(chain, STUB);
    if chain[0] == STUB && |chain| > 1 {
      ExceptHead(chain[1..], STUB);
    }
  }

  /** Nobody is inside push or pop. */
  ghost predicate AtRest(s: State) {
    s.consumer.Outside? && forall k :: 0 <= k < |s.pushers| ==> s.pushers[k] == Idle
  }

  lemma Advance(s: State, mid: State, s': State)
    requires Reaches(Next, s, mid) && Inv(mid) && Next(mid, s')
    ensures Reaches(Next, s, s') && Inv(s')
  {
    ReachesOneMore(Next, s, mid, s');
    StepKeepsInv(mid, s');
  }

  lemma PushStepIsNext(s: State, k: nat, s': State)
    requires k < |s.pushers| && PushStep(s, k, s')
    ensures Next(s, s')
  {
  }

  lemma PopStepIsNext(s: State, s': State)
    requires s.chain != [] && s.pushers != [] && PopStep(s, s')
    ensures Next(s, s')
  {
  }

  /** The three steps of push, from where the entry is about to be cleared. */
  lemma PushesAlone(s: State, mid: State, k: nat, e: nat) returns (s': State)
    requires Reaches(Next, s, mid) && Inv(mid) && k < |mid.pushers| && mid.pushers[k] == Clearing(e)
    ensures Reaches(Next, s, s') && Inv(s')
    ensures s'.chain == mid.chain + [e] && s'.pushers == mid.pushers[k := Idle]
    ensures s'.consumer == mid.consumer && s'.popped == mid.popped && s'.tail == mid.tail
  {
    hide Inv, Next;
    var cleared := mid.Push(k, Swapping(e)).(next := mid.next - {e});
    PushStepIsNext(mid, k, cleared);
    Advance(s, mid, cleared);
    var swapped := cleared.Push(k, Linking(cleared.head, e))
                     .(head := e, chain := cleared.chain + [e],
                       pushed := if e == STUB then cleared.pushed else cleared.pushed + [e]);
    PushStepIsNext(cleared, k, swapped);
    Advance(s, cleared, swapped);
    s' := swapped.Push(k, Idle).(next := swapped.next[cleared.head := e]);
    PushStepIsNext(swapped, k, s');
    Advance(s, swapped, s');
  }

  /** A lone push is a run that puts its entry behind the chain. */
  lemma PushAlone(s: State, k: nat, e: nat) returns (s': State)
    requires Inv(s) && AtRest(s) && 0 < k < |s.pushers| && e != STUB && e !in s.chain
    ensures Reaches(Next, s, s') && Inv(s') && AtRest(s') && s'.chain == s.chain + [e]
  {
    var started := s.Push(k, Clearing(e));
    ReachesSelf(Next, s);
    assert StartPush(s, k, e, started);
    Advance(s, s, started);
    s' := PushesAlone(s, started, k, e);
  }

  /** With another entry behind it, the consumer takes the entry at the tail. */
  lemma DeliversAlone(s: State, mid: State) returns (s': State)
    requires Reaches(Next, s, mid) && Inv(mid) && mid.tail != STUB && |mid.chain| > 1
    requires !mid.consumer.CheckingHead?
    requires forall k :: 0 <= k < |mid.pushers| ==> mid.pushers[k] == Idle
    ensures Reaches(Next, s, s') && Inv(s') && AtRest(s')
    ensures s'.chain == mid.chain[1..] && s'.consumer == Outside(Some(mid.tail))
  {
    OnlyHeadUnlinked(mid);
    TailLink(mid);
    s' := mid.Deliver(mid.next[mid.tail]);
    PopStepIsNext(mid, s');
    Advance(s, mid, s');
  }

  /** The end of a lone pop, from a tail that is not the stub. */
  lemma TakesAlone(s: State, mid: State) returns (s': State)
    requires Reaches(Next, s, mid) && Inv(mid) && mid.tail != STUB
    requires mid.consumer.Outside? || mid.consumer.Skipped?
    requires forall k :: 0 <= k < |mid.pushers| ==> mid.pushers[k] == Idle
    ensures Reaches(Next, s, s') && Inv(s') && AtRest(s')
    ensures s'.chain == if |mid.chain| > 1 then mid.chain[1..] else [STUB]
    ensures s'.consumer == Outside(Some(mid.tail))
  {
    if |mid.chain| > 1 {
      s' := DeliversAlone(s, mid);
    } else {
      s' := RecyclesStub(s, mid);
    }
  }

  /** The consumer with one entry left starts to push the stub. */
  lemma PushesStub(s: State, mid: State) returns (s': State)
    requires Reaches(Next, s, mid) && Inv(mid) && mid.tail != STUB && mid.chain == [mid.tail]
    requires mid.consumer.Outside? || mid.consumer.Skipped?
    requires forall k :: 0 <= k < |mid.pushers| ==> mid.pushers[k] == Idle
    ensures Reaches(Next, s, s') && Inv(s') && 0 < |mid.pushers|
    ensures s' == mid.Push(0, Clearing(STUB)).(consumer := PushingStub)
  {
    var checking := mid.(consumer := CheckingHead);
    PopStepIsNext(mid, checking);
    Advance(s, mid, checking);
    s' := checking.Push(0, Clearing(STUB)).(consumer := PushingStub);
    PopStepIsNext(checking, s');
    Advance(s, checking, s');
  }

  /** With the stub behind the last entry, the consumer takes the entry. */
  lemma RecyclesStub(s: State, mid: State) returns (s': State)
    requires Reaches(Next, s, mid) && Inv(mid) && mid.tail != STUB && mid.chain == [mid.tail]
    requires mid.consumer.Outside? || mid.consumer.Skipped?
    requires forall k :: 0 <= k < |mid.pushers| ==> mid.pushers[k] == Idle
    ensures Reaches(Next, s, s') && Inv(s') && AtRest(s')
    ensures s'.chain == [STUB] && s'.consumer == Outside(Some(mid.tail))
  {
    var pushing := PushesStub(s, mid);
    var pushed := PushesAlone(s, pushing, 0, STUB);
    s' := DeliversAlone(s, pushed);
  }

  /** A lone pop is a run to the result and the chain of `AfterPop`. */
  lemma PopAlone(s: State) returns (s': State)
    requires Inv(s) && AtRest(s)
    ensures Reaches(Next, s, s') && Inv(s') && AtRest(s')
    ensures s'.consumer == Outside(AfterPop(s.chain).0) && s'.chain == AfterPop(s.chain).1
  {
    ReachesSelf(Next, s);
    OnlyHeadUnlinked(s);
    if s.tail != STUB {
      s' := TakesAlone(s, s);
    } else if |s.chain| == 1 {
      s' := s.(consumer := Outside(None));
      PopStepIsNext(s, s');
      Advance(s, s, s');
    } else {
      TailLink(s);
      var skipped := s.Advance(s.next[STUB]).(consumer := Skipped);
      PopStepIsNext(s, skipped);
      Advance(s, s, skipped);
      s' := TakesAlone(s, skipped);
    }
  }
}

module IntrusiveQueue {
  import opened IntrusiveAlone
  import opened MpscIntrusive
  import opened Options
  import opened Sequences

  /** An entry, with the number that stands for its address. */
  class Entry {
    const name: nat
    var next: Entry?

    constructor (name: nat)
      ensures this.name == name && next == null
    {
      this.name := name;
      next := null;
    }
  }

  ghost function Names(chain: seq<Entry>): (names: seq<nat>)
    ensures |names| == |chain|
    ensures forall i :: 0 <= i < |chain| ==> names[i] == chain[i].name
  {
    seq(|chain|, i requires 0 <= i < |chain| => chain[i].name)
  }

  lemma NamesDistinct(chain: seq<Entry>)
    requires Distinct(Names(chain))
    ensures Distinct(chain)
  {
    var names := Names(chain);
    forall i, j | 0 <= i < j < |chain|
      ensures chain[i] != chain[j]
    {
      assert names[i] != names[j];
    }
  }

  class IntrusiveQueue {
    const stub: Entry
    var head: Entry
    var tail: Entry
    /** Every entry from tail to head, the stub included. */
    ghost var chain: seq<Entry>
    ghost var repr: set<Entry>

    ghost predicate Valid()
      reads this, repr
    {
      && chain != [] && Distinct(Names(chain))
      && tail == chain[0] && head == chain[|chain| - 1]
      && stub in repr && stub.name == STUB
      && (forall i :: 0 <= i < |chain| ==> chain[i] in repr && (chain[i].name == STUB ==> chain[i] == stub))
      && (forall i :: 0 <= i < |chain| ==> chain[i].next == At(chain, i + 1, null))
    }

    /** The names from tail to head, which are the chain of the step system. */
    ghost function View(): (names: seq<nat>)
      reads this
    {
      Names(chain)
    }

    constructor ()
      ensures Valid() && fresh(repr) && View() == [STUB]
    {
      var s := new Entry(STUB);
      stub := s;
      head := s;
      tail := s;
      chain := [s];
      repr := {s};
    }

    /** Puts an entry that is not queued behind the head. */
    method Push(entry: Entry)
      requires Valid() && entry.name !in View() && (entry.name == STUB ==> entry == stub)
      modifies this`head, this`chain, this`repr, head`next, entry`next
      ensures Valid() && repr == old(repr) + {entry} && View() == old(View()) + [entry.name]
      ensures chain == old(chain) + [entry]
    {
      entry.next := null;
      var prev := head;
      head := entry;
      prev.next := entry;
      chain := chain + [entry];
      repr := repr + {entry};
      assert Names(chain) == Names(old(chain)) + [entry.name];
      NamesDistinct(old(chain));
      NewIsNotIn(old(chain), entry);
      Appended(old(chain), entry, null);
      Appended(Names(old(chain)), entry.name, STUB);
    }

    /** Moves the tail on to the entry behind it. */
    method Advance()
      requires Valid() && |chain| > 1
      modifies this`tail, this`chain
      ensures Valid() && View() == old(View())[1..] && tail == old(tail.next)
      ensures chain == old(chain)[1..]
    {
      tail := tail.next;
      chain := chain[1..];
      assert Names(chain) == Names(old(chain))[1..];
      assert forall i :: 0 <= i < |chain| ==> chain[i] == old(chain)[i + 1];
    }

    /** Takes out the oldest entry, or returns null if there is none: the result
        and the chain are those of a lone pop in the step system. */
    method Pop() returns (entry: Entry?)
      requires Valid()
      modifies this`head, this`tail, this`chain, this`repr, stub`next, repr`next
      ensures Valid() && repr == old(repr)
      ensures View() == AfterPop(old(View())).1
      ensures (if entry == null then None else Some(entry.name)) == AfterPop(old(View())).0
      ensures entry != null ==> entry in old(chain) && entry !in chain
    {
      TailIsStub();
      if tail == stub {
        if tail.next == null {
          return null;
        }
        Advance();
        TailIsStub();
      }
      entry := tail;
      if tail.next != null {
        Advance();
        return;
      }
      if tail != head {
        // Cannot be: nobody pushes meanwhile.
        assert false;
      }
      Push(stub);
      if tail.next != null {
        Advance();
        return;
      }
      assert false;
    }

    lemma TailIsStub()
      requires Valid()
      ensures tail == stub <==> View()[0] == STUB
      ensures tail.next == null <==> |chain| == 1
      ensures tail != stub && |chain| == 1 ==> STUB !in View()
    {
    }
  }

  lemma NewIsNotIn(chain: seq<Entry>, entry: Entry)
    requires entry.name !in Names(chain)
    ensures entry !in chain
  {
    forall i | 0 <= i < |chain|
      ensures chain[i] != entry
    {
      assert Names(chain)[i] == chain[i].name;
    }
  }
}
