/** The epoch manager as one object: the slots it scans, and the linked list of
    retired nodes it unlinks from in place. */
module EpochManager {
  import opened Bits
  import opened EpochLists
  import opened Sequences

  class RetiredNode {
    const info: Node
    var next: RetiredNode?

    constructor (info: Node)
      ensures this.info == info && next == null
    {
      this.info := info;
      next := null;
    }
  }

  ghost function Infos(nodes: seq<RetiredNode>): (infos: seq<Node>)
    ensures |infos| == |nodes|
    ensures forall i :: 0 <= i < |nodes| ==> infos[i] == nodes[i].info
  {
    seq(|nodes|, i requires 0 <= i < |nodes| => nodes[i].info)
  }

  lemma InfosRemoved(nodes: seq<RetiredNode>, k: nat)
    requires k < |nodes|
    ensures Infos(Without(nodes, k)) == Without(Infos(nodes), k)
  {
  }

  lemma InfosPrepended(node: RetiredNode, nodes: seq<RetiredNode>)
    ensures Infos([node] + nodes) == [node.info] + Infos(nodes)
  {
  }

  lemma DropOne(deleted: seq<Node>, retired: seq<Node>, kept: nat, min: nat)
    requires kept < |retired|
    ensures var n := retired[kept];
      deleted + Drop(retired[kept..], min)
      == if n.epoch < min
         then (deleted + [n]) + Drop(Without(retired, kept)[kept..], min)
         else deleted + Drop(retired[kept + 1..], min)
  {
    var retired' := Without(retired, kept);
    assert retired'[kept..] == retired[kept + 1..] == retired[kept..][1..];
  }

  /** A sweep by `min` that has `kept` nodes behind it will end with the list
      `final` and the deleted nodes `log`. */
  ghost predicate WillEnd(retired: seq<Node>, deleted: seq<Node>, kept: nat, min: nat,
                          final: seq<Node>, log: seq<Node>) {
    WillLeave(retired, kept, min, final) && log == deleted + Drop(retired[kept..], min)
  }

  lemma SweepOne(retired: seq<Node>, deleted: seq<Node>, kept: nat, min: nat, final: seq<Node>, log: seq<Node>)
    requires WillEnd(retired, deleted, kept, min, final, log)
    ensures kept == |retired| ==> final == retired && log == deleted
    ensures kept < |retired| && retired[kept].epoch < min ==>
              WillEnd(Without(retired, kept), deleted + [retired[kept]], kept, min, final, log)
    ensures kept < |retired| && retired[kept].epoch >= min ==>
              WillEnd(retired, deleted, kept + 1, min, final, log)
  {
    VisitOne(retired, kept, min, final);
    if kept < |retired| {
      DropOne(deleted, retired, kept, min);
    }
  }

  /** The minimum a scan of the slots arrives at, starting from the current epoch. */
  function ScanMin(inUse: seq<bool>, active: seq<nat>, current: nat): (min: nat)
    requires |inUse| == |active|
  {
    if inUse == [] then current else
      var last := |inUse| - 1;
      var min := ScanMin(inUse[..last], active[..last], current);
      if inUse[last] then Lower(min, active[last]) else min
  }

  /** The scan finds the least of the current epoch and the epochs in which some
      registered thread is reading. */
  lemma {:induction false} ScanMinIsLeast(inUse: seq<bool>, active: seq<nat>, current: nat)
    requires |inUse| == |active|
    ensures var min := ScanMin(inUse, active, current);
      && min <= current
      && (forall i :: 0 <= i < |inUse| && inUse[i] && active[i] != INACTIVE_EPOCH ==> min <= active[i])
      && (min == current || exists i :: 0 <= i < |inUse| && inUse[i] && active[i] == min != INACTIVE_EPOCH)
  {
    if inUse != [] {
      var last := |inUse| - 1;
      ScanMinIsLeast(inUse[..last], active[..last], current);
      var before := ScanMin(inUse[..last], active[..last], current);
      if before != current {
        var i :| 0 <= i < last && inUse[..last][i] && active[..last][i] == before != INACTIVE_EPOCH;
        assert inUse[i] && active[i] == before;
      }
      forall i | 0 <= i < last && inUse[i] && active[i] != INACTIVE_EPOCH
        ensures before <= active[i]
      {
        assert inUse[..last][i] && active[..last][i] == active[i];
      }
    }
  }

  class EpochManager {
    var globalEpoch: nat
    const activeEpoch: array<nat>
    const inUse: array<bool>
    var retiredHead: RetiredNode?
    /** What the deleters were called on, in order. */
    var deleted: seq<Node>
    ghost var nodes: seq<RetiredNode>
    ghost var repr: set<RetiredNode>

    ghost predicate Valid()
      reads this`nodes, this`repr, this`retiredHead, repr
    {
      && (forall i :: 0 <= i < |nodes| ==> nodes[i] in repr)
      && activeEpoch.Length == MAX_SLOTS && inUse.Length == MAX_SLOTS
      && retiredHead == At(nodes, 0, null)
      && (forall i :: 0 <= i < |nodes| ==> nodes[i].next == At(nodes, i + 1, null))
      && Distinct(nodes)
    }

    ghost function Retired(): (infos: seq<Node>)
      reads this`nodes
    {
      Infos(nodes)
    }

    constructor ()
      ensures Valid() && fresh(activeEpoch) && fresh(inUse)
      ensures globalEpoch == 1 && Retired() == [] && deleted == []
      ensures forall i :: 0 <= i < MAX_SLOTS ==> !inUse[i] && activeEpoch[i] == INACTIVE_EPOCH
    {
      globalEpoch := 1;
      activeEpoch := new nat[MAX_SLOTS](i => INACTIVE_EPOCH);
      inUse := new bool[MAX_SLOTS](i => false);
      retiredHead := null;
      deleted := [];
      nodes := [];
      repr := {};
    }

    /** Takes the first free slot, and falls back to slot 0 if there is none. */
    method RegisterThread() returns (slot: nat)
      requires Valid()
      modifies inUse
      ensures Valid() && slot < MAX_SLOTS
      ensures (exists i :: 0 <= i < MAX_SLOTS && !old(inUse[i])) ==>
                && !old(inUse[slot]) && inUse[..] == old(inUse[..])[slot := true]
                && forall i :: 0 <= i < slot ==> old(inUse[i])
      ensures (forall i :: 0 <= i < MAX_SLOTS ==> old(inUse[i])) ==> slot == 0 && inUse[..] == old(inUse[..])
    {
      for i := 0 to MAX_SLOTS
        invariant inUse[..] == old(inUse[..])
        invariant forall j :: 0 <= j < i ==> inUse[j]
      {
        if !inUse[i] {
          inUse[i] := true;
          return i;
        }
      }
      return 0;
    }

    method UnregisterThread(slot: nat)
      requires Valid()
      modifies activeEpoch, inUse
      ensures Valid()
      ensures activeEpoch[..] ==
                if slot < MAX_SLOTS then old(activeEpoch[..])[slot := INACTIVE_EPOCH] else old(activeEpoch[..])
      ensures inUse[..] == if slot < MAX_SLOTS then old(inUse[..])[slot := false] else old(inUse[..])
    {
      if slot < MAX_SLOTS {
        activeEpoch[slot] := INACTIVE_EPOCH;
        inUse[slot] := false;
      }
    }

    method Enter(slot: nat)
      requires Valid()
      modifies activeEpoch
      ensures Valid()
      ensures activeEpoch[..] ==
                if slot < MAX_SLOTS then old(activeEpoch[..])[slot := globalEpoch] else old(activeEpoch[..])
    {
      if slot < MAX_SLOTS {
        var e := globalEpoch;
        activeEpoch[slot] := e;
      }
    }

    method Exit(slot: nat)
      requires Valid()
      modifies activeEpoch
      ensures Valid()
      ensures activeEpoch[..] ==
                if slot < MAX_SLOTS then old(activeEpoch[..])[slot := INACTIVE_EPOCH] else old(activeEpoch[..])
    {
      if slot < MAX_SLOTS {
        activeEpoch[slot] := INACTIVE_EPOCH;
      }
    }

    /** Puts a node at the head of the list, marked with the current epoch. */
    method Retire(id: nat, readAt: nat)
      requires Valid()
      modifies this`retiredHead, this`nodes, this`repr
      ensures Valid() && fresh(repr - old(repr))
      ensures Retired() == [Node(id, globalEpoch, readAt)] + old(Retired())
    {
      var info := Node(id, globalEpoch, readAt);
      var node := new RetiredNode(info);
      Prepended(nodes, node, null);
      InfosPrepended(node, nodes);
      hide Distinct, Infos;
      node.next := retiredHead;
      retiredHead := node;
      nodes := [node] + nodes;
      repr := repr + {node};
    }

    /** Scans the slots for the oldest epoch in use. */
    method Scan(current: nat) returns (min: nat)
      requires Valid()
      ensures min == ScanMin(inUse[..], activeEpoch[..], current)
    {
      min := current;
      for i := 0 to MAX_SLOTS
        invariant min == ScanMin(inUse[..i], activeEpoch[..i], current)
      {
        assert inUse[..i + 1][..i] == inUse[..i] && activeEpoch[..i + 1][..i] == activeEpoch[..i];
        if inUse[i] {
          var e := activeEpoch[i];
          if e != INACTIVE_EPOCH && e < min {
            min := e;
          }
        }
      }
      assert inUse[..MAX_SLOTS] == inUse[..] && activeEpoch[..MAX_SLOTS] == activeEpoch[..];
    }

    /** Takes the node at `curr`, behind `prev`, out of the chain. */
    method Unlink(prev: RetiredNode?, curr: RetiredNode, ghost kept: nat)
      requires Valid() && kept < |nodes| && curr == nodes[kept] && prev == At(nodes, kept - 1, null)
      modifies this`retiredHead, this`nodes, (if prev == null then {} else {prev})`next
      ensures Valid()
      ensures nodes == Without(old(nodes), kept)
      ensures curr.next == At(nodes, kept, null)
      ensures Retired() == Without(old(Retired()), kept)
    {
      if prev != null {
        prev.next := curr.next;
      } else {
        retiredHead := curr.next;
      }
      nodes := Without(nodes, kept);
      Removed(old(nodes), kept, null);
      InfosRemoved(old(nodes), kept);
    }

    /** A sweep stands at `curr` with `kept` nodes behind it. */
    ghost predicate SweepAt(prev: RetiredNode?, curr: RetiredNode?, kept: nat, min: nat,
                            final: seq<Node>, log: seq<Node>)
      reads this, repr
    {
      && Valid() && WillEnd(Retired(), deleted, kept, min, final, log)
      && prev == At(nodes, kept - 1, null) && curr == At(nodes, kept, null)
    }

    /** Unlinks and deletes the node at `curr`. */
    method Delete(prev: RetiredNode?, curr: RetiredNode, ghost kept: nat, min: nat,
                  ghost final: seq<Node>, ghost log: seq<Node>)
      requires SweepAt(prev, curr, kept, min, final, log) && curr.info.epoch < min
      modifies this`retiredHead, this`nodes, this`deleted, (if prev == null then {} else {prev})`next
      ensures SweepAt(prev, curr.next, kept, min, final, log) && |nodes| == old(|nodes|) - 1
    {
      SweepOne(Retired(), deleted, kept, min, final, log);
      hide WillEnd, At, Without, Valid, Infos;
      Unlink(prev, curr, kept);
      deleted := deleted + [curr.info];
    }

    /** Going past the node at `curr`. */
    lemma Pass(prev: RetiredNode?, curr: RetiredNode, kept: nat, min: nat, final: seq<Node>, log: seq<Node>)
      requires SweepAt(prev, curr, kept, min, final, log) && curr.info.epoch >= min
      ensures kept < |nodes| && SweepAt(curr, curr.next, kept + 1, min, final, log)
    {
      SweepOne(Retired(), deleted, kept, min, final, log);
    }

    /** Unlinks and deletes, in place, every node older than `min`. */
    method Sweep(min: nat)
      requires Valid()
      modifies this`retiredHead, this`nodes, this`deleted, repr
      ensures Valid()
      ensures Retired() == Keep(old(Retired()), min)
      ensures deleted == old(deleted) + Drop(old(Retired()), min)
    {
      ghost var final := Keep(Retired(), min);
      ghost var log := deleted + Drop(Retired(), min);
      ghost var kept := 0;
      var prev: RetiredNode? := null;
      var curr := retiredHead;
      assert Retired()[0..] == Retired();
      while curr != null
        invariant SweepAt(prev, curr, kept, min, final, log)
        decreases |nodes| - kept
      {
        if curr.info.epoch < min {
          Delete(prev, curr, kept, min, final, log);
        } else {
          Pass(prev, curr, kept, min, final, log);
          prev := curr;
          kept := kept + 1;
        }
        curr := curr.next;
      }
      SweepOne(Retired(), deleted, kept, min, final, log);
    }

    method TryReclaim()
      requires Valid()
      modifies this`globalEpoch, this`retiredHead, this`nodes, this`deleted, repr
      ensures Valid()
      ensures var min := ScanMin(inUse[..], activeEpoch[..], old(globalEpoch));
        && globalEpoch == (if min == old(globalEpoch) then Add(old(globalEpoch), 1, TWO64) else old(globalEpoch))
        && Retired() == Keep(old(Retired()), min)
        && deleted == old(deleted) + Drop(old(Retired()), min)
    {
      var current := globalEpoch;
      var min := Scan(current);
      if min == current {
        globalEpoch := Add(globalEpoch, 1, TWO64);
      }
      Sweep(min);
    }

    /** Deletes every listed node, in list order. */
    method ReclaimAll()
      requires Valid()
      modifies this`retiredHead, this`nodes, this`deleted
      ensures Valid()
      ensures Retired() == [] && deleted == old(deleted) + old(Retired())
    {
      ghost var all := Retired();
      ghost var i := 0;
      var curr := retiredHead;
      while curr != null
        invariant i <= |nodes| && curr == At(nodes, i, null)
        invariant deleted == old(deleted) + all[..i]
        modifies this`deleted
        decreases |nodes| - i
      {
        var next := curr.next;
        assert all[..i + 1] == all[..i] + [curr.info];
        deleted := deleted + [curr.info];
        curr := next;
        i := i + 1;
      }
      retiredHead := null;
      nodes := [];
    }
  }
}

/** The object and the step system agree: a thread of the step system that makes
    a call with nobody else moving does what the object's method does. */
module EpochAlone {
  import opened Bits
  import opened Epoch
  import opened EpochLists
  import EpochManager
  import opened Options
  import opened Sequences
  import opened Threads

  function Uses(slots: seq<Slot>): (inUse: seq<bool>)
    ensures |inUse| == |slots|
    ensures forall i :: 0 <= i < |slots| ==> inUse[i] == slots[i].inUse
  {
    seq(|slots|, i requires 0 <= i < |slots| => slots[i].inUse)
  }

  function Actives(slots: seq<Slot>): (active: seq<nat>)
    ensures |active| == |slots|
    ensures forall i :: 0 <= i < |slots| ==> active[i] == slots[i].active
  {
    seq(|slots|, i requires 0 <= i < |slots| => slots[i].active)
  }

  /** A run of worker w alone. */
  ghost predicate Alone(run: seq<State>, w: nat) {
    && run != []
    && forall i :: 0 <= i < |run| - 1 ==> w < |run[i].workers| && WorkerStep(run[i], w, run[i + 1])
  }

  lemma Then(run: seq<State>, w: nat, s': State) returns (longer: seq<State>)
    requires Alone(run, w)
    requires var s := run[|run| - 1]; w < |s.workers| && WorkerStep(s, w, s')
    ensures Alone(longer, w) && longer[0] == run[0] && longer[|longer| - 1] == s'
  {
    longer := run + [s'];
  }

  ghost predicate ScanAt(s: State, w: nat, current: nat, i: nat) {
    && i <= |s.slots| && w < |s.workers|
    && s.workers[w] == ScanUse(current, EpochManager.ScanMin(Uses(s.slots[..i]), Actives(s.slots[..i]), current), i)
  }

  lemma {:induction false} ScanAlone(run: seq<State>, w: nat, current: nat, i: nat) returns (longer: seq<State>)
    requires Alone(run, w) && ScanAt(run[|run| - 1], w, current, i)
    ensures Alone(longer, w) && longer[0] == run[0]
    ensures var s, s' := run[|run| - 1], longer[|longer| - 1];
      && ScanAt(s', w, current, |s.slots|)
      && s' == s.(workers := s.workers[w := s'.workers[w]], now := s'.now)
    decreases |run[|run| - 1].slots| - i
  {
    var s := run[|run| - 1];
    if i == |s.slots| {
      longer := run;
      assert s.workers[w := s.workers[w]] == s.workers;
    } else {
      var p := s.workers[w];
      assert Uses(s.slots[..i + 1])[..i] == Uses(s.slots[..i]);
      assert Actives(s.slots[..i + 1])[..i] == Actives(s.slots[..i]);
      var next: seq<State>;
      if s.slots[i].inUse {
        var s1 := s.Work(w, ScanEpoch(current, p.min, i));
        var r1 := Then(run, w, s1);
        next := Then(r1, w, s1.Work(w, ScanUse(current, Lower(p.min, s.slots[i].active), i + 1)));
      } else {
        next := Then(run, w, s.Work(w, ScanUse(current, p.min, i + 1)));
      }
      longer := ScanAlone(next, w, current, i + 1);
      assert longer[|longer| - 1].workers == s.workers[w := longer[|longer| - 1].workers[w]];
    }
  }

  ghost predicate SweepAt(s: State, w: nat, min: nat, kept: nat, final: seq<Node>, log: seq<Node>) {
    && w < |s.workers| && s.workers[w].Sweeping? && s.workers[w].min == min && s.workers[w].kept == kept
    && EpochManager.WillEnd(s.retired, s.deleted, kept, min, final, log)
  }

  lemma {:induction false} SweepAlone(run: seq<State>, w: nat, min: nat, kept: nat, final: seq<Node>, log: seq<Node>)
    returns (longer: seq<State>)
    requires Alone(run, w) && SweepAt(run[|run| - 1], w, min, kept, final, log)
    ensures Alone(longer, w) && longer[0] == run[0]
    ensures var s, s' := run[|run| - 1], longer[|longer| - 1];
      s' == s.(workers := s.workers[w := Idle], retired := final, deleted := log, owner := None, now := s'.now)
    decreases |run[|run| - 1].retired| - kept
  {
    var s := run[|run| - 1];
    EpochManager.SweepOne(s.retired, s.deleted, kept, min, final, log);
    if kept == |s.retired| {
      longer := Then(run, w, s.Work(w, Idle).(owner := None));
    } else {
      var p := s.workers[w];
      if s.retired[kept].epoch < min {
        var next := Then(run, w, s.Work(w, p).(retired := Without(s.retired, kept),
                                               deleted := s.deleted + [s.retired[kept]]));
        longer := SweepAlone(next, w, min, kept, final, log);
      } else {
        var next := Then(run, w, s.Work(w, p.(kept := kept + 1)));
        longer := SweepAlone(next, w, min, kept + 1, final, log);
        assert longer[|longer| - 1].workers == s.workers[w := Idle];
      }
    }
  }

  /** From any state in which the mutex is free, an idle thread that reclaims by
      itself deletes exactly the nodes older than the least epoch in use. */
  lemma ReclaimAlone(s: State, w: nat) returns (run: seq<State>)
    requires w < |s.workers| && s.workers[w].Idle? && s.owner.None?
    ensures Alone(run, w) && run[0] == s && Reaches(Next, s, run[|run| - 1])
    ensures var s' := run[|run| - 1];
      var min := EpochManager.ScanMin(Uses(s.slots), Actives(s.slots), s.epoch);
      s' == s.(epoch := if min == s.epoch then Add(s.epoch, 1, TWO64) else s.epoch,
               retired := Keep(s.retired, min), deleted := s.deleted + Drop(s.retired, min), now := s'.now)
  {
    var s0 := s.Work(w, ScanUse(s.epoch, s.epoch, 0));
    var r0 := Then([s], w, s0);
    var r1 := ScanAlone(r0, w, s.epoch, 0);
    var s1 := r1[|r1| - 1];
    assert s.slots[..|s.slots|] == s.slots;
    var min := EpochManager.ScanMin(Uses(s.slots), Actives(s.slots), s.epoch);
    var r2 := Then(r1, w, s1.Work(w, if min == s.epoch then Advancing(min) else Collecting(min)));
    if min == s.epoch {
      r2 := Then(r2, w, r2[|r2| - 1].Work(w, Collecting(min)).(epoch := Add(s.epoch, 1, TWO64)));
    }
    var s2 := r2[|r2| - 1];
    var r3 := Then(r2, w, s2.Work(w, Sweeping(min, 0, s2.retired)).(owner := Some(w)));
    assert s.retired[0..] == s.retired;
    run := SweepAlone(r3, w, min, 0, Keep(s.retired, min), s.deleted + Drop(s.retired, min));
    assert run[|run| - 1].workers == s.workers;
    AloneReaches(run, w);
  }

  lemma {:induction false} AloneReaches(run: seq<State>, w: nat)
    requires Alone(run, w)
    ensures Reaches(Next, run[0], run[|run| - 1])
  {
    forall i | 0 <= i < |run| - 1
      ensures Next(run[i], run[i + 1])
    {
      assert WorkerStep(run[i], w, run[i + 1]);
    }
    assert IsPath(run, Next);
  }

  /** A lone retire puts its node in front, marked with the current epoch. */
  lemma RetireAlone(s: State, w: nat) returns (run: seq<State>)
    requires w < |s.workers| && s.workers[w].Idle? && s.owner.None?
    ensures Alone(run, w) && run[0] == s && Reaches(Next, s, run[|run| - 1])
    ensures var s' := run[|run| - 1];
      s' == s.(retired := [Node(s.nextId, s.epoch, s.now)] + s.retired, nextId := s.nextId + 1, now := s'.now)
  {
    var node := Node(s.nextId, s.epoch, s.now);
    var s1 := s.Work(w, Retiring(node)).(nextId := s.nextId + 1);
    var r1 := Then([s], w, s1);
    var s2 := s1.Work(w, Inserting(node)).(owner := Some(w));
    var r2 := Then(r1, w, s2);
    run := Then(r2, w, s2.Work(w, Idle).(retired := [node] + s.retired, owner := None));
    assert run[|run| - 1].workers == s.workers;
    AloneReaches(run, w);
  }

  // The threads in the slots.

  /** Only slot r changed, and time passed. */
  ghost predicate OnlySlot(s: State, r: nat, s': State)
    requires r < |s.slots|
  {
    && r < |s'.slots|
    && s' == s.(slots := s.slots[r := s'.slots[r]], now := s'.now)
    && Uses(s'.slots) == Uses(s.slots)[r := s'.slots[r].inUse]
    && Actives(s'.slots) == Actives(s.slots)[r := s'.slots[r].active]
  }

  lemma SlotStep(s: State, mid: State, r: nat, slot: Slot) returns (s': State)
    requires Reaches(Next, s, mid) && r < |s.slots| && OnlySlot(s, r, mid) && ReaderStep(mid, r, mid.Put(r, slot))
    ensures s' == mid.Put(r, slot) && Reaches(Next, s, s') && OnlySlot(s, r, s') && s'.slots[r] == slot
  {
    s' := mid.Put(r, slot);
    ReachesOneMore(Next, s, mid, s');
    assert mid.slots[r := slot] == s.slots[r := slot];
  }

  /** Nothing has happened yet. */
  lemma Begin(s: State, r: nat)
    requires r < |s.slots|
    ensures Reaches(Next, s, s) && OnlySlot(s, r, s)
  {
    ReachesSelf(Next, s);
    assert s.slots[r := s.slots[r]] == s.slots;
  }

  /** A thread that takes a free slot takes it inactive, as it was. */
  lemma RegisterAlone(s: State, r: nat) returns (s': State)
    requires r < |s.slots| && s.slots[r].reader.Free? && !s.slots[r].inUse
    ensures Reaches(Next, s, s') && OnlySlot(s, r, s')
    ensures s'.slots[r] == s.slots[r].(inUse := true, reader := Outside)
  {
    Begin(s, r);
    s' := SlotStep(s, s, r, s.slots[r].(inUse := true, reader := Outside));
  }

  lemma UnregisterAlone(s: State, r: nat) returns (s': State)
    requires r < |s.slots| && s.slots[r].reader.Outside?
    ensures Reaches(Next, s, s') && OnlySlot(s, r, s')
    ensures s'.slots[r] == Slot(false, INACTIVE_EPOCH, Free)
  {
    Begin(s, r);
    var left := SlotStep(s, s, r, s.slots[r].(active := INACTIVE_EPOCH, reader := Leaving));
    s' := SlotStep(s, left, r, Slot(false, INACTIVE_EPOCH, Free));
  }

  /** A lone enter publishes the current epoch. */
  lemma EnterAlone(s: State, r: nat) returns (s': State)
    requires r < |s.slots| && s.slots[r].reader.Outside?
    ensures Reaches(Next, s, s') && OnlySlot(s, r, s')
    ensures s'.slots[r] == s.slots[r].(active := s.epoch, reader := Inside(s.now + 1))
  {
    Begin(s, r);
    var entering := SlotStep(s, s, r, s.slots[r].(reader := Entering(s.epoch)));
    s' := SlotStep(s, entering, r, s.slots[r].(active := s.epoch, reader := Inside(entering.now)));
  }

  lemma ExitAlone(s: State, r: nat) returns (s': State)
    requires r < |s.slots| && s.slots[r].reader.Inside?
    ensures Reaches(Next, s, s') && OnlySlot(s, r, s')
    ensures s'.slots[r] == s.slots[r].(active := INACTIVE_EPOCH, reader := Outside)
  {
    Begin(s, r);
    s' := SlotStep(s, s, r, s.slots[r].(active := INACTIVE_EPOCH, reader := Outside));
  }

  /** Destroying the manager with nobody inside is one step to the list that
      `reclaim_all` leaves and the nodes it deletes. */
  lemma ReclaimAllAlone(s: State) returns (s': State)
    requires s.owner.None? && forall w :: 0 <= w < |s.workers| ==> s.workers[w].Idle?
    requires forall r :: 0 <= r < |s.slots| ==> !s.slots[r].reader.Inside?
    ensures Reaches(Next, s, s')
    ensures s' == s.(retired := [], deleted := s.deleted + s.retired, now := s'.now)
  {
    s' := s.(retired := [], deleted := s.deleted + s.retired, now := s.now + 1);
    assert Destroy(s, s');
    ReachesSelf(Next, s);
    ReachesOneMore(Next, s, s, s');
  }
}
