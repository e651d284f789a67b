/** Epoch-based reclamation: what the sweep of the retired list keeps and drops,
    and how a scan of the reader slots arrives at the epoch it sweeps by. */
module EpochLists {
  import opened Sequences

  const INACTIVE_EPOCH: nat := 0xffff_ffff_ffff_ffff
  const MAX_SLOTS: nat := 128

  /** A retired node: the pointer it will delete, the epoch read when it was
      retired, and the time of that read. */
  datatype Node = Node(id: nat, epoch: nat, readAt: nat)

  function Keep(nodes: seq<Node>, min: nat): (kept: seq<Node>) {
    if nodes == [] then []
    else (if nodes[0].epoch < min then [] else [nodes[0]]) + Keep(nodes[1..], min)
  }

  function Drop(nodes: seq<Node>, min: nat): (dropped: seq<Node>) {
    if nodes == [] then []
    else (if nodes[0].epoch < min then [nodes[0]] else []) + Drop(nodes[1..], min)
  }

  /** A sweep in progress, with `kept` nodes behind it: what it will leave is
      what is behind it and what it will keep of the rest. */
  ghost predicate WillLeave(retired: seq<Node>, kept: nat, min: nat, final: seq<Node>) {
    kept <= |retired| && final == retired[..kept] + Keep(retired[kept..], min)
  }

  /** Visiting one node, and either unlinking or passing it, leads to the same end. */
  lemma VisitOne(retired: seq<Node>, kept: nat, min: nat, final: seq<Node>)
    requires WillLeave(retired, kept, min, final)
    ensures kept == |retired| ==> final == retired
    ensures kept < |retired| && retired[kept].epoch < min ==>
              WillLeave(Without(retired, kept), kept, min, final)
    ensures kept < |retired| && retired[kept].epoch >= min ==>
              WillLeave(retired, kept + 1, min, final)
  {
    if kept < |retired| {
      assert retired[kept..][1..] == retired[kept + 1..];
      if retired[kept].epoch < min {
        var retired' := Without(retired, kept);
        assert retired'[..kept] == retired[..kept] && retired'[kept..] == retired[kept + 1..];
      }
    }
  }

  /** What is kept is exactly the nodes not older than `min`, in their order,
      and kept and dropped together are all the nodes there were. */
  lemma {:induction false} SweepPartitions(nodes: seq<Node>, min: nat)
    ensures multiset(Keep(nodes, min)) + multiset(Drop(nodes, min)) == multiset(nodes)
    ensures forall n :: n in Keep(nodes, min) <==> n in nodes && n.epoch >= min
    ensures forall n :: n in Drop(nodes, min) <==> n in nodes && n.epoch < min
  {
    if nodes != [] {
      SweepPartitions(nodes[1..], min);
      assert nodes == [nodes[0]] + nodes[1..];
    }
  }

  /** Order: of two kept nodes, the one that was behind stays behind. */
  lemma {:induction false} SweepKeepsOrder(nodes: seq<Node>, min: nat, i: nat, j: nat) returns (a: nat, b: nat)
    requires i < j < |nodes| && nodes[i].epoch >= min && nodes[j].epoch >= min
    ensures a < b < |Keep(nodes, min)| && Keep(nodes, min)[a] == nodes[i] && Keep(nodes, min)[b] == nodes[j]
  {
    if i > 0 {
      a, b := SweepKeepsOrder(nodes[1..], min, i - 1, j - 1);
      if nodes[0].epoch >= min {
        a, b := a + 1, b + 1;
      }
    } else {
      var c := KeptAt(nodes[1..], min, j - 1);
      a, b := 0, c + 1;
    }
  }

  lemma {:induction false} KeptAt(nodes: seq<Node>, min: nat, j: nat) returns (c: nat)
    requires j < |nodes| && nodes[j].epoch >= min
    ensures c < |Keep(nodes, min)| && Keep(nodes, min)[c] == nodes[j]
  {
    if j == 0 {
      c := 0;
    } else {
      c := KeptAt(nodes[1..], min, j - 1);
      if nodes[0].epoch >= min {
        c := c + 1;
      }
    }
  }

  /** The scan's update of the minimum by one slot it found in use. */
  function Lower(min: nat, e: nat): (m: nat)
    ensures m <= min
    ensures if e == INACTIVE_EPOCH then m == min else m <= e
    ensures m == min || m == e
  {
    if e != INACTIVE_EPOCH && e < min then e else min
  }
}

/** The epoch manager as a step system: any number of threads retire and
    reclaim while the threads registered in the slots enter and exit. */
module Epoch {
  import opened Bits
  import opened EpochLists
  import opened Options
  import opened Sequences
  import opened Threads

  /** The thread registered in a slot. */
  datatype Reader =
    | Free                      // nobody registered
    | Outside                   // registered, not in a read section
    | Entering(loaded: nat)     // in enter, epoch loaded, before publishing it
    | Inside(publishedAt: nat)  // in a read section since then
    | Leaving                   // in unregister_thread, before freeing the slot

  datatype Slot = Slot(inUse: bool, active: nat, reader: Reader)

  /** Where a thread is in `retire` or `try_reclaim`. */
  datatype Worker =
    | Idle
    | Retiring(node: Node)                                 // epoch read, before the mutex
    | Inserting(node: Node)                                // holds the mutex
    | ScanUse(current: nat, min: nat, i: nat)              // before reading slot i's in_use
    | ScanEpoch(current: nat, min: nat, i: nat)            // slot i in use, before reading its epoch
    | Advancing(min: nat)                                  // everybody caught up, before advancing the epoch
    | Collecting(min: nat)                                 // before the mutex
    | Sweeping(min: nat, kept: nat, start: seq<Node>)      // holds the mutex, `kept` nodes behind it

  datatype State = State(
    epoch: nat, slots: seq<Slot>, retired: seq<Node>, deleted: seq<Node>,
    owner: Option<nat>, workers: seq<Worker>, nextId: nat, now: nat)
  {
    function Work(w: nat, p: Worker): State
      requires w < |workers|
    {
      this.(workers := workers[w := p], now := now + 1)
    }

    function Put(r: nat, slot: Slot): State
      requires r < |slots|
    {
      this.(slots := slots[r := slot], now := now + 1)
    }
  }

  ghost predicate Init(s: State) {
    && s == State(1, s.slots, [], [], None, s.workers, 0, 0)
    && |s.slots| == MAX_SLOTS
    && (forall r :: 0 <= r < |s.slots| ==> s.slots[r] == Slot(false, INACTIVE_EPOCH, Free))
    && (forall w :: 0 <= w < |s.workers| ==> s.workers[w] == Idle)
  }

  /** One atomic operation on slot r by the thread that has it, or is taking it. */
  ghost predicate ReaderStep(s: State, r: nat, s': State)
    requires r < |s.slots|
  {
    var slot := s.slots[r];
    match slot.reader
    case Free =>
      !slot.inUse && s' == s.Put(r, slot.(inUse := true, reader := Outside))
    case Outside =>
      || s' == s.Put(r, slot.(reader := Entering(s.epoch)))
      || s' == s.Put(r, slot.(active := INACTIVE_EPOCH, reader := Leaving))
    case Entering(e) =>
      s' == s.Put(r, slot.(active := e, reader := Inside(s.now)))
    case Inside(_) =>
      s' == s.Put(r, slot.(active := INACTIVE_EPOCH, reader := Outside))
    case Leaving =>
      s' == s.Put(r, Slot(false, slot.active, Free))
  }

  /** One atomic operation of a retiring or reclaiming thread; what it does to
      the list it does while it owns the mutex. */
  ghost predicate WorkerStep(s: State, w: nat, s': State)
    requires w < |s.workers|
  {
    match s.workers[w]
    case Idle =>
      || s' == s.Work(w, Retiring(Node(s.nextId, s.epoch, s.now))).(nextId := s.nextId + 1)
      || s' == s.Work(w, ScanUse(s.epoch, s.epoch, 0))
    case Retiring(node) =>
      s.owner.None? && s' == s.Work(w, Inserting(node)).(owner := Some(w))
    case Inserting(node) =>
      s' == s.Work(w, Idle).(retired := [node] + s.retired, owner := None)
    case ScanUse(current, min, i) =>
      if i < |s.slots| then
        s' == s.Work(w, if s.slots[i].inUse then ScanEpoch(current, min, i) else ScanUse(current, min, i + 1))
      else
        s' == s.Work(w, if min == current then Advancing(min) else Collecting(min))
    case ScanEpoch(current, min, i) =>
      i < |s.slots| && s' == s.Work(w, ScanUse(current, Lower(min, s.slots[i].active), i + 1))
    case Advancing(min) =>
      s' == s.Work(w, Collecting(min)).(epoch := Add(s.epoch, 1, TWO64))
    case Collecting(min) =>
      s.owner.None? && s' == s.Work(w, Sweeping(min, 0, s.retired)).(owner := Some(w))
    case Sweeping(min, kept, start) =>
      if kept >= |s.retired| then
        s' == s.Work(w, Idle).(owner := None)
      else if s.retired[kept].epoch < min then
        s' == s.Work(w, Sweeping(min, kept, start))
               .(retired := Without(s.retired, kept), deleted := s.deleted + [s.retired[kept]])
      else
        s' == s.Work(w, Sweeping(min, kept + 1, start))
  }

  /** `reclaim_all`, which the destructor runs when nobody uses the manager. */
  ghost predicate Destroy(s: State, s': State) {
    && s.owner.None?
    && (forall w :: 0 <= w < |s.workers| ==> s.workers[w].Idle?)
    && (forall r :: 0 <= r < |s.slots| ==> !s.slots[r].reader.Inside?)
    && s' == s.(retired := [], deleted := s.deleted + s.retired, now := s.now + 1)
  }

  ghost predicate Next(s: State, s': State) {
    || (exists r :: 0 <= r < |s.slots| && ReaderStep(s, r, s'))
    || (exists w :: 0 <= w < |s.workers| && WorkerStep(s, w, s'))
    || Destroy(s, s')
  }

  // Safety.

  ghost predicate SlotInv(s: State, slot: Slot) {
    match slot.reader
    case Free => !slot.inUse && slot.active == INACTIVE_EPOCH
    case Outside => slot.inUse && slot.active == INACTIVE_EPOCH
    case Entering(e) => slot.inUse && slot.active == INACTIVE_EPOCH && e <= s.epoch
    case Inside(at) => slot.inUse && slot.active <= s.epoch && at < s.now
    case Leaving => slot.active == INACTIVE_EPOCH
  }

  /** The reader is in its section and published its epoch before the node's
      retirement epoch was read. */
  predicate Guards(slot: Slot, n: Node) {
    slot.reader.Inside? && slot.reader.publishedAt < n.readAt
  }

  ghost predicate Unguarded(slots: seq<Slot>, n: Node) {
    forall r :: 0 <= r < |slots| ==> !Guards(slots[r], n)
  }

  /** Retired and not yet deleted. */
  ghost predicate Live(retired: seq<Node>, workers: seq<Worker>, n: Node) {
    || n in retired
    || exists w :: 0 <= w < |workers| && Carries(workers[w], n)
  }

  predicate Carries(p: Worker, n: Node) {
    (p.Retiring? || p.Inserting?) && p.node == n
  }

  ghost predicate NodeInv(s: State, n: Node) {
    && n.epoch <= s.epoch && n.readAt < s.now && n.id < s.nextId
    && forall r :: 0 <= r < |s.slots| && Guards(s.slots[r], n) ==> s.slots[r].active <= n.epoch
  }

  /** No node that a slot before `upTo` guards is older than `min`. */
  ghost predicate ScanRespects(slots: seq<Slot>, min: nat, upTo: nat, n: Node) {
    forall r :: 0 <= r < |slots| && r < upTo && Guards(slots[r], n) ==> min <= n.epoch
  }

  /** The minimum a thread has found, and how many slots it has seen. */
  function Progress(p: Worker): Option<(nat, nat)> {
    match p
    case ScanUse(_, min, i) => Some((min, i))
    case ScanEpoch(_, min, i) => Some((min, i))
    case Advancing(min) => Some((min, MAX_SLOTS))
    case Collecting(min) => Some((min, MAX_SLOTS))
    case Sweeping(min, _, _) => Some((min, MAX_SLOTS))
    case _ => None
  }

  ghost predicate WorkerInv(s: State, p: Worker) {
    Progress(p).Some? ==>
      var (min, upTo) := Progress(p).value;
      && min <= s.epoch
      && forall n :: Live(s.retired, s.workers, n) ==> ScanRespects(s.slots, min, upTo, n)
  }

  ghost predicate Inv(s: State) {
    && s.epoch < INACTIVE_EPOCH
    && |s.slots| == MAX_SLOTS
    && (forall r :: 0 <= r < |s.slots| ==> SlotInv(s, s.slots[r]))
    && (forall n :: Live(s.retired, s.workers, n) ==> NodeInv(s, n))
    && (forall w :: 0 <= w < |s.workers| ==> WorkerInv(s, s.workers[w]))
    && (forall n :: n in s.deleted ==> n.readAt < s.now && Unguarded(s.slots, n))
  }

  lemma ReaderKeepsInv(s: State, r: nat, s': State)
    requires Inv(s) && r < |s.slots| && ReaderStep(s, r, s')
    ensures Inv(s')
  {
    assert SlotInv(s, s.slots[r]);
    var slots' := s'.slots;
    forall n: Node, q | n.readAt < s.now && 0 <= q < |slots'| && Guards(slots'[q], n)
      ensures q != r && Guards(s.slots[q], n)
    {
    }
    forall q | 0 <= q < |slots'|
      ensures SlotInv(s', slots'[q])
    {
      assert q != r ==> SlotInv(s, s.slots[q]);
    }
    forall n | Live(s'.retired, s'.workers, n)
      ensures NodeInv(s', n)
    {
      assert NodeInv(s, n);
    }
    forall w | 0 <= w < |s'.workers|
      ensures WorkerInv(s', s'.workers[w])
    {
      var p := s.workers[w];
      assert WorkerInv(s, p);
      if Progress(p).Some? {
        forall n | Live(s'.retired, s'.workers, n)
          ensures ScanRespects(slots', Progress(p).value.0, Progress(p).value.1, n)
        {
          assert NodeInv(s, n);
          assert ScanRespects(s.slots, Progress(p).value.0, Progress(p).value.1, n);
        }
      }
    }
    forall n | n in s'.deleted
      ensures n.readAt < s'.now && Unguarded(slots', n)
    {
      assert Unguarded(s.slots, n);
    }
  }

  /** A node whose retirement epoch thread t is reading just now. */
  ghost predicate JustRead(s: State, n: Node) {
    n.epoch == s.epoch && n.readAt == s.now && n.id == s.nextId
  }

  /** What a worker's step must show for itself; everything else is framing. */
  lemma WorkerFrame(s: State, w: nat, s': State)
    requires Inv(s) && w < |s.workers|
    requires s'.slots == s.slots && s'.now == s.now + 1
    requires s.epoch <= s'.epoch < INACTIVE_EPOCH && s.nextId <= s'.nextId
    requires |s'.workers| == |s.workers| && forall v :: 0 <= v < |s.workers| && v != w ==> s'.workers[v] == s.workers[v]
    requires forall n :: Live(s'.retired, s'.workers, n) ==>
               Live(s.retired, s.workers, n) || (JustRead(s, n) && n.id < s'.nextId)
    requires WorkerInv(s', s'.workers[w])
    requires forall n :: n in s'.deleted ==> n in s.deleted || (n.readAt < s.now && Unguarded(s.slots, n))
    ensures Inv(s')
  {
    forall r | 0 <= r < |s'.slots|
      ensures SlotInv(s', s'.slots[r])
    {
      assert SlotInv(s, s.slots[r]);
    }
    forall n | Live(s'.retired, s'.workers, n)
      ensures NodeInv(s', n)
    {
      if Live(s.retired, s.workers, n) {
        assert NodeInv(s, n);
      }
    }
    forall v | 0 <= v < |s'.workers| && v != w
      ensures WorkerInv(s', s'.workers[v])
    {
      assert WorkerInv(s, s.workers[v]);
    }
  }

  lemma LiveAfterMove(retired: seq<Node>, workers: seq<Worker>, w: nat, p: Worker)
    requires w < |workers|
    ensures forall n :: Live(retired, workers[w := p], n) ==> Live(retired, workers, n) || Carries(p, n)
  {
    forall n | Live(retired, workers[w := p], n)
      ensures Live(retired, workers, n) || Carries(p, n)
    {
      if n !in retired {
        var v :| 0 <= v < |workers| && Carries(workers[w := p][v], n);
        if v != w {
          assert Carries(workers[v], n);
        }
      }
    }
  }

  lemma ScanKeepsInv(s: State, w: nat, s': State)
    requires Inv(s) && w < |s.workers| && WorkerStep(s, w, s') && s'.epoch < INACTIVE_EPOCH
    requires s.workers[w].ScanUse? || s.workers[w].ScanEpoch?
    ensures Inv(s')
  {
    var p, p' := s.workers[w], s'.workers[w];
    assert WorkerInv(s, p);
    LiveAfterMove(s.retired, s.workers, w, p');
    var (min, upTo) := Progress(p).value;
    var (min', upTo') := Progress(p').value;
    forall n | Live(s'.retired, s'.workers, n)
      ensures ScanRespects(s'.slots, min', upTo', n)
    {
      assert ScanRespects(s.slots, min, upTo, n) && NodeInv(s, n);
      if p.i < |s.slots| {
        assert SlotInv(s, s.slots[p.i]);
      }
    }
    WorkerFrame(s, w, s');
  }

  lemma RetireKeepsInv(s: State, w: nat, s': State)
    requires Inv(s) && w < |s.workers| && WorkerStep(s, w, s') && s'.epoch < INACTIVE_EPOCH
    requires s.workers[w].Idle? || s.workers[w].Retiring? || s.workers[w].Inserting?
    ensures Inv(s')
  {
    var p' := s'.workers[w];
    LiveAfterMove(s.retired, s.workers, w, p');
    forall n | Live(s'.retired, s'.workers, n)
      ensures Live(s.retired, s.workers, n) || (JustRead(s, n) && n.id < s'.nextId)
    {
      var p := s.workers[w];
      assert Live(s.retired, s'.workers, n) || (p.Inserting? && n == p.node);
      assert Carries(p, n) ==> Live(s.retired, s.workers, n);
    }
    if p'.ScanUse? {
      forall n | Live(s'.retired, s'.workers, n)
        ensures ScanRespects(s'.slots, p'.min, 0, n)
      {
      }
    }
    WorkerFrame(s, w, s');
  }

  lemma ReclaimKeepsInv(s: State, w: nat, s': State)
    requires Inv(s) && w < |s.workers| && WorkerStep(s, w, s') && s'.epoch < INACTIVE_EPOCH
    requires s.workers[w].Advancing? || s.workers[w].Collecting? || s.workers[w].Sweeping?
    ensures Inv(s')
  {
    var p, p' := s.workers[w], s'.workers[w];
    assert WorkerInv(s, p);
    LiveAfterMove(s.retired, s.workers, w, p');
    forall n | Live(s'.retired, s'.workers, n)
      ensures Live(s.retired, s.workers, n)
    {
      assert Live(s.retired, s'.workers, n);
    }
    forall n | n in s'.deleted && n !in s.deleted
      ensures n.readAt < s.now && Unguarded(s.slots, n)
    {
      assert Live(s.retired, s.workers, n);
      assert NodeInv(s, n) && ScanRespects(s.slots, p.min, MAX_SLOTS, n);
    }
    WorkerFrame(s, w, s');
  }

  lemma DestroyKeepsInv(s: State, s': State)
    requires Inv(s) && Destroy(s, s')
    ensures Inv(s')
  {
    forall r | 0 <= r < |s'.slots|
      ensures SlotInv(s', s'.slots[r])
    {
      assert SlotInv(s, s.slots[r]);
    }
    forall n | n in s'.deleted
      ensures n.readAt < s'.now && Unguarded(s'.slots, n)
    {
      if n in s.retired {
        assert Live(s.retired, s.workers, n);
        assert NodeInv(s, n);
      }
    }
    assert forall n :: !Live(s'.retired, s'.workers, n);
  }

  lemma StepKeepsInv(s: State, s': State)
    requires Inv(s) && Next(s, s') && s'.epoch < INACTIVE_EPOCH
    ensures Inv(s')
  {
    if r :| 0 <= r < |s.slots| && ReaderStep(s, r, s') {
      ReaderKeepsInv(s, r, s');
    } else if w :| 0 <= w < |s.workers| && WorkerStep(s, w, s') {
      var p := s.workers[w];
      if p.ScanUse? || p.ScanEpoch? {
        ScanKeepsInv(s, w, s');
      } else if p.Idle? || p.Retiring? || p.Inserting? {
        RetireKeepsInv(s, w, s');
      } else {
        ReclaimKeepsInv(s, w, s');
      }
    } else {
      DestroyKeepsInv(s, s');
    }
  }

  lemma {:induction false} RunsKeepInv(run: seq<State>, i: nat)
    requires IsRun(run, Init, Next) && i < |run|
    requires forall k :: 0 <= k <= i ==> run[k].epoch < INACTIVE_EPOCH
    ensures Inv(run[i])
  {
    if i > 0 {
      RunsKeepInv(run, i - 1);
      assert Next(run[i - 1], run[i - 1 + 1]);
      StepKeepsInv(run[i - 1], run[i]);
    }
  }

  /** No early free.  Over every interleaving: a node is not deleted while a
      reader is still inside its section, if that reader published its epoch
      before the node's retirement epoch was read. */
  lemma NoEarlyFree(run: seq<State>, i: nat, r: nat, n: Node)
    requires IsRun(run, Init, Next) && i < |run| && r < |run[i].slots|
    requires forall k :: 0 <= k <= i ==> run[k].epoch < INACTIVE_EPOCH
    requires run[i].slots[r].reader.Inside? && run[i].slots[r].reader.publishedAt < n.readAt
    ensures n !in run[i].deleted
  {
    RunsKeepInv(run, i);
    if n in run[i].deleted {
      assert Unguarded(run[i].slots, n) && Guards(run[i].slots[r], n);
    }
  }

  // Conservation.

  ghost function HasId(id: nat): Node -> nat {
    (n: Node) => if n.id == id then 1 else 0
  }

  ghost function CarriesId(id: nat): Worker -> nat {
    (p: Worker) => if (p.Retiring? || p.Inserting?) && p.node.id == id then 1 else 0
  }

  /** In how many places a retired node is: listed, deleted, on its way to the list. */
  ghost function Places(s: State, id: nat): nat {
    Sum(s.retired, HasId(id)) + Sum(s.deleted, HasId(id)) + Sum(s.workers, CarriesId(id))
  }

  ghost predicate Conserved(s: State) {
    forall id: nat :: Places(s, id) == if id < s.nextId then 1 else 0
  }

  lemma {:induction false} SumConcat(a: seq<Node>, b: seq<Node>, w: Node -> nat)
    ensures Sum(a + b, w) == Sum(a, w) + Sum(b, w)
  {
    if b == [] {
      assert a + b == a;
    } else {
      SumConcat(a, b[..|b| - 1], w);
      assert (a + b)[..|a + b| - 1] == a + b[..|b| - 1];
    }
  }

  lemma SumSingle(n: Node, id: nat)
    ensures Sum([n], HasId(id)) == HasId(id)(n)
  {
    assert [n][..0] == [];
  }

  /** Moving one node from the list to the deleted ones changes no total. */
  lemma MoveToDeleted(retired: seq<Node>, kept: nat, deleted: seq<Node>, w: Node -> nat)
    requires kept < |retired|
    ensures Sum(Without(retired, kept), w) + Sum(deleted + [retired[kept]], w)
         == Sum(retired, w) + Sum(deleted, w)
  {
    var n := retired[kept];
    assert retired == (retired[..kept] + [n]) + retired[kept + 1..];
    SumConcat(retired[..kept] + [n], retired[kept + 1..], w);
    SumConcat(retired[..kept], [n], w);
    SumConcat(retired[..kept], retired[kept + 1..], w);
    SumConcat(deleted, [n], w);
  }

  lemma WorkerConserves(s: State, w: nat, s': State, id: nat)
    requires w < |s.workers| && WorkerStep(s, w, s')
    ensures Places(s', id) == Places(s, id) + if s.nextId <= id < s'.nextId then 1 else 0
  {
    var p := s.workers[w];
    SumUpdate(s.workers, w, s'.workers[w], CarriesId(id));
    if p.Inserting? {
      SumConcat([p.node], s.retired, HasId(id));
      SumSingle(p.node, id);
    } else if p.Sweeping? && p.kept < |s.retired| && s.retired[p.kept].epoch < p.min {
      MoveToDeleted(s.retired, p.kept, s.deleted, HasId(id));
    }
  }

  lemma StepConserves(s: State, s': State)
    requires Next(s, s') && Conserved(s)
    ensures Conserved(s')
  {
    forall id: nat
      ensures Places(s', id) == if id < s'.nextId then 1 else 0
    {
      assert Places(s, id) == if id < s.nextId then 1 else 0;
      if r :| 0 <= r < |s.slots| && ReaderStep(s, r, s') {
      } else if w :| 0 <= w < |s.workers| && WorkerStep(s, w, s') {
        WorkerConserves(s, w, s', id);
      } else {
        SumConcat(s.deleted, s.retired, HasId(id));
      }
    }
  }

  lemma {:induction false} RunsConserve(run: seq<State>, i: nat)
    requires IsRun(run, Init, Next) && i < |run|
    ensures Conserved(run[i])
  {
    if i == 0 {
      forall id: nat
        ensures Places(run[0], id) == 0
      {
        SumZero(run[0].workers, CarriesId(id));
      }
    } else {
      RunsConserve(run, i - 1);
      assert Next(run[i - 1], run[i - 1 + 1]);
      StepConserves(run[i - 1], run[i]);
    }
  }

  /** No leak and no double free: over every run each node ever retired is in
      exactly one place, and once the manager is destroyed every one of them has
      been deleted exactly once. */
  lemma EachNodeHasOnePlace(run: seq<State>, i: nat, id: nat)
    requires IsRun(run, Init, Next) && i < |run| && id < run[i].nextId
    ensures Sum(run[i].retired, HasId(id)) + Sum(run[i].deleted, HasId(id)) + Sum(run[i].workers, CarriesId(id)) == 1
    ensures i > 0 && Destroy(run[i - 1], run[i]) ==> Sum(run[i].deleted, HasId(id)) == 1
  {
    RunsConserve(run, i);
    assert Places(run[i], id) == 1;
    if i > 0 && Destroy(run[i - 1], run[i]) {
      SumZero(run[i].workers, CarriesId(id));
    }
  }

  // The sweep, as it happens under the mutex.

  ghost predicate SweepInv(s: State) {
    && (s.owner.Some? ==> s.owner.value < |s.workers|)
    && forall w :: 0 <= w < |s.workers| ==>
         var p := s.workers[w];
         && ((p.Inserting? || p.Sweeping?) <==> s.owner == Some(w))
         && (p.Sweeping? ==> WillLeave(s.retired, p.kept, p.min, Keep(p.start, p.min)))
  }

  lemma SweepStep(s: State, w: nat, s': State)
    requires w < |s.workers| && WorkerStep(s, w, s') && s.workers[w].Sweeping?
    requires var p := s.workers[w]; WillLeave(s.retired, p.kept, p.min, Keep(p.start, p.min))
    ensures var p := s'.workers[w]; p.Sweeping? ==> WillLeave(s'.retired, p.kept, p.min, Keep(p.start, p.min))
    ensures s'.workers[w].Idle? ==> s'.retired == Keep(s.workers[w].start, s.workers[w].min)
  {
    var p := s.workers[w];
    VisitOne(s.retired, p.kept, p.min, Keep(p.start, p.min));
  }

  lemma WorkerKeepsSweepInv(s: State, w: nat, s': State)
    requires SweepInv(s) && w < |s.workers| && WorkerStep(s, w, s')
    ensures SweepInv(s')
  {
    if s.workers[w].Sweeping? {
      SweepStep(s, w, s');
    } else if s'.workers[w].Sweeping? {
      assert s.retired[0..] == s.retired;
    }
  }

  lemma StepKeepsSweepInv(s: State, s': State)
    requires SweepInv(s) && Next(s, s')
    ensures SweepInv(s')
  {
    if w :| 0 <= w < |s.workers| && WorkerStep(s, w, s') {
      WorkerKeepsSweepInv(s, w, s');
    }
  }

  lemma {:induction false} RunsKeepSweepInv(run: seq<State>, i: nat)
    requires IsRun(run, Init, Next) && i < |run|
    ensures SweepInv(run[i])
  {
    if i > 0 {
      RunsKeepSweepInv(run, i - 1);
      assert Next(run[i - 1], run[i - 1 + 1]);
      StepKeepsSweepInv(run[i - 1], run[i]);
    }
  }

  /** Whatever else runs meanwhile, a finished sweep has left exactly the nodes
      that were listed when it took the mutex and are not older than its
      minimum, in their order. */
  lemma SweepKeepsTheYoung(run: seq<State>, i: nat, w: nat)
    requires IsRun(run, Init, Next) && i < |run| - 1
    requires w < |run[i].workers| && WorkerStep(run[i], w, run[i + 1])
    requires run[i].workers[w].Sweeping? && run[i + 1].workers[w].Idle?
    ensures run[i + 1].retired == Keep(run[i].workers[w].start, run[i].workers[w].min)
  {
    RunsKeepSweepInv(run, i);
    SweepStep(run[i], w, run[i + 1]);
  }
}
