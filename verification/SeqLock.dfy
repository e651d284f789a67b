/** The sequence lock: data of any number of words, written word by word by one
    writer at a time and read word by word by any number of readers. */
module SeqLock {
  import opened Bits
  import opened Threads

  type Word = int

  datatype Writer = Outside | Writing

  /** Where a reader is in `read_transaction`. */
  datatype Reader =
    | Starting                                                    // in read_begin
    | Reading(seen: nat, begun: nat, copy: map<nat, Word>)  // inside the reader's function, or before read_retry
    | Returned(snapshot: seq<Word>)

  /** The sequence word and the data, with every increment of the sequence
      counted and every committed version kept. */
  datatype State = State(
    sequence: nat, data: seq<Word>, writer: Writer, readers: seq<Reader>,
    count: nat, versions: seq<seq<Word>>)
  {
    function Move(r: nat, p: Reader): State
      requires r < |readers|
    {
      this.(readers := readers[r := p])
    }
  }

  /** The last version whose write has ended. */
  function Committed(s: State): seq<Word>
    requires s.versions != []
  {
    s.versions[|s.versions| - 1]
  }

  ghost predicate Init(s: State) {
    && s == State(0, s.data, Outside, s.readers, 0, [s.data])
    && forall r :: 0 <= r < |s.readers| ==> s.readers[r] == Starting
  }

  ghost predicate WriteBegin(s: State, s': State) {
    && s.writer.Outside?
    && s' == s.(writer := Writing, sequence := Add(s.sequence, 1, TWO32), count := s.count + 1)
  }

  ghost predicate WriteWord(s: State, i: nat, v: Word, s': State) {
    && s.writer.Writing? && i < |s.data|
    && s' == s.(data := s.data[i := v])
  }

  ghost predicate WriteEnd(s: State, s': State) {
    && s.writer.Writing?
    && s' == s.(writer := Outside, sequence := Add(s.sequence, 1, TWO32), count := s.count + 1,
                versions := s.versions + [s.data])
  }

  ghost predicate ReadBegin(s: State, r: nat, s': State) {
    && r < |s.readers| && s.readers[r].Starting?
    && s' == if And(s.sequence, 1) == 0 then s.Move(r, Reading(s.sequence, s.count, map[])) else s
  }

  ghost predicate ReadWord(s: State, r: nat, i: nat, s': State) {
    && r < |s.readers| && s.readers[r].Reading? && i < |s.data|
    && s' == s.Move(r, s.readers[r].(copy := s.readers[r].copy[i := s.data[i]]))
  }

  ghost predicate HasReadAll(s: State, r: nat) {
    && r < |s.readers| && s.readers[r].Reading?
    && forall i :: 0 <= i < |s.data| ==> i in s.readers[r].copy
  }

  /** The words the reader collected, in order. */
  ghost function Collected(s: State, r: nat): (snapshot: seq<Word>)
    requires HasReadAll(s, r)
    ensures |snapshot| == |s.data|
  {
    seq(|s.data|, i requires 0 <= i < |s.data| => s.readers[r].copy[i])
  }

  /** `read_retry`: the snapshot is returned if the sequence is the one the
      attempt began with, and the attempt is repeated otherwise. */
  ghost predicate ReadRetry(s: State, r: nat, s': State) {
    && HasReadAll(s, r)
    && s' == s.Move(r, if s.sequence == s.readers[r].seen then Returned(Collected(s, r)) else Starting)
  }

  ghost predicate ReadAgain(s: State, r: nat, s': State) {
    && r < |s.readers| && s.readers[r].Returned?
    && s' == s.Move(r, Starting)
  }

  /** One operation of reader r. */
  ghost predicate ReaderStep(s: State, r: nat, s': State) {
    ReadBegin(s, r, s') || ReadRetry(s, r, s') || ReadAgain(s, r, s') || exists i :: ReadWord(s, r, i, s')
  }

  /** One operation of the writer. */
  ghost predicate WriterStep(s: State, s': State) {
    WriteBegin(s, s') || WriteEnd(s, s') || exists i, v :: WriteWord(s, i, v, s')
  }

  ghost predicate Next(s: State, s': State) {
    WriterStep(s, s') || exists r :: ReaderStep(s, r, s')
  }

  ghost predicate ReaderInv(s: State, p: Reader) {
    p.Reading? ==>
      && p.begun % 2 == 0 && p.begun <= s.count && p.seen == p.begun % TWO32
      && (forall i :: i in p.copy ==> i < |s.data|)
      && (p.begun == s.count ==> forall i :: i in p.copy ==> p.copy[i] == s.data[i])
  }

  ghost predicate Inv(s: State) {
    && s.sequence == s.count % TWO32
    && |s.versions| == s.count / 2 + 1
    && (s.writer.Outside? ==> s.count % 2 == 0 && Committed(s) == s.data)
    && (s.writer.Writing? ==> s.count % 2 == 1)
    && forall r :: 0 <= r < |s.readers| ==> ReaderInv(s, s.readers[r])
  }

  lemma Increment(count: nat)
    ensures Add(count % TWO32, 1, TWO32) == (count + 1) % TWO32
  {
  }

  lemma EvenWord(count: nat)
    ensures And(count % TWO32, 1) == count % 2
  {
    LowBit(count % TWO32);
  }

  lemma WriterKeepsInv(s: State, s': State)
    requires Inv(s)
    requires WriterStep(s, s')
    ensures Inv(s')
  {
    Increment(s.count);
    forall r | 0 <= r < |s'.readers|
      ensures ReaderInv(s', s'.readers[r])
    {
      assert ReaderInv(s, s.readers[r]);
    }
  }

  lemma ReaderKeepsInv(s: State, r: nat, s': State)
    requires Inv(s)
    requires ReaderStep(s, r, s')
    ensures Inv(s')
  {
    EvenWord(s.count);
    assert ReaderInv(s, s.readers[r]);
    forall q | 0 <= q < |s'.readers|
      ensures ReaderInv(s', s'.readers[q])
    {
      assert q != r ==> ReaderInv(s, s.readers[q]);
    }
  }

  lemma StepKeepsInv(s: State, s': State)
    requires Inv(s) && Next(s, s')
    ensures Inv(s')
  {
    if WriterStep(s, s') {
      WriterKeepsInv(s, s');
    } else {
      var r :| ReaderStep(s, r, s');
      ReaderKeepsInv(s, r, s');
    }
  }

  lemma {:induction false} RunsKeepInv(run: seq<State>, i: nat)
    requires IsRun(run, Init, Next) && i < |run|
    ensures Inv(run[i])
  {
    if i > 0 {
      RunsKeepInv(run, i - 1);
      assert Next(run[i - 1], run[i - 1 + 1]);
      StepKeepsInv(run[i - 1], run[i]);
    }
  }

  /** How often the sequence word moved since the reader's attempt began. */
  ghost function Moves(s: State, r: nat): int
    requires r < |s.readers| && s.readers[r].Reading?
  {
    s.count - s.readers[r].begun
  }

  /** An attempt returns exactly if the sequence has moved a multiple of 2^32
      times.  If it moved less than that, which fewer than 2^31 writes ensure,
      the snapshot is the whole committed version, current from the beginning of
      the attempt to its end. */
  lemma SnapshotsAreWhole(run: seq<State>, i: nat, r: nat)
    requires IsRun(run, Init, Next) && i < |run| - 1
    requires HasReadAll(run[i], r) && ReadRetry(run[i], r, run[i + 1])
    ensures run[i + 1].readers[r].Returned? <==> Moves(run[i], r) % TWO32 == 0
    ensures run[i + 1].readers[r].Returned? && Moves(run[i], r) < TWO32 ==>
              && run[i].versions != []
              && run[i + 1].readers[r].snapshot == Committed(run[i]) == run[i].data
              && run[i].readers[r].begun / 2 == |run[i].versions| - 1
  {
    RunsKeepInv(run, i);
    var s := run[i];
    var p := s.readers[r];
    assert ReaderInv(s, p);
    SameResidue(s.count, p.begun, TWO32);
    if run[i + 1].readers[r].Returned? && Moves(s, r) < TWO32 {
      assert s.count == p.begun;
      assert Collected(s, r) == s.data;
    }
  }

  lemma SameResidue(a: nat, b: nat, m: nat)
    requires m > 0
    ensures a % m == b % m <==> (a - b) % m == 0
  {
    var q := a / m - b / m;
    MulDistributes(a / m, b / m, m);
    assert a - b == q * m + (a % m - b % m);
    if a % m == b % m {
      MultipleRemainder(q, m);
    } else if (a - b) % m == 0 {
      var k := (a - b) / m;
      assert a - b == k * m;
      MulDistributes(k, q, m);
      MultipleIsLarge(k - q, m);
    }
  }

  lemma MultipleRemainder(q: int, m: nat)
    requires m > 0
    ensures (q * m) % m == 0
  {
    var k, e := (q * m) / m, (q * m) % m;
    assert q * m == k * m + e;
    MulDistributes(q, k, m);
    if q != k {
      MultipleIsLarge(q - k, m);
    }
  }

  // The bound is tight: every positive multiple of 2^31 writes inside one attempt lets a torn snapshot through.

  function AfterWrites(s: State, data: seq<Word>, k: nat): State {
    s.(data := if k == 0 then s.data else data,
       sequence := Add(s.sequence, 2 * k, TWO32), count := s.count + 2 * k,
       versions := s.versions + seq(k, _ => data))
  }

  lemma TwoMore(w: nat, k: nat)
    requires w < TWO32
    ensures Add(Add(Add(w, 2 * k, TWO32), 1, TWO32), 1, TWO32) == Add(w, 2 * (k + 1), TWO32)
    ensures Add(w, 0, TWO32) == w
  {
  }

  /** A writer that is inside its write can write the words one after the other. */
  lemma {:induction false} WriteWords(run: seq<State>, data: seq<Word>, i: nat) returns (longer: seq<State>)
    requires IsRun(run, Init, Next)
    requires var s := run[|run| - 1]; s.writer.Writing? && |s.data| == |data| && i <= |data| && s.data[..i] == data[..i]
    ensures IsRun(longer, Init, Next) && longer[|longer| - 1] == run[|run| - 1].(data := data)
    decreases |data| - i
  {
    var s := run[|run| - 1];
    if i == |data| {
      longer := run;
      assert s.data == data;
    } else {
      var s' := s.(data := s.data[i := data[i]]);
      assert WriteWord(s, i, data[i], s');
      assert WriterStep(s, s');
      var next := Extend(run, s', Init, Next);
      longer := WriteWords(next, data, i + 1);
    }
  }

  lemma WriteOnce(run: seq<State>, data: seq<Word>) returns (longer: seq<State>)
    requires IsRun(run, Init, Next)
    requires var s := run[|run| - 1]; s.writer.Outside? && |s.data| == |data|
    ensures IsRun(longer, Init, Next)
    ensures var s := run[|run| - 1];
      longer[|longer| - 1] == s.(data := data, sequence := Add(Add(s.sequence, 1, TWO32), 1, TWO32),
                                 count := s.count + 2, versions := s.versions + [data])
  {
    var s := run[|run| - 1];
    var begun := s.(writer := Writing, sequence := Add(s.sequence, 1, TWO32), count := s.count + 1);
    var next := Extend(run, begun, Init, Next);
    var written := WriteWords(next, data, 0);
    var s' := written[|written| - 1];
    longer := Extend(written, s'.(writer := Outside, sequence := Add(s'.sequence, 1, TWO32), count := s'.count + 1,
                                  versions := s'.versions + [s'.data]), Init, Next);
  }

  /** A writer can write any data, all words of it, any number of times. */
  lemma {:induction false} WriteMany(run: seq<State>, data: seq<Word>, k: nat) returns (longer: seq<State>)
    requires IsRun(run, Init, Next)
    requires var s := run[|run| - 1]; s.writer.Outside? && |s.data| == |data| && s.sequence < TWO32
    ensures IsRun(longer, Init, Next)
    ensures longer[|longer| - 1] == AfterWrites(run[|run| - 1], data, k)
  {
    var start := run[|run| - 1];
    TwoMore(start.sequence, if k == 0 then 0 else k - 1);
    if k == 0 {
      longer := run;
      assert start.versions + seq(0, _ => data) == start.versions;
    } else {
      var before := WriteMany(run, data, k - 1);
      longer := WriteOnce(before, data);
      assert longer[|longer| - 1].versions == start.versions + seq(k, _ => data);
    }
  }

  lemma WrapAround(k: nat)
    ensures Add(0, 2 * (k * 0x8000_0000), TWO32) == 0
    ensures (2 * (k * 0x8000_0000)) % TWO32 == 0
  {
    MultipleRemainder(k, TWO32);
    assert 2 * (k * 0x8000_0000) == k * TWO32;
  }

  /** How many writes were completed since the reader's attempt began. */
  ghost function Writes(s: State, r: nat): int
    requires r < |s.readers| && s.readers[r].Reading?
  {
    |s.versions| - 1 - s.readers[r].begun / 2
  }

  /** The run ends with an attempt that `writes` writes overtook and that returns
      a snapshot which never was a version. */
  ghost predicate EndsTorn(run: seq<State>, r: nat, writes: nat) {
    && |run| >= 2
    && var s, s' := run[|run| - 2], run[|run| - 1];
    && HasReadAll(s, r) && ReadRetry(s, r, s') && Writes(s, r) == writes
    && s'.readers[r].Returned? && s'.readers[r].snapshot !in s'.versions
  }

  /** A reader has begun an attempt and read the first of two words. */
  lemma HalfRead() returns (run: seq<State>)
    ensures IsRun(run, Init, Next)
    ensures run[|run| - 1] == State(0, [0, 0], Outside, [Reading(0, 0, map[0 := 0])], 0, [[0, 0]])
  {
    var s0 := State(0, [0, 0], Outside, [Starting], 0, [[0, 0]]);
    assert IsRun([s0], Init, Next);
    var s1 := s0.Move(0, Reading(0, 0, map[]));
    EvenWord(0);
    assert ReadBegin(s0, 0, s1) && ReaderStep(s0, 0, s1);
    var r1 := Extend([s0], s1, Init, Next);
    var s2 := s1.Move(0, Reading(0, 0, map[0 := 0]));
    assert ReadWord(s1, 0, 0, s2) && ReaderStep(s1, 0, s2);
    run := Extend(r1, s2, Init, Next);
  }

  /** A reader that reads one word, is overtaken by a positive multiple of 2^31
      writes, and reads the other word, returns a snapshot that never was a version. */
  lemma TornAfterWrapAround(k: nat) returns (run: seq<State>)
    requires k > 0
    ensures IsRun(run, Init, Next) && EndsTorn(run, 0, k * 0x8000_0000)
  {
    var half := HalfRead();
    var overtaken := WriteMany(half, [1, 1], k * 0x8000_0000);
    var s := overtaken[|overtaken| - 1];
    WrapAround(k);
    var s' := s.Move(0, Reading(0, 0, map[0 := 0, 1 := 1]));
    assert ReadWord(s, 0, 1, s') && ReaderStep(s, 0, s');
    var read := Extend(overtaken, s', Init, Next);
    var s'' := s'.Move(0, Returned(Collected(s', 0)));
    assert ReadRetry(s', 0, s'') && ReaderStep(s', 0, s'');
    run := Extend(read, s'', Init, Next);
    assert run[|run| - 2] == s';
    var snapshot := s''.readers[0].snapshot;
    assert snapshot[0] == 0 && snapshot[1] == 1;
    assert forall v :: v in s''.versions ==> v == [0, 0] || v == [1, 1];
  }

  /** A torn snapshot was overtaken by a positive multiple of 2^31 writes. */
  lemma TornMeansWrapped(run: seq<State>, r: nat, writes: nat)
    requires IsRun(run, Init, Next) && EndsTorn(run, r, writes)
    ensures writes > 0 && writes % 0x8000_0000 == 0
  {
    var i := |run| - 2;
    SnapshotsAreWhole(run, i, r);
    RunsKeepInv(run, i);
    assert ReaderInv(run[i], run[i].readers[r]);
    var q := Moves(run[i], r) / TWO32;
    assert Moves(run[i], r) == q * TWO32;
    assert writes == q * 0x8000_0000;
    MultipleRemainder(q, 0x8000_0000);
  }

  /** Which numbers of writes can tear an accepted snapshot: some run ends with a
      torn snapshot overtaken by that many writes if and only if the number is a
      positive multiple of 2^31. */
  lemma TornExactlyWhenWrapped(writes: nat)
    ensures (exists run, r :: IsRun(run, Init, Next) && EndsTorn(run, r, writes)) <==>
            writes > 0 && writes % 0x8000_0000 == 0
  {
    if writes > 0 && writes % 0x8000_0000 == 0 {
      var run := TornAfterWrapAround(writes / 0x8000_0000);
    }
    forall run, r | IsRun(run, Init, Next) && EndsTorn(run, r, writes)
      ensures writes > 0 && writes % 0x8000_0000 == 0
    {
      TornMeansWrapped(run, r, writes);
    }
  }

  // A reader that nobody disturbs, and what makes a reader wait.

  /** A step of reader r. */
  ghost function By(r: nat): (State, State) -> bool {
    (s: State, s': State) => ReaderStep(s, r, s')
  }

  /** The words before `i`, as a reader has copied them. */
  function Copied(data: seq<Word>, i: nat): (copy: map<nat, Word>)
    requires i <= |data|
  {
    map k: nat | 0 <= k < i :: data[k]
  }

  lemma {:induction false} ReadsRest(s: State, mid: State, r: nat, i: nat) returns (s': State)
    requires Reaches(By(r), s, mid) && r < |s.readers| && i <= |s.data|
    requires mid == s.Move(r, Reading(s.sequence, s.count, Copied(s.data, i)))
    ensures Reaches(By(r), s, s') && s' == s.Move(r, Returned(s.data))
    decreases |s.data| - i
  {
    if i == |s.data| {
      assert HasReadAll(mid, r);
      assert Collected(mid, r) == s.data;
      s' := s.Move(r, Returned(s.data));
      assert ReadRetry(mid, r, s');
      ReachesOneMore(By(r), s, mid, s');
    } else {
      var next := s.Move(r, Reading(s.sequence, s.count, Copied(s.data, i + 1)));
      assert Copied(s.data, i)[i := s.data[i]] == Copied(s.data, i + 1);
      assert ReadWord(mid, r, i, next);
      ReachesOneMore(By(r), s, mid, next);
      s' := ReadsRest(s, next, r, i + 1);
    }
  }

  /** With no write in progress, a reader that starts gets the committed version
      by its own steps alone. */
  lemma ReadAlone(run: seq<State>, i: nat, r: nat) returns (s': State)
    requires IsRun(run, Init, Next) && i < |run|
    requires run[i].writer.Outside? && r < |run[i].readers| && run[i].readers[r].Starting?
    ensures run[i].versions != [] && Reaches(By(r), run[i], s')
    ensures s' == run[i].Move(r, Returned(Committed(run[i])))
  {
    RunsKeepInv(run, i);
    var s := run[i];
    EvenWord(s.count);
    ReachesSelf(By(r), s);
    var begun := s.Move(r, Reading(s.sequence, s.count, map[]));
    assert ReadBegin(s, r, begun);
    ReachesOneMore(By(r), s, s, begun);
    assert Copied(s.data, 0) == map[];
    s' := ReadsRest(s, begun, r, 0);
  }

  /** read_begin waits exactly while a write is in progress. */
  lemma BeginsUnlessWriting(run: seq<State>, i: nat, r: nat)
    requires IsRun(run, Init, Next) && i < |run| - 1 && ReadBegin(run[i], r, run[i + 1])
    ensures r < |run[i + 1].readers| && (run[i + 1].readers[r].Reading? <==> run[i].writer.Outside?)
    ensures run[i + 1].readers[r].Reading? || run[i + 1] == run[i]
  {
    RunsKeepInv(run, i);
    EvenWord(run[i].count);
  }
}
