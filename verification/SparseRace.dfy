/**
  A flush of one sparse inode against writers that buffer without the mount-wide lock.
  The flush takes the pending runs out of the table, stores them one by one, and puts
  back what it could not store. A write that is buffered meanwhile starts a new entry,
  and putting the old runs back replaces that entry without looking at the budgets.
 */
module SparseRace {
  import opened Basics
  import opened ByteFile
  import opened SparseRuns
  import opened SparseStore

  /**
    The bytes on disk, the table's runs for the inode, the runs a flush has taken out, and
    how many bytes other inodes have pending.
   */
  datatype State = State(disk: seq<byte>, table: seq<Run>, taken: Option<seq<Run>>, others: nat)

  datatype Step =
    | Buffer(offset: nat, data: seq<byte>, after: seq<Run>)
    | Elsewhere(bytes: nat)
    | Take
    | StoreRun
    | StorePart(n: nat)
    | Finish
    | PutBack

  predicate Proper(runs: seq<Run>) { Separated(runs) && NonEmpty(runs) }

  predicate Sound(s: State) { Proper(s.table) && (s.taken.Some? ==> Proper(s.taken.value)) }

  /** What the table counts. */
  function Pending(s: State): nat { s.others + TotalBytes(s.table) }

  /** Both budgets are kept. */
  predicate Within(s: State) {
    TotalBytes(s.table) <= MAX_SPARSE_WRITE_BUFFER_SIZE && Pending(s) <= MAX_TOTAL_SPARSE_WRITE_BUFFER_BYTES
  }

  /**
    The table's runs after a write are those that `SparseBuffers.InsertCorrect` promises,
    and both budgets are looked at. Other inodes come and go within the global budget.
   */
  ghost predicate Enabled(s: State, step: Step) {
    match step
    case Buffer(offset, data, after) =>
      data != [] && Proper(after) && Overrides(s.table, offset, data, after) && Within(s.(table := after))
    case Elsewhere(bytes) => bytes <= s.others || Within(s.(others := bytes))
    case Take => s.taken == None && s.table != []
    case StoreRun => s.taken.Some? && s.taken.value != []
    case StorePart(n) => s.taken.Some? && s.taken.value != [] && n <= |s.taken.value[0].data|
    case Finish => s.taken == Some([])
    case PutBack => s.taken.Some?
  }

  ghost function Do(s: State, step: Step): State
    requires Enabled(s, step)
  {
    match step
    case Buffer(_, _, after) => s.(table := after)
    case Elsewhere(bytes) => s.(others := bytes)
    case Take => s.(table := [], taken := Some(s.table))
    case StoreRun =>
      var run := s.taken.value[0];
      s.(disk := PWrite(s.disk, run.offset, run.data), taken := Some(s.taken.value[1..]))
    case StorePart(n) => s.(disk := PWrite(s.disk, s.taken.value[0].offset, s.taken.value[0].data[..n]))
    case Finish => s.(taken := None)
    case PutBack => s.(table := s.taken.value, taken := None)
  }

  /** What the flush is working on, over the bytes on disk. */
  function Older(s: State): seq<byte> { if s.taken.Some? then Overlay(s.disk, s.taken.value) else s.disk }

  /** The file that received every acknowledged write: the newer runs over the older ones. */
  function File(s: State): seq<byte> { Overlay(Older(s), s.table) }

  ghost function Effect(file: seq<byte>, step: Step): seq<byte> {
    if step.Buffer? then PWrite(file, step.offset, step.data) else file
  }

  lemma {:induction false} StepKeeps(s: State, step: Step)
    requires Sound(s) && Enabled(s, step)
    ensures Sound(Do(s, step))
  {
    if step.StoreRun? { FullWriteRetires(s.disk, s.taken.value); }
  }

  // ------------------------------------------------------------ putting runs back

  /** Every byte buffered meanwhile is already shown by the runs put back and the disk. */
  ghost predicate Repeats(s: State) {
    forall i: nat :: ByteAt(s.table, i).Some? ==> i < |Older(s)| && Older(s)[i] == ByteAt(s.table, i).value
  }

  /** The last pending byte lies inside what is shown already. */
  lemma {:induction false} EndIsShown(s: State)
    requires Sound(s) && Repeats(s)
    ensures SparseEnd(s.table) <= |Older(s)|
  {
    if s.table != [] {
      var k := |s.table| - 1;
      var last := s.table[k];
      SparseEndSeparated(s.table);
      ByteAtCovered(s.table, k, last.End() - 1);
    }
  }

  /** The guard a flush could test under the table's lock. */
  lemma NoEntryRepeats(s: State)
    requires s.table == []
    ensures Repeats(s)
  {
  }

  /** Putting runs back loses nothing exactly if it replaces nothing new. */
  lemma {:induction false} PutBackKeepsIff(s: State)
    requires Sound(s) && Enabled(s, PutBack)
    ensures File(Do(s, PutBack)) == File(s) <==> Repeats(s)
  {
    var older, file := Older(s), File(s);
    if Repeats(s) {
      EndIsShown(s);
      assert |file| == |older|;
      forall i: nat | i < |older| ensures file[i] == older[i] {
        assert file[i] == Through(older, s.table, i);
      }
    } else {
      var i: nat :| ByteAt(s.table, i).Some? && !(i < |older| && older[i] == ByteAt(s.table, i).value);
      var k := CoveringRun(s.table, i);
      SparseEndBounds(s.table, k);
      assert file[i] == Through(older, s.table, i);
    }
  }

  lemma {:induction false} StepFile(s: State, step: Step)
    requires Sound(s) && Enabled(s, step) && (step.PutBack? ==> Repeats(s))
    ensures File(Do(s, step)) == Effect(File(s), step)
  {
    match step
    case Buffer(offset, data, after) =>
      EndAfterInsert(s.table, offset, data, after);
      InsertIsPWrite(Older(s), s.table, offset, data, after);
    case Elsewhere(_) =>
    case Take => NothingPending(File(s));
    case StoreRun => FullWriteRetires(s.disk, s.taken.value);
    case StorePart(n) => PartialWriteInvisible(s.disk, s.taken.value, 0, n);
    case Finish => NothingPending(s.disk);
    case PutBack => PutBackKeepsIff(s);
  }

  // ------------------------------------------------------------ whole runs

  ghost predicate Run(s: State, steps: seq<Step>, after: State)
    decreases |steps|
  {
    if steps == [] then s == after else Enabled(s, steps[0]) && Run(Do(s, steps[0]), steps[1..], after)
  }

  /** Nothing new was in the table whenever runs were put back. */
  ghost predicate Undisturbed(s: State, steps: seq<Step>)
    decreases |steps|
  {
    steps != [] && Enabled(s, steps[0]) ==>
      (steps[0].PutBack? ==> Repeats(s)) && Undisturbed(Do(s, steps[0]), steps[1..])
  }

  ghost function PlainFile(file: seq<byte>, steps: seq<Step>): seq<byte>
    decreases |steps|
  {
    if steps == [] then file else PlainFile(Effect(file, steps[0]), steps[1..])
  }

  /** Flushes, whole or failed halfway, and writers leave the file that received the acknowledged writes. */
  lemma {:induction false} FileFollowsWrites(s: State, steps: seq<Step>, after: State)
    requires Sound(s) && Run(s, steps, after) && Undisturbed(s, steps)
    ensures Sound(after) && File(after) == PlainFile(File(s), steps)
    decreases |steps|
  {
    if steps != [] {
      StepKeeps(s, steps[0]);
      StepFile(s, steps[0]);
      FileFollowsWrites(Do(s, steps[0]), steps[1..], after);
    }
  }

  /** While no flush is under way, a read through the table returns what the acknowledged writes left. */
  lemma {:induction false} ReadSeesWrites(s: State, steps: seq<Step>, after: State, offset: nat, len: nat)
    requires Sound(s) && Run(s, steps, after) && Undisturbed(s, steps) && after.taken == None
    ensures PRead(Overlay(after.disk, after.table), offset, len) == PRead(PlainFile(File(s), steps), offset, len)
  {
    FileFollowsWrites(s, steps, after);
  }

  // ------------------------------------------------------------ runs that lose a write or break a budget

  /** Whenever writes are pending and there is room for a byte, a flush that fails at once can lose the next write. */
  lemma {:induction false} FailedFlushCanLoseWrite(s: State) returns (steps: seq<Step>, after: State)
    requires Sound(s) && s.taken == None && s.table != [] && s.others < MAX_TOTAL_SPARSE_WRITE_BUFFER_BYTES
    ensures Run(s, steps, after) && File(after) != PlainFile(File(s), steps)
  {
    var b := OtherByte(File(s));
    var write := Buffer(0, [b], [SparseRuns.Run(0, [b])]);
    steps := [Take, write, PutBack];
    var s1 := Do(s, Take);
    assert [SparseRuns.Run(0, [b])][..0] == [];
    assert Overrides(s1.table, 0, [b], write.after);
    assert TotalBytes(write.after) == 1;
    var s2 := Do(s1, write);
    after := Do(s2, PutBack);
    var last, more := [PutBack], [write, PutBack];
    assert steps[1..] == more && more[1..] == last && last[1..] == [];
    assert Run(after, [], after) && Run(s2, last, after) && Run(s1, more, after);
    var file := PWrite(File(s), 0, [b]);
    assert PlainFile(file, []) == file && PlainFile(file, last) == file && PlainFile(File(s), more) == file;
    OtherByteDiffers(File(s));
  }

  lemma PendingIsPositive(runs: seq<Run>)
    requires runs != [] && NonEmpty(runs)
    ensures TotalBytes(runs) > 0
  {
    assert runs[|runs| - 1].data != [];
  }

  // ------------------------------------------------------------ the budgets

  /** What is out of the table never outgrew one inode's budget. */
  predicate Modest(s: State) {
    && TotalBytes(s.table) <= MAX_SPARSE_WRITE_BUFFER_SIZE
    && (s.taken.Some? ==> TotalBytes(s.taken.value) <= MAX_SPARSE_WRITE_BUFFER_SIZE)
    && s.others <= MAX_TOTAL_SPARSE_WRITE_BUFFER_BYTES
  }

  lemma {:induction false} TotalBytesTail(runs: seq<Run>)
    requires runs != []
    ensures TotalBytes(runs[1..]) <= TotalBytes(runs)
    decreases |runs|
  {
    if |runs| > 1 {
      var n := |runs| - 1;
      assert runs[1..][..n - 1] == runs[..n][1..] && runs[1..][n - 1] == runs[n];
      TotalBytesTail(runs[..n]);
    }
  }

  lemma {:induction false} StepIsModest(s: State, step: Step)
    requires Modest(s) && Enabled(s, step)
    ensures Modest(Do(s, step))
  {
    if step.StoreRun? { TotalBytesTail(s.taken.value); }
  }

  /** Putting runs back goes over the global budget exactly if they no longer fit beside the others. */
  lemma {:induction false} PutBackWithinIff(s: State)
    requires Modest(s) && Enabled(s, PutBack)
    ensures Within(Do(s, PutBack)) <==> s.others + TotalBytes(s.taken.value) <= MAX_TOTAL_SPARSE_WRITE_BUFFER_BYTES
  {
  }

  /** In every run the table stays below the global budget and one inode's budget together. */
  lemma {:induction false} BudgetOvershoot(s: State, steps: seq<Step>, after: State)
    requires Modest(s) && Run(s, steps, after)
    ensures Modest(after)
    ensures Pending(after) <= MAX_TOTAL_SPARSE_WRITE_BUFFER_BYTES + MAX_SPARSE_WRITE_BUFFER_SIZE
    decreases |steps|
  {
    if steps != [] {
      StepIsModest(s, steps[0]);
      BudgetOvershoot(Do(s, steps[0]), steps[1..], after);
    }
  }

  /** The overshoot happens: others fill the table while runs are out of it. */
  lemma {:induction false} PutBackCanExceed(s: State) returns (steps: seq<Step>, after: State)
    requires Sound(s) && Within(s) && s.taken == None && s.table != []
    ensures Run(s, steps, after)
    ensures Pending(after) == MAX_TOTAL_SPARSE_WRITE_BUFFER_BYTES + TotalBytes(s.table)
    ensures !Within(after)
  {
    var fill := Elsewhere(MAX_TOTAL_SPARSE_WRITE_BUFFER_BYTES);
    steps := [Take, fill, PutBack];
    PendingIsPositive(s.table);
    var s1 := Do(s, Take);
    var s2 := Do(s1, fill);
    after := Do(s2, PutBack);
    var last, more := [PutBack], [fill, PutBack];
    assert steps[1..] == more && more[1..] == last && last[1..] == [];
    assert Run(after, [], after) && Run(s2, last, after) && Run(s1, more, after);
  }
}
