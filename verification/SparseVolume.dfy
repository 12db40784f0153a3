/**
  Sparse files end to end: buffered writes, the direct path for large writes,
  capacity flushes, flushes that fail at open, on an error or on a short write,
  and reads through the pending runs. Over every run of these operations each
  file reads as a plain file that received the same writes in the same order.

  lwext4 is a byte array per inode; a write that fails may have stored any
  prefix. What the device does is a parameter of each operation.
 */
module SparseVolume {
  import opened Basics
  import opened ByteFile
  import opened SparseRuns
  import opened SparseBuffers
  import opened SparseStore

  /** The outcome of one device write: how many bytes reached the file, and the return code. */
  datatype WriteOutcome = WriteOutcome(rc: int, stored: nat)

  /** What the device does during one operation. */
  datatype Faults = Faults(activeDescriptor: bool, openRc: int, writes: seq<WriteOutcome>, closeRc: int,
                           direct: WriteOutcome, readRc: int, allocations: seq<bool>)

  datatype Result<T> = Ok(value: T) | Err(errno: int)

  /** The device's answer to the `n`th write of a flush; unlisted writes succeed. */
  function OutcomeOf(writes: seq<WriteOutcome>, n: nat, expected: nat): (o: WriteOutcome)
    ensures o.stored <= expected
  {
    if n < |writes| then WriteOutcome(writes[n].rc, Min(writes[n].stored, expected))
    else WriteOutcome(EOK, expected)
  }

  predicate Complete(o: WriteOutcome, expected: nat) { o.rc == EOK && o.stored == expected }

  function Allocation(allocations: seq<bool>, n: nat): bool { n < |allocations| ==> allocations[n] }

  lemma {:induction false} TotalBytesFront(runs: seq<Run>)
    requires runs != []
    ensures TotalBytes(runs) == |runs[0].data| + TotalBytes(runs[1..])
  {
    assert runs == [runs[0]] + runs[1..];
    TotalBytesConcat([runs[0]], runs[1..]);
    assert [runs[0]][..0] == [];
  }

  predicate IsSuffix(rest: seq<Run>, runs: seq<Run>) {
    |rest| <= |runs| && rest == runs[|runs| - |rest|..]
  }

  /** Every write of a flush of `runs` would store all its bytes. */
  ghost predicate AllComplete(runs: seq<Run>, writes: seq<WriteOutcome>) {
    CompletesUpTo(runs, writes, |runs|)
  }

  ghost predicate CompletesUpTo(runs: seq<Run>, writes: seq<WriteOutcome>, n: nat)
    requires n <= |runs|
  {
    forall m :: 0 <= m < n ==> Complete(OutcomeOf(writes, m, |runs[m].data|), |runs[m].data|)
  }

  /**
    The write loop of a flush. Runs leave the list only after all their bytes are
    stored; a failed or short write puts its run back.
   */
  method FlushRuns(file: seq<byte>, buffers: SparseWriteBuffers, writes: seq<WriteOutcome>)
    returns (file': seq<byte>, rest: SparseWriteBuffers, rc: int)
    requires buffers.Valid() && NonEmpty(buffers.runs)
    ensures rest.Valid() && NonEmpty(rest.runs)
    ensures rest.bytes <= buffers.bytes
    ensures Overlay(file', rest.runs) == Overlay(file, buffers.runs)
    ensures rc == EOK <==> rest.runs == []
    ensures IsSuffix(rest.runs, buffers.runs)
    ensures rc == EOK <==> AllComplete(buffers.runs, writes)
  {
    file', rest, rc := file, buffers, EOK;
    var n := 0;
    while rest.runs != []
      invariant rest.Valid() && NonEmpty(rest.runs) && rest.bytes <= buffers.bytes
      invariant n <= |buffers.runs| && rest.runs == buffers.runs[n..]
      invariant Overlay(file', rest.runs) == Overlay(file, buffers.runs)
      invariant CompletesUpTo(buffers.runs, writes, n)
      decreases |rest.runs|
    {
      assert rest.runs[0] == buffers.runs[n];
      var outcome := OutcomeOf(writes, n, |rest.runs[0].data|);
      var done;
      file', rest, done := FlushOne(file', rest, outcome);
      if !done {
        rc := if outcome.rc != EOK then outcome.rc else EIO;
        return;
      }
      n := n + 1;
    }
  }

  /** Pop one run, write it, and put it back unless all of it was stored. */
  method FlushOne(file: seq<byte>, buffers: SparseWriteBuffers, outcome: WriteOutcome)
    returns (file': seq<byte>, rest: SparseWriteBuffers, done: bool)
    requires buffers.Valid() && NonEmpty(buffers.runs) && buffers.runs != []
    requires outcome.stored <= |buffers.runs[0].data|
    ensures rest.Valid() && NonEmpty(rest.runs) && rest.bytes <= buffers.bytes
    ensures Overlay(file', rest.runs) == Overlay(file, buffers.runs)
    ensures done <==> Complete(outcome, |buffers.runs[0].data|)
    ensures rest.runs == if done then buffers.runs[1..] else buffers.runs
  {
    var run := buffers.runs[0];
    var expected := |run.data|;
    rest := SparseWriteBuffers(buffers.runs[1..], SaturatingSub(buffers.bytes, expected));
    done := Complete(outcome, expected);
    file' := PWrite(file, run.offset, run.data[..outcome.stored]);
    if done {
      assert run.data[..expected] == run.data;
      FullWriteRetires(file, buffers.runs);
      WithoutFirst(buffers);
    } else {
      rest := SparseWriteBuffers([run] + rest.runs, SaturatingAdd(rest.bytes, expected));
      PutBackFirst(buffers);
      PartialWriteInvisible(file, buffers.runs, 0, outcome.stored);
    }
  }

  /** Taking the first run out keeps the buffers valid and their count exact. */
  lemma {:induction false} WithoutFirst(buffers: SparseWriteBuffers)
    requires buffers.Valid() && NonEmpty(buffers.runs) && buffers.runs != []
    ensures var rest := SparseWriteBuffers(buffers.runs[1..], SaturatingSub(buffers.bytes, |buffers.runs[0].data|));
            rest.Valid() && NonEmpty(rest.runs) && rest.bytes <= buffers.bytes
  {
    TotalBytesFront(buffers.runs);
  }

  /** Putting it back gives the same buffers. */
  lemma {:induction false} PutBackFirst(buffers: SparseWriteBuffers)
    requires buffers.Valid() && buffers.runs != []
    ensures var n := |buffers.runs[0].data|;
            SparseWriteBuffers([buffers.runs[0]] + buffers.runs[1..],
                               SaturatingAdd(SaturatingSub(buffers.bytes, n), n)) == buffers
  {
    TotalBytesFront(buffers.runs);
    BytesInMachineRange(buffers);
    assert [buffers.runs[0]] + buffers.runs[1..] == buffers.runs;
  }

  lemma {:induction false} BytesInMachineRange(buffers: SparseWriteBuffers)
    requires buffers.Valid()
    ensures buffers.bytes <= USIZE_MAX
  {
    TotalBytesBound(buffers.runs);
    if buffers.runs != [] {
      SparseEndSeparated(buffers.runs);
    }
  }

  /** The read of the device under a set of pending runs, into `buff`. */
  method OverlayRead(file: seq<byte>, runs: seq<Run>, offset: nat, buff: seq<byte>)
    returns (count: nat, buff': seq<byte>)
    requires Separated(runs)
    ensures |buff'| == |buff| && count <= |buff|
    ensures buff'[..count] == PRead(Overlay(file, runs), offset, |buff|)
    ensures buff'[count..] == buff[count..]
  {
    var sparseEnd := SparseEnd(runs);
    var onDisk := PRead(file, offset, |buff|);
    buff' := Splice(buff, 0, onDisk);
    var rwCount := |onDisk|;
    var sparseVisible := Min(SaturatingSub(sparseEnd, offset), |buff|);
    count := Max(rwCount, sparseVisible);
    if rwCount < count {
      buff' := Splice(buff', rwCount, seq(count - rwCount, _ => 0));
    }
    buff' := CopyPending(runs, offset, buff', count, file);
    OverlayReadBytes(file, runs, offset, |buff|, buff', count);
  }

  /** The visible length and bytes of an overlay read are those of the plain file. */
  lemma {:induction false} OverlayReadBytes(file: seq<byte>, runs: seq<Run>, offset: nat, len: nat,
                                            buff: seq<byte>, count: nat)
    requires |buff| == len
    requires count == Max(|PRead(file, offset, len)|, Min(SaturatingSub(SparseEnd(runs), offset), len))
    requires forall i :: 0 <= i < count ==> buff[i] == Through(file, runs, offset + i)
    ensures buff[..count] == PRead(Overlay(file, runs), offset, len)
  {
    var expected := PRead(Overlay(file, runs), offset, len);
    assert |expected| == count;
    forall i | 0 <= i < count ensures buff[i] == expected[i] {
      assert expected[i] == Overlay(file, runs)[offset + i];
    }
  }

  /** Copy every pending intersection of the request over the bytes read so far. */
  method CopyPending(runs: seq<Run>, offset: nat, buff: seq<byte>, ghost count: nat, ghost file: seq<byte>)
    returns (buff': seq<byte>)
    requires count <= |buff| && (offset + count < SparseEnd(runs) ==> count == |buff|)
    requires forall i :: 0 <= i < count ==> buff[i] == At(file, offset + i)
    ensures |buff'| == |buff|
    ensures forall i :: 0 <= i < count ==> buff'[i] == Through(file, runs, offset + i)
    ensures forall i :: count <= i < |buff| ==> buff'[i] == buff[i]
  {
    buff' := buff;
    var k := 0;
    while k < |runs|
      invariant 0 <= k <= |runs| && |buff'| == |buff|
      invariant forall i :: 0 <= i < count ==> buff'[i] == Through(file, runs[..k], offset + i)
      invariant forall i :: count <= i < |buff| ==> buff'[i] == buff[i]
    {
      assert runs[..k + 1][..k] == runs[..k] && runs[..k + 1][k] == runs[k];
      SparseEndBounds(runs, k);
      buff' := CopyRun(runs[k], offset, buff');
      k := k + 1;
    }
    assert runs[..k] == runs;
  }

  /** Copy the part of one run that lies inside the request. */
  method CopyRun(run: Run, offset: nat, buff: seq<byte>) returns (buff': seq<byte>)
    ensures |buff'| == |buff|
    ensures forall i :: 0 <= i < |buff| ==>
              buff'[i] == if run.Covers(offset + i) then run.data[offset + i - run.offset] else buff[i]
  {
    buff' := buff;
    var copyStart := Max(run.offset, offset);
    var copyEnd := Min(run.End(), offset + |buff|);
    if copyStart < copyEnd {
      buff' := Splice(buff, copyStart - offset, run.data[copyStart - run.offset..copyEnd - run.offset]);
    }
  }

  /** One operation of a run. */
  datatype Op =
    | WriteOp(key: Key, offset: nat, data: seq<byte>, faults: Faults)
    | ReadOp(key: Key, offset: nat, len: nat, faults: Faults)
    | FlushOp(key: Key, faults: Faults)

  /** A read that succeeded returned these bytes of `file`. */
  ghost predicate Returned(op: Op, r: Result<nat>, bytes: seq<byte>, file: seq<byte>)
    requires op.ReadOp?
  {
    r.Ok? ==> bytes == PRead(file, op.offset, op.len) && r.value == |bytes|
  }

  /** A plain file that receives the stored part of every write to `key`, in order. */
  ghost function PlainFile(file: seq<byte>, ops: seq<Op>, stored: seq<nat>, key: Key): seq<byte>
    requires |ops| == |stored|
  {
    if ops == [] then file
    else
      var n := |ops| - 1;
      var before := PlainFile(file, ops[..n], stored[..n], key);
      if ops[n].WriteOp? && ops[n].key == key
      then PWrite(before, ops[n].offset, ops[n].data[..Min(stored[n], |ops[n].data|)])
      else before
  }

  /** What every file reads as. */
  type Views = imap<Key, seq<byte>>

  ghost predicate Total(views: Views) { forall k :: k in views }

  /** One operation: the written file takes the stored bytes, and a read returns bytes of the file as it was. */
  ghost predicate Stepped(op: Op, r: Result<nat>, bytes: seq<byte>, n: nat, before: Views, after: Views)
    requires Total(before) && Total(after)
  {
    && (forall k :: after[k] == if op.WriteOp? && op.key == k
                                then PWrite(before[k], op.offset, op.data[..Min(n, |op.data|)])
                                else before[k])
    && Answered(op, r, n)
    && (op.ReadOp? ==> Returned(op, r, bytes, before[op.key]))
  }

  /** Every operation was answered as it should be; reads returned the plain file at their point of the run. */
  ghost predicate AllAnswered(start: Views, ops: seq<Op>, results: seq<Result<nat>>, buffers: seq<seq<byte>>,
                              stored: seq<nat>)
    requires |ops| == |results| == |buffers| == |stored| && Total(start)
  {
    forall i :: 0 <= i < |ops| ==>
      && Answered(ops[i], results[i], stored[i])
      && (ops[i].ReadOp? ==>
            Returned(ops[i], results[i], buffers[i],
                     PlainFile(start[ops[i].key], ops[..i], stored[..i], ops[i].key)))
  }

  /** Every file reads as the plain file that received the stored parts in order. */
  ghost predicate AllPlain(start: Views, ops: seq<Op>, stored: seq<nat>, now: Views)
    requires |ops| == |stored| && Total(start) && Total(now)
  {
    forall k :: now[k] == PlainFile(start[k], ops, stored, k)
  }

  lemma PlainSnoc(file: seq<byte>, ops: seq<Op>, stored: seq<nat>, op: Op, n: nat, k: Key)
    requires |ops| == |stored|
    ensures PlainFile(file, ops + [op], stored + [n], k) ==
            var before := PlainFile(file, ops, stored, k);
            if op.WriteOp? && op.key == k
            then PWrite(before, op.offset, op.data[..Min(n, |op.data|)]) else before
  {
    assert (ops + [op])[..|ops|] == ops && (stored + [n])[..|ops|] == stored;
  }

  lemma {:induction false} PlainStep(start: Views, ops: seq<Op>, stored: seq<nat>, before: Views,
                                     op: Op, r: Result<nat>, bytes: seq<byte>, n: nat, after: Views)
    requires |ops| == |stored| && Total(start) && Total(before) && Total(after)
    requires AllPlain(start, ops, stored, before) && Stepped(op, r, bytes, n, before, after)
    ensures AllPlain(start, ops + [op], stored + [n], after)
  {
    forall k ensures after[k] == PlainFile(start[k], ops + [op], stored + [n], k) {
      PlainSnoc(start[k], ops, stored, op, n, k);
    }
  }

  lemma {:induction false} AnswersStep(start: Views, ops: seq<Op>, results: seq<Result<nat>>,
                                       buffers: seq<seq<byte>>, stored: seq<nat>,
                                       op: Op, r: Result<nat>, bytes: seq<byte>, n: nat)
    requires |ops| == |results| == |buffers| == |stored| && Total(start)
    requires AllAnswered(start, ops, results, buffers, stored) && Answered(op, r, n)
    requires op.ReadOp? ==> Returned(op, r, bytes, PlainFile(start[op.key], ops, stored, op.key))
    ensures AllAnswered(start, ops + [op], results + [r], buffers + [bytes], stored + [n])
  {
    var ops', stored' := ops + [op], stored + [n];
    forall j | 0 <= j < |ops'|
      ensures Answered(ops'[j], (results + [r])[j], stored'[j])
      ensures ops'[j].ReadOp? ==>
                Returned(ops'[j], (results + [r])[j], (buffers + [bytes])[j],
                         PlainFile(start[ops'[j].key], ops'[..j], stored'[..j], ops'[j].key))
    {
      if j < |ops| {
        assert ops'[..j] == ops[..j] && stored'[..j] == stored[..j];
      } else {
        assert ops'[..j] == ops && stored'[..j] == stored;
      }
    }
  }

  /** Both of them. */
  ghost predicate Explained(start: Views, ops: seq<Op>, results: seq<Result<nat>>, buffers: seq<seq<byte>>,
                            stored: seq<nat>, now: Views)
  {
    && |ops| == |results| == |buffers| == |stored| && Total(start) && Total(now)
    && AllPlain(start, ops, stored, now) && AllAnswered(start, ops, results, buffers, stored)
  }

  lemma {:induction false} ExplainedOn(start: Views, ops: seq<Op>, i: nat, results: seq<Result<nat>>,
                                       buffers: seq<seq<byte>>, stored: seq<nat>, before: Views,
                                       r: Result<nat>, bytes: seq<byte>, n: nat, after: Views)
    requires i < |ops| && Explained(start, ops[..i], results, buffers, stored, before)
    requires Total(after) && Stepped(ops[i], r, bytes, n, before, after)
    ensures Explained(start, ops[..i + 1], results + [r], buffers + [bytes], stored + [n], after)
  {
    PlainStep(start, ops[..i], stored, before, ops[i], r, bytes, n, after);
    AnswersStep(start, ops[..i], results, buffers, stored, ops[i], r, bytes, n);
    assert ops[..i + 1] == ops[..i] + [ops[i]];
  }

  /** The first write of an inode needs its own bytes and no more. */
  lemma FirstPlan(offset: nat, len: nat, plan: InsertPlan)
    requires PlansInsert([], offset, len, plan)
    ensures plan.newBytes == len
  {
    assert plan.selected == [];
  }

  /** A device on which everything works, with a direct write of `len` bytes in mind. */
  predicate Benign(faults: Faults, len: nat) {
    && faults.openRc == EOK && faults.closeRc == EOK && faults.writes == [] && faults.readRc == EOK
    && faults.direct.rc == EOK && faults.direct.stored >= len
  }

  /** What the answer to an operation says about the `n` bytes it stored. */
  predicate Answered(op: Op, r: Result<nat>, n: nat) {
    op.WriteOp? ==>
      && n <= |op.data| && (r.Ok? ==> r.value == n)
      && (Benign(op.faults, |op.data|) && op.offset + |op.data| <= USIZE_MAX ==> r == Ok(|op.data|))
  }

  class SparseVolume {
    var files: map<Key, seq<byte>>
    const store: SparseWriteBufferStore

    ghost predicate Valid()
      reads this, store
    {
      store.Valid()
    }

    function File(key: Key): seq<byte>
      reads this
    {
      if key in files then files[key] else []
    }

    /** What a reader of the file must see. */
    function View(key: Key): seq<byte>
      reads this, store
    {
      Overlay(File(key), store.Runs(key))
    }

    ghost function AllViews(): (v: Views)
      reads this, store
      ensures Total(v)
    {
      imap k | true :: View(k)
    }

    constructor (files: map<Key, seq<byte>>)
      ensures Valid() && fresh(store)
      ensures forall k :: View(k) == if k in files then files[k] else []
    {
      this.files := files;
      this.store := new SparseWriteBufferStore();
      new;
      forall k ensures View(k) == File(k) {
        NothingPending(File(k));
      }
    }

    /** The write, merged with what is pending, keeps both budgets. */
    ghost predicate Affordable(key: Key, offset: nat, data: seq<byte>)
      reads this, store
    {
      && offset + |data| <= USIZE_MAX && |data| <= MAX_SPARSE_WRITE_BUFFER_SIZE
      && FitsBudgets(store.Runs(key), offset, data, store.totalBytes - store.Held(key))
    }

    /** The budgets have room for the first pending write of `key`. */
    predicate Roomy(key: Key, offset: nat, len: nat)
      reads this, store
    {
      && key !in store.entries && offset + len <= USIZE_MAX
      && len <= MAX_SPARSE_WRITE_BUFFER_SIZE && store.CanReplace(0, len)
    }

    /** A flush of `key` under these faults reports an error. */
    ghost predicate FlushFails(key: Key, faults: Faults)
      reads this, store
    {
      && key in store.entries
      && (|| (!faults.activeDescriptor && (faults.openRc != EOK || faults.closeRc != EOK))
          || !AllComplete(store.entries[key].runs, faults.writes))
    }

    /**
      Commit one inode's pending runs. Whatever fails, no file reads differently,
      the runs not yet stored are still pending and the byte accounting is exact.
     */
    method Flush(key: Key, faults: Faults) returns (r: Result<nat>)
      requires Valid()
      modifies this, store
      ensures Valid()
      ensures forall k :: View(k) == old(View(k))
      ensures r.Err? <==> old(FlushFails(key, faults))
      ensures r.Ok? ==> key !in store.entries && File(key) == old(FlushAll(File(key), store.Runs(key)))
      ensures IsSuffix(store.Runs(key), old(store.Runs(key)))
      ensures store.totalBytes <= old(store.totalBytes)
    {
      r := FlushWithCause(key, faults);
    }

    method FlushWithCause(key: Key, faults: Faults) returns (r: Result<nat>)
      requires Valid()
      modifies this, store
      ensures Valid()
      ensures View(key) == old(View(key))
      ensures forall k :: k != key ==> File(k) == old(File(k)) && store.Runs(k) == old(store.Runs(k))
      ensures r.Err? <==> old(FlushFails(key, faults))
      ensures r.Ok? ==> key !in store.entries && File(key) == old(FlushAll(File(key), store.Runs(key)))
      ensures IsSuffix(store.Runs(key), old(store.Runs(key)))
      ensures store.totalBytes <= old(store.totalBytes)
    {
      var removed := store.Remove(key);
      if removed == None {
        return Ok(0);
      }
      r := CommitRuns(key, removed.value, faults);
    }

    /** The runs are out of the table; store them, or put back what could not be stored. */
    method CommitRuns(key: Key, buffers: SparseWriteBuffers, faults: Faults) returns (r: Result<nat>)
      requires Valid() && Admissible(buffers) && key !in store.entries
      requires store.totalBytes + buffers.bytes <= MAX_TOTAL_SPARSE_WRITE_BUFFER_BYTES
      modifies this, store
      ensures Valid()
      ensures View(key) == Overlay(old(File(key)), buffers.runs)
      ensures forall k :: k != key ==> File(k) == old(File(k)) && store.Runs(k) == old(store.Runs(k))
      ensures r.Err? <==>
              || (!faults.activeDescriptor && (faults.openRc != EOK || faults.closeRc != EOK))
              || !AllComplete(buffers.runs, faults.writes)
      ensures r.Ok? ==> key !in store.entries && File(key) == FlushAll(old(File(key)), buffers.runs)
      ensures IsSuffix(store.Runs(key), buffers.runs)
      ensures store.totalBytes <= old(store.totalBytes) + buffers.bytes
    {
      if !faults.activeDescriptor && faults.openRc != EOK {
        store.Insert(key, buffers);
        return Err(faults.openRc);
      }
      r := StoreTaken(key, buffers, faults);
    }

    /** The device is open; store the runs, or put back what could not be stored. */
    method StoreTaken(key: Key, buffers: SparseWriteBuffers, faults: Faults) returns (r: Result<nat>)
      requires Valid() && Admissible(buffers) && key !in store.entries
      requires store.totalBytes + buffers.bytes <= MAX_TOTAL_SPARSE_WRITE_BUFFER_BYTES
      modifies this, store
      ensures Valid()
      ensures View(key) == Overlay(old(File(key)), buffers.runs)
      ensures forall k :: k != key ==> File(k) == old(File(k)) && store.Runs(k) == old(store.Runs(k))
      ensures r.Err? <==>
              (!faults.activeDescriptor && faults.closeRc != EOK) || !AllComplete(buffers.runs, faults.writes)
      ensures r.Ok? ==> key !in store.entries && File(key) == FlushAll(old(File(key)), buffers.runs)
      ensures IsSuffix(store.Runs(key), buffers.runs)
      ensures store.totalBytes <= old(store.totalBytes) + buffers.bytes
    {
      OverlayIsFlush(File(key), buffers.runs);
      var file, rest, rc := FlushRuns(File(key), buffers, faults.writes);
      Settle(key, file, rest);
      NothingPending(file);
      if rc != EOK {
        return Err(rc);
      }
      if !faults.activeDescriptor && faults.closeRc != EOK {
        return Err(faults.closeRc);
      }
      return Ok(0);
    }

    /** The file as the device left it, with the runs that are still pending put back. */
    method Settle(key: Key, file: seq<byte>, rest: SparseWriteBuffers)
      requires Valid() && key !in store.entries && (rest.runs != [] ==> Admissible(rest))
      requires store.totalBytes + rest.bytes <= MAX_TOTAL_SPARSE_WRITE_BUFFER_BYTES
      modifies this, store
      ensures Valid() && File(key) == file && store.Runs(key) == rest.runs
      ensures key in store.entries <==> rest.runs != []
      ensures forall k :: k != key ==> File(k) == old(File(k)) && store.Runs(k) == old(store.Runs(k))
      ensures store.totalBytes <= old(store.totalBytes) + rest.bytes
    {
      files := files[key := file];
      if rest.runs != [] {
        store.Insert(key, rest);
      }
    }

    /** One attempt to buffer a write; buffering it is seen by readers as the pwrite itself. */
    method TryBuffer(key: Key, offset: nat, data: seq<byte>, planned: bool, applied: bool)
      returns (r: InsertOutcome)
      requires Valid() && data != []
      modifies store
      ensures Valid()
      ensures forall k :: k != key ==> View(k) == old(View(k))
      ensures View(key) == if r == Buffered then PWrite(old(View(key)), offset, data) else old(View(key))
      ensures r.Failed? <==> offset + |data| > USIZE_MAX
      ensures r != Buffered ==> store.entries == old(store.entries)
      ensures r == Direct ==> key !in store.entries
      ensures r.Flush? ==> key in store.entries
      ensures planned && applied && old(Roomy(key, offset, |data|)) ==> r == Buffered
      ensures planned && applied && old(Affordable(key, offset, data)) ==> r == Buffered
    {
      ghost var plan;
      ghost var before := store.Runs(key);
      r, plan := store.TryInsert(key, offset, data, planned, applied);
      if plan.Some? && key !in old(store.entries) { FirstPlan(offset, |data|, plan.value); }
      if r == Buffered {
        ghost var after := store.Runs(key);
        OverridesNonEmpty(before, offset, data, after);
        EndAfterInsert(before, offset, data, after);
        InsertIsPWrite(File(key), before, offset, data, after);
      }
    }

    /**
      Buffer a write, flushing this inode first when it is too large to buffer or
      a budget is full. `Ok(false)` sends the caller to the direct path, and then
      nothing is pending that a later flush could store over the direct write.
     */
    method BufferWrite(key: Key, offset: nat, data: seq<byte>, faults: Faults) returns (r: Result<bool>)
      requires Valid()
      modifies this, store
      ensures Valid()
      ensures forall k :: k != key ==> View(k) == old(View(k))
      ensures View(key) == if r == Ok(true) then PWrite(old(View(key)), offset, data) else old(View(key))
      ensures r == Ok(false) ==> data == [] || key !in store.entries
      ensures offset + |data| > USIZE_MAX && data != [] && |data| <= MAX_SPARSE_WRITE_BUFFER_SIZE ==> r == Err(EINVAL)
      ensures Benign(faults, |data|) && offset + |data| <= USIZE_MAX ==> r.Ok?
      ensures faults.allocations == [] && data != [] && old(Roomy(key, offset, |data|)) ==> r == Ok(true)
      ensures faults.allocations == [] && data != [] && old(Affordable(key, offset, data)) ==>
                r == Ok(true) && files == old(files)
    {
      if data == [] {
        return Ok(false);
      }
      if |data| > MAX_SPARSE_WRITE_BUFFER_SIZE {
        var flushed := Flush(key, faults);
        return if flushed.Err? then Err(flushed.errno) else Ok(false);
      }
      if offset + |data| > USIZE_MAX {
        return Err(EINVAL);
      }
      var first := TryBuffer(key, offset, data, Allocation(faults.allocations, 0), Allocation(faults.allocations, 1));
      if !first.Flush? {
        return Ok(first == Buffered);
      }
      r := FlushAndRetry(key, offset, data, faults);
    }

    method FlushAndRetry(key: Key, offset: nat, data: seq<byte>, faults: Faults) returns (r: Result<bool>)
      requires Valid() && data != [] && offset + |data| <= USIZE_MAX
      modifies this, store
      ensures Valid()
      ensures forall k :: k != key ==> View(k) == old(View(k))
      ensures View(key) == if r == Ok(true) then PWrite(old(View(key)), offset, data) else old(View(key))
      ensures r == Ok(false) ==> key !in store.entries
      ensures Benign(faults, |data|) ==> r.Ok?
    {
      var flushed := Flush(key, faults);
      if flushed.Err? {
        return Err(flushed.errno);
      }
      var second := TryBuffer(key, offset, data, Allocation(faults.allocations, 2), Allocation(faults.allocations, 3));
      return Ok(second == Buffered);
    }

    /**
      The write path of a sparse inode. `stored` is the number of bytes the file
      received: all of them when buffered, the device's count on the direct path,
      and none when the flush in front of the write failed.
     */
    method WriteAt(key: Key, offset: nat, data: seq<byte>, faults: Faults) returns (r: Result<nat>, ghost stored: nat)
      requires Valid()
      modifies this, store
      ensures Valid()
      ensures stored <= |data|
      ensures View(key) == PWrite(old(View(key)), offset, data[..stored])
      ensures forall k :: k != key ==> View(k) == old(View(k))
      ensures r.Ok? ==> r.value == stored
      ensures Benign(faults, |data|) && offset + |data| <= USIZE_MAX ==> r == Ok(|data|)
      ensures faults.allocations == [] && data != [] && old(Affordable(key, offset, data)) ==>
                r == Ok(|data|) && files == old(files)
    {
      var buffered := BufferWrite(key, offset, data, faults);
      if buffered.Err? {
        return Err(buffered.errno), 0;
      }
      if buffered.value {
        assert data[..|data|] == data;
        return Ok(|data|), |data|;
      }
      var count := Min(faults.direct.stored, |data|);
      label BeforeDirect:
      files := files[key := PWrite(File(key), offset, data[..count])];
      if data != [] {
        NothingPending(old@BeforeDirect(File(key)));
        NothingPending(File(key));
      }
      stored := count;
      r := if faults.direct.rc != EOK then Err(faults.direct.rc) else Ok(count);
    }

    /** A read returns what the same read of the plain file returns, pending runs included. */
    method ReadAt(key: Key, offset: nat, buff: seq<byte>, faults: Faults) returns (r: Result<nat>, buff': seq<byte>)
      requires Valid()
      modifies this, store
      ensures Valid()
      ensures forall k :: View(k) == old(View(k))
      ensures r.Ok? ==>
                && |buff'| == |buff| && r.value <= |buff|
                && buff'[..r.value] == PRead(View(key), offset, |buff|) && buff'[r.value..] == buff[r.value..]
      ensures r.Err? <==> buff != []
                          && (faults.readRc != EOK || (key in old(store.entries) && offset + |buff| > USIZE_MAX))
    {
      buff' := buff;
      if buff == [] {
        return Ok(0), buff;
      }
      if key in store.entries {
        if offset + |buff| > USIZE_MAX {
          return Err(EFBIG), buff;
        }
        if faults.readRc != EOK {
          return Err(faults.readRc), buff;
        }
        var count, filled := OverlayRead(File(key), store.Runs(key), offset, buff);
        return Ok(count), filled;
      }
      var flushed := Flush(key, faults);
      if faults.readRc != EOK {
        return Err(faults.readRc), buff;
      }
      var count, filled := OverlayRead(File(key), [], offset, buff);
      return Ok(count), filled;
    }

    /**
      Any run of operations. Afterwards every file reads as the plain file that
      received, in order, the part of each write that was stored; a write that
      reported success was stored as far as it reported, and a write that met no
      fault was stored and reported in full. A read that succeeded returned the bytes
      of the plain file as it was at that point of the run.
     */
    method Replay(ops: seq<Op>)
      returns (results: seq<Result<nat>>, buffers: seq<seq<byte>>, ghost stored: seq<nat>)
      requires Valid()
      modifies this, store
      ensures Valid()
      ensures Explained(old(AllViews()), ops, results, buffers, stored, AllViews())
    {
      ghost var start := AllViews();
      results, buffers, stored := [], [], [];
      var i := 0;
      while i < |ops|
        invariant 0 <= i <= |ops| && Valid()
        invariant Explained(start, ops[..i], results, buffers, stored, AllViews())
      {
        ghost var before := AllViews();
        var r, bytes;
        ghost var n;
        r, bytes, n := Step(ops[i]);
        ExplainedOn(start, ops, i, results, buffers, stored, before, r, bytes, n, AllViews());
        results, buffers, stored := results + [r], buffers + [bytes], stored + [n];
        i := i + 1;
      }
      assert ops[..i] == ops;
    }

    method Step(op: Op) returns (r: Result<nat>, bytes: seq<byte>, ghost n: nat)
      requires Valid()
      modifies this, store
      ensures Valid()
      ensures Stepped(op, r, bytes, n, old(AllViews()), AllViews())
    {
      bytes := [];
      match op
      case WriteOp(key, offset, data, faults) =>
        r, n := WriteAt(key, offset, data, faults);
      case ReadOp(key, offset, len, faults) =>
        var buff;
        r, buff := ReadAt(key, offset, seq(len, _ => 0), faults);
        if r.Ok? {
          bytes := buff[..r.value];
        }
        n := 0;
      case FlushOp(key, faults) =>
        r := Flush(key, faults);
        n := 0;
    }
  }
}
