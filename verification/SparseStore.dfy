/**
  The table of delayed sparse writes for every inode, with the per-inode and the
  global byte budget.
 */
module SparseStore {
  import opened Basics
  import opened ByteFile
  import opened SparseRuns
  import opened SparseBuffers
  import opened MapSums

  /** A mount and an inode number. */
  datatype Key = Key(mount: nat, inode: nat)

  const MAX_SPARSE_WRITE_BUFFER_SIZE: nat := 512 * 1024
  const MAX_TOTAL_SPARSE_WRITE_BUFFER_BYTES: nat := 8 * 1024 * 1024

  const EOK := 0
  const EIO := 5
  const EFBIG := 27

  datatype EvictCause = LargeDirect | PayloadLimit | GlobalBudget | NoMemory

  datatype InsertOutcome = Buffered | Flush(cause: EvictCause) | Direct | Failed(errno: int)

  function SaturatingSub(a: nat, b: nat): nat { if a <= b then 0 else a - b }

  function SaturatingAdd(a: nat, b: nat): nat { Min(a + b, USIZE_MAX) }

  /** What the table may hold for one inode. */
  ghost predicate Admissible(buffers: SparseWriteBuffers) {
    && buffers.Valid() && NonEmpty(buffers.runs) && buffers.runs != []
    && buffers.bytes <= MAX_SPARSE_WRITE_BUFFER_SIZE
  }

  /**
    What becomes of one write. `pending` is whether the inode has runs already, `plan`
    the byte count it would have, if the planner got that far; `room` and `applied` say
    whether the global budget has room and whether the merged run could be allocated.
   */
  function Verdict(pending: bool, plan: Option<nat>, room: bool, applied: bool): InsertOutcome {
    var refusal := if plan == None then Some(NoMemory)
                   else if plan.value > MAX_SPARSE_WRITE_BUFFER_SIZE then Some(PayloadLimit)
                   else if !room then Some(GlobalBudget)
                   else if !applied then Some(NoMemory)
                   else None;
    if refusal == None then Buffered else if pending then Flush(refusal.value) else Direct
  }

  /** `after` is what becomes of the pending runs when a write is merged into them. */
  ghost predicate Inserts(before: seq<Run>, offset: nat, data: seq<byte>, after: seq<Run>) {
    Separated(after) && NonEmpty(after) && Overrides(before, offset, data, after)
  }

  /** With the write merged in, the inode keeps its budget, and all of them together keep theirs. */
  ghost predicate FitsBudgets(before: seq<Run>, offset: nat, data: seq<byte>, others: int) {
    exists after ::
      && Inserts(before, offset, data, after)
      && TotalBytes(after) <= MAX_SPARSE_WRITE_BUFFER_SIZE
      && others + TotalBytes(after) <= MAX_TOTAL_SPARSE_WRITE_BUFFER_BYTES
  }

  /** The merged bytes of a span, read off the runs they belong to. */
  lemma {:induction false} SpanMerges(runs: seq<Run>, offset: nat, data: seq<byte>, lo: nat, hi: nat, after: seq<Run>)
    returns (merged: Run)
    requires Separated(runs) && Connected(runs, offset, offset + |data|, lo, hi) && Overrides(runs, offset, data, after)
    requires MergedStart(runs, offset, lo, hi) <= MergedEnd(runs, offset + |data|, lo, hi)
    ensures MergesRuns(runs, offset, data, lo, hi, merged)
  {
    var start, end := MergedStart(runs, offset, lo, hi), MergedEnd(runs, offset + |data|, lo, hi);
    forall i: nat | start <= i < end ensures ByteAt(after, i).Some? {
      SpanIsCovered(runs, offset, offset + |data|, lo, hi, i);
      if !(offset <= i < offset + |data|) {
        ByteAtCovered(runs, if runs[lo].Covers(i) then lo else hi - 1, i);
      }
    }
    merged := Run(start, seq(end - start, i requires 0 <= i < end - start => ByteAt(after, start + i).value));
  }

  /** The planned byte count is that of the merged runs. */
  lemma {:induction false} PlanCounts(runs: seq<Run>, offset: nat, data: seq<byte>, plan: InsertPlan, after: seq<Run>)
    requires Separated(runs) && NonEmpty(runs) && InRange(runs) && data != [] && offset + |data| <= USIZE_MAX
    requires PlansInsert(runs, offset, |data|, plan) && Inserts(runs, offset, data, after)
    ensures TotalBytes(after) == plan.newBytes
  {
    var lo, hi := plan.insertIndex, plan.insertIndex + |plan.selected|;
    var merged := SpanMerges(runs, offset, data, lo, hi, after);
    InsertCorrect(runs, plan, offset, data, merged);
    RunsAreCanonical(after, Replaced(runs, lo, hi, merged));
  }

  lemma {:induction false} BudgetOfPlan(runs: seq<Run>, offset: nat, data: seq<byte>, plan: InsertPlan, others: int)
    requires Separated(runs) && NonEmpty(runs) && InRange(runs) && data != [] && offset + |data| <= USIZE_MAX
    requires PlansInsert(runs, offset, |data|, plan)
    ensures FitsBudgets(runs, offset, data, others) ==>
              && plan.newBytes <= MAX_SPARSE_WRITE_BUFFER_SIZE
              && others + plan.newBytes <= MAX_TOTAL_SPARSE_WRITE_BUFFER_BYTES
  {
    if FitsBudgets(runs, offset, data, others) {
      var after :| Inserts(runs, offset, data, after) && TotalBytes(after) <= MAX_SPARSE_WRITE_BUFFER_SIZE
                   && others + TotalBytes(after) <= MAX_TOTAL_SPARSE_WRITE_BUFFER_BYTES;
      PlanCounts(runs, offset, data, plan, after);
    }
  }

  function Sizes(entries: map<Key, SparseWriteBuffers>): map<Key, nat> {
    map k | k in entries :: entries[k].bytes
  }

  lemma {:induction false} ReplaceTotal(entries: map<Key, SparseWriteBuffers>, key: Key, buffers: SparseWriteBuffers)
    ensures Sum(Sizes(entries[key := buffers])) + (if key in entries then entries[key].bytes else 0)
            == Sum(Sizes(entries)) + buffers.bytes
    ensures key in entries ==> entries[key].bytes <= Sum(Sizes(entries))
  {
    var sizes := Sizes(entries);
    assert Sizes(entries[key := buffers]) == sizes[key := buffers.bytes];
    SumUpdate(sizes, key, buffers.bytes);
    if key in entries {
      SumRemove(sizes, key);
    } else {
      assert sizes - {key} == sizes;
    }
  }

  lemma {:induction false} RemoveTotal(entries: map<Key, SparseWriteBuffers>, key: Key)
    requires key in entries
    ensures Sum(Sizes(entries - {key})) + entries[key].bytes == Sum(Sizes(entries))
  {
    SumRemove(Sizes(entries), key);
    assert Sizes(entries - {key}) == Sizes(entries) - {key};
  }

  class SparseWriteBufferStore {
    var entries: map<Key, SparseWriteBuffers>
    var totalBytes: nat

    /** Every inode's runs are well formed and within its budget, and the total is exact. */
    ghost predicate Valid()
      reads this
    {
      && (forall k :: k in entries ==> Admissible(entries[k]))
      && totalBytes == Sum(Sizes(entries)) <= MAX_TOTAL_SPARSE_WRITE_BUFFER_BYTES
    }

    /** The pending runs of one inode. */
    function Runs(key: Key): seq<Run>
      reads this
    {
      if key in entries then entries[key].runs else []
    }

    constructor ()
      ensures Valid() && entries == map[]
    {
      entries, totalBytes := map[], 0;
    }

    /** The bytes one inode has pending. */
    function Held(key: Key): nat
      reads this
    {
      if key in entries then entries[key].bytes else 0
    }

    predicate CanReplace(oldBytes: nat, newBytes: nat)
      reads this
    {
      && newBytes <= MAX_TOTAL_SPARSE_WRITE_BUFFER_BYTES
      && SaturatingSub(totalBytes, oldBytes) <= MAX_TOTAL_SPARSE_WRITE_BUFFER_BYTES - newBytes
    }

    /** Add an inode's buffers, or put them back; any earlier entry is replaced. */
    method Insert(key: Key, buffers: SparseWriteBuffers)
      requires Valid() && Admissible(buffers)
      requires CanReplace(if key in entries then entries[key].bytes else 0, buffers.bytes)
      modifies this
      ensures Valid()
      ensures entries == old(entries)[key := buffers]
      ensures totalBytes + (if key in old(entries) then old(entries)[key].bytes else 0)
              == old(totalBytes) + buffers.bytes
    {
      ReplaceTotal(entries, key, buffers);
      if key in entries {
        totalBytes := SaturatingSub(totalBytes, entries[key].bytes);
      }
      totalBytes := SaturatingAdd(totalBytes, buffers.bytes);
      entries := entries[key := buffers];
    }

    method Remove(key: Key) returns (removed: Option<SparseWriteBuffers>)
      requires Valid()
      modifies this
      ensures Valid()
      ensures removed == if key in old(entries) then Some(old(entries)[key]) else None
      ensures entries == old(entries) - {key}
      ensures totalBytes + (if removed.Some? then removed.value.bytes else 0) == old(totalBytes)
    {
      if key !in entries {
        assert entries - {key} == entries;
        return None;
      }
      var buffers := entries[key];
      RemoveTotal(entries, key);
      entries := entries - {key};
      totalBytes := SaturatingSub(totalBytes, buffers.bytes);
      return Some(buffers);
    }

    /**
      Try to buffer one write. Both callers have already turned away an empty
      buffer. `planned` and `applied` say whether the two allocations succeed.
     */
    method TryInsert(key: Key, offset: nat, data: seq<byte>, planned: bool, applied: bool)
      returns (r: InsertOutcome, ghost plan: Option<InsertPlan>)
      requires Valid() && data != []
      modifies this
      ensures Valid()
      ensures forall k :: k != key ==> Runs(k) == old(Runs(k))
      ensures plan.Some? <==> offset + |data| <= USIZE_MAX && planned
      ensures plan.Some? ==> PlansInsert(old(Runs(key)), offset, |data|, plan.value)
      ensures r == if offset + |data| > USIZE_MAX then Failed(EFBIG)
                   else var newBytes := if plan.Some? then Some(plan.value.newBytes) else None;
                        Verdict(key in old(entries), newBytes,
                                plan.Some? && old(CanReplace(Held(key), plan.value.newBytes)), applied)
      ensures r == Buffered ==> planned && applied && Inserts(old(Runs(key)), offset, data, Runs(key))
      ensures (&& offset + |data| <= USIZE_MAX && planned && applied
               && FitsBudgets(old(Runs(key)), offset, data, old(totalBytes) - old(Held(key)))) ==> r == Buffered
      ensures r != Buffered ==> entries == old(entries) && totalBytes == old(totalBytes)
    {
      plan := None;
      var before := if key in entries then entries[key] else SparseWriteBuffers([], 0);
      var planResult, buffers := PlanInsert(before, offset, |data|, planned);
      if planResult == PlanErr(Overflow) {
        return Failed(EFBIG), None;
      }
      if planResult.PlanErr? {
        assert planResult.error == AllocationFailure;
        return if key in entries then Flush(NoMemory) else Direct, None;
      }
      plan := Some(planResult.plan);
      BudgetOfPlan(before.runs, offset, data, planResult.plan, totalBytes - before.bytes);
      var newBytes := planResult.plan.newBytes;
      if newBytes > MAX_SPARSE_WRITE_BUFFER_SIZE {
        return if key in entries then Flush(PayloadLimit) else Direct, plan;
      }
      if !CanReplace(before.bytes, newBytes) {
        return if key in entries then Flush(GlobalBudget) else Direct, plan;
      }
      var ok, after := ApplyInsert(buffers, planResult.plan, offset, data, applied);
      if !ok {
        return if key in entries then Flush(NoMemory) else Direct, plan;
      }
      OverridesNonEmpty(before.runs, offset, data, after.runs);
      Insert(key, after);
      return Buffered, plan;
    }
  }

  /** A run list that holds a written byte is not empty. */
  lemma OverridesNonEmpty(before: seq<Run>, offset: nat, data: seq<byte>, after: seq<Run>)
    requires Overrides(before, offset, data, after) && data != []
    ensures after != []
  {
    assert ByteAt(after, offset) == Some(data[0]);
  }
}
