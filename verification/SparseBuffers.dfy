/**
  The delayed-write buffers of one sparse inode: a planner that finds the runs a
  write connects to, and the in-place insertion that coalesces them.
 */
module SparseBuffers {
  import opened Basics
  import opened ByteFile
  import opened SparseRuns

  datatype PlanError = Overflow | AllocationFailure

  datatype InsertPlan = InsertPlan(selected: seq<nat>, insertIndex: nat, start: nat, len: nat, newBytes: nat)

  datatype PlanResult = PlanOk(plan: InsertPlan) | PlanErr(error: PlanError)

  /** `selected` lists the connected runs `lo`, `lo + 1`, ... in order. */
  ghost predicate Selects(runs: seq<Run>, offset: nat, end: nat, lo: nat, selected: seq<nat>) {
    && Connected(runs, offset, end, lo, lo + |selected|)
    && (forall j :: 0 <= j < |selected| ==> selected[j] == lo + j)
  }

  /** The plan selects exactly the connected runs, the span they need and its byte count. */
  ghost predicate PlansInsert(runs: seq<Run>, offset: nat, len: nat, plan: InsertPlan) {
    var lo, hi := plan.insertIndex, plan.insertIndex + |plan.selected|;
    && Selects(runs, offset, offset + len, lo, plan.selected)
    && plan.start == MergedStart(runs, offset, lo, hi)
    && plan.start + plan.len == MergedEnd(runs, offset + len, lo, hi)
    && plan.newBytes + BytesIn(runs, lo, hi) == TotalBytes(runs) + plan.len
  }

  function InsertByOffset(sorted: seq<Run>, run: Run): seq<Run> {
    if sorted == [] || sorted[|sorted| - 1].offset <= run.offset then sorted + [run]
    else InsertByOffset(sorted[..|sorted| - 1], run) + [sorted[|sorted| - 1]]
  }

  /** Sorting by the offset key. */
  function SortByOffset(runs: seq<Run>): seq<Run> {
    if runs == [] then []
    else InsertByOffset(SortByOffset(runs[..|runs| - 1]), runs[|runs| - 1])
  }

  lemma {:induction false} SortKeepsSorted(runs: seq<Run>)
    requires Separated(runs)
    ensures SortByOffset(runs) == runs
  {
    if runs != [] {
      var n := |runs| - 1;
      SortKeepsSorted(runs[..n]);
      assert n > 0 ==> runs[n - 1].End() < runs[n].offset;
      assert runs[..n] + [runs[n]] == runs;
    }
  }

  /** `span`, laid at `start`, already holds the bytes of the runs `[lo, upto)`. */
  ghost predicate HoldsRuns(runs: seq<Run>, lo: nat, upto: nat, start: nat, span: seq<byte>)
    requires upto <= |runs|
  {
    forall k :: lo <= k < upto ==> HoldsRun(runs[k], start, span)
  }

  ghost predicate HoldsRun(run: Run, start: nat, span: seq<byte>) {
    && start <= run.offset && run.End() <= start + |span|
    && forall j :: 0 <= j < |run.data| ==> span[run.offset - start + j] == run.data[j]
  }

  lemma SpliceHolds(run: Run, start: nat, span: seq<byte>, other: Run)
    requires HoldsRun(run, start, span)
    requires start <= other.offset && other.End() <= start + |span|
    requires run.End() <= other.offset
    ensures HoldsRun(run, start, Splice(span, other.offset - start, other.data))
  {
  }

  /** The bytes of the connected runs, and of the write over them, fill the merged span. */
  lemma {:induction false} MergedBytes(runs: seq<Run>, offset: nat, data: seq<byte>, lo: nat, hi: nat,
                                       start: nat, span: seq<byte>)
    requires Separated(runs) && Connected(runs, offset, offset + |data|, lo, hi)
    requires start == MergedStart(runs, offset, lo, hi)
    requires start + |span| == MergedEnd(runs, offset + |data|, lo, hi)
    requires HoldsRuns(runs, lo, hi, start, span)
    ensures MergesRuns(runs, offset, data, lo, hi, Run(start, Splice(span, offset - start, data)))
  {
    var merged := Run(start, Splice(span, offset - start, data));
    forall i: nat | merged.Covers(i)
      ensures Some(merged.data[i - start]) ==
              if offset <= i < offset + |data| then Some(data[i - offset]) else ByteAt(runs, i)
    {
      if !(offset <= i < offset + |data|) {
        MergedByte(runs, offset, offset + |data|, lo, hi, start, span, i);
      }
    }
  }

  lemma {:induction false} MergedByte(runs: seq<Run>, offset: nat, end: nat, lo: nat, hi: nat,
                                      start: nat, span: seq<byte>, i: nat)
    requires Separated(runs) && Connected(runs, offset, end, lo, hi) && offset <= end
    requires start == MergedStart(runs, offset, lo, hi)
    requires start + |span| == MergedEnd(runs, end, lo, hi)
    requires HoldsRuns(runs, lo, hi, start, span)
    requires start <= i < start + |span| && !(offset <= i < end)
    ensures Some(span[i - start]) == ByteAt(runs, i)
  {
    SpanIsCovered(runs, offset, end, lo, hi, i);
    var k := if runs[lo].Covers(i) then lo else hi - 1;
    ByteAtCovered(runs, k, i);
    assert HoldsRun(runs[k], start, span);
    var j := i - runs[k].offset;
    assert span[runs[k].offset - start + j] == runs[k].data[j];
  }

  /** A selected run lies inside the merged span. */
  lemma SelectedInSpan(runs: seq<Run>, offset: nat, end: nat, lo: nat, hi: nat, k: nat)
    requires Separated(runs) && Connected(runs, offset, end, lo, hi) && lo <= k < hi
    ensures MergedStart(runs, offset, lo, hi) <= runs[k].offset
    ensures runs[k].End() <= MergedEnd(runs, end, lo, hi)
  {
    assert lo < k ==> runs[lo].End() < runs[k].offset;
    assert k < hi - 1 ==> runs[k].End() < runs[hi - 1].offset;
  }

  /** The scan has passed `lo` runs below the write and then selected `[lo, index)`. */
  ghost predicate Scanned(runs: seq<Run>, offset: nat, end: nat, lo: nat, index: nat) {
    && lo <= index <= |runs|
    && (forall k :: 0 <= k < lo ==> runs[k].End() < offset)
    && (forall k :: lo <= k < index ==> offset <= runs[k].End() && runs[k].offset <= end)
  }

  /** A run the scan does not stop at is connected, although the span has grown. */
  lemma ScanSelects(runs: seq<Run>, offset: nat, end: nat, lo: nat, index: nat)
    requires Separated(runs) && offset <= end && Scanned(runs, offset, end, lo, index) && index < |runs|
    requires MergedStart(runs, offset, lo, index) <= runs[index].End()
    requires runs[index].offset <= MergedEnd(runs, end, lo, index)
    ensures Scanned(runs, offset, end, lo, index + 1)
    ensures MergedStart(runs, offset, lo, index + 1) == Min(MergedStart(runs, offset, lo, index), runs[index].offset)
    ensures MergedEnd(runs, end, lo, index + 1) == Max(MergedEnd(runs, end, lo, index), runs[index].End())
  {
    if lo < index {
      assert runs[lo].End() < runs[index].offset;
      assert runs[index - 1].End() < runs[index].offset;
    }
  }

  /** No run is skipped once one has been selected. */
  lemma ScanSkips(runs: seq<Run>, offset: nat, end: nat, lo: nat, index: nat)
    requires Separated(runs) && Scanned(runs, offset, end, lo, index) && index < |runs|
    requires runs[index].End() < MergedStart(runs, offset, lo, index)
    ensures lo == index && Scanned(runs, offset, end, index + 1, index + 1)
  {
  }

  /** No run after the first gap is connected. */
  lemma ScanStops(runs: seq<Run>, offset: nat, end: nat, lo: nat, index: nat)
    requires Separated(runs) && Scanned(runs, offset, end, lo, index)
    requires index < |runs| ==> MergedEnd(runs, end, lo, index) < runs[index].offset
    ensures Connected(runs, offset, end, lo, index)
  {
    forall k | index <= k < |runs| ensures end < runs[k].offset {
      assert index < k ==> runs[index].End() < runs[k].offset;
    }
  }

  /** The linear scan for the connected component of `[offset, end)` in sorted runs. */
  method SelectConnected(runs: seq<Run>, offset: nat, end: nat)
    returns (selected: seq<nat>, selectedBytes: nat, start: nat, rangeEnd: nat, ghost lo: nat)
    requires Separated(runs) && InRange(runs) && offset <= end
    ensures Selects(runs, offset, end, lo, selected)
    ensures start == MergedStart(runs, offset, lo, lo + |selected|)
    ensures rangeEnd == MergedEnd(runs, end, lo, lo + |selected|)
    ensures selectedBytes == BytesIn(runs, lo, lo + |selected|)
  {
    selected, selectedBytes, start, rangeEnd, lo := [], 0, offset, end, 0;
    var index := 0;
    while index < |runs|
      invariant Scanned(runs, offset, end, lo, index)
      invariant |selected| == index - lo
      invariant forall j :: 0 <= j < |selected| ==> selected[j] == lo + j
      invariant start == MergedStart(runs, offset, lo, index)
      invariant rangeEnd == MergedEnd(runs, end, lo, index)
      invariant selectedBytes == BytesIn(runs, lo, index)
    {
      var run := runs[index];
      var runEnd := run.End();
      assert runEnd <= USIZE_MAX;
      if runEnd < start {
        ScanSkips(runs, offset, end, lo, index);
        index := index + 1;
        lo := index;
        continue;
      }
      if run.offset > rangeEnd {
        break;
      }
      ScanSelects(runs, offset, end, lo, index);
      selected := selected + [index];
      selectedBytes := selectedBytes + |run.data|;
      start := Min(start, run.offset);
      rangeEnd := Max(rangeEnd, runEnd);
      index := index + 1;
    }
    ScanStops(runs, offset, end, lo, index);
  }

  /** The first run that starts after `offset`, or the end of the list. */
  method FirstAfter(runs: seq<Run>, offset: nat) returns (index: nat)
    ensures index <= |runs|
    ensures forall k :: 0 <= k < index ==> runs[k].offset <= offset
    ensures index < |runs| ==> offset < runs[index].offset
  {
    index := 0;
    while index < |runs| && runs[index].offset <= offset
      invariant index <= |runs|
      invariant forall k :: 0 <= k < index ==> runs[k].offset <= offset
    {
      index := index + 1;
    }
  }

  lemma SelectedIndices(selected: seq<nat>, lo: nat, index: nat)
    requires forall j :: 0 <= j < |selected| ==> selected[j] == lo + j
    ensures index in selected <==> lo <= index < lo + |selected|
  {
    if lo <= index < lo + |selected| {
      assert selected[index - lo] == index;
    }
  }

  lemma {:induction false} CopyStep(runs: seq<Run>, offset: nat, end: nat, lo: nat, hi: nat, index: nat,
                                    start: nat, span: seq<byte>)
    requires Separated(runs) && Connected(runs, offset, end, lo, hi) && lo <= index < hi
    requires start == MergedStart(runs, offset, lo, hi) && start + |span| == MergedEnd(runs, end, lo, hi)
    requires HoldsRuns(runs, lo, index, start, span)
    ensures start <= runs[index].offset && runs[index].End() <= start + |span|
    ensures HoldsRuns(runs, lo, index + 1, start, Splice(span, runs[index].offset - start, runs[index].data))
  {
    SelectedInSpan(runs, offset, end, lo, hi, index);
    var span' := Splice(span, runs[index].offset - start, runs[index].data);
    forall k | lo <= k < index + 1 ensures HoldsRun(runs[k], start, span') {
      if k < index {
        assert HoldsRun(runs[k], start, span);
        SpliceHolds(runs[k], start, span, runs[index]);
      }
    }
  }

  /** With nothing selected, the first run after the write is where the scan stopped. */
  lemma InsertionPoint(runs: seq<Run>, offset: nat, end: nat, lo: nat, index: nat)
    requires Connected(runs, offset, end, lo, lo) && offset <= end
    requires index <= |runs|
    requires forall k :: 0 <= k < index ==> runs[k].offset <= offset
    requires index < |runs| ==> offset < runs[index].offset
    ensures index == lo
  {
    if lo < |runs| {
      assert end < runs[lo].offset;
    }
  }

  method InsertIndex(runs: seq<Run>, offset: nat, end: nat, selected: seq<nat>, ghost lo: nat) returns (index: nat)
    requires offset <= end && Selects(runs, offset, end, lo, selected)
    ensures index == lo
  {
    if selected == [] {
      index := FirstAfter(runs, offset);
      InsertionPoint(runs, offset, end, lo, index);
    } else {
      index := selected[0];
    }
  }

  method PlanConnected(runs: seq<Run>, bytes: nat, offset: nat, end: nat) returns (plan: InsertPlan)
    requires Separated(runs) && InRange(runs) && bytes == TotalBytes(runs) && offset <= end
    ensures PlansInsert(runs, offset, end - offset, plan)
  {
    var selected, selectedBytes, start, rangeEnd, lo := SelectConnected(runs, offset, end);
    BytesInBound(runs, lo, lo + |selected|);
    var spanLen := rangeEnd - start;
    var newBytes := bytes - selectedBytes + spanLen;
    var insertIndex := InsertIndex(runs, offset, end, selected, lo);
    plan := InsertPlan(selected, insertIndex, start, spanLen, newBytes);
  }

  /** A zeroed span with the selected runs copied over it in list order. */
  method CopySelected(runs: seq<Run>, selected: seq<nat>, start: nat, len: nat,
                      ghost offset: nat, ghost end: nat, ghost lo: nat)
    returns (span: seq<byte>)
    requires Separated(runs) && Selects(runs, offset, end, lo, selected)
    requires start == MergedStart(runs, offset, lo, lo + |selected|)
    requires start + len == MergedEnd(runs, end, lo, lo + |selected|)
    ensures |span| == len && HoldsRuns(runs, lo, lo + |selected|, start, span)
  {
    ghost var hi := lo + |selected|;
    span := seq(len, _ => 0);
    var index := 0;
    while index < |runs|
      invariant 0 <= index <= |runs|
      invariant |span| == len
      invariant HoldsRuns(runs, lo, if index <= lo then lo else Min(index, hi), start, span)
    {
      SelectedIndices(selected, lo, index);
      if index in selected {
        CopyStep(runs, offset, end, lo, hi, index, start, span);
        span := Splice(span, runs[index].offset - start, runs[index].data);
      }
      index := index + 1;
    }
  }

  /** The contents of the merged run: the selected runs first, the new write last. */
  method CopyRuns(runs: seq<Run>, plan: InsertPlan, offset: nat, data: seq<byte>) returns (merged: seq<byte>)
    requires Separated(runs) && PlansInsert(runs, offset, |data|, plan)
    ensures MergesRuns(runs, offset, data, plan.insertIndex, plan.insertIndex + |plan.selected|,
                       Run(plan.start, merged))
  {
    ghost var lo, hi := plan.insertIndex, plan.insertIndex + |plan.selected|;
    merged := CopySelected(runs, plan.selected, plan.start, plan.len, offset, offset + |data|, lo);
    MergedBytes(runs, offset, data, lo, hi, plan.start, merged);
    merged := Splice(merged, offset - plan.start, data);
  }

  /** Remove the selected runs, highest index first. */
  method RemoveSelected(runs: seq<Run>, selected: seq<nat>, ghost lo: nat) returns (rest: seq<Run>)
    requires lo + |selected| <= |runs|
    requires forall j :: 0 <= j < |selected| ==> selected[j] == lo + j
    ensures rest == runs[..lo] + runs[lo + |selected|..]
  {
    ghost var hi := lo + |selected|;
    rest := runs;
    var i := |selected|;
    while i > 0
      invariant 0 <= i <= |selected|
      invariant rest == runs[..lo + i] + runs[hi..]
    {
      i := i - 1;
      var index := selected[i];
      rest := rest[..index] + rest[index + 1..];
    }
  }

  /** Replacing the selected runs by the merged run is the insertion of the write. */
  lemma {:induction false} InsertCorrect(runs: seq<Run>, plan: InsertPlan, offset: nat, data: seq<byte>, merged: Run)
    requires Separated(runs) && InRange(runs) && offset + |data| <= USIZE_MAX
    requires PlansInsert(runs, offset, |data|, plan)
    requires MergesRuns(runs, offset, data, plan.insertIndex, plan.insertIndex + |plan.selected|, merged)
    ensures var after := Replaced(runs, plan.insertIndex, plan.insertIndex + |plan.selected|, merged);
            && Separated(after) && InRange(after) && TotalBytes(after) == plan.newBytes
            && Overrides(runs, offset, data, after)
            && (data != [] && NonEmpty(runs) ==> NonEmpty(after))
  {
    var lo, hi := plan.insertIndex, plan.insertIndex + |plan.selected|;
    ReplacedOverrides(runs, offset, data, lo, hi, merged);
    ReplacedSeparated(runs, offset, data, lo, hi, merged);
    ReplacedTotal(runs, lo, hi, merged);
  }

  /** The run list after the insertion a plan describes. */
  method Coalesce(runs: seq<Run>, plan: InsertPlan, offset: nat, data: seq<byte>) returns (after: seq<Run>)
    requires Separated(runs) && InRange(runs) && offset + |data| <= USIZE_MAX
    requires PlansInsert(runs, offset, |data|, plan)
    ensures Separated(after) && InRange(after) && TotalBytes(after) == plan.newBytes
    ensures Overrides(runs, offset, data, after)
    ensures data != [] && NonEmpty(runs) ==> NonEmpty(after)
  {
    var merged := CopyRuns(runs, plan, offset, data);
    var mergedRun := Run(plan.start, merged);
    InsertCorrect(runs, plan, offset, data, mergedRun);
    var rest := RemoveSelected(runs, plan.selected, plan.insertIndex);
    after := InsertAt(rest, plan.insertIndex, mergedRun);
    assert after == Replaced(runs, plan.insertIndex, plan.insertIndex + |plan.selected|, mergedRun);
  }

  function InsertAt(runs: seq<Run>, index: nat, run: Run): seq<Run>
    requires index <= |runs|
  {
    runs[..index] + [run] + runs[index..]
  }

  /**
    One inode's dirty ranges and their byte count. The table owns these values, so
    the operations below take the current value and return the updated one.
   */
  datatype SparseWriteBuffers = SparseWriteBuffers(runs: seq<Run>, bytes: nat) {
    ghost predicate Valid() {
      Separated(runs) && InRange(runs) && bytes == TotalBytes(runs)
    }
  }

  /** The planner sorts first; insertion already keeps the runs sorted. */
  method SortRuns(buffers: SparseWriteBuffers) returns (sorted: SparseWriteBuffers)
    requires Separated(buffers.runs)
    ensures sorted == buffers
  {
    SortKeepsSorted(buffers.runs);
    sorted := buffers.(runs := SortByOffset(buffers.runs));
  }

  /** `reserved` is whether the allocator could hold the index list. */
  method PlanInsert(buffers: SparseWriteBuffers, offset: nat, len: nat, reserved: bool)
    returns (r: PlanResult, sorted: SparseWriteBuffers)
    requires buffers.Valid()
    ensures sorted == buffers
    ensures r == PlanErr(Overflow) <==> offset + len > USIZE_MAX
    ensures r == PlanErr(AllocationFailure) <==> offset + len <= USIZE_MAX && !reserved
    ensures r.PlanOk? ==> PlansInsert(buffers.runs, offset, len, r.plan)
  {
    var end := offset + len;
    if end > USIZE_MAX {
      return PlanErr(Overflow), buffers;
    }
    sorted := SortRuns(buffers);
    if !reserved {
      return PlanErr(AllocationFailure), sorted;
    }
    var plan := PlanConnected(sorted.runs, sorted.bytes, offset, end);
    return PlanOk(plan), sorted;
  }

  /** `reserved` is whether the allocator could hold the merged run. */
  method ApplyInsert(buffers: SparseWriteBuffers, plan: InsertPlan, offset: nat, data: seq<byte>, reserved: bool)
    returns (ok: bool, after: SparseWriteBuffers)
    requires buffers.Valid() && offset + |data| <= USIZE_MAX
    requires PlansInsert(buffers.runs, offset, |data|, plan)
    ensures ok == reserved
    ensures after.Valid()
    ensures !ok ==> after == buffers
    ensures ok ==> Overrides(buffers.runs, offset, data, after.runs) && after.bytes == plan.newBytes
    ensures ok && data != [] && NonEmpty(buffers.runs) ==> NonEmpty(after.runs)
  {
    if !reserved {
      return false, buffers;
    }
    var runs := Coalesce(buffers.runs, plan, offset, data);
    return true, SparseWriteBuffers(runs, plan.newBytes);
  }
}
