/**
  What a set of delayed sparse writes means: the byte map it denotes, the file a
  reader should see when it lies over the bytes on disk, and how coalescing one
  more write, flushing a run and failing half-way through a run act on that file.
 */
module SparseRuns {
  import opened Basics
  import opened ByteFile

  /** One dirty range: `data` is to be stored at `offset`. */
  datatype Run = Run(offset: nat, data: seq<byte>) {
    function End(): nat { offset + |data| }

    predicate Covers(i: nat) { offset <= i < End() }
  }

  /** Sorted by offset, with at least one untouched byte between two runs. */
  predicate Separated(runs: seq<Run>) {
    forall j, k :: 0 <= j < k < |runs| ==> runs[j].End() < runs[k].offset
  }

  predicate NonEmpty(runs: seq<Run>) {
    forall k :: 0 <= k < |runs| ==> runs[k].data != []
  }

  /** Every run ends inside the address range of a 64-bit offset. */
  predicate InRange(runs: seq<Run>) {
    forall k :: 0 <= k < |runs| ==> runs[k].End() <= USIZE_MAX
  }

  /** The pending byte at `i`: the last run in list order that covers it. */
  function ByteAt(runs: seq<Run>, i: nat): Option<byte> {
    if runs == [] then None
    else
      var last := runs[|runs| - 1];
      if last.Covers(i) then Some(last.data[i - last.offset])
      else ByteAt(runs[..|runs| - 1], i)
  }

  /** The largest end of any run, 0 if there is none. */
  function SparseEnd(runs: seq<Run>): nat {
    if runs == [] then 0
    else Max(SparseEnd(runs[..|runs| - 1]), runs[|runs| - 1].End())
  }

  function TotalBytes(runs: seq<Run>): nat {
    if runs == [] then 0
    else TotalBytes(runs[..|runs| - 1]) + |runs[|runs| - 1].data|
  }

  /** The byte at `i` of the disk file seen through the pending runs. */
  function Through(disk: seq<byte>, runs: seq<Run>, i: nat): byte {
    match ByteAt(runs, i)
    case Some(b) => b
    case None => At(disk, i)
  }

  /** The file a reader must see: pending bytes over the bytes on disk. */
  function Overlay(disk: seq<byte>, runs: seq<Run>): seq<byte> {
    seq(Max(|disk|, SparseEnd(runs)), i requires 0 <= i => Through(disk, runs, i))
  }

  /** The reference semantics of a flush: every run written at its own offset. */
  function FlushAll(disk: seq<byte>, runs: seq<Run>): seq<byte>
    decreases |runs|
  {
    if runs == [] then disk
    else FlushAll(PWrite(disk, runs[0].offset, runs[0].data), runs[1..])
  }

  // ------------------------------------------------------------ byte lookup

  lemma {:induction false} ByteAtCovered(runs: seq<Run>, k: nat, i: nat)
    requires Separated(runs)
    requires k < |runs| && runs[k].Covers(i)
    ensures ByteAt(runs, i) == Some(runs[k].data[i - runs[k].offset])
  {
    var n := |runs| - 1;
    if k < n {
      assert runs[k].End() < runs[n].offset;
      ByteAtCovered(runs[..n], k, i);
    }
  }

  lemma {:induction false} ByteAtUncovered(runs: seq<Run>, i: nat)
    requires forall k :: 0 <= k < |runs| ==> !runs[k].Covers(i)
    ensures ByteAt(runs, i) == None
  {
    if runs != [] {
      ByteAtUncovered(runs[..|runs| - 1], i);
    }
  }

  lemma {:induction false} CoveringRun(runs: seq<Run>, i: nat) returns (k: nat)
    requires ByteAt(runs, i).Some?
    ensures k < |runs| && runs[k].Covers(i)
  {
    k := |runs| - 1;
    if !runs[k].Covers(i) {
      k := CoveringRun(runs[..k], i);
    }
  }

  lemma {:induction false} SparseEndBounds(runs: seq<Run>, k: nat)
    requires k < |runs|
    ensures runs[k].End() <= SparseEnd(runs)
  {
    if k < |runs| - 1 {
      SparseEndBounds(runs[..|runs| - 1], k);
    }
  }

  lemma {:induction false} SparseEndReached(runs: seq<Run>)
    requires runs != []
    ensures exists k :: 0 <= k < |runs| && SparseEnd(runs) == runs[k].End()
  {
    var n := |runs| - 1;
    if SparseEnd(runs) == runs[n].End() {
    } else {
      SparseEndReached(runs[..n]);
      var k :| 0 <= k < n && SparseEnd(runs[..n]) == runs[..n][k].End();
      assert SparseEnd(runs) == runs[k].End();
    }
  }

  lemma {:induction false} SparseEndSeparated(runs: seq<Run>)
    requires Separated(runs) && runs != []
    ensures SparseEnd(runs) == runs[|runs| - 1].End()
  {
    SparseEndReached(runs);
    SparseEndBounds(runs, |runs| - 1);
  }

  // ------------------------------------------------------------ totals

  lemma {:induction false} TotalBytesConcat(a: seq<Run>, b: seq<Run>)
    ensures TotalBytes(a + b) == TotalBytes(a) + TotalBytes(b)
  {
    if b == [] {
      assert a + b == a;
    } else {
      var n := |b| - 1;
      assert (a + b)[..|a + b| - 1] == a + b[..n];
      TotalBytesConcat(a, b[..n]);
    }
  }

  /** The bytes held by the runs `[lo, hi)`. */
  function BytesIn(runs: seq<Run>, lo: nat, hi: nat): nat
    requires hi <= |runs|
  {
    if lo >= hi then 0 else BytesIn(runs, lo, hi - 1) + |runs[hi - 1].data|
  }

  lemma {:induction false} BytesInSlice(runs: seq<Run>, lo: nat, hi: nat)
    requires lo <= hi <= |runs|
    ensures BytesIn(runs, lo, hi) == TotalBytes(runs[lo..hi])
  {
    if lo < hi {
      BytesInSlice(runs, lo, hi - 1);
      assert runs[lo..hi][..hi - 1 - lo] == runs[lo..hi - 1];
    }
  }

  lemma {:induction false} BytesInBound(runs: seq<Run>, lo: nat, hi: nat)
    requires lo <= hi <= |runs|
    ensures BytesIn(runs, lo, hi) <= TotalBytes(runs)
  {
    BytesInSlice(runs, lo, hi);
    assert runs == runs[..lo] + runs[lo..hi] + runs[hi..];
    TotalBytesConcat(runs[..lo] + runs[lo..hi], runs[hi..]);
    TotalBytesConcat(runs[..lo], runs[lo..hi]);
  }

  /** Disjoint runs cannot hold more bytes than the offsets below their end. */
  lemma {:induction false} TotalBytesBound(runs: seq<Run>)
    requires Separated(runs)
    ensures TotalBytes(runs) <= SparseEnd(runs)
  {
    if runs != [] {
      var n := |runs| - 1;
      TotalBytesBound(runs[..n]);
      if n > 0 {
        SparseEndSeparated(runs[..n]);
        assert runs[n - 1].End() < runs[n].offset;
      }
      SparseEndSeparated(runs);
    }
  }

  // ------------------------------------------------------------ insertion

  /** `runs` with the run set `[lo, hi)` replaced by one run. */
  function Replaced(runs: seq<Run>, lo: nat, hi: nat, merged: Run): seq<Run>
    requires lo <= hi <= |runs|
  {
    runs[..lo] + [merged] + runs[hi..]
  }

  /** `[lo, hi)` is exactly the set of runs that overlap or adjoin `[offset, end]`. */
  predicate Connected(runs: seq<Run>, offset: nat, end: nat, lo: nat, hi: nat) {
    && lo <= hi <= |runs|
    && (forall k :: 0 <= k < lo ==> runs[k].End() < offset)
    && (forall k :: lo <= k < hi ==> offset <= runs[k].End() && runs[k].offset <= end)
    && (forall k :: hi <= k < |runs| ==> end < runs[k].offset)
  }

  function MergedStart(runs: seq<Run>, offset: nat, lo: nat, hi: nat): nat
    requires lo <= hi <= |runs|
  {
    if lo < hi then Min(offset, runs[lo].offset) else offset
  }

  function MergedEnd(runs: seq<Run>, end: nat, lo: nat, hi: nat): nat
    requires lo <= hi <= |runs|
  {
    if lo < hi then Max(end, runs[hi - 1].End()) else end
  }

  /** The merged run holds the new bytes where it was written and old bytes elsewhere. */
  ghost predicate MergesRuns(runs: seq<Run>, offset: nat, data: seq<byte>, lo: nat, hi: nat, merged: Run)
    requires lo <= hi <= |runs|
  {
    && merged.offset == MergedStart(runs, offset, lo, hi)
    && merged.End() == MergedEnd(runs, offset + |data|, lo, hi)
    && forall i: nat :: merged.Covers(i) ==>
                          Some(merged.data[i - merged.offset]) ==
                          if offset <= i < offset + |data| then Some(data[i - offset]) else ByteAt(runs, i)
  }

  /** The byte map `old` overridden by one write; no other byte appears or changes. */
  ghost predicate Overrides(before: seq<Run>, offset: nat, data: seq<byte>, after: seq<Run>) {
    forall i: nat :: ByteAt(after, i) ==
                     if offset <= i < offset + |data| then Some(data[i - offset]) else ByteAt(before, i)
  }

  /** A byte of the merged span comes from the write or from one of the connected runs. */
  lemma {:induction false} SpanIsCovered(runs: seq<Run>, offset: nat, end: nat, lo: nat, hi: nat, i: nat)
    requires Separated(runs) && offset <= end && Connected(runs, offset, end, lo, hi)
    requires MergedStart(runs, offset, lo, hi) <= i < MergedEnd(runs, end, lo, hi)
    ensures offset <= i < end || (lo < hi && (runs[lo].Covers(i) || runs[hi - 1].Covers(i)))
  {
  }

  lemma {:induction false} ReplacedSeparated(runs: seq<Run>, offset: nat, data: seq<byte>, lo: nat, hi: nat,
                                             merged: Run)
    requires Separated(runs) && Connected(runs, offset, offset + |data|, lo, hi)
    requires MergesRuns(runs, offset, data, lo, hi, merged)
    ensures Separated(Replaced(runs, lo, hi, merged))
    ensures NonEmpty(runs) && data != [] ==> NonEmpty(Replaced(runs, lo, hi, merged))
    ensures InRange(runs) && offset + |data| <= USIZE_MAX ==> InRange(Replaced(runs, lo, hi, merged))
  {
    var after := Replaced(runs, lo, hi, merged);
    forall j, k | 0 <= j < k < |after| ensures after[j].End() < after[k].offset {
      ReplacedIndex(runs, lo, hi, merged, j);
      ReplacedIndex(runs, lo, hi, merged, k);
      MergedBetween(runs, offset, offset + |data|, lo, hi, merged);
    }
    forall k | 0 <= k < |after|
      ensures NonEmpty(runs) && data != [] ==> after[k].data != []
      ensures InRange(runs) && offset + |data| <= USIZE_MAX ==> after[k].End() <= USIZE_MAX
    {
      ReplacedIndex(runs, lo, hi, merged, k);
    }
  }

  lemma {:induction false} ReplacedIndex(runs: seq<Run>, lo: nat, hi: nat, merged: Run, k: nat)
    requires lo <= hi <= |runs| && k < |Replaced(runs, lo, hi, merged)|
    ensures Replaced(runs, lo, hi, merged)[k] ==
            if k < lo then runs[k] else if k == lo then merged else runs[hi + (k - lo - 1)]
  {
  }

  /** The merged run fits strictly between its unmerged neighbours. */
  lemma {:induction false} MergedBetween(runs: seq<Run>, offset: nat, end: nat, lo: nat, hi: nat, merged: Run)
    requires Separated(runs) && Connected(runs, offset, end, lo, hi) && offset <= end
    requires merged.offset == MergedStart(runs, offset, lo, hi)
    requires merged.End() == MergedEnd(runs, end, lo, hi)
    ensures forall k :: 0 <= k < lo ==> runs[k].End() < merged.offset
    ensures forall k :: hi <= k < |runs| ==> merged.End() < runs[k].offset
  {
  }

  lemma {:induction false} ReplacedOverrides(runs: seq<Run>, offset: nat, data: seq<byte>, lo: nat, hi: nat,
                                             merged: Run)
    requires Separated(runs) && Connected(runs, offset, offset + |data|, lo, hi)
    requires MergesRuns(runs, offset, data, lo, hi, merged)
    ensures Overrides(runs, offset, data, Replaced(runs, lo, hi, merged))
  {
    var after := Replaced(runs, lo, hi, merged);
    ReplacedSeparated(runs, offset, data, lo, hi, merged);
    forall i: nat
      ensures ByteAt(after, i) ==
              if offset <= i < offset + |data| then Some(data[i - offset]) else ByteAt(runs, i)
    {
      if merged.Covers(i) {
        assert after[lo] == merged;
        ByteAtCovered(after, lo, i);
      } else {
        OutsideMerged(runs, offset, data, lo, hi, merged, i);
      }
    }
  }

  /** Away from the merged span the byte map is the old one. */
  lemma {:induction false} OutsideMerged(runs: seq<Run>, offset: nat, data: seq<byte>, lo: nat, hi: nat,
                                         merged: Run, i: nat)
    requires Separated(runs) && Connected(runs, offset, offset + |data|, lo, hi)
    requires MergesRuns(runs, offset, data, lo, hi, merged)
    requires Separated(Replaced(runs, lo, hi, merged))
    requires !merged.Covers(i)
    ensures ByteAt(Replaced(runs, lo, hi, merged), i) == ByteAt(runs, i)
  {
    var after := Replaced(runs, lo, hi, merged);
    if k :| 0 <= k < |runs| && runs[k].Covers(i) {
      ByteAtCovered(runs, k, i);
      SurvivesMerge(runs, offset, data, lo, hi, merged, k, i);
      var k' := if k < lo then k else k - hi + lo + 1;
      ReplacedIndex(runs, lo, hi, merged, k');
      ByteAtCovered(after, k', i);
    } else {
      ByteAtUncovered(runs, i);
      forall k | 0 <= k < |after| ensures !after[k].Covers(i) {
        ReplacedIndex(runs, lo, hi, merged, k);
      }
      ByteAtUncovered(after, i);
    }
  }

  /** A run that covers a byte outside the merged span was not one of the merged runs. */
  lemma {:induction false} SurvivesMerge(runs: seq<Run>, offset: nat, data: seq<byte>, lo: nat, hi: nat,
                                         merged: Run, k: nat, i: nat)
    requires Separated(runs) && Connected(runs, offset, offset + |data|, lo, hi)
    requires merged.offset == MergedStart(runs, offset, lo, hi)
    requires merged.End() == MergedEnd(runs, offset + |data|, lo, hi)
    requires k < |runs| && runs[k].Covers(i) && !merged.Covers(i)
    ensures k < lo || hi <= k
  {
  }

  lemma {:induction false} ReplacedTotal(runs: seq<Run>, lo: nat, hi: nat, merged: Run)
    requires lo <= hi <= |runs|
    ensures TotalBytes(Replaced(runs, lo, hi, merged)) + BytesIn(runs, lo, hi)
            == TotalBytes(runs) + |merged.data|
  {
    BytesInSlice(runs, lo, hi);
    TotalBytesConcat(runs[..lo] + [merged], runs[hi..]);
    TotalBytesConcat(runs[..lo], [merged]);
    assert runs == runs[..lo] + runs[lo..hi] + runs[hi..];
    TotalBytesConcat(runs[..lo] + runs[lo..hi], runs[hi..]);
    TotalBytesConcat(runs[..lo], runs[lo..hi]);
    assert TotalBytes([merged]) == |merged.data| by { assert [merged][..0] == []; }
  }

  // ------------------------------------------------------------ canonical form

  /**
    A separated run list is determined by the bytes it denotes, so stating the
    byte map after an insertion states the run list itself.
   */
  lemma {:induction false} RunsAreCanonical(a: seq<Run>, b: seq<Run>)
    requires Separated(a) && NonEmpty(a) && Separated(b) && NonEmpty(b)
    requires forall i: nat :: ByteAt(a, i) == ByteAt(b, i)
    ensures a == b
    decreases |a|
  {
    if a == [] || b == [] {
      if a == [] { NoBytesNoRuns(b); } else { NoBytesNoRuns(a); }
    } else {
      var n, m := |a| - 1, |b| - 1;
      LastRunReaches(a, b);
      LastRunReaches(b, a);
      LastRunEqual(a, b);
      forall i: nat ensures ByteAt(a[..n], i) == ByteAt(b[..m], i) {
        PrefixBytes(a, i);
        PrefixBytes(b, i);
      }
      RunsAreCanonical(a[..n], b[..m]);
      assert a == a[..n] + [a[n]] && b == b[..m] + [b[m]];
    }
  }

  lemma {:induction false} NoBytesNoRuns(b: seq<Run>)
    requires Separated(b) && NonEmpty(b)
    requires forall i: nat :: ByteAt(b, i) == None
    ensures b == []
  {
    if b != [] {
      ByteAtCovered(b, 0, b[0].offset);
    }
  }

  lemma {:induction false} LastRunReaches(a: seq<Run>, b: seq<Run>)
    requires Separated(a) && NonEmpty(a) && Separated(b) && NonEmpty(b) && a != [] && b != []
    requires forall i: nat :: ByteAt(a, i) == ByteAt(b, i)
    ensures a[|a| - 1].End() <= b[|b| - 1].End()
  {
    var last := a[|a| - 1];
    var i := last.End() - 1;
    ByteAtCovered(a, |a| - 1, i);
    assert ByteAt(a, i) == ByteAt(b, i);
    var k := CoveringRun(b, i);
    assert k < |b| - 1 ==> b[k].End() < b[|b| - 1].offset;
  }

  lemma {:induction false} LastRunStarts(a: seq<Run>, b: seq<Run>)
    requires Separated(a) && NonEmpty(a) && Separated(b) && NonEmpty(b) && a != [] && b != []
    requires forall i: nat :: ByteAt(a, i) == ByteAt(b, i)
    requires a[|a| - 1].End() == b[|b| - 1].End()
    ensures a[|a| - 1].offset <= b[|b| - 1].offset
  {
    var la, lb := a[|a| - 1], b[|b| - 1];
    if lb.offset < la.offset {
      // The byte just below `la` is a hole in `a` but pending in `b`.
      var i := la.offset - 1;
      ByteAtCovered(b, |b| - 1, i);
      assert ByteAt(a, i) == ByteAt(b, i);
      var k := CoveringRun(a, i);
    }
  }

  lemma {:induction false} LastRunEqual(a: seq<Run>, b: seq<Run>)
    requires Separated(a) && NonEmpty(a) && Separated(b) && NonEmpty(b) && a != [] && b != []
    requires forall i: nat :: ByteAt(a, i) == ByteAt(b, i)
    requires a[|a| - 1].End() == b[|b| - 1].End()
    ensures a[|a| - 1] == b[|b| - 1]
  {
    LastRunStarts(a, b);
    LastRunStarts(b, a);
    var la, lb := a[|a| - 1], b[|b| - 1];
    forall j | 0 <= j < |la.data| ensures la.data[j] == lb.data[j] {
      var i := la.offset + j;
      ByteAtCovered(a, |a| - 1, i);
      ByteAtCovered(b, |b| - 1, i);
      assert ByteAt(a, i) == ByteAt(b, i);
    }
  }

  lemma {:induction false} PrefixBytes(a: seq<Run>, i: nat)
    requires Separated(a) && a != []
    ensures ByteAt(a[..|a| - 1], i) == if i < a[|a| - 1].offset then ByteAt(a, i) else None
  {
    var n := |a| - 1;
    if i >= a[n].offset {
      forall k | 0 <= k < n ensures !a[..n][k].Covers(i) {
        assert a[k].End() < a[n].offset;
      }
      ByteAtUncovered(a[..n], i);
    }
  }

  // ------------------------------------------------------------ the view

  /** Buffering a write shows readers the plain file after the same pwrite. */
  lemma {:induction false} InsertIsPWrite(disk: seq<byte>, before: seq<Run>, offset: nat, data: seq<byte>,
                                          after: seq<Run>)
    requires Overrides(before, offset, data, after)
    requires SparseEnd(after) == Max(SparseEnd(before), offset + |data|)
    requires data != []
    ensures Overlay(disk, after) == PWrite(Overlay(disk, before), offset, data)
  {
    var f, g := Overlay(disk, after), PWrite(Overlay(disk, before), offset, data);
    assert |f| == |g|;
    forall i: nat | i < |f| ensures f[i] == g[i] {
      assert ByteAt(after, i) ==
             if offset <= i < offset + |data| then Some(data[i - offset]) else ByteAt(before, i);
      if !(offset <= i < offset + |data|) && i >= |Overlay(disk, before)| {
        NothingPastEnd(before, i);
      }
    }
  }

  lemma {:induction false} NothingPastEnd(runs: seq<Run>, i: nat)
    requires SparseEnd(runs) <= i
    ensures ByteAt(runs, i) == None
  {
    forall k | 0 <= k < |runs| ensures !runs[k].Covers(i) {
      SparseEndBounds(runs, k);
    }
    ByteAtUncovered(runs, i);
  }

  /** The end of file seen by readers follows from the byte map. */
  lemma {:induction false} EndAfterInsert(before: seq<Run>, offset: nat, data: seq<byte>, after: seq<Run>)
    requires Overrides(before, offset, data, after) && data != []
    requires NonEmpty(before) && NonEmpty(after) && Separated(before) && Separated(after)
    ensures SparseEnd(after) == Max(SparseEnd(before), offset + |data|)
  {
    var e := offset + |data|;
    assert ByteAt(after, e - 1).Some?;
    var k := CoveringRun(after, e - 1);
    SparseEndBounds(after, k);
    if before != [] {
      var last := before[|before| - 1];
      SparseEndSeparated(before);
      ByteAtCovered(before, |before| - 1, last.End() - 1);
      assert ByteAt(after, last.End() - 1).Some?;
      var j := CoveringRun(after, last.End() - 1);
      SparseEndBounds(after, j);
    }
    var top := after[|after| - 1];
    SparseEndSeparated(after);
    ByteAtCovered(after, |after| - 1, top.End() - 1);
    if top.End() > e {
      assert ByteAt(before, top.End() - 1).Some?;
      var b := CoveringRun(before, top.End() - 1);
      SparseEndBounds(before, b);
    }
  }

  /** Storing any prefix of a pending run on disk is invisible while the run is pending. */
  lemma {:induction false} PartialWriteInvisible(disk: seq<byte>, runs: seq<Run>, k: nat, n: nat)
    requires Separated(runs) && k < |runs| && n <= |runs[k].data|
    ensures Overlay(PWrite(disk, runs[k].offset, runs[k].data[..n]), runs) == Overlay(disk, runs)
  {
    var r := runs[k];
    var disk' := PWrite(disk, r.offset, r.data[..n]);
    SparseEndBounds(runs, k);
    assert |Overlay(disk', runs)| == |Overlay(disk, runs)|;
    forall i: nat | i < |Overlay(disk, runs)|
      ensures Through(disk', runs, i) == Through(disk, runs, i)
    {
      if r.Covers(i) {
        ByteAtCovered(runs, k, i);
      }
    }
  }

  /** Retiring the first run after storing all of it keeps the view. */
  lemma {:induction false} FullWriteRetires(disk: seq<byte>, runs: seq<Run>)
    requires Separated(runs) && NonEmpty(runs) && runs != []
    ensures Separated(runs[1..]) && NonEmpty(runs[1..])
    ensures Overlay(PWrite(disk, runs[0].offset, runs[0].data), runs[1..]) == Overlay(disk, runs)
  {
    var r, rest := runs[0], runs[1..];
    var disk' := PWrite(disk, r.offset, r.data);
    assert Separated(rest) by {
      forall j, k | 0 <= j < k < |rest| ensures rest[j].End() < rest[k].offset {
        assert runs[j + 1].End() < runs[k + 1].offset;
      }
    }
    SparseEndSeparated(runs);
    if rest != [] {
      SparseEndSeparated(rest);
      assert r.End() < runs[|runs| - 1].offset;
    }
    assert |Overlay(disk', rest)| == |Overlay(disk, runs)|;
    forall i: nat | i < |Overlay(disk, runs)|
      ensures Through(disk', rest, i) == Through(disk, runs, i)
    {
      RetiredByte(disk, runs, i);
    }
  }

  lemma {:induction false} RetiredByte(disk: seq<byte>, runs: seq<Run>, i: nat)
    requires runs != [] && Separated(runs) && Separated(runs[1..]) && NonEmpty(runs)
    ensures Through(PWrite(disk, runs[0].offset, runs[0].data), runs[1..], i) == Through(disk, runs, i)
  {
    var r, rest := runs[0], runs[1..];
    if r.Covers(i) {
      ByteAtCovered(runs, 0, i);
      forall k | 0 <= k < |rest| ensures !rest[k].Covers(i) {
        assert runs[0].End() < runs[k + 1].offset;
      }
      ByteAtUncovered(rest, i);
    } else if k :| 0 <= k < |rest| && rest[k].Covers(i) {
      ByteAtCovered(rest, k, i);
      ByteAtCovered(runs, k + 1, i);
    } else {
      ByteAtUncovered(rest, i);
      forall k | 0 <= k < |runs| ensures !runs[k].Covers(i) {
        if k > 0 { assert runs[k] == rest[k - 1]; }
      }
      ByteAtUncovered(runs, i);
    }
  }

  lemma {:induction false} NothingPending(disk: seq<byte>)
    ensures Overlay(disk, []) == disk
  {
  }

  /** What readers see is what a complete flush would leave on disk. */
  lemma {:induction false} OverlayIsFlush(disk: seq<byte>, runs: seq<Run>)
    requires Separated(runs) && NonEmpty(runs)
    ensures Overlay(disk, runs) == FlushAll(disk, runs)
    decreases |runs|
  {
    if runs == [] {
      NothingPending(disk);
    } else {
      FullWriteRetires(disk, runs);
      OverlayIsFlush(PWrite(disk, runs[0].offset, runs[0].data), runs[1..]);
    }
  }
}
