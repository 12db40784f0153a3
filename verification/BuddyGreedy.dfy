/**
  Cutting a range of memory into free blocks: always the largest aligned block that
  fits. No two of these blocks could be joined, so a heap that was given one range is
  coalesced, and a further range keeps it so unless one of its blocks meets its buddy.
 */
module BuddyGreedy {
  import opened Basics
  import opened BuddyBits
  import opened BuddyTiling
  import L = BuddyLists
  import C = BuddyCanonical
  import U = BuddyUnique

  const WORD: nat := 8

  function RoundUp(a: nat): nat { (a + (WORD - 1)) / WORD * WORD }

  function RoundDown(a: nat): nat { a / WORD * WORD }

  predicate Within(lo: nat, x: nat, hi: nat) { lo <= x < hi }

  ghost function Range(lo: nat, hi: nat): iset<nat> { iset x: nat | Within(lo, x, hi) }

  lemma {:induction false} WordAligned(q: nat)
    ensures Aligned(q * WORD, WORD_ORDER)
  {
    assert WORD == Pow2(3) by { assert Pow2(1) == 2 && Pow2(2) == 4; }
    MultipleIsAligned(q, 3);
  }

  lemma {:induction false} RoundsAligned(start: nat, end: nat)
    ensures Aligned(RoundUp(start), WORD_ORDER) && Aligned(RoundDown(end), WORD_ORDER)
    ensures start > 0 ==> RoundUp(start) > 0
    ensures RoundDown(end) <= end
  {
    WordAligned((start + (WORD - 1)) / WORD);
    WordAligned(end / WORD);
  }

  /** The range contains no whole block of an order that has no list. */
  ghost predicate BelowTop(cur: nat, end: nat) {
    forall m: nat :: Aligned(m, MAX_ORDER) && cur <= m ==> end < m + Pow2(MAX_ORDER)
  }

  /** A range of whole words that can be cut into blocks. */
  ghost predicate Cuttable(cur: nat, end: nat) {
    && 0 < cur <= end < WORD_LIMIT && Aligned(cur, WORD_ORDER) && Aligned(end, WORD_ORDER) && BelowTop(cur, end)
  }

  /** The size the loop picks next. */
  function GreedySize(cur: nat, end: nat): nat
    requires cur < end
  {
    var low, most := LowBit(cur), PrevPowerOfTwo(end - cur);
    if low <= most then low else most
  }

  lemma {:induction false} GreedyOrder(cur: nat, end: nat) returns (o: nat)
    requires 0 < cur && cur + WORD <= end < WORD_LIMIT && Aligned(cur, WORD_ORDER)
    ensures GreedySize(cur, end) == Pow2(o) && TrailingZeros(Pow2(o)) == o
    ensures WORD_ORDER <= o <= TrailingZeros(cur) && Pow2(o) <= end - cur
  {
    var t, l := TrailingZeros(cur), BitLength(end - cur) - 1;
    LowBitIsPow2(cur);
    WholeWords(end - cur);
    AlignedTrailing(cur, WORD_ORDER);
    Pow2Order(t, l);
    o := if t <= l then t else l;
    TrailingZerosOfPow2(o);
  }

  lemma {:induction false} WholeWords(n: nat)
    requires n >= WORD
    ensures BitLength(n) > WORD_ORDER && Pow2(BitLength(n) - 1) <= n
  {
    BitLengthBounds(n);
    assert WORD == Pow2(3) by { assert Pow2(1) == 2 && Pow2(2) == 4; }
    SmallPowers(BitLength(n) - 1);
  }

  /** The greedy choice is a proper block that fits in front of `end`. */
  lemma {:induction false} GreedyBlock(cur: nat, end: nat)
    requires 0 < cur && cur + WORD <= end < WORD_LIMIT && Aligned(cur, WORD_ORDER)
    requires BelowTop(cur, end)
    ensures var size := GreedySize(cur, end);
            && size > 0 && size == Pow2(TrailingZeros(size))
            && Block(cur, TrailingZeros(size)).Proper()
            && cur + size <= end && Aligned(cur + size, WORD_ORDER)
  {
    var o := GreedyOrder(cur, end);
    AlignedTrailing(cur, o);
    BelowTopOrder(cur, end, o);
    Pow2Aligned(o);
    AlignedWeaken(Pow2(o), WORD_ORDER, o);
    AlignedAdd(cur, Pow2(o), WORD_ORDER);
  }

  lemma {:induction false} SmallPowers(l: nat)
    ensures l < 3 ==> Pow2(l + 1) <= Pow2(3)
  {
    if l < 3 { Pow2Monotone(l + 1, 3); }
  }

  /** Two word-aligned addresses less than a word apart are equal. */
  lemma {:induction false} WordGap(cur: nat, last: nat)
    requires Aligned(cur, WORD_ORDER) && Aligned(last, WORD_ORDER) && cur < last
    ensures cur + WORD <= last
  {
    AlignedGap(cur, last, WORD_ORDER);
    assert WORD == Pow2(3) by { assert Pow2(1) == 2 && Pow2(2) == 4; }
  }

  lemma {:induction false} BelowTopOrder(cur: nat, end: nat, o: nat)
    requires Aligned(cur, o) && cur + Pow2(o) <= end
    requires BelowTop(cur, end)
    ensures o < MAX_ORDER
  {
    if o >= MAX_ORDER {
      AlignedWeaken(cur, MAX_ORDER, o);
      Pow2Monotone(MAX_ORDER, o);
    }
  }

  lemma {:induction false} AddedIsSound(lists: L.Lists, live: set<Block>, region: iset<nat>, b: Block)
    requires L.Sound(lists, live, region) && b.Proper()
    requires forall x: nat :: b.Covers(x) ==> x !in region
    ensures forall o :: 0 <= o < |lists| ==> b.addr !in lists[o]
    ensures L.Sound(L.Push(lists, b.order, b.addr), live, region + Range(b.addr, b.addr + Pow2(b.order)))
  {
    var blocks := L.Blocks(lists, live);
    AddTiling(blocks, region, b);
    assert Range(b.addr, b.addr + Pow2(b.order)) == (iset x: nat | b.Covers(x));
    forall o | 0 <= o < |lists| ensures b.addr !in lists[o] {
      if b.addr in lists[o] {
        assert Block(b.addr, o) in blocks;
        FreshIsApart(blocks, region, b, Block(b.addr, o));
      }
    }
    var after := L.Push(lists, b.order, b.addr);
    assert L.Blocks(after, live) == blocks + iset{b} by {
      forall c: Block ensures c in L.Blocks(after, live) <==> c in blocks + iset{b} {
      }
    }
  }

  lemma RangeExtends(region: iset<nat>, first: nat, cur: nat, next: nat)
    requires first <= cur <= next
    ensures region + Range(first, cur) + Range(cur, next) == region + Range(first, next)
  {
  }

  // ------------------------------------------------------------ the blocks of a range

  /** The block the loop cuts off next. */
  function NextBlock(cur: nat, end: nat): Block
    requires cur < end && GreedySize(cur, end) > 0
  {
    Block(cur, TrailingZeros(GreedySize(cur, end)))
  }

  lemma {:induction false} NextIsCuttable(cur: nat, end: nat)
    requires Cuttable(cur, end) && cur + WORD <= end
    ensures GreedySize(cur, end) > 0 && NextBlock(cur, end).Proper()
    ensures NextBlock(cur, end).End() == cur + GreedySize(cur, end)
    ensures Cuttable(NextBlock(cur, end).End(), end)
  {
    GreedyBlock(cur, end);
  }

  /** The lists after the range has been cut up and pushed. */
  ghost function AddAll(lists: L.Lists, cur: nat, end: nat): L.Lists
    requires |lists| == MAX_ORDER && Cuttable(cur, end)
    decreases end - cur
  {
    if cur + WORD > end then lists
    else
      NextIsCuttable(cur, end);
      var b := NextBlock(cur, end);
      AddAll(L.Push(lists, b.order, cur), b.End(), end)
  }

  /** `b` is one of the blocks the range is cut into. */
  ghost predicate Greedy(cur: nat, end: nat, b: Block)
    requires Cuttable(cur, end)
    decreases end - cur
  {
    && cur + WORD <= end
    && (NextIsCuttable(cur, end); b == NextBlock(cur, end) || Greedy(NextBlock(cur, end).End(), end, b))
  }

  lemma {:induction false} AddAllMembers(lists: L.Lists, cur: nat, end: nat, b: Block)
    requires |lists| == MAX_ORDER && Cuttable(cur, end)
    ensures |AddAll(lists, cur, end)| == MAX_ORDER
    ensures L.IsFree(AddAll(lists, cur, end), b) <==> L.IsFree(lists, b) || Greedy(cur, end, b)
    decreases end - cur
  {
    if cur + WORD <= end {
      NextIsCuttable(cur, end);
      var next := NextBlock(cur, end);
      AddAllMembers(L.Push(lists, next.order, cur), next.End(), end, b);
    }
  }

  lemma {:induction false} GreedyInside(cur: nat, end: nat, b: Block)
    requires Cuttable(cur, end) && Greedy(cur, end, b)
    ensures b.Proper() && cur <= b.addr && b.End() <= end
    decreases end - cur
  {
    NextIsCuttable(cur, end);
    if b != NextBlock(cur, end) { GreedyInside(NextBlock(cur, end).End(), end, b); }
  }

  /** A block that could be twice as large would have to end behind the range. */
  lemma {:induction false} NextIsMaximal(cur: nat, end: nat)
    requires Cuttable(cur, end) && cur + WORD <= end
    ensures GreedySize(cur, end) > 0
    ensures Aligned(cur, NextBlock(cur, end).order + 1) ==> end < cur + Pow2(NextBlock(cur, end).order + 1)
  {
    NextIsCuttable(cur, end);
    var o := GreedyOrder(cur, end);
    if Aligned(cur, o + 1) {
      AlignedTrailing(cur, o + 1);
      LowBitIsPow2(cur);
      Pow2StrictlyMonotone(o, TrailingZeros(cur));
      PrevPowerOfTwoBounds(end - cur);
    }
  }

  lemma {:induction false} GreedyIsMaximal(cur: nat, end: nat, b: Block)
    requires Cuttable(cur, end) && Greedy(cur, end, b)
    ensures Aligned(b.addr, b.order + 1) ==> end < b.addr + Pow2(b.order + 1)
    decreases end - cur
  {
    NextIsCuttable(cur, end);
    NextIsMaximal(cur, end);
    if b != NextBlock(cur, end) { GreedyIsMaximal(NextBlock(cur, end).End(), end, b); }
  }

  /** No two blocks of one range are buddies. */
  lemma {:induction false} GreedyHasNoPair(cur: nat, end: nat, b: Block)
    requires Cuttable(cur, end) && Greedy(cur, end, b)
    ensures !Greedy(cur, end, Block(Buddy(b.addr, b.order), b.order))
  {
    var c := Block(Buddy(b.addr, b.order), b.order);
    if Greedy(cur, end, c) {
      GreedyInside(cur, end, b);
      GreedyInside(cur, end, c);
      BuddyOf(b.addr, b.order);
      GreedyIsMaximal(cur, end, b);
      GreedyIsMaximal(cur, end, c);
    }
  }

  // ------------------------------------------------------------ coalesced heaps

  /** A block of the range has a free buddy in the lists. */
  ghost predicate MeetsBuddy(lists: L.Lists, cur: nat, end: nat)
    requires Cuttable(cur, end)
  {
    exists b: Block ::
      Greedy(cur, end, b) && b.order + 1 < |lists| && L.IsFree(lists, Block(Buddy(b.addr, b.order), b.order))
  }

  /** Adding a range keeps a heap coalesced exactly if none of its blocks meets a free buddy. */
  lemma {:induction false} AddLeavesNoPairIff(lists: L.Lists, cur: nat, end: nat)
    requires |lists| == MAX_ORDER && Cuttable(cur, end) && L.NoBuddyPairs(lists) && C.AllAligned(lists)
    ensures |AddAll(lists, cur, end)| == MAX_ORDER
    ensures L.NoBuddyPairs(AddAll(lists, cur, end)) <==> !MeetsBuddy(lists, cur, end)
  {
    var after := AddAll(lists, cur, end);
    AddAllMembers(lists, cur, end, Block(0, 0));
    if MeetsBuddy(lists, cur, end) {
      var b: Block :| Greedy(cur, end, b) && b.order + 1 < |lists|
                      && L.IsFree(lists, Block(Buddy(b.addr, b.order), b.order));
      AddAllMembers(lists, cur, end, b);
      AddAllMembers(lists, cur, end, Block(Buddy(b.addr, b.order), b.order));
      assert b.addr in after[b.order] && Buddy(b.addr, b.order) in after[b.order];
    } else {
      forall o, a: nat | 0 <= o && o + 1 < |after| && a in after[o] ensures Buddy(a, o) !in after[o] {
        NoPairAt(lists, cur, end, Block(a, o));
      }
    }
  }

  lemma {:induction false} NoPairAt(lists: L.Lists, cur: nat, end: nat, b: Block)
    requires |lists| == MAX_ORDER && Cuttable(cur, end) && L.NoBuddyPairs(lists) && C.AllAligned(lists)
    requires !MeetsBuddy(lists, cur, end) && b.order + 1 < MAX_ORDER && L.IsFree(AddAll(lists, cur, end), b)
    ensures !L.IsFree(AddAll(lists, cur, end), Block(Buddy(b.addr, b.order), b.order))
  {
    var c := Block(Buddy(b.addr, b.order), b.order);
    AddAllMembers(lists, cur, end, b);
    AddAllMembers(lists, cur, end, c);
    if Greedy(cur, end, b) {
      GreedyHasNoPair(cur, end, b);
    } else if Greedy(cur, end, c) {
      assert Aligned(b.addr, b.order);
      BuddyInvolution(b.addr, b.order);
    } else {
      assert b.addr in lists[b.order];
    }
  }

  /** A heap that was given one range is coalesced. */
  lemma {:induction false} FirstRangeLeavesNoPair(cur: nat, end: nat)
    requires Cuttable(cur, end)
    ensures L.NoBuddyPairs(AddAll(L.EmptyLists(), cur, end))
  {
    AddLeavesNoPairIff(L.EmptyLists(), cur, end);
  }

  /** A range that touches nothing the heap has keeps it coalesced. */
  lemma {:induction false} ApartRangeLeavesNoPair(lists: L.Lists, live: set<Block>, region: iset<nat>,
                                                  cur: nat, end: nat)
    requires L.Sound(lists, live, region) && L.NoBuddyPairs(lists) && Cuttable(cur, end)
    requires forall x: nat :: cur - 1 <= x <= end ==> x !in region
    ensures L.NoBuddyPairs(AddAll(lists, cur, end))
  {
    C.SoundIsAligned(lists, live, region);
    forall b: Block | Greedy(cur, end, b) && b.order + 1 < |lists|
      ensures !L.IsFree(lists, Block(Buddy(b.addr, b.order), b.order))
    {
      var c := Block(Buddy(b.addr, b.order), b.order);
      GreedyInside(cur, end, b);
      BuddyOf(b.addr, b.order);
      if L.IsFree(lists, c) {
        var x := if c.addr < b.addr then b.addr - 1 else c.addr;
        assert c in L.Blocks(lists, live) && c.Covers(x);
        assert Covered(L.Blocks(lists, live), x);
      }
    }
    AddLeavesNoPairIff(lists, cur, end);
  }

  // ------------------------------------------------------------ everything released

  lemma {:induction false} AddAllIsSound(lists: L.Lists, live: set<Block>, region: iset<nat>, cur: nat, end: nat)
    requires L.Sound(lists, live, region) && Cuttable(cur, end) && forall x: nat :: cur <= x < end ==> x !in region
    ensures L.Sound(AddAll(lists, cur, end), live, region + Range(cur, end))
    decreases end - cur
  {
    if cur + WORD <= end {
      NextIsCuttable(cur, end);
      var b := NextBlock(cur, end);
      AddedIsSound(lists, live, region, b);
      var after, grown := L.Push(lists, b.order, cur), region + Range(cur, b.End());
      AddAllIsSound(after, live, grown, b.End(), end);
      RangeExtends(region, cur, b.End(), end);
    } else {
      if cur < end { WordGap(cur, end); }
      assert region + Range(cur, end) == region;
    }
  }

  /** Once everything is released, a coalesced heap of one range is again the range as it was first cut. */
  lemma {:induction false} ReleasedHeapIsGreedy(lists: L.Lists, cur: nat, end: nat, b: Block)
    requires Cuttable(cur, end) && L.Sound(lists, {}, Range(cur, end)) && L.NoBuddyPairs(lists)
    ensures L.IsFree(lists, b) <==> Greedy(cur, end, b)
  {
    var empty := L.EmptyLists();
    assert L.Blocks(empty, {}) == iset{};
    assert iset{} + Range(cur, end) == Range(cur, end);
    AddAllIsSound(empty, {}, iset{}, cur, end);
    FirstRangeLeavesNoPair(cur, end);
    AddAllMembers(empty, cur, end, b);
    U.FreeBlocksAreDetermined(lists, AddAll(empty, cur, end), {}, Range(cur, end), b);
  }

  /** A range of one word is one block. */
  lemma {:induction false} OneWord(a: nat)
    requires Cuttable(a, a + WORD)
    ensures Greedy(a, a + WORD, Block(a, WORD_ORDER))
  {
    assert Pow2(1) == 2 && Pow2(2) == 4 && Pow2(3) == 8;
    NextIsCuttable(a, a + WORD);
    var o := GreedyOrder(a, a + WORD);
    Pow2Order(o, WORD_ORDER);
  }

  /** Two adjacent ranges can leave a pair: two words that belong together, added one after the other. */
  lemma {:induction false} AdjacentRangesLeavePair(lists: L.Lists, a: nat)
    requires |lists| == MAX_ORDER && Aligned(a, WORD_ORDER + 1)
    requires Cuttable(a, a + WORD) && Cuttable(a + WORD, a + WORD + WORD)
    ensures |AddAll(lists, a, a + WORD)| == MAX_ORDER
    ensures !L.NoBuddyPairs(AddAll(AddAll(lists, a, a + WORD), a + WORD, a + WORD + WORD))
  {
    var m := a + WORD;
    var lower, upper := Block(a, WORD_ORDER), Block(m, WORD_ORDER);
    assert Pow2(WORD_ORDER) == WORD by { assert Pow2(1) == 2 && Pow2(2) == 4; }
    OneWord(a);
    OneWord(m);
    AddAllMembers(lists, a, m, lower);
    var one := AddAll(lists, a, m);
    AddAllMembers(one, m, m + WORD, lower);
    AddAllMembers(one, m, m + WORD, upper);
    Halves(a, WORD_ORDER);
  }
}
