/**
  The buddy heap on its intrusive free lists. Every reachable heap tiles the
  memory it was given with its free and live blocks, accounts for every byte, and
  never writes a word of memory it has handed out.
 */
module BuddyHeap {
  import opened Basics
  import opened BuddyBits
  import opened BuddyTiling
  import opened BuddyAccounting
  import opened BuddyFreeLists
  import opened BuddyGreedy
  import opened MapSums
  import L = BuddyLists
  import C = BuddyCanonical

  /** A requested size and alignment; alignments are powers of two. */
  datatype Layout = Layout(size: nat, alignShift: nat)

  /** The block size an allocation of `layout` takes. */
  function SizeOf(layout: Layout): nat {
    Max(NextPowerOfTwo(layout.size), Max(Pow2(layout.alignShift), WORD))
  }

  function ClassOf(layout: Layout): nat {
    var size := SizeOf(layout);
    if size == 0 then 0 else TrailingZeros(size)
  }

  /** The class is the order of the block, which is large enough and aligned enough. */
  lemma {:induction false} ClassFits(layout: Layout)
    ensures SizeOf(layout) == Pow2(ClassOf(layout))
    ensures layout.size <= Pow2(ClassOf(layout))
    ensures WORD_ORDER <= ClassOf(layout) && layout.alignShift <= ClassOf(layout)
  {
    NextPowerOfTwoBounds(layout.size);
    var n := if layout.size <= 1 then 0 else BitLength(layout.size - 1);
    assert NextPowerOfTwo(layout.size) == Pow2(n);
    assert WORD == Pow2(3) by { assert Pow2(1) == 2 && Pow2(2) == 4; }
    var m := Max(n, Max(layout.alignShift, 3));
    Pow2Monotone(n, m);
    Pow2Monotone(layout.alignShift, m);
    Pow2Monotone(3, m);
    TrailingZerosOfPow2(m);
  }

  /** A block of order `o` has room for the layout and its alignment. */
  predicate Fits(layout: Layout, o: nat) {
    WORD_ORDER <= o && layout.alignShift <= o && layout.size <= Pow2(o)
  }

  /** No smaller block would do. */
  lemma {:induction false} ClassIsLeast(layout: Layout, o: nat)
    ensures Fits(layout, o) <==> ClassOf(layout) <= o
  {
    ClassFits(layout);
    if ClassOf(layout) <= o {
      Pow2Monotone(ClassOf(layout), o);
    } else if Fits(layout, o) {
      NextPowerOfTwoBounds(layout.size);
      Pow2Monotone(layout.alignShift, o);
      Pow2Monotone(WORD_ORDER, o);
      assert WORD == Pow2(3) by { assert Pow2(1) == 2 && Pow2(2) == 4; }
      RoundsToLeast(layout.size, o);
      Pow2StrictlyMonotone(o, ClassOf(layout));
    }
  }

  lemma {:induction false} RoundsToLeast(n: nat, o: nat)
    requires n <= Pow2(o)
    ensures NextPowerOfTwo(n) <= Pow2(o)
  {
    if n > 1 {
      BitLengthBounds(n - 1);
      Pow2Order(o + 1, BitLength(n - 1));
      Pow2Order(BitLength(n - 1), o);
    }
  }

  /** Nothing that fits is free. */
  predicate NothingFits(lists: L.Lists, layout: Layout) {
    forall o :: 0 <= o < |lists| && Fits(layout, o) ==> lists[o] == []
  }

  lemma {:induction false} AllocFailsIff(lists: L.Lists, layout: Layout)
    ensures L.Alloc(lists, ClassOf(layout)) == None <==> NothingFits(lists, layout)
  {
    L.AllocFails(lists, ClassOf(layout));
    forall o: nat ensures Fits(layout, o) <==> ClassOf(layout) <= o {
      ClassIsLeast(layout, o);
    }
  }

  function LiveBlocks(live: map<nat, Layout>): set<Block> {
    set p | p in live :: Block(p, ClassOf(live[p]))
  }

  function LiveSizes(live: map<nat, Layout>): map<nat, nat> { map p | p in live :: Pow2(ClassOf(live[p])) }

  function Requested(live: map<nat, Layout>): map<nat, nat> { map p | p in live :: live[p].size }

  /** Words inside handed-out blocks are the same in both memories. */
  ghost predicate LiveWordsKept(live: set<Block>, before: map<nat, nat>, after: map<nat, nat>) {
    forall b, x: nat :: b in live && b.Covers(x) ==> Load(after, x) == Load(before, x)
  }

  /** A free list never holds an address inside a live block. */
  lemma {:induction false} LiveIsUnlisted(lists: L.Lists, live: set<Block>, region: iset<nat>, b: Block, o: nat, a: nat)
    requires L.Sound(lists, live, region) && b in live && o < |lists| && a in lists[o]
    ensures !b.Covers(a)
  {
    var c := Block(a, o);
    assert L.IsFree(lists, c) && c in L.Blocks(lists, live) && b in L.Blocks(lists, live);
    assert Apart(b, c);
  }

  lemma {:induction false} OverwriteFree(lists: L.Lists, live: set<Block>, region: iset<nat>, o: nat, a: nat,
                                         mem: map<nat, nat>, v: nat)
    requires L.Sound(lists, live, region) && o < |lists| && a in lists[o]
    ensures LiveWordsKept(live, mem, mem[a := v])
  {
    forall b, x: nat | b in live && b.Covers(x) ensures Load(mem[a := v], x) == Load(mem, x) {
      LiveIsUnlisted(lists, live, region, b, o, a);
    }
  }

  /** Free and live blocks tile the region, and the three counters are exact. */
  ghost predicate Consistent(lists: L.Lists, live: map<nat, Layout>, region: iset<nat>,
                             user: nat, allocatedBytes: nat, total: nat)
  {
    && L.Sound(lists, LiveBlocks(live), region)
    && allocatedBytes + FreeBytes(lists) == total
    && allocatedBytes == Sum(LiveSizes(live))
    && user == Sum(Requested(live))
  }

  class Heap {
    const free: FreeLists
    var user: nat
    var allocatedBytes: nat
    var total: nat
    ghost var live: map<nat, Layout>
    ghost var region: iset<nat>

    ghost predicate Valid()
      reads this, free
    {
      free.Valid() && Consistent(free.lists, live, region, user, allocatedBytes, total)
    }

    constructor ()
      ensures Valid() && fresh(free)
      ensures live == map[] && region == iset{} && total == 0
    {
      free := new FreeLists();
      user, allocatedBytes, total := 0, 0, 0;
      live, region := map[], iset{};
      new;
      EmptyIsSound();
    }

    /**
      Hand the heap the words of `[start, end)`, cut greedily into the largest
      aligned blocks. The range starts above address zero, does not overlap what
      the heap already has, and contains no whole block of an order that has no list.
     */
    method AddToHeap(start: nat, end: nat)
      requires Valid() && 0 < start && end < WORD_LIMIT
      requires RoundUp(start) <= RoundDown(end) && BelowTop(RoundUp(start), RoundDown(end))
      requires forall x: nat :: RoundUp(start) <= x < RoundDown(end) ==> x !in region
      modifies this, free
      ensures Valid() && live == old(live) && user == old(user) && allocatedBytes == old(allocatedBytes)
      ensures region == old(region) + Range(RoundUp(start), RoundDown(end))
      ensures Cuttable(RoundUp(start), RoundDown(end))
      ensures free.lists == AddAll(old(free.lists), RoundUp(start), RoundDown(end))
      ensures total == old(total) + (RoundDown(end) - RoundUp(start))
      ensures LiveWordsKept(LiveBlocks(live), old(free.mem), free.mem)
    {
      var first, last := RoundUp(start), RoundDown(end);
      RoundsAligned(start, end);
      var added := AddRange(free, first, last, LiveBlocks(live), region);
      region := region + Range(first, last);
      total := total + added;
    }

    /**
      The first block of the smallest sufficient order, split down to size. It
      fails exactly when no list from the requested order up holds a block.
     */
    method Alloc(layout: Layout) returns (r: Option<nat>)
      requires Valid()
      modifies this, free
      ensures Valid() && total == old(total) && region == old(region)
      ensures LiveWordsKept(old(LiveBlocks(live)), old(free.mem), free.mem)
      ensures r == None <==> NothingFits(old(free.lists), layout)
      ensures r.Some? <==> L.Alloc(old(free.lists), ClassOf(layout)).Some?
      ensures r.Some? ==>
                && (r.value, free.lists) == L.Alloc(old(free.lists), ClassOf(layout)).value
                && r.value !in old(live) && live == old(live)[r.value := layout]
                && Aligned(r.value, layout.alignShift) && r.value != 0
                && user == old(user) + layout.size && allocatedBytes == old(allocatedBytes) + SizeOf(layout)
      ensures r == None ==> free.lists == old(free.lists) && live == old(live) && user == old(user)
    {
      var size := SizeOf(layout);
      var order := ClassOf(layout);
      ClassFits(layout);
      AllocFailsIff(free.lists, layout);
      ghost var lists := free.lists;
      r := TakeBlock(free, order, LiveBlocks(live), region);
      if r == None {
        return;
      }
      AllocConsistent(lists, live, region, user, allocatedBytes, total, layout);
      user := user + layout.size;
      allocatedBytes := allocatedBytes + size;
      live := live[r.value := layout];
    }

    /** Give back one live allocation, joining buddies for as long as they are free. */
    method Dealloc(ptr: nat, layout: Layout)
      requires Valid() && ptr in live && live[ptr] == layout
      modifies this, free
      ensures Valid() && total == old(total) && region == old(region)
      ensures live == old(live) - {ptr}
      ensures LiveWordsKept(LiveBlocks(live), old(free.mem), free.mem)
      ensures ClassOf(layout) < MAX_ORDER && Aligned(ptr, ClassOf(layout))
      ensures free.lists == L.Dealloc(old(free.lists), ptr, ClassOf(layout))
      ensures user == old(user) - layout.size && allocatedBytes == old(allocatedBytes) - SizeOf(layout)
    {
      var inspected := Release(ptr, layout, false, 0);
    }

    /** The same with at most `budget` list nodes looked at. */
    method DeallocWithBoundedMerge(ptr: nat, layout: Layout, budget: nat) returns (ghost inspected: nat)
      requires Valid() && ptr in live && live[ptr] == layout
      modifies this, free
      ensures Valid() && total == old(total) && region == old(region)
      ensures live == old(live) - {ptr}
      ensures LiveWordsKept(LiveBlocks(live), old(free.mem), free.mem)
      ensures ClassOf(layout) < MAX_ORDER && Aligned(ptr, ClassOf(layout))
      ensures (free.lists, inspected) == L.DeallocBounded(old(free.lists), ptr, ClassOf(layout), budget)
      ensures inspected <= budget
      ensures user == old(user) - layout.size && allocatedBytes == old(allocatedBytes) - SizeOf(layout)
    {
      inspected := Release(ptr, layout, true, budget);
      C.InspectsAtMostBudget(L.Push(old(free.lists), ClassOf(layout), ptr), ptr, ClassOf(layout), budget);
    }

    method Release(ptr: nat, layout: Layout, bounded: bool, budget: nat) returns (ghost inspected: nat)
      requires Valid() && ptr in live && live[ptr] == layout
      modifies this, free
      ensures Valid() && total == old(total) && region == old(region)
      ensures live == old(live) - {ptr}
      ensures LiveWordsKept(LiveBlocks(live), old(free.mem), free.mem)
      ensures ClassOf(layout) < MAX_ORDER && Aligned(ptr, ClassOf(layout))
      ensures bounded ==> (free.lists, inspected) == L.DeallocBounded(old(free.lists), ptr, ClassOf(layout), budget)
      ensures !bounded ==> free.lists == L.Dealloc(old(free.lists), ptr, ClassOf(layout))
      ensures user == old(user) - layout.size && allocatedBytes == old(allocatedBytes) - SizeOf(layout)
    {
      var size := SizeOf(layout);
      var order := ClassOf(layout);
      ghost var lists := free.lists;
      inspected := PushAndMerge(free, ptr, order, bounded, budget, LiveBlocks(live), region);
      assert LiveBlocks(live - {ptr}) == LiveBlocks(live) - {Block(ptr, order)} by { ForgetBlocks(live, ptr); }
      assert user >= layout.size && allocatedBytes >= size
             && Consistent(free.lists, live - {ptr}, region, user - layout.size, allocatedBytes - size, total) by {
        ReleaseConsistent(lists, live, region, user, allocatedBytes, total, ptr, free.lists, bounded, budget);
      }
      live := live - {ptr};
      user := user - layout.size;
      allocatedBytes := allocatedBytes - size;
    }

    /** A program may store what it likes in the memory it was given. */
    method UserWrite(p: nat, a: nat, v: nat)
      requires Valid() && p in live && Block(p, ClassOf(live[p])).Covers(a)
      modifies free
      ensures Valid() && free.lists == old(free.lists) && free.mem == old(free.mem)[a := v]
    {
      forall o | 0 <= o < |free.lists| ensures Linked(free.mem[a := v], free.head[o], free.lists[o]) {
        if a in free.lists[o] {
          LiveIsUnlisted(free.lists, LiveBlocks(live), region, Block(p, ClassOf(live[p])), o, a);
        }
        LinkedFrame(free.mem, free.head[o], free.lists[o], a, v);
      }
      free.mem := free.mem[a := v];
    }
  }

  /** The smallest order at or above `order` whose list is not empty. */
  method FindOrder(free: FreeLists, order: nat) returns (i: nat)
    requires free.Valid()
    ensures order < MAX_ORDER ==> i == L.FirstNonEmpty(free.lists, order)
    ensures order >= MAX_ORDER ==> i == order
  {
    i := order;
    while i < MAX_ORDER
      invariant order <= i && (order < MAX_ORDER ==> i <= MAX_ORDER) && (order >= MAX_ORDER ==> i == order)
      invariant order < MAX_ORDER ==> L.FirstNonEmpty(free.lists, i) == L.FirstNonEmpty(free.lists, order)
    {
      free.EmptyMeansEmpty(i);
      if !free.IsEmpty(i) {
        return;
      }
      i := i + 1;
    }
  }

  lemma {:induction false} AllocatedIsNew(lists: L.Lists, live: map<nat, Layout>, region: iset<nat>, order: nat)
    requires L.Sound(lists, LiveBlocks(live), region) && WORD_ORDER <= order && L.Alloc(lists, order).Some?
    ensures L.Alloc(lists, order).value.0 !in live
  {
    var (p, after) := L.Alloc(lists, order).value;
    L.AllocSound(lists, LiveBlocks(live), region, order);
    if p in live {
      var b, c := Block(p, order), Block(p, ClassOf(live[p]));
      assert c in LiveBlocks(live);
      var blocks := L.Blocks(after, LiveBlocks(live) + {b});
      assert b in blocks && c in blocks;
      DistinctStarts(blocks, region, b, c);
    }
  }

  /** Recording an allocation as live keeps the tiling and moves its bytes from free to allocated. */
  lemma {:induction false} AllocConsistent(lists: L.Lists, live: map<nat, Layout>, region: iset<nat>,
                                           user: nat, allocatedBytes: nat, total: nat, layout: Layout)
    requires Consistent(lists, live, region, user, allocatedBytes, total)
    requires L.Alloc(lists, ClassOf(layout)).Some?
    ensures var (p, after) := L.Alloc(lists, ClassOf(layout)).value;
            && p !in live && p != 0 && Aligned(p, layout.alignShift)
            && Consistent(after, live[p := layout], region, user + layout.size,
                          allocatedBytes + SizeOf(layout), total)
  {
    var order := ClassOf(layout);
    ClassFits(layout);
    var (p, after) := L.Alloc(lists, order).value;
    L.AllocSound(lists, LiveBlocks(live), region, order);
    AllocBytes(lists, order);
    AllocatedIsNew(lists, live, region, order);
    RecordLive(live, p, layout);
    AlignedWeaken(p, layout.alignShift, order);
  }

  /** Forgetting a released allocation keeps the counters exact. */
  lemma {:induction false} ReleaseConsistent(lists: L.Lists, live: map<nat, Layout>, region: iset<nat>,
                                             user: nat, allocatedBytes: nat, total: nat, ptr: nat, after: L.Lists,
                                             bounded: bool, budget: nat)
    requires Consistent(lists, live, region, user, allocatedBytes, total) && ptr in live
    requires ClassOf(live[ptr]) < |lists| && Aligned(ptr, ClassOf(live[ptr]))
    requires after == if bounded then L.DeallocBounded(lists, ptr, ClassOf(live[ptr]), budget).0
                      else L.Dealloc(lists, ptr, ClassOf(live[ptr]))
    ensures user >= live[ptr].size && allocatedBytes >= SizeOf(live[ptr])
    ensures Consistent(after, live - {ptr}, region, user - live[ptr].size, allocatedBytes - SizeOf(live[ptr]), total)
  {
    var b := Block(ptr, ClassOf(live[ptr]));
    InLiveBlocks(live, b);
    ClassFits(live[ptr]);
    ForgetLive(live, ptr);
    DeallocBytes(lists, ptr, b.order, budget);
    if bounded {
      L.BoundedFreesSameBytes(lists, LiveBlocks(live), region, b, budget, 0);
    } else {
      L.DeallocSound(lists, LiveBlocks(live), region, b);
    }
  }

  lemma {:induction false} RecordLive(live: map<nat, Layout>, p: nat, layout: Layout)
    requires p !in live
    ensures LiveBlocks(live[p := layout]) == LiveBlocks(live) + {Block(p, ClassOf(layout))}
    ensures Sum(LiveSizes(live[p := layout])) == Sum(LiveSizes(live)) + Pow2(ClassOf(layout))
    ensures Sum(Requested(live[p := layout])) == Sum(Requested(live)) + layout.size
  {
    RecordBlocks(live, p, layout);
    RecordSizes(live, p, layout);
    SumInsert(LiveSizes(live), p, Pow2(ClassOf(layout)));
    SumInsert(Requested(live), p, layout.size);
  }

  lemma RecordBlocks(live: map<nat, Layout>, p: nat, layout: Layout)
    requires p !in live
    ensures LiveBlocks(live[p := layout]) == LiveBlocks(live) + {Block(p, ClassOf(layout))}
  {
    forall b ensures b in LiveBlocks(live[p := layout]) <==> b in LiveBlocks(live) + {Block(p, ClassOf(layout))} {
      InLiveBlocks(live, b);
      InLiveBlocks(live[p := layout], b);
    }
  }

  lemma InLiveBlocks(live: map<nat, Layout>, b: Block)
    ensures b in LiveBlocks(live) <==> b.addr in live && b.order == ClassOf(live[b.addr])
  {
    if b.addr in live && b.order == ClassOf(live[b.addr]) {
      assert b == Block(b.addr, ClassOf(live[b.addr]));
    }
  }

  lemma RecordSizes(live: map<nat, Layout>, p: nat, layout: Layout)
    ensures LiveSizes(live[p := layout]) == LiveSizes(live)[p := Pow2(ClassOf(layout))]
    ensures Requested(live[p := layout]) == Requested(live)[p := layout.size]
  {
  }

  lemma {:induction false} ForgetLive(live: map<nat, Layout>, p: nat)
    requires p in live
    ensures LiveBlocks(live - {p}) == LiveBlocks(live) - {Block(p, ClassOf(live[p]))}
    ensures Sum(LiveSizes(live - {p})) + Pow2(ClassOf(live[p])) == Sum(LiveSizes(live))
    ensures Sum(Requested(live - {p})) + live[p].size == Sum(Requested(live))
  {
    ForgetBlocks(live, p);
    ForgetSizes(live, p);
    SumRemove(LiveSizes(live), p);
    SumRemove(Requested(live), p);
  }

  lemma ForgetBlocks(live: map<nat, Layout>, p: nat)
    requires p in live
    ensures LiveBlocks(live - {p}) == LiveBlocks(live) - {Block(p, ClassOf(live[p]))}
  {
    forall b ensures b in LiveBlocks(live - {p}) <==> b in LiveBlocks(live) - {Block(p, ClassOf(live[p]))} {
      InLiveBlocks(live, b);
      InLiveBlocks(live - {p}, b);
    }
  }

  lemma ForgetSizes(live: map<nat, Layout>, p: nat)
    ensures LiveSizes(live - {p}) == LiveSizes(live) - {p}
    ensures Requested(live - {p}) == Requested(live) - {p}
  {
  }

  lemma {:induction false} EmptyFreeBytes(lists: L.Lists, o: nat)
    requires forall p :: 0 <= p < |lists| ==> lists[p] == []
    ensures FreeBytesFrom(lists, o) == 0
    decreases |lists| - o
  {
    if o < |lists| { EmptyFreeBytes(lists, o + 1); }
  }

  lemma EmptyIsSound()
    ensures L.Sound(L.EmptyLists(), LiveBlocks(map[]), iset{})
    ensures FreeBytes(L.EmptyLists()) == 0
  {
    var lists := L.EmptyLists();
    EmptyFreeBytes(lists, 0);
    assert L.Blocks(lists, LiveBlocks(map[])) == iset{};
  }

  // ------------------------------------------------------------ adding memory

  /** The loop that cuts a range into blocks and pushes them. */
  method AddRange(free: FreeLists, first: nat, last: nat, ghost live: set<Block>, ghost region: iset<nat>)
    returns (added: nat)
    requires free.Valid() && L.Sound(free.lists, live, region)
    requires Cuttable(first, last) && forall x: nat :: first <= x < last ==> x !in region
    modifies free
    ensures free.lists == AddAll(old(free.lists), first, last)
    ensures free.Valid() && L.Sound(free.lists, live, region + Range(first, last))
    ensures added == last - first && FreeBytes(free.lists) == old(FreeBytes(free.lists)) + added
    ensures LiveWordsKept(live, old(free.mem), free.mem)
  {
    var cur: nat := first;
    added := 0;
    assert region + Range(first, first) == region;
    while cur + WORD <= last
      invariant first <= cur && Cuttable(cur, last) && added == cur - first
      invariant |free.lists| == MAX_ORDER && AddAll(free.lists, cur, last) == AddAll(old(free.lists), first, last)
      invariant free.Valid() && L.Sound(free.lists, live, region + Range(first, cur))
      invariant FreeBytes(free.lists) == old(FreeBytes(free.lists)) + added
      invariant LiveWordsKept(live, old(free.mem), free.mem)
    {
      var size := AddNext(free, cur, last, live, region + Range(first, cur));
      RangeExtends(region, first, cur, cur + size);
      added := added + size;
      cur := cur + size;
    }
    if cur < last {
      WordGap(cur, last);
    }
  }

  /** Cut the next block off the range. */
  method AddNext(free: FreeLists, cur: nat, last: nat, ghost live: set<Block>, ghost region: iset<nat>)
    returns (size: nat)
    requires free.Valid() && L.Sound(free.lists, live, region) && Cuttable(cur, last) && cur + WORD <= last
    requires forall x: nat :: cur <= x < last ==> x !in region
    modifies free
    ensures size > 0 && Cuttable(cur + size, last)
    ensures |free.lists| == MAX_ORDER && AddAll(free.lists, cur + size, last) == AddAll(old(free.lists), cur, last)
    ensures free.Valid() && L.Sound(free.lists, live, region + Range(cur, cur + size))
    ensures FreeBytes(free.lists) == old(FreeBytes(free.lists)) + size
    ensures LiveWordsKept(live, old(free.mem), free.mem)
  {
    size := GreedySize(cur, last);
    NextIsCuttable(cur, last);
    AddBlock(free, cur, TrailingZeros(size), live, region);
  }

  method AddBlock(free: FreeLists, a: nat, order: nat, ghost live: set<Block>, ghost region: iset<nat>)
    requires free.Valid() && L.Sound(free.lists, live, region) && Block(a, order).Proper()
    requires forall x: nat :: Block(a, order).Covers(x) ==> x !in region
    modifies free
    ensures free.lists == L.Push(old(free.lists), order, a)
    ensures free.Valid() && L.Sound(free.lists, live, region + Range(a, a + Pow2(order)))
    ensures FreeBytes(free.lists) == old(FreeBytes(free.lists)) + Pow2(order)
    ensures LiveWordsKept(live, old(free.mem), free.mem)
  {
    ghost var lists, mem, next := free.lists, free.mem, free.head[order];
    AddedIsSound(lists, live, region, Block(a, order));
    PushBytes(lists, order, a);
    free.Push(order, a);
    OverwriteFree(free.lists, live, region + Range(a, a + Pow2(order)), order, a, mem, next);
  }

  // ------------------------------------------------------------ splitting

  /** Find, split and unlink a block of the given order. */
  method TakeBlock(free: FreeLists, order: nat, ghost live: set<Block>, ghost region: iset<nat>)
    returns (r: Option<nat>)
    requires free.Valid() && L.Sound(free.lists, live, region) && WORD_ORDER <= order
    modifies free
    ensures free.Valid()
    ensures LiveWordsKept(live, old(free.mem), free.mem)
    ensures r.Some? <==> L.Alloc(old(free.lists), order).Some?
    ensures r.Some? ==>
              && (r.value, free.lists) == L.Alloc(old(free.lists), order).value
              && Block(r.value, order).Proper()
              && L.Sound(free.lists, live + {Block(r.value, order)}, region)
    ensures r == None ==> free.lists == old(free.lists)
  {
    L.FirstNonEmptyFinds(free.lists, order);
    var i := FindOrder(free, order);
    if i >= MAX_ORDER {
      return None;
    }
    L.SplitDownKeepsFront(free.lists, i, order);
    L.AllocSound(free.lists, live, region, order);
    Split(free, i, order, live, region);
    r := free.Pop(order);
  }

  /** Split the first block of order `i` until a block of order `order` is in front. */
  method Split(free: FreeLists, i: nat, order: nat, ghost live: set<Block>, ghost region: iset<nat>)
    requires free.Valid() && L.Sound(free.lists, live, region)
    requires WORD_ORDER <= order <= i < MAX_ORDER && free.lists[i] != []
    modifies free
    ensures free.Valid() && free.lists == L.SplitDown(old(free.lists), i, order)
    ensures LiveWordsKept(live, old(free.mem), free.mem)
  {
    var j := i;
    while j > order
      invariant order <= j <= i
      invariant free.Valid() && L.Sound(free.lists, live, region) && free.lists[j] != []
      invariant L.SplitDown(free.lists, j, order) == L.SplitDown(old(free.lists), i, order)
      invariant LiveWordsKept(live, old(free.mem), free.mem)
    {
      SplitOnce(free, j, live, region);
      j := j - 1;
    }
  }

  method SplitOnce(free: FreeLists, j: nat, ghost live: set<Block>, ghost region: iset<nat>)
    requires free.Valid() && L.Sound(free.lists, live, region)
    requires WORD_ORDER < j < MAX_ORDER && free.lists[j] != []
    modifies free
    ensures free.Valid() && L.Sound(free.lists, live, region)
    ensures free.lists == L.SplitStep(old(free.lists), j) && free.lists[j - 1] != []
    ensures LiveWordsKept(live, old(free.mem), free.mem)
  {
    ghost var b, next := free.lists[j][0], free.head[j - 1];
    L.SplitStepSound(free.lists, live, region, j);
    L.SplitStepLists(free.lists, j);
    UnlistedHalves(free.lists, live, region, j);
    SplitWordsKept(free.lists, live, region, j, free.mem, next, b + Pow2(j - 1));
    var block := free.Pop(j);
    free.Push(j - 1, block.value + Pow2(j - 1));
    free.Push(j - 1, block.value);
  }

  /** Both words written by a split lie in the two halves, which are free. */
  lemma {:induction false} SplitWordsKept(lists: L.Lists, live: set<Block>, region: iset<nat>, j: nat,
                                          mem: map<nat, nat>, v: nat, w: nat)
    requires L.Sound(lists, live, region) && WORD_ORDER < j < |lists| && lists[j] != []
    ensures var b := lists[j][0];
            LiveWordsKept(live, mem, mem[b + Pow2(j - 1) := v][b := w])
  {
    var b := lists[j][0];
    var after := L.SplitStep(lists, j);
    L.SplitStepSound(lists, live, region, j);
    L.SplitStepLists(lists, j);
    assert after[j - 1][0] == b && after[j - 1][1] == b + Pow2(j - 1);
    OverwriteFree(after, live, region, j - 1, b + Pow2(j - 1), mem, v);
    OverwriteFree(after, live, region, j - 1, b, mem[b + Pow2(j - 1) := v], w);
  }

  /** Once the first block of order `j` is off its list, neither half is in any list. */
  lemma {:induction false} UnlistedHalves(lists: L.Lists, live: set<Block>, region: iset<nat>, j: nat)
    requires L.Sound(lists, live, region) && WORD_ORDER < j < |lists| && lists[j] != []
    ensures var b := lists[j][0];
            && b != 0
            && forall o :: 0 <= o < |lists| ==> b !in L.Pop(lists, j)[o] && b + Pow2(j - 1) !in L.Pop(lists, j)[o]
  {
    var whole := Block(lists[j][0], j);
    L.TakeSound(lists, live, region, j);
    assert whole in L.Blocks(lists, live);
    forall o | 0 <= o < |lists|
      ensures whole.addr !in L.Pop(lists, j)[o] && whole.addr + Pow2(j - 1) !in L.Pop(lists, j)[o]
    {
      if whole.addr in L.Pop(lists, j)[o] {
        LiveIsUnlisted(L.Pop(lists, j), live + {whole}, region, whole, o, whole.addr);
      }
      if whole.addr + Pow2(j - 1) in L.Pop(lists, j)[o] {
        LiveIsUnlisted(L.Pop(lists, j), live + {whole}, region, whole, o, whole.addr + Pow2(j - 1));
      }
    }
  }

  // ------------------------------------------------------------ merging

  /**
    One round of a release: look for the buddy of the block in front of order `o`
    and, if it is found, join the two and push the result one order up.
   */
  method MergeOnce(free: FreeLists, o: nat, cur: nat, bounded: bool, budget: nat,
                   ghost live: set<Block>, ghost region: iset<nat>)
    returns (merged: bool, inspected: nat)
    requires free.Valid() && L.Sound(free.lists, live, region) && o + 1 < MAX_ORDER
    requires free.lists[o] != [] && free.lists[o][0] == cur && Aligned(cur, o)
    modifies free
    ensures free.Valid() && L.Sound(free.lists, live, region)
    ensures LiveWordsKept(live, old(free.mem), free.mem)
    ensures var s := old(free.lists)[o]; var k := L.IndexOf(s, Buddy(cur, o));
            && (merged <==> k < |s| && (bounded ==> k < budget))
            && inspected == if merged then k + 1 else if bounded && budget < |s| then budget else |s|
    ensures merged ==> Buddy(cur, o) != cur && free.lists == L.MergeStep(old(free.lists), cur, o)
    ensures !merged ==> free.lists == old(free.lists)
  {
    ghost var lists, buddy := free.lists, Buddy(cur, o);
    ghost var k := L.IndexOf(lists[o], buddy);
    ghost var mem := free.mem;
    merged, inspected := free.FindAndUnlink(o, Buddy(cur, o), bounded, budget);
    if merged {
      L.MergeStepOk(lists, cur, o);
      OverwriteFree(lists, live, region, o, lists[o][k - 1], mem, Load(mem, lists[o][k]));
      var front := free.Pop(o);
      var low := if cur < Buddy(cur, o) then cur else Buddy(cur, o);
      JoinedIsUnlisted(lists, live, region, cur, o);
      L.MergeStepSound(lists, live, region, cur, o);
      free.Push(o + 1, low);
      OverwriteFree(lists, live, region, o, low, mem[lists[o][k - 1] := Load(mem, lists[o][k])],
                    old(free.head[o + 1]));
    }
  }

  /** With both buddies off their list, the joined block is in no list. */
  lemma {:induction false} JoinedIsUnlisted(lists: L.Lists, live: set<Block>, region: iset<nat>, cur: nat, o: nat)
    requires L.Sound(lists, live, region) && o + 1 < |lists| && lists[o] != [] && lists[o][0] == cur
    requires L.IndexOf(lists[o], Buddy(cur, o)) < |lists[o]| && Aligned(cur, o) && Buddy(cur, o) != cur
    ensures L.IndexOf(lists[o], Buddy(cur, o)) >= 1
    ensures var k := L.IndexOf(lists[o], Buddy(cur, o));
            var low := if cur < Buddy(cur, o) then cur else Buddy(cur, o);
            var taken := L.Pop(lists[o := L.RemoveAt(lists[o], k)], o);
            && low in lists[o] && low != 0
            && forall p :: 0 <= p < |taken| ==> low !in taken[p]
  {
    L.MergeStepOk(lists, cur, o);
    L.MergeStepLists(lists, cur, o);
    L.IndexOfFinds(lists[o], Buddy(cur, o));
    var low := if cur < Buddy(cur, o) then cur else Buddy(cur, o);
    var blocks := L.Blocks(lists, live);
    assert Block(low, o) in blocks;
    forall p | 0 <= p < |lists| && p != o ensures low !in lists[p] {
      if low in lists[p] {
        assert Block(low, p) in blocks;
        DistinctStarts(blocks, region, Block(low, o), Block(low, p));
      }
    }
  }

  /** Push a released block and run the merge rounds. */
  method PushAndMerge(free: FreeLists, ptr: nat, order: nat, bounded: bool, budget: nat,
                      ghost live: set<Block>, ghost region: iset<nat>)
    returns (ghost inspected: nat)
    requires free.Valid() && L.Sound(free.lists, live, region) && Block(ptr, order) in live
    modifies free
    ensures free.Valid() && order < MAX_ORDER && Aligned(ptr, order)
    ensures LiveWordsKept(live - {Block(ptr, order)}, old(free.mem), free.mem)
    ensures bounded ==> (free.lists, inspected) == L.DeallocBounded(old(free.lists), ptr, order, budget)
    ensures !bounded ==> free.lists == L.Dealloc(old(free.lists), ptr, order)
  {
    ghost var rest := live - {Block(ptr, order)};
    ReleasedIsUnlisted(free.lists, live, region, Block(ptr, order));
    L.GiveSound(free.lists, live, region, Block(ptr, order));
    ghost var mem, next := free.mem, free.head[order];
    free.Push(order, ptr);
    OverwriteFree(free.lists, rest, region, order, ptr, mem, next);
    inspected := MergeRounds(free, ptr, order, bounded, budget, rest, region);
  }

  lemma {:induction false} ReleasedIsUnlisted(lists: L.Lists, live: set<Block>, region: iset<nat>, b: Block)
    requires L.Sound(lists, live, region) && b in live
    ensures b.Proper()
    ensures forall o :: 0 <= o < |lists| ==> b.addr !in lists[o]
  {
    assert b in L.Blocks(lists, live);
    forall o | 0 <= o < |lists| ensures b.addr !in lists[o] {
      if b.addr in lists[o] { LiveIsUnlisted(lists, live, region, b, o, b.addr); }
    }
  }

  method MergeRounds(free: FreeLists, ptr: nat, order: nat, bounded: bool, budget: nat,
                     ghost live: set<Block>, ghost region: iset<nat>)
    returns (ghost inspected: nat)
    requires free.Valid() && L.Sound(free.lists, live, region) && order < MAX_ORDER && Aligned(ptr, order)
    requires free.lists[order] != [] && free.lists[order][0] == ptr
    modifies free
    ensures free.Valid() && LiveWordsKept(live, old(free.mem), free.mem)
    ensures (free.lists, inspected) == Rounds(old(free.lists), ptr, order, bounded, budget)
  {
    var cur: nat, o: nat, remaining: nat := ptr, order, budget;
    inspected := 0;
    while o + 1 < MAX_ORDER && (!bounded || remaining != 0)
      invariant o < MAX_ORDER && Aligned(cur, o)
      invariant free.Valid() && L.Sound(free.lists, live, region)
      invariant free.lists[o] != [] && free.lists[o][0] == cur
      invariant LiveWordsKept(live, old(free.mem), free.mem)
      invariant AddNodes(Rounds(free.lists, cur, o, bounded, remaining), inspected)
                == Rounds(old(free.lists), ptr, order, bounded, budget)
      decreases MAX_ORDER - o
    {
      var merged, n := OneRound(free, o, cur, bounded, remaining, live, region);
      inspected := inspected + n;
      if !merged {
        return;
      }
      remaining := remaining - n;
      cur := if cur < Buddy(cur, o) then cur else Buddy(cur, o);
      o := o + 1;
    }
  }

  /** One round, with `n` the part of the budget it uses. */
  method OneRound(free: FreeLists, o: nat, cur: nat, bounded: bool, budget: nat,
                  ghost live: set<Block>, ghost region: iset<nat>)
    returns (merged: bool, n: nat)
    requires free.Valid() && L.Sound(free.lists, live, region) && o + 1 < MAX_ORDER
    requires free.lists[o] != [] && free.lists[o][0] == cur && Aligned(cur, o) && (bounded ==> budget != 0)
    modifies free
    ensures free.Valid() && L.Sound(free.lists, live, region)
    ensures LiveWordsKept(live, old(free.mem), free.mem)
    ensures n <= budget || !merged
    ensures merged ==>
              var low := if cur < Buddy(cur, o) then cur else Buddy(cur, o);
              && Aligned(low, o + 1) && free.lists[o + 1] != [] && free.lists[o + 1][0] == low
              && AddNodes(Rounds(free.lists, low, o + 1, bounded, budget - n), n)
                 == Rounds(old(free.lists), cur, o, bounded, budget)
    ensures !merged ==> Rounds(old(free.lists), cur, o, bounded, budget) == (free.lists, n)
  {
    ghost var lists := free.lists;
    merged, n := MergeOnce(free, o, cur, bounded, budget, live, region);
    RoundResult(lists, cur, o, bounded, budget, merged, n);
    n := if bounded then n else 0;
  }

  ghost function AddNodes(r: (L.Lists, nat), n: nat): (L.Lists, nat) { (r.0, r.1 + n) }

  /** The lists after all rounds, and the nodes a bounded release looks at. */
  ghost function Rounds(lists: L.Lists, cur: nat, o: nat, bounded: bool, budget: nat): (L.Lists, nat)
    requires o < |lists| && lists[o] != [] && lists[o][0] == cur && Aligned(cur, o)
  {
    if bounded then L.MergeUpBounded(lists, cur, o, budget) else (L.MergeUp(lists, cur, o), 0)
  }

  /** How one round relates to the rounds that are left. */
  lemma {:induction false} RoundResult(lists: L.Lists, cur: nat, o: nat, bounded: bool, budget: nat, merged: bool,
                                       n: nat)
    requires o + 1 < |lists| && lists[o] != [] && lists[o][0] == cur && Aligned(cur, o)
    requires bounded ==> budget != 0
    requires var s := lists[o]; var k := L.IndexOf(s, Buddy(cur, o));
             && (merged <==> k < |s| && (bounded ==> k < budget))
             && n == if merged then k + 1 else if bounded && budget < |s| then budget else |s|
    ensures var counted := if bounded then n else 0;
            var low := if cur < Buddy(cur, o) then cur else Buddy(cur, o);
            if merged then
              && Buddy(cur, o) != cur && Aligned(low, o + 1) && (bounded ==> n <= budget)
              && var after := L.MergeStep(lists, cur, o);
              && after[o + 1] != [] && after[o + 1][0] == low
              && AddNodes(Rounds(after, low, o + 1, bounded, if bounded then budget - n else budget), counted)
                 == Rounds(lists, cur, o, bounded, budget)
            else Rounds(lists, cur, o, bounded, budget) == (lists, counted)
  {
    if merged { L.MergeStepOk(lists, cur, o); }
  }
}
