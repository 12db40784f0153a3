/**
  Allocation and release on the free lists themselves, one sequence of block
  addresses per order. These functions are what the heap in memory is proved
  to compute; the lemmas say what they mean for the memory behind the lists.
 */
module BuddyLists {
  import opened Basics
  import opened BuddyBits
  import opened BuddyTiling

  type Lists = seq<seq<nat>>

  predicate NoDup(s: seq<nat>) {
    forall i, j :: 0 <= i < j < |s| ==> s[i] != s[j]
  }

  predicate IsFree(lists: Lists, b: Block) {
    b.order < |lists| && b.addr in lists[b.order]
  }

  /** Every block the heap owns, free or handed out. */
  ghost function Blocks(lists: Lists, live: set<Block>): iset<Block> {
    iset b: Block | IsFree(lists, b) || b in live
  }

  /** Free and live blocks together tile the region, and no block is both. */
  ghost predicate Sound(lists: Lists, live: set<Block>, region: iset<nat>) {
    && |lists| == MAX_ORDER
    && (forall o :: 0 <= o < |lists| ==> NoDup(lists[o]))
    && (forall b :: b in live ==> !IsFree(lists, b))
    && Tiling(Blocks(lists, live), region)
  }

  /** A byte the heap may still hand out. */
  ghost predicate FreeByte(lists: Lists, x: nat) {
    exists b: Block :: IsFree(lists, b) && b.Covers(x)
  }

  /** No two free blocks could still be joined below the top order. */
  ghost predicate NoBuddyPairs(lists: Lists) {
    forall o, a: nat :: 0 <= o && o + 1 < |lists| && a in lists[o] ==> Buddy(a, o) !in lists[o]
  }

  // ------------------------------------------------------------ operations

  function EmptyLists(): Lists { seq(MAX_ORDER, _ => []) }

  function Push(lists: Lists, o: nat, a: nat): Lists
    requires o < |lists|
  {
    lists[o := [a] + lists[o]]
  }

  function Pop(lists: Lists, o: nat): Lists
    requires o < |lists| && lists[o] != []
  {
    lists[o := lists[o][1..]]
  }

  function RemoveAt(s: seq<nat>, k: nat): seq<nat>
    requires k < |s|
  {
    s[..k] + s[k + 1..]
  }

  /** The position of `a`, or the length of the list when it is absent. */
  function IndexOf(s: seq<nat>, a: nat): (k: nat)
    ensures k <= |s|
  {
    if s == [] || s[0] == a then 0 else 1 + IndexOf(s[1..], a)
  }

  function FirstNonEmpty(lists: Lists, order: nat): nat
    decreases |lists| - order
  {
    if order >= |lists| then |lists|
    else if lists[order] != [] then order
    else FirstNonEmpty(lists, order + 1)
  }

  /** Split the first block of order `j` and put both halves in front of order `j - 1`. */
  function SplitStep(lists: Lists, j: nat): Lists
    requires 0 < j < |lists| && lists[j] != []
  {
    var b := lists[j][0];
    Push(Push(Pop(lists, j), j - 1, b + Pow2(j - 1)), j - 1, b)
  }

  function SplitDown(lists: Lists, j: nat, order: nat): Lists
    requires order <= j < |lists| && lists[j] != []
    decreases j
  {
    if j == order then lists else SplitDown(SplitStep(lists, j), j - 1, order)
  }

  lemma {:induction false} FirstNonEmptyFinds(lists: Lists, order: nat)
    ensures var i := FirstNonEmpty(lists, order);
            && order <= |lists| ==> order <= i <= |lists|
    ensures var i := FirstNonEmpty(lists, order);
            i < |lists| ==> order <= i && lists[i] != []
    ensures forall j :: order <= j < FirstNonEmpty(lists, order) && j < |lists| ==> lists[j] == []
    decreases |lists| - order
  {
    if order < |lists| && lists[order] == [] {
      FirstNonEmptyFinds(lists, order + 1);
    }
  }

  lemma {:induction false} SplitDownKeepsFront(lists: Lists, j: nat, order: nat)
    requires order <= j < |lists| && lists[j] != []
    ensures |SplitDown(lists, j, order)| == |lists| && SplitDown(lists, j, order)[order] != []
    ensures SplitDown(lists, j, order)[order][0] == lists[j][0]
    decreases j
  {
    if j > order { SplitDownKeepsFront(SplitStep(lists, j), j - 1, order); }
  }

  /** The block and the lists after an allocation of order `order`, if any block is large enough. */
  function Alloc(lists: Lists, order: nat): Option<(nat, Lists)> {
    FirstNonEmptyFinds(lists, order);
    var i := FirstNonEmpty(lists, order);
    if i >= |lists| then None
    else
      SplitDownKeepsFront(lists, i, order);
      var split := SplitDown(lists, i, order);
      Some((split[order][0], Pop(split, order)))
  }

  /** Join the first block of order `o` with its buddy for as long as the buddy is free. */
  function MergeUp(lists: Lists, cur: nat, o: nat): Lists
    requires o < |lists| && lists[o] != [] && lists[o][0] == cur && Aligned(cur, o)
    decreases |lists| - o
  {
    var buddy := Buddy(cur, o);
    var k := IndexOf(lists[o], buddy);
    if o + 1 >= |lists| || k == |lists[o]| then lists
    else
      MergeStepOk(lists, cur, o);
      var low := if cur < buddy then cur else buddy;
      MergeUp(MergeStep(lists, cur, o), low, o + 1)
  }

  /** Unlink the buddy, take the block off the front, and push the joined block one order up. */
  function MergeStep(lists: Lists, cur: nat, o: nat): Lists
    requires o + 1 < |lists| && IndexOf(lists[o], Buddy(cur, o)) < |lists[o]|
    requires lists[o] != [] && lists[o][0] == cur && Buddy(cur, o) != cur
  {
    var buddy := Buddy(cur, o);
    var k := IndexOf(lists[o], buddy);
    var low := if cur < buddy then cur else buddy;
    Push(Pop(lists[o := RemoveAt(lists[o], k)], o), o + 1, low)
  }

  function Dealloc(lists: Lists, ptr: nat, order: nat): Lists
    requires order < |lists| && Aligned(ptr, order)
  {
    MergeUp(Push(lists, order, ptr), ptr, order)
  }

  /** Release with a bound on the number of list nodes looked at; also the nodes looked at. */
  function MergeUpBounded(lists: Lists, cur: nat, o: nat, budget: nat): (Lists, nat)
    requires o < |lists| && lists[o] != [] && lists[o][0] == cur && Aligned(cur, o)
    decreases |lists| - o
  {
    var buddy := Buddy(cur, o);
    var k := IndexOf(lists[o], buddy);
    if o + 1 >= |lists| || budget == 0 then (lists, 0)
    else if k == |lists[o]| || k >= budget then (lists, if |lists[o]| <= budget then |lists[o]| else budget)
    else
      MergeStepOk(lists, cur, o);
      var low := if cur < buddy then cur else buddy;
      var (after, inspected) := MergeUpBounded(MergeStep(lists, cur, o), low, o + 1, budget - (k + 1));
      (after, inspected + k + 1)
  }

  function DeallocBounded(lists: Lists, ptr: nat, order: nat, budget: nat): (Lists, nat)
    requires order < |lists| && Aligned(ptr, order)
  {
    MergeUpBounded(Push(lists, order, ptr), ptr, order, budget)
  }

  lemma {:induction false} IndexOfFinds(s: seq<nat>, a: nat)
    ensures IndexOf(s, a) <= |s|
    ensures a in s <==> IndexOf(s, a) < |s|
    ensures IndexOf(s, a) < |s| ==> s[IndexOf(s, a)] == a
    ensures a !in s[..IndexOf(s, a)]
  {
    if s != [] && s[0] != a {
      IndexOfFinds(s[1..], a);
      assert s == [s[0]] + s[1..];
      var n := IndexOf(s[1..], a);
      assert s[..n + 1] == [s[0]] + s[1..][..n];
    }
  }

  lemma {:induction false} MergeStepOk(lists: Lists, cur: nat, o: nat)
    requires o + 1 < |lists| && IndexOf(lists[o], Buddy(cur, o)) < |lists[o]|
    requires lists[o] != [] && lists[o][0] == cur && Aligned(cur, o)
    ensures Buddy(cur, o) != cur && IndexOf(lists[o], Buddy(cur, o)) >= 1
    ensures var low := if cur < Buddy(cur, o) then cur else Buddy(cur, o);
            && Aligned(low, o + 1)
            && MergeStep(lists, cur, o)[o + 1] == [low] + lists[o + 1]
            && MergeStep(lists, cur, o)[o] == RemoveAt(lists[o], IndexOf(lists[o], Buddy(cur, o)))[1..]
  {
    BuddyInvolution(cur, o);
    BuddyOf(cur, o);
  }

  // ------------------------------------------------------------ soundness

  lemma {:induction false} RemoveAtMembers(s: seq<nat>, k: nat)
    requires NoDup(s) && k < |s|
    ensures NoDup(RemoveAt(s, k))
    ensures forall a :: a in RemoveAt(s, k) <==> a in s && a != s[k]
  {
    var r := RemoveAt(s, k);
    forall a | a in s && a != s[k] ensures a in r {
      var i :| 0 <= i < |s| && s[i] == a;
      assert r[if i < k then i else i - 1] == a;
    }
  }

  /** Splitting the first block of order `j` splits that block of the tiling. */
  lemma {:induction false} SplitStepSound(lists: Lists, live: set<Block>, region: iset<nat>, j: nat)
    requires Sound(lists, live, region) && WORD_ORDER < j < |lists| && lists[j] != []
    ensures Sound(SplitStep(lists, j), live, region)
  {
    var whole := Block(lists[j][0], j);
    var after := SplitStep(lists, j);
    var before := Blocks(lists, live);
    SplitTiling(before, region, whole);
    HalvesAreNew(before, region, whole);
    SplitStepLists(lists, j);
    assert Blocks(after, live) == SplitBlock(before, whole) by {
      forall b: Block ensures b in Blocks(after, live) <==> b in SplitBlock(before, whole) {
        SplitStepMember(lists, live, j, b);
      }
    }
    SplitStepNoDup(lists, live, region, j);
  }

  lemma {:induction false} SplitStepLists(lists: Lists, j: nat)
    requires 0 < j < |lists| && lists[j] != []
    ensures var b := lists[j][0];
            && |SplitStep(lists, j)| == |lists|
            && SplitStep(lists, j)[j] == lists[j][1..]
            && SplitStep(lists, j)[j - 1] == [b, b + Pow2(j - 1)] + lists[j - 1]
            && forall o :: 0 <= o < |lists| && o != j && o != j - 1 ==> SplitStep(lists, j)[o] == lists[o]
  {
    var b := lists[j][0];
    assert [b] + ([b + Pow2(j - 1)] + lists[j - 1]) == [b, b + Pow2(j - 1)] + lists[j - 1];
  }

  /** The halves of a tile are not tiles themselves. */
  lemma {:induction false} HalvesAreNew(blocks: iset<Block>, region: iset<nat>, whole: Block)
    requires Tiling(blocks, region) && whole in blocks && whole.order > 0
    ensures Lower(whole) !in blocks && Upper(whole) !in blocks
  {
    assert !Apart(whole, Lower(whole)) && !Apart(whole, Upper(whole));
  }

  lemma {:induction false} SplitStepMember(lists: Lists, live: set<Block>, j: nat, b: Block)
    requires 0 < j < |lists| && lists[j] != [] && NoDup(lists[j])
    requires Block(lists[j][0], j) !in live
    ensures var whole := Block(lists[j][0], j);
            b in Blocks(SplitStep(lists, j), live) <==> b in SplitBlock(Blocks(lists, live), whole)
  {
    SplitStepLists(lists, j);
    var whole := Block(lists[j][0], j);
    if b.order == j {
      assert lists[j] == [lists[j][0]] + lists[j][1..];
      assert b.addr in lists[j][1..] <==> b.addr in lists[j] && b.addr != lists[j][0];
    }
  }

  lemma {:induction false} SplitStepNoDup(lists: Lists, live: set<Block>, region: iset<nat>, j: nat)
    requires Sound(lists, live, region) && WORD_ORDER < j < |lists| && lists[j] != []
    requires var whole := Block(lists[j][0], j);
             Lower(whole) !in Blocks(lists, live) && Upper(whole) !in Blocks(lists, live)
    ensures forall o :: 0 <= o < |lists| ==> NoDup(SplitStep(lists, j)[o])
    ensures forall b :: b in live ==> !IsFree(SplitStep(lists, j), b)
  {
    SplitStepLists(lists, j);
    var whole := Block(lists[j][0], j);
    assert Lower(whole).addr !in lists[j - 1] && Upper(whole).addr !in lists[j - 1];
    forall b | b in live ensures !IsFree(SplitStep(lists, j), b) {
      if b.order == j { assert b.addr !in lists[j][1..]; }
    }
  }

  lemma {:induction false} SplitDownSound(lists: Lists, live: set<Block>, region: iset<nat>, j: nat, order: nat)
    requires Sound(lists, live, region) && WORD_ORDER <= order <= j < |lists| && lists[j] != []
    ensures Sound(SplitDown(lists, j, order), live, region)
    decreases j
  {
    if j > order {
      SplitStepSound(lists, live, region, j);
      SplitStepLists(lists, j);
      SplitDownSound(SplitStep(lists, j), live, region, j - 1, order);
    }
  }

  /** Taking the first free block of an order only changes its role. */
  lemma {:induction false} TakeSound(lists: Lists, live: set<Block>, region: iset<nat>, o: nat)
    requires Sound(lists, live, region) && o < |lists| && lists[o] != []
    ensures Sound(Pop(lists, o), live + {Block(lists[o][0], o)}, region)
  {
    var b := Block(lists[o][0], o);
    assert lists[o] == [b.addr] + lists[o][1..];
    assert b.addr !in lists[o][1..];
    assert Blocks(Pop(lists, o), live + {b}) == Blocks(lists, live) by {
      forall c: Block ensures c in Blocks(Pop(lists, o), live + {b}) <==> c in Blocks(lists, live) {
      }
    }
  }

  /** Putting a live block in front of the free list of its order only changes its role. */
  lemma {:induction false} GiveSound(lists: Lists, live: set<Block>, region: iset<nat>, b: Block)
    requires Sound(lists, live, region) && b in live
    ensures b.order < |lists| && Sound(Push(lists, b.order, b.addr), live - {b}, region)
  {
    assert b in Blocks(lists, live);
    assert b.addr !in lists[b.order];
    assert Blocks(Push(lists, b.order, b.addr), live - {b}) == Blocks(lists, live) by {
      forall c: Block
        ensures c in Blocks(Push(lists, b.order, b.addr), live - {b}) <==> c in Blocks(lists, live)
      {
      }
    }
  }

  /** An allocation hands out bytes that were free and keeps the tiling of the region. */
  lemma {:induction false} AllocSound(lists: Lists, live: set<Block>, region: iset<nat>, order: nat)
    requires Sound(lists, live, region) && WORD_ORDER <= order && Alloc(lists, order).Some?
    ensures var (p, after) := Alloc(lists, order).value;
            && Block(p, order) !in live && Block(p, order).Proper()
            && Sound(after, live + {Block(p, order)}, region)
            && forall x: nat :: Block(p, order).Covers(x) ==> FreeByte(lists, x)
  {
    FirstNonEmptyFinds(lists, order);
    var i := FirstNonEmpty(lists, order);
    SplitDownSound(lists, live, region, i, order);
    SplitDownKeepsFront(lists, i, order);
    var split := SplitDown(lists, i, order);
    var b := Block(split[order][0], order);
    TakeSound(split, live, region, order);
    assert IsFree(split, b) && b in Blocks(split, live);
    Pow2Monotone(order, i);
    forall x: nat | b.Covers(x) ensures FreeByte(lists, x) {
      assert IsFree(lists, Block(lists[i][0], i)) && Block(lists[i][0], i).Covers(x);
    }
  }

  /** An allocation fails exactly when every list from its order up is empty. */
  lemma {:induction false} AllocFails(lists: Lists, order: nat)
    ensures Alloc(lists, order) == None <==> forall j :: order <= j < |lists| ==> lists[j] == []
  {
    FirstNonEmptyFinds(lists, order);
  }

  lemma {:induction false} MergeStepSound(lists: Lists, live: set<Block>, region: iset<nat>, cur: nat, o: nat)
    requires Sound(lists, live, region) && o + 1 < |lists| && lists[o] != [] && lists[o][0] == cur
    requires IndexOf(lists[o], Buddy(cur, o)) < |lists[o]| && Aligned(cur, o)
    requires Buddy(cur, o) != cur
    ensures Sound(MergeStep(lists, cur, o), live, region)
  {
    var buddy := Buddy(cur, o);
    IndexOfFinds(lists[o], buddy);
    MergeStepOk(lists, cur, o);
    BuddyOf(cur, o);
    var low := if cur < buddy then cur else buddy;
    var whole := Block(low, o + 1);
    var before := Blocks(lists, live);
    assert IsFree(lists, Block(cur, o)) && IsFree(lists, Block(buddy, o));
    assert Lower(whole) in before && Upper(whole) in before;
    JoinTiling(before, region, whole);
    assert whole !in before by { assert !Apart(whole, Lower(whole)); }
    MergeStepLists(lists, cur, o);
    assert Blocks(MergeStep(lists, cur, o), live) == JoinBlock(before, whole) by {
      forall b: Block ensures b in Blocks(MergeStep(lists, cur, o), live) <==> b in JoinBlock(before, whole) {
        MergeStepMember(lists, live, cur, o, b);
      }
    }
    MergeStepNoDup(lists, live, cur, o);
  }

  lemma {:induction false} MergeStepLists(lists: Lists, cur: nat, o: nat)
    requires o + 1 < |lists| && lists[o] != [] && lists[o][0] == cur && NoDup(lists[o])
    requires IndexOf(lists[o], Buddy(cur, o)) < |lists[o]| && Aligned(cur, o) && Buddy(cur, o) != cur
    ensures var after := MergeStep(lists, cur, o);
            && |after| == |lists|
            && NoDup(after[o])
            && (forall a :: a in after[o] <==> a in lists[o] && a != cur && a != Buddy(cur, o))
            && forall p :: 0 <= p < |lists| && p != o && p != o + 1 ==> after[p] == lists[p]
  {
    var k := IndexOf(lists[o], Buddy(cur, o));
    IndexOfFinds(lists[o], Buddy(cur, o));
    MergeStepOk(lists, cur, o);
    var removed := RemoveAt(lists[o], k);
    RemoveAtMembers(lists[o], k);
    assert removed[0] == cur;
    RemoveAtMembers(removed, 0);
    assert RemoveAt(removed, 0) == removed[1..];
  }

  lemma {:induction false} MergeStepMember(lists: Lists, live: set<Block>, cur: nat, o: nat, b: Block)
    requires o + 1 < |lists| && lists[o] != [] && lists[o][0] == cur && NoDup(lists[o])
    requires IndexOf(lists[o], Buddy(cur, o)) < |lists[o]| && Aligned(cur, o) && Buddy(cur, o) != cur
    requires Block(cur, o) !in live && Block(Buddy(cur, o), o) !in live
    ensures var low := if cur < Buddy(cur, o) then cur else Buddy(cur, o);
            b in Blocks(MergeStep(lists, cur, o), live) <==> b in JoinBlock(Blocks(lists, live), Block(low, o + 1))
  {
    MergeStepLists(lists, cur, o);
    MergeStepOk(lists, cur, o);
    BuddyOf(cur, o);
  }

  lemma {:induction false} MergeStepNoDup(lists: Lists, live: set<Block>, cur: nat, o: nat)
    requires o + 1 < |lists| && lists[o] != [] && lists[o][0] == cur
    requires forall p :: 0 <= p < |lists| ==> NoDup(lists[p])
    requires IndexOf(lists[o], Buddy(cur, o)) < |lists[o]| && Aligned(cur, o) && Buddy(cur, o) != cur
    requires forall b :: b in live ==> !IsFree(lists, b)
    requires var low := if cur < Buddy(cur, o) then cur else Buddy(cur, o);
             Block(low, o + 1) !in Blocks(lists, live)
    ensures forall p :: 0 <= p < |lists| ==> NoDup(MergeStep(lists, cur, o)[p])
    ensures forall b :: b in live ==> !IsFree(MergeStep(lists, cur, o), b)
  {
    MergeStepLists(lists, cur, o);
    MergeStepOk(lists, cur, o);
    var low := if cur < Buddy(cur, o) then cur else Buddy(cur, o);
    assert low !in lists[o + 1] by { assert !IsFree(lists, Block(low, o + 1)); }
  }

  lemma {:induction false} MergeUpSound(lists: Lists, live: set<Block>, region: iset<nat>, cur: nat, o: nat)
    requires Sound(lists, live, region) && o < |lists| && lists[o] != [] && lists[o][0] == cur && Aligned(cur, o)
    ensures Sound(MergeUp(lists, cur, o), live, region)
    decreases |lists| - o
  {
    var buddy := Buddy(cur, o);
    if o + 1 < |lists| && IndexOf(lists[o], buddy) < |lists[o]| {
      MergeStepOk(lists, cur, o);
      MergeStepSound(lists, live, region, cur, o);
      MergeUpSound(MergeStep(lists, cur, o), live, region, if cur < buddy then cur else buddy, o + 1);
    }
  }

  /** Releasing a live block keeps the tiling of the region, whatever merges follow. */
  lemma {:induction false} DeallocSound(lists: Lists, live: set<Block>, region: iset<nat>, b: Block)
    requires Sound(lists, live, region) && b in live
    ensures b.order < |lists| && Aligned(b.addr, b.order)
    ensures Sound(Dealloc(lists, b.addr, b.order), live - {b}, region)
  {
    assert b in Blocks(lists, live);
    GiveSound(lists, live, region, b);
    MergeUpSound(Push(lists, b.order, b.addr), live - {b}, region, b.addr, b.order);
  }

  lemma {:induction false} MergeUpBoundedSound(lists: Lists, live: set<Block>, region: iset<nat>,
                                               cur: nat, o: nat, budget: nat)
    requires Sound(lists, live, region) && o < |lists| && lists[o] != [] && lists[o][0] == cur && Aligned(cur, o)
    ensures Sound(MergeUpBounded(lists, cur, o, budget).0, live, region)
    decreases |lists| - o
  {
    var buddy := Buddy(cur, o);
    var k := IndexOf(lists[o], buddy);
    if o + 1 < |lists| && k < |lists[o]| && k < budget {
      MergeStepOk(lists, cur, o);
      MergeStepSound(lists, live, region, cur, o);
      MergeUpBoundedSound(MergeStep(lists, cur, o), live, region, if cur < buddy then cur else buddy, o + 1,
                          budget - (k + 1));
    }
  }

  /** The free bytes are the bytes of the region that no live block covers. */
  lemma {:induction false} FreeBytesAreTheRest(lists: Lists, live: set<Block>, region: iset<nat>, x: nat)
    requires Sound(lists, live, region)
    ensures FreeByte(lists, x) <==> x in region && forall b :: b in live ==> !b.Covers(x)
  {
    var blocks := Blocks(lists, live);
    if FreeByte(lists, x) {
      var b: Block :| IsFree(lists, b) && b.Covers(x);
      assert b in blocks && Covered(blocks, x);
      forall c | c in live ensures !c.Covers(x) { assert c in blocks && Apart(b, c); }
    }
    if x in region && forall b :: b in live ==> !b.Covers(x) {
      var b :| b in blocks && b.Covers(x);
      assert IsFree(lists, b);
    }
  }

  /** Whatever its budget, a bounded release frees exactly the bytes an unbounded one frees. */
  lemma {:induction false} BoundedFreesSameBytes(lists: Lists, live: set<Block>, region: iset<nat>,
                                                 b: Block, budget: nat, x: nat)
    requires Sound(lists, live, region) && b in live
    ensures b.order < |lists| && Aligned(b.addr, b.order)
    ensures Sound(DeallocBounded(lists, b.addr, b.order, budget).0, live - {b}, region)
    ensures FreeByte(DeallocBounded(lists, b.addr, b.order, budget).0, x)
            <==> FreeByte(Dealloc(lists, b.addr, b.order), x)
  {
    assert b in Blocks(lists, live);
    GiveSound(lists, live, region, b);
    MergeUpBoundedSound(Push(lists, b.order, b.addr), live - {b}, region, b.addr, b.order, budget);
    DeallocSound(lists, live, region, b);
    FreeBytesAreTheRest(DeallocBounded(lists, b.addr, b.order, budget).0, live - {b}, region, x);
    FreeBytesAreTheRest(Dealloc(lists, b.addr, b.order), live - {b}, region, x);
  }
}
