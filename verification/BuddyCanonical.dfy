/**
  Coalescing: allocation and release never leave two free buddies below the top
  order, an allocation followed by its release restores every free list, and a
  bounded release with a large enough budget is the unbounded one.
 */
module BuddyCanonical {
  import opened Basics
  import opened BuddyBits
  import opened BuddyTiling
  import opened BuddyLists

  /** Every address in a free list is aligned to its order. */
  predicate AllAligned(lists: Lists) {
    forall o, a: nat :: 0 <= o < |lists| && a in lists[o] ==> Aligned(a, o)
  }

  lemma SoundIsAligned(lists: Lists, live: set<Block>, region: iset<nat>)
    requires Sound(lists, live, region)
    ensures AllAligned(lists)
  {
    forall o, a: nat | 0 <= o < |lists| && a in lists[o] ensures Aligned(a, o) {
      assert Block(a, o) in Blocks(lists, live);
    }
  }

  // ------------------------------------------------------------ what a split leaves

  /** After the split, each order below `j` down to `order` keeps one upper half. */
  lemma {:induction false} SplitShape(lists: Lists, j: nat, order: nat)
    requires order <= j < |lists| && lists[j] != []
    requires forall k :: order <= k < j ==> lists[k] == []
    ensures var b := lists[j][0]; var split := SplitDown(lists, j, order);
            && |split| == |lists| && split[order] != [] && split[order][0] == b
            && Pop(split, order)[j] == lists[j][1..]
            && (forall k :: order <= k < j ==> Pop(split, order)[k] == [b + Pow2(k)])
            && (forall k :: 0 <= k < |lists| && (k < order || j < k) ==> Pop(split, order)[k] == lists[k])
    decreases j
  {
    if j > order {
      var next := SplitStep(lists, j);
      SplitStepLists(lists, j);
      assert next[j - 1] == [lists[j][0], lists[j][0] + Pow2(j - 1)];
      SplitShape(next, j - 1, order);
      assert next[j - 1][1..] == [lists[j][0] + Pow2(j - 1)];
    }
  }

  /** Joining upwards undoes such a split. */
  lemma {:induction false} MergeRestores(original: Lists, lists: Lists, b: nat, o: nat, j: nat)
    requires NoBuddyPairs(original) && Aligned(b, j)
    requires |lists| == |original| && o <= j < |lists|
    requires forall k :: 0 <= k < |lists| && (k < o || j < k) ==> lists[k] == original[k]
    requires forall k :: o <= k < j ==> lists[k] == [b + Pow2(k)] && original[k] == []
    requires original[j] == [b] + lists[j]
    ensures Aligned(b, o)
    ensures Dealloc(lists, b, o) == original
    decreases j - o
  {
    AlignedWeaken(b, o, j);
    var pushed := Push(lists, o, b);
    if o == j {
      assert pushed == original;
      IndexOfFinds(original[j], Buddy(b, j));
    } else {
      AlignedWeaken(b, o + 1, j);
      Halves(b, o);
      assert pushed[o] == [b, b + Pow2(o)];
      assert IndexOf(pushed[o], b + Pow2(o)) == 1 by { assert pushed[o][1..] == [b + Pow2(o)]; }
      MergeStepOk(pushed, b, o);
      var emptied := lists[o := []];
      assert MergeStep(pushed, b, o) == Push(emptied, o + 1, b);
      MergeRestores(original, emptied, b, o + 1, j);
    }
  }

  /** From a heap with no free buddy pair, releasing what was just allocated restores every list. */
  lemma {:induction false} AllocThenDeallocRestores(lists: Lists, order: nat)
    requires NoBuddyPairs(lists) && AllAligned(lists) && Alloc(lists, order).Some?
    ensures var (p, after) := Alloc(lists, order).value;
            && order < |after| && Aligned(p, order) && Dealloc(after, p, order) == lists
  {
    FirstNonEmptyFinds(lists, order);
    var i := FirstNonEmpty(lists, order);
    SplitShape(lists, i, order);
    var (p, after) := Alloc(lists, order).value;
    assert p == lists[i][0] && lists[i] == [p] + lists[i][1..];
    MergeRestores(lists, after, p, order, i);
  }

  // ------------------------------------------------------------ no pair is left

  lemma {:induction false} AllocLeavesNoPair(lists: Lists, order: nat)
    requires NoBuddyPairs(lists) && AllAligned(lists) && Alloc(lists, order).Some?
    ensures NoBuddyPairs(Alloc(lists, order).value.1)
  {
    FirstNonEmptyFinds(lists, order);
    var i := FirstNonEmpty(lists, order);
    SplitShape(lists, i, order);
    var (p, after) := Alloc(lists, order).value;
    forall o, a: nat | 0 <= o && o + 1 < |after| && a in after[o] ensures Buddy(a, o) !in after[o] {
      if order <= o < i {
        assert a == p + Pow2(o);
        assert Aligned(p, i);
        AlignedWeaken(p, o + 1, i);
        Halves(p, o);
      } else {
        assert a in lists[o];
      }
    }
  }

  /** The only possible pair of `lists` is one that contains its first block of order `o`. */
  ghost predicate NoOtherPairs(lists: Lists, o: nat)
    requires o < |lists| && lists[o] != []
  {
    && (forall p, a: nat :: 0 <= p && p + 1 < |lists| && p != o && a in lists[p] ==> Buddy(a, p) !in lists[p])
    && (forall a: nat :: o + 1 < |lists| && a in lists[o][1..] ==> Buddy(a, o) !in lists[o][1..])
  }

  lemma {:induction false} MergeUpLeavesNoPair(lists: Lists, live: set<Block>, region: iset<nat>, cur: nat, o: nat)
    requires Sound(lists, live, region) && o < |lists| && lists[o] != [] && lists[o][0] == cur && Aligned(cur, o)
    requires NoOtherPairs(lists, o)
    ensures NoBuddyPairs(MergeUp(lists, cur, o))
    decreases |lists| - o
  {
    var buddy := Buddy(cur, o);
    IndexOfFinds(lists[o], buddy);
    if o + 1 < |lists| && buddy in lists[o] {
      MergeStepOk(lists, cur, o);
      MergeStepSound(lists, live, region, cur, o);
      StepLeavesNoOtherPairs(lists, cur, o);
      MergeUpLeavesNoPair(MergeStep(lists, cur, o), live, region, if cur < buddy then cur else buddy, o + 1);
    } else {
      SoundIsAligned(lists, live, region);
      NoPairAtFront(lists, cur, o);
    }
  }

  lemma {:induction false} NoPairAtFront(lists: Lists, cur: nat, o: nat)
    requires AllAligned(lists) && o < |lists| && lists[o] != [] && lists[o][0] == cur
    requires NoOtherPairs(lists, o) && (o + 1 < |lists| ==> Buddy(cur, o) !in lists[o])
    ensures NoBuddyPairs(lists)
  {
    if o + 1 < |lists| {
      assert lists[o] == [cur] + lists[o][1..];
      forall a: nat | a in lists[o] ensures Buddy(a, o) !in lists[o] {
        BuddyInvolution(a, o);
      }
    }
  }

  lemma {:induction false} StepLeavesNoOtherPairs(lists: Lists, cur: nat, o: nat)
    requires o + 1 < |lists| && lists[o] != [] && lists[o][0] == cur && Aligned(cur, o) && NoDup(lists[o])
    requires IndexOf(lists[o], Buddy(cur, o)) < |lists[o]| && Buddy(cur, o) != cur
    requires NoOtherPairs(lists, o)
    ensures NoOtherPairs(MergeStep(lists, cur, o), o + 1)
  {
    MergeStepLists(lists, cur, o);
    MergeStepOk(lists, cur, o);
    var after := MergeStep(lists, cur, o);
    assert after[o + 1][1..] == lists[o + 1];
    assert lists[o] == [cur] + lists[o][1..];
    forall p, a: nat | 0 <= p && p + 1 < |after| && p != o + 1 && a in after[p] ensures Buddy(a, p) !in after[p] {
      if p == o { assert a in lists[o][1..]; }
    }
  }

  /** A release keeps the heap free of buddy pairs. */
  lemma {:induction false} DeallocLeavesNoPair(lists: Lists, live: set<Block>, region: iset<nat>, b: Block)
    requires Sound(lists, live, region) && b in live && NoBuddyPairs(lists)
    ensures b.order < |lists| && Aligned(b.addr, b.order)
    ensures NoBuddyPairs(Dealloc(lists, b.addr, b.order))
  {
    assert b in Blocks(lists, live);
    GiveSound(lists, live, region, b);
    var pushed := Push(lists, b.order, b.addr);
    assert pushed[b.order][1..] == lists[b.order];
    MergeUpLeavesNoPair(pushed, live - {b}, region, b.addr, b.order);
  }

  // ------------------------------------------------------------ bounded release

  /** The nodes in the lists from order `o` up. */
  function NodesFrom(lists: Lists, o: nat): nat
    decreases |lists| - o
  {
    if o >= |lists| then 0 else |lists[o]| + NodesFrom(lists, o + 1)
  }

  lemma {:induction false} NodesFromSame(a: Lists, b: Lists, o: nat)
    requires |a| == |b| && forall p :: o <= p < |a| ==> a[p] == b[p]
    ensures NodesFrom(a, o) == NodesFrom(b, o)
    decreases |a| - o
  {
    if o < |a| { NodesFromSame(a, b, o + 1); }
  }

  lemma {:induction false} InspectsAtMostBudget(lists: Lists, cur: nat, o: nat, budget: nat)
    requires o < |lists| && lists[o] != [] && lists[o][0] == cur && Aligned(cur, o)
    ensures MergeUpBounded(lists, cur, o, budget).1 <= budget
    decreases |lists| - o
  {
    var buddy := Buddy(cur, o);
    var k := IndexOf(lists[o], buddy);
    if o + 1 < |lists| && k < |lists[o]| && k < budget {
      MergeStepOk(lists, cur, o);
      InspectsAtMostBudget(MergeStep(lists, cur, o), if cur < buddy then cur else buddy, o + 1, budget - (k + 1));
    }
  }

  lemma {:induction false} LargeBudgetMerges(lists: Lists, cur: nat, o: nat, budget: nat)
    requires o < |lists| && lists[o] != [] && lists[o][0] == cur && Aligned(cur, o)
    requires budget >= NodesFrom(lists, o) + (|lists| - o) - 1
    ensures MergeUpBounded(lists, cur, o, budget).0 == MergeUp(lists, cur, o)
    decreases |lists| - o
  {
    var buddy := Buddy(cur, o);
    var k := IndexOf(lists[o], buddy);
    if o + 1 < |lists| && k < |lists[o]| {
      MergeStepOk(lists, cur, o);
      var after := MergeStep(lists, cur, o);
      assert NodesFrom(lists, o) == |lists[o]| + NodesFrom(lists, o + 1);
      NodesFromSame(after, lists, o + 2);
      assert NodesFrom(after, o + 1) == NodesFrom(lists, o + 1) + 1;
      LargeBudgetMerges(after, if cur < buddy then cur else buddy, o + 1, budget - (k + 1));
    }
  }

  /** With a budget of at least the free nodes plus the orders, the bound changes nothing. */
  lemma {:induction false} LargeBudgetIsUnbounded(lists: Lists, ptr: nat, order: nat, budget: nat)
    requires order < |lists| && Aligned(ptr, order) && budget >= NodesFrom(lists, 0) + |lists|
    ensures DeallocBounded(lists, ptr, order, budget).0 == Dealloc(lists, ptr, order)
    ensures DeallocBounded(lists, ptr, order, budget).1 <= budget
  {
    var pushed := Push(lists, order, ptr);
    NodesFromMonotone(lists, 0, order);
    NodesFromSame(pushed, lists, order + 1);
    LargeBudgetMerges(pushed, ptr, order, budget);
    InspectsAtMostBudget(pushed, ptr, order, budget);
  }

  lemma {:induction false} NodesFromMonotone(lists: Lists, o: nat, p: nat)
    requires o <= p
    ensures NodesFrom(lists, p) <= NodesFrom(lists, o)
    decreases p - o
  {
    if o < p { NodesFromMonotone(lists, o + 1, p); }
  }
}
