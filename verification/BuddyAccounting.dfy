/** The bytes held by the free lists, and how allocation and release move them. */
module BuddyAccounting {
  import opened Basics
  import opened BuddyBits
  import opened BuddyLists

  /** `n` blocks of one order. */
  function OrderBytes(n: nat, order: nat): nat {
    if n == 0 then 0 else Pow2(order) + OrderBytes(n - 1, order)
  }

  /** The free bytes in the orders from `o` up. */
  function FreeBytesFrom(lists: Lists, o: nat): nat
    decreases |lists| - o
  {
    if o >= |lists| then 0 else OrderBytes(|lists[o]|, o) + FreeBytesFrom(lists, o + 1)
  }

  function FreeBytes(lists: Lists): nat { FreeBytesFrom(lists, 0) }

  lemma {:induction false} FreeBytesUpdate(lists: Lists, o: nat, s: seq<nat>, from: nat)
    requires o < |lists|
    ensures FreeBytesFrom(lists[o := s], from) + (if from <= o then OrderBytes(|lists[o]|, o) else 0)
            == FreeBytesFrom(lists, from) + (if from <= o then OrderBytes(|s|, o) else 0)
    decreases |lists| - from
  {
    if from < |lists| { FreeBytesUpdate(lists, o, s, from + 1); }
  }

  lemma {:induction false} PushBytes(lists: Lists, o: nat, a: nat)
    requires o < |lists|
    ensures FreeBytes(Push(lists, o, a)) == FreeBytes(lists) + Pow2(o)
  {
    FreeBytesUpdate(lists, o, [a] + lists[o], 0);
  }

  lemma {:induction false} PopBytes(lists: Lists, o: nat)
    requires o < |lists| && lists[o] != []
    ensures FreeBytes(Pop(lists, o)) + Pow2(o) == FreeBytes(lists)
  {
    FreeBytesUpdate(lists, o, lists[o][1..], 0);
  }

  lemma {:induction false} SplitStepBytes(lists: Lists, j: nat)
    requires 0 < j < |lists| && lists[j] != []
    ensures FreeBytes(SplitStep(lists, j)) == FreeBytes(lists)
  {
    var b := lists[j][0];
    PopBytes(lists, j);
    PushBytes(Pop(lists, j), j - 1, b + Pow2(j - 1));
    PushBytes(Push(Pop(lists, j), j - 1, b + Pow2(j - 1)), j - 1, b);
  }

  lemma {:induction false} SplitDownBytes(lists: Lists, j: nat, order: nat)
    requires order <= j < |lists| && lists[j] != []
    ensures FreeBytes(SplitDown(lists, j, order)) == FreeBytes(lists)
    decreases j
  {
    if j > order {
      SplitStepBytes(lists, j);
      SplitDownBytes(SplitStep(lists, j), j - 1, order);
    }
  }

  /** An allocation takes exactly its block size from the free lists. */
  lemma {:induction false} AllocBytes(lists: Lists, order: nat)
    requires Alloc(lists, order).Some?
    ensures FreeBytes(Alloc(lists, order).value.1) + Pow2(order) == FreeBytes(lists)
  {
    FirstNonEmptyFinds(lists, order);
    var i := FirstNonEmpty(lists, order);
    SplitDownKeepsFront(lists, i, order);
    SplitDownBytes(lists, i, order);
    PopBytes(SplitDown(lists, i, order), order);
  }

  lemma {:induction false} MergeStepBytes(lists: Lists, cur: nat, o: nat)
    requires o + 1 < |lists| && IndexOf(lists[o], Buddy(cur, o)) < |lists[o]|
    requires lists[o] != [] && lists[o][0] == cur && Aligned(cur, o) && Buddy(cur, o) != cur
    ensures FreeBytes(MergeStep(lists, cur, o)) == FreeBytes(lists)
  {
    MergeStepOk(lists, cur, o);
    var k := IndexOf(lists[o], Buddy(cur, o));
    var unlinked := lists[o := RemoveAt(lists[o], k)];
    FreeBytesUpdate(lists, o, RemoveAt(lists[o], k), 0);
    PopBytes(unlinked, o);
    PushBytes(Pop(unlinked, o), o + 1, if cur < Buddy(cur, o) then cur else Buddy(cur, o));
  }

  lemma {:induction false} MergeUpBytes(lists: Lists, cur: nat, o: nat)
    requires o < |lists| && lists[o] != [] && lists[o][0] == cur && Aligned(cur, o)
    ensures FreeBytes(MergeUp(lists, cur, o)) == FreeBytes(lists)
    decreases |lists| - o
  {
    var buddy := Buddy(cur, o);
    if o + 1 < |lists| && IndexOf(lists[o], buddy) < |lists[o]| {
      MergeStepOk(lists, cur, o);
      MergeStepBytes(lists, cur, o);
      MergeUpBytes(MergeStep(lists, cur, o), if cur < buddy then cur else buddy, o + 1);
    }
  }

  lemma {:induction false} MergeUpBoundedBytes(lists: Lists, cur: nat, o: nat, budget: nat)
    requires o < |lists| && lists[o] != [] && lists[o][0] == cur && Aligned(cur, o)
    ensures FreeBytes(MergeUpBounded(lists, cur, o, budget).0) == FreeBytes(lists)
    decreases |lists| - o
  {
    var buddy := Buddy(cur, o);
    var k := IndexOf(lists[o], buddy);
    if o + 1 < |lists| && k < |lists[o]| && k < budget {
      MergeStepOk(lists, cur, o);
      MergeStepBytes(lists, cur, o);
      MergeUpBoundedBytes(MergeStep(lists, cur, o), if cur < buddy then cur else buddy, o + 1, budget - (k + 1));
    }
  }

  /** A release, bounded or not, returns exactly its block size. */
  lemma {:induction false} DeallocBytes(lists: Lists, ptr: nat, order: nat, budget: nat)
    requires order < |lists| && Aligned(ptr, order)
    ensures FreeBytes(Dealloc(lists, ptr, order)) == FreeBytes(lists) + Pow2(order)
    ensures FreeBytes(DeallocBounded(lists, ptr, order, budget).0) == FreeBytes(lists) + Pow2(order)
  {
    PushBytes(lists, order, ptr);
    MergeUpBytes(Push(lists, order, ptr), ptr, order);
    MergeUpBoundedBytes(Push(lists, order, ptr), ptr, order, budget);
  }
}
