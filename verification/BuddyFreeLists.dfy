/**
  The intrusive free lists: the first word of every free block holds the address
  of the next free block of the same order. Memory is a map from addresses to
  words, and a ghost sequence per order says which blocks each list holds.
 */
module BuddyFreeLists {
  import opened Basics
  import opened BuddyBits
  import opened BuddyTiling
  import L = BuddyLists

  function Load(mem: map<nat, nat>, a: nat): nat { if a in mem then mem[a] else 0 }

  /** Following the next-words from `head` visits exactly `s`. */
  ghost predicate Linked(mem: map<nat, nat>, head: nat, s: seq<nat>)
    decreases |s|
  {
    if s == [] then head == 0
    else head != 0 && head == s[0] && Linked(mem, Load(mem, head), s[1..])
  }

  /** A word that is not a node of the list may be overwritten. */
  lemma {:induction false} LinkedFrame(mem: map<nat, nat>, head: nat, s: seq<nat>, a: nat, v: nat)
    requires Linked(mem, head, s) && a !in s
    ensures Linked(mem[a := v], head, s)
    decreases |s|
  {
    if s != [] {
      assert s[0] in s && s[0] != a;
      LinkedFrame(mem, Load(mem, head), s[1..], a, v);
    }
  }

  /** Storing the successor of node `k` in its predecessor takes node `k` out. */
  lemma {:induction false} LinkedUnlink(mem: map<nat, nat>, head: nat, s: seq<nat>, k: nat)
    requires Linked(mem, head, s) && L.NoDup(s) && 0 < k < |s|
    ensures Linked(mem[s[k - 1] := Load(mem, s[k])], head, L.RemoveAt(s, k))
    decreases |s|
  {
    var mem' := mem[s[k - 1] := Load(mem, s[k])];
    var r := L.RemoveAt(s, k);
    assert r[0] == s[0];
    if k == 1 {
      assert r[1..] == s[2..] && s[1..][1..] == s[2..];
      LinkedFrame(mem, Load(mem, s[1]), s[2..], s[0], Load(mem, s[1]));
    } else {
      LinkedUnlink(mem, Load(mem, head), s[1..], k - 1);
      assert r[1..] == L.RemoveAt(s[1..], k - 1);
    }
  }

  /** Where the word that points at the current node is stored. */
  datatype Cursor = ListHead | Node(addr: nat)

  class FreeLists {
    var head: seq<nat>
    var mem: map<nat, nat>
    ghost var lists: L.Lists

    ghost predicate Valid()
      reads this
    {
      && |head| == |lists| == MAX_ORDER
      && (forall o :: 0 <= o < |lists| ==> L.NoDup(lists[o]) && Linked(mem, head[o], lists[o]))
      && (forall o, p, a: nat :: 0 <= o < |lists| && 0 <= p < |lists| && a in lists[o] && a in lists[p] ==> o == p)
    }

    ghost predicate Listed(a: nat)
      reads this
    {
      exists o :: 0 <= o < |lists| && a in lists[o]
    }

    constructor ()
      ensures Valid() && lists == L.EmptyLists() && mem == map[]
    {
      head := seq(MAX_ORDER, _ => 0);
      mem := map[];
      lists := L.EmptyLists();
    }

    predicate IsEmpty(o: nat)
      requires o < |head|
      reads this
    {
      head[o] == 0
    }

    lemma EmptyMeansEmpty(o: nat)
      requires Valid() && o < |head|
      ensures IsEmpty(o) <==> lists[o] == []
    {
      assert Linked(mem, head[o], lists[o]);
    }

    /** The only word written is the first word of the block that joins the list. */
    method Push(o: nat, item: nat)
      requires Valid() && o < MAX_ORDER && item != 0 && !Listed(item)
      modifies this
      ensures Valid()
      ensures lists == L.Push(old(lists), o, item)
      ensures mem == old(mem)[item := old(head[o])]
    {
      forall p | 0 <= p < |lists| ensures Linked(mem[item := head[o]], head[p], lists[p]) {
        LinkedFrame(mem, head[p], lists[p], item, head[o]);
      }
      mem := mem[item := head[o]];
      head := head[o := item];
      assert ([item] + lists[o])[1..] == lists[o];
      lists := L.Push(lists, o, item);
    }

    /** No word is written. */
    method Pop(o: nat) returns (r: Option<nat>)
      requires Valid() && o < MAX_ORDER
      modifies this
      ensures Valid() && mem == old(mem)
      ensures old(lists)[o] == [] ==> r == None && lists == old(lists)
      ensures old(lists)[o] != [] ==> r == Some(old(lists)[o][0]) && lists == L.Pop(old(lists), o)
    {
      EmptyMeansEmpty(o);
      if IsEmpty(o) {
        return None;
      }
      var item := head[o];
      head := head[o := Load(mem, item)];
      lists := L.Pop(lists, o);
      return Some(item);
    }

    /**
      Walk the list of order `o` for `target` and unlink it. With `bounded` set at
      most `budget` nodes are looked at. The only word written is the first word
      of the predecessor, itself a free block.
     */
    method FindAndUnlink(o: nat, target: nat, bounded: bool, budget: nat) returns (found: bool, inspected: nat)
      requires Valid() && o < MAX_ORDER
      modifies this
      ensures Valid()
      ensures var s := old(lists)[o]; var k := L.IndexOf(s, target);
              && (found <==> k < |s| && (bounded ==> k < budget))
              && inspected == (if found then k + 1 else if bounded && budget < |s| then budget else |s|)
              && (found ==> lists == old(lists)[o := L.RemoveAt(s, k)])
              && (found && k > 0 ==> mem == old(mem)[s[k - 1] := old(Load(mem, s[k]))])
      ensures !found ==> lists == old(lists) && mem == old(mem)
    {
      ghost var s := lists[o];
      var prev, curr := ListHead, head[o];
      inspected := 0;
      found := false;
      while curr != 0
        invariant inspected <= |s| && target !in s[..inspected] && (bounded ==> inspected <= budget)
        invariant Linked(mem, curr, s[inspected..])
        invariant prev == if inspected == 0 then ListHead else Node(s[inspected - 1])
        decreases |s| - inspected
      {
        if bounded && inspected == budget {
          break;
        }
        inspected := inspected + 1;
        if curr == target {
          found := true;
          break;
        }
        assert s[inspected - 1..][1..] == s[inspected..];
        assert s[..inspected] == s[..inspected - 1] + [curr];
        prev, curr := Node(curr), Load(mem, curr);
      }
      ScanPosition(s, target, if found then inspected - 1 else inspected, found);
      if found {
        Unlink(o, prev, curr, inspected - 1);
      }
    }

    method Unlink(o: nat, prev: Cursor, curr: nat, ghost k: nat)
      requires Valid() && o < MAX_ORDER && k < |lists[o]| && lists[o][k] == curr
      requires prev == if k == 0 then ListHead else Node(lists[o][k - 1])
      modifies this
      ensures Valid()
      ensures lists == old(lists)[o := L.RemoveAt(old(lists)[o], k)]
      ensures mem == if k == 0 then old(mem) else old(mem)[old(lists)[o][k - 1] := old(Load(mem, curr))]
    {
      ghost var s := lists[o];
      L.RemoveAtMembers(s, k);
      if prev == ListHead {
        assert L.RemoveAt(s, 0) == s[1..];
        head := head[o := Load(mem, curr)];
      } else {
        LinkedUnlink(mem, head[o], s, k);
        forall q | 0 <= q < |lists| && q != o ensures Linked(mem[prev.addr := Load(mem, curr)], head[q], lists[q]) {
          LinkedFrame(mem, head[q], lists[q], prev.addr, Load(mem, curr));
        }
        mem := mem[prev.addr := Load(mem, curr)];
      }
      lists := lists[o := L.RemoveAt(s, k)];
    }
  }

  /** What a scan that stopped after `n` nodes knows about the position of the target. */
  lemma {:induction false} ScanPosition(s: seq<nat>, target: nat, n: nat, found: bool)
    requires n <= |s| && target !in s[..n]
    requires found ==> n < |s| && s[n] == target
    ensures found ==> L.IndexOf(s, target) == n
    ensures !found ==> L.IndexOf(s, target) >= n
  {
    var k := L.IndexOf(s, target);
    L.IndexOfFinds(s, target);
    assert n < k ==> s[n] in s[..k];
  }
}
