/**
  A coalesced heap has no memory of its history: its free blocks are determined by the
  memory it was given and by the blocks that are handed out.
 */
module BuddyUnique {
  import opened Basics
  import opened BuddyBits
  import opened BuddyTiling
  import opened BuddyLists

  /** An aligned block that shares a byte with another one of at most its size contains it. */
  lemma {:induction false} Nested(b: Block, c: Block, x: nat)
    requires Aligned(b.addr, b.order) && Aligned(c.addr, c.order) && b.order <= c.order
    requires b.Covers(x) && c.Covers(x)
    ensures c.addr <= b.addr && b.End() <= c.End()
    ensures b.order == c.order ==> b == c
  {
    AlignedWeaken(c.addr, b.order, c.order);
    Pow2Aligned(c.order);
    AlignedWeaken(Pow2(c.order), b.order, c.order);
    AlignedAdd(c.addr, Pow2(c.order), b.order);
    if b.addr < c.addr { AlignedGap(b.addr, c.addr, b.order); }
    AlignedGap(b.addr, c.End(), b.order);
  }

  /** A byte of a free block lies in a free block of any other tiling with the same live blocks. */
  lemma {:induction false} FreeByteElsewhere(xs: Lists, ys: Lists, live: set<Block>, region: iset<nat>, b: Block,
                                             x: nat) returns (c: Block)
    requires Sound(xs, live, region) && Sound(ys, live, region) && IsFree(xs, b) && b.Covers(x)
    ensures IsFree(ys, c) && c.Covers(x) && c.Proper()
  {
    assert b in Blocks(xs, live);
    assert Covered(Blocks(xs, live), x) && Covered(Blocks(ys, live), x);
    c :| c in Blocks(ys, live) && c.Covers(x);
    assert c in live ==> c in Blocks(xs, live);
  }

  /** The block made of a block and its buddy. */
  function Parent(d: Block): Block {
    Block(if Aligned(d.addr, d.order + 1) then d.addr else Buddy(d.addr, d.order), d.order + 1)
  }

  function BuddyBlock(d: Block): Block { Block(Buddy(d.addr, d.order), d.order) }

  lemma {:induction false} ParentHolds(d: Block)
    requires Aligned(d.addr, d.order)
    ensures Aligned(Parent(d).addr, Parent(d).order) && Aligned(BuddyBlock(d).addr, d.order)
    ensures Parent(d).addr <= d.addr && d.End() <= Parent(d).End()
    ensures Parent(d).addr <= BuddyBlock(d).addr && BuddyBlock(d).End() <= Parent(d).End()
    ensures Apart(d, BuddyBlock(d))
  {
    BuddyOf(d.addr, d.order);
    BuddyInvolution(d.addr, d.order);
  }

  /** Where one tiling has a free block and the other a smaller one inside it, the other has a free pair. */
  lemma {:induction false} PairInside(xs: Lists, ys: Lists, live: set<Block>, region: iset<nat>, b: Block, d: Block)
    requires Sound(xs, live, region) && Sound(ys, live, region)
    requires IsFree(xs, b) && IsFree(ys, d) && d.order < b.order && b.Covers(d.addr)
    ensures !NoBuddyPairs(ys)
    decreases d.order
  {
    assert b in Blocks(xs, live) && d in Blocks(ys, live);
    var p, e := Parent(d), BuddyBlock(d);
    ParentHolds(d);
    Nested(p, b, d.addr);
    var f := FreeByteElsewhere(xs, ys, live, region, b, e.addr);
    assert f in Blocks(ys, live);
    if f.order < d.order {
      Nested(f, e, e.addr);
      PairInside(xs, ys, live, region, b, f);
    } else {
      Nested(e, f, e.addr);
      if f.order > d.order { Nested(p, f, e.addr); }
      assert f == e;
      assert d.addr in ys[d.order] && Buddy(d.addr, d.order) in ys[d.order];
    }
  }

  /** Two coalesced heaps with the same memory and the same live blocks have the same free blocks. */
  lemma {:induction false} FreeBlocksAreDetermined(xs: Lists, ys: Lists, live: set<Block>, region: iset<nat>, b: Block)
    requires Sound(xs, live, region) && Sound(ys, live, region) && NoBuddyPairs(xs) && NoBuddyPairs(ys)
    ensures IsFree(xs, b) <==> IsFree(ys, b)
  {
    if IsFree(xs, b) { FreeInBoth(xs, ys, live, region, b); }
    if IsFree(ys, b) { FreeInBoth(ys, xs, live, region, b); }
  }

  lemma {:induction false} FreeInBoth(xs: Lists, ys: Lists, live: set<Block>, region: iset<nat>, b: Block)
    requires Sound(xs, live, region) && Sound(ys, live, region) && NoBuddyPairs(xs) && NoBuddyPairs(ys)
    requires IsFree(xs, b)
    ensures IsFree(ys, b)
  {
    assert b in Blocks(xs, live) && b.Proper();
    var c := FreeByteElsewhere(xs, ys, live, region, b, b.addr);
    if c.order < b.order {
      Nested(c, b, b.addr);
      PairInside(xs, ys, live, region, b, c);
    } else {
      Nested(b, c, b.addr);
      if c.order > b.order { PairInside(ys, xs, live, region, c, b); }
    }
  }
}
