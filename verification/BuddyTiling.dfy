/**
  A heap region cut into aligned power-of-two blocks: every byte of the region
  lies in exactly one block. Splitting a block into its halves, joining two
  buddies and adding a fresh block keep the tiling.
 */
module BuddyTiling {
  import opened BuddyBits

  /** Orders 0 to 34 exist; the smallest block holds one 8-byte word. */
  const MAX_ORDER: nat := 35
  const WORD_ORDER: nat := 3

  datatype Block = Block(addr: nat, order: nat) {
    function End(): nat { addr + Pow2(order) }

    predicate Covers(x: nat) { addr <= x < End() }

    /** A block the allocator may own: not at address zero, aligned to its size. */
    predicate Proper() {
      addr > 0 && WORD_ORDER <= order < MAX_ORDER && Aligned(addr, order)
    }
  }

  predicate Apart(b: Block, c: Block) { b.End() <= c.addr || c.End() <= b.addr }

  ghost predicate Covered(blocks: iset<Block>, x: nat) {
    exists b :: b in blocks && b.Covers(x)
  }

  /** The blocks are proper, pairwise disjoint, and cover exactly `region`. */
  ghost predicate Tiling(blocks: iset<Block>, region: iset<nat>) {
    && (forall b :: b in blocks ==> b.Proper())
    && (forall b, c :: b in blocks && c in blocks && b != c ==> Apart(b, c))
    && (forall x: nat :: x in region <==> Covered(blocks, x))
  }

  /** The two halves of a block. */
  function Lower(b: Block): Block
    requires b.order > 0
  {
    Block(b.addr, b.order - 1)
  }

  function Upper(b: Block): Block
    requires b.order > 0
  {
    Block(b.addr + Pow2(b.order - 1), b.order - 1)
  }

  ghost function SplitBlock(blocks: iset<Block>, b: Block): iset<Block>
    requires b.order > 0
  {
    blocks - iset{b} + iset{Lower(b), Upper(b)}
  }

  lemma {:induction false} SplitTiling(blocks: iset<Block>, region: iset<nat>, b: Block)
    requires Tiling(blocks, region) && b in blocks && b.order > WORD_ORDER
    ensures Tiling(SplitBlock(blocks, b), region)
  {
    var lo, hi := Lower(b), Upper(b);
    Halves(b.addr, b.order - 1);
    var after := SplitBlock(blocks, b);
    forall x: nat ensures x in region <==> Covered(after, x) {
      SplitCovers(blocks, b, x);
    }
    assert Apart(lo, hi);
    forall c | c in blocks && c != b ensures Apart(lo, c) && Apart(hi, c) {
      assert Apart(b, c);
    }
  }

  lemma {:induction false} SplitCovers(blocks: iset<Block>, b: Block, x: nat)
    requires b in blocks && b.order > 0
    ensures Covered(SplitBlock(blocks, b), x) <==> Covered(blocks, x)
  {
    var after := SplitBlock(blocks, b);
    if Covered(blocks, x) {
      var c :| c in blocks && c.Covers(x);
      if c == b {
        var h := if Lower(b).Covers(x) then Lower(b) else Upper(b);
        assert h in after && h.Covers(x);
      } else {
        assert c in after;
      }
    }
    if Covered(after, x) {
      var c :| c in after && c.Covers(x);
      assert c in blocks || b.Covers(x);
    }
  }

  /** The block made of two buddies of the same order. */
  ghost function JoinBlock(blocks: iset<Block>, whole: Block): iset<Block>
    requires whole.order > 0
  {
    blocks - iset{Lower(whole), Upper(whole)} + iset{whole}
  }

  lemma {:induction false} JoinTiling(blocks: iset<Block>, region: iset<nat>, whole: Block)
    requires Tiling(blocks, region) && whole.order > 0 && whole.order < MAX_ORDER
    requires Lower(whole) in blocks && Upper(whole) in blocks && Aligned(whole.addr, whole.order)
    ensures Tiling(JoinBlock(blocks, whole), region)
  {
    var lo, hi := Lower(whole), Upper(whole);
    var after := JoinBlock(blocks, whole);
    forall x: nat ensures x in region <==> Covered(after, x) {
      JoinCovers(blocks, whole, x);
    }
    forall c | c in blocks && c != lo && c != hi ensures Apart(whole, c) {
      assert Apart(lo, c) && Apart(hi, c);
      ApartFromHalves(whole, c);
    }
  }

  /** A nonempty block cannot fit between two adjacent halves. */
  lemma ApartFromHalves(whole: Block, c: Block)
    requires whole.order > 0 && Apart(Lower(whole), c) && Apart(Upper(whole), c)
    ensures Apart(whole, c)
  {
  }

  lemma {:induction false} JoinCovers(blocks: iset<Block>, whole: Block, x: nat)
    requires whole.order > 0 && Lower(whole) in blocks && Upper(whole) in blocks
    ensures Covered(JoinBlock(blocks, whole), x) <==> Covered(blocks, x)
  {
    var after := JoinBlock(blocks, whole);
    if Covered(blocks, x) {
      var c :| c in blocks && c.Covers(x);
      assert c in after || (whole in after && whole.Covers(x));
    }
    if Covered(after, x) {
      var c :| c in after && c.Covers(x);
      if c == whole {
        assert Lower(whole).Covers(x) || Upper(whole).Covers(x);
      } else {
        assert c in blocks;
      }
    }
  }

  lemma {:induction false} AddTiling(blocks: iset<Block>, region: iset<nat>, b: Block)
    requires Tiling(blocks, region) && b.Proper()
    requires forall x: nat :: b.Covers(x) ==> x !in region
    ensures b !in blocks
    ensures Tiling(blocks + iset{b}, region + (iset x: nat | b.Covers(x)))
  {
    var after := blocks + iset{b};
    var wider := region + (iset x: nat | b.Covers(x));
    forall c | c in blocks ensures Apart(b, c) {
      FreshIsApart(blocks, region, b, c);
    }
    forall x: nat ensures x in wider <==> Covered(after, x) {
      if x in region {
        var c :| c in blocks && c.Covers(x);
        assert c in after;
      }
      if Covered(after, x) {
        var c :| c in after && c.Covers(x);
        assert c == b || Covered(blocks, x);
      }
    }
  }

  lemma {:induction false} FreshIsApart(blocks: iset<Block>, region: iset<nat>, b: Block, c: Block)
    requires Tiling(blocks, region) && c in blocks
    requires forall x: nat :: b.Covers(x) ==> x !in region
    ensures Apart(b, c) && b != c
  {
    var x := if b.addr <= c.addr then c.addr else b.addr;
    if b.Covers(x) && c.Covers(x) {
      assert Covered(blocks, x);
    }
    assert c.Covers(c.addr) && Covered(blocks, c.addr);
  }

  /** Two blocks of a tiling never start at the same address. */
  lemma DistinctStarts(blocks: iset<Block>, region: iset<nat>, b: Block, c: Block)
    requires Tiling(blocks, region) && b in blocks && c in blocks && b.addr == c.addr
    ensures b == c
  {
  }
}
