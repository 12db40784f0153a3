/**
  The page cache's operations in place: eviction, publication and invalidation are
  proved to compute the functions of `PageCache`. Reads and loads follow in
  `PageCacheReads` and `PageCacheLoads`.
 */
module PageCacheOps {
  import opened Basics
  import opened ByteFile
  import opened PageCache

  const SEQUENTIAL_READAHEAD_MAX_PAGES: nat := 4

  /** The bytes of a file that belong to one page. */
  function Slice(file: seq<byte>, index: nat): seq<byte> { PRead(file, index * PAGE_SIZE, PAGE_SIZE) }

  function FileOf(files: map<string, seq<byte>>, path: string): seq<byte> {
    if path in files then files[path] else []
  }

  /** The page holds exactly the part of the file it stands for. */
  predicate Mirrors(page: Page, file: seq<byte>, index: nat) {
    page.validLen <= |page.bytes| && page.bytes[..page.validLen] == Slice(file, index)
  }

  ghost predicate AllMirror(pages: map<Key, Page>, files: map<string, seq<byte>>) {
    forall k :: k in pages ==> Mirrors(pages[k], FileOf(files, k.path), k.index)
  }

  class FilePageCache {
    var pages: map<Key, Page>
    var active: seq<Key>
    var deferred: seq<Key>
    var retryMisses: nat
    var pageCount: nat

    function Value(): Cache
      reads this
    {
      Cache(pages, active, deferred, retryMisses, pageCount)
    }

    constructor ()
      ensures Value() == Cache(map[], [], [], 0, 0) && Sound(Value(), 0)
    {
      pages, active, deferred, retryMisses, pageCount := map[], [], [], 0, 0;
    }

    method RefillActiveFromDeferred() returns (moved: nat)
      modifies this
      ensures Value() == Refill(old(Value()))
      ensures moved == Min(|old(deferred)|, EVICTION_DEFERRED_RETRY_BATCH)
    {
      moved := Min(|deferred|, EVICTION_DEFERRED_RETRY_BATCH);
      var i := 0;
      while i < moved
        invariant 0 <= i <= moved <= |old(deferred)|
        invariant active == old(active) + old(deferred)[..i] && deferred == old(deferred)[i..]
        invariant pages == old(pages) && retryMisses == old(retryMisses) && pageCount == old(pageCount)
      {
        var key := deferred[0];
        deferred := deferred[1..];
        active := active + [key];
        i := i + 1;
      }
    }

    /** One CLOCK scan; `dropped` is the page it removed. */
    method ScanCandidates(budget: nat) returns (dropped: Option<Key>)
      modifies this
      ensures Scanned(dropped, pages, active, deferred) == Scan(old(pages), old(active), old(deferred), budget)
      ensures retryMisses == old(retryMisses)
      ensures pageCount == if dropped.Some? && old(pageCount) > 0 then old(pageCount) - 1 else old(pageCount)
    {
      var i := 0;
      while i < budget
        invariant 0 <= i <= budget
        invariant Scan(pages, active, deferred, budget - i) == Scan(old(pages), old(active), old(deferred), budget)
        invariant retryMisses == old(retryMisses) && pageCount == old(pageCount)
      {
        if active == [] {
          return None;
        }
        var key := active[0];
        active := active[1..];
        if key in pages {
          var page := pages[key];
          if page.referenced {
            pages := pages[key := page.(referenced := false)];
            active := active + [key];
          } else if page.dirty {
            deferred := deferred + [key];
          } else if page.held {
            deferred := deferred + [key];
          } else {
            pages := pages - {key};
            pageCount := if pageCount > 0 then pageCount - 1 else 0;
            return Some(key);
          }
        }
        i := i + 1;
      }
      return None;
    }

    method TryEvictOne() returns (evicted: bool)
      modifies this
      ensures (evicted, Value()) == Evict(old(Value()))
    {
      if active == [] && deferred != [] {
        if retryMisses != 0 {
          retryMisses := retryMisses - 1;
          return false;
        }
        var moved := RefillActiveFromDeferred();
      }
      evicted := ScanOneBatch();
    }

    /** One bounded scan; a fruitless one starts a cooldown. */
    method ScanOneBatch() returns (evicted: bool)
      modifies this
      ensures (evicted, Value()) == ScanOnce(old(Value()))
    {
      var dropped := ScanCandidates(Min(|active|, EVICTION_SCAN_BUDGET));
      if dropped.Some? {
        return true;
      }
      if active == [] && deferred != [] {
        retryMisses := EVICTION_DEFERRED_RETRY_MISS_INTERVAL;
      }
      return false;
    }

    /** Reserve a slot below the cap. */
    method TryReservePage() returns (reserved: bool)
      modifies this
      ensures reserved <==> old(pageCount) < MAX_FILE_PAGE_CACHE_PAGES
      ensures Value() == if reserved then old(Value()).(pageCount := old(pageCount) + 1) else old(Value())
    {
      if pageCount >= MAX_FILE_PAGE_CACHE_PAGES {
        return false;
      }
      pageCount := pageCount + 1;
      return true;
    }

    method ReleasePageReservation()
      requires pageCount > 0
      modifies this
      ensures Value() == old(Value()).(pageCount := old(pageCount) - 1)
    {
      pageCount := pageCount - 1;
    }

    method PublishReservedPage(key: Key, page: Page) returns (inserted: bool)
      modifies this
      ensures (inserted, Value()) == Publish(old(Value()), key, page)
    {
      if key in pages {
        return false;
      }
      pages := pages[key := page];
      active := active + [key];
      return true;
    }

    /** Drop the pages that the byte range `[start, start + len)` touches. */
    method InvalidatePathRange(path: string, start: nat, len: nat)
      modifies this
      ensures len == 0 ==> Value() == old(Value())
      ensures len > 0 ==> Value() == Invalidate(old(Value()), RegionOf(path, start, len))
      ensures forall key :: key in old(pages) ==>
                              (key in pages <==> !(key.path == path && Touched(start, len, key.index)))
      ensures forall key :: key in pages ==> key in old(pages) && pages[key] == old(pages)[key]
    {
      if len == 0 {
        return;
      }
      forall key: Key
        ensures RegionOf(path, start, len).Hits(key) <==> key.path == path && Touched(start, len, key.index)
      {
        RegionIsExact(path, start, len, key);
      }
      var region := RegionOf(path, start, len);
      var removed := RemovePages(path, region.first, region.last);
      if removed != 0 {
        pageCount := if removed <= pageCount then pageCount - removed else 0;
        active := Retain(active, region);
        deferred := Retain(deferred, region);
      }
    }

    method RemovePages(path: string, first: nat, last: nat) returns (removed: nat)
      modifies this`pages
      ensures pages == old(pages) - HitPages(old(Value()), Pages(path, first, last))
      ensures removed == |HitPages(old(Value()), Pages(path, first, last))|
    {
      removed := 0;
      var index := first;
      ghost var before := Value();
      NothingHit(before, path, first, first);
      while index < last
        invariant first <= index && (first <= last ==> index <= last) && (first > last ==> index == first)
        invariant pages == before.pages - HitPages(before, Pages(path, first, index))
        invariant removed == |HitPages(before, Pages(path, first, index))|
      {
        OneMoreHit(before, path, first, index);
        var key := Key(path, index);
        if key in pages {
          pages := pages - {key};
          removed := removed + 1;
        }
        index := index + 1;
      }
      if first > last { NothingHit(before, path, first, last); }
    }

    method InvalidatePath(path: string)
      modifies this
      ensures Value() == Invalidate(old(Value()), Whole(path))
      ensures forall key :: key in pages <==> key in old(pages) && key.path != path
      ensures forall key :: key in pages ==> pages[key] == old(pages)[key]
    {
      var region := Whole(path);
      var gone := HitPages(Value(), region);
      assert forall key :: key in gone <==> key in pages && key.path == path;
      if gone != {} {
        pages := pages - gone;
        pageCount := if |gone| <= pageCount then pageCount - |gone| else 0;
        active := Retain(active, region);
        deferred := Retain(deferred, region);
      }
    }
  }

  /** The byte range rounded outwards to pages, with the additions saturating. */
  function RegionOf(path: string, start: nat, len: nat): (r: Region)
    ensures r.Pages?
  {
    var end := Min(start + len, USIZE_MAX);
    Pages(path, start / PAGE_SIZE, Min(end + (PAGE_SIZE - 1), USIZE_MAX) / PAGE_SIZE)
  }

  /** An invalidation reaches the page of a byte of the range unless it is the last page of the address range. */
  lemma {:induction false} RangeIsCoveredIff(path: string, start: nat, len: nat, x: nat)
    requires start <= x < start + len && x <= USIZE_MAX
    ensures RegionOf(path, start, len).Hits(Key(path, x / PAGE_SIZE)) <==> x / PAGE_SIZE < USIZE_MAX / PAGE_SIZE
  {
    var end := Min(start + len, USIZE_MAX);
    if x / PAGE_SIZE < USIZE_MAX / PAGE_SIZE {
      assert x + 1 <= end;
      assert (x + PAGE_SIZE) / PAGE_SIZE == x / PAGE_SIZE + 1;
    }
  }

  /** The page holds a byte of the range, and is not the last page of the address range. */
  ghost predicate Touched(start: nat, len: nat, index: nat) {
    && index < USIZE_MAX / PAGE_SIZE
    && exists x: nat :: InRange(start, len, x) && x / PAGE_SIZE == index
  }

  predicate InRange(start: nat, len: nat, x: nat) { start <= x < start + len && x <= USIZE_MAX }

  /** The region is those pages and no other. */
  lemma {:induction false} RegionIsExact(path: string, start: nat, len: nat, key: Key)
    requires len > 0
    ensures RegionOf(path, start, len).Hits(key) <==> key.path == path && Touched(start, len, key.index)
  {
    if key.path == path && Touched(start, len, key.index) {
      var x: nat :| InRange(start, len, x) && x / PAGE_SIZE == key.index;
      RangeIsCoveredIff(path, start, len, x);
    }
    if RegionOf(path, start, len).Hits(key) {
      var x := if start / PAGE_SIZE == key.index then start else key.index * PAGE_SIZE;
      BelowRoundedEnd(Min(start + len, USIZE_MAX), key.index);
      assert InRange(start, len, x) && x / PAGE_SIZE == key.index;
    }
  }

  /** A page before the end rounded up starts before the end. */
  lemma BelowRoundedEnd(end: nat, index: nat)
    requires end <= USIZE_MAX && index < Min(end + (PAGE_SIZE - 1), USIZE_MAX) / PAGE_SIZE
    ensures index * PAGE_SIZE < end && index < USIZE_MAX / PAGE_SIZE
  {
  }

  lemma NothingHit(c: Cache, path: string, first: nat, last: nat)
    requires last <= first
    ensures HitPages(c, Pages(path, first, last)) == {}
    ensures c.pages - HitPages(c, Pages(path, first, last)) == c.pages
  {
  }

  lemma {:induction false} OneMoreHit(c: Cache, path: string, first: nat, index: nat)
    requires first <= index
    ensures var key := Key(path, index);
            var before, after := HitPages(c, Pages(path, first, index)), HitPages(c, Pages(path, first, index + 1));
            && key !in before
            && after == (if key in c.pages then before + {key} else before)
            && |after| == |before| + (if key in c.pages then 1 else 0)
            && c.pages - after == (c.pages - before) - {key}
  {
    var key := Key(path, index);
    var before, after := HitPages(c, Pages(path, first, index)), HitPages(c, Pages(path, first, index + 1));
    forall k ensures k in after <==> k in before || (k == key && key in c.pages) {
    }
    assert after == (if key in c.pages then before + {key} else before);
  }
}
