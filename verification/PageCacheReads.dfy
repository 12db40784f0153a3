/**
  Reading through the page cache and filling it. As long as a file does not change
  and inode reads are full, every page in the cache is a slice of its file, and a
  cached read that answers at all answers like a direct read of the file.
 */
module PageCacheReads {
  import opened Basics
  import opened ByteFile
  import opened PageCache
  import opened PageCacheOps

  /** Marking pages as used changes nothing else. */
  ghost predicate SameButMarks(before: map<Key, Page>, after: map<Key, Page>) {
    && after.Keys == before.Keys
    && forall k :: k in before ==> after[k] == before[k] || after[k] == before[k].(referenced := true)
  }

  lemma MarksKeepMirrors(before: map<Key, Page>, after: map<Key, Page>, files: map<string, seq<byte>>)
    requires SameButMarks(before, after)
    ensures AllMirror(before, files) ==> AllMirror(after, files)
    ensures AllFramed(before) ==> AllFramed(after)
  {
  }

  /** A page is one frame, and its valid bytes lie inside it. */
  predicate Framed(page: Page) { |page.bytes| == PAGE_SIZE && page.validLen <= PAGE_SIZE }

  ghost predicate AllFramed(pages: map<Key, Page>) {
    forall k :: k in pages ==> Framed(pages[k])
  }

  // ------------------------------------------------------------ reading

  /** `bytes` is what has been read so far of the file from `offset`. */
  predicate ReadSoFar(file: seq<byte>, offset: nat, bytes: seq<byte>) {
    bytes == [] || (offset + |bytes| <= |file| && bytes == file[offset..offset + |bytes|])
  }

  /** A page that ends at or before the read position ends the file there. */
  lemma {:induction false} EndOfFile(file: seq<byte>, page: Page, offset: nat, bytes: seq<byte>, len: nat)
    requires ReadSoFar(file, offset, bytes) && |bytes| <= len
    requires Mirrors(page, file, (offset + |bytes|) / PAGE_SIZE)
    requires (offset + |bytes|) % PAGE_SIZE >= page.validLen
    ensures bytes == PRead(file, offset, len)
  {
    var at := offset + |bytes|;
    assert |Slice(file, at / PAGE_SIZE)| == page.validLen;
    assert at >= |file|;
  }

  lemma ReadOn(file: seq<byte>, offset: nat, bytes: seq<byte>, count: nat)
    requires ReadSoFar(file, offset, bytes) && offset + |bytes| + count <= |file|
    ensures ReadSoFar(file, offset, bytes + file[offset + |bytes|..offset + |bytes| + count])
  {
    var at := offset + |bytes|;
    assert file[offset..at] + file[at..at + count] == file[offset..at + count];
  }

  /** The next bytes come from the page that holds the read position. */
  lemma {:induction false} NextBytes(file: seq<byte>, page: Page, at: nat, count: nat)
    requires Framed(page) && Mirrors(page, file, at / PAGE_SIZE)
    requires 0 < count && at % PAGE_SIZE + count <= page.validLen
    ensures at + count <= |file|
    ensures page.bytes[at % PAGE_SIZE..at % PAGE_SIZE + count] == file[at..at + count]
  {
    var inPage, start := at % PAGE_SIZE, at / PAGE_SIZE * PAGE_SIZE;
    assert Slice(file, at / PAGE_SIZE) == file[start..start + page.validLen];
    SliceOfSlice(page.bytes, 0, page.validLen, inPage, inPage + count);
    SliceOfSlice(file, start, start + page.validLen, inPage, inPage + count);
  }

  /** What the page at the read position adds to a read of at most `len` bytes. */
  function Extended(page: Page, offset: nat, bytes: seq<byte>, len: nat): seq<byte>
    requires Framed(page) && |bytes| < len
  {
    var inPage := (offset + |bytes|) % PAGE_SIZE;
    if inPage >= page.validLen then bytes
    else bytes + page.bytes[inPage..inPage + Min(page.validLen - inPage, len - |bytes|)]
  }

  lemma {:induction false} ExtendedReads(file: seq<byte>, page: Page, offset: nat, bytes: seq<byte>, len: nat)
    requires Framed(page) && Mirrors(page, file, (offset + |bytes|) / PAGE_SIZE)
    requires |bytes| < len && ReadSoFar(file, offset, bytes)
    ensures ReadSoFar(file, offset, Extended(page, offset, bytes, len))
    ensures (offset + |bytes|) % PAGE_SIZE >= page.validLen ==> bytes == PRead(file, offset, len)
  {
    var at := offset + |bytes|;
    if at % PAGE_SIZE >= page.validLen {
      EndOfFile(file, page, offset, bytes, len);
    } else {
      var count := Min(page.validLen - at % PAGE_SIZE, len - |bytes|);
      assert at + count <= |file| && Extended(page, offset, bytes, len) == bytes + file[at..at + count] by {
        NextBytes(file, page, at, count);
      }
      ReadOn(file, offset, bytes, count);
    }
  }

  /** Find a page and mark it as used. */
  method LookUpPage(cache: FilePageCache, key: Key) returns (r: Option<Page>)
    modifies cache`pages
    ensures r == if key in old(cache.pages) then Some(old(cache.pages)[key]) else None
    ensures SameButMarks(old(cache.pages), cache.pages)
  {
    if key !in cache.pages {
      return None;
    }
    r := Some(cache.pages[key]);
    cache.pages := cache.pages[key := cache.pages[key].(referenced := true)];
  }

  lemma MarksCompose(a: map<Key, Page>, b: map<Key, Page>, c: map<Key, Page>)
    requires SameButMarks(a, b) && SameButMarks(b, c)
    ensures SameButMarks(a, c)
  {
  }

  /** No resident page holds this byte of the file. */
  predicate Missing(pages: map<Key, Page>, path: string, at: nat) { Key(path, at / PAGE_SIZE) !in pages }

  /** Copy a range out of the cache; `None` as soon as one page is missing. */
  method ReadCachedAt(cache: FilePageCache, path: string, offset: nat, len: nat, ghost files: map<string, seq<byte>>)
    returns (r: Option<seq<byte>>)
    requires AllFramed(cache.pages)
    modifies cache`pages
    ensures SameButMarks(old(cache.pages), cache.pages)
    ensures old(AllMirror(cache.pages, files)) && r.Some? ==> r.value == PRead(FileOf(files, path), offset, len)
    ensures r == None ==>
              || offset + len > USIZE_MAX
              || exists at :: offset <= at < offset + len && Missing(old(cache.pages), path, at)
  {
    ghost var file, mirrored := FileOf(files, path), AllMirror(cache.pages, files);
    var bytes: seq<byte> := [];
    while |bytes| < len
      invariant |bytes| <= len
      invariant SameButMarks(old(cache.pages), cache.pages)
      invariant mirrored ==> ReadSoFar(file, offset, bytes)
      decreases len - |bytes|
    {
      var at := offset + |bytes|;
      if at > USIZE_MAX {
        return None;
      }
      var lookup := LookUpMirrored(cache, Key(path, at / PAGE_SIZE), old(cache.pages), mirrored, files);
      if lookup == None {
        assert Missing(old(cache.pages), path, at);
        return None;
      }
      var page := lookup.value;
      if mirrored { ExtendedReads(file, page, offset, bytes, len); }
      if at % PAGE_SIZE >= page.validLen {
        return Some(bytes);
      }
      bytes := Extended(page, offset, bytes, len);
    }
    return Some(bytes);
  }

  /** A lookup in a cache that only marks have touched since `start`. */
  method LookUpMirrored(cache: FilePageCache, key: Key, ghost start: map<Key, Page>, ghost mirrored: bool,
                        ghost files: map<string, seq<byte>>)
    returns (r: Option<Page>)
    requires SameButMarks(start, cache.pages) && AllFramed(start) && (mirrored ==> AllMirror(start, files))
    modifies cache`pages
    ensures SameButMarks(start, cache.pages)
    ensures r.Some? <==> key in start
    ensures r.Some? ==> Framed(r.value) && (mirrored ==> Mirrors(r.value, FileOf(files, key.path), key.index))
  {
    ghost var before := cache.pages;
    MarksKeepMirrors(start, before, files);
    r := LookUpPage(cache, key);
    MarksCompose(start, before, cache.pages);
  }

  // ------------------------------------------------------------ filling

  /** A freshly loaded page: its bytes in a cleared frame, marked as used. */
  function FreshPage(bytes: seq<byte>): (page: Page)
    requires |bytes| <= PAGE_SIZE
    ensures Framed(page) && page.bytes[..page.validLen] == bytes
    ensures !page.dirty && page.referenced && !page.held
    ensures forall i :: page.validLen <= i < PAGE_SIZE ==> page.bytes[i] == 0
  {
    Page(bytes + seq(PAGE_SIZE - |bytes|, _ => 0), |bytes|, false, true, false)
  }

  /** What every filling operation keeps: exact accounting, framed pages, and mirrored files. */
  ghost predicate Kept(c: Cache, reserved: nat, mirrored: bool, files: map<string, seq<byte>>) {
    Sound(c, reserved) && AllFramed(c.pages) && (mirrored ==> AllMirror(c.pages, files))
  }

  lemma {:induction false} EvictClearsMarks(c: Cache)
    ensures MarksCleared(c.pages, Evict(c).1.pages)
  {
    var r := if c.active == [] && c.deferred != [] then Refill(c) else c;
    ScanDrops(r.pages, r.active, r.deferred, Min(|r.active|, EVICTION_SCAN_BUDGET));
  }

  lemma ClearedKeepMirrors(before: map<Key, Page>, after: map<Key, Page>, files: map<string, seq<byte>>)
    requires MarksCleared(before, after)
    ensures AllFramed(before) ==> AllFramed(after)
    ensures AllMirror(before, files) ==> AllMirror(after, files)
  {
  }

  lemma {:induction false} EvictKeeps(c: Cache, reserved: nat, mirrored: bool, files: map<string, seq<byte>>)
    requires Kept(c, reserved, mirrored, files)
    ensures Kept(Evict(c).1, reserved, mirrored, files)
  {
    var after := Evict(c).1;
    assert Sound(after, reserved) by { EvictSound(c, reserved); }
    assert MarksCleared(c.pages, after.pages) by { EvictClearsMarks(c); }
    ClearedKeepMirrors(c.pages, after.pages, files);
  }

  method ReserveOrEvict(cache: FilePageCache, ghost reserved: nat, ghost mirrored: bool,
                        ghost files: map<string, seq<byte>>)
    returns (ok: bool)
    requires Kept(cache.Value(), reserved, mirrored, files)
    modifies cache
    ensures Kept(cache.Value(), if ok then reserved + 1 else reserved, mirrored, files)
    ensures old(cache.pageCount) < MAX_FILE_PAGE_CACHE_PAGES ==>
              ok && cache.pages == old(cache.pages) && cache.pageCount == old(cache.pageCount) + 1
  {
    ok := cache.TryReservePage();
    if ok {
      return;
    }
    EvictKeeps(cache.Value(), reserved, mirrored, files);
    var evicted := cache.TryEvictOne();
    if !evicted {
      return false;
    }
    ok := cache.TryReservePage();
  }

  /** Publish a page under a reservation, or give the reservation back. */
  method PublishOrRelease(cache: FilePageCache, key: Key, page: Page, ghost reserved: nat, ghost mirrored: bool,
                          ghost files: map<string, seq<byte>>)
    returns (inserted: bool)
    requires Kept(cache.Value(), reserved + 1, mirrored, files) && Framed(page)
    requires mirrored ==> Mirrors(page, FileOf(files, key.path), key.index)
    modifies cache
    ensures Kept(cache.Value(), reserved, mirrored, files)
    ensures inserted <==> key !in old(cache.pages)
    ensures cache.pages == if inserted then old(cache.pages)[key := page] else old(cache.pages)
    ensures cache.pageCount <= old(cache.pageCount)
  {
    PublishSound(cache.Value(), reserved + 1, key, page);
    inserted := cache.PublishReservedPage(key, page);
    if !inserted {
      cache.ReleasePageReservation();
    }
  }

  /** Part of a full read is a slice of the file when it covers the whole page. */
  lemma {:induction false} ReadCoversPage(file: seq<byte>, offset: nat, data: seq<byte>, index: nat)
    requires data == PRead(file, offset, |data|) && offset <= index * PAGE_SIZE
    requires index * PAGE_SIZE < |file|
    requires index * PAGE_SIZE - offset + Min(PAGE_SIZE, |file| - index * PAGE_SIZE) <= |data|
    ensures var start := index * PAGE_SIZE - offset;
            data[start..start + Min(PAGE_SIZE, |file| - index * PAGE_SIZE)] == Slice(file, index)
  {
    var start, n := index * PAGE_SIZE - offset, Min(PAGE_SIZE, |file| - index * PAGE_SIZE);
    assert data == file[offset..offset + |data|];
    SliceOfSlice(file, offset, offset + |data|, start, start + n);
  }

  /** The read covers everything the file has in this page. */
  predicate Covers(offset: nat, data: seq<byte>, fileSize: nat, index: nat) {
    var start := index * PAGE_SIZE;
    start < fileSize && offset <= start && start + Min(PAGE_SIZE, fileSize - start) <= offset + |data|
  }

  predicate InPage(index: nat, x: nat) { index * PAGE_SIZE <= x < (index + 1) * PAGE_SIZE }

  /** The file has a byte in the page, and every one it has was read. */
  lemma {:induction false} CoversIff(offset: nat, data: seq<byte>, fileSize: nat, index: nat)
    ensures Covers(offset, data, fileSize, index) <==>
            && index * PAGE_SIZE < fileSize
            && forall x: nat :: InPage(index, x) && x < fileSize ==> offset <= x < offset + |data|
  {
    var start := index * PAGE_SIZE;
    if start < fileSize {
      assert InPage(index, start);
      assert InPage(index, start + Min(PAGE_SIZE, fileSize - start) - 1);
    }
  }

  /** Every covered page before `end` is resident, and no page has left. */
  ghost predicate CoveredResident(before: map<Key, Page>, now: map<Key, Page>, path: string, offset: nat,
                                  data: seq<byte>, fileSize: nat, end: nat) {
    && before.Keys <= now.Keys
    && forall i: nat :: i < end && Covers(offset, data, fileSize, i) ==> Key(path, i) in now
  }

  /** Publish the pages a plain read covered completely. */
  method InsertReadRange(cache: FilePageCache, path: string, offset: nat, data: seq<byte>, fileSize: nat,
                         frames: nat, ghost reserved: nat, ghost mirrored: bool,
                         ghost files: map<string, seq<byte>>)
    requires Kept(cache.Value(), reserved, mirrored, files)
    requires mirrored ==> fileSize == |FileOf(files, path)| && data == PRead(FileOf(files, path), offset, |data|)
    modifies cache
    ensures Kept(cache.Value(), reserved, mirrored, files)
    ensures var pages := |data| / PAGE_SIZE + 2;
            pages <= frames && old(cache.pageCount) + pages <= MAX_FILE_PAGE_CACHE_PAGES ==>
              CoveredResident(old(cache.pages), cache.pages, path, offset, data, fileSize, offset + |data| + 1)
  {
    if data == [] || offset >= fileSize {
      return;
    }
    var end := Min(offset + |data|, fileSize);
    var first, last := offset / PAGE_SIZE, (end - 1) / PAGE_SIZE;
    ghost var room := last + 1 - first <= frames
                      && cache.pageCount + (last + 1 - first) <= MAX_FILE_PAGE_CACHE_PAGES;
    var index, left := first, frames;
    while index <= last
      invariant first <= index <= last + 1
      invariant Kept(cache.Value(), reserved, mirrored, files)
      invariant room ==> left >= frames - (index - first) && cache.pageCount <= old(cache.pageCount) + (index - first)
      invariant room ==> CoveredResident(old(cache.pages), cache.pages, path, offset, data, fileSize, index)
      decreases last + 1 - index
    {
      var more, used := InsertOnePage(cache, path, offset, data, fileSize, index, left > 0, reserved, mirrored, files);
      if !more {
        return;
      }
      left := if used then left - 1 else left;
      index := index + 1;
    }
    LastPage(offset, data, fileSize, last);
  }

  /** No page after the one holding the last byte read is covered. */
  lemma LastPage(offset: nat, data: seq<byte>, fileSize: nat, last: nat)
    requires data != [] && offset < fileSize && last == (Min(offset + |data|, fileSize) - 1) / PAGE_SIZE
    ensures forall i: nat :: Covers(offset, data, fileSize, i) ==> i <= last
  {
  }

  /** One round of the loop; a frame that cannot be allocated ends it. */
  method InsertOnePage(cache: FilePageCache, path: string, offset: nat, data: seq<byte>, fileSize: nat, index: nat,
                       frame: bool, ghost reserved: nat, ghost mirrored: bool, ghost files: map<string, seq<byte>>)
    returns (more: bool, used: bool)
    requires Kept(cache.Value(), reserved, mirrored, files)
    requires mirrored ==> fileSize == |FileOf(files, path)| && data == PRead(FileOf(files, path), offset, |data|)
    modifies cache
    ensures Kept(cache.Value(), reserved, mirrored, files)
    ensures used ==> frame
    ensures old(cache.pageCount) < MAX_FILE_PAGE_CACHE_PAGES && frame ==>
              && more && old(cache.pages).Keys <= cache.pages.Keys && cache.pageCount <= old(cache.pageCount) + 1
              && (Covers(offset, data, fileSize, index) ==> Key(path, index) in cache.pages)
  {
    var pageStart := index * PAGE_SIZE;
    if pageStart >= fileSize || pageStart < offset {
      return true, false;
    }
    var validLen := Min(PAGE_SIZE, fileSize - pageStart);
    var sourceStart := pageStart - offset;
    if sourceStart + validLen > |data| || Key(path, index) in cache.pages {
      return true, false;
    }
    var ok := ReserveOrEvict(cache, reserved, mirrored, files);
    if !ok {
      return true, false;
    }
    if !frame {
      cache.ReleasePageReservation();
      return false, false;
    }
    if mirrored { ReadCoversPage(FileOf(files, path), offset, data, index); }
    var inserted := PublishOrRelease(cache, Key(path, index), FreshPage(data[sourceStart..sourceStart + validLen]),
                                     reserved, mirrored, files);
    return true, true;
  }
}
