/**
  Loading a missing page, with sequential readahead: one inode read fills up to four
  frames, and every page published, readahead included, is a slice of the file.
 */
module PageCacheLoads {
  import opened Basics
  import opened ByteFile
  import opened PageCache
  import opened PageCacheOps
  import opened PageCacheReads

  /** An inode as the loader sees it: the size it reports, the bytes a read finds, and whether reads fail. */
  datatype Inode = Inode(size: nat, contents: seq<byte>, fails: bool)

  datatype LoadResult = Loaded(page: Page) | OutOfMemory | ReadError

  /** How many pages one load asks for: after a cached page all the file has left, up to the limit; else one. */
  function WantedPages(cachedPrevious: bool, size: nat, offset: nat): (n: nat)
    ensures 1 <= n <= SEQUENTIAL_READAHEAD_MAX_PAGES
    ensures n > 1 ==> cachedPrevious && offset + (n - 1) * PAGE_SIZE < size
    ensures cachedPrevious && n < SEQUENTIAL_READAHEAD_MAX_PAGES ==> size <= offset + n * PAGE_SIZE
  {
    if cachedPrevious && offset + PAGE_SIZE < size
    then Max(1, Min((size - offset + PAGE_SIZE - 1) / PAGE_SIZE, SEQUENTIAL_READAHEAD_MAX_PAGES))
    else 1
  }

  /** The part of a read buffer that belongs to its i-th page. */
  function Chunk(data: seq<byte>, i: nat): (r: seq<byte>)
    ensures |r| <= PAGE_SIZE
  {
    PRead(data, i * PAGE_SIZE, PAGE_SIZE)
  }

  /** The i-th page of a full read at page `index` is a slice of the file. */
  lemma {:induction false} ChunkIsSlice(file: seq<byte>, index: nat, n: nat, i: nat)
    requires i < n
    ensures Chunk(PRead(file, index * PAGE_SIZE, n * PAGE_SIZE), i) == Slice(file, index + i)
  {
    var offset := index * PAGE_SIZE;
    var end, from := Min(offset + n * PAGE_SIZE, |file|), i * PAGE_SIZE;
    assert (index + i) * PAGE_SIZE == offset + from;
    if offset + from < end {
      SliceOfSlice(file, offset, end, from, Min(from + PAGE_SIZE, end - offset));
    }
  }

  /** The pages a load produced, the faulting one first. */
  ghost predicate LoadedFrom(pages: seq<Page>, data: seq<byte>) {
    forall i :: 0 <= i < |pages| ==> pages[i] == FreshPage(Chunk(data, i))
  }

  /** Cut a read into pages; the first is kept even if empty, an empty later one ends the list. */
  method CutPages(data: seq<byte>, frames: nat) returns (pages: seq<Page>)
    requires 1 <= frames
    ensures 1 <= |pages| <= frames && LoadedFrom(pages, data)
    ensures forall i :: 0 < i < |pages| ==> pages[i].validLen > 0
    ensures |pages| < frames ==> Chunk(data, |pages|) == []
  {
    pages := [FreshPage(Chunk(data, 0))];
    while |pages| < frames
      invariant 1 <= |pages| <= frames && LoadedFrom(pages, data)
      invariant forall i :: 0 < i < |pages| ==> pages[i].validLen > 0
      decreases frames - |pages|
    {
      var bytes := Chunk(data, |pages|);
      if bytes == [] {
        return;
      }
      pages := pages + [FreshPage(bytes)];
    }
  }

  /** Every loaded page stands for the bytes of its place in the file. */
  ghost predicate PagesMirror(pages: seq<Page>, file: seq<byte>, index: nat) {
    forall i :: 0 <= i < |pages| ==> Mirrors(pages[i], file, index + i)
  }

  lemma {:induction false} LoadedPagesMirror(pages: seq<Page>, file: seq<byte>, index: nat, n: nat)
    requires |pages| <= n && LoadedFrom(pages, PRead(file, index * PAGE_SIZE, n * PAGE_SIZE))
    ensures PagesMirror(pages, file, index)
  {
    forall i | 0 <= i < |pages| ensures Mirrors(pages[i], file, index + i) {
      ChunkIsSlice(file, index, n, i);
    }
  }

  lemma MarksKeep(before: Cache, after: Cache, reserved: nat, mirrored: bool, files: map<string, seq<byte>>)
    requires Kept(before, reserved, mirrored, files)
    requires after == before.(pages := after.pages) && SameButMarks(before.pages, after.pages)
    ensures Kept(after, reserved, mirrored, files)
  {
    MarksKeepMirrors(before.pages, after.pages, files);
    assert |before.pages.Keys| == |after.pages.Keys|;
  }

  /** A lookup that keeps the cache sound; a hit is framed and mirrors its file. */
  method LookUpKept(cache: FilePageCache, key: Key, ghost reserved: nat, ghost mirrored: bool,
                    ghost files: map<string, seq<byte>>)
    returns (r: Option<Page>)
    requires Kept(cache.Value(), reserved, mirrored, files)
    modifies cache`pages
    ensures Kept(cache.Value(), reserved, mirrored, files)
    ensures cache.pages.Keys == old(cache.pages).Keys && (r.Some? <==> key in cache.pages)
    ensures r.Some? ==> Framed(r.value) && (mirrored ==> Mirrors(r.value, FileOf(files, key.path), key.index))
  {
    ghost var before := cache.Value();
    r := LookUpPage(cache, key);
    MarksKeep(before, cache.Value(), reserved, mirrored, files);
  }

  /** The pages `[from, to)` of a file are in the cache. */
  ghost predicate Resident(pages: map<Key, Page>, path: string, from: nat, to: nat) {
    forall i: nat :: from <= i < to ==> Key(path, i) in pages
  }

  /** One readahead page: skipped if resident; without a slot the readahead ends. */
  method PublishAhead(cache: FilePageCache, key: Key, page: Page, ghost reserved: nat, ghost mirrored: bool,
                      ghost files: map<string, seq<byte>>)
    returns (more: bool)
    requires Kept(cache.Value(), reserved, mirrored, files) && Framed(page)
    requires mirrored ==> Mirrors(page, FileOf(files, key.path), key.index)
    modifies cache
    ensures Kept(cache.Value(), reserved, mirrored, files)
    ensures old(cache.pageCount) < MAX_FILE_PAGE_CACHE_PAGES ==>
              && more && old(cache.pages).Keys <= cache.pages.Keys && key in cache.pages
              && cache.pageCount <= old(cache.pageCount) + 1
  {
    if key in cache.pages {
      return true;
    }
    more := ReserveOrEvict(cache, reserved, mirrored, files);
    if more {
      var inserted := PublishOrRelease(cache, key, page, reserved, mirrored, files);
    }
  }

  lemma OnePageMirrors(pages: seq<Page>, file: seq<byte>, index: nat, i: nat)
    requires PagesMirror(pages, file, index) && i < |pages|
    ensures Mirrors(pages[i], file, index + i)
  {
  }

  /** The `i`th page of a load as a readahead page. */
  method PublishOneAhead(cache: FilePageCache, path: string, index: nat, pages: seq<Page>, i: nat,
                         ghost reserved: nat, ghost mirrored: bool, ghost files: map<string, seq<byte>>)
    returns (more: bool)
    requires Kept(cache.Value(), reserved, mirrored, files) && i < |pages| && Framed(pages[i])
    requires mirrored ==> PagesMirror(pages, FileOf(files, path), index)
    modifies cache
    ensures Kept(cache.Value(), reserved, mirrored, files)
    ensures old(cache.pageCount) < MAX_FILE_PAGE_CACHE_PAGES ==>
              && more && old(cache.pages).Keys <= cache.pages.Keys && Key(path, index + i) in cache.pages
              && cache.pageCount <= old(cache.pageCount) + 1
  {
    if mirrored { OnePageMirrors(pages, FileOf(files, path), index, i); }
    more := PublishAhead(cache, Key(path, index + i), pages[i], reserved, mirrored, files);
  }

  /** Publish the readahead pages: resident ones are skipped, a full cache ends it. */
  method PublishReadahead(cache: FilePageCache, path: string, index: nat, pages: seq<Page>, ghost reserved: nat,
                          ghost mirrored: bool, ghost files: map<string, seq<byte>>)
    requires Kept(cache.Value(), reserved, mirrored, files)
    requires forall i :: 0 <= i < |pages| ==> Framed(pages[i])
    requires mirrored ==> PagesMirror(pages, FileOf(files, path), index)
    modifies cache
    ensures Kept(cache.Value(), reserved, mirrored, files)
    ensures old(cache.pageCount) + |pages| <= MAX_FILE_PAGE_CACHE_PAGES ==>
              old(cache.pages).Keys <= cache.pages.Keys && Resident(cache.pages, path, index + 1, index + |pages|)
  {
    ghost var room := cache.pageCount + |pages| <= MAX_FILE_PAGE_CACHE_PAGES;
    var i := 1;
    while i < |pages|
      invariant 1 <= i && (|pages| > 0 ==> i <= |pages|)
      invariant Kept(cache.Value(), reserved, mirrored, files)
      invariant room ==> cache.pageCount < old(cache.pageCount) + i
      invariant room ==> old(cache.pages).Keys <= cache.pages.Keys && Resident(cache.pages, path, index + 1, index + i)
    {
      var more := PublishOneAhead(cache, path, index, pages, i, reserved, mirrored, files);
      if !more {
        return;
      }
      i := i + 1;
    }
  }

  /** Publish what a load produced and answer with the faulting page. */
  method PublishLoaded(cache: FilePageCache, path: string, index: nat, pages: seq<Page>, ghost reserved: nat,
                       ghost mirrored: bool, ghost files: map<string, seq<byte>>)
    returns (page: Page)
    requires Kept(cache.Value(), reserved, mirrored, files)
    requires |pages| > 0 && forall i :: 0 <= i < |pages| ==> Framed(pages[i])
    requires mirrored ==> PagesMirror(pages, FileOf(files, path), index)
    modifies cache
    ensures Kept(cache.Value(), reserved, mirrored, files)
    ensures Framed(page) && (mirrored ==> Mirrors(page, FileOf(files, path), index))
    ensures old(cache.pageCount) + |pages| < MAX_FILE_PAGE_CACHE_PAGES && Key(path, index) !in old(cache.pages) ==>
              old(cache.pages).Keys <= cache.pages.Keys && Resident(cache.pages, path, index, index + |pages|)
  {
    page := pages[0];
    assert mirrored ==> Mirrors(page, FileOf(files, path), index + 0);
    var ok := ReserveOrEvict(cache, reserved, mirrored, files);
    if !ok {
      return;
    }
    var inserted := PublishOrRelease(cache, Key(path, index), page, reserved, mirrored, files);
    if !inserted {
      var existing := LookUpKept(cache, Key(path, index), reserved, mirrored, files);
      if existing.Some? {
        page := existing.value;
      }
      return;
    }
    PublishReadahead(cache, path, index, pages, reserved, mirrored, files);
  }

  /** The pages one load reads when `frames` frames are left. */
  function LoadCount(pages: map<Key, Page>, path: string, index: nat, size: nat, frames: nat): nat {
    Min(frames, WantedPages(index != 0 && Key(path, index - 1) in pages, size, index * PAGE_SIZE))
  }

  /** A full read has a byte for every page it was asked for, so no page is cut off. */
  lemma {:induction false} NothingCutOff(file: seq<byte>, cachedPrevious: bool, index: nat, n: nat, pages: seq<Page>)
    requires 1 <= |pages| <= n <= WantedPages(cachedPrevious, |file|, index * PAGE_SIZE)
    requires |pages| < n ==> Chunk(PRead(file, index * PAGE_SIZE, n * PAGE_SIZE), |pages|) == []
    ensures |pages| == n
  {
    if |pages| < n {
      ChunkIsSlice(file, index, n, |pages|);
    }
  }

  /**
    The page of a file, from the cache or loaded with readahead. `frames` is how many
    frames can still be allocated. A full cache still answers, with an uncached page.
   */
  method GetOrLoad(cache: FilePageCache, path: string, index: nat, inode: Inode, frames: nat, ghost reserved: nat,
                   ghost mirrored: bool, ghost files: map<string, seq<byte>>)
    returns (r: LoadResult)
    requires Kept(cache.Value(), reserved, mirrored, files) && index * PAGE_SIZE <= USIZE_MAX
    requires mirrored ==> inode.contents == FileOf(files, path) && inode.size == |inode.contents|
    modifies cache
    ensures Kept(cache.Value(), reserved, mirrored, files)
    ensures r.Loaded? ==> Framed(r.page) && (mirrored ==> Mirrors(r.page, FileOf(files, path), index))
    ensures r.OutOfMemory? <==> Key(path, index) !in old(cache.pages) && frames == 0
    ensures r.ReadError? <==> Key(path, index) !in old(cache.pages) && frames > 0
                              && index * PAGE_SIZE < inode.size && inode.fails
    ensures r.Loaded? && old(cache.pageCount) + SEQUENTIAL_READAHEAD_MAX_PAGES < MAX_FILE_PAGE_CACHE_PAGES ==>
              old(cache.pages).Keys <= cache.pages.Keys && Key(path, index) in cache.pages
    ensures mirrored && r.Loaded? && Key(path, index) !in old(cache.pages)
            && old(cache.pageCount) + SEQUENTIAL_READAHEAD_MAX_PAGES < MAX_FILE_PAGE_CACHE_PAGES ==>
              Resident(cache.pages, path, index, index + LoadCount(old(cache.pages), path, index, inode.size, frames))
  {
    var hit := LookUpKept(cache, Key(path, index), reserved, mirrored, files);
    if hit.Some? {
      return Loaded(hit.value);
    }
    var offset := index * PAGE_SIZE;
    var n := LoadCount(cache.pages, path, index, inode.size, frames);
    if n == 0 {
      return OutOfMemory;
    }
    if offset < inode.size && inode.fails {
      return ReadError;
    }
    var data := if offset < inode.size then PRead(inode.contents, offset, n * PAGE_SIZE) else [];
    var pages := CutPages(data, n);
    if mirrored {
      assert data == PRead(FileOf(files, path), index * PAGE_SIZE, n * PAGE_SIZE);
      LoadedPagesMirror(pages, FileOf(files, path), index, n);
      NothingCutOff(FileOf(files, path), index != 0 && Key(path, index - 1) in cache.pages, index, n, pages);
    }
    var page := PublishLoaded(cache, path, index, pages, reserved, mirrored, files);
    return Loaded(page);
  }
}
