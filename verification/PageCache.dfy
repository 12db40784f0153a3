/**
  The file page cache as values: resident pages, the CLOCK queue of candidates,
  the queue of pages found dirty or in use, and the count of resident and
  reserved pages. Each function is one operation under the cache's locks.
 */
module PageCache {
  import opened Basics
  import opened ByteFile

  const EVICTION_SCAN_BUDGET: nat := 128
  const EVICTION_DEFERRED_RETRY_BATCH: nat := 16
  const EVICTION_DEFERRED_RETRY_MISS_INTERVAL: nat := 256
  const MAX_FILE_PAGE_CACHE_PAGES: nat := 192 * 1024

  datatype Key = Key(path: string, index: nat)

  /** `held` is whether anything outside the cache holds the page or its frame. */
  datatype Page = Page(bytes: seq<byte>, validLen: nat, dirty: bool, referenced: bool, held: bool)

  datatype Cache = Cache(pages: map<Key, Page>, active: seq<Key>, deferred: seq<Key>, retryMisses: nat, pageCount: nat)

  /** A page that may be dropped once its second chance is used up. */
  predicate Evictable(page: Page) { !page.dirty && !page.held }

  /** What one CLOCK scan leaves. */
  datatype Scanned = Scanned(evicted: Option<Key>, pages: map<Key, Page>, active: seq<Key>, deferred: seq<Key>)

  /** Look at up to `budget` candidates from the front of `active`. */
  function Scan(pages: map<Key, Page>, active: seq<Key>, deferred: seq<Key>, budget: nat): Scanned
    decreases budget
  {
    if budget == 0 || active == [] then Scanned(None, pages, active, deferred)
    else
      var key, rest := active[0], active[1..];
      if key !in pages then Scan(pages, rest, deferred, budget - 1)
      else
        var page := pages[key];
        if page.referenced then
          Scan(pages[key := page.(referenced := false)], rest + [key], deferred, budget - 1)
        else if !Evictable(page) then Scan(pages, rest, deferred + [key], budget - 1)
        else Scanned(Some(key), pages - {key}, rest, deferred)
  }

  /** Move a batch of deferred candidates back to the CLOCK queue. */
  function Refill(c: Cache): Cache {
    var n := Min(|c.deferred|, EVICTION_DEFERRED_RETRY_BATCH);
    c.(active := c.active + c.deferred[..n], deferred := c.deferred[n..])
  }

  function ScanOnce(c: Cache): (bool, Cache) {
    var r := Scan(c.pages, c.active, c.deferred, Min(|c.active|, EVICTION_SCAN_BUDGET));
    var after := c.(pages := r.pages, active := r.active, deferred := r.deferred);
    if r.evicted.Some? then (true, after.(pageCount := if c.pageCount > 0 then c.pageCount - 1 else 0))
    else if r.active == [] && r.deferred != []
    then (false, after.(retryMisses := EVICTION_DEFERRED_RETRY_MISS_INTERVAL))
    else (false, after)
  }

  /** One call of `try_evict_one`: whether a page was dropped, and the cache afterwards. */
  function Evict(c: Cache): (bool, Cache) {
    if c.active == [] && c.deferred != [] then
      if c.retryMisses != 0 then (false, c.(retryMisses := c.retryMisses - 1))
      else ScanOnce(Refill(c))
    else ScanOnce(c)
  }

  /** Insert a page whose slot was reserved, unless the key is already resident. */
  function Publish(c: Cache, key: Key, page: Page): (bool, Cache) {
    if key in c.pages then (false, c)
    else (true, c.(pages := c.pages[key := page], active := c.active + [key]))
  }

  /** What an invalidation covers: a whole file, or the pages `[first, last)` of it. */
  datatype Region = Whole(path: string) | Pages(path: string, first: nat, last: nat) {
    predicate Hits(key: Key) {
      key.path == path && (Pages? ==> first <= key.index < last)
    }
  }

  function Retain(queue: seq<Key>, region: Region): seq<Key> {
    if queue == [] then []
    else if region.Hits(queue[0]) then Retain(queue[1..], region)
    else [queue[0]] + Retain(queue[1..], region)
  }

  function HitPages(c: Cache, region: Region): set<Key> {
    set k | k in c.pages && region.Hits(k)
  }

  /** Drop every page of the region. */
  function Invalidate(c: Cache, region: Region): Cache {
    var gone := HitPages(c, region);
    if gone == {} then c
    else c.(pages := c.pages - gone, active := Retain(c.active, region), deferred := Retain(c.deferred, region),
            pageCount := if |gone| <= c.pageCount then c.pageCount - |gone| else 0)
  }

  // ------------------------------------------------------------ queue bookkeeping

  /** Every resident key sits exactly once in exactly one of the two queues. */
  ghost predicate QueuesSound(pages: map<Key, Page>, active: seq<Key>, deferred: seq<Key>) {
    multiset(active) + multiset(deferred) == multiset(pages.Keys)
  }

  lemma FrontOf(active: seq<Key>)
    requires active != []
    ensures multiset(active) == multiset{active[0]} + multiset(active[1..])
  {
    assert active == [active[0]] + active[1..];
  }

  lemma RemovedKeys(pages: map<Key, Page>, key: Key)
    requires key in pages
    ensures multiset((pages - {key}).Keys) + multiset{key} == multiset(pages.Keys)
    ensures |(pages - {key})| == |pages| - 1
  {
    assert (pages - {key}).Keys == pages.Keys - {key};
  }

  lemma Cancel(a: multiset<Key>, b: multiset<Key>, key: Key)
    requires a + multiset{key} == b + multiset{key}
    ensures a == b
  {
    forall k ensures a[k] == b[k] {
      assert (a + multiset{key})[k] == (b + multiset{key})[k];
    }
  }

  /** In sound queues every candidate is resident. */
  lemma CandidateResident(pages: map<Key, Page>, active: seq<Key>, deferred: seq<Key>, key: Key)
    requires QueuesSound(pages, active, deferred) && (key in active || key in deferred)
    ensures key in pages
  {
    assert key in multiset(active) || key in multiset(deferred);
    assert key in multiset(pages.Keys);
  }

  lemma {:induction false} ScanKeepsQueues(pages: map<Key, Page>, active: seq<Key>, deferred: seq<Key>, budget: nat)
    requires QueuesSound(pages, active, deferred)
    ensures var r := Scan(pages, active, deferred, budget);
            QueuesSound(r.pages, r.active, r.deferred)
    decreases budget
  {
    if budget > 0 && active != [] {
      var key, rest := active[0], active[1..];
      FrontOf(active);
      CandidateResident(pages, active, deferred, key);
      var page := pages[key];
      if page.referenced {
        var cleared := pages[key := page.(referenced := false)];
        assert cleared.Keys == pages.Keys;
        ScanKeepsQueues(cleared, rest + [key], deferred, budget - 1);
      } else if !Evictable(page) {
        ScanKeepsQueues(pages, rest, deferred + [key], budget - 1);
      } else {
        RemovedKeys(pages, key);
        Cancel(multiset(rest) + multiset(deferred), multiset((pages - {key}).Keys), key);
      }
    }
  }

  /** `after` differs from `before` at most in cleared access marks. */
  ghost predicate MarksCleared(before: map<Key, Page>, after: map<Key, Page>) {
    forall k :: k in after ==> k in before && (after[k] == before[k] || after[k] == before[k].(referenced := false))
  }

  /** A scan drops at most the page it reports, which was neither dirty nor held. */
  lemma {:induction false} ScanDrops(pages: map<Key, Page>, active: seq<Key>, deferred: seq<Key>, budget: nat)
    ensures var r := Scan(pages, active, deferred, budget);
            && MarksCleared(pages, r.pages)
            && (r.evicted == None ==> r.pages.Keys == pages.Keys)
            && (r.evicted.Some? ==>
                  && r.evicted.value in pages && Evictable(pages[r.evicted.value])
                  && r.pages.Keys == pages.Keys - {r.evicted.value})
    decreases budget
  {
    if budget > 0 && active != [] {
      var key, rest := active[0], active[1..];
      if key !in pages {
        ScanDrops(pages, rest, deferred, budget - 1);
      } else if pages[key].referenced {
        var cleared := pages[key := pages[key].(referenced := false)];
        assert cleared.Keys == pages.Keys;
        ScanDrops(cleared, rest + [key], deferred, budget - 1);
      } else if !Evictable(pages[key]) {
        ScanDrops(pages, rest, deferred + [key], budget - 1);
      }
    }
  }

  lemma {:induction false} RetainMembers(queue: seq<Key>, region: Region)
    ensures forall k :: multiset(Retain(queue, region))[k] == if region.Hits(k) then 0 else multiset(queue)[k]
  {
    if queue != [] {
      FrontOf(queue);
      RetainMembers(queue[1..], region);
      var r := Retain(queue, region);
      if !region.Hits(queue[0]) {
        assert multiset(r) == multiset{queue[0]} + multiset(Retain(queue[1..], region));
      }
    }
  }

  // ------------------------------------------------------------ what each operation keeps

  /** The count is the resident pages plus the `reserved` slots handed out, within the cap. */
  ghost predicate Sound(c: Cache, reserved: nat) {
    && QueuesSound(c.pages, c.active, c.deferred)
    && c.pageCount == |c.pages| + reserved
    && c.pageCount <= MAX_FILE_PAGE_CACHE_PAGES
    && c.retryMisses <= EVICTION_DEFERRED_RETRY_MISS_INTERVAL
  }

  lemma {:induction false} ScanOnceSound(c: Cache, reserved: nat)
    requires Sound(c, reserved)
    ensures Sound(ScanOnce(c).1, reserved)
    ensures ScanOnce(c).0 ==>
              exists k :: k in c.pages && Evictable(c.pages[k]) && ScanOnce(c).1.pages.Keys == c.pages.Keys - {k}
    ensures !ScanOnce(c).0 ==> ScanOnce(c).1.pages.Keys == c.pages.Keys
  {
    var budget := Min(|c.active|, EVICTION_SCAN_BUDGET);
    ScanKeepsQueues(c.pages, c.active, c.deferred, budget);
    ScanDrops(c.pages, c.active, c.deferred, budget);
    var r := Scan(c.pages, c.active, c.deferred, budget);
    if r.evicted == None {
      SameSize(r.pages, c.pages);
    } else {
      RemovedKeys(c.pages, r.evicted.value);
      SameSize(r.pages, c.pages - {r.evicted.value});
    }
  }

  lemma SameSize(a: map<Key, Page>, b: map<Key, Page>)
    requires a.Keys == b.Keys
    ensures |a| == |b|
  {
    assert |a| == |a.Keys| && |b| == |b.Keys|;
  }

  /** `try_evict_one` drops at most one page, clean and unheld, and says whether it did. */
  lemma {:induction false} EvictSound(c: Cache, reserved: nat)
    requires Sound(c, reserved)
    ensures Sound(Evict(c).1, reserved)
    ensures Evict(c).0 ==>
              exists k :: k in c.pages && Evictable(c.pages[k]) && Evict(c).1.pages.Keys == c.pages.Keys - {k}
    ensures !Evict(c).0 ==> Evict(c).1.pages.Keys == c.pages.Keys
  {
    if c.active == [] && c.deferred != [] {
      if c.retryMisses == 0 {
        RefillSound(c);
        ScanOnceSound(Refill(c), reserved);
      }
    } else {
      ScanOnceSound(c, reserved);
    }
  }

  lemma RefillSound(c: Cache)
    requires QueuesSound(c.pages, c.active, c.deferred)
    ensures QueuesSound(Refill(c).pages, Refill(c).active, Refill(c).deferred)
  {
    var n := Min(|c.deferred|, EVICTION_DEFERRED_RETRY_BATCH);
    assert c.deferred == c.deferred[..n] + c.deferred[n..];
  }

  /** Publishing turns one reservation into one resident page. */
  lemma {:induction false} PublishSound(c: Cache, reserved: nat, key: Key, page: Page)
    requires Sound(c, reserved) && reserved > 0
    ensures Publish(c, key, page).0 <==> key !in c.pages
    ensures Sound(Publish(c, key, page).1, if Publish(c, key, page).0 then reserved - 1 else reserved)
  {
    if key !in c.pages {
      var more := c.pages[key := page];
      assert more - {key} == c.pages;
      RemovedKeys(more, key);
      assert multiset(c.active + [key]) == multiset(c.active) + multiset{key};
    }
  }

  /** An invalidation leaves exactly the pages outside its region, in both queues too. */
  lemma {:induction false} InvalidateSound(c: Cache, reserved: nat, region: Region)
    requires Sound(c, reserved)
    ensures Sound(Invalidate(c, region), reserved)
    ensures forall k :: k in Invalidate(c, region).pages <==> k in c.pages && !region.Hits(k)
  {
    var gone := HitPages(c, region);
    if gone != {} {
      var after := Invalidate(c, region);
      assert after.pages.Keys == c.pages.Keys - gone;
      assert |after.pages| == |c.pages.Keys - gone| == |c.pages| - |gone|;
      RetainMembers(c.active, region);
      RetainMembers(c.deferred, region);
      forall k ensures (multiset(after.active) + multiset(after.deferred))[k] == multiset(after.pages.Keys)[k] {
        assert (multiset(c.active) + multiset(c.deferred))[k] == multiset(c.pages.Keys)[k];
      }
    } else {
      forall k | k in c.pages ensures !region.Hits(k) {
        assert k !in gone;
      }
    }
  }
}
