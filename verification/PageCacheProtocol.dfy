/**
  The page cache under concurrency, one atomic access at a time. Reservations race on
  the page count with a weak compare-and-swap; publication, eviction and invalidation
  hold the cache's locks but subtract from the count in a step of their own; holders
  of a page mark it and let go of it at any moment, also in the middle of a scan.
 */
module PageCacheProtocol {
  import opened Basics
  import opened PageCache

  /** Where a thread is in reserving a slot. */
  datatype Thread = Idle | Counting(seen: nat) | Reserved

  /**
    What the holder of the locks is doing: nothing, scanning with `left` candidates to
    go, done with a candidate's dirty flag but not yet with its references, or about to
    subtract the `n` pages it dropped.
   */
  datatype Writer = Free | Scanning(left: nat) | Checked(key: Key, left: nat) | Owing(n: nat)

  datatype State = State(cache: Cache, writer: Writer, threads: seq<Thread>)

  datatype Step =
    | LoadCount(t: nat) | CasCount(t: nat, spurious: bool) | Release(t: nat)
    | PublishPage(t: nat, key: Key, page: Page)
    | BeginEvict | ScanNext | CheckReferences | Subtract
    | InvalidateRegion(region: Region)
    | ClonePage(key: Key) | MarkReferenced(key: Key) | MarkDirty(key: Key) | LetGo(key: Key)

  predicate Init(s: State) {
    && s.cache == Cache(map[], [], [], 0, 0) && s.writer == Free
    && forall t :: 0 <= t < |s.threads| ==> s.threads[t] == Idle
  }

  predicate Holds(s: State, key: Key) { key in s.cache.pages && s.cache.pages[key].held }

  predicate Enabled(s: State, step: Step) {
    match step
    case LoadCount(t) => t < |s.threads| && s.threads[t] == Idle
    case CasCount(t, _) => t < |s.threads| && s.threads[t].Counting?
    case Release(t) => t < |s.threads| && s.threads[t] == Reserved
    case PublishPage(t, _, page) =>
      t < |s.threads| && s.threads[t] == Reserved && s.writer == Free && page.referenced && page.held && !page.dirty
    case BeginEvict => s.writer == Free
    case ScanNext => s.writer.Scanning?
    case CheckReferences => s.writer.Checked? && s.writer.key in s.cache.pages
    case Subtract => s.writer.Owing?
    case InvalidateRegion(_) => s.writer == Free
    case ClonePage(key) => s.writer == Free && key in s.cache.pages
    case MarkReferenced(key) => Holds(s, key)
    case MarkDirty(key) => Holds(s, key)
    case LetGo(key) => Holds(s, key)
  }

  function WithPage(s: State, key: Key, page: Page): State {
    s.(cache := s.cache.(pages := s.cache.pages[key := page]))
  }

  /** The compare-and-swap loop of a reservation, one turn of it. */
  function Cas(s: State, t: nat, spurious: bool): State
    requires Enabled(s, CasCount(t, spurious))
  {
    var seen := s.threads[t].seen;
    if seen >= MAX_FILE_PAGE_CACHE_PAGES then s.(threads := s.threads[t := Idle])
    else if s.cache.pageCount == seen && !spurious
    then s.(threads := s.threads[t := Reserved], cache := s.cache.(pageCount := seen + 1))
    else s.(threads := s.threads[t := Counting(s.cache.pageCount)])
  }

  function StartEviction(s: State): State {
    var c := s.cache;
    if c.active == [] && c.deferred != [] then
      if c.retryMisses != 0 then s.(cache := c.(retryMisses := c.retryMisses - 1))
      else s.(cache := Refill(c), writer := Scanning(Min(|Refill(c).active|, EVICTION_SCAN_BUDGET)))
    else s.(writer := Scanning(Min(|c.active|, EVICTION_SCAN_BUDGET)))
  }

  /** The next candidate of a scan, up to its dirty flag; or the end of the scan. */
  function Scan1(s: State): State
    requires s.writer.Scanning?
  {
    var c := s.cache;
    if s.writer.left == 0 || c.active == [] then
      s.(writer := Free,
         cache := if c.active == [] && c.deferred != []
                  then c.(retryMisses := EVICTION_DEFERRED_RETRY_MISS_INTERVAL) else c)
    else
      var key, rest, left := c.active[0], c.active[1..], s.writer.left - 1;
      if key !in c.pages then s.(cache := c.(active := rest), writer := Scanning(left))
      else if c.pages[key].referenced then
        s.(cache := c.(active := rest + [key], pages := c.pages[key := c.pages[key].(referenced := false)]),
           writer := Scanning(left))
      else if c.pages[key].dirty then
        s.(cache := c.(active := rest, deferred := c.deferred + [key]), writer := Scanning(left))
      else s.(cache := c.(active := rest), writer := Checked(key, left))
  }

  function CheckHeld(s: State): State
    requires Enabled(s, CheckReferences)
  {
    var c, key := s.cache, s.writer.key;
    if c.pages[key].held
    then s.(cache := c.(deferred := c.deferred + [key]), writer := Scanning(s.writer.left))
    else s.(cache := c.(pages := c.pages - {key}), writer := Owing(1))
  }

  function Do(s: State, step: Step): State
    requires Enabled(s, step)
  {
    match step
    case LoadCount(t) => s.(threads := s.threads[t := Counting(s.cache.pageCount)])
    case CasCount(t, spurious) => Cas(s, t, spurious)
    case Release(t) =>
      s.(threads := s.threads[t := Idle],
         cache := s.cache.(pageCount := if s.cache.pageCount > 0 then s.cache.pageCount - 1 else 0))
    case PublishPage(t, key, page) =>
      var (inserted, cache) := Publish(s.cache, key, page);
      s.(cache := cache, threads := if inserted then s.threads[t := Idle] else s.threads)
    case BeginEvict => StartEviction(s)
    case ScanNext => Scan1(s)
    case CheckReferences => CheckHeld(s)
    case Subtract =>
      s.(writer := Free,
         cache := s.cache.(pageCount := if s.cache.pageCount >= s.writer.n then s.cache.pageCount - s.writer.n else 0))
    case InvalidateRegion(region) =>
      s.(cache := Invalidate(s.cache, region).(pageCount := s.cache.pageCount),
         writer := if HitPages(s.cache, region) == {} then Free else Owing(|HitPages(s.cache, region)|))
    case ClonePage(key) => WithPage(s, key, s.cache.pages[key].(held := true))
    case MarkReferenced(key) => WithPage(s, key, s.cache.pages[key].(referenced := true))
    case MarkDirty(key) => WithPage(s, key, s.cache.pages[key].(dirty := true))
    case LetGo(key) => WithPage(s, key, s.cache.pages[key].(held := false))
  }

  ghost predicate Run(s: State, steps: seq<Step>, after: State)
    decreases |steps|
  {
    if steps == [] then after == s
    else Enabled(s, steps[0]) && Run(Do(s, steps[0]), steps[1..], after)
  }

  // ------------------------------------------------------------ the invariant

  /** How many threads hold a reservation. */
  function Reservations(threads: seq<Thread>): nat {
    if threads == [] then 0
    else (if threads[0] == Reserved then 1 else 0) + Reservations(threads[1..])
  }

  lemma {:induction false} ReservationsUpdate(threads: seq<Thread>, t: nat, now: Thread)
    requires t < |threads|
    ensures Reservations(threads[t := now])
         == Reservations(threads) - (if threads[t] == Reserved then 1 else 0) + (if now == Reserved then 1 else 0)
  {
    if t == 0 {
      assert threads[t := now][1..] == threads[1..];
    } else {
      assert threads[t := now][1..] == threads[1..][t - 1 := now];
      ReservationsUpdate(threads[1..], t - 1, now);
    }
  }

  /** Pages already dropped from the map but still counted. */
  function Owed(writer: Writer): nat { if writer.Owing? then writer.n else 0 }

  /** The candidate in the scanner's hand, in neither queue. */
  function InHand(writer: Writer): multiset<Key> { if writer.Checked? then multiset{writer.key} else multiset{} }

  ghost predicate Inv(s: State) {
    && multiset(s.cache.active) + multiset(s.cache.deferred) + InHand(s.writer) == multiset(s.cache.pages.Keys)
    && s.cache.pageCount == |s.cache.pages| + Reservations(s.threads) + Owed(s.writer)
    && s.cache.pageCount <= MAX_FILE_PAGE_CACHE_PAGES
    && s.cache.retryMisses <= EVICTION_DEFERRED_RETRY_MISS_INTERVAL
  }

  lemma {:induction false} NoneReserved(threads: seq<Thread>)
    requires forall t :: 0 <= t < |threads| ==> threads[t] == Idle
    ensures Reservations(threads) == 0
  {
    if threads != [] {
      NoneReserved(threads[1..]);
    }
  }

  lemma InitInv(s: State)
    requires Init(s)
    ensures Inv(s)
  {
    NoneReserved(s.threads);
  }

  lemma {:induction false} ThreadStepKeeps(s: State, step: Step)
    requires Inv(s) && Enabled(s, step) && (step.LoadCount? || step.CasCount? || step.Release?)
    ensures Inv(Do(s, step))
  {
    var now := Do(s, step).threads[step.t];
    assert Do(s, step).threads == s.threads[step.t := now];
    ReservationsUpdate(s.threads, step.t, now);
  }

  lemma {:induction false} PublishKeeps(s: State, step: Step)
    requires Inv(s) && Enabled(s, step) && step.PublishPage?
    ensures Inv(Do(s, step))
  {
    ReservationsUpdate(s.threads, step.t, Idle);
    PublishSound(s.cache, Reservations(s.threads), step.key, step.page);
  }

  lemma {:induction false} RefillKeeps(s: State, left: nat)
    requires Inv(s) && s.writer == Free
    ensures Inv(s.(cache := Refill(s.cache), writer := Scanning(left)))
  {
    RefillSound(s.cache);
  }

  lemma {:induction false} BeginEvictKeeps(s: State)
    requires Inv(s) && s.writer == Free
    ensures Inv(StartEviction(s))
  {
    var c := s.cache;
    if c.active == [] && c.deferred != [] && c.retryMisses == 0 {
      RefillKeeps(s, Min(|Refill(c).active|, EVICTION_SCAN_BUDGET));
    }
  }

  /** Wherever a scan puts its candidate, the queues and its hand hold the same keys. */
  lemma {:induction false} FrontMoves(active: seq<Key>, deferred: seq<Key>)
    requires active != []
    ensures var key, rest, all := active[0], active[1..], multiset(active) + multiset(deferred);
            && multiset(rest + [key]) + multiset(deferred) == all
            && multiset(rest) + multiset(deferred + [key]) == all
            && multiset(rest) + multiset(deferred) + multiset{key} == all
  {
    FrontOf(active);
  }

  lemma {:induction false} ScanKeeps(s: State)
    requires Inv(s) && s.writer.Scanning?
    ensures Inv(Scan1(s))
  {
    var c := s.cache;
    if s.writer.left != 0 && c.active != [] {
      var key := c.active[0];
      FrontMoves(c.active, c.deferred);
      assert key in multiset(c.active);
      assert key in multiset(c.pages.Keys);
      if c.pages[key].referenced {
        SameSize(c.pages[key := c.pages[key].(referenced := false)], c.pages);
      }
    }
  }

  lemma {:induction false} CheckKeeps(s: State)
    requires Inv(s) && s.writer.Checked?
    ensures Enabled(s, CheckReferences) && Inv(CheckHeld(s))
  {
    var c, key := s.cache, s.writer.key;
    assert key in multiset(c.pages.Keys);
    RemovedKeys(c.pages, key);
    if c.pages[key].held {
      assert multiset(c.deferred + [key]) == multiset(c.deferred) + multiset{key};
    } else {
      assert multiset(c.active) + multiset(c.deferred) + multiset{key} == multiset(c.pages.Keys);
      assert multiset(c.active) + multiset(c.deferred) == multiset(c.pages.Keys) - multiset{key};
    }
  }

  lemma {:induction false} InvalidateKeeps(s: State, region: Region)
    requires Inv(s) && s.writer == Free
    ensures Inv(Do(s, InvalidateRegion(region)))
  {
    InvalidateSound(s.cache, Reservations(s.threads), region);
  }

  lemma {:induction false} HolderStepKeeps(s: State, step: Step)
    requires Inv(s) && Enabled(s, step)
    requires step.ClonePage? || step.MarkReferenced? || step.MarkDirty? || step.LetGo?
    ensures Inv(Do(s, step))
  {
    SameSize(Do(s, step).cache.pages, s.cache.pages);
  }

  lemma {:induction false} StepKeeps(s: State, step: Step)
    requires Inv(s) && Enabled(s, step)
    ensures Inv(Do(s, step))
  {
    match step
    case LoadCount(_) => ThreadStepKeeps(s, step);
    case CasCount(_, _) => ThreadStepKeeps(s, step);
    case Release(_) => ThreadStepKeeps(s, step);
    case PublishPage(_, _, _) => PublishKeeps(s, step);
    case BeginEvict => BeginEvictKeeps(s);
    case ScanNext => ScanKeeps(s);
    case CheckReferences => CheckKeeps(s);
    case Subtract =>
    case InvalidateRegion(region) => InvalidateKeeps(s, region);
    case ClonePage(_) => HolderStepKeeps(s, step);
    case MarkReferenced(_) => HolderStepKeeps(s, step);
    case MarkDirty(_) => HolderStepKeeps(s, step);
    case LetGo(_) => HolderStepKeeps(s, step);
  }

  lemma {:induction false} RunKeeps(s: State, steps: seq<Step>, after: State)
    requires Inv(s) && Run(s, steps, after)
    ensures Inv(after)
    decreases |steps|
  {
    if steps != [] {
      StepKeeps(s, steps[0]);
      RunKeeps(Do(s, steps[0]), steps[1..], after);
    }
  }

  // ------------------------------------------------------------ what every interleaving guarantees

  /** The count never exceeds the cap, and never misses a resident page or a reservation. */
  lemma {:induction false} CountIsExact(start: State, steps: seq<Step>, s: State)
    requires Init(start) && Run(start, steps, s)
    ensures |s.cache.pages| + Reservations(s.threads) <= s.cache.pageCount <= MAX_FILE_PAGE_CACHE_PAGES
    ensures !s.writer.Owing? ==> s.cache.pageCount == |s.cache.pages| + Reservations(s.threads)
  {
    InitInv(start);
    RunKeeps(start, steps, s);
  }

  /** Unless it is in the scanner's hand, a resident key sits exactly once in exactly one queue. */
  lemma {:induction false} EachKeyQueuedOnce(start: State, steps: seq<Step>, s: State, key: Key)
    requires Init(start) && Run(start, steps, s)
    ensures var queued := multiset(s.cache.active)[key] + multiset(s.cache.deferred)[key];
            if key !in s.cache.pages then queued == 0
            else if s.writer.Checked? && s.writer.key == key then queued == 0
            else queued == 1
  {
    InitInv(start);
    RunKeeps(start, steps, s);
    assert (multiset(s.cache.active) + multiset(s.cache.deferred) + InHand(s.writer))[key]
        == multiset(s.cache.pages.Keys)[key];
  }

  /** A page leaves the cache only by invalidation, or evicted while nothing outside the cache holds it. */
  lemma {:induction false} HeldPagesStay(s: State, step: Step, key: Key)
    requires Inv(s) && Enabled(s, step) && key in s.cache.pages && key !in Do(s, step).cache.pages
    ensures (step.InvalidateRegion? && step.region.Hits(key)) || (step.CheckReferences? && !s.cache.pages[key].held)
  {
    if step.InvalidateRegion? {
      InvalidateSound(s.cache, Reservations(s.threads), step.region);
    }
  }

  // ------------------------------------------------------------ dirty pages

  /** A step leaves the candidate in the scanner's hand there unless the scanner itself moves. */
  lemma StaysInHand(s: State, step: Step, key: Key)
    requires Inv(s) && Enabled(s, step) && s.writer.Checked? && s.writer.key == key && step != CheckReferences
    ensures key in s.cache.pages && key in Do(s, step).cache.pages && Do(s, step).writer == s.writer
    ensures Do(s, step).cache.pages[key].dirty <==> s.cache.pages[key].dirty || step == MarkDirty(key)
  {
    CheckKeeps(s);
  }

  lemma {:induction false} DirtiedInHand(s: State, steps: seq<Step>, after: State, key: Key)
    requires Inv(s) && Run(s, steps, after) && CheckReferences !in steps
    requires s.writer.Checked? && s.writer.key == key
    ensures key in s.cache.pages && key in after.cache.pages && after.writer == s.writer && Inv(after)
    ensures after.cache.pages[key].dirty <==> s.cache.pages[key].dirty || MarkDirty(key) in steps
    decreases |steps|
  {
    CheckKeeps(s);
    if steps != [] {
      StaysInHand(s, steps[0], key);
      StepKeeps(s, steps[0]);
      assert steps == [steps[0]] + steps[1..];
      DirtiedInHand(Do(s, steps[0]), steps[1..], after, key);
    }
  }

  /**
    When an eviction drops a dirty page: exactly when a holder marked it between the
    scanner's look at the dirty flag and its look at the references. `s` is a state in
    which the scanner takes up a candidate, `after` the one in which it drops it.
   */
  lemma {:induction false} DropsDirtyIff(s: State, steps: seq<Step>, after: State)
    requires Inv(s) && s.writer.Scanning? && Scan1(s).writer.Checked?
    requires CheckReferences !in steps && Run(Scan1(s), steps, after)
    ensures var key := Scan1(s).writer.key;
            && Enabled(after, CheckReferences) && after.writer.key == key
            && (key !in CheckHeld(after).cache.pages ==>
                  (after.cache.pages[key].dirty <==> MarkDirty(key) in steps))
  {
    ScanKeeps(s);
    DirtiedInHand(Scan1(s), steps, after, Scan1(s).writer.key);
  }

  lemma {:induction false} RunConcat(s: State, first: seq<Step>, middle: State, second: seq<Step>, after: State)
    requires Run(s, first, middle) && Run(middle, second, after)
    ensures Run(s, first + second, after)
    decreases |first|
  {
    if first == [] {
      assert first + second == second;
    } else {
      assert (first + second)[1..] == first[1..] + second;
      RunConcat(Do(s, first[0]), first[1..], middle, second, after);
    }
  }

  lemma TwoSteps(s: State, one: Step, two: Step)
    requires Enabled(s, one) && Enabled(Do(s, one), two)
    ensures Run(s, [one, two], Do(Do(s, one), two))
  {
    assert [one, two][1..] == [two] && [two][1..] == [];
  }

  /** A cache with one page in it and the locks free. */
  function OnePage(key: Key, page: Page): State {
    State(Cache(map[key := page], [key], [], 0, 1), Free, [Idle])
  }

  lemma {:induction false} OnePageReachable(key: Key, page: Page) returns (start: State, steps: seq<Step>)
    requires page.referenced && page.held && !page.dirty
    ensures Init(start) && Run(start, steps, OnePage(key, page))
  {
    start := State(Cache(map[], [], [], 0, 0), Free, [Idle]);
    var reserved := State(Cache(map[], [], [], 0, 1), Free, [Reserved]);
    TwoSteps(start, LoadCount(0), CasCount(0, false));
    assert Do(Do(start, LoadCount(0)), CasCount(0, false)) == reserved;
    var publish := PublishPage(0, key, page);
    assert Do(reserved, publish) == OnePage(key, page);
    assert Run(reserved, [publish], OnePage(key, page)) by { assert [publish][1..] == []; }
    steps := [LoadCount(0), CasCount(0, false)] + [publish];
    RunConcat(start, [LoadCount(0), CasCount(0, false)], reserved, [publish], OnePage(key, page));
  }

  /** A first scan takes the second chance away. */
  lemma {:induction false} LosesSecondChance(key: Key, page: Page)
    requires page.referenced
    ensures Run(OnePage(key, page), [BeginEvict, ScanNext] + [ScanNext], OnePage(key, page.(referenced := false)))
  {
    var s, after := OnePage(key, page), OnePage(key, page.(referenced := false));
    TwoSteps(s, BeginEvict, ScanNext);
    var middle := after.(writer := Scanning(0));
    assert Do(Do(s, BeginEvict), ScanNext) == middle;
    assert Run(middle, [ScanNext], after) by { assert [ScanNext][1..] == []; }
    RunConcat(s, [BeginEvict, ScanNext], middle, [ScanNext], after);
  }

  /** A holder that marks the page and lets go of it inside the window. */
  lemma {:induction false} MarkedInWindow(key: Key, page: Page) returns (after: State)
    requires !page.referenced && page.held && !page.dirty
    ensures Run(OnePage(key, page), [BeginEvict, ScanNext] + [MarkDirty(key), LetGo(key)], after)
    ensures Enabled(after, CheckReferences) && after.writer.key == key
    ensures after.cache.pages[key].dirty && key !in CheckHeld(after).cache.pages
  {
    var s := OnePage(key, page);
    TwoSteps(s, BeginEvict, ScanNext);
    var middle := State(Cache(map[key := page], [], [], 0, 1), Checked(key, 0), [Idle]);
    assert Do(Do(s, BeginEvict), ScanNext) == middle;
    TwoSteps(middle, MarkDirty(key), LetGo(key));
    after := Do(Do(middle, MarkDirty(key)), LetGo(key));
    RunConcat(s, [BeginEvict, ScanNext], middle, [MarkDirty(key), LetGo(key)], after);
  }

  /** Such runs exist, for every page that is ever published: an eviction can drop a dirty page. */
  lemma {:induction false} DirtyPageCanBeDropped(key: Key, page: Page)
    returns (start: State, steps: seq<Step>, after: State)
    requires page.referenced && page.held && !page.dirty
    ensures Init(start) && Run(start, steps, after) && Enabled(after, CheckReferences) && after.writer.key == key
    ensures after.cache.pages[key].dirty && key !in CheckHeld(after).cache.pages
  {
    start, steps := OnePageReachable(key, page);
    LosesSecondChance(key, page);
    var cold := page.(referenced := false);
    RunConcat(start, steps, OnePage(key, page), [BeginEvict, ScanNext] + [ScanNext], OnePage(key, cold));
    steps := steps + ([BeginEvict, ScanNext] + [ScanNext]);
    after := MarkedInWindow(key, cold);
    RunConcat(start, steps, OnePage(key, cold), [BeginEvict, ScanNext] + [MarkDirty(key), LetGo(key)], after);
    steps := steps + ([BeginEvict, ScanNext] + [MarkDirty(key), LetGo(key)]);
  }

  // ------------------------------------------------------------ the scan left alone

  /** A scan that no other thread interrupts. */
  function ScanAlone(s: State): State
    requires s.writer.Scanning?
    decreases s.writer.left
  {
    var next := Do(s, ScanNext);
    if next.writer == Free then next
    else if next.writer.Scanning? then ScanAlone(next)
    else
      var checked := Do(next, CheckReferences);
      if checked.writer.Owing? then Do(checked, Subtract) else ScanAlone(checked)
  }

  /** Left alone, the steps of a scan compute the atomic scan. */
  lemma {:induction false} ScanAloneIsScan(s: State)
    requires s.writer.Scanning?
    ensures var c := s.cache;
            var r := Scan(c.pages, c.active, c.deferred, s.writer.left);
            var scanned := c.(pages := r.pages, active := r.active, deferred := r.deferred);
            ScanAlone(s).cache ==
              if r.evicted.Some? then scanned.(pageCount := if c.pageCount > 0 then c.pageCount - 1 else 0)
              else if r.active == [] && r.deferred != []
              then scanned.(retryMisses := EVICTION_DEFERRED_RETRY_MISS_INTERVAL)
              else scanned
    decreases s.writer.left
  {
    var next := Do(s, ScanNext);
    if next.writer.Scanning? {
      ScanAloneIsScan(next);
    } else if next.writer.Checked? {
      var checked := Do(next, CheckReferences);
      if checked.writer.Scanning? {
        ScanAloneIsScan(checked);
      }
    }
  }

  /** Left alone, an eviction is `try_evict_one`. */
  lemma {:induction false} EvictionAloneIsEvict(s: State)
    requires s.writer == Free
    ensures var begun := Do(s, BeginEvict);
            Evict(s.cache).1 == if begun.writer.Scanning? then ScanAlone(begun).cache else begun.cache
  {
    var begun := Do(s, BeginEvict);
    if begun.writer.Scanning? {
      ScanAloneIsScan(begun);
    }
  }

  /** Left alone, the removal of a region and the correction of the count that follows are `invalidate`. */
  lemma {:induction false} InvalidationAloneIsInvalidate(s: State, region: Region)
    requires Inv(s) && s.writer == Free
    ensures var removed := Do(s, InvalidateRegion(region));
            s.(cache := Invalidate(s.cache, region)) == if removed.writer.Owing? then Do(removed, Subtract) else removed
  {
    InvalidateKeeps(s, region);
  }

  // ------------------------------------------------------------ reservations, holders and marks

  /** A reservation that is released again leaves no trace. */
  lemma {:induction false} ReleaseUndoesReserve(s: State, t: nat)
    requires t < |s.threads| && s.threads[t] == Idle && s.cache.pageCount < MAX_FILE_PAGE_CACHE_PAGES
    ensures Run(s, [LoadCount(t), CasCount(t, false)] + [Release(t)], s)
  {
    TwoSteps(s, LoadCount(t), CasCount(t, false));
    var reserved := Do(Do(s, LoadCount(t)), CasCount(t, false));
    assert reserved.threads == s.threads[t := Reserved] && reserved.cache.pageCount == s.cache.pageCount + 1;
    var released := Do(reserved, Release(t));
    assert released.threads == s.threads;
    assert Run(reserved, [Release(t)], s) by { assert [Release(t)][1..] == []; }
    RunConcat(s, [LoadCount(t), CasCount(t, false)], reserved, [Release(t)], s);
  }

  /** Nobody lets go of the page or invalidates it. */
  predicate LeavesAlone(steps: seq<Step>, key: Key) {
    forall i :: 0 <= i < |steps| ==>
      steps[i] != LetGo(key) && (steps[i].InvalidateRegion? ==> !steps[i].region.Hits(key))
  }

  lemma {:induction false} HeldStepKeeps(s: State, step: Step, key: Key)
    requires Inv(s) && Enabled(s, step) && Holds(s, key) && LeavesAlone([step], key)
    ensures Holds(Do(s, step), key)
    ensures Do(s, step).cache.pages[key].bytes == s.cache.pages[key].bytes
    ensures Do(s, step).cache.pages[key].validLen == s.cache.pages[key].validLen
  {
    assert [step][0] == step;
    if key !in Do(s, step).cache.pages { HeldPagesStay(s, step, key); }
  }

  lemma {:induction false} HeldRunKeeps(s: State, steps: seq<Step>, after: State, key: Key)
    requires Inv(s) && Run(s, steps, after) && Holds(s, key) && LeavesAlone(steps, key)
    ensures Holds(after, key) && after.cache.pages[key].bytes == s.cache.pages[key].bytes
    ensures after.cache.pages[key].validLen == s.cache.pages[key].validLen
    decreases |steps|
  {
    if steps != [] {
      assert LeavesAlone([steps[0]], key);
      HeldStepKeeps(s, steps[0], key);
      StepKeeps(s, steps[0]);
      HeldRunKeeps(Do(s, steps[0]), steps[1..], after, key);
    }
  }

  /** A page somebody looked up stays, with its bytes, whatever is evicted meanwhile. */
  lemma {:induction false} LookedUpPageStays(s: State, key: Key, steps: seq<Step>, after: State)
    requires Inv(s) && Enabled(s, ClonePage(key)) && Run(Do(s, ClonePage(key)), steps, after)
    requires LeavesAlone(steps, key)
    ensures Holds(after, key) && after.cache.pages[key].bytes == s.cache.pages[key].bytes
    ensures after.cache.pages[key].validLen == s.cache.pages[key].validLen
  {
    StepKeeps(s, ClonePage(key));
    HeldRunKeeps(Do(s, ClonePage(key)), steps, after, key);
  }

  /** A page marked before the scan comes to it is passed over: it loses the mark and goes to the back. */
  lemma {:induction false} MarkedIsPassedOver(s: State, key: Key)
    requires Inv(s) && Holds(s, key) && s.writer.Scanning? && s.writer.left > 0
    requires s.cache.active != [] && s.cache.active[0] == key
    ensures var next := Do(Do(s, MarkReferenced(key)), ScanNext);
            && next.cache.pages == s.cache.pages[key := s.cache.pages[key].(referenced := false)]
            && next.cache.active == s.cache.active[1..] + [key] && next.cache.deferred == s.cache.deferred
            && next.writer == Scanning(s.writer.left - 1)
  {
  }
}
