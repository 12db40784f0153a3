/**
  How long an evictable page can stay in the deferred queue: with nothing in the
  CLOCK queue and nothing else going on, repeated calls of `try_evict_one` drop
  some page within a bound that depends only on the position of the page.
 */
module PageCacheBound {
  import opened Basics
  import opened PageCache

  predicate Distinct(s: seq<Key>) {
    forall i, j :: 0 <= i < j < |s| ==> s[i] != s[j]
  }

  predicate Resident(s: seq<Key>, pages: map<Key, Page>) {
    forall i :: 0 <= i < |s| ==> s[i] in pages
  }

  /** Successive caches under calls that drop nothing. */
  ghost predicate MissRun(trace: seq<Cache>) {
    trace != [] && forall i :: 0 <= i < |trace| - 1 ==> Evict(trace[i]) == (false, trace[i + 1])
  }

  /** The calls made on the caches of `trace` drop nothing until the last one drops a page. */
  ghost predicate EvictRun(c: Cache, trace: seq<Cache>) {
    MissRun(trace) && trace[0] == c && Evict(trace[|trace| - 1]).0
  }

  lemma {:induction false} JoinRuns(c: Cache, misses: seq<Cache>, next: Cache, trace: seq<Cache>)
    returns (joined: seq<Cache>)
    requires MissRun(misses) && misses[0] == c && misses[|misses| - 1] == next && EvictRun(next, trace)
    ensures EvictRun(c, joined) && |joined| == |misses| - 1 + |trace|
  {
    var k := |misses| - 1;
    joined := misses[..k] + trace;
    forall i | 0 <= i < |joined| - 1 ensures Evict(joined[i]) == (false, joined[i + 1]) {
      if i < k {
        assert joined[i] == misses[i] && joined[i + 1] == misses[i + 1];
      } else {
        assert joined[i] == trace[i - k] && joined[i + 1] == trace[i - k + 1];
      }
    }
    assert joined[0] == misses[0] && joined[|joined| - 1] == trace[|trace| - 1];
  }

  // ------------------------------------------------------------ one full pass

  /** The candidates that use up a second chance. */
  function Chances(pages: map<Key, Page>, todo: seq<Key>): seq<Key> {
    if todo == [] then []
    else if todo[0] in pages && pages[todo[0]].referenced then [todo[0]] + Chances(pages, todo[1..])
    else Chances(pages, todo[1..])
  }

  /** The candidates without a second chance. */
  function Others(pages: map<Key, Page>, todo: seq<Key>): seq<Key> {
    if todo == [] then []
    else if todo[0] in pages && pages[todo[0]].referenced then Others(pages, todo[1..])
    else [todo[0]] + Others(pages, todo[1..])
  }

  /** Some candidate can be dropped at once. */
  predicate Droppable(pages: map<Key, Page>, todo: seq<Key>)
    requires Resident(todo, pages)
  {
    exists i :: 0 <= i < |todo| && !pages[todo[i]].referenced && Evictable(pages[todo[i]])
  }

  /** The pages after a pass over `todo`: all its access marks are gone. */
  ghost predicate PassedOver(before: map<Key, Page>, todo: seq<Key>, after: map<Key, Page>) {
    && after.Keys == before.Keys
    && forall k :: k in before ==> after[k] == if k in todo then before[k].(referenced := false) else before[k]
  }

  lemma {:induction false} SameChances(a: map<Key, Page>, b: map<Key, Page>, todo: seq<Key>)
    requires Resident(todo, a) && Resident(todo, b) && forall i :: 0 <= i < |todo| ==> a[todo[i]] == b[todo[i]]
    ensures Chances(a, todo) == Chances(b, todo) && Others(a, todo) == Others(b, todo)
    decreases |todo|
  {
    if todo != [] { SameChances(a, b, todo[1..]); }
  }

  /** `r` is the outcome of a pass over all of `todo` with `kept` behind it in the queue. */
  ghost predicate PassResult(pages: map<Key, Page>, todo: seq<Key>, kept: seq<Key>, deferred: seq<Key>, r: Scanned)
    requires Resident(todo, pages)
  {
    && (r.evicted.Some? <==> Droppable(pages, todo))
    && (r.evicted == None ==>
          && r.active == kept + Chances(pages, todo)
          && r.deferred == deferred + Others(pages, todo)
          && PassedOver(pages, todo, r.pages))
  }

  /**
    A full pass drops a page exactly when one can be dropped at once, and otherwise
    sorts the candidates into those with a second chance and the rest.
   */
  lemma {:induction false} FullPass(pages: map<Key, Page>, todo: seq<Key>, kept: seq<Key>, deferred: seq<Key>)
    requires Distinct(todo) && Resident(todo, pages)
    ensures PassResult(pages, todo, kept, deferred, Scan(pages, todo + kept, deferred, |todo|))
    decreases |todo|
  {
    if todo == [] {
      assert todo + kept == kept;
    } else {
      var key, rest := todo[0], todo[1..];
      assert (todo + kept)[0] == key && (todo + kept)[1..] == rest + kept;
      RestOfPass(todo, pages);
      if pages[key].referenced {
        var cleared := pages[key := pages[key].(referenced := false)];
        assert rest + kept + [key] == rest + (kept + [key]);
        FullPass(cleared, rest, kept + [key], deferred);
        PassedChance(pages, todo, kept, deferred, Scan(cleared, rest + (kept + [key]), deferred, |rest|));
      } else if !Evictable(pages[key]) {
        FullPass(pages, rest, kept, deferred + [key]);
        PassedBlocked(pages, todo, kept, deferred, Scan(pages, rest + kept, deferred + [key], |rest|));
      }
    }
  }

  lemma {:induction false} PassedChance(pages: map<Key, Page>, todo: seq<Key>, kept: seq<Key>, deferred: seq<Key>,
                                        r: Scanned)
    requires Distinct(todo) && Resident(todo, pages) && todo != [] && pages[todo[0]].referenced
    requires var cleared := pages[todo[0] := pages[todo[0]].(referenced := false)];
             Resident(todo[1..], cleared) && PassResult(cleared, todo[1..], kept + [todo[0]], deferred, r)
    ensures PassResult(pages, todo, kept, deferred, r)
  {
    var key, rest := todo[0], todo[1..];
    var cleared := pages[key := pages[key].(referenced := false)];
    RestOfPass(todo, pages);
    SameChances(cleared, pages, rest);
    SameDroppable(cleared, pages, rest);
    assert kept + [key] + Chances(pages, rest) == kept + Chances(pages, todo);
  }

  lemma {:induction false} PassedBlocked(pages: map<Key, Page>, todo: seq<Key>, kept: seq<Key>, deferred: seq<Key>,
                                         r: Scanned)
    requires Distinct(todo) && Resident(todo, pages) && todo != [] && !pages[todo[0]].referenced
    requires !Evictable(pages[todo[0]])
    requires Resident(todo[1..], pages) && PassResult(pages, todo[1..], kept, deferred + [todo[0]], r)
    ensures PassResult(pages, todo, kept, deferred, r)
  {
    RestOfPass(todo, pages);
    assert deferred + [todo[0]] + Others(pages, todo[1..]) == deferred + Others(pages, todo);
  }

  lemma SameDroppable(a: map<Key, Page>, b: map<Key, Page>, todo: seq<Key>)
    requires Resident(todo, a) && Resident(todo, b) && forall i :: 0 <= i < |todo| ==> a[todo[i]] == b[todo[i]]
    ensures Droppable(a, todo) <==> Droppable(b, todo)
  {
  }

  /** The rest of a pass does not meet its first candidate again. */
  lemma RestOfPass(todo: seq<Key>, pages: map<Key, Page>)
    requires Distinct(todo) && Resident(todo, pages) && todo != []
    ensures Distinct(todo[1..]) && Resident(todo[1..], pages) && todo[0] !in todo[1..]
    ensures Droppable(pages, todo) <==>
            (!pages[todo[0]].referenced && Evictable(pages[todo[0]])) || Droppable(pages, todo[1..])
  {
    if Droppable(pages, todo) {
      var i :| 0 <= i < |todo| && !pages[todo[i]].referenced && Evictable(pages[todo[i]]);
      assert i > 0 ==> todo[1..][i - 1] == todo[i];
    }
    if Droppable(pages, todo[1..]) {
      var i :| 0 <= i < |todo[1..]| && !pages[todo[1..][i]].referenced && Evictable(pages[todo[1..][i]]);
      assert todo[i + 1] == todo[1..][i];
    }
  }

  // ------------------------------------------------------------ a whole batch

  /** The CLOCK queue is empty and the deferred candidates are distinct resident pages. */
  predicate Quiet(c: Cache) {
    && c.active == [] && Distinct(c.deferred) && Resident(c.deferred, c.pages)
    && c.retryMisses <= EVICTION_DEFERRED_RETRY_MISS_INTERVAL
  }

  /** Calls during the cooldown only count down. */
  lemma {:induction false} Cooldown(c: Cache) returns (misses: seq<Cache>)
    requires c.active == [] && c.deferred != []
    ensures MissRun(misses) && |misses| == c.retryMisses + 1
    ensures misses[0] == c && misses[|misses| - 1] == c.(retryMisses := 0)
    decreases c.retryMisses
  {
    if c.retryMisses == 0 {
      misses := [c];
      assert c.(retryMisses := 0) == c;
    } else {
      var next := c.(retryMisses := c.retryMisses - 1);
      var rest := Cooldown(next);
      assert next.(retryMisses := 0) == c.(retryMisses := 0);
      assert Evict(c) == (false, next);
      misses := [c] + rest;
      forall i | 0 <= i < |misses| - 1 ensures Evict(misses[i]) == (false, misses[i + 1]) {
        if i > 0 { assert misses[i] == rest[i - 1] && misses[i + 1] == rest[i]; }
      }
    }
  }

  lemma {:induction false} AfterCooldown(c: Cache, trace: seq<Cache>) returns (longer: seq<Cache>)
    requires c.active == [] && c.deferred != [] && EvictRun(c.(retryMisses := 0), trace)
    ensures EvictRun(c, longer) && |longer| == c.retryMisses + |trace|
  {
    var misses := Cooldown(c);
    longer := JoinRuns(c, misses, c.(retryMisses := 0), trace);
  }

  ghost predicate AtMostOnce(m: multiset<Key>) {
    forall k :: m[k] <= 1
  }

  lemma {:induction false} DistinctCounts(s: seq<Key>)
    requires Distinct(s)
    ensures AtMostOnce(multiset(s))
    decreases |s|
  {
    if s != [] {
      FrontOf(s);
      DistinctCounts(s[1..]);
      assert s[0] !in s[1..];
      assert multiset(s[1..])[s[0]] == 0;
    }
  }

  lemma {:induction false} CountsDistinct(s: seq<Key>)
    requires AtMostOnce(multiset(s))
    ensures Distinct(s)
    decreases |s|
  {
    if s != [] {
      FrontOf(s);
      forall k ensures multiset(s[1..])[k] <= 1 {
        assert multiset(s)[k] == multiset{s[0]}[k] + multiset(s[1..])[k];
      }
      CountsDistinct(s[1..]);
      assert multiset(s)[s[0]] == 1 + multiset(s[1..])[s[0]];
      assert s[0] !in multiset(s[1..]);
      assert s[0] !in s[1..];
      forall i, j | 0 <= i < j < |s| ensures s[i] != s[j] {
        assert s[j] == s[1..][j - 1];
      }
    }
  }

  lemma Rearranged(s: seq<Key>, t: seq<Key>, pages: map<Key, Page>)
    requires Distinct(s) && Resident(s, pages) && multiset(s) == multiset(t)
    ensures Distinct(t) && Resident(t, pages)
  {
    DistinctCounts(s);
    CountsDistinct(t);
    forall i | 0 <= i < |t| ensures t[i] in pages {
      assert t[i] in multiset(s);
    }
  }

  /** A part of a list of distinct keys has distinct keys. */
  lemma PartDistinct(part: seq<Key>, others: multiset<Key>, whole: seq<Key>)
    requires Distinct(whole) && others + multiset(part) == multiset(whole)
    ensures Distinct(part)
  {
    DistinctCounts(whole);
    forall k ensures multiset(part)[k] <= 1 {
      assert multiset(whole)[k] == others[k] + multiset(part)[k];
    }
    CountsDistinct(part);
  }

  lemma {:induction false} SortedOut(pages: map<Key, Page>, todo: seq<Key>)
    requires Resident(todo, pages)
    ensures multiset(Chances(pages, todo)) + multiset(Others(pages, todo)) == multiset(todo)
    ensures |Chances(pages, todo)| <= |todo|
    ensures forall k :: k in todo && pages[k].referenced ==> k in Chances(pages, todo)
    ensures forall k :: k in Chances(pages, todo) ==> k in todo
    decreases |todo|
  {
    if todo != [] {
      FrontOf(todo);
      SortedOut(pages, todo[1..]);
      var tail := Chances(pages, todo[1..]);
      if pages[todo[0]].referenced {
        assert multiset([todo[0]] + tail) == multiset{todo[0]} + multiset(tail);
      } else {
        var rest := Others(pages, todo[1..]);
        assert multiset([todo[0]] + rest) == multiset{todo[0]} + multiset(rest);
      }
    }
  }

  lemma {:induction false} NoChances(pages: map<Key, Page>, todo: seq<Key>)
    requires Resident(todo, pages) && forall i :: 0 <= i < |todo| ==> !pages[todo[i]].referenced
    ensures Chances(pages, todo) == [] && Others(pages, todo) == todo
    decreases |todo|
  {
    if todo != [] {
      NoChances(pages, todo[1..]);
      assert todo == [todo[0]] + todo[1..];
    }
  }

  /** `first` is what a first call that drops nothing leaves of `c`. */
  ghost predicate FirstMiss(c: Cache, first: Cache) {
    var m := Min(|c.deferred|, EVICTION_DEFERRED_RETRY_BATCH);
    var todo, rest := c.deferred[..m], c.deferred[m..];
    && Quiet(c) && Resident(todo, c.pages) && !Droppable(c.pages, todo)
    && first.active == Chances(c.pages, todo) && first.deferred == rest + Others(c.pages, todo)
    && PassedOver(c.pages, todo, first.pages)
  }

  /** The call that ends a cooldown scans the next batch. */
  lemma RefilledScan(c: Cache)
    requires c.active == [] && c.deferred != [] && c.retryMisses == 0
    ensures var m := Min(|c.deferred|, EVICTION_DEFERRED_RETRY_BATCH);
            Evict(c) == ScanOnce(c.(active := c.deferred[..m], deferred := c.deferred[m..]))
  {
    var m := Min(|c.deferred|, EVICTION_DEFERRED_RETRY_BATCH);
    assert [] + c.deferred[..m] == c.deferred[..m];
  }

  lemma {:induction false} FirstCall(c: Cache)
    requires Quiet(c) && c.retryMisses == 0 && c.deferred != []
    ensures var m := Min(|c.deferred|, EVICTION_DEFERRED_RETRY_BATCH);
            var (evicted, after) := Evict(c);
            && (!evicted ==>
                  && FirstMiss(c, after)
                  && after.retryMisses == if after.active == [] then EVICTION_DEFERRED_RETRY_MISS_INTERVAL else 0)
  {
    var m := Min(|c.deferred|, EVICTION_DEFERRED_RETRY_BATCH);
    var todo, rest := c.deferred[..m], c.deferred[m..];
    RefilledScan(c);
    FullPass(c.pages, todo, [], rest);
    assert todo + [] == todo && [] + Chances(c.pages, todo) == Chances(c.pages, todo);
    SomethingLeft(c.pages, todo);
  }

  lemma {:induction false} SomethingLeft(pages: map<Key, Page>, todo: seq<Key>)
    requires Resident(todo, pages) && todo != []
    ensures Chances(pages, todo) == [] ==> Others(pages, todo) != []
  {
    SortedOut(pages, todo);
    assert todo[0] in multiset(todo);
  }

  /** The call after it: the second chances are used up, so every candidate is dropped or deferred. */
  lemma {:induction false} SecondCall(c: Cache)
    requires c.active != [] && |c.active| <= EVICTION_SCAN_BUDGET && Distinct(c.active) && Resident(c.active, c.pages)
    requires forall i :: 0 <= i < |c.active| ==> !c.pages[c.active[i]].referenced
    ensures var (evicted, after) := Evict(c);
            && (evicted <==> Droppable(c.pages, c.active))
            && (!evicted ==>
                  && after.active == [] && after.deferred == c.deferred + c.active
                  && PassedOver(c.pages, c.active, after.pages)
                  && after.retryMisses == EVICTION_DEFERRED_RETRY_MISS_INTERVAL)
  {
    assert c.active + [] == c.active;
    FullPass(c.pages, c.active, [], c.deferred);
    NoChances(c.pages, c.active);
    assert [] + Chances(c.pages, c.active) == [];
  }

  lemma {:induction false} AfterFirstCall(c: Cache, first: Cache)
    requires FirstMiss(c, first)
    ensures |first.active| <= EVICTION_DEFERRED_RETRY_BATCH
    ensures Distinct(first.active) && Resident(first.active, first.pages)
    ensures forall i :: 0 <= i < |first.active| ==> !first.pages[first.active[i]].referenced
    ensures multiset(first.deferred) + multiset(first.active) == multiset(c.deferred)
  {
    var m := Min(|c.deferred|, EVICTION_DEFERRED_RETRY_BATCH);
    var todo, rest := c.deferred[..m], c.deferred[m..];
    SortedOut(c.pages, todo);
    assert c.deferred == todo + rest;
    assert multiset(first.deferred) + multiset(first.active) == multiset(c.deferred);
    PartDistinct(first.active, multiset(first.deferred), c.deferred);
    forall i | 0 <= i < |first.active|
      ensures first.active[i] in first.pages && !first.pages[first.active[i]].referenced
    {
      assert first.active[i] in todo;
    }
  }

  /** An evictable page of the batch is still there, with its second chance used up. */
  lemma {:induction false} ChanceUsedUp(c: Cache, first: Cache, p: nat)
    requires FirstMiss(c, first) && p < |c.deferred| && Evictable(c.pages[c.deferred[p]])
    requires p < EVICTION_DEFERRED_RETRY_BATCH && Resident(first.active, first.pages)
    ensures Droppable(first.pages, first.active)
  {
    var m := Min(|c.deferred|, EVICTION_DEFERRED_RETRY_BATCH);
    var todo := c.deferred[..m];
    var key := c.deferred[p];
    assert todo[p] == key;
    SortedOut(c.pages, todo);
    assert c.pages[key].referenced;
    assert key in first.active;
    var i :| 0 <= i < |first.active| && first.active[i] == key;
    assert first.pages[first.active[i]] == c.pages[key].(referenced := false);
  }

  /** A later candidate keeps its state and comes 16 places nearer the front. */
  lemma {:induction false} MovesUp(c: Cache, first: Cache, next: Cache, p: nat)
    requires FirstMiss(c, first) && EVICTION_DEFERRED_RETRY_BATCH <= p < |c.deferred|
    requires Evictable(c.pages[c.deferred[p]])
    requires next.active == [] && next.deferred == first.deferred + first.active
    requires PassedOver(first.pages, first.active, next.pages)
    requires next.retryMisses == EVICTION_DEFERRED_RETRY_MISS_INTERVAL
    ensures Quiet(next) && p - EVICTION_DEFERRED_RETRY_BATCH < |next.deferred|
    ensures next.deferred[p - EVICTION_DEFERRED_RETRY_BATCH] == c.deferred[p]
    ensures Evictable(next.pages[c.deferred[p]])
  {
    AfterFirstCall(c, first);
    Rearranged(c.deferred, next.deferred, next.pages);
    assert c.deferred[EVICTION_DEFERRED_RETRY_BATCH..][p - EVICTION_DEFERRED_RETRY_BATCH] == c.deferred[p];
  }

  /**
    Two calls at the end of a cooldown drop a page or move the whole batch to the
    back: the cache is then quiet again and every later candidate is 16 places
    nearer the front.
   */
  lemma {:induction false} Batch(c: Cache, p: nat) returns (done: bool, trace: seq<Cache>)
    requires Quiet(c) && c.retryMisses == 0 && p < |c.deferred| && Evictable(c.pages[c.deferred[p]])
    ensures trace != [] && trace[0] == c
    ensures done ==> EvictRun(c, trace) && |trace| <= 2
    ensures !done ==>
              var next := trace[|trace| - 1];
              && MissRun(trace) && |trace| <= 3 && Quiet(next) && p >= EVICTION_DEFERRED_RETRY_BATCH
              && p - EVICTION_DEFERRED_RETRY_BATCH < |next.deferred|
              && next.deferred[p - EVICTION_DEFERRED_RETRY_BATCH] == c.deferred[p]
              && Evictable(next.pages[c.deferred[p]])
  {
    FirstCall(c);
    var first := Evict(c).1;
    done, trace := Evict(c).0, [c];
    if !done {
      assert FirstMiss(c, first);
      AfterFirstCall(c, first);
      if p < EVICTION_DEFERRED_RETRY_BATCH { ChanceUsedUp(c, first, p); }
      if first.active == [] {
        assert first.deferred + first.active == first.deferred;
        MovesUp(c, first, first, p);
        trace := [c, first];
      } else {
        SecondCall(first);
        var next := Evict(first).1;
        done, trace := Evict(first).0, if Evict(first).0 then [c, first] else [c, first, next];
        if !done { MovesUp(c, first, next, p); }
      }
    }
  }

  lemma OneBatchLess(p: nat)
    requires p >= 16
    ensures (p - 16) / 16 + 1 == p / 16
  {
  }

  /** At the end of a cooldown: two calls for each batch of 16 that is rotated, and a cooldown in between. */
  lemma {:induction false} ReadyBound(c: Cache, p: nat, b: nat) returns (trace: seq<Cache>)
    requires Quiet(c) && c.retryMisses == 0 && p < |c.deferred| && Evictable(c.pages[c.deferred[p]]) && b == p / 16
    ensures EvictRun(c, trace) && |trace| <= 258 * b + 2
    decreases p, 0
  {
    var done, batch := Batch(c, p);
    trace := batch;
    if !done {
      OneBatchLess(p);
      var later := QuietBound(batch[|batch| - 1], p - 16);
      trace := JoinRuns(c, batch, batch[|batch| - 1], later);
    }
  }

  /** From a quiet cache, the evictable page at position `p` bounds the calls until some page goes. */
  lemma {:induction false} QuietBound(c: Cache, p: nat) returns (trace: seq<Cache>)
    requires Quiet(c) && p < |c.deferred| && Evictable(c.pages[c.deferred[p]])
    ensures EvictRun(c, trace) && |trace| <= 258 * (p / 16 + 1)
    decreases p, 1
  {
    var b := p / 16;
    trace := ReadyBound(c.(retryMisses := 0), p, b);
    trace := AfterCooldown(c, trace);
    assert |trace| <= 258 * b + 258;
  }

  // ------------------------------------------------------------ how often deferred pages are looked at

  /** The cache after `n` calls. */
  function EvictTimes(c: Cache, n: nat): Cache
    decreases n
  {
    if n == 0 then c else EvictTimes(Evict(c).1, n - 1)
  }

  lemma {:induction false} CountsDown(c: Cache, n: nat)
    requires c.active == [] && c.deferred != [] && n <= c.retryMisses
    ensures EvictTimes(c, n) == c.(retryMisses := c.retryMisses - n)
    decreases n
  {
    if n > 0 {
      assert !Evict(c).0 && Evict(c).1 == c.(retryMisses := c.retryMisses - 1);
      CountsDown(Evict(c).1, n - 1);
    }
  }

  /** After a scan that leaves nothing but deferred pages, 256 calls touch no page and no queue. */
  lemma {:induction false} RetriesAreSpaced(c: Cache, n: nat)
    requires (c.active != [] || c.retryMisses == 0) && n <= EVICTION_DEFERRED_RETRY_MISS_INTERVAL
    requires !Evict(c).0 && Evict(c).1.active == [] && Evict(c).1.deferred != []
    ensures var scanned := Evict(c).1;
            && scanned.retryMisses == EVICTION_DEFERRED_RETRY_MISS_INTERVAL
            && EvictTimes(scanned, n) == scanned.(retryMisses := EVICTION_DEFERRED_RETRY_MISS_INTERVAL - n)
  {
    CountsDown(Evict(c).1, n);
  }
}
