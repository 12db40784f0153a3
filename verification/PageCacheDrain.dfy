/**
  How long an evictable page can stay in the cache at all: with nothing else going on,
  repeated calls of `try_evict_one` use up the access marks of the CLOCK queue, defer
  what they cannot drop, and then work through the deferred queue batch by batch.
 */
module PageCacheDrain {
  import opened Basics
  import opened PageCache
  import opened PageCacheBound

  /** The queued candidates are distinct resident pages. */
  predicate Tidy(c: Cache) {
    && Distinct(c.active + c.deferred) && Resident(c.active + c.deferred, c.pages)
    && c.retryMisses <= EVICTION_DEFERRED_RETRY_MISS_INTERVAL
  }

  /** The candidates of the CLOCK queue, and their second chances. */
  function Work(c: Cache): nat { |c.active| + |Chances(c.pages, c.active)| }

  lemma {:induction false} ChancesAppend(pages: map<Key, Page>, a: seq<Key>, b: seq<Key>)
    ensures |Chances(pages, a + b)| == |Chances(pages, a)| + |Chances(pages, b)|
    decreases |a|
  {
    if a == [] {
      assert a + b == b;
    } else {
      assert (a + b)[0] == a[0] && (a + b)[1..] == a[1..] + b;
      ChancesAppend(pages, a[1..], b);
    }
  }

  /** Pages keep everything but their access marks. */
  predicate SameButMarks(before: map<Key, Page>, after: map<Key, Page>) {
    && after.Keys == before.Keys
    && forall k :: k in before ==> Evictable(after[k]) == Evictable(before[k])
  }

  lemma {:induction false} PartsTidy(c: Cache, todo: seq<Key>, kept: seq<Key>)
    requires Tidy(c) && c.active == todo + kept
    ensures Distinct(todo) && Distinct(kept) && Resident(todo, c.pages) && Resident(kept, c.pages)
    ensures forall i, j :: 0 <= i < |todo| && 0 <= j < |kept| ==> todo[i] != kept[j]
  {
    var all := c.active + c.deferred;
    assert forall i :: 0 <= i < |todo| ==> all[i] == todo[i];
    assert forall j :: 0 <= j < |kept| ==> all[|todo| + j] == kept[j];
  }

  /** What a pass over `todo` that drops nothing leaves. */
  ghost predicate Passed(c: Cache, todo: seq<Key>, kept: seq<Key>, after: Cache) {
    && Resident(todo, c.pages) && !Droppable(c.pages, todo)
    && after.active == kept + Chances(c.pages, todo) && after.deferred == c.deferred + Others(c.pages, todo)
    && PassedOver(c.pages, todo, after.pages) && after.retryMisses <= EVICTION_DEFERRED_RETRY_MISS_INTERVAL
  }

  lemma {:induction false} OneCall(c: Cache, todo: seq<Key>, kept: seq<Key>)
    requires Tidy(c) && c.active != [] && c.active == todo + kept && |todo| == Min(|c.active|, EVICTION_SCAN_BUDGET)
    ensures !Evict(c).0 ==> Passed(c, todo, kept, Evict(c).1)
  {
    PartsTidy(c, todo, kept);
    FullPass(c.pages, todo, kept, c.deferred);
  }

  lemma {:induction false} PassedTidy(c: Cache, todo: seq<Key>, kept: seq<Key>, after: Cache)
    requires Tidy(c) && c.active == todo + kept && Passed(c, todo, kept, after)
    ensures Tidy(after) && SameButMarks(c.pages, after.pages)
  {
    SortedOut(c.pages, todo);
    var x, y := Chances(c.pages, todo), Others(c.pages, todo);
    assert multiset(after.active + after.deferred)
        == multiset(kept) + multiset(x) + multiset(c.deferred) + multiset(y);
    assert multiset(c.active + c.deferred) == multiset(todo) + multiset(kept) + multiset(c.deferred);
    Rearranged(c.active + c.deferred, after.active + after.deferred, after.pages);
  }

  /** Each candidate looked at costs one unit of work. */
  lemma {:induction false} PassedWork(c: Cache, todo: seq<Key>, kept: seq<Key>, after: Cache)
    requires Tidy(c) && c.active == todo + kept && Passed(c, todo, kept, after)
    ensures Work(after) + |todo| == Work(c)
    ensures kept == [] ==> Chances(after.pages, after.active) == []
  {
    var x := Chances(c.pages, todo);
    PartsTidy(c, todo, kept);
    SortedOut(c.pages, todo);
    ChancesAppend(c.pages, todo, kept);
    ChancesAppend(after.pages, kept, x);
    forall j | 0 <= j < |kept| ensures kept[j] in after.pages && after.pages[kept[j]] == c.pages[kept[j]] {
    }
    SameChances(after.pages, c.pages, kept);
    forall i | 0 <= i < |x| ensures x[i] in after.pages && !after.pages[x[i]].referenced {
      assert x[i] in todo;
    }
    NoChances(after.pages, x);
    if kept == [] { assert kept + x == x; }
  }

  /** An evictable candidate is not deferred. */
  lemma {:induction false} PassedKeeps(c: Cache, todo: seq<Key>, kept: seq<Key>, after: Cache, key: Key)
    requires Tidy(c) && c.active == todo + kept && Passed(c, todo, kept, after)
    requires key in c.active && key in c.pages && Evictable(c.pages[key])
    ensures key in after.active
  {
    SortedOut(c.pages, todo);
    if key in todo {
      var i :| 0 <= i < |todo| && todo[i] == key;
      assert c.pages[todo[i]].referenced;
      assert key in Chances(c.pages, todo);
    } else {
      assert key in kept;
    }
  }

  /** The queue `c` has been worked off: nothing in it could be dropped, and all of it is deferred. */
  ghost predicate Drained(c: Cache, last: Cache) {
    && Tidy(last) && last.active == [] && c.deferred <= last.deferred && SameButMarks(c.pages, last.pages)
    && forall key :: key in c.active && key in c.pages ==> !Evictable(c.pages[key])
  }

  lemma {:induction false} DrainedBefore(c: Cache, todo: seq<Key>, kept: seq<Key>, next: Cache, last: Cache)
    requires Tidy(c) && c.active == todo + kept && Passed(c, todo, kept, next) && Drained(next, last)
    ensures Drained(c, last)
  {
    PassedTidy(c, todo, kept, next);
    forall key | key in c.active && key in c.pages ensures !Evictable(c.pages[key]) {
      if Evictable(c.pages[key]) { PassedKeeps(c, todo, kept, next, key); }
    }
  }

  lemma {:induction false} MissFront(c: Cache, next: Cache, trace: seq<Cache>)
    requires Evict(c) == (false, next) && trace != [] && trace[0] == next
    ensures MissRun(trace) ==> MissRun([c] + trace)
    ensures EvictRun(next, trace) ==> EvictRun(c, [c] + trace)
  {
    var longer := [c] + trace;
    if MissRun(trace) {
      forall i | 0 <= i < |longer| - 1 ensures Evict(longer[i]) == (false, longer[i + 1]) {
        if i > 0 { assert longer[i] == trace[i - 1] && longer[i + 1] == trace[i]; }
      }
    }
  }

  /** How many calls it takes at most to work off the CLOCK queue. */
  function DrainCalls(c: Cache): nat { if c.active == [] then 0 else Work(c) / EVICTION_SCAN_BUDGET + 2 }

  /** A short queue takes two calls: one for the marks, one for the rest. */
  lemma {:induction false} DrainLeft(c: Cache, left: nat) returns (done: bool, trace: seq<Cache>)
    requires Tidy(c) && |c.active| < EVICTION_SCAN_BUDGET
    requires if c.active == [] then true else if Chances(c.pages, c.active) == [] then left >= 1 else left >= 2
    ensures trace != [] && trace[0] == c
    ensures done ==> EvictRun(c, trace) && |trace| <= left
    ensures !done ==> MissRun(trace) && |trace| <= left + 1 && Drained(c, trace[|trace| - 1])
    decreases Work(c)
  {
    if c.active == [] {
      done, trace := false, [c];
    } else {
      var todo, kept, next := c.active, [], Evict(c).1;
      assert c.active == todo + kept;
      OneCall(c, todo, kept);
      if Evict(c).0 {
        done, trace := true, [c];
      } else {
        PassedTidy(c, todo, kept, next);
        PassedWork(c, todo, kept, next);
        SortedOut(c.pages, todo);
        var rest;
        done, rest := DrainLeft(next, left - 1);
        MissFront(c, next, rest);
        trace := [c] + rest;
        if !done { DrainedBefore(c, todo, kept, next, rest[|rest| - 1]); }
      }
    }
  }

  lemma OneCallLess(c: Cache, next: Cache)
    requires c.active != [] && Work(next) + EVICTION_SCAN_BUDGET == Work(c)
    ensures DrainCalls(next) + 1 <= DrainCalls(c)
  {
  }

  /** A call that looks at a full budget of candidates and drops none of them. */
  lemma {:induction false} FullCall(c: Cache) returns (todo: seq<Key>, kept: seq<Key>)
    requires Tidy(c) && |c.active| >= EVICTION_SCAN_BUDGET && !Evict(c).0
    ensures c.active == todo + kept && Passed(c, todo, kept, Evict(c).1) && Tidy(Evict(c).1)
    ensures DrainCalls(Evict(c).1) + 1 <= DrainCalls(c) && Work(Evict(c).1) < Work(c)
  {
    todo, kept := c.active[..EVICTION_SCAN_BUDGET], c.active[EVICTION_SCAN_BUDGET..];
    assert c.active == todo + kept;
    OneCall(c, todo, kept);
    PassedTidy(c, todo, kept, Evict(c).1);
    PassedWork(c, todo, kept, Evict(c).1);
    OneCallLess(c, Evict(c).1);
  }

  /** Calls drop a page or work the CLOCK queue off. */
  lemma {:induction false} Drain(c: Cache) returns (done: bool, trace: seq<Cache>)
    requires Tidy(c)
    ensures trace != [] && trace[0] == c
    ensures done ==> EvictRun(c, trace) && |trace| <= DrainCalls(c)
    ensures !done ==> MissRun(trace) && |trace| <= DrainCalls(c) + 1 && Drained(c, trace[|trace| - 1])
    decreases Work(c)
  {
    if |c.active| < EVICTION_SCAN_BUDGET {
      done, trace := DrainLeft(c, DrainCalls(c));
    } else if Evict(c).0 {
      done, trace := true, [c];
    } else {
      var todo, kept := FullCall(c);
      var next := Evict(c).1;
      var rest;
      done, rest := Drain(next);
      MissFront(c, next, rest);
      trace := [c] + rest;
      if !done { DrainedBefore(c, todo, kept, next, rest[|rest| - 1]); }
    }
  }

  lemma {:induction false} SoundIsTidy(c: Cache, reserved: nat)
    requires Sound(c, reserved)
    ensures Tidy(c)
  {
    var all := c.active + c.deferred;
    assert multiset(all) == multiset(c.pages.Keys);
    CountsDistinct(all);
    forall i | 0 <= i < |all| ensures all[i] in c.pages {
      assert all[i] in multiset(all);
    }
  }

  /** A candidate of the CLOCK queue that can be dropped bounds the calls until some page goes. */
  lemma {:induction false} ActiveBound(c: Cache, reserved: nat, key: Key) returns (trace: seq<Cache>)
    requires Sound(c, reserved) && key in c.active && key in c.pages && Evictable(c.pages[key])
    ensures EvictRun(c, trace) && |trace| <= DrainCalls(c)
  {
    SoundIsTidy(c, reserved);
    var done;
    done, trace := Drain(c);
  }

  /**
    In every sound cache, an evictable page at position `p` of the deferred queue bounds
    the calls until some page is dropped, whatever the CLOCK queue holds and whatever
    second chances the pages carry.
   */
  lemma {:induction false} EvictionBound(c: Cache, reserved: nat, p: nat) returns (trace: seq<Cache>)
    requires Sound(c, reserved) && p < |c.deferred| && c.deferred[p] in c.pages && Evictable(c.pages[c.deferred[p]])
    ensures EvictRun(c, trace) && |trace| <= DrainCalls(c) + 258 * (p / 16 + 1)
  {
    SoundIsTidy(c, reserved);
    var done;
    done, trace := Drain(c);
    if !done {
      var last := trace[|trace| - 1];
      assert [] + last.deferred == last.deferred && last.deferred[p] == c.deferred[p];
      var later := QuietBound(last, p);
      trace := JoinRuns(c, trace, last, later);
    }
  }
}
