/**
  What a hart's own past says about its translations of an address space: a translation
  was cached, the page table changed since, and the hart has not flushed since then.
  That is exactly when rejoining under the write lock breaks the guarantee, and an
  ordinary mmap can get there.
 */
module RemoteTlbHistory {
  import opened Basics
  import opened RemoteTlb
  import opened RemoteTlbRuns

  predicate Flushes(s: State, step: Step, h: nat)
    requires Shape(s) && Enabled(s, step)
  {
    match step
    case PollFlush(k) => k == h
    case FlushForUser(k, always) => k == h && (always || h !in s.active[s.entering[k].space])
    case FlushAlone(k) => k == h
    case LocalFlush => s.update.value.hart == h
    case _ => false
  }

  predicate Changes(s: State, step: Step, a: nat)
    requires Shape(s) && Enabled(s, step)
  {
    match step
    case ChangePageTable => s.update.value.space == a
    case ChangeAlone(k) => s.away[k].space == a
    case _ => false
  }

  /** Since the last flush: no translation of the space, only current ones, or an outdated one. */
  datatype History = Nothing | Cached | Outdated

  function Track(had: History, s: State, step: Step, h: nat, a: nat): History
    requires Shape(s) && Enabled(s, step)
  {
    if Flushes(s, step, h) then Nothing
    else if step == Refill(h, a) && had == Nothing then Cached
    else if Changes(s, step, a) && had == Cached then Outdated
    else had
  }

  /** What the events of a run say about hart `h` and space `a`. */
  ghost function HistoryOf(s: State, steps: seq<Step>, after: State, h: nat, a: nat, had: History): History
    requires Run(s, steps, after)
    decreases |steps|
  {
    if steps == [] then had
    else HistoryOf(Do(s, steps[0]), steps[1..], after, h, a, Track(had, s, steps[0], h, a))
  }

  /** What each history means for the translations the hart holds. */
  ghost predicate Tells(had: History, s: State, h: nat, a: nat) {
    && h < |s.tlb| && a < |s.version|
    && (forall e :: e in s.tlb[h] && e.space == a ==> e.version <= s.version[a])
    && match had
       case Nothing => forall e :: e in s.tlb[h] ==> e.space != a
       case Cached => Fresh(s, h, a) && exists e :: e in s.tlb[h] && e.space == a
       case Outdated => exists e :: e in s.tlb[h] && e.space == a && e.version < s.version[a]
  }

  /** A step that neither flushes the hart, nor fills it from the space, nor changes the space. */
  lemma {:induction false} QuietStep(s: State, step: Step, h: nat, a: nat)
    requires Shape(s) && Enabled(s, step) && h < |s.tlb| && a < |s.version|
    requires !Flushes(s, step, h) && !Changes(s, step, a) && step != Refill(h, a)
    ensures h < |Do(s, step).tlb| && a < |Do(s, step).version| && Do(s, step).version[a] == s.version[a]
    ensures forall e: Entry :: e.space == a ==> (e in Do(s, step).tlb[h] <==> e in s.tlb[h])
  {
  }

  lemma {:induction false} FlushStep(s: State, step: Step, h: nat)
    requires Shape(s) && Enabled(s, step) && h < |s.tlb| && Flushes(s, step, h)
    ensures h < |Do(s, step).tlb| && Do(s, step).tlb[h] == {} && Do(s, step).version == s.version
  {
  }

  lemma {:induction false} ChangeStep(s: State, step: Step, h: nat, a: nat)
    requires Shape(s) && Enabled(s, step) && h < |s.tlb| && a < |s.version| && Changes(s, step, a)
    ensures Do(s, step).tlb == s.tlb && |Do(s, step).version| == |s.version|
    ensures Do(s, step).version[a] == s.version[a] + 1
  {
  }

  lemma {:induction false} TrackTells(had: History, s: State, step: Step, h: nat, a: nat)
    requires Shape(s) && Enabled(s, step) && Tells(had, s, h, a)
    ensures Tells(Track(had, s, step, h, a), Do(s, step), h, a)
  {
    var after := Do(s, step);
    if Flushes(s, step, h) {
      FlushStep(s, step, h);
    } else if Changes(s, step, a) {
      ChangeStep(s, step, h, a);
    } else if step == Refill(h, a) {
      assert Entry(a, s.version[a]) in after.tlb[h];
      if had == Outdated {
        var e :| e in s.tlb[h] && e.space == a && e.version < s.version[a];
        assert e in after.tlb[h];
      }
    } else {
      QuietStep(s, step, h, a);
      if had == Cached {
        var e :| e in s.tlb[h] && e.space == a;
        assert e in after.tlb[h];
      } else if had == Outdated {
        var e :| e in s.tlb[h] && e.space == a && e.version < s.version[a];
        assert e in after.tlb[h];
      }
    }
  }

  lemma {:induction false} HistoryTells(s: State, steps: seq<Step>, after: State, h: nat, a: nat, had: History)
    requires Run(s, steps, after) && Tells(had, s, h, a)
    ensures Tells(HistoryOf(s, steps, after, h, a, had), after, h, a)
    decreases |steps|
  {
    if steps != [] {
      TrackTells(had, s, steps[0], h, a);
      HistoryTells(Do(s, steps[0]), steps[1..], after, h, a, Track(had, s, steps[0], h, a));
    }
  }

  /** In every run a hart holds an old translation exactly when its history says so. */
  lemma {:induction false} HistoryIsExact(start: State, steps: seq<Step>, s: State, h: nat, a: nat)
    requires Init(start) && Run(start, steps, s) && h < |start.tlb| && a < |start.version|
    ensures h < |s.tlb| && a < |s.version|
    ensures Fresh(s, h, a) <==> HistoryOf(start, steps, s, h, a, Nothing) != Outdated
  {
    HistoryTells(start, steps, s, h, a, Nothing);
  }

  /**
    The way back of `with_vma_mut` and of a present-page fault: under the write lock and
    without a flush. In every run it leaves an active hart with an old translation if and
    only if the hart cached a translation of the space, the page table changed since, and
    the hart has not flushed since.
   */
  lemma {:induction false} RejoinBreaksIff(start: State, steps: seq<Step>, s: State, h: nat, a: nat)
    requires Init(start) && InRange(start, h, a) && Run(start, steps, s)
    requires Shape(s) && h < |s.away| && s.away[h] == Holding(a, true)
    ensures InRange(Do(s, Rejoin(h)), h, a)
    ensures Sees(Do(s, Rejoin(h)), h, a) <==> HistoryOf(start, steps, s, h, a, Nothing) != Outdated
  {
    InitBase(start);
    RunKeepsBase(start, steps, s);
    RejoinUnderLock(s, h);
    HistoryIsExact(start, steps, s, h, a);
  }

  /**
    Every way back, also the one after a fault that has dropped its locks and the one of
    a failed mprotect under an update that changed nothing: the guarantee holds from
    there on if and only if nobody else relies on an empty mask of the space, and the
    history shows nothing outdated or an update is about to flush the hart.
   */
  lemma {:induction false} RejoinSafeByHistory(start: State, steps: seq<Step>, s: State, h: nat, a: nat)
    requires Init(start) && InRange(start, h, a) && Run(start, steps, s) && CarefulRun(start, steps, h, a)
    requires Shape(s) && Enabled(s, Rejoin(h)) && ComesBack(s, Rejoin(h), h, a)
    ensures SafeFrom(Do(s, Rejoin(h)), h, a) <==>
              && (forall k :: 0 <= k < |s.away| && k != h && s.away[k].Alone? ==> s.away[k].space != a)
              && (|| HistoryOf(start, steps, s, h, a, Nothing) != Outdated
                  || (UpdateLocked(s, a) && WillFlush(s.update.value, h)))
  {
    InitCurrent(start, h, a);
    RunKeepsCurrent(start, steps, s, h, a);
    RejoinSafeIff(s, h, a);
    HistoryIsExact(start, steps, s, h, a);
  }

  // ------------------------------------------------------------ an mmap that ends with an old translation

  /** Two harts and one space; hart 1 has nothing cached and waits for nothing. */
  function Two(version: nat, active: set<nat>, tlb: set<Entry>, entering: Entering, away: Away,
               update: Option<Update>): State {
    State([version], [active], [Mailbox(false, 0, 0), Mailbox(false, 0, 0)], [Idle, Idle], [tlb, {}],
          [entering, Outside], [away, Here], update)
  }

  /** Hart 0 on its first way to user mode, before the page table changes. */
  function First(active: set<nat>, tlb: set<Entry>, entering: Entering): State {
    Two(0, active, tlb, entering, Here, None)
  }

  /** Hart 0 inside its mmap, with a translation of the first page table. */
  function Gone(version: nat, update: Option<Update>): State {
    Two(version, {}, {Entry(0, 0)}, Outside, Left(0, true), update)
  }

  /** Hart 0 on its way back, after the page table has changed. */
  function Back(active: set<nat>, entering: Entering, away: Away): State {
    Two(1, active, {Entry(0, 0)}, entering, away, None)
  }

  /** Hart 1's update of the space, at each of its phases. */
  function OtherUpdate(phase: Phase): Update { Update(1, 0, phase, {}, [0, 0]) }

  ghost predicate Leads(s: State, step: Step, next: State) {
    Shape(s) && Enabled(s, step) && Do(s, step) == next
  }

  lemma FrontTo(s: State, step: Step, next: State, steps: seq<Step>, after: State)
    requires Leads(s, step, next) && Run(next, steps, after)
    ensures Run(s, [step] + steps, after)
  {
    RunFront(s, step, steps, after);
  }

  lemma ReadsFirst()
    ensures Leads(First({}, {}, Outside), ReadLock(0, 0), First({}, {}, Reading(0)))
  {
    assert [Outside, Outside][0 := Reading(0)] == [Reading(0), Outside];
  }

  lemma FlushesFirst()
    ensures Leads(First({}, {}, Reading(0)), FlushForUser(0, false), First({}, {}, Ready(0)))
  {
    assert [Reading(0), Outside][0 := Ready(0)] == [Ready(0), Outside];
  }

  lemma PublishesFirst()
    ensures Leads(First({}, {}, Ready(0)), Publish(0), First({0}, {}, Outside))
  {
    assert [Ready(0), Outside][0 := Outside] == [Outside, Outside] && {} + {0} == {0};
  }

  lemma Caches()
    ensures Leads(First({0}, {}, Outside), Refill(0, 0), First({0}, {Entry(0, 0)}, Outside))
  {
    assert {} + {Entry(0, 0)} == {Entry(0, 0)};
    assert [{}, {}][0 := {Entry(0, 0)}] == [{Entry(0, 0)}, {}];
  }

  lemma Leaves()
    ensures Leads(First({0}, {Entry(0, 0)}, Outside), Leave(0, 0), Gone(0, None))
  {
    assert [Here, Here][0 := Left(0, true)] == [Left(0, true), Here] && {0} - {0} == {};
  }

  lemma OtherLocks()
    ensures Leads(Gone(0, None), TakeUpdateLock(1, 0), Gone(0, Some(OtherUpdate(LockHeld))))
  {
    assert seq(2, _ => 0) == [0, 0];
  }

  lemma OtherLocksTable()
    ensures Leads(Gone(0, Some(OtherUpdate(LockHeld))), TakeWriteLock, Gone(0, Some(OtherUpdate(Updating(false)))))
  {
  }

  lemma OtherChanges()
    ensures Leads(Gone(0, Some(OtherUpdate(Updating(false)))), ChangePageTable,
                  Gone(1, Some(OtherUpdate(Updating(true)))))
  {
  }

  lemma OtherFlushes()
    ensures Leads(Gone(1, Some(OtherUpdate(Updating(true)))), LocalFlush, Gone(1, Some(OtherUpdate(ReadMask))))
  {
    assert [{Entry(0, 0)}, {}][1 := {}] == [{Entry(0, 0)}, {}];
  }

  lemma OtherFindsNobody()
    ensures Leads(Gone(1, Some(OtherUpdate(ReadMask))), LoadMask, Gone(1, Some(OtherUpdate(Returned))))
  {
  }

  lemma OtherReleases()
    ensures Leads(Gone(1, Some(OtherUpdate(Returned))), Release, Gone(1, None))
  {
  }

  lemma Locks()
    ensures Leads(Gone(1, None), LockAlone(0), Back({}, Outside, Holding(0, true)))
  {
    assert [Left(0, true), Here][0 := Holding(0, true)] == [Holding(0, true), Here];
  }

  lemma Rejoins()
    ensures Leads(Back({}, Outside, Holding(0, true)), Rejoin(0), Back({0}, Outside, Here))
  {
    assert [Holding(0, true), Here][0 := Here] == [Here, Here] && {} + {0} == {0};
  }

  lemma ReadsAgain()
    ensures Leads(Back({0}, Outside, Here), ReadLock(0, 0), Back({0}, Reading(0), Here))
  {
    assert [Outside, Outside][0 := Reading(0)] == [Reading(0), Outside];
  }

  lemma SkipsFlush()
    ensures Leads(Back({0}, Reading(0), Here), FlushForUser(0, false), Back({0}, Ready(0), Here))
  {
    assert [Reading(0), Outside][0 := Ready(0)] == [Ready(0), Outside];
  }

  lemma PublishesAgain()
    ensures Leads(Back({0}, Ready(0), Here), Publish(0), Back({0}, Outside, Here))
  {
    assert [Ready(0), Outside][0 := Outside] == [Outside, Outside] && {0} + {0} == {0};
  }

  /**
    Hart 0 finishes its mmap and returns to user mode. Where installing the same page
    table again flushes nothing, its set bit spares it the flush.
   */
  lemma {:induction false} ReturnsUnflushed(s: State) returns (steps: seq<Step>)
    requires s == Back({0}, Outside, Here)
    ensures Run(Gone(1, None), steps, s)
  {
    steps := [];
    PublishesAgain();
    FrontTo(Back({0}, Ready(0), Here), Publish(0), Back({0}, Outside, Here), steps, s);
    steps := [Publish(0)] + steps;
    SkipsFlush();
    FrontTo(Back({0}, Reading(0), Here), FlushForUser(0, false), Back({0}, Ready(0), Here), steps, s);
    steps := [FlushForUser(0, false)] + steps;
    ReadsAgain();
    FrontTo(Back({0}, Outside, Here), ReadLock(0, 0), Back({0}, Reading(0), Here), steps, s);
    steps := [ReadLock(0, 0)] + steps;
    Rejoins();
    FrontTo(Back({}, Outside, Holding(0, true)), Rejoin(0), Back({0}, Outside, Here), steps, s);
    steps := [Rejoin(0)] + steps;
    Locks();
    FrontTo(Gone(1, None), LockAlone(0), Back({}, Outside, Holding(0, true)), steps, s);
    steps := [LockAlone(0)] + steps;
  }

  /** Hart 1 changes the page table; its shootdown finds nobody active. */
  lemma {:induction false} OtherUpdates(s: State, rest: seq<Step>) returns (steps: seq<Step>)
    requires Run(Gone(1, None), rest, s)
    ensures Run(Gone(0, None), steps, s)
  {
    steps := rest;
    OtherReleases();
    FrontTo(Gone(1, Some(OtherUpdate(Returned))), Release, Gone(1, None), steps, s);
    steps := [Release] + steps;
    OtherFindsNobody();
    FrontTo(Gone(1, Some(OtherUpdate(ReadMask))), LoadMask, Gone(1, Some(OtherUpdate(Returned))), steps, s);
    steps := [LoadMask] + steps;
    OtherFlushes();
    FrontTo(Gone(1, Some(OtherUpdate(Updating(true)))), LocalFlush, Gone(1, Some(OtherUpdate(ReadMask))), steps, s);
    steps := [LocalFlush] + steps;
    OtherChanges();
    FrontTo(Gone(0, Some(OtherUpdate(Updating(false)))), ChangePageTable,
            Gone(1, Some(OtherUpdate(Updating(true)))), steps, s);
    steps := [ChangePageTable] + steps;
    OtherLocksTable();
    FrontTo(Gone(0, Some(OtherUpdate(LockHeld))), TakeWriteLock, Gone(0, Some(OtherUpdate(Updating(false)))), steps, s);
    steps := [TakeWriteLock] + steps;
    OtherLocks();
    FrontTo(Gone(0, None), TakeUpdateLock(1, 0), Gone(0, Some(OtherUpdate(LockHeld))), steps, s);
    steps := [TakeUpdateLock(1, 0)] + steps;
  }

  /** Hart 0 enters user mode, touches the space and calls mmap. */
  lemma {:induction false} EntersAndLeaves(s: State, rest: seq<Step>) returns (steps: seq<Step>)
    requires Run(Gone(0, None), rest, s)
    ensures Run(First({}, {}, Outside), steps, s)
  {
    steps := rest;
    Leaves();
    FrontTo(First({0}, {Entry(0, 0)}, Outside), Leave(0, 0), Gone(0, None), steps, s);
    steps := [Leave(0, 0)] + steps;
    Caches();
    FrontTo(First({0}, {}, Outside), Refill(0, 0), First({0}, {Entry(0, 0)}, Outside), steps, s);
    steps := [Refill(0, 0)] + steps;
    PublishesFirst();
    FrontTo(First({}, {}, Ready(0)), Publish(0), First({0}, {}, Outside), steps, s);
    steps := [Publish(0)] + steps;
    FlushesFirst();
    FrontTo(First({}, {}, Reading(0)), FlushForUser(0, false), First({}, {}, Ready(0)), steps, s);
    steps := [FlushForUser(0, false)] + steps;
    ReadsFirst();
    FrontTo(First({}, {}, Outside), ReadLock(0, 0), First({}, {}, Reading(0)), steps, s);
    steps := [ReadLock(0, 0)] + steps;
  }

  lemma TwoIsInit()
    ensures Init(First({}, {}, Outside))
  {
  }

  lemma OldTranslation(s: State)
    requires s == Back({0}, Outside, Here)
    ensures InRange(s, 0, 0) && !Sees(s, 0, 0)
  {
    assert Entry(0, 0) in s.tlb[0] && 0 in s.active[0];
    assert !Fresh(s, 0, 0);
  }

  /** The run: hart 0 is in user mode with a translation that the update of hart 1 made old. */
  lemma {:induction false} OldTranslationAfterMmap() returns (start: State, steps: seq<Step>, s: State)
    ensures Init(start) && Run(start, steps, s) && s.update == None && InRange(s, 0, 0) && !Sees(s, 0, 0)
    ensures |s.active| == |s.version| == 1 && |s.tlb| == 2
    ensures 0 in s.active[0] && Entry(0, 0) in s.tlb[0] && s.version[0] == 1
  {
    start, s := First({}, {}, Outside), Back({0}, Outside, Here);
    TwoIsInit();
    OldTranslation(s);
    steps := ReturnsUnflushed(s);
    steps := OtherUpdates(s, steps);
    steps := EntersAndLeaves(s, steps);
  }
}
