/**
  No lock of the translation protocol is held for ever: from every reachable state the
  harts in the way of an update can get out of it, and the update can then be carried
  through to its end. What gives up half way leaves no trace.
 */
module RemoteTlbProgress {
  import opened Basics
  import opened RemoteTlb
  import opened RemoteTlbRuns
  import opened RemoteTlbWait

  /** Hart `h` keeps the write lock of `a` from an update. */
  predicate InTheWay(s: State, h: nat, a: nat)
    requires Shape(s) && h < |s.poll|
  {
    || (s.entering[h] != Outside && s.entering[h].space == a)
    || (HasLock(s.away[h]) && s.away[h].space == a)
  }

  /** The next step of a hart towards letting go of its locks. */
  function LetGo(s: State, h: nat): Step
    requires Shape(s) && h < |s.poll|
  {
    if s.entering[h].Reading? then FlushForUser(h, true)
    else if s.entering[h].Ready? then Publish(h)
    else if s.away[h].Holding? then DropLock(h)
    else if s.away[h].Alone? && s.away[h].changed then FlushAlone(h)
    else Rejoin(h)
  }

  function StepsLeft(s: State, h: nat): nat
    requires Shape(s) && h < |s.poll|
  {
    var reading := match s.entering[h] case Reading(_) => 2 case Ready(_) => 1 case Outside => 0;
    var away := if s.away[h].Alone? then (if s.away[h].changed then 2 else 1) else if s.away[h].Holding? then 1 else 0;
    reading + away
  }

  /** A step of hart `h` alone, which leaves the update and the page tables. */
  predicate OwnStep(s: State, next: State, h: nat) {
    && next.update == s.update && next.version == s.version && |next.poll| == |s.poll|
    && |next.entering| == |s.entering| && |next.away| == |s.away|
    && (forall k :: 0 <= k < |s.entering| && k != h ==> next.entering[k] == s.entering[k])
    && (forall k :: 0 <= k < |s.away| && k != h ==> next.away[k] == s.away[k])
  }

  /** The steps bring the system from `s` to `next`: whatever can follow `next` can follow them. */
  ghost predicate Brings(s: State, first: seq<Step>, next: State) {
    forall rest, after :: Run(next, rest, after) ==> Run(s, first + rest, after)
  }

  lemma StepBrings(s: State, step: Step)
    requires Shape(s) && Enabled(s, step)
    ensures Brings(s, [step], Do(s, step))
  {
    forall rest, after | Run(Do(s, step), rest, after) ensures Run(s, [step] + rest, after) {
      RunFront(s, step, rest, after);
    }
  }

  lemma BringsOn(s: State, first: seq<Step>, middle: State, second: seq<Step>, next: State)
    requires Brings(s, first, middle) && Brings(middle, second, next)
    ensures Brings(s, first + second, next)
  {
    forall rest, after | Run(next, rest, after) ensures Run(s, first + second + rest, after) {
      assert Run(middle, second + rest, after);
      assert first + second + rest == first + (second + rest);
    }
  }

  lemma {:induction false} LetGoGetsOn(s: State, h: nat, a: nat) returns (next: State)
    requires Base(s) && h < |s.poll| && InTheWay(s, h, a)
    ensures Brings(s, [LetGo(s, h)], next) && Base(next)
    ensures OwnStep(s, next, h) && StepsLeft(next, h) < StepsLeft(s, h)
  {
    next := Do(s, LetGo(s, h));
    StepKeepsBase(s, LetGo(s, h));
    StepBrings(s, LetGo(s, h));
  }

  /** The steps of all harts below `n` towards letting go. */
  function StepsOfAll(s: State, n: nat): nat
    requires Shape(s) && n <= |s.poll|
  {
    if n == 0 then 0 else StepsOfAll(s, n - 1) + StepsLeft(s, n - 1)
  }

  lemma {:induction false} OneHartCloser(s: State, next: State, h: nat, n: nat)
    requires Shape(s) && Shape(next) && OwnStep(s, next, h) && n <= |s.poll| && h < |s.poll|
    requires StepsLeft(next, h) < StepsLeft(s, h)
    ensures if h < n then StepsOfAll(next, n) < StepsOfAll(s, n) else StepsOfAll(next, n) == StepsOfAll(s, n)
  {
    if n > 0 { OneHartCloser(s, next, h, n - 1); }
  }

  lemma WayIsClear(s: State, a: nat)
    requires Shape(s) && forall h: nat :: h < |s.poll| ==> !InTheWay(s, h, a)
    ensures NobodyAlone(s, a) && NobodyReads(s, a)
  {
    forall h | 0 <= h < |s.away| && HasLock(s.away[h]) ensures s.away[h].space != a {
      assert !InTheWay(s, h, a);
    }
    forall h | 0 <= h < |s.entering| ensures s.entering[h] == Outside || s.entering[h].space != a {
      assert !InTheWay(s, h, a);
    }
  }

  /** The page table after the update: changed once, if it was not before. */
  function Updated(s: State): seq<nat>
    requires Shape(s) && s.update.Some?
  {
    var u := s.update.value;
    if u.phase == LockHeld || u.phase == Updating(false) then s.version[u.space := s.version[u.space] + 1]
    else s.version
  }

  predicate SameUpdate(s: State, after: State) {
    && s.update.Some? && after.update.Some?
    && after.update.value.hart == s.update.value.hart && after.update.value.space == s.update.value.space
  }

  /** An update that has the write lock can be carried through. */
  lemma {:induction false} LockedUpdateCanFinish(s: State) returns (steps: seq<Step>, after: State)
    requires Base(s) && s.update.Some? && s.update.value.phase != LockHeld
    ensures Run(s, steps, after) && Base(after) && SameUpdate(s, after) && after.update.value.phase == Returned
    ensures after.version == Updated(s)
    decreases match s.update.value.phase
              case Updating(changed) => if changed then 2 else 3
              case ReadMask => 1
              case _ => 0
  {
    var phase := s.update.value.phase;
    if phase.Updating? || phase == ReadMask {
      var step := if phase == Updating(false) then ChangePageTable
                  else if phase.Updating? then LocalFlush else LoadMask;
      StepKeepsBase(s, step);
      steps, after := LockedUpdateCanFinish(Do(s, step));
      RunFront(s, step, steps, after);
      steps := [step] + steps;
    } else {
      steps, after := ShootdownCanFinish(s);
    }
  }

  lemma {:induction false} LockTaken(s: State) returns (next: State)
    requires Base(s) && s.update.Some? && s.update.value.phase == LockHeld
    requires NobodyAlone(s, s.update.value.space) && NobodyReads(s, s.update.value.space)
    ensures Brings(s, [TakeWriteLock], next) && Base(next) && SameUpdate(s, next)
    ensures next.update.value.phase == Updating(false) && next.version == s.version
  {
    StepKeepsBase(s, TakeWriteLock);
    StepBrings(s, TakeWriteLock);
    next := Do(s, TakeWriteLock);
  }

  lemma BringsNothing(s: State)
    ensures Brings(s, [], s)
  {
    forall rest, after | Run(s, rest, after) ensures Run(s, [] + rest, after) {
      assert [] + rest == rest;
    }
  }

  /** The harts in the way of an update get out of it, one after the other. */
  lemma {:induction false} WayGetsClear(s: State, a: nat) returns (steps: seq<Step>, next: State)
    requires Base(s)
    ensures Brings(s, steps, next) && Base(next) && next.update == s.update && next.version == s.version
    ensures NobodyAlone(next, a) && NobodyReads(next, a)
    decreases StepsOfAll(s, |s.poll|)
  {
    if h: nat :| h < |s.poll| && InTheWay(s, h, a) {
      var nearer := LetGoGetsOn(s, h, a);
      OneHartCloser(s, nearer, h, |s.poll|);
      steps, next := WayGetsClear(nearer, a);
      BringsOn(s, [LetGo(s, h)], nearer, steps, next);
      steps := [LetGo(s, h)] + steps;
    } else {
      WayIsClear(s, a);
      BringsNothing(s);
      steps, next := [], s;
    }
  }

  lemma RunAfter(s: State, first: seq<Step>, next: State, rest: seq<Step>, after: State)
    requires Brings(s, first, next) && Run(next, rest, after)
    ensures Run(s, first + rest, after)
  {
  }

  lemma {:induction false} UpdateGetsLock(s: State) returns (steps: seq<Step>, locked: State)
    requires Base(s) && s.update.Some? && s.update.value.phase == LockHeld
    ensures Brings(s, steps, locked) && Base(locked) && SameUpdate(s, locked)
    ensures locked.update.value.phase == Updating(false) && locked.version == s.version
  {
    var first, clear := WayGetsClear(s, s.update.value.space);
    locked := LockTaken(clear);
    BringsOn(s, first, clear, [TakeWriteLock], locked);
    steps := first + [TakeWriteLock];
  }

  lemma {:induction false} WaitingUpdateCanFinish(s: State) returns (steps: seq<Step>, after: State)
    requires Base(s) && s.update.Some? && s.update.value.phase == LockHeld
    ensures Run(s, steps, after) && Base(after) && SameUpdate(s, after) && after.update.value.phase == Returned
    ensures after.version == Updated(s)
  {
    var first, locked := UpdateGetsLock(s);
    steps, after := LockedUpdateCanFinish(locked);
    RunAfter(s, first, locked, steps, after);
    steps := first + steps;
  }

  /**
    From every reachable state an update can be carried through: the harts in its way get
    out of it, its change is made and everybody has answered.
   */
  lemma {:induction false} EveryUpdateCanFinish(s: State) returns (steps: seq<Step>, after: State)
    requires Base(s) && s.update.Some?
    ensures Run(s, steps, after) && Base(after) && SameUpdate(s, after) && after.update.value.phase == Returned
    ensures after.version == Updated(s)
  {
    if s.update.value.phase == LockHeld {
      steps, after := WaitingUpdateCanFinish(s);
    } else {
      steps, after := LockedUpdateCanFinish(s);
    }
  }

  // ------------------------------------------------------------ giving up

  lemma {:induction false} EmptyRun(s: State, steps: seq<Step>, next: State)
    requires Brings(s, steps, next)
    ensures Run(s, steps, next)
  {
    assert Run(next, [], next);
    assert steps + [] == steps;
  }

  lemma {:induction false} UpdateBegins(s: State, h: nat, a: nat) returns (next: State)
    requires Base(s) && s.update == None && h < |s.poll| && a < |s.version|
    ensures Brings(s, [TakeUpdateLock(h, a)], next) && Base(next) && next.update.Some?
    ensures next.update.value.phase == LockHeld && next.update.value.space == a && next.(update := None) == s
  {
    next := Do(s, TakeUpdateLock(h, a));
    StepKeepsBase(s, TakeUpdateLock(h, a));
    StepBrings(s, TakeUpdateLock(h, a));
  }

  lemma {:induction false} UpdateAbandoned(s: State)
    requires Base(s) && s.update.Some? && s.update.value.phase == LockHeld
    requires NobodyAlone(s, s.update.value.space) && NobodyReads(s, s.update.value.space)
    ensures Brings(s, [TakeWriteLock] + [Abandon], s.(update := None))
  {
    var next := Do(s, TakeWriteLock);
    StepKeepsBase(s, TakeWriteLock);
    StepBrings(s, TakeWriteLock);
    StepBrings(next, Abandon);
    BringsOn(s, [TakeWriteLock], next, [Abandon], s.(update := None));
  }

  /** An update that changes nothing is as if it had not begun. */
  lemma {:induction false} RefusedUpdateLeavesNoTrace(s: State, h: nat, a: nat)
    requires Base(s) && s.update == None && h < |s.poll| && a < |s.version| && NobodyAlone(s, a) && NobodyReads(s, a)
    ensures Run(s, [TakeUpdateLock(h, a)] + ([TakeWriteLock] + [Abandon]), s)
  {
    var next := UpdateBegins(s, h, a);
    UpdateAbandoned(next);
    BringsOn(s, [TakeUpdateLock(h, a)], next, [TakeWriteLock] + [Abandon], s);
    EmptyRun(s, [TakeUpdateLock(h, a)] + ([TakeWriteLock] + [Abandon]), s);
  }

  /** The write lock taken by a hart outside any update. */
  lemma {:induction false} LoneLock(s: State, h: nat) returns (next: State)
    requires Base(s) && Enabled(s, LockAlone(h))
    ensures Brings(s, [LockAlone(h)], next) && Base(next)
    ensures next == s.(away := s.away[h := Holding(s.away[h].space, s.away[h].was)])
  {
    next := Do(s, LockAlone(h));
    StepKeepsBase(s, LockAlone(h));
    StepBrings(s, LockAlone(h));
  }

  lemma {:induction false} LoneUnlock(s: State, h: nat) returns (next: State)
    requires Base(s) && h < |s.poll| && s.away[h].Holding?
    ensures Brings(s, [DropLock(h)], next)
    ensures next == s.(away := s.away[h := Left(s.away[h].space, s.away[h].was)])
  {
    next := Do(s, DropLock(h));
    StepBrings(s, DropLock(h));
  }

  /** A hart that finds the space in use puts the write lock back as it was. */
  lemma {:induction false} LockPutBack(s: State, h: nat)
    requires Base(s) && Enabled(s, LockAlone(h))
    ensures Run(s, [LockAlone(h)] + [DropLock(h)], s)
  {
    var next := LoneLock(s, h);
    var back := LoneUnlock(next, h);
    assert back.away == s.away;
    BringsOn(s, [LockAlone(h)], next, [DropLock(h)], s);
    EmptyRun(s, [LockAlone(h)] + [DropLock(h)], s);
  }

  lemma {:induction false} LoneSight(s: State, h: nat) returns (next: State)
    requires Base(s) && h < |s.poll| && s.away[h].Holding? && s.active[s.away[h].space] == {}
    ensures Brings(s, [SeeNobody(h)], next) && Base(next)
    ensures next == s.(away := s.away[h := Alone(s.away[h].space, s.away[h].was, false)])
  {
    next := Do(s, SeeNobody(h));
    StepKeepsBase(s, SeeNobody(h));
    StepBrings(s, SeeNobody(h));
  }

  lemma {:induction false} LoneChange(s: State, h: nat) returns (next: State)
    requires Base(s) && h < |s.poll| && s.away[h].Alone?
    ensures Brings(s, [ChangeAlone(h)], next) && Base(next)
    ensures var a := s.away[h].space;
            next == s.(version := s.version[a := s.version[a] + 1], away := s.away[h := s.away[h].(changed := true)])
  {
    next := Do(s, ChangeAlone(h));
    StepKeepsBase(s, ChangeAlone(h));
    StepBrings(s, ChangeAlone(h));
  }

  lemma {:induction false} LoneFlush(s: State, h: nat) returns (next: State)
    requires Base(s) && h < |s.poll| && s.away[h].Alone?
    ensures Brings(s, [FlushAlone(h)], next) && Base(next)
    ensures next == s.(tlb := s.tlb[h := {}], away := s.away[h := s.away[h].(changed := false)])
  {
    next := Do(s, FlushAlone(h));
    StepKeepsBase(s, FlushAlone(h));
    StepBrings(s, FlushAlone(h));
  }

  lemma {:induction false} LoneReturn(s: State, h: nat) returns (next: State)
    requires Base(s) && h < |s.poll| && s.away[h].Alone? && !s.away[h].changed && s.active[s.away[h].space] == {}
    ensures Brings(s, [Rejoin(h)], next)
    ensures next == s.(active := s.active[s.away[h].space := if s.away[h].was then {h} else {}],
                       away := s.away[h := Here])
  {
    next := Do(s, Rejoin(h));
    StepBrings(s, Rejoin(h));
    assert {} + {h} == {h};
    assert !s.away[h].was ==> s.active[s.away[h].space := {}] == s.active;
  }

  /** A hart alone with its space changes it, flushes, and goes back with nothing stale. */
  lemma {:induction false} LoneChangeEnds(s: State, h: nat) returns (steps: seq<Step>, after: State)
    requires Base(s) && Enabled(s, LockAlone(h)) && s.active[s.away[h].space] == {}
    ensures Run(s, steps, after)
    ensures var a := s.away[h].space;
            && after.version == s.version[a := s.version[a] + 1] && after.tlb == s.tlb[h := {}]
            && after.active == s.active[a := if s.away[h].was then {h} else {}] && after.away == s.away[h := Here]
            && after.update == s.update
  {
    var s1 := LoneLock(s, h);
    var s2 := LoneSight(s1, h);
    var s3 := LoneChange(s2, h);
    var s4 := LoneFlush(s3, h);
    after := LoneReturn(s4, h);
    BringsOn(s, [LockAlone(h)], s1, [SeeNobody(h)], s2);
    BringsOn(s2, [ChangeAlone(h)], s3, [FlushAlone(h)], s4);
    BringsOn(s, [LockAlone(h)] + [SeeNobody(h)], s2, [ChangeAlone(h)] + [FlushAlone(h)], s4);
    steps := [LockAlone(h)] + [SeeNobody(h)] + ([ChangeAlone(h)] + [FlushAlone(h)]) + [Rejoin(h)];
    BringsOn(s, [LockAlone(h)] + [SeeNobody(h)] + ([ChangeAlone(h)] + [FlushAlone(h)]), s4, [Rejoin(h)], after);
    EmptyRun(s, steps, after);
  }
}
