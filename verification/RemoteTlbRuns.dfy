/**
  What the shootdown protocol guarantees over whole runs. The mailbox half holds in
  every run. That an active hart sees the current page table of a space holds in every
  run in which this hart comes back to this space only when allowed, whatever other
  harts do and whatever happens to other spaces. A shootdown even repairs an old
  translation from before: it fails a hart only if that hart comes back, with an old
  translation, after the mask was loaded.
 */
module RemoteTlbRuns {
  import opened Basics
  import opened RemoteTlb

  // ------------------------------------------------------------ current translations

  /** A run in which hart `h` comes back to space `a` only when allowed. */
  ghost predicate CarefulRun(s: State, steps: seq<Step>, h: nat, a: nat)
    decreases |steps|
  {
    steps != [] && Shape(s) && Enabled(s, steps[0]) ==>
      Careful(s, steps[0], h, a) && CarefulRun(Do(s, steps[0]), steps[1..], h, a)
  }

  /** A run in which hart `h` does not come back to space `a` behind a loaded mask with an old translation. */
  ghost predicate InTimeRun(s: State, steps: seq<Step>, h: nat, a: nat)
    decreases |steps|
  {
    steps != [] && InRange(s, h, a) && Enabled(s, steps[0]) ==>
      InTime(s, steps[0], h, a) && InTimeRun(Do(s, steps[0]), steps[1..], h, a)
  }

  lemma {:induction false} RunKeepsCurrent(s: State, steps: seq<Step>, after: State, h: nat, a: nat)
    requires Base(s) && InRange(s, h, a) && Current(s, h, a) && Run(s, steps, after) && CarefulRun(s, steps, h, a)
    ensures Base(after) && InRange(after, h, a) && Current(after, h, a)
    decreases |steps|
  {
    if steps != [] {
      StepKeepsCurrent(s, steps[0], h, a);
      RunKeepsCurrent(Do(s, steps[0]), steps[1..], after, h, a);
    }
  }

  lemma {:induction false} RunKeepsCovered(s: State, steps: seq<Step>, after: State, h: nat, a: nat)
    requires Base(s) && InRange(s, h, a) && Covered(s, h, a) && Run(s, steps, after) && InTimeRun(s, steps, h, a)
    ensures Base(after) && InRange(after, h, a) && Covered(after, h, a)
    decreases |steps|
  {
    if steps != [] {
      StepKeepsCovered(s, steps[0], h, a);
      RunKeepsCovered(Do(s, steps[0]), steps[1..], after, h, a);
    }
  }

  lemma {:induction false} RunKeepsRange(s: State, steps: seq<Step>, after: State, h: nat, a: nat)
    requires Base(s) && Run(s, steps, after)
    ensures InRange(after, h, a) <==> InRange(s, h, a)
    decreases |steps|
  {
    if steps != [] {
      StepKeepsBase(s, steps[0]);
      SameSizes(s, steps[0]);
      RunKeepsRange(Do(s, steps[0]), steps[1..], after, h, a);
    }
  }

  lemma SameSizes(s: State, step: Step)
    requires Shape(s) && Enabled(s, step)
    ensures |Do(s, step).tlb| == |s.tlb| && |Do(s, step).version| == |s.version|
  {
  }

  /**
    In every state a hart that is active in an address space caches only current
    translations of it, unless a changed page table has a shootdown that has not
    returned. Only the hart's own ways back to the space are restricted.
   */
  lemma {:induction false} ActiveHartsSeeCurrentTables(start: State, steps: seq<Step>, s: State, a: nat, h: nat,
                                                       e: Entry)
    requires Init(start) && Run(start, steps, s) && CarefulRun(start, steps, h, a)
    requires a < |s.active| && h in s.active[a] && h < |s.tlb| && e in s.tlb[h] && e.space == a && a < |s.version|
    ensures Dirty(s, a) || e.version == s.version[a]
  {
    InitBase(start);
    RunKeepsBase(start, steps, s);
    RunKeepsRange(start, steps, s, h, a);
    InitCurrent(start, h, a);
    RunKeepsCurrent(start, steps, s, h, a);
  }

  /** When `shootdown` has returned, the hart holds no older translation if it is active. */
  predicate Complete(s: State, h: nat, a: nat)
    requires InRange(s, h, a)
  {
    UpdateLocked(s, a) && s.update.value.phase == Returned && h in s.active[a] ==> Fresh(s, h, a)
  }

  /**
    When `shootdown` returns, no hart active in the space holds an older translation,
    whatever it or any other hart did before the mask was loaded.
   */
  lemma {:induction false} ShootdownIsComplete(start: State, steps: seq<Step>, s: State, h: nat, a: nat)
    requires Init(start) && InRange(start, h, a) && Run(start, steps, s) && InTimeRun(start, steps, h, a)
    ensures InRange(s, h, a) && Complete(s, h, a)
  {
    InitCurrent(start, h, a);
    RunKeepsCovered(start, steps, s, h, a);
  }

  // ------------------------------------------------------------ requests

  /** Once posted and until acknowledged, a request is pending or its target is serving it. */
  lemma {:induction false} NoRequestIsLost(start: State, steps: seq<Step>, s: State, t: nat)
    requires Init(start) && Run(start, steps, s) && s.update.Some? && Armed(s.update.value, t)
    ensures t < |s.mail| == |s.poll| == |s.update.value.sequences|
    ensures NotLost(s, t, s.update.value.sequences[t])
  {
    InitBase(start);
    RunKeepsBase(start, steps, s);
  }

  /** Request `q` of hart `t` has been acknowledged or will be by the poll in progress. */
  predicate Serving(s: State, t: nat, q: nat) {
    && t < |s.mail| && |s.mail| == |s.poll| && q <= s.mail[t].sequence
    && (s.mail[t].sequence == q ==>
          s.mail[t].acknowledged == q || s.poll[t] == Swapped || s.poll[t] == Flushed || s.poll[t] == Loaded(q))
  }

  lemma StepKeepsServing(s: State, step: Step, t: nat, q: nat)
    requires Base(s) && Enabled(s, step) && Serving(s, t, q)
    ensures Serving(Do(s, step), t, q)
  {
  }

  lemma {:induction false} RunKeepsServing(s: State, steps: seq<Step>, after: State, t: nat, q: nat)
    requires Base(s) && Run(s, steps, after) && Serving(s, t, q)
    ensures Serving(after, t, q)
    decreases |steps|
  {
    if steps != [] {
      StepKeepsBase(s, steps[0]);
      StepKeepsServing(s, steps[0], t, q);
      RunKeepsServing(Do(s, steps[0]), steps[1..], after, t, q);
    }
  }

  /**
    The first poll a target begins after its request was posted acknowledges it:
    in any state after that poll has ended, however the steps interleave, the
    acknowledged number is the request's, unless a later request replaced it.
   */
  lemma {:induction false} NextPollAcknowledges(start: State, steps: seq<Step>, s: State, t: nat,
                                                later: seq<Step>, after: State)
    requires Init(start) && Run(start, steps, s) && s.update.Some? && Armed(s.update.value, t)
    requires t < |s.poll| && s.poll[t] == Idle && |s.update.value.sequences| == |s.poll|
    requires Shape(s) && Run(Do(s, PollSwap(t)), later, after)
    requires |after.mail| == |s.mail| == |s.poll| == |after.poll|
    requires after.mail[t].sequence == s.update.value.sequences[t] && after.poll[t] == Idle
    ensures after.mail[t].acknowledged == s.update.value.sequences[t]
  {
    InitBase(start);
    RunKeepsBase(start, steps, s);
    StepKeepsBase(s, PollSwap(t));
    RunKeepsServing(Do(s, PollSwap(t)), later, after, t, s.update.value.sequences[t]);
  }

  // ------------------------------------------------------------ rejoining without a flush

  /** A hart may always come back after its own shootdown, before it drops its locks. */
  lemma {:induction false} RejoinAfterShootdown(s: State, h: nat)
    requires Base(s) && Enabled(s, Rejoin(h)) && s.update.Some? && s.update.value.hart == h
    requires s.update.value.phase == Returned && s.away[h].space == s.update.value.space
    ensures Allowed(s, h)
  {
  }

  /** So may the one that changed the page table alone, right after its own flush. */
  lemma {:induction false} RejoinAfterFlush(s: State, h: nat)
    requires Base(s) && Enabled(s, FlushAlone(h))
    ensures Shape(Do(s, FlushAlone(h))) && Allowed(Do(s, FlushAlone(h)), h)
  {
    StepKeepsBase(s, FlushAlone(h));
  }

  /** Under the write lock alone, with nothing flushed, exactly when its own translations are current. */
  lemma {:induction false} RejoinUnderLock(s: State, h: nat)
    requires Base(s) && h < |s.away| && s.away[h].Holding? && s.away[h].was
    ensures Allowed(s, h) <==> Fresh(s, h, s.away[h].space)
    ensures InRange(Do(s, Rejoin(h)), h, s.away[h].space)
    ensures Allowed(s, h) <==> Sees(Do(s, Rejoin(h)), h, s.away[h].space)
  {
    var a, after := s.away[h].space, Do(s, Rejoin(h));
    AwayKeepsShape(s, Rejoin(h));
    assert !UpdateLocked(s, a) && !Dirty(after, a);
    assert h in after.active[a];
    assert Fresh(after, h, a) <==> Fresh(s, h, a);
  }

  /** Where installing the page table flushes by itself, the next return to user mode repairs everything. */
  lemma ReturnRepairs(s: State, h: nat, a: nat)
    requires InRange(s, h, a) && Enabled(s, FlushForUser(h, true))
    ensures InRange(Do(s, FlushForUser(h, true)), h, a) && Fresh(Do(s, FlushForUser(h, true)), h, a)
  {
    EnteringKeepsShape(s, FlushForUser(h, true));
  }

  lemma RunFront(s: State, step: Step, steps: seq<Step>, after: State)
    requires Shape(s) && Enabled(s, step) && Run(Do(s, step), steps, after)
    ensures Run(s, [step] + steps, after)
  {
    assert ([step] + steps)[1..] == steps;
  }

  predicate NobodyRejoins(steps: seq<Step>) { forall i :: 0 <= i < |steps| ==> !steps[i].Rejoin? }

  lemma {:induction false} NobodyRejoinsIsCareful(s: State, steps: seq<Step>, h: nat, a: nat)
    requires NobodyRejoins(steps)
    ensures CarefulRun(s, steps, h, a) && InTimeRun(s, steps, h, a)
    decreases |steps|
  {
    if steps != [] && Shape(s) && Enabled(s, steps[0]) {
      NobodyRejoinsIsCareful(Do(s, steps[0]), steps[1..], h, a);
    }
  }

  /** Hart `h` is active with the old translation `e`, and the update will not wait for it. */
  predicate Missed(s: State, h: nat, e: Entry) {
    && Shape(s) && s.update.Some? && MaskLoaded(s.update.value)
    && h < |s.tlb| && h in s.active[s.update.value.space] && e in s.tlb[h]
    && e.space == s.update.value.space && e.version != s.version[e.space] && !WillFlush(s.update.value, h)
  }

  /** The next step of the sender; one it still waits for goes elsewhere first. */
  function NextStep(s: State): Step
    requires Shape(s) && s.update.Some?
  {
    var u := s.update.value;
    match u.phase
    case Adding(_) => AddSequence
    case Setting(_) => SetPending
    case Waking(_) => WakeTarget
    case CheckAck(_) => LoadAck
    case CheckActive(t) => if t in s.active[u.space] then Detach(t, u.space) else LoadActive
    case _ => Release
  }

  /** How far the sender is from returning. */
  function Work(s: State): int
    requires Shape(s) && s.update.Some?
  {
    var u, n := s.update.value, |s.poll|;
    match u.phase
    case Adding(t) => 12 * n + 20 + 3 * (n - t) + 1
    case Setting(t) => 12 * n + 20 + 3 * (n - t)
    case Waking(t) => 8 * n + 10 + 3 * (n - t)
    case CheckAck(t) => 3 * (n - t) + 3
    case CheckActive(t) => 3 * (n - t) + if t in s.active[u.space] then 2 else 1
    case _ => 0
  }

  /** A target that is waited for detaches. */
  lemma {:induction false} DetachOn(s: State, h: nat, e: Entry)
    requires Missed(s, h, e) && s.update.value.phase.CheckActive? && NextStep(s).Detach?
    ensures Enabled(s, NextStep(s))
    ensures Missed(Do(s, NextStep(s)), h, e) && 0 <= Work(Do(s, NextStep(s))) < Work(s)
  {
    EnteringKeepsShape(s, NextStep(s));
    var after := Do(s, NextStep(s));
    assert after == s.(active := after.active) && s.update.value.phase.target != h;
  }

  lemma {:induction false} SendOn(s: State, h: nat, e: Entry)
    requires Missed(s, h, e) && s.update.value.phase != Returned && !NextStep(s).Detach?
    ensures Enabled(s, NextStep(s))
    ensures Missed(Do(s, NextStep(s)), h, e) && 0 <= Work(Do(s, NextStep(s))) < Work(s)
  {
    SendingKeepsShape(s, NextStep(s));
    var after := Do(s, NextStep(s));
    assert after.tlb == s.tlb && after.version == s.version && after.active == s.active;
  }

  /** An update that misses a hart runs to its end and leaves it with the old translation. */
  lemma {:induction false} MissedForGood(s: State, h: nat, e: Entry) returns (steps: seq<Step>, after: State)
    requires Missed(s, h, e)
    ensures Run(s, steps, after) && NobodyRejoins(steps) && InRange(after, h, e.space)
    ensures !Complete(after, h, e.space) && !Sees(after, h, e.space)
    decreases Work(s)
  {
    if s.update.value.phase == Returned {
      steps, after := [], s;
      assert !Dirty(s, e.space) && !Fresh(s, h, e.space);
    } else {
      if NextStep(s).Detach? { DetachOn(s, h, e); } else { SendOn(s, h, e); }
      steps, after := MissedForGood(Do(s, NextStep(s)), h, e);
      RunFront(s, NextStep(s), steps, after);
      steps := [NextStep(s)] + steps;
    }
  }

  /** From here on the shootdown of the space leaves hart `h` no old translation. */
  ghost predicate WillComplete(s: State, h: nat, a: nat) {
    forall steps, after :: Run(s, steps, after) && InTimeRun(s, steps, h, a) ==>
      InRange(after, h, a) && Complete(after, h, a)
  }

  /** Coming back behind a loaded mask spoils the shootdown exactly if the hart is missed. */
  lemma {:induction false} LateRejoinIff(s: State, h: nat, a: nat)
    requires Base(s) && InRange(s, h, a) && Covered(s, h, a) && Enabled(s, Rejoin(h))
    requires ComesBack(s, Rejoin(h), h, a) && UpdateLocked(s, a) && MaskLoaded(s.update.value)
    ensures WillComplete(Do(s, Rejoin(h)), h, a) <==> FreshOrFlushed(s, h, a)
    ensures FreshOrFlushed(s, h, a) <==> !exists e :: Missed(Do(s, Rejoin(h)), h, e)
  {
    var back := Do(s, Rejoin(h));
    StepKeepsBase(s, Rejoin(h));
    assert h in back.active[a] && back.tlb == s.tlb && back.version == s.version && back.update == s.update;
    if FreshOrFlushed(s, h, a) {
      StepKeepsCovered(s, Rejoin(h), h, a);
      forall steps, after | Run(back, steps, after) && InTimeRun(back, steps, h, a)
        ensures InRange(after, h, a) && Complete(after, h, a)
      {
        RunKeepsCovered(back, steps, after, h, a);
      }
    } else {
      var e :| e in s.tlb[h] && e.space == a && e.version != s.version[a];
      assert Missed(back, h, e);
      var steps, after := MissedForGood(back, h, e);
      NobodyRejoinsIsCareful(back, steps, h, a);
    }
  }

  // ------------------------------------------------------------ when rejoining goes wrong

  /** A hart outside the tail of `poll` caches a translation, and the page table changes behind it. */
  lemma {:induction false} CachedThenChanged(s: State, h: nat, k: nat) returns (cached: State, after: State)
    requires Shape(s) && LocksSound(s) && h < |s.poll| && k < |s.poll| && s.away[k].Alone?
    requires h in s.active[s.away[k].space] && (s.poll[h] == Idle || s.poll[h] == Swapped)
    ensures Enabled(s, Refill(h, s.away[k].space)) && cached == Do(s, Refill(h, s.away[k].space)) && Shape(cached)
    ensures Enabled(cached, ChangeAlone(k)) && after == Do(cached, ChangeAlone(k))
    ensures InRange(after, h, s.away[k].space) && !Sees(after, h, s.away[k].space)
  {
    var a := s.away[k].space;
    cached := Do(s, Refill(h, a));
    PollingKeepsShape(s, Refill(h, a));
    after := Do(cached, ChangeAlone(k));
    AwayKeepsShape(cached, ChangeAlone(k));
    assert Entry(a, s.version[a]) in after.tlb[h] && after.version[a] == s.version[a] + 1;
    assert h in after.active[a] && !UpdateLocked(after, a);
  }

  /** Behind a hart that found the mask empty, any active hart can end up with an old translation. */
  lemma {:induction false} ChangedBehind(s: State, h: nat, k: nat) returns (steps: seq<Step>, after: State)
    requires Shape(s) && LocksSound(s) && h < |s.poll| && k < |s.poll| && s.away[k].Alone?
    requires h in s.active[s.away[k].space]
    ensures Run(s, steps, after) && NobodyRejoins(steps)
    ensures InRange(after, h, s.away[k].space) && !Sees(after, h, s.away[k].space)
    decreases if s.poll[h] == Flushed then 2 else if s.poll[h].Loaded? then 1 else 0
  {
    if s.poll[h] == Flushed || s.poll[h].Loaded? {
      var step := if s.poll[h] == Flushed then PollLoad(h) else PollStore(h);
      PollingKeepsShape(s, step);
      PollingKeepsLocks(s, step);
      steps, after := ChangedBehind(Do(s, step), h, k);
      RunFront(s, step, steps, after);
      steps := [step] + steps;
    } else {
      var cached;
      cached, after := CachedThenChanged(s, h, k);
      RunFront(cached, ChangeAlone(k), [], after);
      var refill := Refill(h, s.away[k].space);
      RunFront(s, refill, [ChangeAlone(k)] + [], after);
      steps := [refill] + ([ChangeAlone(k)] + []);
    }
  }

  /** A hart that comes back when it may not is left with an old translation in some continuation. */
  lemma {:induction false} CarelessRejoin(s: State, h: nat) returns (steps: seq<Step>, after: State)
    requires Base(s) && Enabled(s, Rejoin(h)) && !Allowed(s, h)
    ensures Run(Do(s, Rejoin(h)), steps, after) && NobodyRejoins(steps)
    ensures InRange(after, h, s.away[h].space) && !Sees(after, h, s.away[h].space)
  {
    var a, back := s.away[h].space, Do(s, Rejoin(h));
    StepKeepsBase(s, Rejoin(h));
    assert h in back.active[a] && back.tlb == s.tlb && back.version == s.version && back.update == s.update;
    if k :| 0 <= k < |s.away| && k != h && s.away[k].Alone? && s.away[k].space == a {
      assert back.away[k] == s.away[k];
      steps, after := ChangedBehind(back, h, k);
    } else {
      var e :| e in s.tlb[h] && e.space == a && e.version != s.version[a];
      if Dirty(s, a) {
        steps, after := MissedForGood(back, h, e);
      } else {
        steps, after := [], back;
        assert !Fresh(back, h, a) && !Dirty(back, a);
      }
    }
  }

  /** From here on, whatever others do, a hart that is careful itself sees the current page table. */
  ghost predicate SafeFrom(s: State, h: nat, a: nat) {
    forall steps, after :: Run(s, steps, after) && CarefulRun(s, steps, h, a) ==>
      InRange(after, h, a) && Sees(after, h, a)
  }

  /** Exactly when a hart may come back without a flush. */
  lemma {:induction false} RejoinSafeIff(s: State, h: nat, a: nat)
    requires Base(s) && InRange(s, h, a) && Current(s, h, a) && Enabled(s, Rejoin(h)) && s.away[h].space == a
    ensures SafeFrom(Do(s, Rejoin(h)), h, a) <==> Allowed(s, h)
  {
    var back := Do(s, Rejoin(h));
    if Allowed(s, h) {
      StepKeepsCurrent(s, Rejoin(h), h, a);
      forall steps, after | Run(back, steps, after) && CarefulRun(back, steps, h, a)
        ensures InRange(after, h, a) && Sees(after, h, a)
      {
        RunKeepsCurrent(back, steps, after, h, a);
      }
    } else {
      var steps, after := CarelessRejoin(s, h);
      NobodyRejoinsIsCareful(back, steps, h, a);
    }
  }
}
