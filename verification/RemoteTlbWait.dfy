/**
  The wait of a shootdown. It goes past a target exactly when the target has
  acknowledged its request or is no longer active, it ends as soon as all of them have,
  and from every point of a shootdown the targets' polls alone can bring it to its end.
 */
module RemoteTlbWait {
  import opened Basics
  import opened RemoteTlb
  import opened RemoteTlbRuns

  /** Target `t` has answered the request of the update. */
  predicate Answered(s: State, t: nat)
    requires Shape(s) && s.update.Some? && t < |s.poll|
  {
    s.mail[t].acknowledged == s.update.value.sequences[t]
  }

  predicate AnsweredFrom(s: State, k: nat)
    requires Shape(s) && s.update.Some?
  {
    forall t :: k <= t < |s.poll| && t in s.update.value.remote ==> Answered(s, t)
  }

  predicate OnlyLoadsAck(steps: seq<Step>) { forall i :: 0 <= i < |steps| ==> steps[i] == LoadAck }

  // ------------------------------------------------------------ acknowledgements end the wait

  /** Once every target not yet waited for has answered, the sender returns by looking at each of them once. */
  lemma {:induction false} AnswersEndTheWait(s: State, k: nat) returns (steps: seq<Step>, after: State)
    requires Base(s) && s.update.Some? && s.update.value.phase == CheckAck(k) && AnsweredFrom(s, k)
    ensures Run(s, steps, after) && OnlyLoadsAck(steps) && |steps| == |s.poll| + 1 - k
    ensures after == At(s, Returned)
    decreases |s.poll| - k
  {
    var next := Do(s, LoadAck);
    StepKeepsBase(s, LoadAck);
    if k == |s.poll| {
      steps, after := [], next;
    } else {
      steps, after := AnswersEndTheWait(next, k + 1);
    }
    RunFront(s, LoadAck, steps, after);
    steps := [LoadAck] + steps;
  }

  // ------------------------------------------------------------ nothing else does

  /** The update has sent its requests, or is about to, and has not gone past target `t`. */
  predicate AwaitsTarget(s: State, t: nat) {
    && Shape(s) && s.update.Some? && MaskLoaded(s.update.value)
    && t in s.update.value.remote && !Waited(s.update.value, t)
  }

  /** The step that goes past target `t`: it finds the answer, or finds the target gone. */
  predicate GoesPast(s: State, step: Step, t: nat)
    requires AwaitsTarget(s, t)
  {
    || (step == LoadAck && s.update.value.phase == CheckAck(t) && Answered(s, t))
    || (step == LoadActive && s.update.value.phase == CheckActive(t) && t !in s.active[s.update.value.space])
  }

  lemma {:induction false} WaitGoesPastIff(s: State, step: Step, t: nat)
    requires AwaitsTarget(s, t) && Enabled(s, step) && Shape(Do(s, step))
    ensures AwaitsTarget(Do(s, step), t) <==> !GoesPast(s, step, t)
  {
    if SendingStep(step) {
      SenderGoesPastIff(s, step, t);
    } else {
      assert !LockingStep(step);
      assert Do(s, step).update == s.update;
    }
  }

  lemma {:induction false} SenderGoesPastIff(s: State, step: Step, t: nat)
    requires AwaitsTarget(s, t) && SendingStep(step) && Enabled(s, step) && Shape(Do(s, step))
    ensures AwaitsTarget(Do(s, step), t) <==> !GoesPast(s, step, t)
  {
  }

  /** All along the run the target stays active and its mailbox does not show the number of the request. */
  ghost predicate Silent(s: State, steps: seq<Step>, t: nat)
    decreases |steps|
  {
    && (AwaitsTarget(s, t) ==> t in s.active[s.update.value.space] && !Answered(s, t))
    && (steps != [] && Shape(s) && Enabled(s, steps[0]) ==> Silent(Do(s, steps[0]), steps[1..], t))
  }

  /** A shootdown does not return while a target stays active and does not answer. */
  lemma {:induction false} SilentTargetIsAwaited(s: State, steps: seq<Step>, after: State, t: nat)
    requires Base(s) && AwaitsTarget(s, t) && Run(s, steps, after) && Silent(s, steps, t)
    ensures AwaitsTarget(after, t) && after.update.value.phase != Returned
    decreases |steps|
  {
    if steps != [] {
      StepKeepsBase(s, steps[0]);
      WaitGoesPastIff(s, steps[0], t);
      SilentTargetIsAwaited(Do(s, steps[0]), steps[1..], after, t);
    }
  }

  // ------------------------------------------------------------ polls alone bring it to its end

  /** How many steps of its own the target is from answering request `q`. */
  function PollsLeft(s: State, t: nat, q: nat): nat
    requires t < |s.mail| == |s.poll|
  {
    if s.mail[t].acknowledged == q then 0
    else match s.poll[t]
         case Loaded(k) => if k == q then 1 else 5
         case Flushed => 2
         case Swapped => 3
         case Idle => 4
  }

  /** The next step of hart `t` inside `poll`. */
  function PollStep(s: State, t: nat): Step
    requires t < |s.poll|
  {
    match s.poll[t]
    case Idle => PollSwap(t)
    case Swapped => PollFlush(t)
    case Flushed => PollLoad(t)
    case Loaded(_) => PollStore(t)
  }

  /** Send, wake, and let the target that is waited for poll. */
  function FinishStep(s: State): Step
    requires Shape(s) && s.update.Some?
  {
    var u := s.update.value;
    match u.phase
    case Adding(_) => AddSequence
    case Setting(_) => SetPending
    case Waking(_) => WakeTarget
    case CheckAck(t) =>
      if t == |s.poll| || t !in u.remote || s.mail[t].acknowledged == u.sequences[t] then LoadAck else PollStep(s, t)
    case CheckActive(_) => LoadActive
    case _ => Release
  }

  /** How far the shootdown is from its end. */
  function Distance(s: State): nat
    requires Shape(s) && s.update.Some?
  {
    var u, n := s.update.value, |s.poll|;
    match u.phase
    case Adding(t) => 20 * n + 40 + 2 * (n - t) + 1
    case Setting(t) => 20 * n + 40 + 2 * (n - t)
    case Waking(t) => 8 * n + 20 + (n - t)
    case CheckAck(t) => 8 * (n - t) + 8 + if t < n && t in u.remote then PollsLeft(s, t, u.sequences[t]) else 0
    case CheckActive(t) => 8 * (n - t) + 15
    case _ => 0
  }

  predicate Quiet(step: Step) { SendingStep(step) || Polling(step) }

  lemma {:induction false} PollGetsOn(s: State, t: nat)
    requires Base(s) && s.update.Some? && s.update.value.phase == CheckAck(t) && t in s.update.value.remote
    requires !Answered(s, t)
    ensures Enabled(s, PollStep(s, t)) && Polling(PollStep(s, t)) && Do(s, PollStep(s, t)).update == s.update
    ensures var q := s.update.value.sequences[t];
            |Do(s, PollStep(s, t)).mail| == |Do(s, PollStep(s, t)).poll| == |s.poll|
            && PollsLeft(Do(s, PollStep(s, t)), t, q) < PollsLeft(s, t, q)
  {
    assert Armed(s.update.value, t);
    assert NotLost(s, t, s.update.value.sequences[t]);
  }

  /** The same update goes on, nearer to its end. */
  predicate Nearer(s: State, next: State)
    requires Shape(s) && Shape(next) && s.update.Some?
  {
    && next.update.Some? && MaskLoaded(next.update.value) && next.active == s.active && next.version == s.version
    && next.update.value.hart == s.update.value.hart && next.update.value.space == s.update.value.space
    && Distance(next) < Distance(s)
  }

  lemma {:induction false} PollingIsNearer(s: State, t: nat)
    requires Base(s) && s.update.Some? && s.update.value.phase == CheckAck(t) && t in s.update.value.remote
    requires !Answered(s, t)
    ensures Enabled(s, PollStep(s, t)) && Polling(PollStep(s, t))
    ensures Shape(Do(s, PollStep(s, t))) && Nearer(s, Do(s, PollStep(s, t)))
  {
    PollGetsOn(s, t);
    PollingKeepsShape(s, PollStep(s, t));
  }

  lemma {:induction false} SendingIsNearer(s: State)
    requires Base(s) && s.update.Some? && MaskLoaded(s.update.value) && SendingStep(FinishStep(s))
    ensures Enabled(s, FinishStep(s)) && Shape(Do(s, FinishStep(s))) && Nearer(s, Do(s, FinishStep(s)))
  {
    SendingKeepsShape(s, FinishStep(s));
  }

  lemma {:induction false} FinishGetsOn(s: State)
    requires Base(s) && s.update.Some? && MaskLoaded(s.update.value) && s.update.value.phase != Returned
    ensures Enabled(s, FinishStep(s)) && Quiet(FinishStep(s))
    ensures Base(Do(s, FinishStep(s))) && Nearer(s, Do(s, FinishStep(s)))
  {
    if SendingStep(FinishStep(s)) {
      SendingIsNearer(s);
    } else {
      PollingIsNearer(s, s.update.value.phase.target);
    }
    StepKeepsBase(s, FinishStep(s));
  }

  predicate AllQuiet(steps: seq<Step>) { forall i :: 0 <= i < |steps| ==> Quiet(steps[i]) }

  /**
    From every point of a shootdown the sender's own steps and the polls of its targets
    bring it to its end, without anybody leaving the address space.
   */
  lemma {:induction false} ShootdownCanFinish(s: State) returns (steps: seq<Step>, after: State)
    requires Base(s) && s.update.Some? && MaskLoaded(s.update.value)
    ensures Run(s, steps, after) && AllQuiet(steps) && Base(after)
    ensures after.active == s.active && after.version == s.version
    ensures after.update.Some? && after.update.value.phase == Returned
    ensures after.update.value.hart == s.update.value.hart && after.update.value.space == s.update.value.space
    decreases Distance(s)
  {
    if s.update.value.phase == Returned {
      steps, after := [], s;
    } else {
      FinishGetsOn(s);
      steps, after := ShootdownCanFinish(Do(s, FinishStep(s)));
      RunFront(s, FinishStep(s), steps, after);
      steps := [FinishStep(s)] + steps;
    }
  }
}
