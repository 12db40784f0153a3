/**
  The device token gets to whoever waits for it: from every reachable state each waiting
  task can enter, with the holders before it finishing, every woken task polling, and
  nobody polling unless woken.
 */
module DiskProgress {
  import opened Basics
  import opened DiskQueue
  import opened DiskProtocol

  /** Tasks poll when they have been woken, and nobody gives up. */
  predicate Answers(s: State, step: Step) {
    && (step.PollTicket? ==> step.t in s.woken)
    && !step.Try? && !step.DropFuture? && !step.Abandon?
  }

  ghost predicate AnsweringRun(s: State, steps: seq<Step>, after: State)
    decreases |steps|
  {
    if steps == [] then after == s
    else
      && |s.phase| == |s.tids| == |s.current| && Enabled(s, steps[0]) && Answers(s, steps[0])
      && AnsweringRun(Do(s, steps[0]), steps[1..], after)
  }

  lemma {:induction false} AnsweringIsRun(s: State, steps: seq<Step>, after: State)
    requires AnsweringRun(s, steps, after)
    ensures Run(s, steps, after)
    decreases |steps|
  {
    if steps != [] { AnsweringIsRun(Do(s, steps[0]), steps[1..], after); }
  }

  lemma RunFront(s: State, step: Step, rest: seq<Step>, after: State)
    requires |s.phase| == |s.tids| == |s.current| && Enabled(s, step) && Answers(s, step)
    requires AnsweringRun(Do(s, step), rest, after)
    ensures AnsweringRun(s, [step] + rest, after)
  {
    assert ([step] + rest)[1..] == rest;
  }

  /** Whoever has the front ticket has been woken. */
  predicate FrontReady(s: State) { s.queue.waiters != [] && s.queue.waiters[0].waker.task in s.woken }

  /** What is left to do before the front task can poll. */
  function Stage(s: State): nat {
    if s.holder == None then (if FrontReady(s) then 0 else 1)
    else if s.holder.value >= |s.phase| then 0
    else match s.phase[s.holder.value]
         case Dropping => 2
         case Owning => 3
         case _ => 4
  }

  /** The holder's next step towards giving the token back. */
  function HolderStep(s: State, h: nat): Step
    requires h < |s.phase|
  {
    match s.phase[h]
    case Granted => LockDevice(h)
    case Owning => UnlockDevice(h)
    case _ => GiveBack(h)
  }

  lemma {:induction false} HolderGetsOn(s: State, h: nat)
    requires Inv(s) && s.holder == Some(h)
    ensures h < |s.phase| && Enabled(s, HolderStep(s, h)) && Answers(s, HolderStep(s, h))
    ensures var next := Do(s, HolderStep(s, h));
            next.queue.waiters == s.queue.waiters && Stage(next) < Stage(s)
            && forall t :: 0 <= t < |s.phase| && t != h ==> next.phase[t] == s.phase[t]
  {
    assert Holds(s.phase[h]);
  }

  /** The wake-up owed to the front task is delivered. */
  lemma {:induction false} WakerGetsOn(s: State) returns (w: nat)
    requires Inv(s) && s.holder == None && s.queue.waiters != [] && !FrontReady(s)
    ensures Enabled(s, Wake(w)) && Answers(s, Wake(w))
    ensures var next := Do(s, Wake(w));
            next.queue == s.queue && Stage(next) == 0 && Stage(s) == 1
            && forall t :: 0 <= t < |s.phase| && t != w ==> next.phase[t] == s.phase[t]
  {
    var front := s.queue.waiters[0];
    assert Alive(front, s.tids, s.phase, s.current);
    assert BeingWoken(s.phase, front.waker);
    w :| 0 <= w < |s.phase| && s.phase[w].Waking? && s.phase[w].waker == front.waker;
    assert Reaches(s, front.waker);
  }

  lemma {:induction false} NextInLine(ws: seq<Waiter>, k: nat)
    requires 0 < IndexOf(ws, k) < |ws|
    ensures IndexOf(ws[1..], k) == IndexOf(ws, k) - 1
  {
  }

  /** A free token goes to the front task on its next poll. */
  lemma {:induction false} FrontEnters(s: State)
    requires Inv(s) && s.holder == None && FrontReady(s)
    ensures var f := s.queue.waiters[0].waker.task;
            var step := PollTicket(f, 0);
            && f < |s.phase| && s.phase[f] == Queued(Some(s.queue.waiters[0].ticket))
            && Enabled(s, step) && Answers(s, step)
            && var next := Do(s, step);
               next.phase == s.phase[f := Granted] && next.holder == Some(f)
               && next.queue.waiters == s.queue.waiters[1..]
  {
    assert Alive(s.queue.waiters[0], s.tids, s.phase, s.current);
  }

  /** Where the ticket of a waiting task stands. */
  lemma {:induction false} TicketStands(s: State, t: nat)
    requires Inv(s) && t < |s.phase| && Sits(s.phase[t])
    ensures var i := Ahead(s, s.phase[t].ticket.value);
            i < |s.queue.waiters| && s.queue.waiters[i].waker.task == t
  {
    var k, ws := s.phase[t].ticket.value, s.queue.waiters;
    assert InQueue(ws, t, k);
    var j :| 0 <= j < |ws| && ws[j].ticket == k && ws[j].waker.task == t;
    assert IndexOf(ws, k) <= j;
  }

  /** Every waiting task can enter; the tickets ahead of it enter first, one after the other. */
  lemma {:induction false} EveryWaiterCanEnter(s: State, t: nat) returns (steps: seq<Step>, after: State)
    requires Inv(s) && t < |s.phase| && Sits(s.phase[t])
    ensures AnsweringRun(s, steps, after) && t < |after.phase| && after.phase[t] == Granted
    decreases Ahead(s, s.phase[t].ticket.value), Stage(s)
  {
    var k := s.phase[t].ticket.value;
    TicketStands(s, t);
    var step;
    if s.holder.Some? {
      HolderGetsOn(s, s.holder.value);
      step := HolderStep(s, s.holder.value);
    } else if !FrontReady(s) {
      var w := WakerGetsOn(s);
      step := Wake(w);
    } else {
      FrontEnters(s);
      step := PollTicket(s.queue.waiters[0].waker.task, 0);
      if Ahead(s, k) > 0 { NextInLine(s.queue.waiters, k); }
    }
    StepKeeps(s, step);
    if step.PollTicket? && step.t == t {
      steps, after := [], Do(s, step);
    } else {
      steps, after := EveryWaiterCanEnter(Do(s, step), t);
    }
    RunFront(s, step, steps, after);
    steps := [step] + steps;
  }

  // ------------------------------------------------------------ from the first try

  /** A try succeeds exactly if the token is free and nobody waits; else a task goes to wait. */
  lemma {:induction false} TryEntersIff(s: State, t: nat)
    requires Inv(s) && Enabled(s, Try(t))
    ensures var next := Do(s, Try(t));
            && (next.phase[t] == Granted <==> s.holder == None && s.queue.waiters == [])
            && (next.phase[t] != Granted ==> next == s || (s.tids[t] != 0 && next.phase[t] == Queued(None)))
            && (next == s ==> s.tids[t] == 0)
  {
    assert s.holder.Some? ==> s.queue.owner.Some?;
  }

  /** The first poll that does not enter takes the last place in the queue. */
  lemma {:induction false} NewcomerIsLast(s: State, t: nat, version: nat)
    requires Inv(s) && t < |s.phase| && s.phase[t] == Queued(None) && !CanAcquire(s.queue, None)
    ensures var next := Do(s, PollTicket(t, version));
            && Sits(next.phase[t]) && |next.queue.waiters| == |s.queue.waiters| + 1
            && Ahead(next, next.phase[t].ticket.value) == |s.queue.waiters|
            && s.queue.waiters <= next.queue.waiters
  {
    var next := Do(s, PollTicket(t, version));
    assert next.queue.waiters[|s.queue.waiters|].ticket == s.queue.nextTicket;
  }

  lemma RunStep(s: State, step: Step, rest: seq<Step>, after: State)
    requires |s.phase| == |s.tids| == |s.current| && Enabled(s, step) && Run(Do(s, step), rest, after)
    ensures Run(s, [step] + rest, after)
  {
    assert ([step] + rest)[1..] == rest;
  }

  lemma {:induction false} WaitingCanEnter(s: State, t: nat) returns (steps: seq<Step>, after: State)
    requires Inv(s) && t < |s.phase| && s.phase[t] == Queued(None)
    ensures Run(s, steps, after) && t < |after.phase| && after.phase[t] == Granted
  {
    var step := PollTicket(t, 0);
    StepKeeps(s, step);
    if CanAcquire(s.queue, None) {
      steps, after := [], Do(s, step);
    } else {
      NewcomerIsLast(s, t, 0);
      steps, after := EveryWaiterCanEnter(Do(s, step), t);
      AnsweringIsRun(Do(s, step), steps, after);
    }
    RunStep(s, step, steps, after);
    steps := [step] + steps;
  }

  /** Every task that asks for the device can get it, whatever the others are doing. */
  lemma {:induction false} EveryTaskCanEnter(s: State, t: nat) returns (steps: seq<Step>, after: State)
    requires Inv(s) && t < |s.phase| && s.phase[t] == Idle && s.tids[t] != 0
    ensures Run(s, steps, after) && t < |after.phase| && after.phase[t] == Granted
  {
    StepKeeps(s, Try(t));
    TryEntersIff(s, t);
    if s.holder == None && s.queue.waiters == [] {
      steps, after := [], Do(s, Try(t));
    } else {
      steps, after := WaitingCanEnter(Do(s, Try(t)), t);
    }
    RunStep(s, Try(t), steps, after);
    steps := [Try(t)] + steps;
  }
}
