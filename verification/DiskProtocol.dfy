/**
  Tasks contending for the block device, one critical section at a time. Taking the
  token, locking the device mutex, unlocking it, giving the token back and waking the
  next waiter are separate steps, and a waiting task may be cancelled at any moment.
 */
module DiskProtocol {
  import opened Basics
  import opened DiskQueue

  /** Where a task is in one request. `Waking` still owes a wake-up; `Gone` has left for good. */
  datatype Phase =
    | Idle | Queued(ticket: Option<nat>) | Granted | Owning | Dropping
    | Waking(waker: Waker, gone: bool) | Gone

  /**
    `holder` is who stands behind `queue.owner`, `current` the version of the waker each
    task last polled with, `woken` the tasks whose wake-up has not been answered by a
    poll yet, `granted` the tickets that have entered, in order.
   */
  datatype State = State(queue: Queue, devLocked: bool, tids: seq<nat>, phase: seq<Phase>, current: seq<nat>,
                         holder: Option<nat>, woken: set<nat>, granted: seq<nat>)

  datatype Step =
    | Try(t: nat) | PollTicket(t: nat, version: nat) | LockDevice(t: nat) | UnlockDevice(t: nat)
    | GiveBack(t: nat) | Wake(t: nat) | DropFuture(t: nat) | Abandon(t: nat)

  /** Task ids are unique; 0 stands for code that runs outside any task. */
  predicate Init(s: State) {
    && s.queue == Queue(None, 1, []) && !s.devLocked && s.holder == None && s.granted == []
    && s.woken == {} && |s.tids| == |s.phase| == |s.current|
    && (forall t :: 0 <= t < |s.phase| ==> s.phase[t] == Idle)
    && DistinctTids(s.tids)
  }

  predicate DistinctTids(tids: seq<nat>) {
    forall t, u :: 0 <= t < u < |tids| && tids[t] == tids[u] ==> tids[t] == 0
  }

  predicate Enabled(s: State, step: Step) {
    var t := step.t;
    && t < |s.phase| && t < |s.tids|
    && match step
       case Try(_) => s.phase[t] == Idle
       case PollTicket(_, _) => s.phase[t].Queued?
       case LockDevice(_) => s.phase[t] == Granted
       case UnlockDevice(_) => s.phase[t] == Owning
       case GiveBack(_) => s.phase[t] == Dropping
       case Wake(_) => s.phase[t].Waking?
       case DropFuture(_) => s.phase[t].Queued?
       case Abandon(_) => s.tids[t] != 0 && (s.phase[t] == Idle || s.phase[t].Queued?)
  }

  function Enter(s: State, t: nat, ticket: Option<nat>): State
    requires t < |s.phase| == |s.tids| && CanAcquire(s.queue, ticket)
  {
    s.(queue := Acquired(s.queue, s.tids[t], ticket), phase := s.phase[t := Granted], holder := Some(t),
       granted := if ticket.Some? then s.granted + [ticket.value] else s.granted)
  }

  /** Continue after a critical section that may have produced a waker. */
  function AndWake(s: State, t: nat, next: Option<Waker>, gone: bool): State
    requires t < |s.phase|
  {
    s.(phase := s.phase[t := if next.Some? then Waking(next.value, gone) else if gone then Gone else Idle])
  }

  /** Waking reaches a waiter only through the waker of its last poll. */
  predicate Reaches(s: State, waker: Waker) { waker.task < |s.current| && s.current[waker.task] == waker.version }

  function Do(s: State, step: Step): State
    requires Enabled(s, step) && |s.phase| == |s.tids| == |s.current|
  {
    var t := step.t;
    match step
    case Try(_) =>
      if CanAcquire(s.queue, None) then Enter(s, t, None)
      else if s.tids[t] == 0 then s
      else s.(phase := s.phase[t := Queued(None)])
    case PollTicket(_, version) =>
      var ticket := s.phase[t].ticket;
      var polled := s.(woken := s.woken - {t}, current := s.current[t := version]);
      if CanAcquire(s.queue, ticket) then Enter(polled, t, ticket)
      else
        var r := Poll(s.queue, s.tids[t], ticket, Waker(t, version));
        polled.(queue := r.queue, phase := s.phase[t := Queued(r.ticket)])
    case LockDevice(_) => s.(devLocked := true, phase := s.phase[t := Owning])
    case UnlockDevice(_) => s.(devLocked := false, phase := s.phase[t := Dropping])
    case GiveBack(_) =>
      var queue := s.queue.(owner := None);
      AndWake(s.(queue := queue, holder := None), t, FrontWaker(queue), false)
    case Wake(_) =>
      s.(woken := if Reaches(s, s.phase[t].waker) then s.woken + {s.phase[t].waker.task} else s.woken,
         phase := s.phase[t := if s.phase[t].gone then Gone else Idle])
    case DropFuture(_) =>
      if s.phase[t].ticket == None then s.(phase := s.phase[t := Idle])
      else
        var k := s.phase[t].ticket.value;
        var queue := s.queue.(waiters := WithoutTicket(s.queue.waiters, k));
        AndWake(s.(queue := queue), t,
                if IndexOf(s.queue.waiters, k) < |s.queue.waiters| then FrontWaker(queue) else None, false)
    case Abandon(_) =>
      var queue := s.queue.(waiters := WithoutTid(s.queue.waiters, s.tids[t]));
      AndWake(s.(queue := queue), t, FrontWaker(queue), true)
  }

  ghost predicate Run(s: State, steps: seq<Step>, after: State)
    decreases |steps|
  {
    if steps == [] then after == s
    else |s.phase| == |s.tids| == |s.current| && Enabled(s, steps[0]) && Run(Do(s, steps[0]), steps[1..], after)
  }

  // ------------------------------------------------------------ the invariant

  predicate Holds(p: Phase) { p == Granted || p == Owning || p == Dropping }

  /** Sitting on a ticket in the queue. */
  predicate Sits(p: Phase) { p.Queued? && p.ticket.Some? }

  /** Exactly the holder is between taking the token and giving it back, and it alone may lock the device. */
  ghost predicate OneHolder(owner: Option<nat>, devLocked: bool, holder: Option<nat>, tids: seq<nat>, phase: seq<Phase>)
    requires |phase| == |tids|
  {
    && (match holder
        case None => owner == None && !devLocked
        case Some(h) => h < |phase| && Holds(phase[h]) && owner == Some(tids[h]) && (devLocked <==> phase[h] == Owning))
    && forall t :: 0 <= t < |phase| && Holds(phase[t]) ==> holder == Some(t)
  }

  predicate Increasing(ws: seq<Waiter>) {
    forall i, j :: 0 <= i < j < |ws| ==> ws[i].ticket < ws[j].ticket
  }

  /** Tickets wait in the order they were handed out, after every ticket already granted. */
  ghost predicate Ordered(ws: seq<Waiter>, granted: seq<nat>, nextTicket: nat) {
    && Increasing(ws) && 1 <= nextTicket
    && (forall i :: 0 <= i < |ws| ==> 1 <= ws[i].ticket < nextTicket)
    && (forall i, j :: 0 <= i < j < |granted| ==> granted[i] < granted[j])
    && (forall g :: 0 <= g < |granted| ==> granted[g] < nextTicket)
    && (forall g, i :: 0 <= g < |granted| && 0 <= i < |ws| ==> granted[g] < ws[i].ticket)
  }

  /** A waiter is a live task sitting on that very ticket, with the waker of its last poll. */
  ghost predicate Alive(w: Waiter, tids: seq<nat>, phase: seq<Phase>, current: seq<nat>)
    requires |phase| == |tids| == |current|
  {
    && w.waker.task < |phase| && phase[w.waker.task] == Queued(Some(w.ticket))
    && w.tid == tids[w.waker.task] && w.tid != 0 && w.waker.version == current[w.waker.task]
  }

  ghost predicate InQueue(ws: seq<Waiter>, t: nat, k: nat) {
    exists i :: 0 <= i < |ws| && ws[i].ticket == k && ws[i].waker.task == t
  }

  /** The waiters are exactly the live tasks with a ticket; code outside any task never waits. */
  ghost predicate Matched(ws: seq<Waiter>, tids: seq<nat>, phase: seq<Phase>, current: seq<nat>)
    requires |phase| == |tids| == |current|
  {
    && (forall i :: 0 <= i < |ws| ==> Alive(ws[i], tids, phase, current))
    && (forall t :: 0 <= t < |phase| && Sits(phase[t]) ==> InQueue(ws, t, phase[t].ticket.value))
    && (forall t :: 0 <= t < |phase| && phase[t].Queued? ==> tids[t] != 0)
  }

  ghost predicate BeingWoken(phase: seq<Phase>, waker: Waker) {
    exists t :: 0 <= t < |phase| && phase[t].Waking? && phase[t].waker == waker
  }

  /** A free device with a queue has its front woken, or somebody about to do it. */
  ghost predicate FrontWoken(q: Queue, woken: set<nat>, phase: seq<Phase>) {
    q.owner == None && q.waiters != [] ==>
      var waker := q.waiters[0].waker; waker.task in woken || BeingWoken(phase, waker)
  }

  ghost predicate Inv(s: State) {
    && |s.phase| == |s.tids| == |s.current| && DistinctTids(s.tids)
    && OneHolder(s.queue.owner, s.devLocked, s.holder, s.tids, s.phase)
    && Ordered(s.queue.waiters, s.granted, s.queue.nextTicket)
    && Matched(s.queue.waiters, s.tids, s.phase, s.current)
    && FrontWoken(s.queue, s.woken, s.phase)
  }

  lemma InitInv(s: State)
    requires Init(s)
    ensures Inv(s)
  {
  }

  // ------------------------------------------------------------ the queue

  /** The queue without the waiter at `i`, or the same queue if there is none. */
  function Left(ws: seq<Waiter>, i: nat): (r: seq<Waiter>)
    requires i <= |ws|
    ensures |r| == if i < |ws| then |ws| - 1 else |ws|
    ensures forall j :: 0 <= j < |r| ==> r[j] == ws[if j < i then j else j + 1]
  {
    if i < |ws| then ws[..i] + ws[i + 1..] else ws
  }

  lemma LeftOrdered(ws: seq<Waiter>, i: nat, granted: seq<nat>, nextTicket: nat)
    requires Ordered(ws, granted, nextTicket) && i <= |ws|
    ensures Ordered(Left(ws, i), granted, nextTicket)
  {
  }

  lemma FrontOrdered(ws: seq<Waiter>, granted: seq<nat>, nextTicket: nat)
    requires Ordered(ws, granted, nextTicket) && ws != []
    ensures Ordered(ws[1..], granted + [ws[0].ticket], nextTicket)
  {
  }

  lemma JoinOrdered(ws: seq<Waiter>, w: Waiter, granted: seq<nat>, nextTicket: nat)
    requires Ordered(ws, granted, nextTicket) && w.ticket == nextTicket
    ensures Ordered(ws + [w], granted, nextTicket + 1)
  {
  }

  lemma RefreshOrdered(ws: seq<Waiter>, i: nat, waker: Waker, granted: seq<nat>, nextTicket: nat)
    requires Ordered(ws, granted, nextTicket) && i < |ws|
    ensures Ordered(ws[i := ws[i].(waker := waker)], granted, nextTicket)
  {
  }

  /** A change of phase that concerns no ticket. */
  lemma {:induction false} PhaseMatched(ws: seq<Waiter>, tids: seq<nat>, phase: seq<Phase>, current: seq<nat>, t: nat,
                                        p: Phase)
    requires |phase| == |tids| == |current| && Matched(ws, tids, phase, current) && t < |phase| && !Sits(phase[t])
    requires !Sits(p) && (p.Queued? ==> tids[t] != 0)
    ensures Matched(ws, tids, phase[t := p], current)
  {
    forall i | 0 <= i < |ws| ensures Alive(ws[i], tids, phase[t := p], current) {
      assert Alive(ws[i], tids, phase, current);
    }
  }

  /** A poll of a task that has no ticket. */
  lemma {:induction false} CurrentMatched(ws: seq<Waiter>, tids: seq<nat>, phase: seq<Phase>, current: seq<nat>,
                                          t: nat, version: nat)
    requires |phase| == |tids| == |current| && Matched(ws, tids, phase, current) && t < |phase| && !Sits(phase[t])
    ensures Matched(ws, tids, phase, current[t := version])
  {
    forall i | 0 <= i < |ws| ensures Alive(ws[i], tids, phase, current[t := version]) {
      assert Alive(ws[i], tids, phase, current);
    }
  }

  /** A task that leaves takes its waiter with it. */
  lemma {:induction false} LeftMatched(ws: seq<Waiter>, tids: seq<nat>, phase: seq<Phase>, current: seq<nat>, i: nat,
                                       p: Phase)
    requires |phase| == |tids| == |current| && Matched(ws, tids, phase, current) && Increasing(ws) && i < |ws|
    requires ws[i].waker.task < |phase| && !p.Queued?
    ensures Matched(Left(ws, i), tids, phase[ws[i].waker.task := p], current)
  {
    var t, now := ws[i].waker.task, Left(ws, i);
    var after := phase[t := p];
    forall j | 0 <= j < |now| ensures Alive(now[j], tids, after, current) {
      assert Alive(ws[if j < i then j else j + 1], tids, phase, current);
      assert Alive(ws[i], tids, phase, current);
    }
    forall u | 0 <= u < |after| && Sits(after[u]) ensures InQueue(now, u, after[u].ticket.value) {
      var k := phase[u].ticket.value;
      assert InQueue(ws, u, k);
      var m :| 0 <= m < |ws| && ws[m].ticket == k && ws[m].waker.task == u;
      assert now[if m < i then m else m - 1] == ws[m];
    }
  }

  lemma {:induction false} JoinMatched(ws: seq<Waiter>, tids: seq<nat>, phase: seq<Phase>, current: seq<nat>, w: Waiter)
    requires |phase| == |tids| == |current| && Matched(ws, tids, phase, current) && w.waker.task < |phase|
    requires phase[w.waker.task] == Queued(None) && w.tid == tids[w.waker.task]
    requires w.waker.version == current[w.waker.task]
    ensures Matched(ws + [w], tids, phase[w.waker.task := Queued(Some(w.ticket))], current)
  {
    var t, now := w.waker.task, ws + [w];
    var after := phase[t := Queued(Some(w.ticket))];
    forall j | 0 <= j < |now| ensures Alive(now[j], tids, after, current) {
      if j < |ws| { assert Alive(ws[j], tids, phase, current); }
    }
    forall u | 0 <= u < |after| && Sits(after[u]) ensures InQueue(now, u, after[u].ticket.value) {
      if u == t {
        assert now[|ws|] == w;
      } else {
        var m :| 0 <= m < |ws| && ws[m].ticket == phase[u].ticket.value && ws[m].waker.task == u;
        assert now[m] == ws[m];
      }
    }
  }

  lemma {:induction false} WakerMatched(ws: seq<Waiter>, tids: seq<nat>, phase: seq<Phase>, current: seq<nat>, i: nat,
                                        version: nat)
    requires |phase| == |tids| == |current| && Matched(ws, tids, phase, current) && Increasing(ws) && i < |ws|
    requires ws[i].waker.task < |phase|
    ensures var t := ws[i].waker.task;
            Matched(ws[i := ws[i].(waker := Waker(t, version))], tids, phase, current[t := version])
  {
    var t := ws[i].waker.task;
    var now := ws[i := ws[i].(waker := Waker(t, version))];
    assert Alive(ws[i], tids, phase, current);
    forall j | 0 <= j < |now| ensures Alive(now[j], tids, phase, current[t := version]) {
      assert Alive(ws[j], tids, phase, current);
    }
    forall u | 0 <= u < |phase| && Sits(phase[u]) ensures InQueue(now, u, phase[u].ticket.value) {
      var m :| 0 <= m < |ws| && ws[m].ticket == phase[u].ticket.value && ws[m].waker.task == u;
      assert now[m].ticket == ws[m].ticket && now[m].waker.task == u;
    }
  }

  // ------------------------------------------------------------ entering and waiting

  /** Whoever polls with the front ticket is at the front of the queue. */
  lemma FrontTask(s: State, t: nat)
    requires Inv(s) && t < |s.phase| && Sits(s.phase[t]) && CanAcquire(s.queue, s.phase[t].ticket)
    ensures s.queue.waiters[0].waker.task == t
  {
    assert InQueue(s.queue.waiters, t, s.phase[t].ticket.value);
  }

  lemma {:induction false} EnterKeeps(s: State, t: nat, woken: set<nat>, version: nat)
    requires Inv(s) && t < |s.phase| && (s.phase[t] == Idle || s.phase[t].Queued?)
    requires CanAcquire(s.queue, if s.phase[t] == Idle then None else s.phase[t].ticket)
    ensures Inv(Enter(s.(woken := woken, current := s.current[t := version]), t,
                      if s.phase[t] == Idle then None else s.phase[t].ticket))
  {
    var ws, phase := s.queue.waiters, s.phase[t := Granted];
    if Sits(s.phase[t]) {
      FrontTask(s, t);
      FrontOrdered(ws, s.granted, s.queue.nextTicket);
      LeftMatched(ws, s.tids, s.phase, s.current, 0, Granted);
      assert Left(ws, 0) == ws[1..];
      CurrentMatched(ws[1..], s.tids, phase, s.current, t, version);
    } else {
      PhaseMatched(ws, s.tids, s.phase, s.current, t, Granted);
      CurrentMatched(ws, s.tids, phase, s.current, t, version);
    }
  }

  /** A step of a task that is not waking anybody takes no promised wake-up away. */
  lemma StillBeingWoken(phase: seq<Phase>, t: nat, p: Phase, waker: Waker)
    requires t < |phase| && !phase[t].Waking? && BeingWoken(phase, waker)
    ensures BeingWoken(phase[t := p], waker)
  {
    var u :| 0 <= u < |phase| && phase[u].Waking? && phase[u].waker == waker;
    assert phase[t := p][u].Waking? && phase[t := p][u].waker == waker;
  }

  lemma {:induction false} JoinKeeps(s: State, t: nat, version: nat)
    requires Inv(s) && t < |s.phase| && s.phase[t] == Queued(None) && !CanAcquire(s.queue, None)
    ensures Inv(Do(s, PollTicket(t, version)))
  {
    var ws, k := s.queue.waiters, s.queue.nextTicket;
    var w := Waiter(k, s.tids[t], Waker(t, version));
    JoinOrdered(ws, w, s.granted, k);
    CurrentMatched(ws, s.tids, s.phase, s.current, t, version);
    JoinMatched(ws, s.tids, s.phase, s.current[t := version], w);
    if s.queue.owner == None {
      assert (ws + [w])[0] == ws[0] && Alive(ws[0], s.tids, s.phase, s.current);
      if BeingWoken(s.phase, ws[0].waker) { StillBeingWoken(s.phase, t, Queued(Some(k)), ws[0].waker); }
    }
  }

  /** A poll that finds the device taken, or others before it, only refreshes its waker. */
  lemma {:induction false} WaitKeeps(s: State, t: nat, version: nat)
    requires Inv(s) && t < |s.phase| && Sits(s.phase[t]) && !CanAcquire(s.queue, s.phase[t].ticket)
    ensures Inv(Do(s, PollTicket(t, version)))
  {
    var ws := s.queue.waiters;
    var i := FindTask(s, t);
    IndexIs(ws, ws[i].ticket, i);
    WakerMatched(ws, s.tids, s.phase, s.current, i, version);
    RefreshOrdered(ws, i, Waker(t, version), s.granted, s.queue.nextTicket);
    assert s.phase[t := s.phase[t]] == s.phase;
    if s.queue.owner == None { assert Alive(ws[0], s.tids, s.phase, s.current); }
  }

  lemma {:induction false} PollKeeps(s: State, t: nat, version: nat)
    requires Inv(s) && Enabled(s, PollTicket(t, version))
    ensures Inv(Do(s, PollTicket(t, version)))
  {
    if CanAcquire(s.queue, s.phase[t].ticket) {
      EnterKeeps(s, t, s.woken - {t}, version);
    } else if s.phase[t].ticket == None {
      JoinKeeps(s, t, version);
    } else {
      WaitKeeps(s, t, version);
    }
  }

  lemma {:induction false} TryKeeps(s: State, t: nat)
    requires Inv(s) && Enabled(s, Try(t))
    ensures Inv(Do(s, Try(t)))
  {
    var ws := s.queue.waiters;
    if CanAcquire(s.queue, None) {
      EnterKeeps(s, t, s.woken, s.current[t]);
      assert s.current[t := s.current[t]] == s.current;
    } else if s.tids[t] != 0 {
      PhaseMatched(ws, s.tids, s.phase, s.current, t, Queued(None));
      if ws != [] && BeingWoken(s.phase, ws[0].waker) {
        StillBeingWoken(s.phase, t, Queued(None), ws[0].waker);
      }
    }
  }

  // ------------------------------------------------------------ cancelling

  /** A task id is in the queue at most once, so cancelling by id removes that one ticket. */
  lemma {:induction false} WithoutTidIs(ws: seq<Waiter>, tid: nat, i: nat)
    requires i <= |ws| && forall j :: 0 <= j < |ws| && j != i ==> ws[j].tid != tid
    requires i < |ws| ==> ws[i].tid == tid
    ensures WithoutTid(ws, tid) == Left(ws, i)
  {
    if ws != [] {
      if i == 0 {
        WithoutTidIs(ws[1..], tid, |ws| - 1);
        assert Left(ws, 0) == ws[1..] == Left(ws[1..], |ws| - 1);
      } else {
        WithoutTidIs(ws[1..], tid, i - 1);
        assert Left(ws, i) == [ws[0]] + Left(ws[1..], i - 1);
      }
    }
  }

  /** Where a task is in the queue; past the end if it has no ticket. */
  lemma FindTask(s: State, t: nat) returns (i: nat)
    requires Inv(s) && t < |s.phase|
    ensures i <= |s.queue.waiters| && (i < |s.queue.waiters| <==> Sits(s.phase[t]))
    ensures i < |s.queue.waiters| ==>
              s.queue.waiters[i].waker.task == t && s.queue.waiters[i].ticket == s.phase[t].ticket.value
              && s.queue.waiters[i].tid == s.tids[t]
    ensures forall j :: 0 <= j < |s.queue.waiters| && j != i ==>
                          s.queue.waiters[j].waker.task != t && (s.tids[t] != 0 ==> s.queue.waiters[j].tid != s.tids[t])
  {
    var ws := s.queue.waiters;
    if Sits(s.phase[t]) {
      var k := s.phase[t].ticket.value;
      assert InQueue(ws, t, k);
      i :| 0 <= i < |ws| && ws[i].ticket == k && ws[i].waker.task == t;
      assert Alive(ws[i], s.tids, s.phase, s.current);
    } else {
      i := |ws|;
    }
    forall j | 0 <= j < |ws| && j != i ensures ws[j].waker.task != t && (s.tids[t] != 0 ==> ws[j].tid != s.tids[t]) {
      assert Alive(ws[j], s.tids, s.phase, s.current);
    }
  }

  /** Either cancellation takes exactly the cancelled task's ticket out of the queue. */
  lemma {:induction false} CancelTakesOut(s: State, step: Step) returns (i: nat)
    requires Inv(s) && Enabled(s, step) && (step.DropFuture? || step.Abandon?)
    ensures i <= |s.queue.waiters| && (i < |s.queue.waiters| <==> Sits(s.phase[step.t]))
    ensures i < |s.queue.waiters| ==> s.queue.waiters[i].waker.task == step.t
    ensures var queue := s.queue.(waiters := Left(s.queue.waiters, i));
            Do(s, step) == if step.DropFuture? && !Sits(s.phase[step.t]) then s.(phase := s.phase[step.t := Idle])
                           else AndWake(s.(queue := queue), step.t, FrontWaker(queue), step.Abandon?)
  {
    i := FindTask(s, step.t);
    var ws := s.queue.waiters;
    if step.Abandon? {
      WithoutTidIs(ws, s.tids[step.t], i);
    } else if i < |ws| {
      IndexIs(ws, ws[i].ticket, i);
    }
  }

  /** Whoever leaves a critical section with the front's waker in hand is about to wake the front. */
  lemma WakerInHand(s: State, t: nat, queue: Queue, gone: bool)
    requires t < |s.phase|
    ensures FrontWoken(queue, s.woken, AndWake(s, t, FrontWaker(queue), gone).phase)
  {
    if queue.owner == None && queue.waiters != [] {
      var phase := AndWake(s, t, FrontWaker(queue), gone).phase;
      assert phase[t].Waking? && phase[t].waker == queue.waiters[0].waker;
    }
  }

  lemma {:induction false} LeaveKeeps(s: State, t: nat, i: nat, gone: bool)
    requires Inv(s) && t < |s.phase| && !Holds(s.phase[t]) && i <= |s.queue.waiters|
    requires i < |s.queue.waiters| <==> Sits(s.phase[t])
    requires i < |s.queue.waiters| ==> s.queue.waiters[i].waker.task == t
    ensures var queue := s.queue.(waiters := Left(s.queue.waiters, i));
            Inv(AndWake(s.(queue := queue), t, FrontWaker(queue), gone))
  {
    var ws := s.queue.waiters;
    var queue := s.queue.(waiters := Left(ws, i));
    var p := AndWake(s.(queue := queue), t, FrontWaker(queue), gone).phase[t];
    WakerInHand(s.(queue := queue), t, queue, gone);
    LeftOrdered(ws, i, s.granted, s.queue.nextTicket);
    if i < |ws| {
      LeftMatched(ws, s.tids, s.phase, s.current, i, p);
    } else {
      PhaseMatched(ws, s.tids, s.phase, s.current, t, p);
    }
  }

  lemma {:induction false} CancelKeeps(s: State, step: Step)
    requires Inv(s) && Enabled(s, step) && (step.DropFuture? || step.Abandon?)
    ensures Inv(Do(s, step))
  {
    var i := CancelTakesOut(s, step);
    if step.DropFuture? && !Sits(s.phase[step.t]) {
      ForgetKeeps(s, step.t);
    } else {
      LeaveKeeps(s, step.t, i, step.Abandon?);
    }
  }

  /** A future dropped before it got a ticket. */
  lemma {:induction false} ForgetKeeps(s: State, t: nat)
    requires Inv(s) && t < |s.phase| && s.phase[t] == Queued(None)
    ensures Inv(s.(phase := s.phase[t := Idle]))
  {
    PhaseMatched(s.queue.waiters, s.tids, s.phase, s.current, t, Idle);
    if s.queue.waiters != [] && BeingWoken(s.phase, s.queue.waiters[0].waker) {
      StillBeingWoken(s.phase, t, Idle, s.queue.waiters[0].waker);
    }
  }

  // ------------------------------------------------------------ holding and waking

  lemma {:induction false} GiveBackKeeps(s: State, t: nat)
    requires Inv(s) && Enabled(s, GiveBack(t))
    ensures Inv(Do(s, GiveBack(t)))
  {
    assert s.holder == Some(t);
    PhaseMatched(s.queue.waiters, s.tids, s.phase, s.current, t, Do(s, GiveBack(t)).phase[t]);
    var queue := s.queue.(owner := None);
    WakerInHand(s.(queue := queue, holder := None), t, queue, false);
  }

  lemma {:induction false} WakeKeeps(s: State, t: nat)
    requires Inv(s) && Enabled(s, Wake(t))
    ensures Inv(Do(s, Wake(t)))
  {
    var after, ws := Do(s, Wake(t)), s.queue.waiters;
    PhaseMatched(ws, s.tids, s.phase, s.current, t, after.phase[t]);
    if s.queue.owner == None && ws != [] && BeingWoken(s.phase, ws[0].waker) {
      var u :| 0 <= u < |s.phase| && s.phase[u].Waking? && s.phase[u].waker == ws[0].waker;
      if u == t {
        assert Alive(ws[0], s.tids, s.phase, s.current);
      } else {
        assert after.phase[u].Waking? && after.phase[u].waker == ws[0].waker;
      }
    }
  }

  lemma {:induction false} DeviceStepKeeps(s: State, step: Step)
    requires Inv(s) && Enabled(s, step) && (step.LockDevice? || step.UnlockDevice?)
    ensures Inv(Do(s, step))
  {
    PhaseMatched(s.queue.waiters, s.tids, s.phase, s.current, step.t, Do(s, step).phase[step.t]);
  }

  lemma {:induction false} StepKeeps(s: State, step: Step)
    requires Inv(s) && Enabled(s, step)
    ensures Inv(Do(s, step))
  {
    match step
    case Try(t) => TryKeeps(s, t);
    case PollTicket(t, version) => PollKeeps(s, t, version);
    case LockDevice(_) => DeviceStepKeeps(s, step);
    case UnlockDevice(_) => DeviceStepKeeps(s, step);
    case GiveBack(t) => GiveBackKeeps(s, t);
    case Wake(t) => WakeKeeps(s, t);
    case DropFuture(_) => CancelKeeps(s, step);
    case Abandon(_) => CancelKeeps(s, step);
  }

  lemma {:induction false} RunKeeps(s: State, steps: seq<Step>, after: State)
    requires Inv(s) && Run(s, steps, after)
    ensures Inv(after)
    decreases |steps|
  {
    if steps != [] {
      StepKeeps(s, steps[0]);
      RunKeeps(Do(s, steps[0]), steps[1..], after);
    }
  }

  // ------------------------------------------------------------ what every interleaving guarantees

  /** The `try_lock` of a fresh owner finds the device free, and the token is given back by its owner only. */
  lemma {:induction false} GuardNeverFails(start: State, steps: seq<Step>, s: State, t: nat)
    requires Init(start) && Run(start, steps, s) && t < |s.phase|
    ensures |s.tids| == |s.phase|
    ensures s.phase[t] == Granted ==> !s.devLocked
    ensures s.phase[t] == Dropping ==> s.queue.owner == Some(s.tids[t])
  {
    InitInv(start);
    RunKeeps(start, steps, s);
  }

  /** Never two tasks between taking the token and giving it back. */
  lemma {:induction false} OneOwner(start: State, steps: seq<Step>, s: State, t: nat, u: nat)
    requires Init(start) && Run(start, steps, s) && t < |s.phase| && u < |s.phase|
    requires Holds(s.phase[t]) && Holds(s.phase[u])
    ensures t == u
  {
    InitInv(start);
    RunKeeps(start, steps, s);
  }

  lemma {:induction false} TicketsEnterInOrder(start: State, steps: seq<Step>, s: State)
    requires Init(start) && Run(start, steps, s)
    ensures forall i, j :: 0 <= i < j < |s.granted| ==> s.granted[i] < s.granted[j]
  {
    InitInv(start);
    RunKeeps(start, steps, s);
  }

  /**
    While the device is free and somebody waits, the front ticket belongs to a live
    task whose next poll enters, and that task has been woken, or is about to be, through
    the waker of its last poll.
   */
  lemma {:induction false} NoWakeUpIsLost(start: State, steps: seq<Step>, s: State)
    requires Init(start) && Run(start, steps, s) && s.queue.owner == None && s.queue.waiters != []
    ensures var task := s.queue.waiters[0].waker.task;
            && task < |s.phase| == |s.current| && s.phase[task] == Queued(Some(s.queue.waiters[0].ticket))
            && CanAcquire(s.queue, s.phase[task].ticket)
            && (task in s.woken || BeingWoken(s.phase, Waker(task, s.current[task])))
  {
    InitInv(start);
    RunKeeps(start, steps, s);
    assert Alive(s.queue.waiters[0], s.tids, s.phase, s.current);
  }

  /** The tickets before `k`. */
  function Ahead(s: State, k: nat): nat { IndexOf(s.queue.waiters, k) }

  predicate Waits(s: State, k: nat) { Ahead(s, k) < |s.queue.waiters| }

  predicate Enters(s: State, step: Step)
    requires Enabled(s, step) && |s.phase| == |s.tids| == |s.current|
  {
    !Holds(s.phase[step.t]) && Holds(Do(s, step).phase[step.t])
  }

  /**
    What a step does to the queue: it takes out at most the ticket at `gone`, the front
    one if the step enters, and it adds at most the next ticket at the back.
   */
  ghost predicate Moves(ws: seq<Waiter>, now: seq<Waiter>, gone: nat, nextTicket: nat) {
    && gone <= |ws| && |Left(ws, gone)| <= |now|
    && (forall j :: 0 <= j < |Left(ws, gone)| ==> now[j].ticket == Left(ws, gone)[j].ticket)
    && (forall j :: |Left(ws, gone)| <= j < |now| ==> now[j].ticket == nextTicket)
  }

  lemma NothingMoves(ws: seq<Waiter>, nextTicket: nat)
    ensures Moves(ws, ws, |ws|, nextTicket)
  {
  }

  lemma FrontMoves(ws: seq<Waiter>, nextTicket: nat)
    requires ws != []
    ensures Moves(ws, ws[1..], 0, nextTicket)
  {
  }

  lemma JoinMoves(ws: seq<Waiter>, w: Waiter)
    ensures Moves(ws, ws + [w], |ws|, w.ticket)
  {
  }

  lemma RefreshMoves(ws: seq<Waiter>, k: nat, waker: Waker, nextTicket: nat)
    ensures Moves(ws, WithWaker(ws, k, waker), |ws|, nextTicket)
  {
  }

  lemma LeaveMoves(ws: seq<Waiter>, i: nat, nextTicket: nat)
    requires i <= |ws|
    ensures Moves(ws, Left(ws, i), i, nextTicket)
  {
  }

  lemma {:induction false} PollMoves(s: State, t: nat, version: nat) returns (gone: nat)
    requires |s.phase| == |s.tids| == |s.current| && Enabled(s, PollTicket(t, version))
    ensures Moves(s.queue.waiters, Do(s, PollTicket(t, version)).queue.waiters, gone, s.queue.nextTicket)
    ensures Enters(s, PollTicket(t, version)) ==> gone == 0
  {
    var ws, ticket := s.queue.waiters, s.phase[t].ticket;
    if CanAcquire(s.queue, ticket) {
      gone := 0;
      if ticket.Some? { FrontMoves(ws, s.queue.nextTicket); } else { NothingMoves(ws, s.queue.nextTicket); }
    } else {
      gone := |ws|;
      if ticket.Some? {
        RefreshMoves(ws, ticket.value, Waker(t, version), s.queue.nextTicket);
      } else {
        JoinMoves(ws, Waiter(s.queue.nextTicket, s.tids[t], Waker(t, version)));
      }
    }
  }

  lemma {:induction false} CancelMoves(s: State, step: Step) returns (gone: nat)
    requires Inv(s) && Enabled(s, step) && (step.DropFuture? || step.Abandon?)
    ensures Moves(s.queue.waiters, Do(s, step).queue.waiters, gone, s.queue.nextTicket)
  {
    gone := CancelTakesOut(s, step);
    assert Do(s, step).queue.waiters == Left(s.queue.waiters, gone);
    LeaveMoves(s.queue.waiters, gone, s.queue.nextTicket);
  }

  lemma {:induction false} TryMoves(s: State, t: nat) returns (gone: nat)
    requires |s.phase| == |s.tids| == |s.current| && Enabled(s, Try(t))
    ensures Moves(s.queue.waiters, Do(s, Try(t)).queue.waiters, gone, s.queue.nextTicket)
    ensures Enters(s, Try(t)) ==> gone == 0
  {
    gone := |s.queue.waiters|;
    NothingMoves(s.queue.waiters, s.queue.nextTicket);
  }

  lemma {:induction false} StepMoves(s: State, step: Step) returns (gone: nat)
    requires Inv(s) && Enabled(s, step)
    ensures Moves(s.queue.waiters, Do(s, step).queue.waiters, gone, s.queue.nextTicket)
    ensures Enters(s, step) ==> gone == 0
  {
    if step.DropFuture? || step.Abandon? {
      gone := CancelMoves(s, step);
    } else if step.PollTicket? {
      gone := PollMoves(s, step.t, step.version);
    } else if step.Try? {
      gone := TryMoves(s, step.t);
    } else {
      gone := |s.queue.waiters|;
      assert Do(s, step).queue.waiters == s.queue.waiters;
      NothingMoves(s.queue.waiters, s.queue.nextTicket);
    }
  }

  lemma NextTicketGrows(s: State, step: Step)
    requires |s.phase| == |s.tids| == |s.current| && Enabled(s, step)
    ensures s.queue.nextTicket <= Do(s, step).queue.nextTicket
  {
  }

  /** Nobody passes a waiting ticket: whoever enters was ahead of it, and its place only improves. */
  lemma {:induction false} MovesForward(ws: seq<Waiter>, now: seq<Waiter>, gone: nat, nextTicket: nat, k: nat)
    requires Moves(ws, now, gone, nextTicket) && Increasing(ws) && k < nextTicket
    requires IndexOf(ws, k) < |ws| && IndexOf(now, k) < |now|
    ensures gone != IndexOf(ws, k)
    ensures IndexOf(now, k) == IndexOf(ws, k) - (if gone < IndexOf(ws, k) then 1 else 0)
  {
    var i, j := IndexOf(ws, k), IndexOf(now, k);
    assert now[j].ticket == Left(ws, gone)[j].ticket;
    assert ws[if j < gone then j else j + 1].ticket == k;
  }

  lemma {:induction false} NobodyOvertakes(s: State, step: Step, k: nat)
    requires Inv(s) && Enabled(s, step) && Waits(s, k) && Waits(Do(s, step), k)
    ensures Enters(s, step) ==> Ahead(s, k) > 0 && Ahead(Do(s, step), k) == Ahead(s, k) - 1
    ensures !Enters(s, step) ==> Ahead(Do(s, step), k) <= Ahead(s, k)
  {
    var gone := StepMoves(s, step);
    assert k < s.queue.nextTicket;
    MovesForward(s.queue.waiters, Do(s, step).queue.waiters, gone, s.queue.nextTicket, k);
  }

  /** How many entries a run contains. */
  ghost function Entries(s: State, steps: seq<Step>, after: State): nat
    requires Run(s, steps, after)
    decreases |steps|
  {
    if steps == [] then 0
    else (if Enters(s, steps[0]) then 1 else 0) + Entries(Do(s, steps[0]), steps[1..], after)
  }

  /** A ticket once out of the queue never comes back. */
  lemma {:induction false} TicketsAreSpent(s: State, step: Step, k: nat)
    requires Inv(s) && Enabled(s, step) && !Waits(s, k) && k < s.queue.nextTicket
    ensures !Waits(Do(s, step), k) && k < Do(s, step).queue.nextTicket
  {
    var gone := StepMoves(s, step);
    NextTicketGrows(s, step);
    var ws, now := s.queue.waiters, Do(s, step).queue.waiters;
    forall j | 0 <= j < |now| ensures now[j].ticket != k {
      if j < |Left(ws, gone)| {
        assert now[j].ticket == ws[if j < gone then j else j + 1].ticket;
      }
    }
  }

  lemma {:induction false} SpentForGood(s: State, steps: seq<Step>, after: State, k: nat)
    requires Inv(s) && Run(s, steps, after) && !Waits(s, k) && k < s.queue.nextTicket
    ensures !Waits(after, k)
    decreases |steps|
  {
    if steps != [] {
      StepKeeps(s, steps[0]);
      TicketsAreSpent(s, steps[0], k);
      SpentForGood(Do(s, steps[0]), steps[1..], after, k);
    }
  }

  /** Waiting is bounded: while a ticket waits, at most the tickets that were ahead of it enter. */
  lemma {:induction false} WaitIsBounded(s: State, steps: seq<Step>, after: State, k: nat)
    requires Inv(s) && Run(s, steps, after) && Waits(s, k) && Waits(after, k)
    ensures Entries(s, steps, after) + Ahead(after, k) <= Ahead(s, k)
    decreases |steps|
  {
    if steps != [] {
      var next := Do(s, steps[0]);
      StepKeeps(s, steps[0]);
      if !Waits(next, k) {
        NextTicketGrows(s, steps[0]);
        assert k < s.queue.nextTicket;
        SpentForGood(next, steps[1..], after, k);
      } else {
        NobodyOvertakes(s, steps[0], k);
        WaitIsBounded(next, steps[1..], after, k);
      }
    }
  }
}
