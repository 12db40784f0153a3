/**
  The write-back cache gets its work done: a flush brings the file to the disk, a load
  ends with the file in the table whatever has to be evicted for it, and the eviction
  queue holds each path once, in the order of last use.
 */
module DenseProgress {
  import opened Basics
  import opened ByteFile
  import opened DenseCache
  import opened DenseProtocol

  lemma RunStep(s: State, step: Step, rest: seq<Step>, after: State)
    requires Shape(s) && Enabled(s, step) && Run(Do(s, step), rest, after)
    ensures Run(s, [step] + rest, after)
  {
    assert ([step] + rest)[1..] == rest;
  }

  /** The steps bring the system from `s` to `next`: whatever can follow `next` can follow them. */
  ghost predicate Brings(s: State, first: seq<Step>, next: State) {
    forall rest, after :: Run(next, rest, after) ==> Run(s, first + rest, after)
  }

  lemma StepBrings(s: State, step: Step)
    requires Shape(s) && Enabled(s, step)
    ensures Brings(s, [step], Do(s, step))
  {
    forall rest, after | Run(Do(s, step), rest, after) ensures Run(s, [step] + rest, after) {
      RunStep(s, step, rest, after);
    }
  }

  lemma BringsOn(s: State, first: seq<Step>, middle: State, second: seq<Step>, next: State)
    requires Brings(s, first, middle) && Brings(middle, second, next)
    ensures Brings(s, first + second, next)
  {
    forall rest, after | Run(next, rest, after) ensures Run(s, first + second + rest, after) {
      assert Run(middle, second + rest, after);
      assert first + second + rest == first + (second + rest);
    }
  }

  lemma {:induction false} BringsThere(s: State, steps: seq<Step>, next: State)
    requires Brings(s, steps, next)
    ensures Run(s, steps, next)
  {
    assert Run(next, [], next);
    assert steps + [] == steps;
  }

  lemma RunAfter(s: State, first: seq<Step>, next: State, rest: seq<Step>, after: State)
    requires Brings(s, first, next) && Run(next, rest, after)
    ensures Run(s, first + rest, after)
  {
  }

  // ------------------------------------------------------------ a flush stores the file

  predicate Modified(s: State, p: Path)
    requires Shape(s)
  {
    p in s.table && s.caches[s.table[p]].modified
  }

  /** Nothing but the disk, the cleanliness of entries and the agent has changed. */
  ghost predicate OnlyStored(s: State, after: State, p: Path)
    requires Shape(s) && Shape(after)
  {
    && after.table == s.table && after.fifo == s.fifo && after.threads == s.threads && after.owner == s.owner
    && (forall q :: q != p ==> Disk(after, q) == Disk(s, q))
    && (forall q :: View(after, q) == View(s, q))
  }

  lemma {:induction false} WholeFileStored(disk: seq<byte>, data: seq<byte>)
    requires |disk| <= |data|
    ensures PWrite(disk, 0, data) == data && data[..|data|] == data
  {
  }

  lemma {:induction false} FlushBegins(s: State, p: Path) returns (next: State)
    requires Base(s) && s.agent == Free && p in s.table
    ensures Brings(s, [BeginFlush(p)], next) && Base(next)
    ensures next == s.(agent := Snapshotting(Job(p, s.table[p], Flush)))
  {
    next := Do(s, BeginFlush(p));
    StepKeepsBase(s, BeginFlush(p));
    StepBrings(s, BeginFlush(p));
  }

  /** A clean entry ends the flush; a modified one is copied. */
  lemma {:induction false} FlushCopies(s: State, p: Path) returns (next: State)
    requires Base(s) && p in s.table && s.agent == Snapshotting(Job(p, s.table[p], Flush))
    ensures Brings(s, [TakeSnapshot(true)], next) && Base(next)
    ensures var c := s.caches[s.table[p]];
            next == s.(agent := if c.modified then Storing(s.agent.job, Snapshot(Contents(c), c.revision)) else Free)
  {
    next := Do(s, TakeSnapshot(true));
    StepKeepsBase(s, TakeSnapshot(true));
    StepBrings(s, TakeSnapshot(true));
  }

  lemma {:induction false} FlushReachesDisk(s: State, p: Path) returns (next: State)
    requires Base(s) && s.agent.Storing? && s.agent.job.path == p
    ensures Brings(s, [Store(true, |s.agent.snapshot.data|)], next) && Base(next)
    ensures next == s.(disk := s.disk[p := s.agent.snapshot.data], agent := Marking(s.agent.job, s.agent.snapshot))
  {
    var step := Store(true, |s.agent.snapshot.data|);
    WholeFileStored(Disk(s, p), s.agent.snapshot.data);
    next := Do(s, step);
    StepKeepsBase(s, step);
    StepBrings(s, step);
  }

  lemma {:induction false} FlushMarks(s: State, p: Path) returns (next: State)
    requires Base(s) && p in s.table && s.agent.Marking? && s.agent.job == Job(p, s.table[p], Flush)
    requires s.agent.snapshot.revision == s.caches[s.table[p]].revision
    ensures Brings(s, [Mark], next) && Base(next)
    ensures var id := s.table[p];
            next == s.(caches := s.caches[id := s.caches[id].(modified := false)], agent := Free)
  {
    next := Do(s, Mark);
    StepKeepsBase(s, Mark);
    StepBrings(s, Mark);
  }

  lemma {:induction false} SameBytesSameView(s: State, after: State, p: Path, id: nat)
    requires Shape(s) && Shape(after) && p in s.table && s.table[p] == id && after.table == s.table
    requires after.fifo == s.fifo && after.threads == s.threads && after.owner == s.owner
    requires after.disk == s.disk[p := Contents(s.caches[id])]
    requires after.caches == s.caches[id := s.caches[id].(modified := false)]
    ensures OnlyStored(s, after, p) && Disk(after, p) == View(s, p) && !Modified(after, p)
  {
  }

  lemma {:induction false} ModifiedIsStored(s: State, p: Path) returns (steps: seq<Step>, after: State)
    requires Base(s) && s.agent == Free && Modified(s, p)
    ensures Brings(s, steps, after) && steps != [] && steps[0] == BeginFlush(p) && Base(after) && after.agent == Free
    ensures OnlyStored(s, after, p) && Disk(after, p) == View(s, p) && !Modified(after, p)
  {
    var begun := FlushBegins(s, p);
    var copied := FlushCopies(begun, p);
    var written := FlushReachesDisk(copied, p);
    after := FlushMarks(written, p);
    var n := |copied.agent.snapshot.data|;
    BringsOn(s, [BeginFlush(p)], begun, [TakeSnapshot(true)], copied);
    BringsOn(copied, [Store(true, n)], written, [Mark], after);
    steps := [BeginFlush(p)] + [TakeSnapshot(true)] + ([Store(true, n)] + [Mark]);
    BringsOn(s, [BeginFlush(p)] + [TakeSnapshot(true)], copied, [Store(true, n)] + [Mark], after);
    SameBytesSameView(s, after, p, s.table[p]);
  }

  lemma {:induction false} CleanIsThere(s: State, p: Path) returns (steps: seq<Step>, after: State)
    requires Base(s) && s.agent == Free && p in s.table && !Modified(s, p)
    ensures Brings(s, steps, after) && steps != [] && steps[0] == BeginFlush(p)
    ensures Base(after) && after == s && Disk(s, p) == View(s, p)
  {
    var begun := FlushBegins(s, p);
    after := FlushCopies(begun, p);
    steps := [BeginFlush(p)] + [TakeSnapshot(true)];
    BringsOn(s, [BeginFlush(p)], begun, [TakeSnapshot(true)], after);
  }

  lemma {:induction false} FlushOfNothing(s: State, p: Path)
    requires Base(s) && s.agent == Free && p !in s.table
    ensures Brings(s, [BeginFlush(p)], s) && Disk(s, p) == View(s, p)
  {
    StepBrings(s, BeginFlush(p));
  }

  /** `flush`, undisturbed: afterwards the disk has the file as every reader sees it. */
  lemma {:induction false} FlushStores(s: State, p: Path) returns (steps: seq<Step>, after: State)
    requires Base(s) && s.agent == Free
    ensures Run(s, steps, after) && steps != [] && steps[0] == BeginFlush(p) && Base(after) && after.agent == Free
    ensures OnlyStored(s, after, p) && Disk(after, p) == View(s, p) && !Modified(after, p)
  {
    if p !in s.table {
      FlushOfNothing(s, p);
      steps, after := [BeginFlush(p)], s;
    } else if Modified(s, p) {
      steps, after := ModifiedIsStored(s, p);
    } else {
      steps, after := CleanIsThere(s, p);
    }
    BringsThere(s, steps, after);
  }

  // ------------------------------------------------------------ the agent comes to an end

  /** The agent's next step, with memory and the device at its service. */
  function AgentStep(agent: Agent): Step
    requires agent != Free
  {
    match agent
    case Queueing(_, _) => Queue
    case Inserting(_, _) => Insert
    case Snapshotting(_) => TakeSnapshot(true)
    case Storing(_, snapshot) => Store(true, |snapshot.data|)
    case Marking(_, _) => Mark
    case Claiming(_) => Claim
    case Removing(_) => Remove
    case Requeueing(_, _) => Requeue
    case Unlisting(_) => Unlist
    case Dropping(_) => Drop
  }

  /** The entry being evicted was written to after its snapshot. */
  predicate Outrun(s: State)
    requires Shape(s)
  {
    || ((s.agent.Storing? || s.agent.Marking?) && s.caches[s.agent.job.id].revision != s.agent.snapshot.revision)
    || (s.agent.Claiming? && s.caches[s.agent.job.id].modified)
    || (s.agent.Requeueing? && !s.agent.removed)
  }

  function Stage(agent: Agent): nat {
    match agent
    case Free => 0
    case Inserting(_, _) => 1
    case Queueing(_, _) => 2
    case Requeueing(_, _) => 3
    case Dropping(_) => 3
    case Removing(_) => 4
    case Unlisting(_) => 4
    case Claiming(_) => 5
    case Marking(_, _) => 6
    case Storing(_, _) => 7
    case Snapshotting(_) => 8
  }

  /** What is left: each round of eviction takes a path out of the queue. */
  function Work(s: State): int
    requires Shape(s)
  {
    var rounds := if PrivateId(s.agent) == None || s.agent.Inserting? then 0
                  else if s.agent.Queueing? || Outrun(s) then |s.fifo| else |s.fifo| - 1;
    10 * rounds + Stage(s.agent)
  }

  /** The entry under construction stays the same until it is in the table. */
  predicate SameLoad(s: State, next: State)
    requires Shape(s) && Shape(next)
  {
    && s.owner == next.owner
    && if s.agent.Inserting? then next.agent == Free && next.fifo == s.fifo
                                  && s.agent.path in next.table && next.table[s.agent.path] == s.agent.id
       else PrivateId(next.agent) == PrivateId(s.agent)
            && (next.agent.Inserting? ==> next.agent.path in next.fifo)
  }

  lemma {:induction false} QueueGetsOn(s: State)
    requires Base(s) && s.agent.Queueing? && Shape(Do(s, Queue))
    ensures Work(Do(s, Queue)) < Work(s) && SameLoad(s, Do(s, Queue))
  {
  }

  lemma {:induction false} WriteBackGetsOn(s: State)
    requires Base(s) && (s.agent.Snapshotting? || s.agent.Storing? || s.agent.Marking?)
    requires Enabled(s, AgentStep(s.agent)) && Shape(Do(s, AgentStep(s.agent)))
    ensures Work(Do(s, AgentStep(s.agent))) < Work(s) && SameLoad(s, Do(s, AgentStep(s.agent)))
  {
  }

  lemma {:induction false} EvictionGetsOn(s: State)
    requires Base(s) && (s.agent.Claiming? || s.agent.Removing? || s.agent.Requeueing?)
    requires Enabled(s, AgentStep(s.agent)) && Shape(Do(s, AgentStep(s.agent)))
    ensures Work(Do(s, AgentStep(s.agent))) < Work(s) && SameLoad(s, Do(s, AgentStep(s.agent)))
  {
    WithoutShorter(s.fifo, s.agent.job.path);
  }

  lemma {:induction false} AgentGetsOn(s: State) returns (next: State)
    requires Base(s) && s.agent != Free
    ensures Brings(s, [AgentStep(s.agent)], next) && Base(next) && 0 <= Work(next) < Work(s) && SameLoad(s, next)
  {
    var step := AgentStep(s.agent);
    next := Do(s, step);
    StepBrings(s, step);
    StepKeepsBase(s, step);
    WorkIsNat(next);
    if s.agent.Queueing? {
      QueueGetsOn(s);
    } else if s.agent.Snapshotting? || s.agent.Storing? || s.agent.Marking? {
      WriteBackGetsOn(s);
    } else if s.agent.Claiming? || s.agent.Removing? || s.agent.Requeueing? {
      EvictionGetsOn(s);
    }
  }

  lemma WorkIsNat(s: State)
    requires Base(s)
    ensures Work(s) >= 0
  {
  }

  /** The file that was being loaded is in the table, and in the eviction queue unless it is pinned. */
  predicate LoadDone(s: State, after: State)
    requires Shape(s)
  {
    PrivateId(s.agent).Some? ==>
      var id := PrivateId(s.agent).value;
      var p := s.owner[id];
      && p in after.table && after.table[p] == id
      && (if s.agent.Inserting? then after.fifo == s.fifo else p in after.fifo)
  }

  lemma {:induction false} LoadGetsDone(s: State, next: State, after: State)
    requires Shape(s) && Shape(next) && s.agent != Free && SameLoad(s, next)
    requires LoadDone(next, after) && (next.agent == Free ==> after == next)
    ensures LoadDone(s, after)
  {
  }

  /** From every reachable state the agent can finish what it is doing. */
  lemma {:induction false} AgentCanFinish(s: State) returns (steps: seq<Step>, after: State)
    requires Base(s)
    ensures Run(s, steps, after) && Base(after) && after.agent == Free && LoadDone(s, after)
    ensures s.agent == Free ==> after == s
    decreases Work(s)
  {
    if s.agent == Free {
      steps, after := [], s;
    } else {
      var next := AgentGetsOn(s);
      steps, after := AgentCanFinish(next);
      LoadGetsDone(s, next, after);
      RunAfter(s, [AgentStep(s.agent)], next, steps, after);
      steps := [AgentStep(s.agent)] + steps;
    }
  }

  /** A file can be loaded from every state in which the agent is free; a pinned one displaces nobody. */
  lemma {:induction false} LoadCanFinish(s: State, load: Step) returns (steps: seq<Step>, after: State)
    requires Base(s) && load.BeginLoad? && Enabled(s, load)
    ensures Run(s, steps, after) && Base(after) && after.agent == Free && load.path in after.table
    ensures if load.pinned then after.fifo == s.fifo else load.path in after.fifo
  {
    StepKeepsBase(s, load);
    steps, after := AgentCanFinish(Do(s, load));
    RunStep(s, load, steps, after);
    steps := [load] + steps;
  }

  // ------------------------------------------------------------ the order of eviction

  predicate Distinct(fifo: seq<Path>) { forall i, j :: 0 <= i < j < |fifo| ==> fifo[i] != fifo[j] }

  lemma {:induction false} WithoutIs(fifo: seq<Path>, p: Path)
    ensures forall q :: q in Without(fifo, p) <==> q in fifo && q != p
    ensures Distinct(fifo) ==> Distinct(Without(fifo, p))
  {
    if fifo != [] {
      var rest := Without(fifo[1..], p);
      WithoutIs(fifo[1..], p);
      assert fifo == [fifo[0]] + fifo[1..];
      assert forall i :: 0 <= i < |rest| ==> rest[i] in rest;
    }
  }

  /** In a queue without repetition the first occurrence is the only one. */
  lemma {:induction false} FirstIsOnly(fifo: seq<Path>, p: Path)
    requires Distinct(fifo)
    ensures FirstRemoved(fifo, p) == Without(fifo, p)
  {
    if fifo != [] {
      FirstIsOnly(fifo[1..], p);
      if fifo[0] == p { WithoutNone(fifo[1..], p); }
    }
  }

  lemma {:induction false} WithoutNone(fifo: seq<Path>, p: Path)
    requires p !in fifo
    ensures Without(fifo, p) == fifo
  {
    if fifo != [] { WithoutNone(fifo[1..], p); }
  }

  /** An accepted write makes its file the last to be evicted, and leaves the order of all others. */
  lemma {:induction false} TouchMovesToBack(s: State, t: nat)
    requires Shape(s) && Distinct(s.fifo) && Enabled(s, Touch(t))
    ensures var p, now := s.threads[t].path, Do(s, Touch(t)).fifo;
            if p in s.fifo then now == Without(s.fifo, p) + [p] else now == s.fifo
  {
    FirstIsOnly(s.fifo, s.threads[t].path);
  }

  lemma {:induction false} BackKeepsDistinct(fifo: seq<Path>, p: Path)
    requires Distinct(fifo)
    ensures Distinct(Without(fifo, p) + [p]) && Distinct(Without(fifo, p)) && Distinct(Promoted(fifo, p))
  {
    WithoutIs(fifo, p);
    FirstIsOnly(fifo, p);
    var rest := Without(fifo, p);
    assert forall i :: 0 <= i < |rest| ==> rest[i] in rest;
  }

  /** What each step does to the queue. */
  lemma {:induction false} QueueAfter(s: State, step: Step)
    requires Shape(s) && Enabled(s, step)
    ensures var now := Do(s, step).fifo;
            match step
            case Touch(t) => now == Promoted(s.fifo, s.threads[t].path)
            case BeginDiscard(p) => now == s.fifo || (p !in s.table && now == Without(s.fifo, p))
            case Queue =>
              || now == s.fifo
              || (s.agent.path !in s.fifo && now == s.fifo + [s.agent.path])
              || (s.fifo != [] && s.fifo[0] !in s.table && now == s.fifo[1..])
            case Requeue =>
              var p, rest := s.agent.job.path, Without(s.fifo, s.agent.job.path);
              now == rest + [p] || (now == rest && (s.agent.removed || p !in s.table || s.table[p] != s.agent.job.id))
            case Unlist => now == Without(s.fifo, s.agent.job.path)
            case _ => now == s.fifo
  {
  }

  lemma {:induction false} StepKeepsDistinct(s: State, step: Step)
    requires Shape(s) && Enabled(s, step) && Distinct(s.fifo)
    ensures Distinct(Do(s, step).fifo)
  {
    QueueAfter(s, step);
    match step
    case Touch(t) => BackKeepsDistinct(s.fifo, s.threads[t].path);
    case BeginDiscard(p) => BackKeepsDistinct(s.fifo, p);
    case Requeue => BackKeepsDistinct(s.fifo, s.agent.job.path);
    case Unlist => BackKeepsDistinct(s.fifo, s.agent.job.path);
    case _ =>
  }

  lemma {:induction false} RunKeepsDistinct(s: State, steps: seq<Step>, after: State)
    requires Base(s) && Run(s, steps, after) && Distinct(s.fifo)
    ensures Distinct(after.fifo)
    decreases |steps|
  {
    if steps != [] {
      StepKeepsBase(s, steps[0]);
      StepKeepsDistinct(s, steps[0]);
      RunKeepsDistinct(Do(s, steps[0]), steps[1..], after);
    }
  }

  /** In every reachable state no path is queued twice. */
  lemma {:induction false} QueuedOnce(start: State, steps: seq<Step>, s: State)
    requires Init(start) && Run(start, steps, s)
    ensures Distinct(s.fifo)
  {
    InitInv(start, "");
    RunKeepsDistinct(start, steps, s);
  }

  /** An eviction that ended has taken its victim out of the table, or left it there. */
  predicate Settled(s: State) {
    s.agent.Requeueing? ==>
      var job := s.agent.job;
      if s.agent.removed then job.path !in s.table else job.path in s.table && s.table[job.path] == job.id
  }

  lemma {:induction false} StepKeepsSettled(s: State, step: Step)
    requires Base(s) && Enabled(s, step) && Settled(s)
    ensures Settled(Do(s, step))
  {
  }

  lemma {:induction false} RunKeepsSettled(s: State, steps: seq<Step>, after: State)
    requires Base(s) && Run(s, steps, after) && Settled(s)
    ensures Base(after) && Settled(after)
    decreases |steps|
  {
    if steps != [] {
      StepKeepsBase(s, steps[0]);
      StepKeepsSettled(s, steps[0]);
      RunKeepsSettled(Do(s, steps[0]), steps[1..], after);
    }
  }

  lemma {:induction false} SettledStays(s: State, step: Step, p: Path)
    requires Shape(s) && Settled(s) && Enabled(s, step) && p in s.table && p in s.fifo
    ensures p in Do(s, step).fifo || (step == Unlist && s.agent.job.path == p)
  {
    QueueAfter(s, step);
    match step
    case Touch(t) => PromotedSame(s.fifo, s.threads[t].path);
    case BeginDiscard(q) => WithoutIs(s.fifo, q);
    case Requeue => WithoutIs(s.fifo, s.agent.job.path);
    case Unlist => WithoutIs(s.fifo, s.agent.job.path);
    case _ =>
  }

  /** In every run, a queued file stays queued while it is in the table, unless it is being discarded. */
  lemma {:induction false} ListedStays(start: State, steps: seq<Step>, s: State, step: Step, p: Path)
    requires Init(start) && Run(start, steps, s) && Shape(s) && Enabled(s, step) && p in s.table && p in s.fifo
    ensures p in Do(s, step).fifo || (step == Unlist && s.agent.job.path == p)
  {
    InitInv(start, "");
    RunKeepsSettled(start, steps, s);
    SettledStays(s, step, p);
  }

  /** A cached read leaves everything as it was. */
  lemma {:induction false} ReadLeavesNoTrace(s: State, t: nat, p: Path, offset: nat, len: nat)
    requires Base(s) && Enabled(s, LookUp(t, p)) && p in s.table
    ensures Run(s, [LookUp(t, p), ReadThrough(t, offset, len)], s)
  {
    var held := Do(s, LookUp(t, p));
    StepKeepsBase(s, LookUp(t, p));
    assert Do(held, ReadThrough(t, offset, len)).threads == s.threads;
    RunStep(held, ReadThrough(t, offset, len), [], s);
    RunStep(s, LookUp(t, p), [ReadThrough(t, offset, len)], s);
    assert [LookUp(t, p)] + [ReadThrough(t, offset, len)] == [LookUp(t, p), ReadThrough(t, offset, len)];
  }
}
