/**
  The whole-file write-back cache as a state machine. Any number of threads read
  and write through entries they looked up earlier, while one serialized agent
  loads files, writes entries back, evicts them in FIFO order and discards them.
  Every lock-held region of the code is one step, and the steps interleave freely.

  Eviction claims its entry first, so that writers are turned away. Discarding,
  which a write past the size limit or into a hole, a truncation and a rename do,
  claims nothing. `DenseDiscard` says exactly when that is safe.

  Distinct paths are distinct files here, and the outcome of each device write is
  a parameter of its step.
 */
module DenseProtocol {
  import opened Basics
  import opened ByteFile
  import opened DenseCache

  type Path = string

  const FIFO_SIZE: nat := 32

  /** A thread between two locked regions. */
  datatype Thread = Resting | Holding(path: Path, id: nat) | Touching(path: Path)

  /** Why an entry is being written back. */
  datatype Goal = Flush | EvictFor(path: Path, id: nat) | Discard

  datatype Job = Job(path: Path, id: nat, goal: Goal)

  /** Where the serialized agent is. */
  datatype Agent =
    | Free
    | Queueing(path: Path, id: nat)
    | Inserting(path: Path, id: nat)
    | Snapshotting(job: Job)
    | Storing(job: Job, snapshot: Snapshot)
    | Marking(job: Job, snapshot: Snapshot)
    | Claiming(job: Job)
    | Removing(job: Job)
    | Requeueing(job: Job, removed: bool)
    | Unlisting(job: Job)
    | Dropping(job: Job)

  /** Entries are never reused: `caches[id]` was created for `owner[id]`. */
  datatype State = State(caches: seq<Cache>, owner: seq<Path>, table: map<Path, nat>, disk: map<Path, seq<byte>>,
                         fifo: seq<Path>, threads: seq<Thread>, agent: Agent)

  datatype Step =
    | LookUp(thread: nat, path: Path)
    | WriteThrough(thread: nat, offset: nat, buf: seq<byte>)
    | ReadThrough(thread: nat, offset: nat, len: nat)
    | Touch(thread: nat)
    | BeginFlush(path: Path)
    | BeginDiscard(path: Path)
    | BeginLoad(path: Path, pinned: bool, tail: seq<byte>)
    | Queue
    | Insert
    | TakeSnapshot(room: bool)
    | Store(ok: bool, stored: nat)
    | Mark
    | Claim
    | Remove
    | Requeue
    | Unlist
    | Drop
    | DirectWrite(path: Path, offset: nat, buf: seq<byte>)

  function Disk(s: State, p: Path): seq<byte> { if p in s.disk then s.disk[p] else [] }

  /** The job the agent is working on. */
  function JobOf(agent: Agent): Option<Job> {
    match agent
    case Free => None
    case Queueing(_, _) => None
    case Inserting(_, _) => None
    case _ => Some(agent.job)
  }

  /** The entry the agent has built and not yet put in the table. */
  function PrivateId(agent: Agent): Option<nat> {
    match agent
    case Free => None
    case Queueing(_, id) => Some(id)
    case Inserting(_, id) => Some(id)
    case _ => if agent.job.goal.EvictFor? then Some(agent.job.goal.id) else None
  }

  predicate Shape(s: State) {
    && |s.caches| == |s.owner|
    && (forall i :: 0 <= i < |s.caches| ==> s.caches[i].Valid())
    && (forall p :: p in s.table ==> s.table[p] < |s.caches| && s.owner[s.table[p]] == p)
    && (forall t :: 0 <= t < |s.threads| && s.threads[t].Holding? ==>
                      s.threads[t].id < |s.caches| && s.owner[s.threads[t].id] == s.threads[t].path)
    && (s.agent.Queueing? ==> s.agent.id < |s.caches| && s.owner[s.agent.id] == s.agent.path)
    && (s.agent.Inserting? ==> s.agent.id < |s.caches| && s.owner[s.agent.id] == s.agent.path)
    && (JobOf(s.agent).Some? ==>
          var job := JobOf(s.agent).value;
          && job.id < |s.caches| && s.owner[job.id] == job.path
          && (job.goal.EvictFor? ==> job.goal.id < |s.caches| && s.owner[job.goal.id] == job.goal.path)
          && (s.agent.Claiming? || s.agent.Removing? || s.agent.Requeueing? ==> job.goal.EvictFor?)
          && (s.agent.Unlisting? || s.agent.Dropping? ==> job.goal.Discard?))
  }

  predicate Enabled(s: State, step: Step) {
    match step
    case LookUp(t, p) => t < |s.threads| && s.threads[t] == Resting
    case WriteThrough(t, offset, buf) => t < |s.threads| && s.threads[t].Holding?
    case ReadThrough(t, offset, len) => t < |s.threads| && s.threads[t].Holding?
    case Touch(t) => t < |s.threads| && s.threads[t].Touching?
    case BeginFlush(p) => s.agent == Free
    case BeginDiscard(p) => s.agent == Free
    case BeginLoad(p, pinned, tail) =>
      && s.agent == Free && p !in s.table && |Disk(s, p)| <= MAX_CACHED_FILE_SIZE
      && |Disk(s, p)| + |tail| == AlignedDown(|Disk(s, p)|) + PAGE_SIZE
    case Queue => s.agent.Queueing?
    case Insert => s.agent.Inserting?
    case TakeSnapshot(_) => s.agent.Snapshotting?
    case Store(ok, stored) =>
      s.agent.Storing? && stored <= |s.agent.snapshot.data| && (ok ==> stored == |s.agent.snapshot.data|)
    case Mark => s.agent.Marking?
    case Claim => s.agent.Claiming?
    case Remove => s.agent.Removing?
    case Requeue => s.agent.Requeueing?
    case Unlist => s.agent.Unlisting?
    case Drop => s.agent.Dropping?
    case DirectWrite(p, offset, buf) => s.agent == Free && p !in s.table
  }

  function Without(fifo: seq<Path>, p: Path): seq<Path> {
    if fifo == [] then []
    else if fifo[0] == p then Without(fifo[1..], p)
    else [fifo[0]] + Without(fifo[1..], p)
  }

  /** Move the first occurrence of `p` to the back. */
  function Promoted(fifo: seq<Path>, p: Path): seq<Path> {
    if p !in fifo then fifo else FirstRemoved(fifo, p) + [p]
  }

  function FirstRemoved(fifo: seq<Path>, p: Path): seq<Path> {
    if fifo == [] then []
    else if fifo[0] == p then fifo[1..]
    else [fifo[0]] + FirstRemoved(fifo[1..], p)
  }

  /** Where the agent goes when a write-back has succeeded. */
  function AfterWriteBack(job: Job): Agent {
    match job.goal
    case Flush => Free
    case EvictFor(_, _) => Claiming(job)
    case Discard => Unlisting(job)
  }

  /** A thread looks an entry up or uses the one it holds. */
  predicate ThreadStep(step: Step) {
    step.LookUp? || step.WriteThrough? || step.ReadThrough? || step.Touch?
  }

  /** The agent starts a job, loads a file or writes one that has no entry. */
  predicate LoadStep(step: Step) {
    step.BeginFlush? || step.BeginDiscard? || step.BeginLoad? || step.Queue? || step.Insert? || step.DirectWrite?
  }

  /** The agent writes an entry back. */
  predicate WriteBackStep(step: Step) {
    step.TakeSnapshot? || step.Store? || step.Mark?
  }

  function ThreadEffect(s: State, step: Step): State
    requires Shape(s) && Enabled(s, step) && ThreadStep(step)
  {
    match step
    case LookUp(t, p) =>
      if p in s.table then s.(threads := s.threads[t := Holding(p, s.table[p])]) else s
    case WriteThrough(t, offset, buf) =>
      var h := s.threads[t];
      var (r, c) := WriteLocked(s.caches[h.id], offset, buf);
      s.(caches := s.caches[h.id := c], threads := s.threads[t := if r.Written? then Touching(h.path) else Resting])
    case ReadThrough(t, offset, len) => s.(threads := s.threads[t := Resting])
    case Touch(t) => s.(fifo := Promoted(s.fifo, s.threads[t].path), threads := s.threads[t := Resting])
  }

  function LoadEffect(s: State, step: Step): State
    requires Shape(s) && Enabled(s, step) && LoadStep(step)
  {
    match step
    case BeginFlush(p) =>
      if p in s.table then s.(agent := Snapshotting(Job(p, s.table[p], Flush))) else s
    case BeginDiscard(p) =>
      if p in s.table then s.(agent := Snapshotting(Job(p, s.table[p], Discard))) else s.(fifo := Without(s.fifo, p))
    case BeginLoad(p, pinned, tail) =>
      var id := |s.caches|;
      s.(caches := s.caches + [Cache(Disk(s, p) + tail, false, 0, false, |Disk(s, p)|)], owner := s.owner + [p],
         agent := if pinned then Inserting(p, id) else Queueing(p, id))
    case Queue =>
      var p, id := s.agent.path, s.agent.id;
      if p in s.fifo then s.(agent := Inserting(p, id))
      else if |s.fifo| < FIFO_SIZE then s.(fifo := s.fifo + [p], agent := Inserting(p, id))
      else if s.fifo[0] in s.table then s.(agent := Snapshotting(Job(s.fifo[0], s.table[s.fifo[0]], EvictFor(p, id))))
      else s.(fifo := s.fifo[1..])
    case Insert => s.(table := s.table[s.agent.path := s.agent.id], agent := Free)
    case DirectWrite(p, offset, buf) => s.(disk := s.disk[p := PWrite(Disk(s, p), offset, buf)])
  }

  function WriteBackEffect(s: State, step: Step): State
    requires Shape(s) && Enabled(s, step) && WriteBackStep(step)
  {
    match step
    case TakeSnapshot(room) =>
      var job := s.agent.job;
      (match SnapshotOf(s.caches[job.id], room)
       case Clean => s.(agent := AfterWriteBack(job))
       case OutOfMemory => s.(agent := Free)
       case Taken(snapshot) => s.(agent := Storing(job, snapshot)))
    case Store(ok, stored) =>
      var job, snapshot := s.agent.job, s.agent.snapshot;
      s.(disk := s.disk[job.path := PWrite(Disk(s, job.path), 0, snapshot.data[..stored])],
         agent := if ok then Marking(job, snapshot) else Free)
    case Mark =>
      var job := s.agent.job;
      s.(caches := s.caches[job.id := MarkClean(s.caches[job.id], s.agent.snapshot.revision)],
         agent := AfterWriteBack(job))
  }

  /** The agent evicts or discards an entry. */
  function LeaveEffect(s: State, step: Step): State
    requires Shape(s) && Enabled(s, step) && !ThreadStep(step) && !LoadStep(step) && !WriteBackStep(step)
  {
    match step
    case Claim =>
      var job := s.agent.job;
      var (ok, c) := ClaimClean(s.caches[job.id]);
      s.(caches := s.caches[job.id := c], agent := if ok then Removing(job) else Requeueing(job, false))
    case Remove =>
      var job := s.agent.job;
      if job.path in s.table && s.table[job.path] == job.id
      then s.(table := s.table - {job.path}, agent := Requeueing(job, true))
      else s.(caches := s.caches[job.id := s.caches[job.id].(evicting := false)], agent := Requeueing(job, false))
    case Requeue =>
      var job := s.agent.job;
      var rest := Without(s.fifo, job.path);
      var stays := !s.agent.removed && job.path in s.table && s.table[job.path] == job.id;
      s.(fifo := if stays then rest + [job.path] else rest, agent := Queueing(job.goal.path, job.goal.id))
    case Unlist => s.(fifo := Without(s.fifo, s.agent.job.path), agent := Dropping(s.agent.job))
    case Drop => s.(table := s.table - {s.agent.job.path}, agent := Free)
  }

  function Do(s: State, step: Step): State
    requires Shape(s) && Enabled(s, step)
  {
    if ThreadStep(step) then ThreadEffect(s, step)
    else if LoadStep(step) then LoadEffect(s, step)
    else if WriteBackStep(step) then WriteBackEffect(s, step)
    else LeaveEffect(s, step)
  }

  predicate Init(s: State) {
    && s.caches == [] && s.owner == [] && s.table == map[] && s.fifo == [] && s.agent == Free
    && forall t :: 0 <= t < |s.threads| ==> s.threads[t] == Resting
  }

  // ------------------------------------------------------------ the invariant

  /** An entry in the table covers its file, and a clean one has exactly its bytes on disk. */
  predicate TableSound(s: State)
    requires Shape(s)
  {
    forall p :: p in s.table ==>
      var c := s.caches[s.table[p]];
      && |Disk(s, p)| <= c.size
      && (!c.modified ==> Contents(c) == Disk(s, p))
      && (c.evicting ==> s.agent.Removing? && s.agent.job.path == p)
  }

  /** The agent's new entry mirrors a file that is not in the table. */
  predicate PrivateSound(s: State)
    requires Shape(s)
  {
    PrivateId(s.agent).Some? ==>
      var i := PrivateId(s.agent).value;
      && s.owner[i] !in s.table && !s.caches[i].modified && !s.caches[i].evicting
      && Contents(s.caches[i]) == Disk(s, s.owner[i])
  }

  /** What the agent knows about the entry it is writing back or evicting. */
  predicate JobSound(s: State)
    requires Shape(s)
  {
    && (JobOf(s.agent).Some? && !s.agent.Requeueing? ==>
          var job := JobOf(s.agent).value;
          job.path in s.table && s.table[job.path] == job.id)
    && (s.agent.Storing? || s.agent.Marking? ==>
          var c, snapshot, path := s.caches[s.agent.job.id], s.agent.snapshot, s.agent.job.path;
          && c.modified && snapshot.revision <= c.revision && |snapshot.data| <= c.size
          && |Disk(s, path)| <= |snapshot.data|
          && (c.revision == snapshot.revision ==> Contents(c) == snapshot.data))
    && (s.agent.Marking? ==> Disk(s, s.agent.job.path) == s.agent.snapshot.data)
    && (s.agent.Removing? ==> s.caches[s.agent.job.id].evicting && !s.caches[s.agent.job.id].modified)
  }

  predicate FifoSound(s: State) {
    && |s.fifo| <= FIFO_SIZE
    && (JobOf(s.agent).Some? && JobOf(s.agent).value.goal.EvictFor? ==> JobOf(s.agent).value.path in s.fifo)
  }

  /** No thread holds the agent's new entry. */
  predicate Apart(s: State) {
    forall t :: 0 <= t < |s.threads| && s.threads[t].Holding? ==> PrivateId(s.agent) != Some(s.threads[t].id)
  }

  /** What every step keeps. */
  predicate Base(s: State) {
    Shape(s) && TableSound(s) && PrivateSound(s) && JobSound(s) && FifoSound(s) && Apart(s)
  }

  /** A thread that holds an entry of `p` holds the table's own entry, or one that turns it away. */
  predicate HeldSound(s: State, p: Path)
    requires Shape(s)
  {
    forall t :: 0 <= t < |s.threads| && s.threads[t].Holding? && s.threads[t].path == p ==>
      (p in s.table && s.table[p] == s.threads[t].id) || s.caches[s.threads[t].id].evicting
  }

  /** What every step keeps but the removal of an entry of `p` that a thread still holds. */
  predicate Inv(s: State, p: Path) {
    Base(s) && HeldSound(s, p)
  }

  lemma InitInv(s: State, p: Path)
    requires Init(s)
    ensures Inv(s, p)
  {
  }

  lemma {:induction false} FirstRemovedSame(fifo: seq<Path>, p: Path)
    requires p in fifo
    ensures |FirstRemoved(fifo, p)| == |fifo| - 1
    ensures forall q :: q in fifo ==> q == p || q in FirstRemoved(fifo, p)
  {
    if fifo[0] != p { FirstRemovedSame(fifo[1..], p); }
  }

  lemma {:induction false} PromotedSame(fifo: seq<Path>, p: Path)
    ensures |Promoted(fifo, p)| == |fifo|
    ensures forall q :: q in fifo ==> q in Promoted(fifo, p)
  {
    if p in fifo { FirstRemovedSame(fifo, p); }
  }

  lemma {:induction false} WithoutShorter(fifo: seq<Path>, p: Path)
    ensures |Without(fifo, p)| <= |fifo|
    ensures p in fifo ==> |Without(fifo, p)| < |fifo|
  {
    if fifo != [] { WithoutShorter(fifo[1..], p); }
  }

  // ------------------------------------------------------------ every step keeps it

  lemma LookUpKeeps(s: State, t: nat, p: Path)
    requires Base(s) && Enabled(s, LookUp(t, p))
    ensures Base(Do(s, LookUp(t, p)))
  {
  }

  /** A write that is turned away leaves every entry as it was. */
  lemma WriteTurnedAway(s: State, t: nat, offset: nat, buf: seq<byte>)
    requires Base(s) && Enabled(s, WriteThrough(t, offset, buf))
    requires !WriteLocked(s.caches[s.threads[t].id], offset, buf).0.Written?
    ensures Base(Do(s, WriteThrough(t, offset, buf)))
  {
    var h := s.threads[t];
    assert s.caches[h.id := s.caches[h.id]] == s.caches;
  }

  /** A thread lets its entry go. */
  predicate LetsGo(s: State, s': State) {
    && |s'.threads| == |s.threads|
    && forall t :: 0 <= t < |s.threads| ==> s'.threads[t] == s.threads[t] || !s'.threads[t].Holding?
  }

  /** An entry that no eviction has claimed gets newer bytes. */
  predicate Rewrites(s: State, s': State, id: nat, c: Cache)
    requires Shape(s)
  {
    && id < |s.caches| && s' == s.(caches := s.caches[id := c], threads := s'.threads) && LetsGo(s, s')
    && c.Valid() && c.modified && c.size >= s.caches[id].size && c.revision > s.caches[id].revision
    && !c.evicting && !s.caches[id].evicting && PrivateId(s.agent) != Some(id)
  }

  lemma RewriteKeepsTable(s: State, s': State, id: nat, c: Cache)
    requires Shape(s) && TableSound(s) && Rewrites(s, s', id, c)
    ensures Shape(s') && TableSound(s')
  {
  }

  lemma RewriteKeepsAgent(s: State, s': State, id: nat, c: Cache)
    requires Shape(s) && PrivateSound(s) && JobSound(s) && Apart(s) && Rewrites(s, s', id, c) && Shape(s')
    ensures PrivateSound(s') && JobSound(s') && Apart(s')
  {
  }

  /** An accepted write leaves its entry dirty under a new revision. */
  lemma WriteAccepted(s: State, t: nat, offset: nat, buf: seq<byte>)
    requires Base(s) && Enabled(s, WriteThrough(t, offset, buf))
    requires WriteLocked(s.caches[s.threads[t].id], offset, buf).0.Written?
    ensures Base(Do(s, WriteThrough(t, offset, buf)))
  {
    var h, s' := s.threads[t], Do(s, WriteThrough(t, offset, buf));
    var c := WriteBuf(s.caches[h.id], offset, buf);
    assert Rewrites(s, s', h.id, c);
    RewriteKeepsTable(s, s', h.id, c);
    RewriteKeepsAgent(s, s', h.id, c);
  }

  lemma WriteThroughKeeps(s: State, t: nat, offset: nat, buf: seq<byte>)
    requires Base(s) && Enabled(s, WriteThrough(t, offset, buf))
    ensures Base(Do(s, WriteThrough(t, offset, buf)))
  {
    if WriteLocked(s.caches[s.threads[t].id], offset, buf).0.Written? {
      WriteAccepted(s, t, offset, buf);
    } else {
      WriteTurnedAway(s, t, offset, buf);
    }
  }

  lemma ReadThroughKeeps(s: State, t: nat, offset: nat, len: nat)
    requires Base(s) && Enabled(s, ReadThrough(t, offset, len))
    ensures Base(Do(s, ReadThrough(t, offset, len)))
  {
  }

  lemma TouchKeeps(s: State, t: nat)
    requires Base(s) && Enabled(s, Touch(t))
    ensures Base(Do(s, Touch(t)))
  {
    PromotedSame(s.fifo, s.threads[t].path);
  }

  lemma BeginFlushKeeps(s: State, p: Path)
    requires Base(s) && Enabled(s, BeginFlush(p))
    ensures Base(Do(s, BeginFlush(p)))
  {
  }

  lemma BeginDiscardKeeps(s: State, p: Path)
    requires Base(s) && Enabled(s, BeginDiscard(p))
    ensures Base(Do(s, BeginDiscard(p)))
  {
    WithoutShorter(s.fifo, p);
  }

  lemma BeginLoadKeeps(s: State, p: Path, pinned: bool, tail: seq<byte>)
    requires Base(s) && Enabled(s, BeginLoad(p, pinned, tail))
    ensures Base(Do(s, BeginLoad(p, pinned, tail)))
  {
  }

  /** The device takes a prefix of the snapshot, which is at least as long as the file. */
  lemma StoredKeeps(s: State, s': State, stored: nat)
    requires Base(s) && s.agent.Storing? && stored <= |s.agent.snapshot.data|
    requires s' == s.(disk := s.disk[s.agent.job.path := PWrite(Disk(s, s.agent.job.path), 0,
                                                                s.agent.snapshot.data[..stored])],
                      agent := s'.agent)
    requires Shape(s') && !s'.agent.Removing?
    requires PrivateId(s'.agent) == None || PrivateId(s'.agent) == PrivateId(s.agent)
    ensures TableSound(s') && PrivateSound(s') && Apart(s')
  {
    assert forall p :: p in s.table && p != s.agent.job.path ==> Disk(s', p) == Disk(s, p);
  }

  lemma StoreKeeps(s: State, ok: bool, stored: nat)
    requires Base(s) && Enabled(s, Store(ok, stored))
    ensures Base(Do(s, Store(ok, stored)))
  {
    StoredKeeps(s, Do(s, Store(ok, stored)), stored);
    if ok { assert s.agent.snapshot.data[..stored] == s.agent.snapshot.data; }
  }

  lemma DirectWriteKeeps(s: State, p: Path, offset: nat, buf: seq<byte>)
    requires Base(s) && Enabled(s, DirectWrite(p, offset, buf))
    ensures Base(Do(s, DirectWrite(p, offset, buf)))
  {
  }

  /** The path is queued already, or there is room. */
  lemma QueueAdmits(s: State)
    requires Base(s) && Enabled(s, Queue) && (s.agent.path in s.fifo || |s.fifo| < FIFO_SIZE)
    ensures Base(Do(s, Queue))
  {
  }

  /** Only the agent goes on, and it was not removing an entry. */
  lemma AgentMoves(s: State, agent: Agent)
    requires Base(s) && !s.agent.Removing? && !agent.Removing? && Shape(s.(agent := agent))
    requires JobSound(s.(agent := agent)) && FifoSound(s.(agent := agent))
    requires PrivateId(agent) == None || PrivateId(agent) == PrivateId(s.agent)
    ensures Base(s.(agent := agent))
  {
    var s' := s.(agent := agent);
    assert TableSound(s') && PrivateSound(s') && Apart(s');
  }

  /** The queue is full: its front is written back and evicted first. */
  lemma QueuePicksVictim(s: State)
    requires Base(s) && Enabled(s, Queue) && s.agent.path !in s.fifo && |s.fifo| >= FIFO_SIZE && s.fifo[0] in s.table
    ensures Base(Do(s, Queue))
  {
    var agent := Snapshotting(Job(s.fifo[0], s.table[s.fifo[0]], EvictFor(s.agent.path, s.agent.id)));
    assert Do(s, Queue) == s.(agent := agent);
    AgentMoves(s, agent);
  }

  /** A queued path without an entry is dropped. */
  lemma QueueDropsOrphan(s: State)
    requires Base(s) && Enabled(s, Queue) && s.agent.path !in s.fifo && |s.fifo| >= FIFO_SIZE && s.fifo[0] !in s.table
    ensures Base(Do(s, Queue))
  {
  }

  lemma QueueKeeps(s: State)
    requires Base(s) && Enabled(s, Queue)
    ensures Base(Do(s, Queue))
  {
    if s.agent.path in s.fifo || |s.fifo| < FIFO_SIZE {
      QueueAdmits(s);
    } else if s.fifo[0] in s.table {
      QueuePicksVictim(s);
    } else {
      QueueDropsOrphan(s);
    }
  }

  lemma InsertKeeps(s: State)
    requires Base(s) && Enabled(s, Insert)
    ensures Base(Do(s, Insert))
  {
  }

  /** A clean entry needs no write. */
  lemma NothingToWrite(s: State, room: bool)
    requires Base(s) && Enabled(s, TakeSnapshot(room)) && !s.caches[s.agent.job.id].modified
    ensures Base(Do(s, TakeSnapshot(room)))
  {
    AgentMoves(s, AfterWriteBack(s.agent.job));
  }

  /** The snapshot is the whole file, at least as long as the file on disk. */
  lemma SnapshotTaken(s: State, room: bool)
    requires Base(s) && Enabled(s, TakeSnapshot(room)) && s.caches[s.agent.job.id].modified
    ensures Base(Do(s, TakeSnapshot(room)))
  {
    var c := s.caches[s.agent.job.id];
    AgentMoves(s, if room then Storing(s.agent.job, Snapshot(Contents(c), c.revision)) else Free);
  }

  lemma TakeSnapshotKeeps(s: State, room: bool)
    requires Base(s) && Enabled(s, TakeSnapshot(room))
    ensures Base(Do(s, TakeSnapshot(room)))
  {
    if s.caches[s.agent.job.id].modified {
      SnapshotTaken(s, room);
    } else {
      NothingToWrite(s, room);
    }
  }

  /** An entry loses its dirty mark while its bytes are on disk. */
  lemma CleanedKeepsTable(s: State, s': State, id: nat)
    requires Base(s) && Shape(s') && id < |s.caches| && s.agent.Marking? && s.agent.job.id == id
    requires s' == s.(caches := s.caches[id := s.caches[id].(modified := false)], agent := s'.agent)
    requires Contents(s.caches[id]) == Disk(s, s.agent.job.path) && !s'.agent.Removing?
    requires PrivateId(s'.agent) == None || PrivateId(s'.agent) == PrivateId(s.agent)
    ensures TableSound(s') && PrivateSound(s') && Apart(s')
  {
  }

  lemma MarkKeeps(s: State)
    requires Base(s) && Enabled(s, Mark)
    ensures Base(Do(s, Mark))
  {
    var id, next := s.agent.job.id, AfterWriteBack(s.agent.job);
    if s.caches[id].revision == s.agent.snapshot.revision {
      CleanedKeepsTable(s, Do(s, Mark), id);
    } else {
      assert s.caches[id := s.caches[id]] == s.caches;
      AgentMoves(s, next);
    }
  }

  /** A clean entry is marked; its agent goes on to remove it. */
  lemma ClaimedKeeps(s: State, s': State, id: nat)
    requires Base(s) && s.agent.Claiming? && id == s.agent.job.id && !s.caches[id].modified
    requires s' == s.(caches := s.caches[id := s.caches[id].(evicting := true)], agent := Removing(s.agent.job))
    ensures Base(s')
  {
    assert Shape(s');
    assert TableSound(s') && PrivateSound(s') && JobSound(s');
  }

  lemma ClaimKeeps(s: State)
    requires Base(s) && Enabled(s, Claim)
    ensures Base(Do(s, Claim))
  {
    var c := s.caches[s.agent.job.id];
    if c.modified || c.evicting {
      assert s.caches[s.agent.job.id := c] == s.caches;
      AgentMoves(s, Requeueing(s.agent.job, false));
    } else {
      ClaimedKeeps(s, Do(s, Claim), s.agent.job.id);
    }
  }

  lemma RemoveKeeps(s: State)
    requires Base(s) && Enabled(s, Remove)
    ensures Base(Do(s, Remove))
  {
  }

  lemma RequeueKeeps(s: State)
    requires Base(s) && Enabled(s, Requeue)
    ensures Base(Do(s, Requeue))
  {
    WithoutShorter(s.fifo, s.agent.job.path);
  }

  lemma UnlistKeeps(s: State)
    requires Base(s) && Enabled(s, Unlist)
    ensures Base(Do(s, Unlist))
  {
    WithoutShorter(s.fifo, s.agent.job.path);
  }

  lemma DropKeeps(s: State)
    requires Base(s) && Enabled(s, Drop)
    ensures Base(Do(s, Drop))
  {
  }

  lemma StepKeepsBase(s: State, step: Step)
    requires Base(s) && Enabled(s, step)
    ensures Base(Do(s, step))
  {
    match step
    case LookUp(t, p) => LookUpKeeps(s, t, p);
    case WriteThrough(t, offset, buf) => WriteThroughKeeps(s, t, offset, buf);
    case ReadThrough(t, offset, len) => ReadThroughKeeps(s, t, offset, len);
    case Touch(t) => TouchKeeps(s, t);
    case BeginFlush(p) => BeginFlushKeeps(s, p);
    case BeginDiscard(p) => BeginDiscardKeeps(s, p);
    case BeginLoad(p, pinned, tail) => BeginLoadKeeps(s, p, pinned, tail);
    case Queue => QueueKeeps(s);
    case Insert => InsertKeeps(s);
    case TakeSnapshot(room) => TakeSnapshotKeeps(s, room);
    case Store(ok, stored) => StoreKeeps(s, ok, stored);
    case Mark => MarkKeeps(s);
    case Claim => ClaimKeeps(s);
    case Remove => RemoveKeeps(s);
    case Requeue => RequeueKeeps(s);
    case Unlist => UnlistKeeps(s);
    case Drop => DropKeeps(s);
    case DirectWrite(p, offset, buf) => DirectWriteKeeps(s, p, offset, buf);
  }

  /** No thread holds the entry that is about to be dropped. */
  predicate Unheld(s: State)
    requires s.agent.Dropping?
  {
    forall t :: 0 <= t < |s.threads| && s.threads[t].Holding? ==> s.threads[t].id != s.agent.job.id
  }

  /** The entry that is about to be dropped has its bytes on disk. */
  predicate Stored(s: State)
    requires Shape(s) && s.agent.Dropping?
  {
    Contents(s.caches[s.agent.job.id]) == Disk(s, s.agent.job.path)
  }

  /** The entry of `p` is dropped. */
  predicate Drops(s: State, step: Step, p: Path)
    requires Shape(s) && Enabled(s, step)
  {
    step.Drop? && s.agent.job.path == p
  }

  /** A dropped entry of `p` is on disk and no thread holds it. */
  predicate Careful(s: State, step: Step, p: Path)
    requires Shape(s) && Enabled(s, step)
  {
    Drops(s, step, p) ==> Unheld(s) && Stored(s)
  }

  /** The holders and their entries stay; the table gains entries at most, and marks are only set. */
  lemma HeldFrame(s: State, s': State, p: Path)
    requires Shape(s) && Shape(s') && HeldSound(s, p) && |s.caches| <= |s'.caches|
    requires forall i :: 0 <= i < |s.caches| && s.caches[i].evicting ==> s'.caches[i].evicting
    requires p in s.table ==> p in s'.table && s'.table[p] == s.table[p]
    requires forall t :: 0 <= t < |s'.threads| && s'.threads[t].Holding? ==>
                           t < |s.threads| && s'.threads[t] == s.threads[t]
    ensures HeldSound(s', p)
  {
  }

  lemma LookUpKeepsHeld(s: State, t: nat, q: Path, p: Path)
    requires Shape(s) && HeldSound(s, p) && Enabled(s, LookUp(t, q)) && Shape(Do(s, LookUp(t, q)))
    ensures HeldSound(Do(s, LookUp(t, q)), p)
  {
  }

  lemma RemoveKeepsHeld(s: State, p: Path)
    requires Base(s) && HeldSound(s, p) && Enabled(s, Remove) && Shape(Do(s, Remove))
    ensures HeldSound(Do(s, Remove), p)
  {
  }

  lemma DropKeepsHeld(s: State, p: Path)
    requires Shape(s) && JobSound(s) && HeldSound(s, p) && Enabled(s, Drop) && Shape(Do(s, Drop))
    requires s.agent.job.path == p ==> Unheld(s)
    ensures HeldSound(Do(s, Drop), p)
  {
    if s.agent.job.path != p { HeldFrame(s, Do(s, Drop), p); }
  }

  lemma InsertKeepsHeld(s: State, p: Path)
    requires Shape(s) && PrivateSound(s) && HeldSound(s, p) && Enabled(s, Insert) && Shape(Do(s, Insert))
    ensures HeldSound(Do(s, Insert), p)
  {
    HeldFrame(s, Do(s, Insert), p);
  }

  lemma ThreadKeepsHeld(s: State, step: Step, p: Path)
    requires Shape(s) && HeldSound(s, p) && Enabled(s, step) && Shape(Do(s, step))
    requires step.WriteThrough? || step.ReadThrough? || step.Touch?
    ensures HeldSound(Do(s, step), p)
  {
    HeldFrame(s, Do(s, step), p);
  }

  lemma LoadKeepsHeld(s: State, step: Step, p: Path)
    requires Shape(s) && HeldSound(s, p) && Enabled(s, step) && Shape(Do(s, step)) && LoadStep(step) && !step.Insert?
    ensures HeldSound(Do(s, step), p)
  {
    HeldFrame(s, Do(s, step), p);
  }

  lemma WriteBackKeepsHeld(s: State, step: Step, p: Path)
    requires Shape(s) && HeldSound(s, p) && Enabled(s, step) && Shape(Do(s, step))
    requires WriteBackStep(step) || step.Claim? || step.Requeue? || step.Unlist?
    ensures HeldSound(Do(s, step), p)
  {
    HeldFrame(s, Do(s, step), p);
  }

  lemma {:induction false} StepKeepsHeld(s: State, step: Step, p: Path)
    requires Inv(s, p) && Enabled(s, step) && Shape(Do(s, step)) && (Drops(s, step, p) ==> Unheld(s))
    ensures HeldSound(Do(s, step), p)
  {
    if step.LookUp? { LookUpKeepsHeld(s, step.thread, step.path, p); }
    else if ThreadStep(step) { ThreadKeepsHeld(s, step, p); }
    else if step.Insert? { InsertKeepsHeld(s, p); }
    else if LoadStep(step) { LoadKeepsHeld(s, step, p); }
    else if step.Remove? { RemoveKeepsHeld(s, p); }
    else if step.Drop? { DropKeepsHeld(s, p); }
    else { WriteBackKeepsHeld(s, step, p); }
  }

  lemma {:induction false} StepKeeps(s: State, step: Step, p: Path)
    requires Inv(s, p) && Enabled(s, step) && (Drops(s, step, p) ==> Unheld(s))
    ensures Inv(Do(s, step), p)
  {
    StepKeepsBase(s, step);
    StepKeepsHeld(s, step, p);
  }

  // ------------------------------------------------------------ whole runs

  /** `after` is reached from `before` by taking `steps` in order. */
  ghost predicate Run(before: State, steps: seq<Step>, after: State)
    decreases |steps|
  {
    if steps == [] then before == after
    else Shape(before) && Enabled(before, steps[0]) && Run(Do(before, steps[0]), steps[1..], after)
  }

  /** Every entry of `p` dropped during the run was held by no thread. */
  ghost predicate UnheldRun(s: State, steps: seq<Step>, p: Path)
    decreases |steps|
  {
    steps != [] && Shape(s) && Enabled(s, steps[0]) ==>
      (Drops(s, steps[0], p) ==> Unheld(s)) && UnheldRun(Do(s, steps[0]), steps[1..], p)
  }

  /** It was on disk as well. */
  ghost predicate CarefulRun(s: State, steps: seq<Step>, p: Path)
    decreases |steps|
  {
    steps != [] && Shape(s) && Enabled(s, steps[0]) ==>
      Careful(s, steps[0], p) && CarefulRun(Do(s, steps[0]), steps[1..], p)
  }

  lemma {:induction false} RunKeepsBase(before: State, steps: seq<Step>, after: State)
    requires Base(before) && Run(before, steps, after)
    ensures Base(after)
    decreases |steps|
  {
    if steps != [] {
      StepKeepsBase(before, steps[0]);
      RunKeepsBase(Do(before, steps[0]), steps[1..], after);
    }
  }

  lemma {:induction false} RunKeeps(before: State, steps: seq<Step>, after: State, p: Path)
    requires Inv(before, p) && Run(before, steps, after) && UnheldRun(before, steps, p)
    ensures Inv(after, p)
    decreases |steps|
  {
    if steps != [] {
      StepKeeps(before, steps[0], p);
      RunKeeps(Do(before, steps[0]), steps[1..], after, p);
    }
  }

  /** In every reachable state a clean entry has its exact bytes on disk, and the queue is bounded. */
  lemma {:induction false} CleanEntriesAreOnDisk(start: State, steps: seq<Step>, s: State, p: Path)
    requires Init(start) && Run(start, steps, s) && p in s.table
    ensures s.table[p] < |s.caches| && s.caches[s.table[p]].Valid()
    ensures !s.caches[s.table[p]].modified ==> Contents(s.caches[s.table[p]]) == Disk(s, p)
    ensures |s.fifo| <= FIFO_SIZE
  {
    InitInv(start, p);
    RunKeepsBase(start, steps, s);
  }

  /** A thread whose entry has left the table can neither write nor read through it. */
  lemma {:induction false} EvictedEntryTurnsAway(start: State, steps: seq<Step>, s: State, t: nat, p: Path,
                                                 offset: nat, buf: seq<byte>, len: nat)
    requires Init(start) && Run(start, steps, s) && UnheldRun(start, steps, p)
    requires t < |s.threads| && s.threads[t].Holding? && s.threads[t].path == p
    requires p in s.table ==> s.table[p] != s.threads[t].id
    ensures s.threads[t].id < |s.caches| && s.caches[s.threads[t].id].Valid()
    ensures WriteLocked(s.caches[s.threads[t].id], offset, buf) == (Bypass, s.caches[s.threads[t].id])
    ensures ReadLocked(s.caches[s.threads[t].id], offset, len) == None
  {
    InitInv(start, p);
    RunKeeps(start, steps, s, p);
  }

  // ------------------------------------------------------------ what readers see

  /** The file at `p`: its cached bytes if it has an entry, its bytes on disk otherwise. */
  function View(s: State, p: Path): seq<byte>
    requires Shape(s)
  {
    if p in s.table then Contents(s.caches[s.table[p]]) else Disk(s, p)
  }

  datatype Write = Write(path: Path, offset: nat, buf: seq<byte>)

  /** The write a step acknowledges, through an entry or directly. */
  function Accepted(s: State, step: Step): Option<Write>
    requires Shape(s) && Enabled(s, step)
  {
    match step
    case WriteThrough(t, offset, buf) =>
      var h := s.threads[t];
      if WriteLocked(s.caches[h.id], offset, buf).0.Written? then Some(Write(h.path, offset, buf)) else None
    case DirectWrite(p, offset, buf) => Some(Write(p, offset, buf))
    case _ => None
  }

  /** A cached write to `p` is not an empty one beyond the end of the file. */
  predicate Regular(s: State, step: Step, p: Path)
    requires Shape(s) && Enabled(s, step)
  {
    step.WriteThrough? && s.threads[step.thread].path == p && step.buf == [] ==> step.offset <= |View(s, p)|
  }

  /** What the write a step acknowledges makes of the file at `p`. */
  function Effect(file: seq<byte>, s: State, step: Step, p: Path): seq<byte>
    requires Shape(s) && Enabled(s, step)
  {
    match Accepted(s, step)
    case Some(w) => if w.path == p then PWrite(file, w.offset, w.buf) else file
    case None => file
  }

  lemma {:induction false} WriteThroughView(s: State, t: nat, offset: nat, buf: seq<byte>, p: Path)
    requires Inv(s, p) && Enabled(s, WriteThrough(t, offset, buf)) && Regular(s, WriteThrough(t, offset, buf), p)
    requires Base(Do(s, WriteThrough(t, offset, buf)))
    ensures View(Do(s, WriteThrough(t, offset, buf)), p) == Effect(View(s, p), s, WriteThrough(t, offset, buf), p)
  {
    var h := s.threads[t];
    if WriteLocked(s.caches[h.id], offset, buf).0.Written? && h.path == p {
      assert h.path in s.table && s.table[h.path] == h.id;
      WrittenIsPWriteIff(s.caches[h.id], offset, buf);
    }
  }

  /** Marking an entry clean or claiming it changes no bytes. */
  lemma FlagsView(s: State, s': State, id: nat, c: Cache, p: Path)
    requires Shape(s) && Shape(s') && id < |s.caches| && s'.caches == s.caches[id := c]
    requires c.data == s.caches[id].data && c.size == s.caches[id].size
    requires s'.table == s.table && s'.disk == s.disk
    ensures View(s', p) == View(s, p)
  {
  }

  lemma MarkView(s: State, p: Path)
    requires Shape(s) && Enabled(s, Mark) && Shape(Do(s, Mark))
    ensures View(Do(s, Mark), p) == View(s, p)
  {
    var c := s.caches[s.agent.job.id];
    FlagsView(s, Do(s, Mark), s.agent.job.id, MarkClean(c, s.agent.snapshot.revision), p);
  }

  lemma ClaimView(s: State, p: Path)
    requires Shape(s) && Enabled(s, Claim) && Shape(Do(s, Claim))
    ensures View(Do(s, Claim), p) == View(s, p)
  {
    FlagsView(s, Do(s, Claim), s.agent.job.id, ClaimClean(s.caches[s.agent.job.id]).1, p);
  }

  /** A new entry mirrors its file, and so does an entry that leaves the table clean. */
  lemma InsertView(s: State, p: Path)
    requires Base(s) && Enabled(s, Insert) && Base(Do(s, Insert))
    ensures View(Do(s, Insert), p) == View(s, p)
  {
  }

  lemma RemoveView(s: State, p: Path)
    requires Base(s) && Enabled(s, Remove) && Base(Do(s, Remove))
    ensures View(Do(s, Remove), p) == View(s, p)
  {
  }

  /** Dropping an entry leaves the file readers see exactly if its bytes are on disk. */
  lemma DropView(s: State, p: Path)
    requires Base(s) && Enabled(s, Drop) && Base(Do(s, Drop))
    ensures View(Do(s, Drop), p) == View(s, p) <==> (p == s.agent.job.path ==> Stored(s))
  {
  }

  lemma BeginLoadView(s: State, q: Path, pinned: bool, tail: seq<byte>, p: Path)
    requires Base(s) && Enabled(s, BeginLoad(q, pinned, tail)) && Base(Do(s, BeginLoad(q, pinned, tail)))
    ensures View(Do(s, BeginLoad(q, pinned, tail)), p) == View(s, p)
  {
  }

  /** A device write goes to a file whose readers use its entry. */
  lemma StoreView(s: State, ok: bool, stored: nat, p: Path)
    requires Base(s) && Enabled(s, Store(ok, stored)) && Base(Do(s, Store(ok, stored)))
    ensures View(Do(s, Store(ok, stored)), p) == View(s, p)
  {
  }

  lemma DirectWriteView(s: State, q: Path, offset: nat, buf: seq<byte>, p: Path)
    requires Base(s) && Enabled(s, DirectWrite(q, offset, buf)) && Base(Do(s, DirectWrite(q, offset, buf)))
    ensures View(Do(s, DirectWrite(q, offset, buf)), p) ==
            Effect(View(s, p), s, DirectWrite(q, offset, buf), p)
  {
  }

  /** Steps that touch neither entries nor the table nor the disk. */
  lemma SameView(s: State, s': State, p: Path)
    requires Shape(s) && Shape(s') && s'.caches == s.caches && s'.table == s.table && s'.disk == s.disk
    ensures View(s', p) == View(s, p)
  {
  }

  lemma ThreadView(s: State, step: Step, p: Path)
    requires Shape(s) && Enabled(s, step) && Shape(Do(s, step)) && ThreadStep(step) && !step.WriteThrough?
    ensures View(Do(s, step), p) == View(s, p)
  {
    SameView(s, Do(s, step), p);
  }

  lemma StartView(s: State, step: Step, p: Path)
    requires Shape(s) && Enabled(s, step) && Shape(Do(s, step))
    requires step.BeginFlush? || step.BeginDiscard? || step.Queue?
    ensures View(Do(s, step), p) == View(s, p)
  {
    SameView(s, Do(s, step), p);
  }

  lemma BookkeepingView(s: State, step: Step, p: Path)
    requires Shape(s) && Enabled(s, step) && Shape(Do(s, step))
    requires step.TakeSnapshot? || step.Requeue? || step.Unlist?
    ensures View(Do(s, step), p) == View(s, p)
  {
    SameView(s, Do(s, step), p);
  }

  /** Loading, writing back, evicting and careful discarding change no file; an acknowledged write is a pwrite. */
  lemma {:induction false} StepView(s: State, step: Step, p: Path)
    requires Inv(s, p) && Enabled(s, step) && Careful(s, step, p) && Regular(s, step, p) && Base(Do(s, step))
    ensures View(Do(s, step), p) == Effect(View(s, p), s, step, p)
  {
    match step
    case WriteThrough(t, offset, buf) => WriteThroughView(s, t, offset, buf, p);
    case DirectWrite(q, offset, buf) => DirectWriteView(s, q, offset, buf, p);
    case BeginLoad(q, pinned, tail) => BeginLoadView(s, q, pinned, tail, p);
    case Insert => InsertView(s, p);
    case Remove => RemoveView(s, p);
    case Drop => DropView(s, p);
    case Store(ok, stored) => StoreView(s, ok, stored, p);
    case Mark => MarkView(s, p);
    case Claim => ClaimView(s, p);
    case LookUp(_, _) => ThreadView(s, step, p);
    case ReadThrough(_, _, _) => ThreadView(s, step, p);
    case Touch(_) => ThreadView(s, step, p);
    case BeginFlush(_) => StartView(s, step, p);
    case BeginDiscard(_) => StartView(s, step, p);
    case Queue => StartView(s, step, p);
    case _ => BookkeepingView(s, step, p);
  }

  /** A plain file that receives the acknowledged writes of a run in order. */
  ghost function PlainFile(file: seq<byte>, s: State, steps: seq<Step>, p: Path): seq<byte>
    decreases |steps|
  {
    if steps == [] || !Shape(s) || !Enabled(s, steps[0]) then file
    else PlainFile(Effect(file, s, steps[0], p), Do(s, steps[0]), steps[1..], p)
  }

  ghost predicate RegularRun(s: State, steps: seq<Step>, p: Path)
    decreases |steps|
  {
    steps != [] && Shape(s) && Enabled(s, steps[0]) ==>
      Regular(s, steps[0], p) && RegularRun(Do(s, steps[0]), steps[1..], p)
  }

  lemma {:induction false} ViewFollowsWrites(s: State, steps: seq<Step>, after: State, p: Path)
    requires Inv(s, p) && Run(s, steps, after) && CarefulRun(s, steps, p) && RegularRun(s, steps, p)
    ensures Shape(after) && View(after, p) == PlainFile(View(s, p), s, steps, p)
    decreases |steps|
  {
    if steps != [] {
      StepKeeps(s, steps[0], p);
      StepView(s, steps[0], p);
      ViewFollowsWrites(Do(s, steps[0]), steps[1..], after, p);
    }
  }

  /** Over every interleaving each file reads as a plain file that received the acknowledged writes. */
  lemma {:induction false} NoAcknowledgedWriteIsLost(start: State, steps: seq<Step>, s: State, p: Path)
    requires Init(start) && Run(start, steps, s) && CarefulRun(start, steps, p) && RegularRun(start, steps, p)
    ensures Shape(s) && View(s, p) == PlainFile(Disk(start, p), start, steps, p)
  {
    InitInv(start, p);
    ViewFollowsWrites(start, steps, s, p);
  }

  /** A cached read that returns bytes returns those of the file as it is at that moment. */
  lemma {:induction false} CachedReadSeesFile(start: State, steps: seq<Step>, s: State, t: nat, p: Path,
                                              offset: nat, len: nat)
    requires Init(start) && Run(start, steps, s) && UnheldRun(start, steps, p)
    requires t < |s.threads| && s.threads[t].Holding? && s.threads[t].path == p
    ensures Shape(s)
    ensures var r := ReadLocked(s.caches[s.threads[t].id], offset, len);
            r.Some? ==> r.value == PRead(View(s, p), offset, len)
  {
    InitInv(start, p);
    RunKeeps(start, steps, s, p);
    var c := s.caches[s.threads[t].id];
    if !c.evicting { ReadLockedIsPRead(c, offset, len); }
  }
}
