/**
  Cross-hart TLB shootdown as a state machine over its atomic steps. A run is any
  interleaving of mailbox polls, TLB refills, activations, detachments, the steps of
  the one update that holds the update lock, and harts that leave their address space
  for a kernel operation and rejoin it afterwards without a flush.

  Each page-table update gives its address space a new version, and a cached
  translation carries the version it was read from, so a stale translation is
  one whose version is not the current one.
 */
module RemoteTlb {
  import opened Basics

  datatype Mailbox = Mailbox(pending: bool, sequence: nat, acknowledged: nat)

  /** Where a hart is inside `poll`: after the swap, after the flush, after the load. */
  datatype Poll = Idle | Swapped | Flushed | Loaded(sequence: nat)

  /** A cached translation. */
  datatype Entry = Entry(space: nat, version: nat)

  /** Where a hart is on its way to user mode, holding the read lock of a space. */
  datatype Entering = Outside | Reading(space: nat) | Ready(space: nat)

  /**
    A hart that cleared its active bit for an operation on a space, with whether the
    bit was set: no lock of its own yet (or an update, which is kept apart), the write
    lock alone, or the write lock alone with an active mask it found empty.
   */
  datatype Away =
    | Here
    | Left(space: nat, was: bool)
    | Holding(space: nat, was: bool)
    | Alone(space: nat, was: bool, changed: bool)

  /** Where the update is; the indices are the targets of the three loops of `shootdown`. */
  datatype Phase =
    | LockHeld
    | Updating(changed: bool)
    | ReadMask
    | Adding(target: nat)
    | Setting(target: nat)
    | Waking(target: nat)
    | CheckAck(target: nat)
    | CheckActive(target: nat)
    | Returned

  /** The one update: its hart, its address space, its targets and their sequence numbers. */
  datatype Update = Update(hart: nat, space: nat, phase: Phase, remote: set<nat>, sequences: seq<nat>)

  datatype State = State(version: seq<nat>, active: seq<set<nat>>, mail: seq<Mailbox>, poll: seq<Poll>,
                         tlb: seq<set<Entry>>, entering: seq<Entering>, away: seq<Away>, update: Option<Update>)

  datatype Step =
    | PollSwap(hart: nat)
    | PollFlush(hart: nat)
    | PollLoad(hart: nat)
    | PollStore(hart: nat)
    | Refill(hart: nat, space: nat)
    | Detach(hart: nat, space: nat)
    | ReadLock(hart: nat, space: nat)
    | FlushForUser(hart: nat, always: bool)
    | Publish(hart: nat)
    | Leave(hart: nat, space: nat)
    | LockAlone(hart: nat)
    | DropLock(hart: nat)
    | SeeNobody(hart: nat)
    | ChangeAlone(hart: nat)
    | FlushAlone(hart: nat)
    | Rejoin(hart: nat)
    | TakeUpdateLock(hart: nat, space: nat)
    | TakeWriteLock
    | ChangePageTable
    | Abandon
    | LocalFlush
    | LoadMask
    | AddSequence
    | SetPending
    | WakeTarget
    | LoadAck
    | LoadActive
    | Release

  /** The update holds the write lock of the space. */
  predicate UpdateLocked(s: State, a: nat) {
    s.update.Some? && s.update.value.space == a && s.update.value.phase != LockHeld
  }

  /** A hart holds the write lock of the space without an update. */
  predicate HasLock(w: Away) { w.Holding? || w.Alone? }

  predicate NobodyAlone(s: State, a: nat) {
    forall h :: 0 <= h < |s.away| && HasLock(s.away[h]) ==> s.away[h].space != a
  }

  predicate NobodyReads(s: State, a: nat) {
    forall h :: 0 <= h < |s.entering| ==> s.entering[h] == Outside || s.entering[h].space != a
  }

  /** The lists of a state have one entry per hart and per address space. */
  predicate Shape(s: State) {
    && |s.mail| == |s.poll| == |s.tlb| == |s.entering| == |s.away| && |s.version| == |s.active|
    && (s.update.Some? ==>
          var u := s.update.value;
          && u.hart < |s.poll| && u.space < |s.version| && |u.sequences| == |s.poll|
          && (forall t :: t in u.remote ==> t < |s.poll|)
          && ((u.phase.Adding? || u.phase.Waking? || u.phase.CheckAck?) ==> u.phase.target <= |s.poll|)
          && ((u.phase.Setting? || u.phase.CheckActive?) ==> u.phase.target < |s.poll| && u.phase.target in u.remote))
    && (forall h :: 0 <= h < |s.entering| && s.entering[h] != Outside ==> s.entering[h].space < |s.version|)
    && (forall h :: 0 <= h < |s.away| && s.away[h] != Here ==> s.away[h].space < |s.version|)
    && (forall a, h :: 0 <= a < |s.active| && h in s.active[a] ==> h < |s.poll|)
  }

  /** Whether a step can be taken; a step the state does not allow is not part of any run. */
  predicate Enabled(s: State, step: Step)
    requires Shape(s)
  {
    match step
    case PollSwap(h) => h < |s.poll| && s.poll[h] == Idle
    case PollFlush(h) => h < |s.poll| && s.poll[h] == Swapped
    case PollLoad(h) => h < |s.poll| && s.poll[h] == Flushed
    case PollStore(h) => h < |s.poll| && s.poll[h].Loaded?
    // A hart walks the page table only outside the part of `poll` that follows the flush.
    case Refill(h, a) => h < |s.poll| && a < |s.version| && (s.poll[h] == Idle || s.poll[h] == Swapped)
    case Detach(h, a) => h < |s.poll| && a < |s.version|
    case ReadLock(h, a) =>
      && h < |s.poll| && a < |s.version| && s.entering[h] == Outside && s.away[h] == Here
      && !UpdateLocked(s, a) && NobodyAlone(s, a)
    case FlushForUser(h, _) => h < |s.poll| && s.entering[h].Reading?
    case Publish(h) => h < |s.poll| && s.entering[h].Ready?
    case Leave(h, a) => h < |s.poll| && a < |s.version| && s.entering[h] == Outside && s.away[h] == Here
    case LockAlone(h) =>
      && h < |s.poll| && s.away[h].Left?
      && !UpdateLocked(s, s.away[h].space) && NobodyAlone(s, s.away[h].space) && NobodyReads(s, s.away[h].space)
    case DropLock(h) => h < |s.poll| && s.away[h].Holding?
    case SeeNobody(h) => h < |s.poll| && s.away[h].Holding? && s.active[s.away[h].space] == {}
    case ChangeAlone(h) => h < |s.poll| && s.away[h].Alone?
    case FlushAlone(h) => h < |s.poll| && s.away[h].Alone?
    case Rejoin(h) => h < |s.poll| && s.away[h] != Here && (s.away[h].Alone? ==> !s.away[h].changed)
    case TakeUpdateLock(h, a) => h < |s.poll| && a < |s.version| && s.update == None
    case TakeWriteLock =>
      && s.update.Some? && s.update.value.phase == LockHeld
      && NobodyAlone(s, s.update.value.space) && NobodyReads(s, s.update.value.space)
    case ChangePageTable => s.update.Some? && s.update.value.phase.Updating?
    case Abandon => s.update.Some? && s.update.value.phase == Updating(false)
    case LocalFlush => s.update.Some? && s.update.value.phase.Updating?
    case LoadMask => s.update.Some? && s.update.value.phase == ReadMask
    case AddSequence => s.update.Some? && s.update.value.phase.Adding?
    case SetPending => s.update.Some? && s.update.value.phase.Setting?
    case WakeTarget => s.update.Some? && s.update.value.phase.Waking?
    case LoadAck => s.update.Some? && s.update.value.phase.CheckAck?
    case LoadActive => s.update.Some? && s.update.value.phase.CheckActive?
    case Release => s.update.Some? && s.update.value.phase == Returned
  }

  function At(s: State, phase: Phase): State
    requires s.update.Some?
  {
    s.(update := Some(s.update.value.(phase := phase)))
  }

  // Steps by the part of the code they belong to.

  /** `poll`, and the refills around it. */
  predicate Polling(step: Step) {
    step.PollSwap? || step.PollFlush? || step.PollLoad? || step.PollStore? || step.Refill?
  }

  /** `activate_for_user`, and a context switch away. */
  predicate EnteringStep(step: Step) {
    step.Detach? || step.ReadLock? || step.FlushForUser? || step.Publish?
  }

  /** An operation under the write lock alone, and the way back. */
  predicate AwayStep(step: Step) {
    || step.Leave? || step.LockAlone? || step.DropLock? || step.SeeNobody?
    || step.ChangeAlone? || step.FlushAlone? || step.Rejoin?
  }

  /** The update up to its mask, and its end. */
  predicate LockingStep(step: Step) {
    || step.TakeUpdateLock? || step.TakeWriteLock? || step.ChangePageTable? || step.Abandon?
    || step.LocalFlush? || step.LoadMask? || step.Release?
  }

  /** The three loops of `shootdown`. */
  predicate SendingStep(step: Step) {
    step.AddSequence? || step.SetPending? || step.WakeTarget? || step.LoadAck? || step.LoadActive?
  }

  function PollEffect(s: State, step: Step): State
    requires Shape(s) && Polling(step) && Enabled(s, step)
  {
    match step
    case PollSwap(h) =>
      var m := s.mail[h];
      if m.pending then s.(mail := s.mail[h := m.(pending := false)], poll := s.poll[h := Swapped]) else s
    case PollFlush(h) => s.(tlb := s.tlb[h := {}], poll := s.poll[h := Flushed])
    case PollLoad(h) => s.(poll := s.poll[h := Loaded(s.mail[h].sequence)])
    case PollStore(h) =>
      s.(mail := s.mail[h := s.mail[h].(acknowledged := s.poll[h].sequence)], poll := s.poll[h := Idle])
    case Refill(h, a) => s.(tlb := s.tlb[h := s.tlb[h] + {Entry(a, s.version[a])}])
  }

  function EnterEffect(s: State, step: Step): State
    requires Shape(s) && EnteringStep(step) && Enabled(s, step)
  {
    match step
    case Detach(h, a) => s.(active := s.active[a := s.active[a] - {h}])
    case ReadLock(h, a) => s.(entering := s.entering[h := Reading(a)])
    // `always` is whether installing the page table flushes by itself.
    case FlushForUser(h, always) =>
      var a := s.entering[h].space;
      if h in s.active[a] && !always then s.(entering := s.entering[h := Ready(a)])
      else s.(tlb := s.tlb[h := {}], entering := s.entering[h := Ready(a)])
    case Publish(h) =>
      var a := s.entering[h].space;
      s.(active := s.active[a := s.active[a] + {h}], entering := s.entering[h := Outside])
  }

  function AwayEffect(s: State, step: Step): State
    requires Shape(s) && AwayStep(step) && Enabled(s, step)
  {
    match step
    case Leave(h, a) =>
      s.(active := s.active[a := s.active[a] - {h}], away := s.away[h := Left(a, h in s.active[a])])
    case LockAlone(h) => s.(away := s.away[h := Holding(s.away[h].space, s.away[h].was)])
    case DropLock(h) => s.(away := s.away[h := Left(s.away[h].space, s.away[h].was)])
    case SeeNobody(h) => s.(away := s.away[h := Alone(s.away[h].space, s.away[h].was, false)])
    case ChangeAlone(h) =>
      var w := s.away[h];
      s.(version := s.version[w.space := s.version[w.space] + 1], away := s.away[h := w.(changed := true)])
    case FlushAlone(h) => s.(tlb := s.tlb[h := {}], away := s.away[h := s.away[h].(changed := false)])
    case Rejoin(h) =>
      var w := s.away[h];
      var back := s.(away := s.away[h := Here]);
      if w.was then back.(active := s.active[w.space := s.active[w.space] + {h}]) else back
  }

  function LockEffect(s: State, step: Step): State
    requires Shape(s) && LockingStep(step) && Enabled(s, step)
  {
    match step
    case TakeUpdateLock(h, a) =>
      s.(update := Some(Update(h, a, LockHeld, {}, seq(|s.poll|, _ => 0))))
    case TakeWriteLock => At(s, Updating(false))
    case ChangePageTable =>
      var a := s.update.value.space;
      At(s.(version := s.version[a := s.version[a] + 1]), Updating(true))
    case Abandon => s.(update := None)
    case LocalFlush => At(s.(tlb := s.tlb[s.update.value.hart := {}]), ReadMask)
    case LoadMask =>
      var u := s.update.value;
      var remote := s.active[u.space] - {u.hart};
      s.(update := Some(u.(remote := remote, phase := if remote == {} then Returned else Adding(0))))
    case Release => s.(update := None)
  }

  function SendEffect(s: State, step: Step): State
    requires Shape(s) && SendingStep(step) && Enabled(s, step)
  {
    match step
    case AddSequence =>
      var u := s.update.value;
      var t := u.phase.target;
      if t == |s.poll| then At(s, Waking(0))
      else if t !in u.remote then At(s, Adding(t + 1))
      else
        var next := s.mail[t].sequence + 1;
        s.(mail := s.mail[t := s.mail[t].(sequence := next)],
           update := Some(u.(phase := Setting(t), sequences := u.sequences[t := next])))
    case SetPending =>
      var t := s.update.value.phase.target;
      At(s.(mail := s.mail[t := s.mail[t].(pending := true)]), Adding(t + 1))
    case WakeTarget =>
      var t := s.update.value.phase.target;
      At(s, if t == |s.poll| then CheckAck(0) else Waking(t + 1))
    case LoadAck =>
      var u := s.update.value;
      var t := u.phase.target;
      if t == |s.poll| then At(s, Returned)
      else if t !in u.remote || s.mail[t].acknowledged == u.sequences[t] then At(s, CheckAck(t + 1))
      else At(s, CheckActive(t))
    case LoadActive =>
      var u := s.update.value;
      var t := u.phase.target;
      At(s, CheckAck(if t in s.active[u.space] then t else t + 1))
  }

  /** The effect of one atomic step. */
  function Do(s: State, step: Step): State
    requires Shape(s) && Enabled(s, step)
  {
    if Polling(step) then PollEffect(s, step)
    else if EnteringStep(step) then EnterEffect(s, step)
    else if AwayStep(step) then AwayEffect(s, step)
    else if LockingStep(step) then LockEffect(s, step)
    else SendEffect(s, step)
  }

  predicate Init(s: State) {
    && Shape(s) && s.update == None
    && (forall h :: 0 <= h < |s.poll| ==>
          && s.poll[h] == Idle && s.tlb[h] == {} && s.entering[h] == Outside && s.away[h] == Here
          && s.mail[h] == Mailbox(false, 0, 0))
    && (forall a :: 0 <= a < |s.active| ==> s.active[a] == {})
  }

  /** `after` is reached from `before` by taking `steps` in order. */
  ghost predicate Run(before: State, steps: seq<Step>, after: State)
    decreases |steps|
  {
    if steps == [] then before == after
    else Shape(before) && Enabled(before, steps[0]) && Run(Do(before, steps[0]), steps[1..], after)
  }

  // ------------------------------------------------------------ what every run keeps

  /** No cached translation of `a` on `h` is older than the page table. */
  predicate Fresh(s: State, h: nat, a: nat)
    requires h < |s.tlb| && a < |s.version|
  {
    forall e :: e in s.tlb[h] && e.space == a ==> e.version == s.version[a]
  }

  /** Between its flush and its acknowledgement a hart caches nothing. */
  predicate PollsSound(s: State)
    requires Shape(s)
  {
    forall h :: 0 <= h < |s.poll| ==>
      && s.mail[h].acknowledged <= s.mail[h].sequence
      && (s.poll[h] == Flushed || s.poll[h].Loaded? ==> s.tlb[h] == {})
      && (s.poll[h].Loaded? ==> s.mail[h].acknowledged <= s.poll[h].sequence <= s.mail[h].sequence)
  }

  /** One writer of a space, or readers. */
  predicate LocksSound(s: State)
    requires Shape(s)
  {
    && (forall h :: 0 <= h < |s.entering| && s.entering[h] != Outside ==> !UpdateLocked(s, s.entering[h].space))
    && (forall h :: 0 <= h < |s.away| && HasLock(s.away[h]) ==>
          !UpdateLocked(s, s.away[h].space) && NobodyReads(s, s.away[h].space))
    && (forall h, k :: 0 <= h < k < |s.away| && HasLock(s.away[h]) && HasLock(s.away[k]) ==>
          s.away[h].space != s.away[k].space)
  }

  /** The sequence number of target `t` has been advanced. */
  predicate Added(u: Update, t: nat) {
    t in u.remote &&
    match u.phase
    case Adding(k) => t < k
    case Setting(k) => t <= k
    case Waking(_) => true
    case CheckAck(_) => true
    case CheckActive(_) => true
    case _ => false
  }

  /** The request for target `t` has been posted. */
  predicate Armed(u: Update, t: nat) {
    Added(u, t) && u.phase != Setting(t)
  }

  predicate MaskLoaded(u: Update) {
    !(u.phase == LockHeld || u.phase.Updating? || u.phase == ReadMask)
  }

  /** The wait for target `t` is over. */
  predicate Waited(u: Update, t: nat) {
    t in u.remote &&
    match u.phase
    case CheckAck(k) => t < k
    case CheckActive(k) => t < k
    case Returned => true
    case _ => false
  }

  /** A posted request that is not acknowledged is pending or is being served. */
  predicate NotLost(s: State, t: nat, sequence: nat)
    requires t < |s.mail| == |s.poll|
  {
    || s.mail[t].acknowledged == sequence || s.mail[t].pending
    || s.poll[t] == Swapped || s.poll[t] == Flushed || s.poll[t] == Loaded(sequence)
  }

  /** Requests are neither lost nor acknowledged before a flush, and the sender has flushed itself. */
  ghost predicate MailSound(s: State)
    requires Shape(s)
  {
    s.update.Some? ==>
      var u := s.update.value;
      && (u.phase == ReadMask || MaskLoaded(u) ==> Fresh(s, u.hart, u.space))
      && (forall t: nat :: Added(u, t) ==>
            && s.mail[t].sequence == u.sequences[t]
            && (s.mail[t].acknowledged == u.sequences[t] ==> Fresh(s, t, u.space)))
      && (forall t: nat :: Armed(u, t) ==> NotLost(s, t, u.sequences[t]))
  }

  ghost predicate Base(s: State) {
    Shape(s) && PollsSound(s) && LocksSound(s) && MailSound(s)
  }

  lemma InitBase(s: State)
    requires Init(s)
    ensures Base(s)
  {
  }

  lemma PollingKeepsShape(s: State, step: Step)
    requires Shape(s) && Polling(step) && Enabled(s, step)
    ensures Shape(Do(s, step))
  {
  }

  lemma EnteringKeepsShape(s: State, step: Step)
    requires Shape(s) && EnteringStep(step) && Enabled(s, step)
    ensures Shape(Do(s, step))
  {
  }

  lemma AwayKeepsShape(s: State, step: Step)
    requires Shape(s) && AwayStep(step) && Enabled(s, step)
    ensures Shape(Do(s, step))
  {
  }

  lemma LockingKeepsShape(s: State, step: Step)
    requires Shape(s) && LockingStep(step) && Enabled(s, step)
    ensures Shape(Do(s, step))
  {
  }

  lemma SendingKeepsShape(s: State, step: Step)
    requires Shape(s) && SendingStep(step) && Enabled(s, step)
    ensures Shape(Do(s, step))
  {
  }

  lemma PollingKeepsLocks(s: State, step: Step)
    requires Shape(s) && LocksSound(s) && Polling(step) && Enabled(s, step) && Shape(Do(s, step))
    ensures LocksSound(Do(s, step))
  {
  }

  lemma EnteringKeepsLocks(s: State, step: Step)
    requires Shape(s) && LocksSound(s) && EnteringStep(step) && Enabled(s, step) && Shape(Do(s, step))
    ensures LocksSound(Do(s, step))
  {
  }

  lemma LockAloneKeepsLocks(s: State, h: nat)
    requires Shape(s) && LocksSound(s) && Enabled(s, LockAlone(h)) && Shape(Do(s, LockAlone(h)))
    ensures LocksSound(Do(s, LockAlone(h)))
  {
  }

  lemma AwayKeepsLocks(s: State, step: Step)
    requires Shape(s) && LocksSound(s) && AwayStep(step) && Enabled(s, step) && Shape(Do(s, step))
    ensures LocksSound(Do(s, step))
  {
    if step.LockAlone? {
      LockAloneKeepsLocks(s, step.hart);
    } else {
      assert forall h :: 0 <= h < |s.away| && HasLock(Do(s, step).away[h]) ==>
               HasLock(s.away[h]) && s.away[h].space == Do(s, step).away[h].space;
    }
  }

  lemma LockingKeepsLocks(s: State, step: Step)
    requires Shape(s) && LocksSound(s) && LockingStep(step) && Enabled(s, step) && Shape(Do(s, step))
    ensures LocksSound(Do(s, step))
  {
  }

  lemma SendingKeepsLocks(s: State, step: Step)
    requires Shape(s) && LocksSound(s) && SendingStep(step) && Enabled(s, step) && Shape(Do(s, step))
    ensures LocksSound(Do(s, step))
  {
  }

  lemma PollingKeepsPolls(s: State, step: Step)
    requires Shape(s) && PollsSound(s) && Polling(step) && Enabled(s, step) && Shape(Do(s, step))
    ensures PollsSound(Do(s, step))
  {
  }

  lemma EnteringKeepsPolls(s: State, step: Step)
    requires Shape(s) && PollsSound(s) && EnteringStep(step) && Enabled(s, step) && Shape(Do(s, step))
    ensures PollsSound(Do(s, step))
  {
  }

  lemma AwayKeepsPolls(s: State, step: Step)
    requires Shape(s) && PollsSound(s) && AwayStep(step) && Enabled(s, step) && Shape(Do(s, step))
    ensures PollsSound(Do(s, step))
  {
  }

  lemma LockingKeepsPolls(s: State, step: Step)
    requires Shape(s) && PollsSound(s) && LockingStep(step) && Enabled(s, step) && Shape(Do(s, step))
    ensures PollsSound(Do(s, step))
  {
  }

  lemma SendingKeepsPolls(s: State, step: Step)
    requires Shape(s) && PollsSound(s) && SendingStep(step) && Enabled(s, step) && Shape(Do(s, step))
    ensures PollsSound(Do(s, step))
  {
  }

  lemma PollingKeepsMail(s: State, step: Step)
    requires Base(s) && Polling(step) && Enabled(s, step) && Shape(Do(s, step))
    ensures MailSound(Do(s, step))
  {
  }

  lemma EnteringKeepsMail(s: State, step: Step)
    requires Base(s) && EnteringStep(step) && Enabled(s, step) && Shape(Do(s, step))
    ensures MailSound(Do(s, step))
  {
  }

  lemma AwayKeepsMail(s: State, step: Step)
    requires Base(s) && AwayStep(step) && Enabled(s, step) && Shape(Do(s, step))
    ensures MailSound(Do(s, step))
  {
  }

  lemma LockingKeepsMail(s: State, step: Step)
    requires Base(s) && LockingStep(step) && Enabled(s, step) && Shape(Do(s, step))
    ensures MailSound(Do(s, step))
  {
  }

  /** A new sequence number has not been acknowledged, since acknowledgements never run ahead. */
  lemma AddSequenceKeepsMail(s: State)
    requires Base(s) && Enabled(s, AddSequence) && Shape(Do(s, AddSequence))
    ensures MailSound(Do(s, AddSequence))
  {
  }

  lemma SetPendingKeepsMail(s: State)
    requires Base(s) && Enabled(s, SetPending) && Shape(Do(s, SetPending))
    ensures MailSound(Do(s, SetPending))
  {
  }

  lemma WaitingKeepsMail(s: State, step: Step)
    requires Base(s) && Enabled(s, step) && Shape(Do(s, step))
    requires step == WakeTarget || step == LoadAck || step == LoadActive
    ensures MailSound(Do(s, step))
  {
    assert Do(s, step) == At(s, Do(s, step).update.value.phase);
  }

  lemma SendingKeepsMail(s: State, step: Step)
    requires Base(s) && SendingStep(step) && Enabled(s, step) && Shape(Do(s, step))
    ensures MailSound(Do(s, step))
  {
    if step == AddSequence { AddSequenceKeepsMail(s); }
    else if step == SetPending { SetPendingKeepsMail(s); }
    else { WaitingKeepsMail(s, step); }
  }

  lemma StepKeepsBase(s: State, step: Step)
    requires Base(s) && Enabled(s, step)
    ensures Base(Do(s, step))
  {
    if Polling(step) {
      PollingKeepsShape(s, step);
      PollingKeepsLocks(s, step);
      PollingKeepsPolls(s, step);
      PollingKeepsMail(s, step);
    } else if EnteringStep(step) {
      EnteringKeepsShape(s, step);
      EnteringKeepsLocks(s, step);
      EnteringKeepsPolls(s, step);
      EnteringKeepsMail(s, step);
    } else if AwayStep(step) {
      AwayKeepsShape(s, step);
      AwayKeepsLocks(s, step);
      AwayKeepsPolls(s, step);
      AwayKeepsMail(s, step);
    } else if LockingStep(step) {
      LockingKeepsShape(s, step);
      LockingKeepsLocks(s, step);
      LockingKeepsPolls(s, step);
      LockingKeepsMail(s, step);
    } else {
      SendingKeepsShape(s, step);
      SendingKeepsLocks(s, step);
      SendingKeepsPolls(s, step);
      SendingKeepsMail(s, step);
    }
  }

  lemma {:induction false} RunKeepsBase(before: State, steps: seq<Step>, after: State)
    requires Base(before) && Run(before, steps, after)
    ensures Base(after)
    decreases |steps|
  {
    if steps != [] {
      StepKeepsBase(before, steps[0]);
      RunKeepsBase(Do(before, steps[0]), steps[1..], after);
    }
  }

  // ------------------------------------------------------------ what one hart sees of one space

  /** The page table of `a` has changed and the shootdown has not returned. */
  predicate Dirty(s: State, a: nat) {
    && UpdateLocked(s, a)
    && s.update.value.phase != Returned && s.update.value.phase != Updating(false)
  }

  /** The update will still flush `h`: its mask is not loaded yet, or it is waiting for `h`. */
  predicate WillFlush(u: Update, h: nat) {
    u.phase == Updating(true) || u.phase == ReadMask || (MaskLoaded(u) && h in u.remote && !Waited(u, h))
  }

  predicate InRange(s: State, h: nat, a: nat) { Shape(s) && h < |s.tlb| && a < |s.version| }

  /** Outside an unfinished update an active hart sees the current page table. */
  predicate Sees(s: State, h: nat, a: nat)
    requires InRange(s, h, a)
  {
    h in s.active[a] && !Dirty(s, a) ==> Fresh(s, h, a)
  }

  /** Once the mask is loaded, an active hart is up to date or will be waited for. */
  predicate Covered(s: State, h: nat, a: nat)
    requires InRange(s, h, a)
  {
    UpdateLocked(s, a) && MaskLoaded(s.update.value) && h in s.active[a] ==>
      WillFlush(s.update.value, h) || Fresh(s, h, a)
  }

  /** A hart about to become active is up to date, and does not do so behind one that found the mask empty. */
  predicate EntersSound(s: State, h: nat, a: nat)
    requires InRange(s, h, a)
  {
    && (s.entering[h] == Ready(a) ==> Fresh(s, h, a))
    && (forall k :: 0 <= k < |s.away| && s.away[k].Alone? && s.away[k].space == a ==> h !in s.active[a])
  }

  predicate Current(s: State, h: nat, a: nat)
    requires InRange(s, h, a)
  {
    Sees(s, h, a) && Covered(s, h, a) && EntersSound(s, h, a)
  }

  /** The hart sets its active bit of the space again, without a flush. */
  predicate ComesBack(s: State, step: Step, h: nat, a: nat)
    requires Shape(s) && Enabled(s, step)
  {
    step == Rejoin(h) && s.away[h].was && s.away[h].space == a
  }

  /** Its translations of the space are current or about to be flushed. */
  predicate FreshOrFlushed(s: State, h: nat, a: nat)
    requires InRange(s, h, a)
  {
    Fresh(s, h, a) || (UpdateLocked(s, a) && WillFlush(s.update.value, h))
  }

  /** When a hart may do that: nobody else relies on an empty mask, and its translations are taken care of. */
  predicate Allowed(s: State, h: nat)
    requires Shape(s) && h < |s.away| && s.away[h] != Here
  {
    var a := s.away[h].space;
    s.away[h].was ==>
      && (forall k :: 0 <= k < |s.away| && k != h && s.away[k].Alone? ==> s.away[k].space != a)
      && FreshOrFlushed(s, h, a)
  }

  /** Only the hart's own way back into the space is restricted. */
  predicate Careful(s: State, step: Step, h: nat, a: nat)
    requires Shape(s) && Enabled(s, step)
  {
    ComesBack(s, step, h, a) ==> Allowed(s, h)
  }

  /** Nor does it come back, with an old translation, after the update of the space has loaded its mask. */
  predicate InTime(s: State, step: Step, h: nat, a: nat)
    requires InRange(s, h, a) && Enabled(s, step)
  {
    ComesBack(s, step, h, a) && UpdateLocked(s, a) && MaskLoaded(s.update.value) ==> FreshOrFlushed(s, h, a)
  }

  // Every step keeps the coverage of a hart that comes back in time.

  lemma PollingKeepsCovered(s: State, step: Step, h: nat, a: nat)
    requires Base(s) && InRange(s, h, a) && Covered(s, h, a)
    requires Polling(step) && Enabled(s, step) && InRange(Do(s, step), h, a)
    ensures Covered(Do(s, step), h, a)
  {
  }

  lemma EnteringKeepsCovered(s: State, step: Step, h: nat, a: nat)
    requires Base(s) && InRange(s, h, a) && Covered(s, h, a)
    requires EnteringStep(step) && Enabled(s, step) && InRange(Do(s, step), h, a)
    ensures Covered(Do(s, step), h, a)
  {
  }

  lemma AwayKeepsCovered(s: State, step: Step, h: nat, a: nat)
    requires Base(s) && InRange(s, h, a) && Covered(s, h, a)
    requires AwayStep(step) && Enabled(s, step) && InRange(Do(s, step), h, a) && InTime(s, step, h, a)
    ensures Covered(Do(s, step), h, a)
  {
  }

  /** The mask names every other active hart, and the sender has flushed itself. */
  lemma LockingKeepsCovered(s: State, step: Step, h: nat, a: nat)
    requires Base(s) && InRange(s, h, a) && Covered(s, h, a)
    requires LockingStep(step) && Enabled(s, step) && InRange(Do(s, step), h, a)
    ensures Covered(Do(s, step), h, a)
  {
    if step == LoadMask && s.update.value.space == a && h in s.active[a] && h != s.update.value.hart {
      assert h in s.active[a] - {s.update.value.hart};
    }
  }

  /** A target is passed over once it is inactive or has acknowledged, which it does after a flush. */
  lemma SendingKeepsCovered(s: State, step: Step, h: nat, a: nat)
    requires Base(s) && InRange(s, h, a) && Covered(s, h, a)
    requires SendingStep(step) && Enabled(s, step) && InRange(Do(s, step), h, a)
    ensures Covered(Do(s, step), h, a)
  {
  }

  lemma StepKeepsRange(s: State, step: Step, h: nat, a: nat)
    requires InRange(s, h, a) && Enabled(s, step) && Shape(Do(s, step))
    ensures InRange(Do(s, step), h, a)
  {
  }

  lemma {:induction false} StepKeepsCovered(s: State, step: Step, h: nat, a: nat)
    requires Base(s) && InRange(s, h, a) && Covered(s, h, a) && Enabled(s, step) && InTime(s, step, h, a)
    ensures Base(Do(s, step)) && InRange(Do(s, step), h, a) && Covered(Do(s, step), h, a)
  {
    StepKeepsBase(s, step);
    StepKeepsRange(s, step, h, a);
    if Polling(step) { PollingKeepsCovered(s, step, h, a); }
    else if EnteringStep(step) { EnteringKeepsCovered(s, step, h, a); }
    else if AwayStep(step) { AwayKeepsCovered(s, step, h, a); }
    else if LockingStep(step) { LockingKeepsCovered(s, step, h, a); }
    else { SendingKeepsCovered(s, step, h, a); }
  }

  // Every step keeps the rest for a hart that comes back only when allowed.

  lemma PollingKeepsSight(s: State, step: Step, h: nat, a: nat)
    requires Base(s) && InRange(s, h, a) && Current(s, h, a)
    requires Polling(step) && Enabled(s, step) && InRange(Do(s, step), h, a)
    ensures Sees(Do(s, step), h, a) && EntersSound(Do(s, step), h, a)
  {
  }

  lemma EnteringKeepsSight(s: State, step: Step, h: nat, a: nat)
    requires Base(s) && InRange(s, h, a) && Current(s, h, a)
    requires EnteringStep(step) && Enabled(s, step) && InRange(Do(s, step), h, a)
    ensures Sees(Do(s, step), h, a) && EntersSound(Do(s, step), h, a)
  {
  }

  lemma RejoinKeepsSight(s: State, k: nat, h: nat, a: nat)
    requires Base(s) && InRange(s, h, a) && Current(s, h, a)
    requires Enabled(s, Rejoin(k)) && InRange(Do(s, Rejoin(k)), h, a) && Careful(s, Rejoin(k), h, a)
    ensures Sees(Do(s, Rejoin(k)), h, a) && EntersSound(Do(s, Rejoin(k)), h, a)
  {
    var after := Do(s, Rejoin(k));
    assert after.tlb == s.tlb && after.version == s.version && after.update == s.update && after.entering == s.entering;
    if k != h || !ComesBack(s, Rejoin(k), h, a) {
      assert h in after.active[a] <==> h in s.active[a];
    }
  }

  /** A page table that is changed alone is one the hart is not active in, nor about to be. */
  lemma ChangeAloneKeepsSight(s: State, k: nat, h: nat, a: nat)
    requires Base(s) && InRange(s, h, a) && Current(s, h, a)
    requires Enabled(s, ChangeAlone(k)) && InRange(Do(s, ChangeAlone(k)), h, a)
    ensures Sees(Do(s, ChangeAlone(k)), h, a) && EntersSound(Do(s, ChangeAlone(k)), h, a)
  {
    if s.away[k].space == a { assert NobodyReads(s, a); }
  }

  lemma LeavingKeepsSight(s: State, step: Step, h: nat, a: nat)
    requires Base(s) && InRange(s, h, a) && Current(s, h, a)
    requires step.Leave? || step.LockAlone? || step.DropLock? || step.SeeNobody? || step.FlushAlone?
    requires Enabled(s, step) && InRange(Do(s, step), h, a)
    ensures Sees(Do(s, step), h, a) && EntersSound(Do(s, step), h, a)
  {
    var after := Do(s, step);
    assert after.version == s.version && after.update == s.update && after.entering == s.entering;
  }

  lemma AwayKeepsSight(s: State, step: Step, h: nat, a: nat)
    requires Base(s) && InRange(s, h, a) && Current(s, h, a)
    requires AwayStep(step) && Enabled(s, step) && InRange(Do(s, step), h, a) && Careful(s, step, h, a)
    ensures Sees(Do(s, step), h, a) && EntersSound(Do(s, step), h, a)
  {
    if step.Rejoin? { RejoinKeepsSight(s, step.hart, h, a); }
    else if step.ChangeAlone? { ChangeAloneKeepsSight(s, step.hart, h, a); }
    else { LeavingKeepsSight(s, step, h, a); }
  }

  lemma LockingKeepsSight(s: State, step: Step, h: nat, a: nat)
    requires Base(s) && InRange(s, h, a) && Current(s, h, a)
    requires LockingStep(step) && Enabled(s, step) && InRange(Do(s, step), h, a) && Covered(Do(s, step), h, a)
    ensures Sees(Do(s, step), h, a) && EntersSound(Do(s, step), h, a)
  {
  }

  lemma SendingKeepsSight(s: State, step: Step, h: nat, a: nat)
    requires Base(s) && InRange(s, h, a) && Current(s, h, a)
    requires SendingStep(step) && Enabled(s, step) && InRange(Do(s, step), h, a) && Covered(Do(s, step), h, a)
    ensures Sees(Do(s, step), h, a) && EntersSound(Do(s, step), h, a)
  {
  }

  lemma {:induction false} StepKeepsCurrent(s: State, step: Step, h: nat, a: nat)
    requires Base(s) && InRange(s, h, a) && Current(s, h, a) && Enabled(s, step) && Careful(s, step, h, a)
    ensures Base(Do(s, step)) && InRange(Do(s, step), h, a) && Current(Do(s, step), h, a)
  {
    StepKeepsCovered(s, step, h, a);
    if Polling(step) { PollingKeepsSight(s, step, h, a); }
    else if EnteringStep(step) { EnteringKeepsSight(s, step, h, a); }
    else if AwayStep(step) { AwayKeepsSight(s, step, h, a); }
    else if LockingStep(step) { LockingKeepsSight(s, step, h, a); }
    else { SendingKeepsSight(s, step, h, a); }
  }

  lemma InitCurrent(s: State, h: nat, a: nat)
    requires Init(s) && InRange(s, h, a)
    ensures Base(s) && Current(s, h, a)
  {
    InitBase(s);
  }
}
