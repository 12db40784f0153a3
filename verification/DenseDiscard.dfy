/**
  Discarding a whole-file cache entry. A write past the size limit or into a hole,
  a truncation and a rename write the entry back and then take it out of the table
  without claiming it, so a thread may write between the two, or keep writing
  through the entry it looked up before.
 */
module DenseDiscard {
  import opened Basics
  import opened ByteFile
  import opened DenseCache
  import opened DenseProtocol

  /** However a run goes on after the removal, the file at `p` is what the acknowledged writes make of it. */
  ghost predicate DropLosesNothing(s: State, p: Path)
    requires Shape(s) && Enabled(s, Drop)
  {
    forall steps: seq<Step>, after: State ::
      Run(Do(s, Drop), steps, after) && CarefulRun(Do(s, Drop), steps, p) && RegularRun(Do(s, Drop), steps, p) ==>
        Shape(after) && View(after, p) == PlainFile(View(s, p), Do(s, Drop), steps, p)
  }

  /** A clean entry has its bytes on disk. */
  lemma CleanIsStored(s: State)
    requires Base(s) && Enabled(s, Drop) && !s.caches[s.agent.job.id].modified
    ensures Stored(s)
  {
  }

  /** The bytes that are only in the entry are gone with it. */
  lemma UnstoredIsLost(s: State)
    requires Base(s) && Enabled(s, Drop) && Base(Do(s, Drop)) && !Stored(s)
    ensures !DropLosesNothing(s, s.agent.job.path)
  {
    var s', p := Do(s, Drop), s.agent.job.path;
    assert Run(s', [], s') && CarefulRun(s', [], p) && RegularRun(s', [], p);
    DropView(s, p);
    assert View(s', p) != PlainFile(View(s, p), s', [], p);
  }

  /** A thread that still holds the dropped entry is acknowledged a write nobody will see. */
  lemma HeldWriteIsAccepted(s: State, t: nat, b: byte)
    requires Base(s) && Enabled(s, Drop) && Base(Do(s, Drop))
    requires t < |s.threads| && s.threads[t].Holding? && s.threads[t].id == s.agent.job.id
    ensures Enabled(Do(s, Drop), WriteThrough(t, 0, [b]))
    ensures Accepted(Do(s, Drop), WriteThrough(t, 0, [b])) == Some(Write(s.agent.job.path, 0, [b]))
    ensures s.agent.job.path !in Do(s, Drop).table
  {
    assert !s.caches[s.agent.job.id].evicting;
  }

  lemma HeldIsLost(s: State, t: nat)
    requires Base(s) && Enabled(s, Drop) && Base(Do(s, Drop)) && Stored(s)
    requires t < |s.threads| && s.threads[t].Holding? && s.threads[t].id == s.agent.job.id
    ensures !DropLosesNothing(s, s.agent.job.path)
  {
    var s', p := Do(s, Drop), s.agent.job.path;
    var file := Disk(s, p);
    var step := WriteThrough(t, 0, [OtherByte(file)]);
    HeldWriteIsAccepted(s, t, OtherByte(file));
    StepKeepsBase(s', step);
    var after := Do(s', step);
    LostStep(s', step, after, p);
    DropView(s, p);
    OtherByteDiffers(file);
    assert View(after, p) == file && Effect(file, s', step, p) != file;
  }

  /** A run of one write. */
  lemma LostStep(s: State, step: Step, after: State, p: Path)
    requires Shape(s) && step.WriteThrough? && Enabled(s, step) && after == Do(s, step) && step.buf != []
    ensures Run(s, [step], after) && CarefulRun(s, [step], p) && RegularRun(s, [step], p)
    ensures forall file :: PlainFile(file, s, [step], p) == Effect(file, s, step, p)
  {
    assert [step][1..] == [];
  }

  /**
    Dropping an entry loses nothing of its file exactly if its bytes are on disk and no
    thread holds it: what claiming the entry would have ensured. Other files lose nothing.
   */
  lemma {:induction false} DropLosesNothingIff(s: State, p: Path)
    requires Inv(s, p) && Enabled(s, Drop)
    ensures DropLosesNothing(s, p) <==> (p == s.agent.job.path ==> Stored(s) && Unheld(s))
  {
    StepKeepsBase(s, Drop);
    if p == s.agent.job.path && !Stored(s) {
      UnstoredIsLost(s);
    } else if p == s.agent.job.path && !Unheld(s) {
      var t :| 0 <= t < |s.threads| && s.threads[t].Holding? && s.threads[t].id == s.agent.job.id;
      HeldIsLost(s, t);
    } else {
      StepKeeps(s, Drop, p);
      DropView(s, p);
      forall steps: seq<Step>, after: State |
        Run(Do(s, Drop), steps, after) && CarefulRun(Do(s, Drop), steps, p) && RegularRun(Do(s, Drop), steps, p)
        ensures Shape(after) && View(after, p) == PlainFile(View(s, p), Do(s, Drop), steps, p)
      {
        ViewFollowsWrites(Do(s, Drop), steps, after, p);
      }
    }
  }

  // ------------------------------------------------------------ runs that lose a write

  /** One more step in front of a run. */
  lemma RunFront(s: State, step: Step, rest: seq<Step>, after: State, file: seq<byte>, p: Path)
    requires Shape(s) && Enabled(s, step) && Regular(s, step, p)
    requires Run(Do(s, step), rest, after) && RegularRun(Do(s, step), rest, p)
    ensures Run(s, [step] + rest, after) && RegularRun(s, [step] + rest, p)
    ensures PlainFile(file, s, [step] + rest, p) == PlainFile(Effect(file, s, step, p), Do(s, step), rest, p)
  {
    assert ([step] + rest)[0] == step && ([step] + rest)[1..] == rest;
  }

  /** One more step that writes nothing. */
  lemma QuietFront(s: State, step: Step, s': State, rest: seq<Step>, after: State, file: seq<byte>, p: Path)
    requires Shape(s) && Enabled(s, step) && s' == Do(s, step) && !step.WriteThrough? && !step.DirectWrite?
    requires Run(s', rest, after) && RegularRun(s', rest, p)
    ensures Run(s, [step] + rest, after) && RegularRun(s, [step] + rest, p)
    ensures PlainFile(file, s, [step] + rest, p) == PlainFile(file, s', rest, p)
  {
    RunFront(s, step, rest, after, file, p);
  }

  /** The agent discards a clean entry: it starts, finds nothing to write, unlists and drops it. */
  lemma DiscardBegins(s: State, p: Path)
    requires Base(s) && s.agent == Free && p in s.table && !s.caches[s.table[p]].modified
    ensures Enabled(s, BeginDiscard(p)) && Base(Do(s, BeginDiscard(p)))
    ensures Enabled(Do(s, BeginDiscard(p)), TakeSnapshot(true))
    ensures Do(Do(s, BeginDiscard(p)), TakeSnapshot(true)) == s.(agent := Unlisting(Job(p, s.table[p], Discard)))
  {
    StepKeepsBase(s, BeginDiscard(p));
    assert s.(agent := Snapshotting(Job(p, s.table[p], Discard))) == Do(s, BeginDiscard(p));
  }

  /** Unlisting and dropping leave the file as it is on disk. */
  lemma DiscardEnds(s: State, p: Path) returns (after: State)
    requires Base(s) && s.agent.Unlisting? && s.agent.job.path == p
    ensures Run(s, [Unlist, Drop], after) && RegularRun(s, [Unlist, Drop], p) && Shape(after)
    ensures View(after, p) == Disk(s, p)
    ensures forall file :: PlainFile(file, s, [Unlist, Drop], p) == file
  {
    StepKeepsBase(s, Unlist);
    var s1 := Do(s, Unlist);
    StepKeepsBase(s1, Drop);
    after := Do(s1, Drop);
    assert Run(after, [], after) && RegularRun(after, [], p);
    forall file ensures PlainFile(file, s, [Unlist, Drop], p) == file {
      QuietFront(s1, Drop, after, [], after, file, p);
      assert [Drop] + [] == [Drop];
      QuietFront(s, Unlist, s1, [Drop], after, file, p);
      assert [Unlist] + [Drop] == [Unlist, Drop];
    }
  }

  /** A write that arrives once the agent has found the entry clean is acknowledged and lost. */
  lemma {:induction false} LateWriteIsLost(s: State, t: nat, p: Path, b: byte) returns (after: State)
    requires Base(s) && s.agent.Unlisting? && s.agent.job == Job(p, s.agent.job.id, Discard)
    requires t < |s.threads| && s.threads[t] == Holding(p, s.agent.job.id)
    ensures Run(s, [WriteThrough(t, 0, [b]), Unlist, Drop], after) && Shape(after)
    ensures RegularRun(s, [WriteThrough(t, 0, [b]), Unlist, Drop], p)
    ensures View(after, p) == Disk(s, p)
    ensures PlainFile(Disk(s, p), s, [WriteThrough(t, 0, [b]), Unlist, Drop], p) == PWrite(Disk(s, p), 0, [b])
  {
    var step := WriteThrough(t, 0, [b]);
    StepKeepsBase(s, step);
    assert !s.caches[s.agent.job.id].evicting;
    assert Effect(Disk(s, p), s, step, p) == PWrite(Disk(s, p), 0, [b]);
    after := DiscardEnds(Do(s, step), p);
    RunFront(s, step, [Unlist, Drop], after, Disk(s, p), p);
    assert [step] + [Unlist, Drop] == [step, Unlist, Drop];
  }

  /**
    Whenever a thread holds the clean entry of a file and the agent is free, a
    discard of that file can lose the thread's next write.
   */
  lemma {:induction false} DiscardCanLoseWrite(s: State, t: nat, p: Path) returns (steps: seq<Step>, after: State)
    requires Base(s) && s.agent == Free && p in s.table && !s.caches[s.table[p]].modified
    requires t < |s.threads| && s.threads[t] == Holding(p, s.table[p])
    ensures Run(s, steps, after) && RegularRun(s, steps, p) && Shape(after)
    ensures View(after, p) != PlainFile(View(s, p), s, steps, p)
  {
    var b := OtherByte(Disk(s, p));
    OtherByteDiffers(Disk(s, p));
    DiscardBegins(s, p);
    var s1 := Do(s, BeginDiscard(p));
    StepKeepsBase(s1, TakeSnapshot(true));
    var s2 := Do(s1, TakeSnapshot(true));
    var rest := [WriteThrough(t, 0, [b]), Unlist, Drop];
    after := LateWriteIsLost(s2, t, p, b);
    QuietFront(s1, TakeSnapshot(true), s2, rest, after, Disk(s, p), p);
    QuietFront(s, BeginDiscard(p), s1, [TakeSnapshot(true)] + rest, after, Disk(s, p), p);
    steps := [BeginDiscard(p)] + ([TakeSnapshot(true)] + rest);
  }

  /** The states in which a file has been loaded, its entry inserted, and looked up by the first thread. */
  lemma {:induction false} EntryLookedUp(start: State, load: Step, p: Path) returns (s1: State, s2: State, s3: State)
    requires Init(start) && start.threads != [] && load.BeginLoad? && load.path == p && load.pinned
    requires Enabled(start, load)
    ensures Base(start) && Base(s1) && Base(s2) && Base(s3)
    ensures s1 == Do(start, load) && Enabled(s1, Insert) && s2 == Do(s1, Insert)
    ensures Enabled(s2, LookUp(0, p)) && s3 == Do(s2, LookUp(0, p))
    ensures s3.agent == Free && p in s3.table && !s3.caches[s3.table[p]].modified && View(s3, p) == Disk(start, p)
    ensures s3.threads != [] && s3.threads[0] == Holding(p, s3.table[p])
  {
    InitInv(start, p);
    StepKeepsBase(start, load);
    s1 := Do(start, load);
    StepKeepsBase(s1, Insert);
    s2 := Do(s1, Insert);
    StepKeepsBase(s2, LookUp(0, p));
    s3 := Do(s2, LookUp(0, p));
  }

  /** From any start a thread that has just looked a file up can lose its first write. */
  lemma {:induction false} FirstWriteCanBeLost(start: State, p: Path) returns (steps: seq<Step>, after: State)
    requires Init(start) && start.threads != [] && |Disk(start, p)| <= MAX_CACHED_FILE_SIZE
    ensures Run(start, steps, after) && RegularRun(start, steps, p) && Shape(after)
    ensures View(after, p) != PlainFile(Disk(start, p), start, steps, p)
  {
    var file := Disk(start, p);
    var load := BeginLoad(p, true, Zeros(AlignedDown(|file|) + PAGE_SIZE - |file|));
    var s1, s2, s3 := EntryLookedUp(start, load, p);
    var rest;
    rest, after := DiscardCanLoseWrite(s3, 0, p);
    QuietFront(s2, LookUp(0, p), s3, rest, after, file, p);
    QuietFront(s1, Insert, s2, [LookUp(0, p)] + rest, after, file, p);
    QuietFront(start, load, s1, [Insert] + ([LookUp(0, p)] + rest), after, file, p);
    steps := [load] + ([Insert] + ([LookUp(0, p)] + rest));
  }
}
