/**
  What holds of every mount table that any sequence of mounts, moves, remounts,
  propagation changes and unmounts can produce.
 */
module MountTheorems {
  import opened Basics
  import opened MountPaths
  import opened MountPropagation
  import opened MountOps

  // ------------------------------------------------------------ the invariant

  predicate Older(group: Option<nat>, nextGroup: nat) { group.Some? ==> group.value < nextGroup }

  /** Every identifier in an entry was handed out before. */
  predicate Dated(e: Entry, nextGroup: nat) {
    1 <= e.eventGroup < nextGroup && Older(e.sharedGroup, nextGroup) && Older(e.masterGroup, nextGroup)
  }

  predicate AllDated(list: seq<Entry>, nextGroup: nat) {
    forall i :: 0 <= i < |list| ==> Dated(list[i], nextGroup)
  }

  predicate Valid(t: Table) { |t.list| <= MNT_MAXLEN && 1 <= t.nextGroup && AllDated(t.list, t.nextGroup) }

  datatype Op = MountOp(req: Request) | UmountOp(dir: string)

  function Apply(t: Table, op: Op): Table {
    match op
    case MountOp(req) => AfterMount(t, req).table
    case UmountOp(dir) => AfterUmount(t, dir).1
  }

  function Replay(t: Table, ops: seq<Op>): Table
    decreases |ops|
  {
    if ops == [] then t else Replay(Apply(t, ops[0]), ops[1..])
  }

  lemma {:induction false} WithoutIs(list: seq<Entry>, event: nat)
    ensures |Without(list, event)| <= |list|
    ensures forall e :: e in Without(list, event) <==> e in list && e.eventGroup != event
  {
    if list != [] {
      WithoutIs(list[..|list| - 1], event);
      assert list == list[..|list| - 1] + [list[|list| - 1]];
    }
  }

  lemma {:induction false} SubtreeIs(list: seq<Entry>, source: string)
    ensures forall e :: e in Subtree(list, source) <==> e in list && AtOrBelow(e.dir, source)
  {
    if list != [] {
      SubtreeIs(list[..|list| - 1], source);
      assert list == list[..|list| - 1] + [list[|list| - 1]];
    }
  }

  lemma OneMore(a: nat, b: nat)
    ensures a * (b + 1) == a * b + a
  {
  }

  lemma {:induction false} CopiesCount(list: seq<Entry>, subtree: seq<Entry>, source: string, targets: seq<Target>)
    requires targets != []
    ensures |Copies(list, subtree, source, targets)| == |subtree| * (|targets| - 1)
    decreases |targets|
  {
    if |targets| > 1 {
      CopiesCount(list, subtree, source, targets[..|targets| - 1]);
      OneMore(|subtree|, |targets| - 2);
    }
  }

  lemma {:induction false} CopiesDated(list: seq<Entry>, subtree: seq<Entry>, source: string, targets: seq<Target>,
                                       next: nat)
    requires AllDated(list, next) && AllDated(subtree, next)
    ensures AllDated(Copies(list, subtree, source, targets), next)
    decreases |targets|
  {
    if |targets| > 1 {
      var last := targets[|targets| - 1];
      CopiesDated(list, subtree, source, targets[..|targets| - 1], next);
      TreeDated(subtree, source, last.path, ReceiverOf(list, last), next);
      AppendDated(Copies(list, subtree, source, targets[..|targets| - 1]),
                  CopyTree(subtree, source, last.path, ReceiverOf(list, last)), next);
    }
  }

  lemma RelocatedDated(e: Entry, source: string, target: string, receiver: Option<Entry>, next: nat)
    requires Dated(e, next) && (receiver.Some? ==> Dated(receiver.value, next))
    ensures Dated(Relocated(e, source, target, receiver), next)
  {
  }

  lemma {:induction false} TreeDated(subtree: seq<Entry>, source: string, target: string, receiver: Option<Entry>,
                                     next: nat)
    requires AllDated(subtree, next) && (receiver.Some? ==> Dated(receiver.value, next))
    ensures AllDated(CopyTree(subtree, source, target, receiver), next)
  {
    forall i | 0 <= i < |subtree| ensures Dated(CopyTree(subtree, source, target, receiver)[i], next) {
      RelocatedDated(subtree[i], source, target, receiver, next);
    }
  }

  lemma AppendDated(a: seq<Entry>, b: seq<Entry>, next: nat)
    requires AllDated(a, next) && AllDated(b, next)
    ensures AllDated(a + b, next)
  {
  }

  lemma {:induction false} MovedDated(list: seq<Entry>, source: string, target: string, receiver: Option<Entry>,
                                      next: nat)
    requires AllDated(list, next) && (receiver.Some? ==> Dated(receiver.value, next))
    ensures AllDated(MovedAll(list, source, target, receiver), next)
  {
    forall i | 0 <= i < |list| ensures Dated(MovedAll(list, source, target, receiver)[i], next) {
      RelocatedDated(list[i], source, target, receiver, next);
    }
  }

  lemma {:induction false} SubtreeDated(list: seq<Entry>, source: string, next: nat)
    requires AllDated(list, next)
    ensures AllDated(Subtree(list, source), next)
  {
    SubtreeIs(list, source);
    var subtree := Subtree(list, source);
    assert forall i :: 0 <= i < |subtree| ==> subtree[i] in subtree;
  }

  lemma {:induction false} MovedListDated(list: seq<Entry>, source: string, targets: seq<Target>, next: nat)
    requires AllDated(list, next) && targets != []
    ensures AllDated(MovedList(list, source, targets), next)
  {
    var subtree := Subtree(list, source);
    SubtreeDated(list, source, next);
    CopiesDated(list, subtree, source, targets, next);
    var receiver := ReceiverOf(list, targets[0]);
    MovedDated(list, source, targets[0].path, receiver, next);
    AppendDated(MovedAll(list, source, targets[0].path, receiver), Copies(list, subtree, source, targets), next);
  }

  /** A move adds exactly the entries it was charged for. */
  lemma {:induction false} MovedListLength(list: seq<Entry>, source: string, targets: seq<Target>)
    requires targets != []
    ensures |MovedList(list, source, targets)| == |list| + |Subtree(list, source)| * (|targets| - 1)
  {
    CopiesCount(list, Subtree(list, source), source, targets);
  }

  lemma {:induction false} MoveKeeps(t: Table, source: string, dir: string, targets: seq<Target>)
    requires Valid(t) && targets != []
    ensures Valid(MoveTo(t, source, dir, targets).table)
  {
    MovedListDated(t.list, source, targets, t.nextGroup);
    MovedListLength(t.list, source, targets);
  }

  lemma {:induction false} NewEntriesDated(list: seq<Entry>, req: Request, targets: seq<Target>, event: nat)
    requires AllDated(list, event) && 1 <= event
    ensures AllDated(NewEntries(list, req, targets, event), event + 1)
  {
  }

  lemma DatedLater(list: seq<Entry>, next: nat)
    requires AllDated(list, next)
    ensures AllDated(list, next + 1)
  {
  }

  lemma {:induction false} CreateKeeps(t: Table, req: Request, targets: seq<Target>)
    requires Valid(t)
    ensures Valid(CreateAt(t, req, targets).table)
  {
    NewEntriesDated(t.list, req, targets, t.nextGroup);
    DatedLater(t.list, t.nextGroup);
    AppendDated(t.list, NewEntries(t.list, req, targets, t.nextGroup), t.nextGroup + 1);
  }

  lemma {:induction false} PropagateKeeps(t: Table, dir: string, flags: set<Flag>)
    requires Valid(t)
    ensures Valid(Propagate(t, dir, flags))
  {
  }

  lemma {:induction false} MountKeeps(t: Table, req: Request)
    requires Valid(t)
    ensures Valid(AfterMount(t, req).table)
  {
    if Move in req.flags {
      MoveKeeps(t, req.special, req.dir, TargetsFor(t.list, req.dir));
    } else if PropagationOnly(req.flags) {
      PropagateKeeps(t, req.dir, req.flags);
    } else if Remount !in req.flags {
      CreateKeeps(t, req, TargetsFor(t.list, req.dir));
    }
  }

  lemma {:induction false} UmountKeeps(t: Table, dir: string)
    requires Valid(t)
    ensures Valid(AfterUmount(t, dir).1)
  {
    if TopAt(t.list, dir).Some? {
      var event := t.list[TopAt(t.list, dir).value].eventGroup;
      WithoutIs(t.list, event);
      var left := Without(t.list, event);
      assert forall i :: 0 <= i < |left| ==> left[i] in left;
    }
  }

  lemma {:induction false} ApplyKeeps(t: Table, op: Op)
    requires Valid(t)
    ensures Valid(Apply(t, op))
  {
    match op
    case MountOp(req) => MountKeeps(t, req);
    case UmountOp(dir) => UmountKeeps(t, dir);
  }

  lemma {:induction false} ReplayKeeps(t: Table, ops: seq<Op>)
    requires Valid(t)
    ensures Valid(Replay(t, ops))
    decreases |ops|
  {
    if ops != [] {
      ApplyKeeps(t, ops[0]);
      ReplayKeeps(Apply(t, ops[0]), ops[1..]);
    }
  }

  const EMPTY: Table := Table([], 1)

  /** The table never holds more than 256 mounts. */
  lemma {:induction false} NeverTooLong(ops: seq<Op>)
    ensures |Replay(EMPTY, ops).list| <= MNT_MAXLEN
  {
    ReplayKeeps(EMPTY, ops);
  }

  // ------------------------------------------------------------ mount, then umount

  lemma {:induction false} WithoutConcat(a: seq<Entry>, b: seq<Entry>, event: nat)
    ensures Without(a + b, event) == Without(a, event) + Without(b, event)
    decreases |b|
  {
    if b == [] {
      assert a + b == a;
    } else {
      assert (a + b)[..|a + b| - 1] == a + b[..|b| - 1];
      WithoutConcat(a, b[..|b| - 1], event);
    }
  }

  lemma {:induction false} WithoutNone(list: seq<Entry>, event: nat)
    requires forall i :: 0 <= i < |list| ==> list[i].eventGroup != event
    ensures Without(list, event) == list
  {
    if list != [] {
      WithoutNone(list[..|list| - 1], event);
    }
  }

  lemma {:induction false} WithoutAll(list: seq<Entry>, event: nat)
    requires forall i :: 0 <= i < |list| ==> list[i].eventGroup == event
    ensures Without(list, event) == []
  {
    if list != [] {
      WithoutAll(list[..|list| - 1], event);
    }
  }

  lemma {:induction false} AppendedIsTop(list: seq<Entry>, added: seq<Entry>, targets: seq<Target>, i: nat)
    requires DistinctPaths(targets) && |added| == |targets| && i < |targets|
    requires forall j :: 0 <= j < |added| ==> added[j].dir == targets[j].path
    ensures TopAt(list + added, targets[i].path) == Some(|list| + i)
  {
    var now := list + added;
    forall j | |list| + i < j < |now| ensures now[j].dir != targets[i].path {
      assert now[j].dir == targets[j - |list|].path;
    }
    TopAtUnique(now, targets[i].path, |list| + i);
  }

  /** Right after a mount, the new entry of every target is the visible one there. */
  lemma {:induction false} NewMountIsVisible(t: Table, req: Request, i: nat)
    requires Creates(req.flags) && AfterMount(t, req).reply.Done? && i < |TargetsFor(t.list, req.dir)|
    ensures var targets, now := TargetsFor(t.list, req.dir), AfterMount(t, req).table.list;
            TopAt(now, targets[i].path) == Some(|t.list| + i)
  {
    var targets := TargetsFor(t.list, req.dir);
    AppendedIsTop(t.list, NewEntries(t.list, req, targets, t.nextGroup), targets, i);
  }

  /**
    From every reachable table, a mount that creates something, followed by an unmount
    of any one of its targets, restores the list of mounts exactly.
   */
  lemma {:induction false} UmountUndoesMount(ops: seq<Op>, req: Request, i: nat)
    requires Creates(req.flags) && AfterMount(Replay(EMPTY, ops), req).reply.Done?
    requires i < |TargetsFor(Replay(EMPTY, ops).list, req.dir)|
    ensures var t := Replay(EMPTY, ops);
            var (found, after) := AfterUmount(AfterMount(t, req).table, TargetsFor(t.list, req.dir)[i].path);
            found && after.list == t.list
  {
    var t := Replay(EMPTY, ops);
    ReplayKeeps(EMPTY, ops);
    NewMountIsVisible(t, req, i);
    var added := NewEntries(t.list, req, TargetsFor(t.list, req.dir), t.nextGroup);
    WithoutConcat(t.list, added, t.nextGroup);
    WithoutNone(t.list, t.nextGroup);
    WithoutAll(added, t.nextGroup);
  }

  /** A path that no new target covers keeps the mount it had. */
  lemma {:induction false} OtherPathsUnaffected(t: Table, req: Request, path: string)
    requires Creates(req.flags) && AfterMount(t, req).reply.Done?
    requires var targets := TargetsFor(t.list, req.dir);
             forall i :: 0 <= i < |targets| ==> !AtOrBelow(path, targets[i].path)
    ensures TopFor(AfterMount(t, req).table.list, path) == TopFor(t.list, path)
  {
    var now, n := AfterMount(t, req).table.list, |t.list|;
    assert forall j :: 0 <= j < n ==> now[j] == t.list[j];
    assert forall j :: n <= j < |now| ==> !AtOrBelow(path, now[j].dir);
    if TopFor(t.list, path).Some? {
      var i := TopFor(t.list, path).value;
      assert forall j :: 0 <= j < n && AtOrBelow(path, t.list[j].dir) ==> Shadows(t.list, i, j);
      assert IsTopFor(now, path, i);
      TopForUnique(now, path, i);
    }
  }

  /** An unmount removes exactly the event of the visible mount, or nothing. */
  lemma {:induction false} UmountIsExact(t: Table, dir: string, e: Entry)
    ensures AfterUmount(t, dir).0 <==> exists i :: 0 <= i < |t.list| && t.list[i].dir == dir
    ensures TopAt(t.list, dir).Some? ==>
              var event := t.list[TopAt(t.list, dir).value].eventGroup;
              (e in AfterUmount(t, dir).1.list <==> e in t.list && e.eventGroup != event)
  {
    if TopAt(t.list, dir).Some? {
      WithoutIs(t.list, t.list[TopAt(t.list, dir).value].eventGroup);
    }
  }

  // ------------------------------------------------------------ what the propagation types mean

  lemma {:induction false} AppendedHear(list: seq<Entry>, added: seq<Entry>, targets: seq<Target>, i: nat, j: nat)
    requires DistinctPaths(targets) && |added| == |targets| && i < |targets| && j < |targets| && i != j
    requires forall k :: 0 <= k < |added| ==> added[k].dir == targets[k].path
    requires added[i].sharedGroup.Some? && added[i].eventGroup == added[j].eventGroup
    ensures Hears(list + added, |list| + i, |list| + j)
  {
    var now := list + added;
    assert now[|list| + i] == added[i] && now[|list| + j] == added[j];
    AppendedIsTop(list, added, targets, j);
    assert Qualifies(now, |list| + i, SameEvent, |list| + j);
  }

  lemma {:induction false} CreatedHear(t: Table, req: Request, targets: seq<Target>, i: nat, j: nat)
    requires CreateAt(t, req, targets).reply.Done? && DistinctPaths(targets)
    requires i < |targets| && j < |targets| && i != j && SharedOf(ReceiverOf(t.list, targets[i])).Some?
    ensures Hears(CreateAt(t, req, targets).table.list, |t.list| + i, |t.list| + j)
  {
    AppendedHear(t.list, NewEntries(t.list, req, targets, t.nextGroup), targets, i, j);
  }

  /**
    The copies of one mount below shared mounts keep each other informed: the next
    event at any of them reaches every other one.
   */
  lemma {:induction false} CopiesHearEachOther(t: Table, req: Request, targets: seq<Target>, i: nat, j: nat)
    requires Creates(req.flags) && AfterMount(t, req).reply.Done? && targets == TargetsFor(t.list, req.dir)
    requires i < |targets| && j < |targets| && i != j && SharedOf(ReceiverOf(t.list, targets[i])).Some?
    ensures Hears(AfterMount(t, req).table.list, |t.list| + i, |t.list| + j)
  {
    assert AfterMount(t, req) == CreateAt(t, req, targets);
    CreatedHear(t, req, targets, i, j);
  }

  /** A change of propagation type moves no mount, so the same mounts stay visible. */
  lemma {:induction false} RetypeKeepsVisible(list: seq<Entry>, dir: string, flags: set<Flag>, rootEvent: nat,
                                              group: nat, i: nat)
    requires i < |list|
    ensures Visible(RetypedAll(list, dir, flags, rootEvent, group), i) <==> Visible(list, i)
  {
    var now := RetypedAll(list, dir, flags, rootEvent, group);
    assert forall j :: 0 <= j < |list| ==> now[j].dir == list[j].dir;
    if Visible(list, i) {
      TopAtUnique(now, now[i].dir, i);
    }
    if Visible(now, i) {
      TopAtUnique(list, list[i].dir, i);
    }
  }

  /** A mount made shared hears from, and is heard by, every visible copy of its event. */
  lemma {:induction false} SharedIsMutual(t: Table, dir: string, flags: set<Flag>, j: nat)
    requires Shared in flags && TopAt(t.list, dir).Some? && j < |t.list| && Visible(t.list, j)
    requires t.list[j].eventGroup == t.list[TopAt(t.list, dir).value].eventGroup
    ensures var i, now := TopAt(t.list, dir).value, Propagate(t, dir, flags).list;
            Hears(now, i, j) && Hears(now, j, i)
  {
    var i, now := TopAt(t.list, dir).value, Propagate(t, dir, flags).list;
    var event := t.list[i].eventGroup;
    assert now[i].sharedGroup == now[j].sharedGroup == Some(t.nextGroup);
    RetypeKeepsVisible(t.list, dir, flags, event, t.nextGroup, i);
    RetypeKeepsVisible(t.list, dir, flags, event, t.nextGroup, j);
    assert Qualifies(now, i, SameGroup, j) && Qualifies(now, j, SameGroup, i);
  }

  /** The group a mount listens to once it is a slave: its master's, or its own old one if it had no master. */
  function Upstream(e: Entry): Option<nat> { OrElse(e.masterGroup, e.sharedGroup) }

  /** A member of the upstream group of `i` that the change of `i` leaves alone. */
  predicate StaysUpstream(list: seq<Entry>, i: nat, m: nat, dir: string, flags: set<Flag>)
    requires i < |list| && m < |list|
  {
    && Upstream(list[i]).Some? && list[m].sharedGroup == Upstream(list[i])
    && !Selected(list[m], dir, flags, list[i].eventGroup)
  }

  /**
    A mount made slave passes nothing on, but still hears from every mount of its
    master's group, or of its own old group if it had no master, that was not changed
    with it.
   */
  lemma {:induction false} SlaveIsOneWay(t: Table, dir: string, flags: set<Flag>, m: nat)
    requires Slave in flags && Shared !in flags && TopAt(t.list, dir).Some? && m < |t.list|
    ensures var i, now := TopAt(t.list, dir).value, Propagate(t, dir, flags).list;
            !Hears(now, i, m) && (StaysUpstream(t.list, i, m, dir, flags) ==> Hears(now, m, i))
  {
    var i, now := TopAt(t.list, dir).value, Propagate(t, dir, flags).list;
    assert now[i].sharedGroup == None;
    RetypeKeepsVisible(t.list, dir, flags, t.list[i].eventGroup, t.nextGroup, i);
    if StaysUpstream(t.list, i, m, dir, flags) {
      assert now[m] == t.list[m] && now[i].masterGroup == now[m].sharedGroup;
      assert Qualifies(now, m, ToSlave, i);
    }
  }

  /** A mount made private or unbindable passes nothing on and hears from copies of its own event only. */
  lemma {:induction false} PrivateIsCutOff(t: Table, dir: string, flags: set<Flag>, m: nat)
    requires Shared !in flags && Slave !in flags && TopAt(t.list, dir).Some? && m < |t.list|
    ensures var i, now := TopAt(t.list, dir).value, Propagate(t, dir, flags).list;
            !Hears(now, i, m) && (Hears(now, m, i) ==> t.list[m].eventGroup == t.list[i].eventGroup)
  {
    var i, now := TopAt(t.list, dir).value, Propagate(t, dir, flags).list;
    assert now[i].sharedGroup == None && now[i].masterGroup == None;
  }

  lemma {:induction false} BelowMoves(source: string, target: string, x: string)
    requires x != "" && x[0] != '/' && target != "" && target[|target| - 1] != '/'
    ensures AtOrBelow(source + "/" + x, source)
    ensures AppendRelative(target, TrimStart(StripPrefix(source + "/" + x, source))) == target + "/" + x
  {
    var path := source + "/" + x;
    assert StripPrefix(path, source) == "/" + x by { assert path[|source|..] == "/" + x; }
    assert TrimStart("/" + x) == x by { assert ("/" + x)[1..] == x; }
  }

  lemma {:induction false} RootMoves(source: string, target: string)
    requires target != "" && target[|target| - 1] != '/'
    ensures AtOrBelow(source, source)
    ensures AppendRelative(target, TrimStart(StripPrefix(source, source))) == target
  {
    assert StripPrefix(source, source) == "";
  }

  lemma RelocatedDir(e: Entry, source: string, target: string, receiver: Option<Entry>)
    requires AtOrBelow(e.dir, source)
    ensures Relocated(e, source, target, receiver).dir == AppendRelative(target, TrimStart(StripPrefix(e.dir, source)))
  {
  }

  /** The root of a moved tree becomes `target`. */
  lemma {:induction false} MoveKeepsRoot(e: Entry, source: string, target: string, receiver: Option<Entry>)
    requires e.dir == source && target != "" && target[|target| - 1] != '/'
    ensures AtOrBelow(e.dir, source) && Relocated(e, source, target, receiver).dir == target
  {
    assert e.dir == source;
    RootMoves(e.dir, target);
    RelocatedDir(e, e.dir, target, receiver);
  }

  /** A moved tree keeps its shape: what was `source/x` becomes `target/x`. */
  lemma {:induction false} MoveKeepsShape(e: Entry, source: string, target: string, x: string,
                                          receiver: Option<Entry>)
    requires e.dir == source + "/" + x && x != "" && x[0] != '/' && target != "" && target[|target| - 1] != '/'
    ensures AtOrBelow(e.dir, source) && Relocated(e, source, target, receiver).dir == target + "/" + x
  {
    BelowMoves(source, target, x);
    RelocatedDir(e, source, target, receiver);
  }
}
