/**
  The mount table's operations as values: creating a mount with all its propagated
  copies, moving a subtree, remounting, changing the propagation type, unmounting.
 */
module MountOps {
  import opened Basics
  import opened MountPaths
  import opened MountPropagation

  const MNT_MAXLEN: nat := 256
  const MIN_QUOTA: nat := 1024 * 1024

  datatype Table = Table(list: seq<Entry>, nextGroup: nat)

  datatype Request = Request(special: string, dir: string, fstype: string, flags: set<Flag>, capacity: nat)

  /** A directory tree to mirror after a bind or a move. */
  datatype Mirror = Mirror(from: string, to: string)

  datatype Reply = Done(mirrors: seq<Mirror>) | Einval | Ebusy | Enospc

  datatype Outcome = Outcome(reply: Reply, table: Table)

  /** A new mount, as opposed to a move, a remount or a change of propagation type. */
  predicate Creates(flags: set<Flag>) {
    Move !in flags && Remount !in flags && !PropagationOnly(flags)
  }

  /** Where a mount at `dir` goes, `dir` itself first, no path twice. */
  function TargetsFor(list: seq<Entry>, dir: string): (r: seq<Target>)
    ensures r != [] && r[0].path == dir && DistinctPaths(r)
  {
    match TopFor(list, dir)
    case None => [Target(dir, None)]
    case Some(parent) =>
      TargetsAreExact(list, dir, parent);
      Targets(list, dir, parent)
  }

  // ------------------------------------------------------------ creating

  function SourceOf(list: seq<Entry>, req: Request): Option<Entry> {
    if Bind !in req.flags then None
    else match TopFor(list, req.special)
         case None => None
         case Some(i) => Some(list[i])
  }

  function OrElse<T>(a: Option<T>, b: Option<T>): Option<T> { if a.Some? then a else b }

  function SharedOf(e: Option<Entry>): Option<nat> { if e.Some? then e.value.sharedGroup else None }

  function MasterOf(e: Option<Entry>): Option<nat> { if e.Some? then e.value.masterGroup else None }

  function QuotaOf(e: Option<Entry>): Option<Quota> { if e.Some? then e.value.quota else None }

  function ReceiverOf(list: seq<Entry>, target: Target): Option<Entry> {
    if target.receiver.Some? && target.receiver.value < |list| then Some(list[target.receiver.value]) else None
  }

  function NewQuota(req: Request, event: nat): Option<Quota> {
    if req.fstype == "ext4" && Bind !in req.flags && req.capacity != 0
    then Some(Quota(event, Max(req.capacity / 3, MIN_QUOTA)))
    else None
  }

  function NewEntry(list: seq<Entry>, req: Request, target: Target, event: nat): Entry {
    var source, receiver := SourceOf(list, req), ReceiverOf(list, target);
    Entry(req.special, target.path, req.fstype, req.flags, Bind in req.flags,
          OrElse(SharedOf(source), SharedOf(receiver)), OrElse(MasterOf(source), MasterOf(receiver)), false, event,
          OrElse(NewQuota(req, event), QuotaOf(source)))
  }

  function NewEntries(list: seq<Entry>, req: Request, targets: seq<Target>, event: nat): (r: seq<Entry>)
    ensures |r| == |targets|
    ensures forall i :: 0 <= i < |r| ==> r[i] == NewEntry(list, req, targets[i], event)
  {
    seq(|targets|, i requires 0 <= i < |targets| => NewEntry(list, req, targets[i], event))
  }

  function MirrorsOf(special: string, targets: seq<Target>): seq<Mirror> {
    if targets == [] then []
    else
      var last := targets[|targets| - 1].path;
      MirrorsOf(special, targets[..|targets| - 1]) + (if last == special then [] else [Mirror(special, last)])
  }

  function CreateAt(t: Table, req: Request, targets: seq<Target>): Outcome {
    var source := SourceOf(t.list, req);
    if source.Some? && source.value.unbindable then Outcome(Einval, t)
    else if Bind !in req.flags && TopAt(t.list, req.dir).Some? then Outcome(Ebusy, t)
    else if |t.list| + |targets| > MNT_MAXLEN then Outcome(Enospc, t)
    else
      Outcome(Done(if Bind in req.flags then MirrorsOf(req.special, targets) else []),
              Table(t.list + NewEntries(t.list, req, targets, t.nextGroup), t.nextGroup + 1))
  }

  function Create(t: Table, req: Request): Outcome { CreateAt(t, req, TargetsFor(t.list, req.dir)) }

  // ------------------------------------------------------------ changing in place

  function ReplaceTop(list: seq<Entry>, i: nat, req: Request): seq<Entry>
    requires i < |list|
  {
    list[i := list[i].(special := req.special, fstype := req.fstype, flags := req.flags)]
  }

  predicate Selected(e: Entry, dir: string, flags: set<Flag>, rootEvent: nat) {
    e.dir == dir || (Rec in flags && AtOrBelow(e.dir, dir)) || (Shared in flags && e.eventGroup == rootEvent)
  }

  function RetypedOne(e: Entry, flags: set<Flag>, group: nat): Entry {
    if Shared in flags then e.(sharedGroup := Some(group), unbindable := false)
    else if Slave in flags then
      e.(masterGroup := OrElse(e.masterGroup, e.sharedGroup), sharedGroup := None, unbindable := false)
    else e.(sharedGroup := None, masterGroup := None, unbindable := Unbindable in flags)
  }

  function Retyped(e: Entry, dir: string, flags: set<Flag>, rootEvent: nat, group: nat): Entry {
    if Selected(e, dir, flags, rootEvent) then RetypedOne(e, flags, group) else e
  }

  function RetypedAll(list: seq<Entry>, dir: string, flags: set<Flag>, rootEvent: nat, group: nat): (r: seq<Entry>)
    ensures |r| == |list| && forall i :: 0 <= i < |r| ==> r[i] == Retyped(list[i], dir, flags, rootEvent, group)
  {
    seq(|list|, i requires 0 <= i < |list| => Retyped(list[i], dir, flags, rootEvent, group))
  }

  function Propagate(t: Table, dir: string, flags: set<Flag>): Table {
    match TopAt(t.list, dir)
    case None => t
    case Some(root) =>
      Table(RetypedAll(t.list, dir, flags, t.list[root].eventGroup, t.nextGroup),
            if Shared in flags then t.nextGroup + 1 else t.nextGroup)
  }

  // ------------------------------------------------------------ moving

  function Subtree(list: seq<Entry>, source: string): seq<Entry> {
    if list == [] then []
    else
      var last := list[|list| - 1];
      Subtree(list[..|list| - 1], source) + (if AtOrBelow(last.dir, source) then [last] else [])
  }

  /** An entry of the moved tree at its new place; its root takes over the receiver's propagation state. */
  function Relocated(e: Entry, source: string, target: string, receiver: Option<Entry>): Entry {
    var relative := StripPrefix(e.dir, source);
    var moved := e.(dir := AppendRelative(target, TrimStart(relative)));
    if relative == "" && receiver.Some?
    then moved.(sharedGroup := receiver.value.sharedGroup, masterGroup := receiver.value.masterGroup,
                unbindable := receiver.value.unbindable)
    else moved
  }

  function MovedOne(e: Entry, source: string, target: string, receiver: Option<Entry>): Entry {
    if AtOrBelow(e.dir, source) then Relocated(e, source, target, receiver) else e
  }

  function MovedAll(list: seq<Entry>, source: string, target: string, receiver: Option<Entry>): (r: seq<Entry>)
    ensures |r| == |list| && forall i :: 0 <= i < |r| ==> r[i] == MovedOne(list[i], source, target, receiver)
  {
    seq(|list|, i requires 0 <= i < |list| => MovedOne(list[i], source, target, receiver))
  }

  function CopyTree(subtree: seq<Entry>, source: string, target: string, receiver: Option<Entry>): (r: seq<Entry>)
    ensures |r| == |subtree| && forall i :: 0 <= i < |r| ==> r[i] == Relocated(subtree[i], source, target, receiver)
  {
    seq(|subtree|, i requires 0 <= i < |subtree| => Relocated(subtree[i], source, target, receiver))
  }

  /** One copy of the subtree for every target after the first. */
  function Copies(list: seq<Entry>, subtree: seq<Entry>, source: string, targets: seq<Target>): seq<Entry> {
    if |targets| <= 1 then []
    else
      var last := targets[|targets| - 1];
      Copies(list, subtree, source, targets[..|targets| - 1])
        + CopyTree(subtree, source, last.path, ReceiverOf(list, last))
  }

  function MoveMirrors(source: string, targets: seq<Target>): (r: seq<Mirror>)
    ensures |r| == |targets| && forall i :: 0 <= i < |r| ==> r[i] == Mirror(source, targets[i].path)
  {
    seq(|targets|, i requires 0 <= i < |targets| => Mirror(source, targets[i].path))
  }

  /** The table after a move: the tree in its new place, then the copies. */
  function MovedList(list: seq<Entry>, source: string, targets: seq<Target>): seq<Entry>
    requires targets != []
  {
    MovedAll(list, source, targets[0].path, ReceiverOf(list, targets[0]))
      + Copies(list, Subtree(list, source), source, targets)
  }

  function MoveTo(t: Table, source: string, dir: string, targets: seq<Target>): Outcome
    requires targets != []
  {
    if TopAt(t.list, source) == None || AtOrBelow(dir, source) then Outcome(Einval, t)
    else if |t.list| + |Subtree(t.list, source)| * (|targets| - 1) > MNT_MAXLEN then Outcome(Enospc, t)
    else Outcome(Done(MoveMirrors(source, targets)), t.(list := MovedList(t.list, source, targets)))
  }

  function MoveTree(t: Table, source: string, dir: string): Outcome {
    MoveTo(t, source, dir, TargetsFor(t.list, dir))
  }

  // ------------------------------------------------------------ mount and umount

  function AfterMount(t: Table, req: Request): Outcome {
    if Move in req.flags then MoveTree(t, req.special, req.dir)
    else if PropagationOnly(req.flags) then Outcome(Done([]), Propagate(t, req.dir, req.flags))
    else if Remount in req.flags then
      match TopAt(t.list, req.dir)
      case None => Outcome(Einval, t)
      case Some(i) => Outcome(Done([]), t.(list := ReplaceTop(t.list, i, req)))
    else Create(t, req)
  }

  function Without(list: seq<Entry>, event: nat): seq<Entry> {
    if list == [] then []
    else
      var last := list[|list| - 1];
      Without(list[..|list| - 1], event) + (if last.eventGroup == event then [] else [last])
  }

  /** Whether there was a mount at `dir`, and the table without its whole event. */
  function AfterUmount(t: Table, dir: string): (bool, Table) {
    match TopAt(t.list, dir)
    case None => (false, t)
    case Some(i) => (true, t.(list := Without(t.list, t.list[i].eventGroup)))
  }
}
