/**
  What each mount request does to the table, told in paths: which requests are refused,
  what the new entries are, which entries a change of type or a move touches and where
  the moved ones end up. Requests with normal paths keep the table normal.
 */
module MountEffects {
  import opened Basics
  import opened MountPaths
  import opened MountPropagation
  import opened MountOps
  import opened MountTheorems
  import opened MountLands

  // ------------------------------------------------------------ creating

  /** A bind of something below an unbindable mount. */
  ghost predicate BindsUnbindable(list: seq<Entry>, req: Request) {
    Bind in req.flags && exists i: nat :: IsTopFor(list, req.special, i) && list[i].unbindable
  }

  /** A regular mount where there is one already. */
  predicate CoversMount(list: seq<Entry>, req: Request) {
    Bind !in req.flags && exists i :: 0 <= i < |list| && list[i].dir == req.dir
  }

  lemma {:induction false} UnbindableSource(list: seq<Entry>, req: Request)
    ensures BindsUnbindable(list, req) <==> SourceOf(list, req).Some? && SourceOf(list, req).value.unbindable
  {
    if BindsUnbindable(list, req) {
      var i: nat :| IsTopFor(list, req.special, i) && list[i].unbindable;
      TopForUnique(list, req.special, i);
    }
  }

  /** When a new mount is refused, and with which error; a refused one changes nothing. */
  lemma {:induction false} CreateFailsIff(t: Table, req: Request)
    requires Creates(req.flags)
    ensures var r, n := AfterMount(t, req), |t.list| + |TargetsFor(t.list, req.dir)|;
            && (r.reply == Einval <==> BindsUnbindable(t.list, req))
            && (r.reply == Ebusy <==> CoversMount(t.list, req))
            && (r.reply == Enospc <==>
                  n > MNT_MAXLEN && !BindsUnbindable(t.list, req) && !CoversMount(t.list, req))
            && (r.reply.Done? || r.table == t)
  {
    UnbindableSource(t.list, req);
    assert CoversMount(t.list, req) <==> Bind !in req.flags && TopAt(t.list, req.dir).Some?;
  }

  /** A third of the device, but a mebibyte at least. */
  predicate QuotaFits(limit: nat, capacity: nat) {
    limit >= MIN_QUOTA && (limit == MIN_QUOTA || 3 * limit <= capacity < 3 * limit + 3) && capacity < 3 * limit + 3
  }

  /** The propagation state of a new mount: that of the bind's source, or else that of its receiver. */
  predicate Inherits(mine: Option<nat>, source: Option<nat>, receiver: Option<nat>) {
    mine == source || (source == None && mine == receiver)
  }

  /** A new mount adds one entry per target to the table. */
  lemma {:induction false} NewCopyAt(t: Table, req: Request, i: nat)
    requires Creates(req.flags) && AfterMount(t, req).reply.Done? && i < |TargetsFor(t.list, req.dir)|
    ensures var now, targets := AfterMount(t, req).table.list, TargetsFor(t.list, req.dir);
            && |now| == |t.list| + |targets| && t.list <= now
            && now[|t.list| + i] == NewEntry(t.list, req, targets[i], t.nextGroup)
  {
    var targets := TargetsFor(t.list, req.dir);
    assert AfterMount(t, req).table.list == t.list + NewEntries(t.list, req, targets, t.nextGroup);
  }

  /** The `i`-th copy of a new mount shows the request at its target, under a number no mount had before. */
  lemma {:induction false} NewCopyShowsRequest(t: Table, req: Request, i: nat)
    requires Valid(t) && Creates(req.flags) && AfterMount(t, req).reply.Done?
    requires i < |TargetsFor(t.list, req.dir)|
    ensures var now, target := AfterMount(t, req).table.list, TargetsFor(t.list, req.dir)[i];
            && |now| == |t.list| + |TargetsFor(t.list, req.dir)| && t.list <= now
            && var e := now[|t.list| + i];
               && e.special == req.special && e.dir == target.path && e.fstype == req.fstype
               && e.flags == req.flags && e.isBind == (Bind in req.flags) && !e.unbindable
               && e.eventGroup == now[|t.list|].eventGroup
               && forall j :: 0 <= j < |t.list| ==> now[j].eventGroup < e.eventGroup
  {
    NewCopyAt(t, req, i);
    NewCopyAt(t, req, 0);
    assert forall j :: 0 <= j < |t.list| ==> Dated(t.list[j], t.nextGroup);
  }

  lemma {:induction false} NewCopyInherits(t: Table, req: Request, i: nat)
    requires Creates(req.flags) && AfterMount(t, req).reply.Done? && i < |TargetsFor(t.list, req.dir)|
    ensures var e := AfterMount(t, req).table.list[|t.list| + i];
            var source := SourceOf(t.list, req);
            var receiver := ReceiverOf(t.list, TargetsFor(t.list, req.dir)[i]);
            && Inherits(e.sharedGroup, SharedOf(source), SharedOf(receiver))
            && Inherits(e.masterGroup, MasterOf(source), MasterOf(receiver))
            && (e.sharedGroup == None ==> SharedOf(receiver) == None)
            && (e.masterGroup == None ==> MasterOf(receiver) == None)
  {
    NewCopyAt(t, req, i);
  }

  /** All copies of a mount count against one quota; a bind counts against that of what it binds. */
  lemma {:induction false} CopiesShareQuota(t: Table, req: Request, i: nat)
    requires Creates(req.flags) && AfterMount(t, req).reply.Done? && i < |TargetsFor(t.list, req.dir)|
    ensures var now, n := AfterMount(t, req).table.list, |t.list|;
            && now[n + i].quota == now[n].quota
            && (Bind in req.flags ==> now[n].quota == QuotaOf(SourceOf(t.list, req)))
            && (Bind !in req.flags ==>
                  && (now[n].quota.Some? <==> req.fstype == "ext4" && req.capacity > 0)
                  && (now[n].quota.Some? ==> QuotaFits(now[n].quota.value.limit, req.capacity)))
  {
    NewCopyAt(t, req, i);
    NewCopyAt(t, req, 0);
  }

  /** A bind asks for one copy of its source at every target but the source itself. */
  lemma {:induction false} MirrorsAre(special: string, targets: seq<Target>)
    requires DistinctPaths(targets)
    ensures var r := MirrorsOf(special, targets);
            && (forall m :: m in r <==> m.from == special && m.to != special && Known(targets, m.to))
            && (forall i, j :: 0 <= i < j < |r| ==> r[i] != r[j])
  {
    if targets != [] {
      var front, last := targets[..|targets| - 1], targets[|targets| - 1];
      MirrorsAre(special, front);
      assert targets == front + [last];
      assert forall p :: Known(targets, p) <==> Known(front, p) || p == last.path;
    }
  }

  lemma {:induction false} BindAsksForMirrors(t: Table, req: Request, m: Mirror)
    requires Creates(req.flags) && AfterMount(t, req).reply.Done?
    ensures m in AfterMount(t, req).reply.mirrors <==>
            && Bind in req.flags && m.from == req.special && m.to != req.special
            && Known(TargetsFor(t.list, req.dir), m.to)
  {
    MirrorsAre(req.special, TargetsFor(t.list, req.dir));
  }

  // ------------------------------------------------------------ changing in place

  /** A remount gives the visible mount a new source, type and flags, and leaves all else. */
  lemma {:induction false} RemountIs(t: Table, req: Request, i: nat)
    requires Move !in req.flags && !PropagationOnly(req.flags) && Remount in req.flags && i < |t.list|
    ensures AfterMount(t, req).reply == Einval <==> forall j :: 0 <= j < |t.list| ==> t.list[j].dir != req.dir
    ensures AfterMount(t, req).reply.Done? || AfterMount(t, req).table == t
    ensures var r, was := AfterMount(t, req), t.list[i];
            && r.table.nextGroup == t.nextGroup && |r.table.list| == |t.list|
            && var e := r.table.list[i];
               if TopAt(t.list, req.dir) == Some(i) then
                 && e.special == req.special && e.fstype == req.fstype && e.flags == req.flags
                 && e == was.(special := e.special, fstype := e.fstype, flags := e.flags)
               else e == was
  {
  }

  /** The mounts a change of type at `dir` is about. */
  ghost predicate Concerns(list: seq<Entry>, dir: string, flags: set<Flag>, root: nat, i: nat)
    requires root < |list| && i < |list|
  {
    || list[i].dir == dir
    || (Rec in flags && Within(list[i].dir, dir))
    || (Shared in flags && list[i].eventGroup == list[root].eventGroup)
  }

  /** The states a mount can be put in. */
  predicate MadeShared(was: Entry, e: Entry, group: nat) {
    e.sharedGroup == Some(group) && e.masterGroup == was.masterGroup && !e.unbindable
  }

  predicate MadeSlave(was: Entry, e: Entry) {
    && e.sharedGroup == None && !e.unbindable
    && e.masterGroup == if was.masterGroup == None then was.sharedGroup else was.masterGroup
  }

  predicate MadePrivate(e: Entry, unbindable: bool) {
    e.sharedGroup == None && e.masterGroup == None && e.unbindable == unbindable
  }

  /** A change of type puts every mount it is about into the new state, and no other. */
  lemma {:induction false} RetypeIs(t: Table, req: Request, root: nat, i: nat)
    requires NormalTable(t.list) && Normal(req.dir) && Move !in req.flags && PropagationOnly(req.flags)
    requires TopAt(t.list, req.dir) == Some(root) && i < |t.list|
    ensures var now, was := AfterMount(t, req).table, t.list[i];
            && |now.list| == |t.list| && (Shared in req.flags ==> now.nextGroup > t.nextGroup)
            && var e := now.list[i];
               && e == was.(sharedGroup := e.sharedGroup, masterGroup := e.masterGroup, unbindable := e.unbindable)
               && if !Concerns(t.list, req.dir, req.flags, root, i) then e == was
                  else if Shared in req.flags then MadeShared(was, e, t.nextGroup)
                  else if Slave in req.flags then MadeSlave(was, e)
                  else MadePrivate(e, Unbindable in req.flags)
  {
    AtOrBelowIff(t.list[i].dir, req.dir);
  }

  // ------------------------------------------------------------ moving

  /** When a move is refused; a refused one changes nothing. */
  lemma {:induction false} MoveFailsIff(t: Table, source: string, dir: string)
    requires Normal(source) && Normal(dir)
    ensures var r := MoveTree(t, source, dir);
            && (r.reply == Einval <==>
                  Within(dir, source) || forall i :: 0 <= i < |t.list| ==> t.list[i].dir != source)
            && r.reply != Ebusy && (r.reply.Done? || r.table == t)
  {
    AtOrBelowIff(dir, source);
  }

  /** An entry at `x` below the moved mount goes to `x` below the target. */
  lemma {:induction false} RelocatedLands(e: Entry, source: string, target: string, receiver: Option<Entry>, x: string)
    requires Normal(source) && Normal(target) && Tail(x) && e.dir == Child(source, x)
    ensures var moved := Relocated(e, source, target, receiver);
            && moved.dir == Child(target, x)
            && moved == e.(dir := moved.dir, sharedGroup := moved.sharedGroup, masterGroup := moved.masterGroup,
                           unbindable := moved.unbindable)
            && Inherited(e, moved, if x == "" then receiver else None)
  {
    StripsChild(source, x);
    AppendIsChild(target, x);
    assert StripPrefix(e.dir, source) == "" <==> x == "";
  }

  /** The propagation state is the receiver's, or the old one if there is none. */
  predicate Inherited(was: Entry, e: Entry, receiver: Option<Entry>) {
    var from := if receiver.Some? then receiver.value else was;
    e.sharedGroup == from.sharedGroup && e.masterGroup == from.masterGroup && e.unbindable == from.unbindable
  }

  /** A move takes everything at or below the source along, and nothing else. */
  lemma {:induction false} MoveTakesTree(t: Table, source: string, dir: string, i: nat, x: string)
    requires NormalTable(t.list) && Normal(source) && Normal(dir) && MoveTree(t, source, dir).reply.Done?
    requires i < |t.list| && Tail(x)
    ensures var now, was := MoveTree(t, source, dir).table.list, t.list[i];
            && |t.list| <= |now|
            && (!Within(was.dir, source) ==> now[i] == was)
            && (was.dir == Child(source, x) ==>
                  now[i].dir == Child(dir, x) && now[i].eventGroup == was.eventGroup)
  {
    var targets, was := TargetsFor(t.list, dir), t.list[i];
    AtOrBelowIff(was.dir, source);
    assert targets[0].path == dir;
    if was.dir == Child(source, x) {
      assert Within(was.dir, source);
      RelocatedLands(was, source, dir, ReceiverOf(t.list, targets[0]), x);
    }
  }

  lemma {:induction false} InCopies(list: seq<Entry>, subtree: seq<Entry>, source: string, targets: seq<Target>,
                                    k: nat, e: Entry)
    requires 1 <= k < |targets| && e in subtree
    ensures Relocated(e, source, targets[k].path, ReceiverOf(list, targets[k]))
            in Copies(list, subtree, source, targets)
  {
    var n := |targets| - 1;
    if k == n {
      var tree := CopyTree(subtree, source, targets[n].path, ReceiverOf(list, targets[n]));
      var j :| 0 <= j < |subtree| && subtree[j] == e;
      assert tree[j] in tree;
    } else {
      InCopies(list, subtree, source, targets[..n], k, e);
    }
  }

  lemma {:induction false} CopiesComeFrom(list: seq<Entry>, subtree: seq<Entry>, source: string, targets: seq<Target>,
                                          c: Entry) returns (k: nat, e: Entry)
    requires c in Copies(list, subtree, source, targets)
    ensures 1 <= k < |targets| && e in subtree
    ensures c == Relocated(e, source, targets[k].path, ReceiverOf(list, targets[k]))
    decreases |targets|
  {
    var n := |targets| - 1;
    var tree := CopyTree(subtree, source, targets[n].path, ReceiverOf(list, targets[n]));
    if c in tree {
      var j :| 0 <= j < |tree| && tree[j] == c;
      k, e := n, subtree[j];
    } else {
      k, e := CopiesComeFrom(list, subtree, source, targets[..n], c);
    }
  }

  // ------------------------------------------------------------ normal paths

  predicate NormalRequest(req: Request) {
    Normal(req.dir) && (Bind in req.flags || Move in req.flags || Remount in req.flags ==> Normal(req.special))
  }

  predicate NormalOp(op: Op) { op.MountOp? ==> NormalRequest(op.req) }

  lemma {:induction false} ChildIsNormal(d: string, x: string)
    requires Normal(d) && Tail(x)
    ensures Normal(Child(d, x))
  {
    var p := Child(d, x);
    if x != "" {
      var k := |p| - |x|;
      assert p[k - 1] == '/' && forall i :: 0 <= i < |x| ==> p[k + i] == x[i];
      assert forall i :: 0 <= i < k - 1 ==> p[i] == d[i];
      forall i | 0 <= i < |p| - 1 && p[i] == '/' ensures p[i + 1] != '/' {
        if i >= k { assert p[i] == x[i - k] && p[i + 1] == x[i - k + 1]; }
      }
    }
  }

  predicate NormalTargets(ts: seq<Target>) { forall i :: 0 <= i < |ts| ==> Normal(ts[i].path) }

  lemma {:induction false} LandsNormal(list: seq<Entry>, start: nat, x: string, target: Target)
    requires NormalTable(list) && Tail(x) && Landed(list, start, x, target)
    ensures Normal(target.path)
  {
    var r := target.receiver.value;
    var m: nat :| Reaches(list, start, m) && Hears(list, m, r) && target.path == Child(Base(list, m, r), x);
    assert NormalEntry(list[m]) && NormalEntry(list[r]);
    ChildIsNormal(Base(list, m, r), x);
  }

  lemma {:induction false} TargetsAreNormal(list: seq<Entry>, dir: string)
    requires NormalTable(list) && Normal(dir)
    ensures NormalTargets(TargetsFor(list, dir))
  {
    if TopFor(list, dir).Some? {
      var parent := TopFor(list, dir).value;
      var ts := Targets(list, dir, parent);
      var x := FollowsDirectory(dir, list[parent].dir);
      TargetsLand(list, dir, parent, x);
      forall i | 0 < i < |ts| ensures Normal(ts[i].path) {
        LandsNormal(list, parent, x, ts[i]);
      }
    }
  }

  /** `c` is the copy, below one target, of the entry `e` at `x` below the moved mount. */
  predicate CopyOf(list: seq<Entry>, e: Entry, x: string, target: Target, c: Entry) {
    && c.dir == Child(target.path, x)
    && c == e.(dir := c.dir, sharedGroup := c.sharedGroup, masterGroup := c.masterGroup, unbindable := c.unbindable)
    && Inherited(e, c, if x == "" then ReceiverOf(list, target) else None)
  }

  /** Everything a move copies: each entry of the tree, at its place below each other target. */
  lemma {:induction false} MoveCopiesTree(t: Table, source: string, dir: string, k: nat, e: Entry, x: string)
    requires NormalTable(t.list) && Normal(source) && Normal(dir) && MoveTree(t, source, dir).reply.Done?
    requires 1 <= k < |TargetsFor(t.list, dir)| && e in t.list && Tail(x) && e.dir == Child(source, x)
    ensures exists c :: c in MoveTree(t, source, dir).table.list[|t.list|..]
                        && CopyOf(t.list, e, x, TargetsFor(t.list, dir)[k], c)
  {
    var targets := TargetsFor(t.list, dir);
    var target, subtree := targets[k], Subtree(t.list, source);
    TargetsAreNormal(t.list, dir);
    StripsChild(source, x);
    SubtreeIs(t.list, source);
    InCopies(t.list, subtree, source, targets, k, e);
    var c := Relocated(e, source, target.path, ReceiverOf(t.list, target));
    RelocatedLands(e, source, target.path, ReceiverOf(t.list, target), x);
    assert MoveTree(t, source, dir).table.list[|t.list|..] == Copies(t.list, subtree, source, targets);
  }

  lemma {:induction false} CopiesAreCopies(list: seq<Entry>, source: string, targets: seq<Target>, c: Entry)
    returns (k: nat, e: Entry, x: string)
    requires NormalTable(list) && Normal(source) && NormalTargets(targets)
    requires c in Copies(list, Subtree(list, source), source, targets)
    ensures 1 <= k < |targets| && e in list && Tail(x) && e.dir == Child(source, x)
    ensures CopyOf(list, e, x, targets[k], c)
  {
    k, e := CopiesComeFrom(list, Subtree(list, source), source, targets, c);
    SubtreeIs(list, source);
    var j :| 0 <= j < |list| && list[j] == e;
    x := FollowsDirectory(e.dir, source);
    RelocatedLands(e, source, targets[k].path, ReceiverOf(list, targets[k]), x);
  }

  /** A move adds nothing but copies of the tree. */
  lemma {:induction false} MoveAddsCopiesOnly(t: Table, source: string, dir: string, c: Entry)
    returns (k: nat, e: Entry, x: string)
    requires NormalTable(t.list) && Normal(source) && Normal(dir) && MoveTree(t, source, dir).reply.Done?
    requires c in MoveTree(t, source, dir).table.list[|t.list|..]
    ensures 1 <= k < |TargetsFor(t.list, dir)| && e in t.list && Tail(x) && e.dir == Child(source, x)
    ensures CopyOf(t.list, e, x, TargetsFor(t.list, dir)[k], c)
  {
    var targets, subtree := TargetsFor(t.list, dir), Subtree(t.list, source);
    assert MoveTree(t, source, dir).table.list[|t.list|..] == Copies(t.list, subtree, source, targets);
    TargetsAreNormal(t.list, dir);
    k, e, x := CopiesAreCopies(t.list, source, targets, c);
  }

  lemma {:induction false} RelocatedIsNormal(e: Entry, source: string, target: string, receiver: Option<Entry>)
    requires NormalEntry(e) && Normal(source) && Normal(target) && AtOrBelow(e.dir, source)
    ensures NormalEntry(Relocated(e, source, target, receiver))
  {
    var x := FollowsDirectory(e.dir, source);
    RelocatedLands(e, source, target, receiver, x);
    ChildIsNormal(target, x);
  }

  lemma {:induction false} CopiesAreNormal(list: seq<Entry>, source: string, targets: seq<Target>)
    requires NormalTable(list) && Normal(source) && NormalTargets(targets)
    ensures NormalTable(Copies(list, Subtree(list, source), source, targets))
  {
    var copies := Copies(list, Subtree(list, source), source, targets);
    forall i | 0 <= i < |copies| ensures NormalEntry(copies[i]) {
      var k, e, x := CopiesAreCopies(list, source, targets, copies[i]);
      var j :| 0 <= j < |list| && list[j] == e;
      ChildIsNormal(targets[k].path, x);
    }
  }

  lemma {:induction false} MoveKeepsNormal(t: Table, source: string, dir: string)
    requires NormalTable(t.list) && Normal(source) && Normal(dir)
    ensures NormalTable(MoveTree(t, source, dir).table.list)
  {
    var targets := TargetsFor(t.list, dir);
    var receiver := ReceiverOf(t.list, targets[0]);
    var moved := MovedAll(t.list, source, dir, receiver);
    TargetsAreNormal(t.list, dir);
    CopiesAreNormal(t.list, source, targets);
    forall i | 0 <= i < |moved| ensures NormalEntry(moved[i]) {
      if AtOrBelow(t.list[i].dir, source) { RelocatedIsNormal(t.list[i], source, dir, receiver); }
    }
  }

  lemma {:induction false} CreateKeepsNormal(t: Table, req: Request, targets: seq<Target>)
    requires NormalTable(t.list) && NormalRequest(req) && NormalTargets(targets)
    ensures NormalTable(CreateAt(t, req, targets).table.list)
  {
    var added := NewEntries(t.list, req, targets, t.nextGroup);
    forall i | 0 <= i < |added| ensures NormalEntry(added[i]) {
      assert added[i].dir == targets[i].path;
    }
  }

  lemma {:induction false} MountKeepsNormal(t: Table, req: Request)
    requires NormalTable(t.list) && NormalRequest(req)
    ensures NormalTable(AfterMount(t, req).table.list)
  {
    if Move in req.flags {
      MoveKeepsNormal(t, req.special, req.dir);
    } else if PropagationOnly(req.flags) {
      assert forall i :: 0 <= i < |t.list| ==> NormalEntry(t.list[i]);
    } else if Remount !in req.flags {
      TargetsAreNormal(t.list, req.dir);
      CreateKeepsNormal(t, req, TargetsFor(t.list, req.dir));
    }
  }

  lemma {:induction false} UmountKeepsNormal(t: Table, dir: string)
    requires NormalTable(t.list)
    ensures NormalTable(AfterUmount(t, dir).1.list)
  {
    if TopAt(t.list, dir).Some? {
      var event := t.list[TopAt(t.list, dir).value].eventGroup;
      var left := Without(t.list, event);
      WithoutIs(t.list, event);
      forall i | 0 <= i < |left| ensures NormalEntry(left[i]) {
        assert left[i] in left;
      }
    }
  }

  lemma {:induction false} ReplayKeepsNormal(t: Table, ops: seq<Op>)
    requires NormalTable(t.list) && forall i :: 0 <= i < |ops| ==> NormalOp(ops[i])
    ensures NormalTable(Replay(t, ops).list)
    decreases |ops|
  {
    if ops != [] {
      match ops[0] {
        case MountOp(req) => MountKeepsNormal(t, req);
        case UmountOp(dir) => UmountKeepsNormal(t, dir);
      }
      ReplayKeepsNormal(Apply(t, ops[0]), ops[1..]);
    }
  }

  /**
    In every table that requests with normal paths produce, a mount at `x` below the mount
    that covers it goes to `x` below every mount its event reaches.
   */
  lemma {:induction false} EventsLandAlways(ops: seq<Op>, dir: string, parent: nat, x: string)
    requires forall i :: 0 <= i < |ops| ==> NormalOp(ops[i])
    requires var list := Replay(EMPTY, ops).list;
             Normal(dir) && IsTopFor(list, dir, parent) && Tail(x) && dir == Child(list[parent].dir, x)
    ensures var list := Replay(EMPTY, ops).list;
            var ts := TargetsFor(list, dir);
            && ts[0] == Target(dir, Some(parent)) && DistinctPaths(ts)
            && (forall i :: 0 < i < |ts| ==> Landed(list, parent, x, ts[i]))
            && (forall m, r :: Reaches(list, parent, m) && Hears(list, m, r) ==>
                                 Known(ts, Child(Base(list, m, r), x)))
  {
    var list := Replay(EMPTY, ops).list;
    ReplayKeepsNormal(EMPTY, ops);
    TopForUnique(list, dir, parent);
    TargetsLand(list, dir, parent, x);
  }
}
