/**
  Where a mount event goes. A shared mount passes it on to the copies of its own event,
  to its peer group and to the group's slaves; each of them passes it on in turn. The
  worklist reaches exactly the mounts reachable over those edges, and it hands out one
  target path per edge, without repetition.
 */
module MountPropagation {
  import opened Basics
  import opened MountPaths

  datatype Edge = SameEvent | SameGroup | ToSlave

  /** A path that gets a copy, and the mount below which it gets it, if any. */
  datatype Target = Target(path: string, receiver: Option<nat>)

  predicate Visible(list: seq<Entry>, i: nat)
    requires i < |list|
  {
    TopAt(list, list[i].dir) == Some(i)
  }

  predicate Related(list: seq<Entry>, m: nat, edge: Edge, i: nat)
    requires m < |list| && i < |list|
  {
    match edge
    case SameEvent => i != m && list[i].eventGroup == list[m].eventGroup
    case SameGroup => list[i].sharedGroup == list[m].sharedGroup
    case ToSlave => list[i].masterGroup == list[m].sharedGroup
  }

  predicate Qualifies(list: seq<Entry>, m: nat, edge: Edge, i: nat)
    requires m < |list| && i < |list| && list[m].sharedGroup.Some?
  {
    Related(list, m, edge, i) && Visible(list, i)
  }

  /** The qualifying entries among the first `n`, in table order. */
  function Select(list: seq<Entry>, m: nat, edge: Edge, n: nat): seq<nat>
    requires m < |list| && list[m].sharedGroup.Some? && n <= |list|
  {
    if n == 0 then []
    else Select(list, m, edge, n - 1) + (if Qualifies(list, m, edge, n - 1) then [n - 1] else [])
  }

  lemma {:induction false} SelectMembers(list: seq<Entry>, m: nat, edge: Edge, n: nat)
    requires m < |list| && list[m].sharedGroup.Some? && n <= |list|
    ensures forall i: nat :: i in Select(list, m, edge, n) <==> i < n && Qualifies(list, m, edge, i)
  {
    if n > 0 {
      SelectMembers(list, m, edge, n - 1);
    }
  }

  /** Mount `r` hears of an event at mount `m`. */
  predicate Hears(list: seq<Entry>, m: nat, r: nat) {
    && m < |list| && r < |list| && list[m].sharedGroup.Some?
    && (Qualifies(list, m, SameEvent, r) || Qualifies(list, m, SameGroup, r) || Qualifies(list, m, ToSlave, r))
  }

  function Receivers(list: seq<Entry>, m: nat): (r: seq<nat>)
    requires m < |list|
    ensures forall i: nat :: i in r <==> Hears(list, m, i)
    ensures forall k :: 0 <= k < |r| ==> r[k] < |list| && Hears(list, m, r[k])
  {
    if list[m].sharedGroup == None then []
    else
      SelectMembers(list, m, SameEvent, |list|);
      SelectMembers(list, m, SameGroup, |list|);
      SelectMembers(list, m, ToSlave, |list|);
      var n := |list|;
      var r := Select(list, m, SameEvent, n) + Select(list, m, SameGroup, n) + Select(list, m, ToSlave, n);
      assert forall k :: 0 <= k < |r| ==> r[k] in r;
      r
  }

  /** Where the event that reached `m` lands below `r`; a bind mount adds the offset of its source. */
  function Mapped(list: seq<Entry>, m: nat, r: nat, relative: string): string
    requires m < |list| && r < |list|
  {
    var receiver := list[r];
    if list[m].isBind && AtOrBelow(list[m].special, receiver.dir) then
      var offset := TrimStart(StripPrefix(list[m].special, receiver.dir));
      AppendRelative(receiver.dir, JoinRelative(offset, relative))
    else AppendRelative(receiver.dir, relative)
  }

  predicate Known(targets: seq<Target>, path: string) {
    exists i :: 0 <= i < |targets| && targets[i].path == path
  }

  function AddTarget(targets: seq<Target>, path: string, receiver: nat): seq<Target> {
    if Known(targets, path) then targets else targets + [Target(path, Some(receiver))]
  }

  /** Add a target for each receiver whose path is not known yet. */
  function Deliver(list: seq<Entry>, m: nat, receivers: seq<nat>, relative: string, targets: seq<Target>): seq<Target>
    requires m < |list| && forall i :: 0 <= i < |receivers| ==> receivers[i] < |list|
    decreases |receivers|
  {
    if receivers == [] then targets
    else
      Deliver(list, m, receivers[1..], relative,
              AddTarget(targets, Mapped(list, m, receivers[0], relative), receivers[0]))
  }

  function Indices(n: nat): (s: set<nat>)
    ensures forall i: nat :: i in s <==> i < n
  {
    if n == 0 then {} else Indices(n - 1) + {n - 1}
  }

  datatype Walked = Walked(targets: seq<Target>, visited: set<nat>)

  /** The worklist: a stack of mounts to look at, each looked at once. */
  function Walk(list: seq<Entry>, relative: string, pending: seq<nat>, visited: set<nat>, targets: seq<Target>): Walked
    requires forall i :: 0 <= i < |pending| ==> pending[i] < |list|
    decreases Indices(|list|) - visited, |pending|
  {
    if pending == [] then Walked(targets, visited)
    else
      var m, rest := pending[|pending| - 1], pending[..|pending| - 1];
      if m in visited then Walk(list, relative, rest, visited, targets)
      else
        assert m in Indices(|list|) - visited;
        var receivers := Receivers(list, m);
        Walk(list, relative, rest + receivers, visited + {m}, Deliver(list, m, receivers, relative, targets))
  }

  function Relative(list: seq<Entry>, dir: string, parent: nat): string
    requires parent < |list|
  {
    TrimStart(StripPrefix(dir, list[parent].dir))
  }

  function Targets(list: seq<Entry>, dir: string, parent: nat): seq<Target>
    requires parent < |list|
  {
    Walk(list, Relative(list, dir, parent), [parent], {}, [Target(dir, Some(parent))]).targets
  }

  // ------------------------------------------------------------ reachability

  /** A chain of mounts, each hearing from the one before. */
  predicate Chain(list: seq<Entry>, chain: seq<nat>) {
    chain != [] && forall i :: 0 < i < |chain| ==> Hears(list, chain[i - 1], chain[i])
  }

  ghost predicate Reaches(list: seq<Entry>, start: nat, m: nat) {
    exists chain :: Chain(list, chain) && chain[0] == start && chain[|chain| - 1] == m
  }

  lemma ReachesSelf(list: seq<Entry>, start: nat)
    ensures Reaches(list, start, start)
  {
    assert Chain(list, [start]);
  }

  lemma ReachesOn(list: seq<Entry>, start: nat, m: nat, r: nat)
    requires Reaches(list, start, m) && Hears(list, m, r)
    ensures Reaches(list, start, r)
  {
    var chain :| Chain(list, chain) && chain[0] == start && chain[|chain| - 1] == m;
    assert Chain(list, chain + [r]);
  }

  /** Everything reachable lies in any set that contains the start and is closed under hearing. */
  lemma {:induction false} ClosedContains(list: seq<Entry>, visited: set<nat>, chain: seq<nat>)
    requires Chain(list, chain) && chain[0] in visited
    requires forall m, r :: m in visited && Hears(list, m, r) ==> r in visited
    ensures chain[|chain| - 1] in visited
    decreases |chain|
  {
    if |chain| > 1 {
      assert Chain(list, chain[..|chain| - 1]);
      ClosedContains(list, visited, chain[..|chain| - 1]);
    }
  }

  // ------------------------------------------------------------ what the worklist hands out

  predicate DistinctPaths(targets: seq<Target>) {
    forall i, j :: 0 <= i < j < |targets| ==> targets[i].path != targets[j].path
  }

  /** The first target is the requested one; every other one is where some edge `(m, r)` maps the event. */
  ghost predicate Justified(list: seq<Entry>, start: nat, relative: string, target: Target) {
    exists m :: target.receiver.Some? && Reaches(list, start, m) && Hears(list, m, target.receiver.value)
                && target.path == Mapped(list, m, target.receiver.value, relative)
  }

  ghost predicate AllJustified(list: seq<Entry>, start: nat, relative: string, targets: seq<Target>) {
    forall i :: 0 < i < |targets| ==> Justified(list, start, relative, targets[i])
  }

  /** The mounts already looked at have delivered the event over all their edges. */
  ghost predicate Delivered(list: seq<Entry>, relative: string, visited: set<nat>, targets: seq<Target>) {
    forall m, r :: m in visited && Hears(list, m, r) ==> Known(targets, Mapped(list, m, r, relative))
  }

  lemma {:induction false} DeliverAdds(list: seq<Entry>, m: nat, receivers: seq<nat>, relative: string,
                                       targets: seq<Target>)
    requires m < |list| && forall i :: 0 <= i < |receivers| ==> receivers[i] < |list|
    requires DistinctPaths(targets)
    ensures var r := Deliver(list, m, receivers, relative, targets);
            && targets <= r && DistinctPaths(r)
            && (forall i :: |targets| <= i < |r| ==>
                  r[i].receiver.Some? && r[i].receiver.value in receivers
                  && r[i].path == Mapped(list, m, r[i].receiver.value, relative))
            && (forall i :: 0 <= i < |receivers| ==> Known(r, Mapped(list, m, receivers[i], relative)))
    decreases |receivers|
  {
    if receivers != [] {
      var path := Mapped(list, m, receivers[0], relative);
      var next := AddTarget(targets, path, receivers[0]);
      assert Known(next, path) by {
        if !Known(targets, path) { assert next[|targets|].path == path; }
      }
      DeliverAdds(list, m, receivers[1..], relative, next);
      StillKnown(next, Deliver(list, m, receivers, relative, targets), path);
    }
  }

  lemma StillKnown(targets: seq<Target>, more: seq<Target>, path: string)
    requires targets <= more && Known(targets, path)
    ensures Known(more, path)
  {
    var i :| 0 <= i < |targets| && targets[i].path == path;
    assert more[i].path == path;
  }

  ghost predicate AllReached(list: seq<Entry>, start: nat, pending: seq<nat>) {
    forall i :: 0 <= i < |pending| ==> pending[i] < |list| && Reaches(list, start, pending[i])
  }

  ghost predicate VisitedReached(list: seq<Entry>, start: nat, visited: set<nat>) {
    forall m :: m in visited ==> Reaches(list, start, m)
  }

  /** Whoever hears from a visited mount has been visited or will be. */
  ghost predicate Closing(list: seq<Entry>, start: nat, pending: seq<nat>, visited: set<nat>) {
    && (start in visited || start in pending)
    && forall m, r :: m in visited && Hears(list, m, r) ==> r in visited || r in pending
  }

  /** What holds between two rounds of the worklist. */
  ghost predicate WalkInv(list: seq<Entry>, start: nat, relative: string, pending: seq<nat>, visited: set<nat>,
                          targets: seq<Target>) {
    && AllReached(list, start, pending) && VisitedReached(list, start, visited)
    && Closing(list, start, pending, visited)
    && targets != [] && DistinctPaths(targets)
    && AllJustified(list, start, relative, targets) && Delivered(list, relative, visited, targets)
  }

  /** Dropping a mount that was visited before from the stack. */
  lemma {:induction false} SkipKeeps(list: seq<Entry>, start: nat, pending: seq<nat>, visited: set<nat>)
    requires AllReached(list, start, pending) && Closing(list, start, pending, visited)
    requires pending != [] && pending[|pending| - 1] in visited
    ensures AllReached(list, start, pending[..|pending| - 1]) && Closing(list, start, pending[..|pending| - 1], visited)
  {
    assert pending == pending[..|pending| - 1] + [pending[|pending| - 1]];
  }

  /** Visiting a mount puts its receivers on the stack. */
  lemma {:induction false} VisitKeeps(list: seq<Entry>, start: nat, pending: seq<nat>, visited: set<nat>)
    requires AllReached(list, start, pending) && VisitedReached(list, start, visited)
    requires Closing(list, start, pending, visited) && pending != []
    ensures var m := pending[|pending| - 1];
            var now := pending[..|pending| - 1] + Receivers(list, m);
            AllReached(list, start, now) && VisitedReached(list, start, visited + {m})
            && Closing(list, start, now, visited + {m})
  {
    var m, rest := pending[|pending| - 1], pending[..|pending| - 1];
    var now := rest + Receivers(list, m);
    assert pending == rest + [m];
    forall i | 0 <= i < |now| ensures now[i] < |list| && Reaches(list, start, now[i]) {
      if i < |rest| {
        assert now[i] == pending[i];
      } else {
        ReachesOn(list, start, m, now[i]);
      }
    }
  }

  lemma {:induction false} DeliverKeeps(list: seq<Entry>, start: nat, relative: string, m: nat, visited: set<nat>,
                                        targets: seq<Target>)
    requires m < |list| && Reaches(list, start, m) && targets != [] && DistinctPaths(targets)
    requires AllJustified(list, start, relative, targets) && Delivered(list, relative, visited, targets)
    ensures var more := Deliver(list, m, Receivers(list, m), relative, targets);
            && targets <= more && DistinctPaths(more) && AllJustified(list, start, relative, more)
            && Delivered(list, relative, visited + {m}, more)
  {
    var receivers := Receivers(list, m);
    var more := Deliver(list, m, receivers, relative, targets);
    DeliverAdds(list, m, receivers, relative, targets);
    forall i | 0 < i < |more| ensures Justified(list, start, relative, more[i]) {
      if i < |targets| {
        assert more[i] == targets[i];
      } else {
        assert Hears(list, m, more[i].receiver.value);
      }
    }
    forall x, r | x in visited + {m} && Hears(list, x, r) ensures Known(more, Mapped(list, x, r, relative)) {
      if x == m {
        assert r in receivers;
      } else {
        StillKnown(targets, more, Mapped(list, x, r, relative));
      }
    }
  }

  lemma {:induction false} WalkKeeps(list: seq<Entry>, start: nat, relative: string, pending: seq<nat>,
                                     visited: set<nat>, targets: seq<Target>)
    requires WalkInv(list, start, relative, pending, visited, targets)
    ensures var w := Walk(list, relative, pending, visited, targets);
            WalkInv(list, start, relative, [], w.visited, w.targets) && targets <= w.targets
    decreases Indices(|list|) - visited, |pending|
  {
    if pending != [] {
      var m, rest := pending[|pending| - 1], pending[..|pending| - 1];
      assert pending == rest + [m];
      if m in visited {
        SkipKeeps(list, start, pending, visited);
        WalkKeeps(list, start, relative, rest, visited, targets);
      } else {
        assert m in Indices(|list|) - visited;
        VisitKeeps(list, start, pending, visited);
        DeliverKeeps(list, start, relative, m, visited, targets);
        WalkKeeps(list, start, relative, rest + Receivers(list, m), visited + {m},
                  Deliver(list, m, Receivers(list, m), relative, targets));
      }
    }
  }

  /** The worklist visits exactly the mounts that the event can reach. */
  lemma {:induction false} VisitsExactlyReachable(list: seq<Entry>, dir: string, parent: nat)
    requires parent < |list|
    ensures var w := Walk(list, Relative(list, dir, parent), [parent], {}, [Target(dir, Some(parent))]);
            forall m :: m in w.visited <==> Reaches(list, parent, m)
  {
    var relative := Relative(list, dir, parent);
    ReachesSelf(list, parent);
    WalkKeeps(list, parent, relative, [parent], {}, [Target(dir, Some(parent))]);
    var w := Walk(list, relative, [parent], {}, [Target(dir, Some(parent))]);
    forall m | Reaches(list, parent, m) ensures m in w.visited {
      var chain :| Chain(list, chain) && chain[0] == parent && chain[|chain| - 1] == m;
      ClosedContains(list, w.visited, chain);
    }
  }

  /** The targets are the requested path and one path per edge the event crosses: no more, no fewer, none twice. */
  lemma {:induction false} TargetsAreExact(list: seq<Entry>, dir: string, parent: nat)
    requires parent < |list|
    ensures var ts, relative := Targets(list, dir, parent), Relative(list, dir, parent);
            && ts != [] && ts[0] == Target(dir, Some(parent)) && DistinctPaths(ts)
            && AllJustified(list, parent, relative, ts)
            && (forall m, r :: Reaches(list, parent, m) && Hears(list, m, r) ==>
                                 Known(ts, Mapped(list, m, r, relative)))
  {
    var relative := Relative(list, dir, parent);
    ReachesSelf(list, parent);
    WalkKeeps(list, parent, relative, [parent], {}, [Target(dir, Some(parent))]);
    VisitsExactlyReachable(list, dir, parent);
  }

  // ------------------------------------------------------------ the worklist in place

  /** One pass over the table for one kind of edge. */
  method SelectFrom(list: seq<Entry>, m: nat, edge: Edge) returns (r: seq<nat>)
    requires m < |list| && list[m].sharedGroup.Some?
    ensures r == Select(list, m, edge, |list|)
  {
    r := [];
    var i: nat := 0;
    while i < |list|
      invariant i <= |list| && r == Select(list, m, edge, i)
    {
      var chosen := false;
      if Related(list, m, edge, i) {
        var top := TopMountIndexAtPath(list, list[i].dir);
        chosen := top == Some(i);
      }
      assert chosen <==> Qualifies(list, m, edge, i);
      r := r + if chosen then [i] else [];
      i := i + 1;
    }
  }

  method CollectReceivers(list: seq<Entry>, m: nat) returns (r: seq<nat>)
    requires m < |list|
    ensures r == Receivers(list, m)
  {
    r := [];
    if list[m].sharedGroup.Some? {
      var copies := SelectFrom(list, m, SameEvent);
      var peers := SelectFrom(list, m, SameGroup);
      var slaves := SelectFrom(list, m, ToSlave);
      r := copies + peers + slaves;
    }
  }

  lemma DeliverOne(list: seq<Entry>, m: nat, receivers: seq<nat>, i: nat, relative: string, targets: seq<Target>)
    requires m < |list| && i < |receivers| && forall k :: 0 <= k < |receivers| ==> receivers[k] < |list|
    ensures Deliver(list, m, receivers[i..], relative, targets)
         == Deliver(list, m, receivers[i + 1..], relative,
                    AddTarget(targets, Mapped(list, m, receivers[i], relative), receivers[i]))
  {
    assert receivers[i..][1..] == receivers[i + 1..];
  }

  method DeliverAll(list: seq<Entry>, m: nat, receivers: seq<nat>, relative: string, start: seq<Target>)
    returns (targets: seq<Target>)
    requires m < |list| && forall i :: 0 <= i < |receivers| ==> receivers[i] < |list|
    ensures targets == Deliver(list, m, receivers, relative, start)
  {
    targets := start;
    var i := 0;
    assert receivers[0..] == receivers;
    while i < |receivers|
      invariant i <= |receivers|
      invariant Deliver(list, m, receivers[i..], relative, targets) == Deliver(list, m, receivers, relative, start)
    {
      DeliverOne(list, m, receivers, i, relative, targets);
      targets := AddTarget(targets, Mapped(list, m, receivers[i], relative), receivers[i]);
      i := i + 1;
    }
  }

  lemma WalkSkips(list: seq<Entry>, relative: string, rest: seq<nat>, m: nat, visited: set<nat>, targets: seq<Target>)
    requires m in visited && m < |list| && forall i :: 0 <= i < |rest| ==> rest[i] < |list|
    ensures Walk(list, relative, rest + [m], visited, targets) == Walk(list, relative, rest, visited, targets)
  {
    assert (rest + [m])[..|rest|] == rest;
  }

  lemma WalkVisits(list: seq<Entry>, relative: string, rest: seq<nat>, m: nat, visited: set<nat>, targets: seq<Target>)
    requires m !in visited && m < |list| && forall i :: 0 <= i < |rest| ==> rest[i] < |list|
    ensures Walk(list, relative, rest + [m], visited, targets)
         == Walk(list, relative, rest + Receivers(list, m), visited + {m},
                 Deliver(list, m, Receivers(list, m), relative, targets))
  {
    assert (rest + [m])[..|rest|] == rest;
  }

  /** Look at one mount: deliver to its receivers and put them on the stack. */
  method VisitMount(list: seq<Entry>, relative: string, rest: seq<nat>, m: nat, ghost visited: set<nat>,
                    known: seq<Target>)
    returns (pending: seq<nat>, targets: seq<Target>)
    requires m !in visited && m < |list| && forall i :: 0 <= i < |rest| ==> rest[i] < |list|
    ensures forall i :: 0 <= i < |pending| ==> pending[i] < |list|
    ensures Walk(list, relative, rest + [m], visited, known) == Walk(list, relative, pending, visited + {m}, targets)
  {
    var receivers := CollectReceivers(list, m);
    targets := DeliverAll(list, m, receivers, relative, known);
    pending := rest + receivers;
    WalkVisits(list, relative, rest, m, visited, known);
  }

  method PropagationTargets(list: seq<Entry>, dir: string, parent: nat) returns (targets: seq<Target>)
    requires parent < |list|
    ensures targets == Targets(list, dir, parent)
  {
    var relative := Relative(list, dir, parent);
    targets := [Target(dir, Some(parent))];
    var pending: seq<nat>, visited: set<nat> := [parent], {};
    while pending != []
      invariant forall i :: 0 <= i < |pending| ==> pending[i] < |list|
      invariant Walk(list, relative, pending, visited, targets).targets == Targets(list, dir, parent)
      decreases Indices(|list|) - visited, |pending|
    {
      var m, rest := pending[|pending| - 1], pending[..|pending| - 1];
      assert pending == rest + [m];
      if m in visited {
        WalkSkips(list, relative, rest, m, visited, targets);
        pending := rest;
      } else {
        assert m in Indices(|list|) - visited;
        pending, targets := VisitMount(list, relative, rest, m, visited, targets);
        visited := visited + {m};
      }
    }
  }
}
