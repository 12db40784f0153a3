/**
  The mount table updated in place; every method computes the value of its operation.
 */
module MountTable {
  import opened Basics
  import opened MountPaths
  import opened MountPropagation
  import opened MountOps
  import opened MountTheorems

  /** The entries to retype, in table order. */
  function SelectedIndices(list: seq<Entry>, dir: string, flags: set<Flag>, rootEvent: nat, n: nat): seq<nat>
    requires n <= |list|
  {
    if n == 0 then []
    else SelectedIndices(list, dir, flags, rootEvent, n - 1)
         + (if Selected(list[n - 1], dir, flags, rootEvent) then [n - 1] else [])
  }

  lemma {:induction false} SelectedOnce(list: seq<Entry>, dir: string, flags: set<Flag>, rootEvent: nat, n: nat)
    requires n <= |list|
    ensures var r := SelectedIndices(list, dir, flags, rootEvent, n);
            && (forall i: nat :: i in r <==> i < n && Selected(list[i], dir, flags, rootEvent))
            && (forall k, l :: 0 <= k < l < |r| ==> r[k] < r[l])
            && (forall k :: 0 <= k < |r| ==> r[k] < n)
  {
    if n > 0 {
      SelectedOnce(list, dir, flags, rootEvent, n - 1);
    }
  }

  method SelectEntries(list: seq<Entry>, dir: string, flags: set<Flag>, rootEvent: nat) returns (r: seq<nat>)
    ensures r == SelectedIndices(list, dir, flags, rootEvent, |list|)
  {
    r := [];
    for i := 0 to |list|
      invariant r == SelectedIndices(list, dir, flags, rootEvent, i)
    {
      if Selected(list[i], dir, flags, rootEvent) {
        r := r + [i];
      }
    }
  }

  /** The subtree below a path, in table order. */
  method CollectSubtree(list: seq<Entry>, source: string) returns (r: seq<Entry>)
    ensures r == Subtree(list, source)
  {
    r := [];
    for i := 0 to |list|
      invariant r == Subtree(list[..i], source)
    {
      assert list[..i + 1][..i] == list[..i];
      if AtOrBelow(list[i].dir, source) {
        r := r + [list[i]];
      }
    }
    assert list[..|list|] == list;
  }

  method MirrorPairs(special: string, targets: seq<Target>) returns (r: seq<Mirror>)
    ensures r == MirrorsOf(special, targets)
  {
    r := [];
    for i := 0 to |targets|
      invariant r == MirrorsOf(special, targets[..i])
    {
      assert targets[..i + 1][..i] == targets[..i];
      if targets[i].path != special {
        r := r + [Mirror(special, targets[i].path)];
      }
    }
    assert targets[..|targets|] == targets;
  }

  method FindTargets(list: seq<Entry>, dir: string) returns (targets: seq<Target>)
    ensures targets == TargetsFor(list, dir)
  {
    var parent := TopMountIndexForPath(list, dir);
    if parent == None {
      return [Target(dir, None)];
    }
    targets := PropagationTargets(list, dir, parent.value);
  }

  lemma CopiesLast(list: seq<Entry>, subtree: seq<Entry>, source: string, targets: seq<Target>, i: nat)
    requires 1 <= i < |targets|
    ensures Copies(list, subtree, source, targets[..i + 1])
         == Copies(list, subtree, source, targets[..i])
              + CopyTree(subtree, source, targets[i].path, ReceiverOf(list, targets[i]))
  {
    var ts := targets[..i + 1];
    assert ts[..i] == targets[..i] && ts[i] == targets[i] && |ts| - 1 == i;
  }

  lemma CopiesSnoc(list: seq<Entry>, subtree: seq<Entry>, source: string, targets: seq<Target>, i: nat,
                   front: seq<Entry>)
    requires 1 <= i < |targets|
    ensures front + Copies(list, subtree, source, targets[..i])
              + CopyTree(subtree, source, targets[i].path, ReceiverOf(list, targets[i]))
         == front + Copies(list, subtree, source, targets[..i + 1])
  {
    CopiesLast(list, subtree, source, targets, i);
    Associates(front, Copies(list, subtree, source, targets[..i]),
               CopyTree(subtree, source, targets[i].path, ReceiverOf(list, targets[i])));
  }

  lemma Associates(a: seq<Entry>, b: seq<Entry>, c: seq<Entry>)
    ensures a + b + c == a + (b + c)
  {
  }

  class MountTable {
    var mntList: seq<Entry>
    var nextGroup: nat

    function Value(): Table
      reads this
    {
      Table(mntList, nextGroup)
    }

    constructor ()
      ensures Value() == EMPTY
    {
      mntList, nextGroup := [], 1;
    }

    method NextGroup() returns (group: nat)
      modifies this`nextGroup
      ensures group == old(nextGroup) && nextGroup == group + 1
    {
      group := nextGroup;
      nextGroup := nextGroup + 1;
    }

    method SetPropagation(dir: string, flags: set<Flag>)
      modifies this
      ensures Value() == Propagate(old(Value()), dir, flags)
    {
      var root := TopMountIndexAtPath(mntList, dir);
      if root == None {
        return;
      }
      var rootEvent := mntList[root.value].eventGroup;
      var selected := SelectEntries(mntList, dir, flags, rootEvent);
      var group := nextGroup;
      if Shared in flags {
        group := NextGroup();
      }
      RetypeSelected(selected, dir, flags, rootEvent, group);
    }

    /** Retype the selected entries one by one. */
    method RetypeSelected(selected: seq<nat>, dir: string, flags: set<Flag>, rootEvent: nat, group: nat)
      requires selected == SelectedIndices(mntList, dir, flags, rootEvent, |mntList|)
      modifies this`mntList
      ensures mntList == RetypedAll(old(mntList), dir, flags, rootEvent, group)
    {
      SelectedOnce(mntList, dir, flags, rootEvent, |mntList|);
      var k := 0;
      while k < |selected|
        invariant k <= |selected| && |mntList| == |old(mntList)|
        invariant forall i: nat :: i < |mntList| ==>
                    mntList[i] == if i in selected[..k] then Retyped(old(mntList)[i], dir, flags, rootEvent, group)
                                  else old(mntList)[i]
      {
        var i := selected[k];
        assert i !in selected[..k] && selected[..k + 1] == selected[..k] + [i];
        assert i in selected;
        mntList := mntList[i := RetypedOne(mntList[i], flags, group)];
        k := k + 1;
      }
      assert selected[..k] == selected;
    }

    method Remounted(req: Request) returns (reply: Reply)
      modifies this`mntList
      ensures (reply, mntList) == match TopAt(old(mntList), req.dir)
                                  case None => (Einval, old(mntList))
                                  case Some(i) => (Done([]), ReplaceTop(old(mntList), i, req))
    {
      var top := TopMountIndexAtPath(mntList, req.dir);
      if top == None {
        return Einval;
      }
      mntList := ReplaceTop(mntList, top.value, req);
      return Done([]);
    }

    /** Append an entry for every target. */
    method PushEntries(req: Request, targets: seq<Target>, event: nat)
      modifies this`mntList
      ensures mntList == old(mntList) + NewEntries(old(mntList), req, targets, event)
    {
      var list := mntList;
      for i := 0 to |targets|
        invariant |mntList| == |list| + i && list <= mntList
        invariant forall j :: 0 <= j < i ==> mntList[|list| + j] == NewEntry(list, req, targets[j], event)
      {
        mntList := mntList + [NewEntry(list, req, targets[i], event)];
      }
      assert mntList == list + NewEntries(list, req, targets, event);
    }

    /** A bind of something unbindable and a regular mount over another are refused. */
    method Refusal(req: Request) returns (refused: Option<Reply>)
      ensures var source := SourceOf(mntList, req);
              refused == if source.Some? && source.value.unbindable then Some(Einval)
                         else if Bind !in req.flags && TopAt(mntList, req.dir).Some? then Some(Ebusy)
                         else None
    {
      if Bind in req.flags {
        var source := TopMountIndexForPath(mntList, req.special);
        return if source.Some? && mntList[source.value].unbindable then Some(Einval) else None;
      }
      var top := TopMountIndexAtPath(mntList, req.dir);
      return if top.Some? then Some(Ebusy) else None;
    }

    method CreateEntries(req: Request, targets: seq<Target>) returns (reply: Reply)
      modifies this
      ensures Outcome(reply, Value()) == CreateAt(old(Value()), req, targets)
    {
      var refused := Refusal(req);
      if refused.Some? {
        return refused.value;
      }
      if |mntList| + |targets| > MNT_MAXLEN {
        return Enospc;
      }
      var event := NextGroup();
      PushEntries(req, targets, event);
      if Bind !in req.flags {
        return Done([]);
      }
      var mirrors := MirrorPairs(req.special, targets);
      return Done(mirrors);
    }

    method CreateMount(req: Request) returns (reply: Reply)
      modifies this
      ensures Outcome(reply, Value()) == Create(old(Value()), req)
    {
      var targets := FindTargets(mntList, req.dir);
      reply := CreateEntries(req, targets);
    }

    /** Relocate the moved tree in place. */
    method RelocateTree(source: string, dir: string, receiver: Option<Entry>)
      modifies this`mntList
      ensures mntList == MovedAll(old(mntList), source, dir, receiver)
    {
      ghost var goal := MovedAll(mntList, source, dir, receiver);
      for i := 0 to |mntList|
        invariant |mntList| == |old(mntList)| == |goal|
        invariant forall j :: i <= j < |mntList| ==> mntList[j] == old(mntList)[j]
        invariant forall j :: 0 <= j < i ==> mntList[j] == goal[j]
      {
        var moved := MovedOne(mntList[i], source, dir, receiver);
        assert goal[i] == moved;
        mntList := mntList[i := moved];
      }
    }

    /** Append a copy of the subtree for one more target. */
    method PushTree(subtree: seq<Entry>, source: string, target: string, receiver: Option<Entry>)
      modifies this`mntList
      ensures mntList == old(mntList) + CopyTree(subtree, source, target, receiver)
    {
      ghost var goal := CopyTree(subtree, source, target, receiver);
      for i := 0 to |subtree|
        invariant |mntList| == |old(mntList)| + i && old(mntList) <= mntList
        invariant forall j :: 0 <= j < i ==> mntList[|old(mntList)| + j] == goal[j]
      {
        var copy := Relocated(subtree[i], source, target, receiver);
        assert goal[i] == copy;
        mntList := mntList + [copy];
      }
      assert mntList == old(mntList) + goal;
    }

    method MoveMount(source: string, dir: string) returns (reply: Reply)
      modifies this
      ensures Outcome(reply, Value()) == MoveTree(old(Value()), source, dir)
    {
      var targets := FindTargets(mntList, dir);
      reply := MoveEntries(source, dir, targets);
    }

    method MoveEntries(source: string, dir: string, targets: seq<Target>) returns (reply: Reply)
      requires targets != [] && targets[0].path == dir
      modifies this
      ensures Outcome(reply, Value()) == MoveTo(old(Value()), source, dir, targets)
    {
      var top := TopMountIndexAtPath(mntList, source);
      if top == None || AtOrBelow(dir, source) {
        return Einval;
      }
      var subtree := CollectSubtree(mntList, source);
      if |mntList| + |subtree| * (|targets| - 1) > MNT_MAXLEN {
        return Enospc;
      }
      RelocateAndCopy(source, dir, subtree, targets);
      return Done(MoveMirrors(source, targets));
    }

    method RelocateAndCopy(source: string, dir: string, subtree: seq<Entry>, targets: seq<Target>)
      requires targets != [] && targets[0].path == dir && subtree == Subtree(mntList, source)
      modifies this`mntList
      ensures mntList == MovedList(old(mntList), source, targets)
    {
      var list := mntList;
      RelocateTree(source, dir, ReceiverOf(list, targets[0]));
      PushCopies(list, subtree, source, targets);
    }

    method PushCopies(list: seq<Entry>, subtree: seq<Entry>, source: string, targets: seq<Target>)
      requires targets != []
      modifies this`mntList
      ensures mntList == old(mntList) + Copies(list, subtree, source, targets)
    {
      var i := 1;
      while i < |targets|
        invariant 1 <= i <= |targets|
        invariant mntList == old(mntList) + Copies(list, subtree, source, targets[..i])
      {
        PushTree(subtree, source, targets[i].path, ReceiverOf(list, targets[i]));
        CopiesSnoc(list, subtree, source, targets, i, old(mntList));
        i := i + 1;
      }
      assert targets[..i] == targets;
    }

    method Mount(req: Request) returns (reply: Reply)
      modifies this
      ensures Outcome(reply, Value()) == AfterMount(old(Value()), req)
      ensures old(Valid(Value())) ==> Valid(Value())
    {
      ghost var before := Value();
      if Move in req.flags {
        reply := MoveMount(req.special, req.dir);
      } else if PropagationOnly(req.flags) {
        SetPropagation(req.dir, req.flags);
        reply := Done([]);
      } else if Remount in req.flags {
        reply := Remounted(req);
      } else {
        reply := CreateMount(req);
      }
      if Valid(before) { MountKeeps(before, req); }
    }

    method Umount(dir: string) returns (found: bool)
      modifies this`mntList
      ensures (found, Value()) == AfterUmount(old(Value()), dir)
      ensures old(Valid(Value())) ==> Valid(Value())
    {
      ghost var before := Value();
      var top := TopMountIndexAtPath(mntList, dir);
      if top == None {
        return false;
      }
      RetainOthers(mntList[top.value].eventGroup);
      if Valid(before) { UmountKeeps(before, dir); }
      return true;
    }

    method RetainOthers(event: nat)
      modifies this`mntList
      ensures mntList == Without(old(mntList), event)
    {
      var kept: seq<Entry> := [];
      for i := 0 to |mntList|
        invariant mntList == old(mntList) && kept == Without(mntList[..i], event)
      {
        assert mntList[..i + 1][..i] == mntList[..i];
        if mntList[i].eventGroup != event {
          kept := kept + [mntList[i]];
        }
      }
      assert mntList[..|mntList|] == mntList;
      mntList := kept;
    }
  }
}
