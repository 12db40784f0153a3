/**
  Mount entries, path arithmetic, and which mount is visible at a path.
 */
module MountPaths {
  import opened Basics

  datatype Flag =
    | Rdonly | Nosuid | Nodev | Noexec | Synchronous | Mandlock | Dirsync | Nosymfollow | Noatime | Nodiratime
    | Relatime | Strictatime | Remount | Bind | Move | Shared | Private | Slave | Unbindable | Rec | Silent
    | Posixacl | IVersion | Active | Nouser

  const PROPAGATION_MASK: set<Flag> := {Shared, Private, Slave, Unbindable}
  const OPERATION_MASK: set<Flag> := {Bind, Move, Remount}

  predicate PropagationOnly(flags: set<Flag>) {
    flags * PROPAGATION_MASK != {} && flags * OPERATION_MASK == {}
  }

  /** The capacity counter an ext4 mount shares with its copies. */
  datatype Quota = Quota(id: nat, limit: nat)

  datatype Entry = Entry(special: string, dir: string, fstype: string, flags: set<Flag>, isBind: bool,
                         sharedGroup: Option<nat>, masterGroup: Option<nat>, unbindable: bool,
                         eventGroup: nat, quota: Option<Quota>)

  // ------------------------------------------------------------ paths

  predicate AtOrBelow(path: string, base: string) {
    base == "/" || path == base || (base <= path && |base| < |path| && path[|base|] == '/')
  }

  function StripPrefix(path: string, base: string): string {
    if base <= path then path[|base|..] else ""
  }

  function TrimStart(s: string): (r: string)
    ensures |r| <= |s| && (r == "" || r[0] != '/')
  {
    if s != "" && s[0] == '/' then TrimStart(s[1..]) else s
  }

  /** Trimming takes off all leading slashes and nothing else. */
  lemma {:induction false} TrimStartIsSuffix(s: string)
    ensures TrimStart(s) == s[|s| - |TrimStart(s)|..]
    ensures forall i :: 0 <= i < |s| - |TrimStart(s)| ==> s[i] == '/'
  {
    if s != "" && s[0] == '/' {
      var r := TrimStart(s[1..]);
      TrimStartIsSuffix(s[1..]);
      assert s[1..][|s| - 1 - |r|..] == s[|s| - |r|..];
      forall i | 0 <= i < |s| - |r| ensures s[i] == '/' {
        if i > 0 { assert s[i] == s[1..][i - 1]; }
      }
    }
  }

  function TrimEnd(s: string): (r: string)
    ensures r <= s && (r == "" || r[|r| - 1] != '/')
  {
    if s != "" && s[|s| - 1] == '/' then TrimEnd(s[..|s| - 1]) else s
  }

  function AppendRelative(base: string, relative: string): string {
    if relative == "" then base
    else if base == "/" then "/" + relative
    else TrimEnd(base) + "/" + relative
  }

  /** Joining two relative paths, either of which may be empty. */
  function JoinRelative(first: string, second: string): string {
    if first == "" then second else if second == "" then first else first + "/" + second
  }

  // ------------------------------------------------------------ the visible mount

  /** The last entry mounted exactly at `path`. */
  function TopAt(list: seq<Entry>, path: string): (r: Option<nat>)
    ensures r == None ==> forall i :: 0 <= i < |list| ==> list[i].dir != path
    ensures r.Some? ==> r.value < |list| && list[r.value].dir == path
                        && forall i :: r.value < i < |list| ==> list[i].dir != path
  {
    if list == [] then None
    else if list[|list| - 1].dir == path then Some(|list| - 1)
    else TopAt(list[..|list| - 1], path)
  }

  /** Between two entries that cover a path, the longer target wins, then the later entry. */
  predicate Shadows(list: seq<Entry>, i: nat, j: nat)
    requires i < |list| && j < |list|
  {
    |list[j].dir| < |list[i].dir| || (|list[j].dir| == |list[i].dir| && j <= i)
  }

  /** The entry that covers `path` and shadows every other that does. */
  predicate IsTopFor(list: seq<Entry>, path: string, i: nat) {
    && i < |list| && AtOrBelow(path, list[i].dir)
    && forall j :: 0 <= j < |list| && AtOrBelow(path, list[j].dir) ==> Shadows(list, i, j)
  }

  function TopFor(list: seq<Entry>, path: string): (r: Option<nat>)
    ensures r == None <==> forall j :: 0 <= j < |list| ==> !AtOrBelow(path, list[j].dir)
    ensures r.Some? ==> IsTopFor(list, path, r.value)
  {
    if list == [] then None
    else
      var last := |list| - 1;
      var best := TopFor(list[..last], path);
      if !AtOrBelow(path, list[last].dir) then best
      else if best.Some? && |list[best.value].dir| > |list[last].dir| then best
      else Some(last)
  }

  lemma TopAtUnique(list: seq<Entry>, path: string, i: nat)
    requires i < |list| && list[i].dir == path && forall j :: i < j < |list| ==> list[j].dir != path
    ensures TopAt(list, path) == Some(i)
  {
  }

  lemma TopForUnique(list: seq<Entry>, path: string, i: nat)
    requires IsTopFor(list, path, i)
    ensures TopFor(list, path) == Some(i)
  {
    var r := TopFor(list, path);
    assert r.Some?;
    assert Shadows(list, i, r.value) && Shadows(list, r.value, i);
  }

  /** `top_mount_index_at_path`: search backwards for the first match. */
  method TopMountIndexAtPath(list: seq<Entry>, path: string) returns (r: Option<nat>)
    ensures r == TopAt(list, path)
  {
    var i: nat := |list|;
    while i > 0
      invariant i <= |list| && forall j :: i <= j < |list| ==> list[j].dir != path
    {
      i := i - 1;
      if list[i].dir == path {
        TopAtUnique(list, path, i);
        return Some(i);
      }
    }
    return None;
  }

  /** `top_mount_index_for_path`: the greatest (length, index) among the covering entries. */
  method TopMountIndexForPath(list: seq<Entry>, path: string) returns (r: Option<nat>)
    ensures r == TopFor(list, path)
  {
    r := None;
    var i := 0;
    while i < |list|
      invariant i <= |list|
      invariant r == None ==> forall j :: 0 <= j < i ==> !AtOrBelow(path, list[j].dir)
      invariant r.Some? ==> r.value < i && AtOrBelow(path, list[r.value].dir)
      invariant r.Some? ==> forall j :: 0 <= j < i && AtOrBelow(path, list[j].dir) ==> Shadows(list, r.value, j)
    {
      if AtOrBelow(path, list[i].dir) && (r == None || |list[r.value].dir| <= |list[i].dir|) {
        r := Some(i);
      }
      i := i + 1;
    }
    if r.Some? {
      TopForUnique(list, path, r.value);
    }
  }
}
