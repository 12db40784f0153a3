/**
  Where propagated mounts land, as paths. `Child(d, x)` is the path `x` below the directory
  `d`; a table is normal when no path in it has a doubled or a trailing slash.
 */
module MountLands {
  import opened Basics
  import opened MountPaths
  import opened MountPropagation

  /** What lies at `x` below `d`; nothing below `d` is `d` itself. */
  function Child(d: string, x: string): string {
    if x == "" then d else if d == "/" then "/" + x else d + "/" + x
  }

  predicate NoDoubleSlash(p: string) {
    forall i :: 0 <= i < |p| - 1 && p[i] == '/' ==> p[i + 1] != '/'
  }

  predicate Normal(p: string) {
    p != "" && p[0] == '/' && NoDoubleSlash(p) && (p == "/" || p[|p| - 1] != '/')
  }

  /** What can follow a directory and a slash. */
  predicate Tail(x: string) {
    x == "" || (x[0] != '/' && x[|x| - 1] != '/' && NoDoubleSlash(x))
  }

  predicate NormalEntry(e: Entry) { Normal(e.dir) && (e.isBind ==> Normal(e.special)) }

  predicate NormalTable(list: seq<Entry>) { forall i :: 0 <= i < |list| ==> NormalEntry(list[i]) }

  ghost predicate Within(p: string, d: string) { exists x :: Tail(x) && p == Child(d, x) }

  lemma TrimEndKeeps(d: string)
    requires d != "" && d[|d| - 1] != '/'
    ensures TrimEnd(d) == d
  {
  }

  lemma {:induction false} AppendIsChild(d: string, x: string)
    requires Normal(d)
    ensures AppendRelative(d, x) == Child(d, x)
  {
    if d != "/" { TrimEndKeeps(d); }
  }

  lemma {:induction false} TrimsOne(x: string)
    requires Tail(x)
    ensures TrimStart("/" + x) == x && TrimStart(x) == x
  {
    assert ("/" + x)[1..] == x;
  }

  /** Taking a directory off a path below it leaves what follows. */
  lemma {:induction false} StripsChild(d: string, x: string)
    requires Normal(d) && Tail(x)
    ensures AtOrBelow(Child(d, x), d) && TrimStart(StripPrefix(Child(d, x), d)) == x
  {
    var p := Child(d, x);
    TrimsOne(x);
    if x == "" {
      assert StripPrefix(p, d) == "";
    } else if d == "/" {
      assert d <= p && p[|d|..] == x;
    } else {
      assert d <= p && p[|d|..] == "/" + x;
    }
  }

  lemma {:induction false} SuffixNoDouble(p: string, k: nat)
    requires k <= |p| && NoDoubleSlash(p)
    ensures NoDoubleSlash(p[k..])
  {
    var s := p[k..];
    forall i | 0 <= i < |s| - 1 && s[i] == '/' ensures s[i + 1] != '/' {
      assert s[i] == p[k + i] && s[i + 1] == p[k + i + 1];
    }
  }

  /** What a path has after the directory it lies in. */
  lemma {:induction false} FollowsDirectory(p: string, d: string) returns (x: string)
    requires Normal(p) && Normal(d) && AtOrBelow(p, d)
    ensures Tail(x) && p == Child(d, x)
  {
    if p == d {
      x := "";
    } else {
      var k := if d == "/" then 1 else |d| + 1;
      x := p[k..];
      SuffixNoDouble(p, k);
      assert p[k - 1] == '/';
      assert x != "" by { assert p != "/"; }
      assert x[0] == p[k] && x[|x| - 1] == p[|p| - 1];
      assert p == Child(d, x);
    }
  }

  /** The test on characters decides whether one path lies in a directory. */
  lemma {:induction false} AtOrBelowIff(p: string, d: string)
    requires Normal(p) && Normal(d)
    ensures AtOrBelow(p, d) <==> Within(p, d)
  {
    if AtOrBelow(p, d) {
      var x := FollowsDirectory(p, d);
      assert Within(p, d);
    }
    if Within(p, d) {
      var x :| Tail(x) && p == Child(d, x);
      StripsChild(d, x);
    }
  }

  /** A mount point is the path `Relative` below its parent's mount point. */
  lemma {:induction false} RelativeIs(list: seq<Entry>, dir: string, parent: nat)
    requires parent < |list| && Normal(list[parent].dir) && Normal(dir) && Within(dir, list[parent].dir)
    ensures Tail(Relative(list, dir, parent)) && dir == Child(list[parent].dir, Relative(list, dir, parent))
  {
    var x :| Tail(x) && dir == Child(list[parent].dir, x);
    StripsChild(list[parent].dir, x);
  }

  lemma {:induction false} ChildOfChild(d: string, off: string, x: string)
    requires d != ""
    ensures Child(d, JoinRelative(off, x)) == Child(Child(d, off), x)
  {
    if off != "" && x != "" {
      assert "/" + (off + "/" + x) == "/" + off + "/" + x;
      assert d + "/" + (off + "/" + x) == d + "/" + off + "/" + x;
    }
  }

  /** An event at `x` below a bind of `d/off` lands at `d/off/x` below a receiver at `d`. */
  lemma {:induction false} BindLands(list: seq<Entry>, m: nat, r: nat, off: string, x: string)
    requires m < |list| && r < |list| && list[m].isBind && Normal(list[r].dir)
    requires Tail(off) && list[m].special == Child(list[r].dir, off)
    ensures Mapped(list, m, r, x) == Child(Child(list[r].dir, off), x)
  {
    var d := list[r].dir;
    StripsChild(d, off);
    AppendIsChild(d, JoinRelative(off, x));
    ChildOfChild(d, off, x);
  }

  /** A mount of something else delivers at `d/x` below a receiver at `d`. */
  lemma {:induction false} PlainLands(list: seq<Entry>, m: nat, r: nat, x: string)
    requires m < |list| && r < |list| && NormalEntry(list[m]) && Normal(list[r].dir)
    requires list[m].isBind ==> !Within(list[m].special, list[r].dir)
    ensures Mapped(list, m, r, x) == Child(list[r].dir, x)
  {
    if list[m].isBind { AtOrBelowIff(list[m].special, list[r].dir); }
    AppendIsChild(list[r].dir, x);
  }

  /** The directory below which receiver `r` gets the copy of an event at mount `m`. */
  ghost function Base(list: seq<Entry>, m: nat, r: nat): string
    requires m < |list| && r < |list|
  {
    if list[m].isBind && Within(list[m].special, list[r].dir) then list[m].special else list[r].dir
  }

  lemma {:induction false} MappedLands(list: seq<Entry>, m: nat, r: nat, x: string)
    requires m < |list| && r < |list| && NormalTable(list)
    ensures Mapped(list, m, r, x) == Child(Base(list, m, r), x)
  {
    if list[m].isBind && Within(list[m].special, list[r].dir) {
      var off :| Tail(off) && list[m].special == Child(list[r].dir, off);
      BindLands(list, m, r, off, x);
    } else {
      PlainLands(list, m, r, x);
    }
  }

  /** The target is where an event at `x` below `start` lands over some edge it crosses. */
  ghost predicate Landed(list: seq<Entry>, start: nat, x: string, target: Target) {
    exists m :: target.receiver.Some? && Reaches(list, start, m) && Hears(list, m, target.receiver.value)
                && target.path == Child(Base(list, m, target.receiver.value), x)
  }

  lemma {:induction false} JustifiedLands(list: seq<Entry>, start: nat, x: string, target: Target)
    requires NormalTable(list) && Justified(list, start, x, target)
    ensures Landed(list, start, x, target)
  {
    var m :| target.receiver.Some? && Reaches(list, start, m) && Hears(list, m, target.receiver.value)
             && target.path == Mapped(list, m, target.receiver.value, x);
    MappedLands(list, m, target.receiver.value, x);
  }

  /**
    A mount at `x` below `parent` goes to that path itself and, for every edge it crosses, to
    `x` below the receiver, or below the bind's source when that lies in the receiver.
   */
  lemma {:induction false} TargetsLand(list: seq<Entry>, dir: string, parent: nat, x: string)
    requires parent < |list| && NormalTable(list) && Tail(x) && dir == Child(list[parent].dir, x)
    ensures var ts := Targets(list, dir, parent);
            && ts != [] && ts[0] == Target(dir, Some(parent)) && DistinctPaths(ts)
            && (forall i :: 0 < i < |ts| ==> Landed(list, parent, x, ts[i]))
            && (forall m, r :: Reaches(list, parent, m) && Hears(list, m, r) ==>
                                 Known(ts, Child(Base(list, m, r), x)))
  {
    var ts := Targets(list, dir, parent);
    StripsChild(list[parent].dir, x);
    TargetsAreExact(list, dir, parent);
    forall i | 0 < i < |ts| ensures Landed(list, parent, x, ts[i]) {
      JustifiedLands(list, parent, x, ts[i]);
    }
    forall m, r | Reaches(list, parent, m) && Hears(list, m, r) ensures Known(ts, Child(Base(list, m, r), x)) {
      MappedLands(list, m, r, x);
    }
  }
}
