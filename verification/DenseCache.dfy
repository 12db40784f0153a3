/**
  One whole-file write-back cache entry: its bytes, its dirty flag, the revision
  that identifies its byte image, and the mark that turns writers away while it is
  being evicted. The functions are what each locked operation does to an entry.
 */
module DenseCache {
  import opened Basics
  import opened ByteFile

  const MAX_CACHED_FILE_SIZE: nat := 4 * 0x10_0000

  /** `data` is a whole number of pages; only the first `size` bytes belong to the file. */
  datatype Cache = Cache(data: seq<byte>, modified: bool, revision: nat, evicting: bool, size: nat) {
    predicate Valid() { size <= |data| }
  }

  datatype Snapshot = Snapshot(data: seq<byte>, revision: nat)

  datatype SnapshotResult = Clean | OutOfMemory | Taken(snapshot: Snapshot)

  function Contents(c: Cache): seq<byte>
    requires c.Valid()
  {
    c.data[..c.size]
  }

  function AlignedDown(a: nat): nat { a / PAGE_SIZE * PAGE_SIZE }

  function Zeros(n: nat): seq<byte> { seq(n, _ => 0) }

  /** The buffer after growing it to hold `end` bytes. */
  function Grown(data: seq<byte>, end: nat): (r: seq<byte>)
    ensures |r| >= end && |r| >= |data|
    ensures forall i :: 0 <= i < |data| ==> r[i] == data[i]
  {
    if end <= |data| then data
    else data + Zeros(AlignedDown(end) + PAGE_SIZE - |data|)
  }

  function WriteBuf(c: Cache, offset: nat, buf: seq<byte>): (r: Cache)
    requires c.Valid()
    ensures r.Valid() && r.modified && r.revision == c.revision + 1 && r.evicting == c.evicting
    ensures r.size == Max(c.size, offset + |buf|)
  {
    var end := offset + |buf|;
    Cache(Splice(Grown(c.data, end), offset, buf), true, c.revision + 1, c.evicting, Max(c.size, end))
  }

  /** `room` says whether memory for the copy is there. */
  function SnapshotOf(c: Cache, room: bool): SnapshotResult
    requires c.Valid()
  {
    if !c.modified then Clean else if !room then OutOfMemory else Taken(Snapshot(Contents(c), c.revision))
  }

  function MarkClean(c: Cache, revision: nat): Cache {
    if c.revision == revision then c.(modified := false) else c
  }

  function ClaimClean(c: Cache): (bool, Cache) {
    if c.modified || c.evicting then (false, c) else (true, c.(evicting := true))
  }

  /** What `write_cached_at` does once it holds the entry's lock. */
  datatype WriteResult = Bypass | Rejected(errno: int) | Written(count: nat)

  function WriteLocked(c: Cache, offset: nat, buf: seq<byte>): (r: (WriteResult, Cache))
    requires c.Valid()
    ensures r.1.Valid() && (!r.0.Written? ==> r.1 == c)
    ensures r.0.Written? ==> !c.evicting && r.0.count == |buf| && r.1.modified && r.1.revision > c.revision
  {
    if c.evicting then (Bypass, c)
    else if offset + |buf| > USIZE_MAX then (Rejected(EINVAL), c)
    else if offset + |buf| > MAX_CACHED_FILE_SIZE || (buf != [] && offset > c.size) then (Bypass, c)
    else (Written(|buf|), WriteBuf(c, offset, buf))
  }

  function ReadLocked(c: Cache, offset: nat, len: nat): Option<seq<byte>>
    requires c.Valid()
  {
    if c.evicting then None
    else if offset >= c.size then Some([])
    else Some(c.data[offset..Min(offset + len, c.size)])
  }

  // ------------------------------------------------------------ what they mean

  /** A write that starts inside the file or at its end is a pwrite of the cached file. */
  lemma {:induction false} WriteBufIsPWrite(c: Cache, offset: nat, buf: seq<byte>)
    requires c.Valid() && offset <= c.size
    ensures Contents(WriteBuf(c, offset, buf)) == PWrite(Contents(c), offset, buf)
  {
    var f, g := Contents(WriteBuf(c, offset, buf)), PWrite(Contents(c), offset, buf);
    assert |f| == |g|;
    forall i | 0 <= i < |f| ensures f[i] == g[i] {
    }
  }

  /**
    An acknowledged write is a pwrite of the cached file except for an empty
    buffer beyond the end of file, which moves the end although pwrite would not.
   */
  lemma {:induction false} WrittenIsPWriteIff(c: Cache, offset: nat, buf: seq<byte>)
    requires c.Valid() && WriteLocked(c, offset, buf).0.Written?
    ensures Contents(WriteLocked(c, offset, buf).1) == PWrite(Contents(c), offset, buf)
            <==> (buf == [] ==> offset <= c.size)
  {
    if offset <= c.size {
      WriteBufIsPWrite(c, offset, buf);
    } else {
      assert |Contents(WriteBuf(c, offset, buf))| == offset;
    }
  }

  /** The failing case on concrete data: an empty write at offset 5 of a 2-byte file. */
  lemma EmptyWriteGrowsFile()
    ensures var c := Cache(Zeros(PAGE_SIZE), false, 0, false, 2);
            && WriteLocked(c, 5, []).0 == Written(0)
            && |Contents(WriteLocked(c, 5, []).1)| == 5 && |PWrite(Contents(c), 5, [])| == 2
  {
  }

  /** A cached read returns what the same read of the cached file returns. */
  lemma ReadLockedIsPRead(c: Cache, offset: nat, len: nat)
    requires c.Valid() && !c.evicting
    ensures ReadLocked(c, offset, len) == Some(PRead(Contents(c), offset, len))
  {
    if offset < c.size {
      var end := Min(offset + len, c.size);
      assert |Contents(c)| == c.size;
      SliceOfPrefix(c.data, c.size, offset, end);
    }
  }

  lemma SliceOfPrefix(s: seq<byte>, n: nat, lo: nat, hi: nat)
    requires lo <= hi <= n <= |s|
    ensures s[..n][lo..hi] == s[lo..hi]
  {
  }

  // ------------------------------------------------------------ the entry in place

  class VFileCache {
    var data: seq<byte>
    var offset: nat
    var modified: bool
    var revision: nat
    var evicting: bool
    var size: nat

    function Value(): Cache
      reads this
    {
      Cache(data, modified, revision, evicting, size)
    }

    constructor ()
      ensures Value() == Cache([], false, 0, false, 0) && offset == 0
    {
      data, offset, modified, revision, evicting, size := [], 0, false, 0, false, 0;
    }

    /** Store `buf` at the entry's offset; small buffers are copied byte by byte. */
    method WriteBuffer(buf: seq<byte>) returns (r: WriteResult)
      requires Value().Valid() && offset + |buf| <= MAX_CACHED_FILE_SIZE
      modifies this
      ensures Value() == WriteBuf(old(Value()), offset, buf) && offset == old(offset)
      ensures r == Written(|data|)
    {
      var end := offset + |buf|;
      if end > size {
        size := end;
      }
      if end > |data| {
        data := data + Zeros(AlignedDown(end) + PAGE_SIZE - |data|);
      }
      if |buf| <= 10 {
        data := CopyBytes(data, offset, buf);
      } else {
        data := Splice(data, offset, buf);
      }
      modified := true;
      revision := revision + 1;
      return Written(|data|);
    }

    method SnapshotForWriteback(room: bool) returns (r: SnapshotResult)
      requires Value().Valid()
      ensures r == SnapshotOf(Value(), room)
    {
      if !modified {
        return Clean;
      }
      if !room {
        return OutOfMemory;
      }
      return Taken(Snapshot(data[..size], revision));
    }

    method MarkCleanIfUnchanged(snapshotRevision: nat)
      modifies this
      ensures Value() == MarkClean(old(Value()), snapshotRevision) && offset == old(offset)
    {
      if revision == snapshotRevision {
        modified := false;
      }
    }

    method ClaimCleanForEviction() returns (claimed: bool)
      modifies this
      ensures (claimed, Value()) == ClaimClean(old(Value())) && offset == old(offset)
    {
      if modified || evicting {
        return false;
      }
      evicting := true;
      return true;
    }

    method CancelEviction()
      modifies this
      ensures Value() == old(Value()).(evicting := false) && offset == old(offset)
    {
      evicting := false;
    }

    /** The body of `write_cached_at` under the entry's write lock. */
    method WriteCachedAt(at: nat, buf: seq<byte>) returns (r: WriteResult)
      requires Value().Valid()
      modifies this
      ensures (r, Value()) == WriteLocked(old(Value()), at, buf)
    {
      if evicting {
        return Bypass;
      }
      var nextSize := at + |buf|;
      if nextSize > USIZE_MAX {
        return Rejected(EINVAL);
      }
      var createsHole := buf != [] && at > size;
      if nextSize > MAX_CACHED_FILE_SIZE || createsHole {
        return Bypass;
      }
      offset := at;
      r := WriteBuffer(buf);
      return Written(|buf|);
    }

    /** The body of `read_cached_at` under the entry's read lock. */
    method ReadCachedAt(at: nat, len: nat) returns (r: Option<seq<byte>>)
      requires Value().Valid()
      ensures r == ReadLocked(Value(), at, len)
    {
      if evicting {
        return None;
      }
      if at >= size {
        return Some([]);
      }
      var end := Min(at + len, size);
      return Some(data[at..end]);
    }
  }

  method CopyBytes(data: seq<byte>, offset: nat, buf: seq<byte>) returns (r: seq<byte>)
    requires offset + |buf| <= |data|
    ensures r == Splice(data, offset, buf)
  {
    r := data;
    var i := 0;
    while i < |buf|
      invariant 0 <= i <= |buf| && |r| == |data|
      invariant forall j :: 0 <= j < |data| ==> r[j] == if offset <= j < offset + i then buf[j - offset] else data[j]
    {
      r := r[offset + i := buf[i]];
      i := i + 1;
    }
  }
}
