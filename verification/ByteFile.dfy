/**
  Files as the storage layer sees them: a byte sequence whose length is the end
  of file. Bytes beyond the end read as zero, and a write past the end leaves a
  hole that reads as zero.
 */
module ByteFile {
  import opened Basics

  type byte = b: int | 0 <= b < 256

  /** The byte a reader finds at `i`, holes and the region past the end included. */
  function At(file: seq<byte>, i: nat): byte {
    if i < |file| then file[i] else 0
  }

  /** pwrite(2): an empty write changes nothing, not even the end of file. */
  function PWrite(file: seq<byte>, offset: nat, data: seq<byte>): seq<byte> {
    if data == [] then file
    else seq(Max(|file|, offset + |data|),
             i requires 0 <= i =>
               if offset <= i < offset + |data| then data[i - offset] else At(file, i))
  }

  /** pread(2) into a buffer of `len` bytes: the bytes up to the end of file. */
  function PRead(file: seq<byte>, offset: nat, len: nat): seq<byte> {
    if offset >= |file| then [] else file[offset..Min(offset + len, |file|)]
  }

  /** Overwrite part of a buffer in place, as `copy_from_slice` does. */
  function Splice<T>(buffer: seq<T>, at: nat, data: seq<T>): (r: seq<T>)
    requires at + |data| <= |buffer|
    ensures |r| == |buffer|
    ensures forall i :: 0 <= i < |r| ==>
                          r[i] == if at <= i < at + |data| then data[i - at] else buffer[i]
  {
    buffer[..at] + data + buffer[at + |data|..]
  }

  lemma SliceOfSlice<T>(s: seq<T>, a: nat, b: nat, lo: nat, hi: nat)
    requires a <= b <= |s| && lo <= hi <= b - a
    ensures s[a..b][lo..hi] == s[a + lo..a + hi]
  {
    var inner, outer := s[a..b][lo..hi], s[a + lo..a + hi];
    assert forall i :: 0 <= i < |inner| ==> inner[i] == outer[i];
  }

  /** A byte that is not the first one of `file`. */
  function OtherByte(file: seq<byte>): byte { if file != [] && file[0] == 0 then 1 else 0 }

  lemma OtherByteDiffers(file: seq<byte>)
    ensures PWrite(file, 0, [OtherByte(file)]) != file
  {
    var b := OtherByte(file);
    assert PWrite(file, 0, [b])[0] == b;
  }
}
