/**
  Byte-addressed reads and writes on a device of 512-byte blocks. Unaligned ends go
  through one block at a time, whole blocks in bulk. The device may fail any request,
  and a failed write may have stored any prefix of its data.
 */
module DiskIo {
  import opened Basics
  import opened ByteFile

  const BLOCK_SIZE: nat := 512

  datatype Result = Ok(count: nat) | InvalidParam | DeviceError

  /** How the device answers one request. */
  datatype Answer = Done | Fails(stored: nat)

  predicate AllDone(answers: seq<Answer>) { forall i :: 0 <= i < |answers| ==> answers[i] == Done }

  /** The request lies inside the device. */
  predicate InRange(size: nat, offset: nat, len: nat) { offset + len <= USIZE_MAX && offset + len <= size }

  /** The image after a write that did not complete: inside the range old or new bytes, outside nothing changed. */
  ghost predicate Torn(before: seq<byte>, after: seq<byte>, offset: nat, data: seq<byte>) {
    && |after| == |before|
    && forall i :: 0 <= i < |before| ==>
         after[i] == before[i] || (offset <= i < offset + |data| && after[i] == data[i - offset])
  }

  /** The first `done` bytes of a buffer have reached their place in the image. */
  ghost predicate Written(before: seq<byte>, image: seq<byte>, offset: nat, buf: seq<byte>, done: nat) {
    done <= |buf| && offset + |buf| <= |before| && image == Splice(before, offset, buf[..done])
  }

  /** Writing on from where an earlier part of the same buffer ended. */
  lemma {:induction false} WriteOn(before: seq<byte>, image: seq<byte>, offset: nat, buf: seq<byte>, done: nat,
                                   count: nat)
    requires Written(before, image, offset, buf, done) && done + count <= |buf|
    ensures |image| == |before|
    ensures Written(before, Splice(image, offset + done, buf[done..done + count]), offset, buf, done + count)
  {
  }

  /** Reading a block, changing part of it and writing it back changes that part only. */
  lemma {:induction false} ReadModifyWrite(image: seq<byte>, start: nat, inBlock: nat, chunk: seq<byte>)
    requires inBlock + |chunk| <= BLOCK_SIZE && start + BLOCK_SIZE <= |image|
    ensures Splice(image, start, Splice(image[start..start + BLOCK_SIZE], inBlock, chunk))
         == Splice(image, start + inBlock, chunk)
  {
  }

  /** A torn write of part of the buffer, after the part before it was stored, is a torn write of the buffer. */
  lemma {:induction false} TornOn(before: seq<byte>, image: seq<byte>, offset: nat, buf: seq<byte>, done: nat,
                                  count: nat,
                                  after: seq<byte>)
    requires Written(before, image, offset, buf, done) && done + count <= |buf|
    requires Torn(image, after, offset + done, buf[done..done + count])
    ensures Torn(before, after, offset, buf)
  {
  }

  lemma {:induction false} Onward(before: seq<byte>, image: seq<byte>, after: seq<byte>, offset: nat, buf: seq<byte>,
                                  done: nat, count: nat, ok: bool)
    requires Written(before, image, offset, buf, done) && done + count <= |buf|
    requires Torn(image, after, offset + done, buf[done..done + count])
    requires |image| == |before| && (ok ==> after == Splice(image, offset + done, buf[done..done + count]))
    ensures |after| == |before|
    ensures if ok then Written(before, after, offset, buf, done + count) else Torn(before, after, offset, buf)
  {
    WriteOn(before, image, offset, buf, done, count);
    TornOn(before, image, offset, buf, done, count, after);
  }

  /** So is a torn write of the modified block, which differs from the old one in that part only. */
  lemma {:induction false} TornBlock(image: seq<byte>, start: nat, inBlock: nat, chunk: seq<byte>, after: seq<byte>)
    requires inBlock + |chunk| <= BLOCK_SIZE && start + BLOCK_SIZE <= |image|
    requires Torn(image, after, start, Splice(image[start..start + BLOCK_SIZE], inBlock, chunk))
    ensures Torn(image, after, start + inBlock, chunk)
  {
  }

  /** The first `done` bytes of a buffer are the bytes of the image from `offset`. */
  ghost predicate Filled(buf: seq<byte>, image: seq<byte>, offset: nat, done: nat) {
    done <= |buf| && offset + |buf| <= |image| && buf[..done] == image[offset..offset + done]
  }

  lemma {:induction false} ReadOn(buf: seq<byte>, image: seq<byte>, offset: nat, done: nat, chunk: seq<byte>)
    requires Filled(buf, image, offset, done) && done + |chunk| <= |buf|
    requires chunk == image[offset + done..offset + done + |chunk|]
    ensures Filled(Splice(buf, done, chunk), image, offset, done + |chunk|)
  {
    var end := done + |chunk|;
    assert Splice(buf, done, chunk)[..end] == buf[..done] + chunk;
    assert image[offset..offset + done] + image[offset + done..offset + end] == image[offset..offset + end];
  }

  /** A device holds whole blocks only, so a block that begins inside it ends inside it. */
  lemma BlockInside(size: nat, blockId: nat, inBlock: nat)
    requires size % BLOCK_SIZE == 0 && inBlock < BLOCK_SIZE && blockId * BLOCK_SIZE + inBlock < size
    ensures (blockId + 1) * BLOCK_SIZE <= size
  {
  }

  /** The block position that corresponds to a byte position. */
  predicate Points(blockId: nat, inBlock: nat, at: nat) {
    inBlock < BLOCK_SIZE && blockId * BLOCK_SIZE + inBlock == at
  }

  class Disk {
    var image: seq<byte>
    var answers: seq<Answer>

    ghost predicate Valid()
      reads this
    {
      |image| % BLOCK_SIZE == 0
    }

    method NextAnswer() returns (a: Answer)
      modifies this`answers
      ensures AllDone(old(answers)) ==> a == Done && AllDone(answers)
    {
      if answers == [] {
        return Done;
      }
      a := answers[0];
      answers := answers[1..];
    }

    /** Read `count` whole blocks. */
    method ReadBlock(blockId: nat, count: nat) returns (r: Option<seq<byte>>)
      requires (blockId + count) * BLOCK_SIZE <= |image|
      modifies this`answers
      ensures r.Some? ==> r.value == image[blockId * BLOCK_SIZE..(blockId + count) * BLOCK_SIZE]
      ensures AllDone(old(answers)) ==> r.Some? && AllDone(answers)
    {
      var answer := NextAnswer();
      if answer.Fails? {
        return None;
      }
      return Some(image[blockId * BLOCK_SIZE..(blockId + count) * BLOCK_SIZE]);
    }

    /** Write whole blocks. */
    method WriteBlock(blockId: nat, data: seq<byte>) returns (ok: bool)
      requires |data| % BLOCK_SIZE == 0 && blockId * BLOCK_SIZE + |data| <= |image|
      modifies this
      ensures ok ==> image == Splice(old(image), blockId * BLOCK_SIZE, data)
      ensures Torn(old(image), image, blockId * BLOCK_SIZE, data)
      ensures AllDone(old(answers)) ==> ok && AllDone(answers)
    {
      var answer := NextAnswer();
      match answer
      case Done =>
        image := Splice(image, blockId * BLOCK_SIZE, data);
        return true;
      case Fails(stored) =>
        image := Splice(image, blockId * BLOCK_SIZE, data[..Min(stored, |data|)]);
        return false;
    }

    /** Read exactly the bytes `[offset, offset + buf.Length)` of the device. */
    method ReadAt(offset: nat, buf: array<byte>) returns (r: Result)
      requires Valid()
      modifies this`answers, buf
      ensures r == InvalidParam <==> !InRange(|image|, offset, buf.Length)
      ensures r == InvalidParam ==> buf[..] == old(buf[..])
      ensures r.Ok? ==> r.count == buf.Length && buf[..] == image[offset..offset + buf.Length]
      ensures AllDone(old(answers)) ==> r != DeviceError
    {
      if !InRange(|image|, offset, buf.Length) {
        return InvalidParam;
      }
      var blockId: nat, inBlock: nat, done: nat := offset / BLOCK_SIZE, offset % BLOCK_SIZE, 0;
      while done < buf.Length
        invariant done <= buf.Length && (done < buf.Length ==> Points(blockId, inBlock, offset + done))
        invariant Filled(buf[..], image, offset, done)
        invariant AllDone(old(answers)) ==> AllDone(answers)
      {
        var remaining := buf.Length - done;
        if inBlock == 0 && remaining >= BLOCK_SIZE {
          var count := remaining / BLOCK_SIZE;
          var ok := ReadOnward(blockId, count, 0, offset, buf, done, count * BLOCK_SIZE);
          if !ok {
            return DeviceError;
          }
          done := done + count * BLOCK_SIZE;
          blockId := blockId + count;
        } else {
          var count := Min(remaining, BLOCK_SIZE - inBlock);
          BlockInside(|image|, blockId, inBlock);
          var ok := ReadOnward(blockId, 1, inBlock, offset, buf, done, count);
          if !ok {
            return DeviceError;
          }
          done := done + count;
          blockId, inBlock := blockId + 1, 0;
        }
      }
      assert buf[..done] == buf[..];
      return Ok(done);
    }

    /** The next `count` bytes of a request, which lie in `blocks` blocks. */
    method ReadOnward(blockId: nat, blocks: nat, inBlock: nat, offset: nat, buf: array<byte>, done: nat, count: nat)
      returns (ok: bool)
      requires Filled(buf[..], image, offset, done) && done + count <= buf.Length
      requires Points(blockId, inBlock, offset + done)
      requires inBlock + count <= blocks * BLOCK_SIZE && (blockId + blocks) * BLOCK_SIZE <= |image|
      modifies this`answers, buf
      ensures ok ==> Filled(buf[..], image, offset, done + count)
      ensures AllDone(old(answers)) ==> ok && AllDone(answers)
    {
      var data := ReadBlock(blockId, blocks);
      if data == None {
        return false;
      }
      var chunk := data.value[inBlock..inBlock + count];
      SliceOfSlice(image, blockId * BLOCK_SIZE, (blockId + blocks) * BLOCK_SIZE, inBlock, inBlock + count);
      ReadOn(buf[..], image, offset, done, chunk);
      CopyInto(buf, done, chunk);
      return true;
    }

    /** Write exactly the bytes `[offset, offset + |buf|)` of the device. */
    method WriteAt(offset: nat, buf: seq<byte>) returns (r: Result)
      requires Valid()
      modifies this
      ensures Valid()
      ensures r == InvalidParam <==> !InRange(old(|image|), offset, |buf|)
      ensures r == InvalidParam ==> image == old(image)
      ensures r.Ok? ==> r.count == |buf| && image == Splice(old(image), offset, buf)
      ensures r == DeviceError ==> Torn(old(image), image, offset, buf)
      ensures AllDone(old(answers)) ==> r != DeviceError
    {
      if !InRange(|image|, offset, |buf|) {
        return InvalidParam;
      }
      var blockId: nat, inBlock: nat, done: nat := offset / BLOCK_SIZE, offset % BLOCK_SIZE, 0;
      while done < |buf|
        invariant done <= |buf| && (done < |buf| ==> Points(blockId, inBlock, offset + done))
        invariant Written(old(image), image, offset, buf, done)
        invariant AllDone(old(answers)) ==> AllDone(answers)
      {
        var remaining := |buf| - done;
        if inBlock == 0 && remaining >= BLOCK_SIZE {
          var count := remaining / BLOCK_SIZE;
          var ok := WriteOnward(blockId, 0, old(image), offset, buf, done, count * BLOCK_SIZE);
          if !ok {
            return DeviceError;
          }
          done := done + count * BLOCK_SIZE;
          blockId := blockId + count;
        } else {
          var count := Min(remaining, BLOCK_SIZE - inBlock);
          BlockInside(|image|, blockId, inBlock);
          var ok := WriteOnward(blockId, inBlock, old(image), offset, buf, done, count);
          if !ok {
            return DeviceError;
          }
          done := done + count;
          blockId, inBlock := blockId + 1, 0;
        }
      }
      assert buf[..done] == buf;
      return Ok(done);
    }

    /** The next `count` bytes of a request: whole blocks at once, part of a block by read-modify-write. */
    method WriteOnward(blockId: nat, inBlock: nat, ghost before: seq<byte>, offset: nat, buf: seq<byte>, done: nat,
                       count: nat)
      returns (ok: bool)
      requires Written(before, image, offset, buf, done) && done + count <= |buf|
      requires Points(blockId, inBlock, offset + done)
      requires (inBlock == 0 && count % BLOCK_SIZE == 0)
               || (inBlock + count <= BLOCK_SIZE && (blockId + 1) * BLOCK_SIZE <= |image|)
      modifies this
      ensures |image| == |before|
      ensures if ok then Written(before, image, offset, buf, done + count) else Torn(before, image, offset, buf)
      ensures AllDone(old(answers)) ==> ok && AllDone(answers)
    {
      var chunk := buf[done..done + count];
      if inBlock == 0 && count % BLOCK_SIZE == 0 {
        ok := WriteBlock(blockId, chunk);
      } else {
        ok := WritePart(blockId, inBlock, chunk);
      }
      Onward(before, old(image), image, offset, buf, done, count, ok);
    }

    /** Read-modify-write of part of one block. */
    method WritePart(blockId: nat, inBlock: nat, chunk: seq<byte>) returns (ok: bool)
      requires inBlock + |chunk| <= BLOCK_SIZE && (blockId + 1) * BLOCK_SIZE <= |image|
      modifies this
      ensures ok ==> image == Splice(old(image), blockId * BLOCK_SIZE + inBlock, chunk)
      ensures Torn(old(image), image, blockId * BLOCK_SIZE + inBlock, chunk)
      ensures AllDone(old(answers)) ==> ok && AllDone(answers)
    {
      var block := ReadBlock(blockId, 1);
      if block == None {
        return false;
      }
      ok := WriteBlock(blockId, Splice(block.value, inBlock, chunk));
      ReadModifyWrite(old(image), blockId * BLOCK_SIZE, inBlock, chunk);
      TornBlock(old(image), blockId * BLOCK_SIZE, inBlock, chunk, image);
    }
  }

  method CopyInto(buf: array<byte>, at: nat, data: seq<byte>)
    requires at + |data| <= buf.Length
    modifies buf
    ensures buf[..] == Splice(old(buf[..]), at, data)
  {
    forall i | 0 <= i < |data| { buf[at + i] := data[i]; }
  }
}
