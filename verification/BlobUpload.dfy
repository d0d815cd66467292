/**
 Resumable sealed uploads (client_backend/internal/blob/blob.go): opening a part
 at an offset, writing, checkpointing, and the four ways a request ends.
 */
module BlobUpload {
  import opened Common
  import opened BlobFormat
  import opened BlobDisk

  datatype WriteResult = Written | PastTheEnd | WriteFailed

  datatype FinalizeResult = InPlace | Incomplete | FinalizeFailed

  datatype ResumeResult = Resumed(upload: Upload) | OutOfRange | ShortPart | ResumeFailed

  /** Bytes added behind what the record vouches for leave the record as true as it was. */
  lemma SafeGrows(a: ChunkCipher, size: nat, s: DiskState, t: DiskState, c: seq<byte>, d: seq<byte>)
    requires Safe(a, size, s, c)
    requires s.part.Some? && t.part.Some? && s.part.value <= t.part.value && c <= d
    requires t.record == s.record && s.flushed <= t.flushed <= |t.part.value|
    ensures Safe(a, size, t, d)
  {
    var n := ReadSynced(s);
    if n > 0 {
      assert d[..n] == c[..n];
      assert t.part.value[..CipherLen(n)] == s.part.value[..CipherLen(n)];
    }
  }

  /** Cutting the part where the record points, or above, leaves the record true. */
  lemma SafeCut(a: ChunkCipher, size: nat, s: DiskState, c: seq<byte>, offset: nat)
    requires Tagged(a)
    requires Safe(a, size, s, c)
    requires s.part.Some? && CipherLen(offset) <= |s.part.value|
    requires ReadSynced(s) <= offset <= |c|
    ensures var t := s.(part := Some(s.part.value[..CipherLen(offset)]), flushed := Min(s.flushed, CipherLen(offset)), clean := false);
            Safe(a, size, t, c[..offset])
  {
    var n := ReadSynced(s);
    if n > 0 {
      if n < offset {
        CipherLenMonotone(n, offset);
      }
      assert c[..offset][..n] == c[..n];
      assert s.part.value[..CipherLen(offset)][..CipherLen(n)] == s.part.value[..CipherLen(n)];
    }
  }

  /** Lowering the record to an earlier boundary it covered leaves it true. */
  lemma SafeLowered(a: ChunkCipher, size: nat, s: DiskState, c: seq<byte>, n: nat)
    requires Tagged(a)
    requires Safe(a, size, s, c)
    requires n < ReadSynced(s) && (s.part.Some? ==> Boundary(n, size))
    ensures Safe(a, size, s.(record := Some(n)), c)
  {
    if s.part.Some? {
      StableBelow(a, size, s, c, ReadSynced(s), n);
    }
  }

  lemma TakenSoFar(now: seq<byte>, before: seq<byte>, p: seq<byte>, n: nat)
    requires n <= |p| && now + p[n..] == before + p
    ensures now == before + p[..n]
  {
    assert before + p == (before + p[..n]) + p[n..];
    SplitEqual(now, p[n..], before + p[..n], p[n..]);
  }

  /** An upload in progress. `sound` is false once a write to the part has failed. */
  class Upload {
    const disk: Disk
    var sealed: nat
    var synced: nat
    var tail: seq<byte>
    var sound: bool

    constructor (disk: Disk, offset: nat)
      ensures this.disk == disk
      ensures sealed == synced == offset && tail == [] && sound
    {
      this.disk := disk;
      this.sealed, this.synced, this.tail, this.sound := offset, offset, [], true;
    }

    /** The part holds the sealed chunks of what was delivered, and `tail` the rest of it. */
    ghost predicate Valid()
      reads this, disk
    {
      && Tagged(disk.cipher)
      && disk.Valid()
      && Boundary(sealed, disk.size)
      && |disk.content| == sealed
      && |tail| <= CHUNK && sealed + |tail| <= disk.size
      && (tail != [] ==> sealed % CHUNK == 0)
      && (sound && tail != [] ==> |tail| < CHUNK && sealed + |tail| < disk.size)
      && (!sound ==> tail != [])
      && disk.state.part.Some?
      && Encode(disk.cipher, disk.content, disk.size) <= disk.state.part.value
      && (sound ==> disk.state.part.value == Encode(disk.cipher, disk.content, disk.size))
      && synced == ReadSynced(disk.state) && synced <= sealed
    }

    /** Everything this part's requests have delivered and kept. */
    function Delivered(): (d: seq<byte>)
      reads this, disk
    {
      disk.content + tail
    }

    /** Seals the chunk in `tail` and appends it to the part. */
    method SealTail() returns (ok: bool)
      requires Tagged(disk.cipher) && disk.Valid()
      requires |disk.content| == sealed && sealed % CHUNK == 0
      requires 0 < |tail| <= CHUNK && sealed + |tail| <= disk.size
      requires |tail| == CHUNK || sealed + |tail| == disk.size
      requires disk.state.part == Some(Encode(disk.cipher, disk.content, disk.size))
      requires synced == ReadSynced(disk.state) && synced <= sealed && sound
      requires disk.want.Some? ==> Delivered() <= disk.want.value
      modifies this, disk
      ensures Valid()
      ensures Delivered() == old(Delivered())
      ensures ok == sound && (ok ==> tail == [])
      ensures ok <==> disk.faults == old(disk.faults)
      ensures disk.faults >= old(disk.faults)
      ensures synced == old(synced) && disk.state.record == old(disk.state.record)
      ensures disk.state.file == old(disk.state.file)
    {
      hide Encode, Tagged;
      var i := sealed / CHUNK;
      var last := sealed + |tail| == disk.size;
      assert sealed == i * CHUNK;
      EncodeAppend(disk.cipher, disk.content, tail, i, disk.size);
      ok := disk.Append(disk.cipher.seal(i, last, tail), disk.content + tail);
      SafeGrows(disk.cipher, disk.size, old(disk.state), disk.state, old(disk.content), disk.content);
      if ok {
        assert (sealed + |tail|) % CHUNK == 0 || last;
        sealed, tail := sealed + |tail|, [];
        assert disk.content + [] == disk.content;
      } else {
        sound := false;
      }
    }

    /** Takes as much of `p` as the chunk still arriving has room for, and seals it once it is whole. */
    method TakeIntoChunk(p: seq<byte>) returns (k: nat, ok: bool)
      requires Valid() && sound
      requires |p| > 0 && sealed + |tail| < disk.size
      requires disk.want.Some? ==> Delivered() + p <= disk.want.value
      modifies this, disk
      ensures Valid() && ok == sound
      ensures ok <==> disk.faults == old(disk.faults)
      ensures disk.faults >= old(disk.faults)
      ensures 0 < k <= |p| && Delivered() == old(Delivered()) + p[..k]
      ensures synced == old(synced) && disk.state.record == old(disk.state.record)
      ensures disk.state.file == old(disk.state.file)
    {
      var want := Min(CHUNK - |tail|, disk.size - sealed - |tail|);
      k := Min(want, |p|);
      ghost var before := tail;
      tail := tail + p[..k];
      ok := true;
      assert Delivered() == disk.content + before + p[..k];
      assert Delivered() <= disk.content + before + p;
      if |tail| == CHUNK || sealed + |tail| == disk.size {
        ok := SealTail();
      }
    }

    /**
     Takes plaintext into the upload. Whole chunks are sealed and appended as
     they complete, the rest waits for its chunk to fill or the file to end.
     */
    method Write(p: seq<byte>) returns (n: nat, r: WriteResult)
      requires Valid() && sound
      requires disk.want.Some? ==> Delivered() + p <= disk.want.value
      modifies this, disk
      ensures Valid()
      ensures n <= |p| && Delivered() == old(Delivered()) + p[..n]
      ensures r.Written? ==> n == |p| && sound
      ensures r.PastTheEnd? ==> n < |p| && |Delivered()| == disk.size && sound
      ensures r.WriteFailed? == !sound && (r.WriteFailed? <==> disk.faults != old(disk.faults))
      ensures disk.faults >= old(disk.faults)
      ensures synced == old(synced) && disk.state.record == old(disk.state.record)
      ensures disk.state.file == old(disk.state.file)
    {
      hide Encode, Tagged, Boundary, ReadSynced;
      n := 0;
      var rest := p;
      while |rest| > 0
        invariant n <= |p| && rest == p[n..]
        invariant Valid() && sound && disk.faults == old(disk.faults)
        invariant Delivered() + rest == old(Delivered()) + p
        invariant synced == old(synced) && disk.state.record == old(disk.state.record)
        invariant disk.state.file == old(disk.state.file)
        decreases |rest|
      {
        if sealed + |tail| >= disk.size {
          TakenSoFar(Delivered(), old(Delivered()), p, n);
          return n, PastTheEnd;
        }
        var k, ok := TakeIntoChunk(rest);
        assert rest == rest[..k] + rest[k..];
        n, rest := n + k, rest[k..];
        if !ok {
          TakenSoFar(Delivered(), old(Delivered()), p, n);
          return n, WriteFailed;
        }
      }
      TakenSoFar(Delivered(), old(Delivered()), p, n);
      r := Written;
    }

    /** Flushes the sealed chunks first and records them second. */
    method Checkpoint() returns (ok: bool)
      requires Valid()
      modifies this, disk
      ensures Valid()
      ensures Delivered() == old(Delivered()) && sealed == old(sealed) && tail == old(tail) && sound == old(sound)
      ensures ok ==> synced == sealed
      ensures !ok ==> synced == old(synced)
      ensures ok <==> disk.faults == old(disk.faults)
      ensures disk.faults >= old(disk.faults)
      ensures disk.content == old(disk.content) && disk.state.file == old(disk.state.file)
    {
      hide Encode, Tagged, Finished;
      if sealed == synced {
        return true;
      }
      ok := disk.Sync();
      SafeGrows(disk.cipher, disk.size, old(disk.state), disk.state, disk.content, disk.content);
      if !ok {
        return false;
      }
      EncodeLength(disk.cipher, disk.content, disk.size);
      assert disk.content[..sealed] == disk.content;
      ok := disk.WriteSynced(sealed);
      if ok {
        synced := sealed;
      }
    }

    /** Ends the request's writing and keeps the part, every sealed chunk made durable first. */
    method Suspend() returns (ok: bool)
      requires Valid()
      modifies this, disk
      ensures disk.Valid()
      ensures ok ==> ReadSynced(disk.state) == old(sealed) && (old(sealed) > 0 ==> Received(disk.state) == old(sealed))
      ensures ok <==> disk.faults == old(disk.faults)
      ensures disk.faults >= old(disk.faults)
      ensures disk.content == old(disk.content) && disk.state.file == old(disk.state.file)
    {
      ok := Checkpoint();
      if ok && sealed > 0 {
        AllSealedIsReceived();
      }
      tail := [];
    }

    /** Once the record is at everything sealed, that is what the next request is told was received. */
    lemma AllSealedIsReceived()
      requires Valid() && synced == sealed > 0
      ensures Received(disk.state) == sealed
    {
      ReceivedReachesTheRecord(disk.cipher, disk.size, disk.state, disk.content);
      EncodeLength(disk.cipher, disk.content, disk.size);
      PlainLenOfCipherLen(sealed);
    }

    /**
     Drops what was written past `offset`, one this upload started at or made
     durable, and keeps the part. The record goes down before the part is cut.
     */
    method Rollback(offset: nat) returns (ok: bool)
      requires Valid()
      requires offset <= sealed && Boundary(offset, disk.size)
      modifies this, disk
      ensures disk.Valid()
      ensures ok ==> disk.content == old(disk.content)[..offset] && ReadSynced(disk.state) <= offset
      ensures !ok ==> disk.content == old(disk.content)
      ensures ok <==> disk.faults == old(disk.faults)
      ensures disk.faults >= old(disk.faults)
      ensures disk.state.file == old(disk.state.file)
    {
      hide Encode, Tagged, Finished;
      ok := LowerRecord(offset);
      if ok {
        EncodeLength(disk.cipher, disk.content, disk.size);
        if offset < sealed {
          CipherLenMonotone(offset, sealed);
        }
        SafeCut(disk.cipher, disk.size, disk.state, disk.content, offset);
        ok := disk.Truncate(CipherLen(offset), disk.content[..offset]);
        if ok {
          sealed := offset;
        }
      }
      tail := [];
    }

    /** Takes the record down to `offset` where it names more. */
    method LowerRecord(offset: nat) returns (ok: bool)
      requires Valid()
      requires offset <= sealed && Boundary(offset, disk.size)
      modifies this`synced, disk
      ensures Valid()
      ensures ok ==> synced <= offset
      ensures ok <==> disk.faults == old(disk.faults)
      ensures disk.faults >= old(disk.faults)
      ensures disk.content == old(disk.content) && disk.state == old(disk.state).(record := disk.state.record)
    {
      ok := true;
      if synced > offset {
        SafeLowered(disk.cipher, disk.size, disk.state, disk.content, offset);
        ok := disk.WriteSynced(offset);
        if ok {
          synced := offset;
        }
      }
    }

    /**
     Flushes the part, renames it into place and drops the record. It is refused
     exactly when bytes are missing, and fails exactly when the disk does.
     */
    method Finalize() returns (r: FinalizeResult)
      requires Valid()
      modifies this, disk
      ensures disk.Valid()
      ensures r.Incomplete? <==> !(old(sealed) == disk.size && old(tail) == [])
      ensures r.Incomplete? ==> disk.state == old(disk.state) && disk.faults == old(disk.faults)
      ensures r.FinalizeFailed? <==> disk.faults != old(disk.faults)
      ensures disk.faults >= old(disk.faults)
      ensures r.InPlace? ==> |old(Delivered())| == disk.size && disk.state.record.None? && disk.state.part.None?
      ensures r.InPlace? ==> disk.state.file == Some(OnStable(Encode(disk.cipher, old(Delivered()), disk.size)))
      ensures disk.state.file == old(disk.state.file)
           || (|old(Delivered())| == disk.size && disk.state.file == Some(OnStable(Encode(disk.cipher, old(Delivered()), disk.size))))
      ensures disk.content == old(disk.content)
    {
      if sealed != disk.size || |tail| > 0 {
        return Incomplete;
      }
      assert Delivered() == disk.content;
      var ok := disk.Sync();
      SafeGrows(disk.cipher, disk.size, old(disk.state), disk.state, disk.content, disk.content);
      assert disk.want.Some? ==> disk.content == disk.want.value;
      if !ok {
        return FinalizeFailed;
      }
      ok := disk.RenameIntoPlace();
      if !ok {
        return FinalizeFailed;
      }
      ok := disk.RemoveRecord();
      r := if ok then InPlace else FinalizeFailed;
    }

    /** Discards the part and its record; a removal that fails is not reported. */
    method Abort()
      requires disk.Valid()
      modifies this, disk
      ensures disk.Valid()
      ensures disk.content == old(disk.content) && disk.state.file == old(disk.state.file)
      ensures disk.faults == old(disk.faults) ==> disk.state.part.None? && disk.state.record.None?
      ensures disk.faults >= old(disk.faults)
    {
      tail := [];
      var _ := disk.RemovePart();
      var _ := disk.RemoveRecord();
    }
  }

  /**
   Opens the part at `offset`, keeping the sealed chunks before it: refused when
   fewer bytes are durable, and the record lowered before anything is cut.
   */
  method Resume(disk: Disk, offset: int) returns (r: ResumeResult)
    requires Tagged(disk.cipher)
    requires disk.Valid()
    modifies disk
    ensures disk.Valid()
    ensures r.OutOfRange? <==> disk.size < 1 || offset < 0 || offset > disk.size
    ensures r.ShortPart? <==> !r.OutOfRange? && ((offset % CHUNK != 0 && offset != disk.size) || old(Received(disk.state)) < offset)
    ensures r.OutOfRange? || r.ShortPart? ==> disk.state == old(disk.state) && disk.history == old(disk.history)
    ensures r.ResumeFailed? <==> disk.faults != old(disk.faults)
    ensures disk.faults >= old(disk.faults)
    ensures r.Resumed? ==>
      && fresh(r.upload) && r.upload.disk == disk
      && r.upload.Valid() && r.upload.sound
      && offset <= |old(disk.content)| && r.upload.Delivered() == old(disk.content)[..offset]
      && r.upload.synced == r.upload.sealed == offset
    ensures disk.content == old(disk.content) || (offset <= |old(disk.content)| && 0 <= offset && disk.content == old(disk.content)[..offset])
    ensures disk.state.file == old(disk.state.file)
  {
    if disk.size < 1 || offset < 0 || offset > disk.size {
      return OutOfRange;
    }
    if offset % CHUNK != 0 && offset != disk.size {
      return ShortPart;
    }
    var received := Received(disk.state);
    if received < offset {
      return ShortPart;
    }
    ReceivedIsStable(disk.cipher, disk.size, disk.state, disk.content);
    hide Encode, Tagged, Finished, Received, PlainLen, CipherLen;
    var synced := ReadSynced(disk.state);
    if synced > offset {
      if disk.state.part.Some? {
        SafeLowered(disk.cipher, disk.size, disk.state, disk.content, offset);
      }
      var ok := disk.WriteSynced(offset);
      if !ok {
        return ResumeFailed;
      }
      synced := offset;
    }
    var ok := disk.OpenPart();
    if !ok {
      return ResumeFailed;
    }
    if offset == 0 {
      r := StartPart(disk);
    } else {
      r := CutPart(disk, offset);
    }
  }

  /** A new part: the header, written fresh over whatever was there. */
  method StartPart(disk: Disk) returns (r: ResumeResult)
    requires Tagged(disk.cipher)
    requires disk.size >= 1 && disk.Valid()
    requires disk.state.part.Some? && ReadSynced(disk.state) == 0
    modifies disk
    ensures disk.Valid()
    ensures r.Resumed? || r.ResumeFailed?
    ensures r.ResumeFailed? <==> disk.faults != old(disk.faults)
    ensures disk.faults >= old(disk.faults)
    ensures r.Resumed? ==>
      && fresh(r.upload) && r.upload.disk == disk
      && r.upload.Valid() && r.upload.sound && r.upload.Delivered() == [] && r.upload.synced == r.upload.sealed == 0
    ensures disk.content == old(disk.content) || disk.content == []
    ensures disk.state.file == old(disk.state.file)
  {
    var ok := disk.Truncate(0, []);
    if !ok {
      return ResumeFailed;
    }
    ok := disk.Append(Header(), []);
    if !ok {
      return ResumeFailed;
    }
    assert [] + Header() == Header() == Encode(disk.cipher, [], disk.size);
    var up := new Upload(disk, 0);
    r := Resumed(up);
  }

  /** The part cut back to `offset`, where its durable chunks end. */
  method CutPart(disk: Disk, offset: nat) returns (r: ResumeResult)
    requires Tagged(disk.cipher)
    requires disk.Valid()
    requires 0 < offset && Stable(disk.cipher, disk.size, disk.state, disk.content, offset)
    requires ReadSynced(disk.state) == offset
    modifies disk
    ensures disk.Valid()
    ensures r.Resumed? || r.ResumeFailed?
    ensures r.ResumeFailed? <==> disk.faults != old(disk.faults)
    ensures disk.faults >= old(disk.faults)
    ensures r.Resumed? ==>
      && fresh(r.upload) && r.upload.disk == disk
      && r.upload.Valid() && r.upload.sound
      && r.upload.Delivered() == old(disk.content)[..offset] && r.upload.synced == r.upload.sealed == offset
    ensures disk.content == old(disk.content) || disk.content == old(disk.content)[..offset]
    ensures disk.state.file == old(disk.state.file)
  {
    SafeCut(disk.cipher, disk.size, disk.state, disk.content, offset);
    var ok := disk.Truncate(CipherLen(offset), disk.content[..offset]);
    if !ok {
      return ResumeFailed;
    }
    var up := new Upload(disk, offset);
    assert up.Delivered() == disk.content;
    r := Resumed(up);
  }
}
