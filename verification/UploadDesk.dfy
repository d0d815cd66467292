/**
 One file's place in the upload directory: its disk and the upload under way on
 it, if any (client_backend/internal/blob/blob.go as
 client_backend/internal/server/files.go drives it).
 */
module UploadDesk {
  import opened Common
  import opened BlobFormat
  import opened BlobDisk
  import opened BlobUpload
  import opened BlobRuns

  /** A crash that loses nothing: what a power cut leaves at best. */
  function Survivor(s: DiskState): (t: DiskState)
  {
    s.(flushed := if s.part.Some? then |s.part.value| else 0,
       file := if s.file.Some? then Some(OnStable(s.file.value.bytes)) else None)
  }

  lemma SurvivorIsAnOutcome(a: ChunkCipher, size: nat, s: DiskState, content: seq<byte>)
    requires Safe(a, size, s, content) && (s.file.Some? ==> Finished(a, size, s.file.value))
    ensures CrashOutcome(s, Survivor(s))
  {
  }

  /** What a request does to its file. */
  datatype Work = OpeningIt | Sending(bytes: seq<byte>) | Flushing | Stopping(tooBig: bool) | Finishing

  class Desk {
    const disk: Disk
    var upload: Upload?

    constructor (cipher: ChunkCipher, size: nat)
      requires Tagged(cipher)
      ensures Valid() && fresh(disk) && upload == null
      ensures disk.cipher == cipher && disk.size == size && disk.state == Empty && disk.content == [] && disk.faults == 0
    {
      disk := new Disk(cipher, size, None);
      upload := null;
    }

    ghost predicate Valid()
      reads this, disk, upload
    {
      && Underway(disk, upload) && disk.want.None?
      && (upload != null ==> upload.sound && upload.disk == disk)
    }

    /** Opens the part for writing; success means the bytes before `offset` are sealed on stable storage. */
    method Open(offset: nat) returns (ok: bool)
      requires Valid() && upload == null
      modifies this, disk
      ensures Valid() && (ok <==> upload != null) && (upload != null ==> fresh(upload))
      ensures disk.state.file == old(disk.state.file)
      ensures ok <==> offset <= old(Received(disk.state)) && Boundary(offset, disk.size) && disk.size >= 1
                      && disk.faults == old(disk.faults)
      ensures ok ==> offset <= |old(disk.content)| && upload.Delivered() == old(disk.content)[..offset]
      ensures ok && offset > 0 ==> Stable(disk.cipher, disk.size, old(disk.state), old(disk.content), offset)
      ensures disk.faults >= old(disk.faults)
    {
      hide Encode, Tagged, PlainLen, Finished;
      ReceivedIsStable(disk.cipher, disk.size, disk.state, disk.content);
      if 0 < offset <= Received(disk.state) && offset % CHUNK == 0 {
        StableBelow(disk.cipher, disk.size, disk.state, disk.content, Received(disk.state), offset);
      }
      var r := Resume(disk, offset);
      ok := r.Resumed?;
      if ok {
        upload := r.upload;
      }
    }

    /** More bytes; a write that fails rolls the part back, or throws it away, and ends the upload. */
    method Send(bytes: seq<byte>)
      requires Valid() && upload != null
      modifies this, disk, upload
      ensures Valid() && (upload == null || upload == old(upload))
      ensures disk.state.file == old(disk.state.file)
      ensures upload != null <==> disk.faults == old(disk.faults)
      ensures upload != null && |old(upload.Delivered())| + |bytes| <= disk.size ==>
                upload.Delivered() == old(upload.Delivered()) + bytes
      ensures disk.faults >= old(disk.faults)
    {
      hide Encode, Tagged, Finished;
      upload := Continue(disk, upload, Event.Send(bytes));
    }

    method Checkpoint()
      requires Valid() && upload != null
      modifies this, disk, upload
      ensures Valid() && (upload == null || upload == old(upload))
      ensures disk.state.file == old(disk.state.file)
      ensures upload != null <==> disk.faults == old(disk.faults)
      ensures disk.faults >= old(disk.faults)
    {
      hide Encode, Tagged, Finished;
      upload := Continue(disk, upload, Flush);
    }

    /** The request ends: what it delivered is kept, or, when it was more than the file, taken back to `offset`. */
    method Stop(tooBig: bool, offset: nat)
      requires Valid() && upload != null
      modifies this, disk, upload
      ensures Valid() && upload == null
      ensures disk.state.file == old(disk.state.file)
      ensures disk.faults >= old(disk.faults)
    {
      hide Encode, Tagged, Finished;
      LetGo(disk, upload, if tooBig then TakeBack(offset) else Break);
      upload := null;
    }

    /** Every byte is in: the part becomes the file, wholly on stable storage, or stays a part. */
    method Finish() returns (ok: bool)
      requires Valid() && upload != null
      modifies this, disk, upload
      ensures Valid() && upload == null
      ensures ok ==> disk.state.file.Some?
      ensures ok <==> |old(upload.Delivered())| == disk.size && disk.faults == old(disk.faults)
      ensures ok ==> disk.state.file == Some(OnStable(Encode(disk.cipher, old(upload.Delivered()), disk.size)))
      ensures disk.faults >= old(disk.faults)
    {
      hide Encode, Tagged, Finished;
      var r := upload.Finalize();
      ok := r.InPlace?;
      upload := null;
    }

    /** One piece of a request's work, where `offset` is the one its token names. */
    method Do(offset: nat, work: Work) returns (ok: bool)
      requires Valid() && (work.OpeningIt? <==> upload == null)
      modifies this, disk, upload
      ensures Valid() && (upload == null || upload == old(upload) || fresh(upload))
      ensures work.OpeningIt? ==> (ok <==> upload != null)
      ensures work.Stopping? || work.Finishing? ==> upload == null
      ensures !work.Finishing? ==> disk.state.file == old(disk.state.file)
      ensures work.Finishing? && ok ==> disk.state.file.Some?
      ensures work.OpeningIt? && ok ==>
        && Boundary(offset, disk.size)
        && (offset > 0 ==> Stable(disk.cipher, disk.size, old(disk.state), old(disk.content), offset))
      ensures work.OpeningIt? ==> (ok <==> offset <= old(Received(disk.state)) && Boundary(offset, disk.size) && disk.size >= 1
                                           && disk.faults == old(disk.faults))
      ensures work.OpeningIt? && ok ==> offset <= |old(disk.content)| && upload.Delivered() == old(disk.content)[..offset]
      ensures work.Sending? || work.Flushing? ==> (upload != null <==> disk.faults == old(disk.faults))
      ensures work.Sending? && upload != null && |old(upload.Delivered())| + |work.bytes| <= disk.size ==>
                upload.Delivered() == old(upload.Delivered()) + work.bytes
      ensures work.Finishing? ==> (ok <==> |old(upload.Delivered())| == disk.size && disk.faults == old(disk.faults))
      ensures work.Finishing? && ok ==>
                disk.state.file == Some(OnStable(Encode(disk.cipher, old(upload.Delivered()), disk.size)))
      ensures disk.faults >= old(disk.faults)
    {
      hide Underway, Stable, Boundary, Received, Encode;
      ok := true;
      match work {
        case OpeningIt => ok := Open(offset);
        case Sending(bytes) => Send(bytes);
        case Flushing => Checkpoint();
        case Stopping(tooBig) => Stop(tooBig, offset);
        case Finishing => ok := Finish();
      }
    }

    /** The power goes, at the given moment of this disk's past, with the given outcome where it is one. */
    method PowerOff(moment: nat, outcome: DiskState)
      requires Valid() && moment < |disk.history|
      modifies this, disk
      ensures Valid() && upload == null
      ensures CrashOutcome(old(disk.history)[moment].state, disk.state)
      ensures old(disk.history)[moment].state.file.Some? ==> disk.state.file == old(disk.history)[moment].state.file
    {
      hide Encode, Tagged, Finished;
      var m := disk.history[moment];
      assert disk.Good(m);
      SurvivorIsAnOutcome(disk.cipher, disk.size, m.state, m.content);
      var t := if CrashOutcome(m.state, outcome) then outcome else Survivor(m.state);
      if m.state.file.Some? {
        FinishedThroughCrash(disk.cipher, disk.size, m.state, t);
      }
      disk.Crash(m, t);
      upload := null;
    }
  }
}
