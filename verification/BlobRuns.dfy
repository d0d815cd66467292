/**
 Whole runs of uploads of one file: any requests in any order, cut anywhere,
 with storage failing anywhere and a crash between any two file operations
 (client_backend/internal/blob/blob.go, driven by server/files.go).
 */
module BlobRuns {
  import opened Common
  import opened BlobFormat
  import opened BlobDisk
  import opened BlobUpload

  /** One thing that can happen to the file next. */
  datatype Event =
    | Open(offset: int)
    | Send(bytes: seq<byte>)
    | Flush
    | Break
    | TakeBack(to: nat)
    | Finish
    | Throw
    | Power(moment: nat, outcome: DiskState)

  /** The upload under way: an open part, in good order with the disk. */
  ghost predicate Underway(disk: Disk, up: Upload?)
    reads disk, up
  {
    && Tagged(disk.cipher)
    && disk.Valid()
    && (up != null ==> up.disk == disk && up.Valid())
  }

  /** The bytes a request that knows the file would send next, at most as many as `bytes`. */
  function Carried(up: Upload, bytes: seq<byte>): (p: seq<byte>)
    requires up.disk.want.Some? ==> up.Delivered() <= up.disk.want.value
    reads up, up.disk
    ensures up.disk.want.Some? ==> up.Delivered() + p <= up.disk.want.value
    ensures up.disk.want.None? ==> p == bytes
  {
    if up.disk.want.None? then bytes
    else
      var rest := up.disk.want.value[|up.Delivered()|..];
      rest[..Min(|bytes|, |rest|)]
  }

  /** What a request that stays open does: more bytes, or a checkpoint. A write or a checkpoint that fails ends it. */
  method Continue(disk: Disk, up: Upload, e: Event) returns (next: Upload?)
    requires Underway(disk, up)
    requires up.sound && (disk.want.Some? ==> up.Delivered() <= disk.want.value)
    requires e.Send? || e.Flush?
    modifies disk, up
    ensures next == null || next == up
    ensures Underway(disk, next)
    ensures next != null ==> next.sound && (disk.want.Some? ==> next.Delivered() <= disk.want.value)
    ensures disk.state.file == old(disk.state.file)
    ensures (next != null <==> disk.faults == old(disk.faults)) && disk.faults >= old(disk.faults)
    ensures next != null ==> old(up.Delivered()) <= next.Delivered()
    ensures next != null && e.Send? && disk.want.None? && |old(up.Delivered())| + |e.bytes| <= disk.size ==>
              next.Delivered() == old(up.Delivered()) + e.bytes
  {
    if e.Flush? {
      var ok := up.Checkpoint();
      if !ok {
        GiveUp(disk, up);
        return null;
      }
      return up;
    }
    var p := Carried(up, e.bytes);
    ghost var target := up.Delivered() + p;
    var n, r := up.Write(p);
    if r.WriteFailed? {
      GiveUp(disk, up);
      return null;
    }
    assert up.Delivered() <= target;
    next := up;
  }

  /** The disk refused: the part is cut back to what is durable, or thrown away when even that fails. */
  method GiveUp(disk: Disk, up: Upload)
    requires Underway(disk, up)
    modifies disk, up
    ensures Underway(disk, null) && disk.state.file == old(disk.state.file)
    ensures disk.faults >= old(disk.faults)
  {
    hide Encode, Tagged, Finished;
    var ok := up.Rollback(up.synced);
    if !ok {
      up.Abort();
    }
  }

  /** The ways a request lets go of the part. */
  method LetGo(disk: Disk, up: Upload, e: Event)
    requires Underway(disk, up)
    requires up.sound && (disk.want.Some? ==> up.Delivered() <= disk.want.value)
    requires e.Break? || e.TakeBack? || e.Finish? || e.Throw?
    modifies disk, up
    ensures Underway(disk, null)
    ensures !e.Finish? ==> disk.state.file == old(disk.state.file)
    ensures disk.faults >= old(disk.faults)
  {
    match e
    case Break =>
      var _ := up.Suspend();
    case TakeBack(offset) =>
      if offset <= up.sealed && Boundary(offset, disk.size) {
        var _ := up.Rollback(offset);
      }
    case Finish =>
      var _ := up.Finalize();
    case Throw =>
      up.Abort();
  }

  /** One event of a run. An event that does not apply changes nothing. */
  method Step(disk: Disk, up: Upload?, e: Event) returns (next: Upload?)
    requires Underway(disk, up)
    requires up != null ==> up.sound && (disk.want.Some? ==> up.Delivered() <= disk.want.value)
    modifies disk, up
    ensures next == null || next == up || fresh(next)
    ensures Underway(disk, next)
    ensures next != null ==> next.sound && (disk.want.Some? ==> next.Delivered() <= disk.want.value)
  {
    next := up;
    match e
    case Power(moment, outcome) =>
      if moment < |disk.history| && CrashOutcome(disk.history[moment].state, outcome) {
        disk.Crash(disk.history[moment], outcome);
        next := null;
      }
    case Open(offset) =>
      if up == null {
        ghost var before := disk.content;
        var r := Resume(disk, offset);
        if r.Resumed? {
          next := r.upload;
          assert next.Delivered() <= before;
        }
      }
    case Send(_) =>
      if up != null {
        next := Continue(disk, up, e);
      }
    case Flush =>
      if up != null {
        next := Continue(disk, up, e);
      }
    case _ =>
      if up != null {
        LetGo(disk, up, e);
        next := null;
      }
  }

  /**
   After every run of requests and crashes, a crash at any moment of it leaves a
   disk whose Received is a chunk boundary or the whole file, all of it sealed on
   stable storage as it was delivered, and with a finished file just as it was:
   whole, and wholly on stable storage. When every request carried the bytes of one
   file, however they were split, those are its bytes and a finished file is
   exactly its header and sealed chunks.
   */
  method AnyRun(cipher: ChunkCipher, size: nat, want: Option<seq<byte>>, events: seq<Event>) returns (disk: Disk)
    requires Tagged(cipher)
    requires want.Some? ==> |want.value| == size
    ensures fresh(disk) && disk.cipher == cipher && disk.size == size && disk.want == want
    ensures disk.Valid()
    ensures forall m, t {:trigger CrashOutcome(m.state, t)} :: m in disk.history && CrashOutcome(m.state, t) ==>
      var n := Received(t);
      && Boundary(n, size) && n <= |m.content|
      && (n > 0 ==> Stable(cipher, size, t, m.content, n))
      && (want.Some? ==> m.content <= want.value)
    ensures forall m, t {:trigger CrashOutcome(m.state, t)} :: m in disk.history && CrashOutcome(m.state, t) ==>
      && t.file == m.state.file
      && (t.file.Some? ==> Finished(cipher, size, t.file.value))
      && (want.Some? && t.file.Some? ==> t.file.value == OnStable(Encode(cipher, want.value, size)))
  {
    disk := new Disk(cipher, size, want);
    var up: Upload? := null;
    for i := 0 to |events|
      invariant fresh(disk) && (up != null ==> fresh(up))
      invariant disk.cipher == cipher && disk.size == size && disk.want == want
      invariant Underway(disk, up)
      invariant up != null ==> up.sound && (disk.want.Some? ==> up.Delivered() <= disk.want.value)
    {
      up := Step(disk, up, events[i]);
    }
    forall m, t | m in disk.history && CrashOutcome(m.state, t)
      ensures var n := Received(t);
              && Boundary(n, size) && n <= |m.content|
              && (n > 0 ==> Stable(cipher, size, t, m.content, n))
              && (want.Some? ==> m.content <= want.value)
    {
      assert disk.Good(m);
      NoCrashOverstates(cipher, size, m.state, t, m.content);
    }
    forall m, t | m in disk.history && CrashOutcome(m.state, t)
      ensures t.file == m.state.file && (t.file.Some? ==> Finished(cipher, size, t.file.value))
      ensures want.Some? && t.file.Some? ==> t.file.value == OnStable(Encode(cipher, want.value, size))
    {
      assert disk.Good(m);
      if m.state.file.Some? {
        FinishedThroughCrash(cipher, size, m.state, t);
      }
    }
  }

  /**
   One request on a disk that does not fail: it continues from what was received,
   sends `n` bytes at most and lets go, or finishes when asked to.
   */
  method Turn(disk: Disk, p: seq<byte>, n: nat, finish: bool)
    requires Tagged(disk.cipher) && disk.Valid()
    requires disk.size == |p| >= 1 && disk.want == Some(p) && disk.state.file.None?
    modifies disk
    ensures disk.Valid() && disk.faults >= old(disk.faults)
    ensures disk.faults == old(disk.faults) && finish && n >= |p| ==>
              disk.state.file == Some(OnStable(Encode(disk.cipher, p, |p|)))
    ensures !finish ==> disk.state.file.None?
    ensures disk.faults == old(disk.faults) && !finish ==>
              var to := Min(old(Received(disk.state)) + n, |p|);
              Received(disk.state) == if to == |p| then to else to / CHUNK * CHUNK
  {
    hide Encode, Tagged, Finished, Durable, PlainLen, CipherLen, ValidHeader;
    var offset := Received(disk.state);
    ReceivedIsStable(disk.cipher, disk.size, disk.state, disk.content);
    assert disk.content <= p;
    var r := Resume(disk, offset);
    if !r.Resumed? {
      return;
    }
    var up := r.upload;
    assert up.Delivered() == p[..offset];
    var to := Min(offset + n, |p|);
    assert p[..offset] + p[offset..to] == p[..to];
    var k, w := up.Write(p[offset..to]);
    if w.WriteFailed? {
      return;
    }
    assert up.Delivered() == p[..offset] + p[offset..to][..k];
    if finish {
      var _ := up.Finalize();
    } else {
      var _ := up.Suspend();
    }
  }

  /**
   A file sent in any number of requests, each cut off anywhere, and a last one that
   sends the rest: on a disk that never fails it ends as its header and sealed chunks,
   wholly on stable storage.
   */
  method WholeUpload(cipher: ChunkCipher, p: seq<byte>, turns: seq<nat>) returns (disk: Disk)
    requires Tagged(cipher) && |p| >= 1
    ensures fresh(disk) && disk.Valid()
    ensures disk.faults == 0 ==> disk.state.file == Some(OnStable(Encode(cipher, p, |p|)))
  {
    disk := new Disk(cipher, |p|, Some(p));
    for i := 0 to |turns|
      invariant fresh(disk) && disk.Valid() && disk.cipher == cipher && disk.size == |p| && disk.want == Some(p)
      invariant disk.state.file.None?
    {
      Turn(disk, p, turns[i], false);
    }
    Turn(disk, p, |p|, true);
  }
}
