/**
 The three names one attachment has on disk while it is being uploaded - the
 part, the record of how much of it is durable, the finished file - and what a
 crash may leave of them (client_backend/internal/blob/blob.go).
 */
module BlobDisk {
  import opened Common
  import opened BlobFormat

  /**
   The bytes under the finished file's name: how many leading ones are on stable
   storage, and whether stable storage holds exactly these and no others.
   */
  datatype File = File(bytes: seq<byte>, flushed: nat, clean: bool)

  function OnStable(bytes: seq<byte>): File {
    File(bytes, |bytes|, true)
  }

  /**
   `flushed` is how many leading bytes of the part are on stable storage, `clean`
   whether it was flushed since it last changed. A rename or a removal that
   returned is durable, so the record has no volatile half - but a rename moves
   the name alone: the finished file is as volatile as the part was.
   */
  datatype DiskState = DiskState(
    part: Option<seq<byte>>,
    flushed: nat,
    clean: bool,
    record: Option<nat>,
    file: Option<File>)

  const Empty: DiskState := DiskState(None, 0, false, None, None)

  predicate WellFormed(s: DiskState) {
    s.flushed <= (if s.part.Some? then |s.part.value| else 0)
  }

  /** What a crash may leave under the finished name: all of it when it was clean, otherwise its flushed bytes and anything behind. */
  predicate FileOutcome(f: File, g: File) {
    && g == OnStable(g.bytes)
    && if f.clean then g.bytes == f.bytes else f.flushed <= |f.bytes| && f.bytes[..f.flushed] <= g.bytes
  }

  /**
   What the disk may hold after a crash in state `s`. The flushed bytes of the
   part are there; everything past them is gone or arbitrary, and a part of
   which nothing was flushed may be gone altogether.
   */
  predicate CrashOutcome(s: DiskState, t: DiskState) {
    && t.record == s.record
    && (s.file.Some? <==> t.file.Some?)
    && (s.file.Some? ==> FileOutcome(s.file.value, t.file.value))
    && match t.part {
         case None => s.flushed == 0 && t.flushed == 0
         case Some(bytes) =>
           && s.part.Some?
           && s.flushed <= |s.part.value|
           && t.flushed == |bytes|
           && s.part.value[..s.flushed] <= bytes
       }
  }

  /** A finished file: wholly on stable storage, and the sealing of as many bytes as were declared. */
  ghost predicate Finished(a: ChunkCipher, size: nat, f: File) {
    exists p :: |p| == size && f == OnStable(Encode(a, p, size))
  }

  /** A finished file is itself after every crash. */
  lemma FinishedThroughCrash(a: ChunkCipher, size: nat, s: DiskState, t: DiskState)
    requires CrashOutcome(s, t) && s.file.Some? && Finished(a, size, s.file.value)
    ensures t.file == s.file
  {
    assert s.file.value == OnStable(s.file.value.bytes);
  }

  /** How much of a part to count, given what the record says and what its chunks hold. */
  function Durable(synced: nat, held: nat): (n: nat)
    ensures n <= synced && n <= held
    ensures n % CHUNK == 0 || n == synced == held
  {
    if synced == held then held else Min(synced, held) / CHUNK * CHUNK
  }

  function ReadSynced(s: DiskState): (n: nat)
  {
    if s.record.Some? then s.record.value else 0
  }

  /** How many leading plaintext bytes of the part count as received. */
  function Received(s: DiskState): (n: nat)
  {
    match s.part
    case None => 0
    case Some(bytes) =>
      if |bytes| < HEADER || !ValidHeader(bytes[..HEADER]) then 0
      else Durable(ReadSynced(s), PlainLen(|bytes|))
  }

  /** The sealed chunks of the first `n` bytes of `content` are on stable storage. */
  predicate Stable(a: ChunkCipher, size: nat, s: DiskState, content: seq<byte>, n: nat) {
    && n <= |content|
    && Boundary(n, size)
    && s.part.Some?
    && CipherLen(n) <= s.flushed <= |s.part.value|
    && s.part.value[..CipherLen(n)] == Encode(a, content[..n], size)
  }

  /**
   The record vouches for nothing that is not on stable storage, where `content`
   is the plaintext the requests delivered. A record left without a part vouches
   for nothing: Received reads it as zero.
   */
  predicate Safe(a: ChunkCipher, size: nat, s: DiskState, content: seq<byte>) {
    && WellFormed(s)
    && (s.part.Some? && ReadSynced(s) > 0 ==> Stable(a, size, s, content, ReadSynced(s)))
  }

  /** What is stable stays stable through a crash. */
  lemma StableThroughCrash(a: ChunkCipher, size: nat, s: DiskState, t: DiskState, content: seq<byte>, n: nat)
    requires Stable(a, size, s, content, n)
    requires CrashOutcome(s, t)
    ensures Stable(a, size, t, content, n)
  {
    var bytes := t.part.value;
    var kept := s.part.value[..s.flushed];
    assert bytes[..|kept|] == kept;
    assert bytes[..CipherLen(n)] == kept[..CipherLen(n)] == s.part.value[..CipherLen(n)];
  }

  /** A record that told the truth before a crash tells it after. */
  lemma SafeThroughCrash(a: ChunkCipher, size: nat, s: DiskState, t: DiskState, content: seq<byte>)
    requires Safe(a, size, s, content)
    requires CrashOutcome(s, t)
    ensures Safe(a, size, t, content)
  {
    if t.part.Some? && ReadSynced(t) > 0 {
      StableThroughCrash(a, size, s, t, content, ReadSynced(s));
    }
  }

  /** What is stable up to one chunk boundary is stable up to every earlier one. */
  lemma StableBelow(a: ChunkCipher, size: nat, s: DiskState, content: seq<byte>, n: nat, m: nat)
    requires Tagged(a)
    requires Stable(a, size, s, content, n)
    requires m <= n && (m % CHUNK == 0 || m == n)
    ensures Stable(a, size, s, content, m)
  {
    if m < n {
      CipherLenMonotone(m, n);
    }
    var p := content[..n];
    assert p[..m] == content[..m];
    EncodePrefix(a, p, m, size);
    EncodeLength(a, p[..m], size);
    PrefixSlice(s.part.value, CipherLen(n), Encode(a, p[..m], size));
  }

  lemma PrefixSlice<T>(x: seq<T>, n: nat, y: seq<T>)
    requires n <= |x| && y <= x[..n]
    ensures x[..|y|] == y
  {
    assert x[..|y|] == x[..n][..|y|];
  }

  /** A part that holds a stable boundary is long enough for it, and has the header. */
  lemma StableIsHeld(a: ChunkCipher, size: nat, s: DiskState, content: seq<byte>, n: nat)
    requires Tagged(a)
    requires Stable(a, size, s, content, n)
    ensures |s.part.value| >= HEADER && ValidHeader(s.part.value[..HEADER])
    ensures PlainLen(|s.part.value|) >= n
  {
    var bytes := s.part.value;
    HoldsAtLeast(|bytes|, n);
    EncodeChunksPrefix(a, content[..n], 0, ChunkCount(n), size);
    PrefixSlice(bytes, CipherLen(n), Header());
  }

  /**
   Received names a chunk boundary or the whole file, and everything it names is
   sealed on stable storage as the requests delivered it.
   */
  lemma ReceivedIsStable(a: ChunkCipher, size: nat, s: DiskState, content: seq<byte>)
    requires Tagged(a)
    requires Safe(a, size, s, content)
    ensures var n := Received(s);
            && n <= |content|
            && Boundary(n, size)
            && (n > 0 ==> Stable(a, size, s, content, n))
  {
    var n := Received(s);
    if n > 0 {
      StableBelow(a, size, s, content, ReadSynced(s), n);
    }
  }

  /** Received falls short of the record only where the part ends in more than the record names. */
  lemma ReceivedReachesTheRecord(a: ChunkCipher, size: nat, s: DiskState, content: seq<byte>)
    requires Tagged(a)
    requires Safe(a, size, s, content)
    requires s.part.Some? && ReadSynced(s) > 0
    ensures Received(s) == ReadSynced(s)
       <==> ReadSynced(s) % CHUNK == 0 || PlainLen(|s.part.value|) == ReadSynced(s)
  {
    var n := ReadSynced(s);
    StableIsHeld(a, size, s, content, n);
  }

  /**
   However a crash falls, what the next request is told was received is on
   stable storage, exactly as delivered.
   */
  lemma NoCrashOverstates(a: ChunkCipher, size: nat, s: DiskState, t: DiskState, content: seq<byte>)
    requires Tagged(a)
    requires Safe(a, size, s, content)
    requires CrashOutcome(s, t)
    ensures Boundary(Received(t), size) && Received(t) <= |content|
    ensures Received(t) > 0 ==> Stable(a, size, t, content, Received(t))
  {
    SafeThroughCrash(a, size, s, t, content);
    ReceivedIsStable(a, size, t, content);
  }

  // ---- the disk, one file operation at a time ----

  /** The part under the finished file's name, as much of it on stable storage as was. */
  function Renamed(s: DiskState): DiskState
    requires s.part.Some?
  {
    s.(part := None, flushed := 0, clean := false, file := Some(File(s.part.value, s.flushed, s.clean)))
  }

  /** A state the disk has been in, with the plaintext delivered by then. */
  datatype Moment = Moment(state: DiskState, content: seq<byte>)

  /**
   The directory as one attachment sees it. Every method below but the
   constructor and Crash is one file operation; each may fail, and `history`
   keeps the state it left, so that a claim about `history` is a claim about a
   crash between any two file operations.
   */
  class Disk {
    const cipher: ChunkCipher
    /** The size the file was declared with. */
    const size: nat
    /** The file's bytes, when every request is known to carry them; None when nothing is. */
    const want: Option<seq<byte>>
    var state: DiskState
    var content: seq<byte>
    var history: seq<Moment>
    /** How many file operations have failed. */
    var faults: nat

    constructor (cipher: ChunkCipher, size: nat, want: Option<seq<byte>>)
      requires want.Some? ==> |want.value| == size
      ensures this.cipher == cipher && this.size == size && this.want == want
      ensures state == Empty && content == [] && faults == 0
      ensures Valid()
    {
      faults := 0;
      this.cipher, this.size, this.want := cipher, size, want;
      state, content := Empty, [];
      history := [Moment(Empty, [])];
    }

    /**
     The record vouches for nothing but stable bytes, a finished file is wholly on
     stable storage; and when the file's bytes are known, what was delivered begins
     them and a finished file seals them all.
     */
    ghost predicate Good(m: Moment) {
      && Safe(cipher, size, m.state, m.content)
      && (m.state.file.Some? ==> Finished(cipher, size, m.state.file.value))
      && (want.Some? ==>
            && |want.value| == size
            && m.content <= want.value
            && (m.state.file.Some? ==> m.state.file.value == OnStable(Encode(cipher, want.value, size))))
    }

    /** The disk tells the truth about the bytes in it now. */
    ghost predicate GoodNow()
      reads this
    {
      Good(Moment(state, content))
    }

    /** Every state the disk has been in told the truth about the bytes in it. */
    ghost predicate Valid()
      reads this
    {
      && GoodNow()
      && history != [] && history[|history| - 1] == Moment(state, content)
      && forall m :: m in history ==> Good(m)
    }

    /** Puts the disk in state `s`, where `c` is what has been delivered by then. */
    method Become(s: DiskState, c: seq<byte>)
      modifies this`state, this`content, this`history
      ensures state == s && content == c
      ensures history == old(history) + [Moment(s, c)]
      ensures old(Valid()) && GoodNow() ==> Valid()
    {
      state, content, history := s, c, history + [Moment(s, c)];
    }

    /** Opens the part for writing, making an empty one when there is none. */
    method OpenPart() returns (ok: bool)
      modifies this
      ensures faults == old(faults) + if ok then 0 else 1
      ensures content == old(content)
      ensures history == old(history) + [Moment(state, content)]
      ensures old(Valid()) && GoodNow() ==> Valid()
      ensures state == if ok && old(state).part.None? then old(state).(part := Some([]), flushed := 0, clean := false) else old(state)
    {
      ok := *;
      faults := faults + if ok then 0 else 1;
      if ok && state.part.None? {
        Become(state.(part := Some([]), flushed := 0, clean := false), content);
      } else {
        Become(state, content);
      }
    }

    /** Cuts the part to its first `n` bytes. `c` is what the requests count as delivered from here on. */
    method Truncate(n: nat, c: seq<byte>) returns (ok: bool)
      requires state.part.Some? && n <= |state.part.value|
      modifies this
      ensures faults == old(faults) + if ok then 0 else 1
      ensures history == old(history) + [Moment(state, content)]
      ensures old(Valid()) && GoodNow() ==> Valid()
      ensures !ok ==> state == old(state) && content == old(content)
      ensures ok ==>
        && content == c
        && state == old(state).(part := Some(old(state).part.value[..n]), flushed := Min(old(state).flushed, n), clean := false)
    {
      ok := *;
      faults := faults + if ok then 0 else 1;
      if ok {
        Become(state.(part := Some(state.part.value[..n]), flushed := Min(state.flushed, n), clean := false), c);
      } else {
        Become(state, content);
      }
    }

    /** Appends to the part; a write that fails may have appended a beginning of it. */
    method Append(bytes: seq<byte>, c: seq<byte>) returns (ok: bool)
      requires state.part.Some?
      modifies this
      ensures faults == old(faults) + if ok then 0 else 1
      ensures history == old(history) + [Moment(state, content)]
      ensures old(Valid()) && GoodNow() ==> Valid()
      ensures state == old(state).(part := state.part, clean := false)
      ensures state.part.Some?
      ensures ok ==> content == c && state.part.value == old(state).part.value + bytes
      ensures !ok ==> content == old(content) && old(state).part.value <= state.part.value
    {
      ok := *;
      faults := faults + if ok then 0 else 1;
      if ok {
        Become(state.(part := Some(state.part.value + bytes), clean := false), c);
      } else {
        var k: nat :| k <= |bytes|;
        Become(state.(part := Some(state.part.value + bytes[..k]), clean := false), content);
      }
    }

    /** Flushes the part. */
    method Sync() returns (ok: bool)
      requires state.part.Some?
      modifies this
      ensures faults == old(faults) + if ok then 0 else 1
      ensures content == old(content)
      ensures history == old(history) + [Moment(state, content)]
      ensures old(Valid()) && GoodNow() ==> Valid()
      ensures state == if ok then old(state).(flushed := |old(state).part.value|, clean := true) else old(state)
    {
      ok := *;
      faults := faults + if ok then 0 else 1;
      if ok {
        Become(state.(flushed := |state.part.value|, clean := true), content);
      } else {
        Become(state, content);
      }
    }

    /** Makes `n` the record: written beside it, flushed, renamed over it - the old one or the new one. */
    method WriteSynced(n: nat) returns (ok: bool)
      modifies this
      ensures faults == old(faults) + if ok then 0 else 1
      ensures content == old(content)
      ensures history == old(history) + [Moment(state, content)]
      ensures old(Valid()) && GoodNow() ==> Valid()
      ensures state == if ok then old(state).(record := Some(n)) else old(state)
    {
      ok := *;
      faults := faults + if ok then 0 else 1;
      if ok {
        Become(state.(record := Some(n)), content);
      } else {
        Become(state, content);
      }
    }

    method RemovePart() returns (ok: bool)
      modifies this
      ensures faults == old(faults) + if ok then 0 else 1
      ensures content == old(content)
      ensures history == old(history) + [Moment(state, content)]
      ensures old(Valid()) && GoodNow() ==> Valid()
      ensures state == if ok then old(state).(part := None, flushed := 0, clean := false) else old(state)
    {
      ok := *;
      faults := faults + if ok then 0 else 1;
      if ok {
        Become(state.(part := None, flushed := 0, clean := false), content);
      } else {
        Become(state, content);
      }
    }

    method RemoveRecord() returns (ok: bool)
      modifies this
      ensures faults == old(faults) + if ok then 0 else 1
      ensures content == old(content)
      ensures history == old(history) + [Moment(state, content)]
      ensures old(Valid()) && GoodNow() ==> Valid()
      ensures state == if ok then old(state).(record := None) else old(state)
    {
      ok := *;
      faults := faults + if ok then 0 else 1;
      if ok {
        Become(state.(record := None), content);
      } else {
        Become(state, content);
      }
    }

    /** Renames the part to the finished file's name: what of it was flushed is what of the file is. */
    method RenameIntoPlace() returns (ok: bool)
      requires state.part.Some?
      modifies this
      ensures faults == old(faults) + if ok then 0 else 1
      ensures content == old(content)
      ensures history == old(history) + [Moment(state, content)]
      ensures old(Valid()) && GoodNow() ==> Valid()
      ensures state == if ok then Renamed(old(state)) else old(state)
    {
      ok := *;
      faults := faults + if ok then 0 else 1;
      if ok {
        Become(Renamed(state), content);
      } else {
        Become(state, content);
      }
    }

    /** A crash at any moment the disk has been through, with any outcome it may have. */
    method Crash(m: Moment, t: DiskState)
      requires Valid()
      requires m in history && CrashOutcome(m.state, t)
      modifies this
      ensures Valid()
      ensures state == t && content == m.content && faults == old(faults)
    {
      assert Good(m);
      SafeThroughCrash(cipher, size, m.state, t, m.content);
      if m.state.file.Some? {
        FinishedThroughCrash(cipher, size, m.state, t);
      }
      Become(t, m.content);
    }
  }
}
