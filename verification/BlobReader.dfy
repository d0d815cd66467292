/**
 The seeking reader of a finished file (client_backend/internal/blob/blob.go),
 against a reader of the plain bytes.
 */
module BlobReader {
  import opened Common
  import opened BlobFormat

  datatype Whence = FromStart | FromCurrent | FromEnd

  datatype ReadResult = Data(bytes: seq<byte>) | Eof | Corrupt

  /** Where the bytes of chunk `i` lie on disk. */
  function ChunkSlice(file: seq<byte>, size: nat, i: nat): (c: seq<byte>)
    requires i * CHUNK < size && |file| == CipherLen(size)
    ensures |c| == ChunkLen(i, size) + TAG
  {
    SliceFits(size, i);
    file[HEADER + i * SEALED..HEADER + i * SEALED + ChunkLen(i, size) + TAG]
  }

  lemma SliceFits(size: nat, i: nat)
    requires i * CHUNK < size
    ensures HEADER + i * SEALED + ChunkLen(i, size) + TAG <= CipherLen(size)
  {
    CipherLenStep(i, ChunkLen(i, size));
    if i * CHUNK + ChunkLen(i, size) < size {
      CipherLenMonotone(i * CHUNK + ChunkLen(i, size), size);
    }
  }

  /** What chunk `i` of the file opens to, if it opens. */
  function OpenChunk(a: ChunkCipher, file: seq<byte>, size: nat, i: nat): (p: Option<seq<byte>>)
    requires i * CHUNK < size && |file| == CipherLen(size)
  {
    a.open(i, i * CHUNK + ChunkLen(i, size) == size, ChunkSlice(file, size, i))
  }

  /** Every chunk of a file this store sealed opens to its own bytes. */
  lemma SealedChunkOpens(a: ChunkCipher, p: seq<byte>, i: nat)
    requires Tagged(a) && Authentic(a)
    requires i * CHUNK < |p|
    ensures |Encode(a, p, |p|)| == CipherLen(|p|)
    ensures OpenChunk(a, Encode(a, p, |p|), |p|, i) == Some(p[i * CHUNK..i * CHUNK + ChunkLen(i, |p|)])
  {
    EncodeLength(a, p, |p|);
    ChunkAt(a, p, i, ChunkLen(i, |p|));
  }

  /**
   Whatever lies on disk, a chunk that opens is served as the one plaintext
   whose sealing, at that place, is what lies there.
   */
  lemma OpenedIsWhatLiesThere(a: ChunkCipher, file: seq<byte>, size: nat, i: nat)
    requires Tagged(a) && Authentic(a)
    requires i * CHUNK < size && |file| == CipherLen(size)
    ensures var r := OpenChunk(a, file, size, i);
            r.Some? ==>
              && |r.value| == ChunkLen(i, size)
              && a.seal(i, i * CHUNK + ChunkLen(i, size) == size, r.value) == ChunkSlice(file, size, i)
  {
    var r := OpenChunk(a, file, size, i);
    if r.Some? {
      var last := i * CHUNK + ChunkLen(i, size) == size;
      assert a.open(i, last, ChunkSlice(file, size, i)) == Some(r.value);
      assert |a.seal(i, last, r.value)| == |r.value| + TAG;
    }
  }

  /** Whether chunk `i` ends a file of `size` bytes. */
  predicate Ends(i: nat, size: nat)
    requires i * CHUNK < size
  {
    i * CHUNK + ChunkLen(i, size) == size
  }

  /**
   A chunk sealed by this cipher for whichever place is served at place `i` exactly
   when `i` is its place and it ends the file as it was sealed to.
   */
  lemma ServedInItsPlaceOnly(a: ChunkCipher, file: seq<byte>, size: nat, i: nat, j: nat, last: bool, p: seq<byte>)
    requires Authentic(a) && Placed(a) && i < CHUNKS && j < CHUNKS
    requires i * CHUNK < size && |file| == CipherLen(size) && ChunkSlice(file, size, i) == a.seal(j, last, p)
    ensures OpenChunk(a, file, size, i).Some? <==> i == j && last == Ends(i, size)
  {
    OpensInItsPlaceOnly(a, i, Ends(i, size), j, last, p);
  }

  /** Every read that falls in such a chunk out of its place reports the file corrupt. */
  lemma OutOfPlaceIsCorrupt(a: ChunkCipher, file: seq<byte>, size: nat, j: nat, last: bool, p: seq<byte>, pos: nat, k: nat)
    requires Authentic(a) && Placed(a) && pos < size < CHUNKS && j < CHUNKS && |file| == CipherLen(size)
    requires ChunkSlice(file, size, pos / CHUNK) == a.seal(j, last, p)
    requires !(pos / CHUNK == j && last == Ends(pos / CHUNK, size))
    ensures ReadSpec(a, file, size, pos, k) == Corrupt
  {
    hide Authentic, Placed, ChunkSlice, CipherLen;
    ServedInItsPlaceOnly(a, file, size, pos / CHUNK, j, last, p);
  }

  // ---- chunks moved, and a file cut short ----

  /** The bytes of `c` with the `n` bytes at `s` and the `n` bytes at `t` changing places. */
  function Swapped(c: seq<byte>, s: nat, t: nat, n: nat): (d: seq<byte>)
    requires s + n <= t && t + n <= |c|
    ensures |d| == |c|
  {
    c[..s] + c[t..t + n] + c[s + n..t] + c[s..s + n] + c[t + n..]
  }

  lemma SwappedSlices(c: seq<byte>, s: nat, t: nat, n: nat)
    requires s + n <= t && t + n <= |c|
    ensures Swapped(c, s, t, n)[s..s + n] == c[t..t + n]
    ensures Swapped(c, s, t, n)[t..t + n] == c[s..s + n]
  {
  }

  /** Where chunk `i` begins on disk. */
  function PlaceOf(i: nat): nat {
    HEADER + i * SEALED
  }

  lemma WholeChunksApart(i: nat, j: nat, size: nat)
    requires i < j && (j + 1) * CHUNK <= size
    ensures PlaceOf(i) + SEALED <= PlaceOf(j) && PlaceOf(j) + SEALED <= CipherLen(size)
    ensures ChunkLen(i, size) == CHUNK && ChunkLen(j, size) == CHUNK
  {
    SliceFits(size, j);
  }

  /** Two whole chunks of a sealed file that changed places: a read in either reports the file corrupt. */
  lemma SwappedChunksAreCorrupt(a: ChunkCipher, p: seq<byte>, i: nat, j: nat, pos: nat, k: nat)
    requires Tagged(a) && Authentic(a) && Placed(a) && |p| < CHUNKS
    requires i < j && (j + 1) * CHUNK <= |p| && (pos / CHUNK == i || pos / CHUNK == j)
    ensures |Encode(a, p, |p|)| == CipherLen(|p|)
    ensures PlaceOf(i) + SEALED <= PlaceOf(j) && PlaceOf(j) + SEALED <= CipherLen(|p|)
    ensures var file := Swapped(Encode(a, p, |p|), PlaceOf(i), PlaceOf(j), SEALED);
            ReadSpec(a, file, |p|, pos, k) == Corrupt
  {
    hide Tagged, Authentic, Placed, Encode, Swapped, CipherLen, ChunkSlice, ReadSpec, Ends;
    SwappedHolds(a, p, i, j);
    var there := if pos / CHUNK == i then j else i;
    OutOfPlaceIsCorrupt(a, Swapped(Encode(a, p, |p|), PlaceOf(i), PlaceOf(j), SEALED), |p|,
                        there, Ends(there, |p|), p[there * CHUNK..there * CHUNK + CHUNK], pos, k);
  }

  lemma SwappedHolds(a: ChunkCipher, p: seq<byte>, i: nat, j: nat)
    requires Tagged(a) && i < j && (j + 1) * CHUNK <= |p|
    ensures |Encode(a, p, |p|)| == CipherLen(|p|)
    ensures PlaceOf(i) + SEALED <= PlaceOf(j) && PlaceOf(j) + SEALED <= CipherLen(|p|)
    ensures var file := Swapped(Encode(a, p, |p|), PlaceOf(i), PlaceOf(j), SEALED);
            && ChunkSlice(file, |p|, i) == a.seal(j, Ends(j, |p|), p[j * CHUNK..j * CHUNK + CHUNK])
            && ChunkSlice(file, |p|, j) == a.seal(i, Ends(i, |p|), p[i * CHUNK..i * CHUNK + CHUNK])
  {
    hide Tagged, Encode, Swapped, CipherLen;
    EncodeLength(a, p, |p|);
    WholeChunksApart(i, j, |p|);
    SwappedSlices(Encode(a, p, |p|), PlaceOf(i), PlaceOf(j), SEALED);
    ChunkAt(a, p, i, CHUNK);
    ChunkAt(a, p, j, CHUNK);
  }

  /** A sealed file cut short at a chunk boundary, its size claimed to match: a read in its last chunk reports it corrupt. */
  lemma CutFileIsCorrupt(a: ChunkCipher, p: seq<byte>, chunks: nat, pos: nat, k: nat)
    requires Tagged(a) && Authentic(a) && Placed(a) && |p| < CHUNKS
    requires 0 < chunks && chunks * CHUNK < |p| && pos / CHUNK == chunks - 1
    ensures CipherLen(chunks * CHUNK) <= |Encode(a, p, |p|)|
    ensures ReadSpec(a, Encode(a, p, |p|)[..CipherLen(chunks * CHUNK)], chunks * CHUNK, pos, k) == Corrupt
  {
    var size, i := chunks * CHUNK, chunks - 1;
    EncodeLength(a, p, |p|);
    CipherLenMonotone(size, |p|);
    CipherLenStep(i, CHUNK);
    var sealed := Encode(a, p, |p|);
    var file := sealed[..CipherLen(size)];
    ChunkAt(a, p, i, CHUNK);
    hide Tagged, Authentic, Placed, Encode, CipherLen;
    assert !Ends(i, |p|) && Ends(i, size) && ChunkLen(i, size) == CHUNK;
    assert ChunkSlice(file, size, i) == sealed[PlaceOf(i)..PlaceOf(i) + SEALED];
    OutOfPlaceIsCorrupt(a, file, size, i, false, p[i * CHUNK..i * CHUNK + CHUNK], pos, k);
  }

  class Reader {
    const cipher: ChunkCipher
    const file: seq<byte>
    const size: nat
    var pos: nat
    /** The index of the chunk in `plain`, or -1 for none yet. */
    var chunk: int
    var plain: seq<byte>

    ghost predicate Valid()
      reads this
    {
      && Tagged(cipher) && Authentic(cipher)
      && size >= 1 && |file| == CipherLen(size)
      && (chunk >= 0 ==> chunk * CHUNK < size && OpenChunk(cipher, file, size, chunk) == Some(plain))
    }

    constructor (cipher: ChunkCipher, file: seq<byte>, size: nat)
      requires Tagged(cipher) && Authentic(cipher)
      requires size >= 1 && |file| == CipherLen(size)
      ensures Valid()
      ensures this.cipher == cipher && this.file == file && this.size == size && pos == 0
    {
      this.cipher, this.file, this.size := cipher, file, size;
      pos, chunk, plain := 0, -1, [];
    }

    /** Opens chunk `i`. */
    method Load(i: nat) returns (ok: bool)
      requires Valid() && i * CHUNK < size
      modifies this`chunk, this`plain
      ensures Valid()
      ensures ok <==> OpenChunk(cipher, file, size, i).Some?
      ensures ok ==> chunk == i
    {
      var inside := OpenChunk(cipher, file, size, i);
      if inside.None? {
        chunk := -1;
        return false;
      }
      plain, chunk := inside.value, i;
      ok := true;
    }

    /** Reads up to `k` bytes at the current position, never past the chunk it lies in. */
    method Read(k: nat) returns (r: ReadResult)
      requires Valid()
      modifies this
      ensures Valid()
      ensures r == ReadSpec(cipher, file, size, old(pos), k)
      ensures pos == old(pos) + (if r.Data? then |r.bytes| else 0)
    {
      if pos >= size {
        return Eof;
      }
      var i := pos / CHUNK;
      if i != chunk {
        var ok := Load(i);
        if !ok {
          return Corrupt;
        }
      }
      OpenedIsWhatLiesThere(cipher, file, size, i);
      var at := pos - i * CHUNK;
      var n := Min(k, |plain| - at);
      r := Data(plain[at..at + n]);
      pos := pos + n;
    }

    /** Moves the position in plaintext terms; before the start is refused. */
    method Seek(offset: int, whence: Whence) returns (at: int)
      requires Valid()
      modifies this`pos
      ensures Valid()
      ensures at == SeekSpec(size, old(pos), offset, whence)
      ensures pos == if at >= 0 then at else old(pos)
      ensures whence == FromStart && offset >= 0 ==> at == offset == pos
      ensures whence == FromCurrent && old(pos) + offset >= 0 ==> at == old(pos) + offset == pos
      ensures whence == FromEnd && size + offset >= 0 ==> at == size + offset == pos
      ensures (match whence case FromStart => offset case FromCurrent => old(pos) + offset case FromEnd => size + offset) < 0
              ==> at == -1 && pos == old(pos)
    {
      match whence {
        case FromStart => at := offset;
        case FromCurrent => at := pos + offset;
        case FromEnd => at := size + offset;
      }
      if at >= 0 {
        pos := at;
      } else {
        at := -1;
      }
    }

    /** One read of a file this store sealed: it opens, and brings at least a byte. */
    method ReadOnce(p: seq<byte>, k: nat) returns (more: seq<byte>)
      requires Valid() && pos < size && k > 0
      requires |p| == size && file == Encode(cipher, p, size)
      modifies this
      ensures Valid()
      ensures 0 < |more| <= k && pos == old(pos) + |more| <= size
      ensures more == p[old(pos)..pos]
    {
      SealedReadIsPlain(cipher, p, pos, k);
      var r := Read(k);
      more := r.bytes;
    }

    /** Reads on until `k` bytes are in or the file ends, as a copy of a range does. */
    method ReadFull(p: seq<byte>, k: nat) returns (out: seq<byte>, ok: bool)
      requires Valid()
      requires |p| == size && file == Encode(cipher, p, size)
      modifies this
      ensures Valid() && ok
      ensures out == PlainSlice(p, old(pos), k)
      ensures pos == old(pos) + |out|
    {
      out, ok := [], true;
      while |out| < k && pos < size
        invariant Valid() && ok
        invariant |out| <= k && pos == old(pos) + |out|
        invariant old(pos) < |p| ==> pos <= |p| && out == p[old(pos)..pos]
        invariant old(pos) >= |p| ==> out == []
        decreases k - |out|
      {
        var more := ReadOnce(p, k - |out|);
        out := out + more;
      }
    }
  }

  /** What Read returns at `pos`: the bytes of the chunk it falls in, from there on. */
  function ReadSpec(a: ChunkCipher, file: seq<byte>, size: nat, pos: nat, k: nat): (r: ReadResult)
    requires |file| == CipherLen(size)
  {
    if pos >= size then Eof
    else
      var i := pos / CHUNK;
      var inside := OpenChunk(a, file, size, i);
      if inside.None? || |inside.value| < pos - i * CHUNK then Corrupt
      else
        var at := pos - i * CHUNK;
        Data(inside.value[at..at + Min(k, |inside.value| - at)])
  }

  /** A seek's target; -1 for one before the start. */
  function SeekSpec(size: nat, pos: nat, offset: int, whence: Whence): (at: int)
    ensures at >= -1
  {
    var at := match whence
              case FromStart => offset
              case FromCurrent => pos + offset
              case FromEnd => size + offset;
    if at < 0 then -1 else at
  }

  /** The same read on the plain bytes. */
  function PlainSlice(p: seq<byte>, pos: nat, k: nat): (r: seq<byte>)
  {
    if pos >= |p| then [] else p[pos..pos + Min(k, |p| - pos)]
  }

  /** How far a read of `k` bytes gets before the end of the chunk `pos` lies in. */
  function WithinChunk(size: nat, pos: nat, k: nat): (n: nat)
    requires pos < size
    ensures n <= k && pos + n <= size
    ensures k > 0 ==> n > 0
  {
    Min(k, Min((pos / CHUNK + 1) * CHUNK, size) - pos)
  }

  /** On a sealed file a read returns the plain bytes at its position, up to the end of the chunk. */
  lemma SealedReadIsPlain(a: ChunkCipher, p: seq<byte>, pos: nat, k: nat)
    requires Tagged(a) && Authentic(a)
    requires pos < |p|
    ensures |Encode(a, p, |p|)| == CipherLen(|p|)
    ensures var n := WithinChunk(|p|, pos, k);
            ReadSpec(a, Encode(a, p, |p|), |p|, pos, k) == Data(p[pos..pos + n])
  {
    var i := pos / CHUNK;
    var len := ChunkLen(i, |p|);
    SealedChunkOpens(a, p, i);
    var at := pos - i * CHUNK;
    var n := Min(k, len - at);
    SliceOfSlice(p, i * CHUNK, i * CHUNK + len, at, at + n);
    hide Encode, Tagged, Authentic, CipherLen, OpenChunk;
    assert n == WithinChunk(|p|, pos, k);
  }

  lemma SliceOfSlice<T>(x: seq<T>, i: nat, j: nat, k: nat, m: nat)
    requires i <= j <= |x| && k <= m <= j - i
    ensures x[i..j][k..m] == x[i + k..i + m]
  {
    var y, z := x[i..j][k..m], x[i + k..i + m];
    assert |y| == |z|;
    forall t | 0 <= t < |y|
      ensures y[t] == z[t]
    {
      assert y[t] == x[i..j][k + t] == x[i + k + t];
    }
  }

  /**
   One read agrees with the same read of the plain bytes exactly when those bytes
   lie in one chunk: a read across a boundary comes back short.
   */
  lemma ReadAgreesIff(a: ChunkCipher, p: seq<byte>, pos: nat, k: nat)
    requires Tagged(a) && Authentic(a)
    requires pos < |p|
    ensures |Encode(a, p, |p|)| == CipherLen(|p|)
    ensures ReadSpec(a, Encode(a, p, |p|), |p|, pos, k) == Data(PlainSlice(p, pos, k))
       <==> pos + Min(k, |p| - pos) <= (pos / CHUNK + 1) * CHUNK
  {
    SealedReadIsPlain(a, p, pos, k);
    var n, m := WithinChunk(|p|, pos, k), Min(k, |p| - pos);
    assert n == m <==> pos + m <= (pos / CHUNK + 1) * CHUNK;
    var short, full := p[pos..pos + n], p[pos..pos + m];
    assert full == PlainSlice(p, pos, k);
    assert |short| == n && |full| == m;
    assert n == m ==> short == full;
  }

  /** A read across a chunk boundary that comes back short of the plain one. */
  lemma ShortReadExample(a: ChunkCipher, p: seq<byte>)
    requires Tagged(a) && Authentic(a)
    requires |p| == CHUNK + 1
    ensures |Encode(a, p, |p|)| == CipherLen(|p|)
    ensures ReadSpec(a, Encode(a, p, |p|), |p|, CHUNK - 1, 2) == Data([p[CHUNK - 1]])
  {
    SealedReadIsPlain(a, p, CHUNK - 1, 2);
  }

  /** Opens a finished file: refused when its length is not its size's, or its header not this format's. */
  method Open(cipher: ChunkCipher, file: seq<byte>, size: int) returns (r: Reader?)
    requires Tagged(cipher) && Authentic(cipher)
    ensures r == null <==> size < 1 || |file| != CipherLen(size) || !ValidHeader(file[..HEADER])
    ensures r != null ==> fresh(r) && r.Valid() && r.file == file && r.size == size && r.cipher == cipher && r.pos == 0
  {
    if size < 1 || |file| != CipherLen(size) || !ValidHeader(file[..HEADER]) {
      return null;
    }
    r := new Reader(cipher, file, size);
  }

  // ---- whole sequences of seeks and reads ----

  datatype Op = SeekTo(offset: int, whence: Whence) | ReadUpTo(k: nat)

  datatype Answer = At(pos: int) | Got(bytes: seq<byte>)

  /** The position and the answer after one operation on the plain bytes. */
  function PlainStep(p: seq<byte>, pos: nat, op: Op): (r: (nat, Answer))
  {
    match op
    case SeekTo(offset, whence) =>
      var at := SeekSpec(|p|, pos, offset, whence);
      (if at >= 0 then at else pos, At(at))
    case ReadUpTo(k) =>
      var got := PlainSlice(p, pos, k);
      (pos + |got|, Got(got))
  }

  /** What the plain bytes answer to a sequence of seeks and full reads from `pos`. */
  function PlainRun(p: seq<byte>, pos: nat, ops: seq<Op>): (answers: seq<Answer>)
    ensures |answers| == |ops|
    decreases |ops|
  {
    if |ops| == 0 then []
    else
      var (next, answer) := PlainStep(p, pos, ops[0]);
      [answer] + PlainRun(p, next, ops[1..])
  }

  /**
   One answer at position `at`, leaving the position at `next`, as the plain bytes
   give it: a seek counts from the start, from the position or from the end, and
   before the start it is refused and moves nothing; a read brings what lies there.
   */
  predicate Answers(p: seq<byte>, at: nat, op: Op, answer: Answer, next: nat) {
    match op
    case SeekTo(s, FromStart) => if s >= 0 then answer == At(s) && next == s else answer == At(-1) && next == at
    case SeekTo(d, FromCurrent) => if at + d >= 0 then answer == At(at + d) && next == at + d else answer == At(-1) && next == at
    case SeekTo(d, FromEnd) => if |p| + d >= 0 then answer == At(|p| + d) && next == |p| + d else answer == At(-1) && next == at
    case ReadUpTo(k) =>
      if at >= |p| then answer == Got([]) && next == at
      else if at + k <= |p| then answer == Got(p[at..at + k]) && next == at + k
      else answer == Got(p[at..]) && next == |p|
  }

  /** There are positions, the first the start of the file, at which each answer is the plain bytes' own. */
  lemma {:induction false} PlainRunAnswers(p: seq<byte>, pos: nat, ops: seq<Op>) returns (at: seq<nat>)
    ensures |at| == |ops| + 1 && at[0] == pos
    ensures forall i :: 0 <= i < |ops| ==> Answers(p, at[i], ops[i], PlainRun(p, pos, ops)[i], at[i + 1])
    decreases |ops|
  {
    if |ops| == 0 {
      return [pos];
    }
    var (next, answer) := PlainStep(p, pos, ops[0]);
    var rest := PlainRunAnswers(p, next, ops[1..]);
    at := [pos] + rest;
    var all := PlainRun(p, pos, ops);
    assert all[1..] == PlainRun(p, next, ops[1..]);
    assert Answers(p, pos, ops[0], answer, next);
    hide Answers;
    forall i | 0 <= i < |ops|
      ensures Answers(p, at[i], ops[i], all[i], at[i + 1])
    {
      if i > 0 {
        assert ops[i] == ops[1..][i - 1] && all[i] == all[1..][i - 1];
      }
    }
  }

  /**
   What a server asks of a reader to serve a file or a range of it, after anything
   else it may have asked: the size, then the bytes from `s` on.
   */
  lemma ServedAsAsked(p: seq<byte>, before: seq<Op>, s: nat, k: nat)
    ensures var answers := PlainRun(p, 0, before + [SeekTo(0, FromEnd), SeekTo(s, FromStart), ReadUpTo(k)]);
            && answers[|before|] == At(|p|)
            && answers[|before| + 1] == At(s)
            && answers[|before| + 2] == Got(if s >= |p| then [] else if s + k <= |p| then p[s..s + k] else p[s..])
  {
    var ops := before + [SeekTo(0, FromEnd), SeekTo(s, FromStart), ReadUpTo(k)];
    var n := |before|;
    assert ops[n] == SeekTo(0, FromEnd) && ops[n + 1] == SeekTo(s, FromStart) && ops[n + 2] == ReadUpTo(k);
    hide PlainRun, Answers;
    var at := PlainRunAnswers(p, 0, ops);
    ThreeAnswers(p, at[n], at[n + 1], at[n + 2], at[n + 3], PlainRun(p, 0, ops)[n], PlainRun(p, 0, ops)[n + 1],
                 PlainRun(p, 0, ops)[n + 2], s, k);
  }

  lemma ThreeAnswers(p: seq<byte>, a: nat, b: nat, c: nat, d: nat, x: Answer, y: Answer, z: Answer, s: nat, k: nat)
    requires Answers(p, a, SeekTo(0, FromEnd), x, b) && Answers(p, b, SeekTo(s, FromStart), y, c)
    requires Answers(p, c, ReadUpTo(k), z, d)
    ensures x == At(|p|) && y == At(s) && z == Got(if s >= |p| then [] else if s + k <= |p| then p[s..s + k] else p[s..])
  {
  }

  method ReplayOne(r: Reader, p: seq<byte>, op: Op) returns (answer: Answer)
    requires r.Valid() && |p| == r.size && r.file == Encode(r.cipher, p, r.size)
    modifies r
    ensures r.Valid()
    ensures (r.pos, answer) == PlainStep(p, old(r.pos), op)
  {
    hide Encode, Tagged, Authentic, CipherLen, OpenChunk, PlainSlice;
    match op
    case SeekTo(offset, whence) =>
      var at := r.Seek(offset, whence);
      answer := At(at);
    case ReadUpTo(k) =>
      var out, _ := r.ReadFull(p, k);
      answer := Got(out);
  }

  lemma SealedFileHasItsHeader(a: ChunkCipher, p: seq<byte>)
    requires Tagged(a)
    ensures |Encode(a, p, |p|)| >= HEADER && ValidHeader(Encode(a, p, |p|)[..HEADER])
  {
    EncodeLength(a, p, |p|);
    EncodeChunksPrefix(a, p, 0, ChunkCount(|p|), |p|);
  }

  /** Every sequence of seeks and full reads gets from the sealed file what the plain bytes would give. */
  method Replay(cipher: ChunkCipher, p: seq<byte>, ops: seq<Op>) returns (answers: seq<Answer>, ghost at: seq<nat>)
    requires Tagged(cipher) && Authentic(cipher)
    requires |p| >= 1
    ensures answers == PlainRun(p, 0, ops)
    ensures |answers| == |ops| && |at| == |ops| + 1 && at[0] == 0
    ensures forall i :: 0 <= i < |ops| ==> Answers(p, at[i], ops[i], answers[i], at[i + 1])
  {
    at := PlainRunAnswers(p, 0, ops);
    hide Answers;
    EncodeLength(cipher, p, |p|);
    SealedFileHasItsHeader(cipher, p);
    var r := Open(cipher, Encode(cipher, p, |p|), |p|);
    answers := [];
    var rest := ops;
    while |rest| > 0
      invariant fresh(r) && r.Valid()
      invariant r.size == |p| && r.file == Encode(r.cipher, p, r.size)
      invariant answers + PlainRun(p, r.pos, rest) == PlainRun(p, 0, ops)
      decreases |rest|
    {
      ghost var due := PlainRun(p, r.pos, rest);
      var answer := ReplayOne(r, p, rest[0]);
      assert due == [answer] + PlainRun(p, r.pos, rest[1..]);
      assert answers + due == answers + [answer] + PlainRun(p, r.pos, rest[1..]);
      answers, rest := answers + [answer], rest[1..];
    }
  }

  /** A reader over a file two of whose whole chunks changed places, under the cipher files are sealed with. */
  method ReadMoved(a: Aead, p: seq<byte>, i: nat, j: nat, pos: nat, k: nat) returns (r: ReadResult)
    requires Ideal(a) && |p| < CHUNKS
    requires i < j && (j + 1) * CHUNK <= |p| && (pos / CHUNK == i || pos / CHUNK == j)
    ensures r == Corrupt
  {
    ChunkCipherIsIdeal(a);
    var c := CipherFor(a);
    hide Tagged, Authentic, Placed, Encode, CipherLen, Ideal, OpenChunk;
    SwappedChunksAreCorrupt(c, p, i, j, pos, k);
    SealedFileHasItsHeader(c, p);
    var file := Swapped(Encode(c, p, |p|), PlaceOf(i), PlaceOf(j), SEALED);
    assert file[..HEADER] == Encode(c, p, |p|)[..HEADER];
    var reader := Open(c, file, |p|);
    var _ := reader.Seek(pos, FromStart);
    r := reader.Read(k);
  }
}
