/**
 The sealed file format of attachments (client_backend/internal/blob/blob.go):
 a 32-byte header and chunks of 64 KiB of plaintext, each sealed on its own.
 */
module BlobFormat {
  import opened Common

  const CHUNK: nat := 65536
  const HEADER: nat := 32
  const TAG: nat := 16
  const SEALED: nat := 65552
  /** Chunks are numbered in eight bytes. */
  const CHUNKS: nat := 0x1_0000_0000_0000_0000

  /**
   The AEAD under one file's key. `seal` and `open` take a nonce, the bytes,
   and the additional data bound to them.
   */
  datatype Aead = Aead(
    seal: (seq<byte>, seq<byte>, seq<byte>) -> seq<byte>,
    open: (seq<byte>, seq<byte>, seq<byte>) -> Option<seq<byte>>)

  /** A nonce and bound data some chunk of a file is sealed under. */
  ghost predicate Context(n: seq<byte>, d: seq<byte>) {
    exists i: nat, last: bool :: i < CHUNKS && n == Nonce(i) && d == Aad(i, last)
  }

  /**
   What is taken for granted of the AEAD (section 2.8 of RFC 8439): it opens what
   it sealed, nothing else, and nothing sealed for another chunk. Sixteen bytes of
   tag cannot tell all nonces and data there are apart, so the last law is taken
   for those a file uses; `IdealExists` shows that it can be had.
   */
  ghost predicate Ideal(a: Aead) {
    && (forall n, p, d :: |a.seal(n, p, d)| == |p| + TAG)
    && (forall n, p, d {:trigger a.seal(n, p, d)} :: a.open(n, a.seal(n, p, d), d) == Some(p))
    && (forall n, c, d, p {:trigger a.open(n, c, d), a.seal(n, p, d)} ::
          a.open(n, c, d) == Some(p) ==> a.seal(n, p, d) == c)
    && (forall n, d, n', d', p {:trigger a.open(n', a.seal(n, p, d), d')} ::
          Context(n, d) && Context(n', d') && a.open(n', a.seal(n, p, d), d').Some? ==> n' == n && d' == d)
  }

  /** The AEAD as the chunks of a file use it: by index, and whether the chunk ends the file. */
  datatype ChunkCipher = ChunkCipher(
    seal: (nat, bool, seq<byte>) -> seq<byte>,
    open: (nat, bool, seq<byte>) -> Option<seq<byte>>)

  /** The cipher of a file's chunks: nonce and bound data are the chunk's own. */
  function CipherFor(a: Aead): (c: ChunkCipher)
  {
    ChunkCipher(
      (i: nat, last: bool, p: seq<byte>) => a.seal(Nonce(i), p, Aad(i, last)),
      (i: nat, last: bool, p: seq<byte>) => a.open(Nonce(i), p, Aad(i, last)))
  }

  /** An ideal AEAD makes a chunk cipher that binds every chunk to its place. */
  lemma ChunkCipherIsIdeal(a: Aead)
    requires Ideal(a)
    ensures Tagged(CipherFor(a)) && Authentic(CipherFor(a)) && Placed(CipherFor(a))
  {
    var c := CipherFor(a);
    hide Nonce, Aad;
    forall i, last, p
      ensures |c.seal(i, last, p)| == |p| + TAG && c.open(i, last, c.seal(i, last, p)) == Some(p)
    {
      assert c.seal(i, last, p) == a.seal(Nonce(i), p, Aad(i, last));
    }
    forall i, last, s, p | c.open(i, last, s) == Some(p)
      ensures c.seal(i, last, p) == s
    {
      assert c.seal(i, last, p) == a.seal(Nonce(i), p, Aad(i, last));
      assert a.open(Nonce(i), s, Aad(i, last)) == Some(p);
    }
    forall i: nat, j: nat, last, last', p | i < CHUNKS && j < CHUNKS && c.open(i, last, c.seal(j, last', p)).Some?
      ensures i == j && last == last'
    {
      assert a.open(Nonce(i), a.seal(Nonce(j), p, Aad(j, last')), Aad(i, last)).Some?;
      assert Context(Nonce(i), Aad(i, last)) && Context(Nonce(j), Aad(j, last'));
      ChunksAreBoundToTheirPlace(i, j, last, last');
    }
  }

  /** Sealing a chunk adds a tag of sixteen bytes. */
  ghost predicate Tagged(a: ChunkCipher) {
    forall i, last, p :: |a.seal(i, last, p)| == |p| + TAG
  }

  /** Opening undoes sealing, and opens nothing but the sealing of what it gives back. */
  ghost predicate Authentic(a: ChunkCipher) {
    && (forall i, last, p {:trigger a.seal(i, last, p)} :: a.open(i, last, a.seal(i, last, p)) == Some(p))
    && (forall i, last, c, p {:trigger a.open(i, last, c), a.seal(i, last, p)} ::
          a.open(i, last, c) == Some(p) ==> a.seal(i, last, p) == c)
  }

  /** Nothing sealed for one chunk opens as another, or as the last chunk when it was not, or the other way round. */
  ghost predicate Placed(a: ChunkCipher) {
    forall i: nat, j: nat, last, last', p {:trigger a.open(i, last, a.seal(j, last', p))} ::
      i < CHUNKS && j < CHUNKS && a.open(i, last, a.seal(j, last', p)).Some? ==> i == j && last == last'
  }

  /** A sealed chunk opens exactly as the chunk, and with the end, it was sealed for. */
  lemma OpensInItsPlaceOnly(a: ChunkCipher, i: nat, last: bool, j: nat, last': bool, p: seq<byte>)
    requires Authentic(a) && Placed(a) && i < CHUNKS && j < CHUNKS
    ensures a.open(i, last, a.seal(j, last', p)).Some? <==> i == j && last == last'
  {
    if i == j && last == last' {
      assert a.open(i, last, a.seal(i, last, p)) == Some(p);
    }
  }

  function Nonce(i: nat): (n: seq<byte>)
  {
    [0, 0, 0, 0] + BigEndian(i, 8)
  }

  function Aad(i: nat, last: bool): (d: seq<byte>)
  {
    BigEndian(i, 8) + [if last then 1 else 0]
  }

  /** Within a file no two chunks share a nonce, and the bound data tells place and end apart. */
  lemma ChunksAreBoundToTheirPlace(i: nat, j: nat, last: bool, last': bool)
    requires i < CHUNKS && j < CHUNKS
    ensures Nonce(i) == Nonce(j) <==> i == j
    ensures Aad(i, last) == Aad(j, last') <==> i == j && last == last'
  {
    Pow256Values();
    if Nonce(i) == Nonce(j) {
      SplitEqual([0, 0, 0, 0], BigEndian(i, 8), [0, 0, 0, 0], BigEndian(j, 8));
      BigEndianInjective(i, j, 8);
    }
    if Aad(i, last) == Aad(j, last') {
      var x: seq<byte> := [if last then 1 else 0];
      var y: seq<byte> := [if last' then 1 else 0];
      SplitEqual(BigEndian(i, 8), x, BigEndian(j, 8), y);
      assert x[0] == y[0];
      BigEndianInjective(i, j, 8);
    }
  }

  /** The header's bytes: "NOXF", version 1, the chunk size in bytes 8 to 11, zeros everywhere else. */
  lemma HeaderBytes()
    ensures Header()[..4] == [78, 79, 88, 70] && Header()[4] == 1
    ensures FromBigEndian(Header()[8..12]) == 65536
    ensures forall i :: 5 <= i < 8 || 12 <= i < 32 ==> Header()[i] == 0
  {
    assert Pow256(4) == Pow256(2) * 256 * 256 by { assert Pow256(3) == Pow256(2) * 256; }
    Pow256Values();
    BigEndianRoundTrip(CHUNK, 4);
    assert Header()[8..12] == BigEndian(CHUNK, 4);
  }

  /** A chunk's nonce is four zeros and its number, its bound data the number and whether it ends the file. */
  lemma NonceAndDataBytes(i: nat, last: bool)
    requires i < CHUNKS
    ensures |Nonce(i)| == 12 && Nonce(i)[..4] == [0, 0, 0, 0] && FromBigEndian(Nonce(i)[4..]) == i
    ensures |Aad(i, last)| == 9 && FromBigEndian(Aad(i, last)[..8]) == i && Aad(i, last)[8] == if last then 1 else 0
  {
    Pow256Values();
    BigEndianRoundTrip(i, 8);
    assert Nonce(i)[4..] == BigEndian(i, 8) && Aad(i, last)[..8] == BigEndian(i, 8);
  }

  // ---- the laws can be had ----

  /** The tag of a toy cipher: the bound data itself, where it is as long as a chunk's. */
  function ToyTag(d: seq<byte>): (t: seq<byte>)
    ensures |t| == TAG
  {
    if |d| == 9 then d + [0, 0, 0, 0, 0, 0, 0] else seq(TAG, _ => 0)
  }

  function Toy(): Aead {
    Aead((n: seq<byte>, p: seq<byte>, d: seq<byte>) => p + ToyTag(d),
         (n: seq<byte>, c: seq<byte>, d: seq<byte>) =>
           if |c| >= TAG && c[|c| - TAG..] == ToyTag(d) then Some(c[..|c| - TAG]) else None)
  }

  /** There is an AEAD with these laws. */
  lemma IdealExists()
    ensures Ideal(Toy())
  {
    var a := Toy();
    hide ToyTag, Context;
    forall n, p, d
      ensures |a.seal(n, p, d)| == |p| + TAG && a.open(n, a.seal(n, p, d), d) == Some(p)
    {
      var c := p + ToyTag(d);
      assert c[|c| - TAG..] == ToyTag(d) && c[..|c| - TAG] == p;
    }
    forall n, c, d, p | a.open(n, c, d) == Some(p)
      ensures a.seal(n, p, d) == c
    {
      assert c == c[..|c| - TAG] + c[|c| - TAG..];
    }
    forall n, d, n', d', p | Context(n, d) && Context(n', d') && a.open(n', a.seal(n, p, d), d').Some?
      ensures n' == n && d' == d
    {
      var c := p + ToyTag(d);
      assert c[|c| - TAG..] == ToyTag(d);
      ToyTagTells(n, d, n', d');
    }
  }

  lemma ToyTagTells(n: seq<byte>, d: seq<byte>, n': seq<byte>, d': seq<byte>)
    requires Context(n, d) && Context(n', d') && ToyTag(d) == ToyTag(d')
    ensures n == n' && d == d'
  {
    var i: nat, last: bool :| i < CHUNKS && n == Nonce(i) && d == Aad(i, last);
    var j: nat, last': bool :| j < CHUNKS && n' == Nonce(j) && d' == Aad(j, last');
    assert |d| == 9 && |d'| == 9;
    SplitEqual(d, [0, 0, 0, 0, 0, 0, 0], d', [0, 0, 0, 0, 0, 0, 0]);
    ChunksAreBoundToTheirPlace(i, j, last, last');
  }

  function Header(): (h: seq<byte>)
    ensures |h| == HEADER
  {
    // "NOXF", the format version, three zero bytes, the chunk size, the reserve
    [78, 79, 88, 70] + [1, 0, 0, 0] + BigEndian(CHUNK, 4) + seq(20, _ => 0)
  }

  predicate ValidHeader(h: seq<byte>) {
    h == Header()
  }

  /** How long a file of `plain` plaintext bytes is on disk. */
  function CipherLen(plain: nat): (n: nat)
    ensures n >= HEADER
  {
    HEADER + plain / CHUNK * SEALED + (if plain % CHUNK > 0 then plain % CHUNK + TAG else 0)
  }

  /** How many plaintext bytes the sealed chunks of `n` bytes on disk would hold. */
  function PlainLen(n: nat): (p: nat)
  {
    if n < HEADER then 0
    else
      var m := n - HEADER;
      m / SEALED * CHUNK + (if m % SEALED > TAG then m % SEALED - TAG else 0)
  }

  /** PlainLen undoes CipherLen. */
  lemma PlainLenOfCipherLen(p: nat)
    ensures PlainLen(CipherLen(p)) == p
  {
    var q, r := p / CHUNK, p % CHUNK;
    var m := CipherLen(p) - HEADER;
    var tail := if r > 0 then r + TAG else 0;
    assert m == q * SEALED + tail && tail < SEALED;
    assert m / SEALED == q && m % SEALED == tail;
  }

  /** No file claims more plaintext than its bytes carry. */
  lemma CipherLenOfPlainLen(n: nat)
    requires n >= HEADER
    ensures CipherLen(PlainLen(n)) <= n < CipherLen(PlainLen(n)) + TAG + 1
  {
    var m := n - HEADER;
    var q, r := m / SEALED, m % SEALED;
    var tail := if r > TAG then r - TAG else 0;
    assert tail <= CHUNK;
    var p := q * CHUNK + tail;
    if tail == CHUNK {
      assert false;
    }
    assert p / CHUNK == q && p % CHUNK == tail;
  }

  lemma CipherLenMonotone(p: nat, q: nat)
    requires p < q
    ensures CipherLen(p) < CipherLen(q)
  {
    var a, b := p / CHUNK, q / CHUNK;
    assert a <= b;
    if a == b {
      assert p % CHUNK < q % CHUNK;
    } else {
      assert b >= a + 1;
      assert b * SEALED >= (a + 1) * SEALED;
    }
  }

  /** A part holds at least `p` plaintext bytes exactly when it is long enough on disk. */
  lemma HoldsAtLeast(n: nat, p: nat)
    requires n >= HEADER
    ensures PlainLen(n) >= p <==> n >= CipherLen(p)
  {
    CipherLenOfPlainLen(n);
    if PlainLen(n) >= p {
      if p < PlainLen(n) {
        CipherLenMonotone(p, PlainLen(n));
      }
    } else {
      CipherLenMonotone(PlainLen(n), p);
      NextCipherLen(PlainLen(n), p, n);
    }
  }

  /** Between the lengths of two files one byte of plaintext apart lies at most a tag. */
  lemma NextCipherLen(p: nat, q: nat, n: nat)
    requires p < q && n >= HEADER && PlainLen(n) == p
    ensures n < CipherLen(q)
  {
    if p + 1 < q {
      CipherLenMonotone(p + 1, q);
    }
    var m := n - HEADER;
    var a, r := m / SEALED, m % SEALED;
    var tail := if r > TAG then r - TAG else 0;
    assert p == a * CHUNK + tail && tail < CHUNK;
    var s := p + 1;
    if tail + 1 < CHUNK {
      assert s / CHUNK == a && s % CHUNK == tail + 1;
    } else {
      assert s == (a + 1) * CHUNK;
      assert s / CHUNK == a + 1 && s % CHUNK == 0;
    }
  }

  /** Where a part of a file of `size` bytes can end in whole sealed chunks. */
  predicate Boundary(n: nat, size: nat) {
    n <= size && (n % CHUNK == 0 || n == size)
  }

  /** Where chunk `k` of `n` plaintext bytes starts - or the end, past the last one. */
  function Start(k: nat, n: nat): (s: nat)
    ensures s <= n
  {
    Min(k * CHUNK, n)
  }

  /** How many chunks hold `n` plaintext bytes. */
  function ChunkCount(n: nat): (k: nat)
    ensures Start(k, n) == n
    ensures k > 0 ==> (k - 1) * CHUNK < n
  {
    (n + CHUNK - 1) / CHUNK
  }

  /** The header and the first `k` sealed chunks of `p`, which begins a file of `size` bytes. */
  function EncodeChunks(a: ChunkCipher, p: seq<byte>, k: nat, size: nat): (c: seq<byte>)
  {
    if k == 0 then Header()
    else
      EncodeChunks(a, p, k - 1, size)
      + a.seal(k - 1, Start(k, |p|) == size, p[Start(k - 1, |p|)..Start(k, |p|)])
  }

  /** What the disk holds once `p`, the leading bytes of a file of `size` bytes, is sealed. */
  function Encode(a: ChunkCipher, p: seq<byte>, size: nat): (c: seq<byte>)
  {
    EncodeChunks(a, p, ChunkCount(|p|), size)
  }

  /** One more chunk lengthens the file by the chunk and its tag. */
  lemma CipherLenStep(i: nat, len: nat)
    requires 0 < len <= CHUNK
    ensures CipherLen(i * CHUNK) == HEADER + i * SEALED
    ensures CipherLen(i * CHUNK + len) == HEADER + i * SEALED + len + TAG
  {
    var n := i * CHUNK + len;
    if len == CHUNK {
      assert n == (i + 1) * CHUNK;
      assert n / CHUNK == i + 1 && n % CHUNK == 0;
    } else {
      assert n / CHUNK == i && n % CHUNK == len;
    }
  }

  lemma {:induction false} EncodeChunksLength(a: ChunkCipher, p: seq<byte>, k: nat, size: nat)
    requires Tagged(a)
    requires k == 0 || (k - 1) * CHUNK < |p|
    ensures |EncodeChunks(a, p, k, size)| == CipherLen(Start(k, |p|))
  {
    if k > 0 {
      var i, len := k - 1, Start(k, |p|) - (k - 1) * CHUNK;
      EncodeChunksLength(a, p, i, size);
      CipherLenStep(i, len);
      hide CipherLen;
      assert Start(i, |p|) == i * CHUNK && Start(k, |p|) == i * CHUNK + len;
      var chunk := p[Start(i, |p|)..Start(k, |p|)];
      assert |a.seal(i, Start(k, |p|) == size, chunk)| == len + TAG;
    }
  }

  /** The first chunks depend only on the bytes they hold. */
  lemma {:induction false} EncodeChunksLocal(a: ChunkCipher, p: seq<byte>, q: seq<byte>, k: nat, size: nat)
    requires k * CHUNK <= |p| && k * CHUNK <= |q| && p[..k * CHUNK] == q[..k * CHUNK]
    ensures EncodeChunks(a, p, k, size) == EncodeChunks(a, q, k, size)
  {
    if k > 0 {
      var n, m := k * CHUNK, (k - 1) * CHUNK;
      assert p[..m] == p[..n][..m] && q[..m] == q[..n][..m];
      EncodeChunksLocal(a, p, q, k - 1, size);
      assert p[m..n] == p[..n][m..] && q[m..n] == q[..n][m..];
    }
  }

  /** The first chunks stay where they are whatever follows them. */
  lemma {:induction false} EncodeChunksPrefix(a: ChunkCipher, p: seq<byte>, k: nat, m: nat, size: nat)
    requires k <= m
    ensures EncodeChunks(a, p, k, size) <= EncodeChunks(a, p, m, size)
  {
    if k < m {
      EncodeChunksPrefix(a, p, k, m - 1, size);
    }
  }

  lemma EncodeLength(a: ChunkCipher, p: seq<byte>, size: nat)
    requires Tagged(a)
    ensures |Encode(a, p, size)| == CipherLen(|p|)
  {
    EncodeChunksLength(a, p, ChunkCount(|p|), size);
  }

  lemma ChunkCountExact(k: nat)
    ensures ChunkCount(k * CHUNK) == k
  {
  }

  /** Sealing one more chunk appends it and moves nothing before it. */
  lemma EncodeAppend(a: ChunkCipher, p: seq<byte>, tail: seq<byte>, k: nat, size: nat)
    requires |p| == k * CHUNK && 0 < |tail| <= CHUNK
    ensures Encode(a, p + tail, size) == Encode(a, p, size) + a.seal(k, |p| + |tail| == size, tail)
  {
    var q := p + tail;
    ChunkCountExact(k);
    assert ChunkCount(|q|) == k + 1 && Start(k, |q|) == |p| && Start(k + 1, |q|) == |q|;
    assert q[..|p|] == p == p[..|p|] && q[|p|..|q|] == tail;
    EncodeChunksLocal(a, q, p, k, size);
  }

  /** The leading chunks of a longer file are the chunks of its leading bytes. */
  lemma EncodePrefix(a: ChunkCipher, p: seq<byte>, n: nat, size: nat)
    requires n <= |p| && (n % CHUNK == 0 || n == |p|)
    ensures Encode(a, p[..n], size) <= Encode(a, p, size)
  {
    if n == |p| {
      assert p[..n] == p;
    } else {
      var k := n / CHUNK;
      assert n == k * CHUNK;
      ChunkCountExact(k);
      assert k <= ChunkCount(|p|);
      assert p[..n][..n] == p[..n];
      EncodeChunksLocal(a, p[..n], p, k, size);
      EncodeChunksPrefix(a, p, k, ChunkCount(|p|), size);
    }
  }

  /** How long chunk `i` of a file of `size` bytes is, in plaintext. */
  function ChunkLen(i: nat, size: nat): (len: nat)
    requires i * CHUNK < size
    ensures 0 < len <= CHUNK && i * CHUNK + len <= size
    ensures len < CHUNK ==> i * CHUNK + len == size
  {
    Min(CHUNK, size - i * CHUNK)
  }

  /** The chunks before chunk `i` and chunk `i` itself begin the whole file. */
  lemma ChunkFollows(a: ChunkCipher, p: seq<byte>, i: nat, len: nat)
    requires Tagged(a)
    requires i * CHUNK < |p| && len == ChunkLen(i, |p|)
    ensures |EncodeChunks(a, p, i, |p|)| == HEADER + i * SEALED
    ensures EncodeChunks(a, p, i, |p|) + a.seal(i, i * CHUNK + len == |p|, p[i * CHUNK..i * CHUNK + len])
         <= Encode(a, p, |p|)
  {
    hide EncodeChunks, Tagged, ChunkCount, ChunkLen, Start;
    ChunksBefore(a, p, i, len);
    OneChunkMore(a, p, i, len);
    EncodeChunksPrefix(a, p, i + 1, ChunkCount(|p|), |p|);
  }

  lemma ChunksBefore(a: ChunkCipher, p: seq<byte>, i: nat, len: nat)
    requires Tagged(a)
    requires i * CHUNK < |p| && len == ChunkLen(i, |p|)
    ensures |EncodeChunks(a, p, i, |p|)| == HEADER + i * SEALED && i < ChunkCount(|p|)
  {
    hide EncodeChunks, Tagged;
    EncodeChunksLength(a, p, i, |p|);
    CipherLenStep(i, len);
  }

  lemma OneChunkMore(a: ChunkCipher, p: seq<byte>, i: nat, len: nat)
    requires i * CHUNK < |p| && len == ChunkLen(i, |p|)
    ensures EncodeChunks(a, p, i + 1, |p|)
         == EncodeChunks(a, p, i, |p|) + a.seal(i, i * CHUNK + len == |p|, p[i * CHUNK..i * CHUNK + len])
  {
    assert Start(i, |p|) == i * CHUNK && Start(i + 1, |p|) == i * CHUNK + len;
  }

  /** Chunk `i` of the encoding of a whole file, and where it lies. */
  lemma ChunkAt(a: ChunkCipher, p: seq<byte>, i: nat, len: nat)
    requires Tagged(a)
    requires i * CHUNK < |p| && len == ChunkLen(i, |p|)
    ensures HEADER + i * SEALED + len + TAG <= |Encode(a, p, |p|)|
    ensures Encode(a, p, |p|)[HEADER + i * SEALED..HEADER + i * SEALED + len + TAG]
         == a.seal(i, i * CHUNK + len == |p|, p[i * CHUNK..i * CHUNK + len])
  {
    ChunkFollows(a, p, i, len);
    SliceOfPrefix(EncodeChunks(a, p, i, |p|),
                  a.seal(i, i * CHUNK + len == |p|, p[i * CHUNK..i * CHUNK + len]),
                  Encode(a, p, |p|));
  }

  lemma SliceOfPrefix<T>(x: seq<T>, y: seq<T>, z: seq<T>)
    requires x + y <= z
    ensures z[|x|..|x| + |y|] == y
  {
    assert z[..|x| + |y|] == x + y;
  }

  /** The length of a finished file names its size, and no other length passes for one. */
  lemma SizeFromLength(n: nat, size: nat)
    requires size > 0
    ensures PlainLen(n) == size && CipherLen(PlainLen(n)) == n <==> n == CipherLen(size)
  {
    PlainLenOfCipherLen(size);
  }
}
