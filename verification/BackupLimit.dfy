/**
 How many attachments a backup can carry before no restore reads its manifest
 (client_backend/internal/backup/backup.go): the bound of 16 MiB is checked on
 reading and not on writing.
 */
module BackupLimit {
  import opened Common
  import opened Backup

  // ---- ids as the server mints them ----

  function HexDigit(d: nat): (b: byte)
    requires d < 16
    ensures Hex(b)
  {
    if d < 10 then 48 + d else 87 + d
  }

  /** The last `n` hex digits of a number, most significant first. */
  function HexOf(i: nat, n: nat): (h: Bytes)
    ensures |h| == n && forall k :: 0 <= k < n ==> Hex(h[k])
  {
    if n == 0 then [] else HexOf(i / 16, n - 1) + [HexDigit(i % 16)]
  }

  function Pow16(n: nat): (p: nat)
    ensures p > 0
  {
    if n == 0 then 1 else 16 * Pow16(n - 1)
  }

  lemma {:induction false} HexOfInjective(i: nat, j: nat, n: nat)
    requires i < Pow16(n) && j < Pow16(n) && HexOf(i, n) == HexOf(j, n)
    ensures i == j
  {
    if n > 0 {
      SplitEqual(HexOf(i / 16, n - 1), [HexDigit(i % 16)], HexOf(j / 16, n - 1), [HexDigit(j % 16)]);
      assert [HexDigit(i % 16)][0] == [HexDigit(j % 16)][0];
      HexOfInjective(i / 16, j / 16, n - 1);
    }
  }

  /** The id of the `i`-th attachment: "f_" and sixteen hex digits. */
  function IdAt(i: nat): (id: Bytes)
    ensures |id| == 18 && FileId(id)
  {
    [102, 95] + HexOf(i, 16)
  }

  function Ids(n: nat): (ids: seq<Bytes>)
    ensures |ids| == n
  {
    seq(n, i requires 0 <= i => IdAt(i))
  }

  predicate HasAll(files: map<Bytes, Bytes>, n: nat) {
    forall i :: 0 <= i < n ==> IdAt(i) in files
  }

  lemma IdsDistinct(n: nat)
    requires n <= Pow16(16)
    ensures Distinct(Ids(n))
  {
    hide HexOf;
    forall i, j | 0 <= i < j < n
      ensures Ids(n)[i] != Ids(n)[j]
    {
      if IdAt(i) == IdAt(j) {
        SplitEqual([102, 95], HexOf(i, 16), [102, 95], HexOf(j, 16));
        HexOfInjective(i, j, 16);
      }
    }
  }

  lemma Pow16Value()
    ensures Pow16(16) == 0x1_0000_0000_0000_0000
  {
    assert Pow16(4) == 0x1_0000;
    assert Pow16(8) == 16 * (16 * (16 * (16 * Pow16(4))));
    assert Pow16(12) == 16 * (16 * (16 * (16 * Pow16(8))));
    assert Pow16(16) == 16 * (16 * (16 * (16 * Pow16(12))));
  }

  // ---- what an entry takes in the manifest ----

  function Decimal(n: nat): (d: Bytes)
    ensures |d| >= 1
  {
    if n < 10 then [48 + n] else Decimal(n / 10) + [48 + n % 10]
  }

  /** `{"name":"` and `","size":` as bytes. */
  const NAME_KEY: Bytes := [123, 34, 110, 97, 109, 101, 34, 58, 34]
  const SIZE_KEY: Bytes := [34, 44, 34, 115, 105, 122, 101, 34, 58]

  /** An entry in JSON, with the comma or bracket behind it. */
  function EntryText(e: Listed): Bytes {
    NAME_KEY + e.name + SIZE_KEY + Decimal(e.size) + [125, 44]
  }

  function TextLen(es: seq<Listed>): nat {
    if es == [] then 0 else |EntryText(es[0])| + TextLen(es[1..])
  }

  /** A manifest is at least as long as its entries in JSON: escaping a name only lengthens it. */
  ghost predicate JsonSized(c: Codec) {
    forall m :: |c.marshal(m)| >= TextLen(m.entries)
  }

  lemma {:induction false} TextLenAtLeast(es: seq<Listed>, from: nat, each: nat)
    requires from <= |es| && forall i :: from <= i < |es| ==> |EntryText(es[i])| >= each
    ensures TextLen(es) >= (|es| - from) * each
  {
    hide EntryText;
    if es != [] {
      if from > 0 {
        TextLenAtLeast(es[1..], from - 1, each);
      } else {
        TextLenAtLeast(es[1..], 0, each);
        assert |es| * each == (|es| - 1) * each + each;
      }
    }
  }

  // ---- the failing family ----

  /** As many attachments as the bound holds entries of forty-five bytes, and one more. */
  const TOO_MANY: nat := 372_828

  lemma {:induction false} AllCarried(ids: seq<Bytes>, files: map<Bytes, Bytes>)
    requires forall i :: 0 <= i < |ids| ==> ids[i] in files
    ensures |Carried(ids, files)| == |ids|
    ensures forall i :: 0 <= i < |ids| ==> Carried(ids, files)[i].name == FILES_PREFIX + ids[i]
  {
    if ids != [] {
      AllCarried(ids[..|ids| - 1], files);
    }
  }

  lemma EveryEntryIsLong(key: Bytes, db: Bytes, n: nat, files: map<Bytes, Bytes>)
    requires HasAll(files, n)
    ensures var l := ListOf(Contents(key, db, Ids(n), files));
            |l| == n + 2 && forall i :: 2 <= i < |l| ==> |EntryText(l[i])| >= 45
  {
    AllCarried(Ids(n), files);
    hide Carried, IdAt;
    var es := Contents(key, db, Ids(n), files);
    forall i | 2 <= i < |es|
      ensures |es[i].name| == 24
    {
      assert es[i].name == FILES_PREFIX + Ids(n)[i - 2];
    }
  }

  /**
   Every backup of that many attachments, whatever the key file, the database and
   the files, is written, and no restore accepts it.
   */
  method TooManyAttachments(c: Codec, key: Bytes, db: Bytes, n: nat, files: map<Bytes, Bytes>, at: int)
    returns (archive: seq<TarEntry>)
    requires Lawful(c) && JsonSized(c) && |key| <= MAX_KEY
    requires TOO_MANY <= n <= 0x1_0000_0000_0000_0000 && HasAll(files, n)
    ensures archive == ArchiveOf(c, Contents(key, db, Ids(n), files), at)
    ensures !Restorable(c, archive)
  {
    Pow16Value();
    hide Pow16, Restorable, InOrder, Carried, IdAt, TarAll, Stream;
    IdsDistinct(n);
    EveryEntryIsLong(key, db, n, files);
    var written, _ := Write(c, key, db, Ids(n), files, at);
    archive := written.value;
    ghost var es := Contents(key, db, Ids(n), files);
    TextLenAtLeast(ListOf(es), 2, 45);
    WrittenIsRestorable(c, es, at);
    assert |c.marshal(ManifestOf(c, es, at))| >= TextLen(ManifestOf(c, es, at).entries);
  }

  // ---- the laws asked of a codec can be had ----

  function Unary(n: nat): (u: Bytes)
    ensures |u| == n + 1
  {
    if n == 0 then [0] else [1] + Unary(n - 1)
  }

  lemma {:induction false} UnaryApart(m: nat, n: nat, x: Bytes, y: Bytes)
    requires Unary(m) + x == Unary(n) + y
    ensures m == n && x == y
  {
    assert (Unary(m) + x)[0] == (if m == 0 then 0 else 1) && (Unary(n) + y)[0] == (if n == 0 then 0 else 1);
    if m == 0 {
      SplitEqual([0], x, [0], y);
    } else {
      assert Unary(m) + x == [1] + (Unary(m - 1) + x) && Unary(n) + y == [1] + (Unary(n - 1) + y);
      SplitEqual([1], Unary(m - 1) + x, [1], Unary(n - 1) + y);
      UnaryApart(m - 1, n - 1, x, y);
    }
  }

  function Side(n: int): nat {
    if n < 0 then 0 else 1
  }

  function Size(n: int): nat {
    if n < 0 then -n else n
  }

  function Signed(n: int): Bytes {
    Unary(Side(n)) + Unary(Size(n))
  }

  lemma SignedApart(m: int, n: int, x: Bytes, y: Bytes)
    requires Signed(m) + x == Signed(n) + y
    ensures m == n && x == y
  {
    hide Unary;
    assert Signed(m) + x == Unary(Side(m)) + (Unary(Size(m)) + x);
    assert Signed(n) + y == Unary(Side(n)) + (Unary(Size(n)) + y);
    UnaryApart(Side(m), Side(n), Unary(Size(m)) + x, Unary(Size(n)) + y);
    UnaryApart(Size(m), Size(n), x, y);
  }

  /** An entry told by its numbers, its JSON behind them. */
  function Code(e: Listed): Bytes {
    Unary(|e.name|) + e.name + Unary(e.size) + EntryText(e)
  }

  lemma CodeApart(e: Listed, f: Listed, x: Bytes, y: Bytes)
    requires Code(e) + x == Code(f) + y
    ensures e == f && x == y
  {
    hide Unary, EntryText;
    var p, q := Unary(e.size) + (EntryText(e) + x), Unary(f.size) + (EntryText(f) + y);
    assert Code(e) + x == Unary(|e.name|) + (e.name + p) && Code(f) + y == Unary(|f.name|) + (f.name + q);
    UnaryApart(|e.name|, |f.name|, e.name + p, f.name + q);
    SplitEqual(e.name, p, f.name, q);
    UnaryApart(e.size, f.size, EntryText(e) + x, EntryText(f) + y);
    SplitEqual(EntryText(e), x, EntryText(f), y);
  }

  function Codes(es: seq<Listed>): (bs: Bytes)
    ensures |bs| >= TextLen(es)
  {
    if es == [] then [] else Code(es[0]) + Codes(es[1..])
  }

  lemma {:induction false} CodesApart(es: seq<Listed>, fs: seq<Listed>, x: Bytes, y: Bytes)
    requires |es| == |fs| && Codes(es) + x == Codes(fs) + y
    ensures es == fs && x == y
  {
    hide Code;
    if es == [] {
      assert Codes(es) + x == x && Codes(fs) + y == y;
    } else {
      assert Codes(es) + x == Code(es[0]) + (Codes(es[1..]) + x);
      assert Codes(fs) + y == Code(fs[0]) + (Codes(fs[1..]) + y);
      CodeApart(es[0], fs[0], Codes(es[1..]) + x, Codes(fs[1..]) + y);
      CodesApart(es[1..], fs[1..], x, y);
      assert es == [es[0]] + es[1..] && fs == [fs[0]] + fs[1..];
    }
  }

  function Spelled(m: Manifest): (bs: Bytes)
    ensures |bs| >= TextLen(m.entries)
  {
    Signed(m.version) + (Signed(m.createdAt) + (Unary(|m.entries|) + (Codes(m.entries) + m.mac)))
  }

  lemma SpelledInjective(m: Manifest, n: Manifest)
    requires Spelled(m) == Spelled(n)
    ensures m == n
  {
    hide Signed, Unary, Codes;
    var p, q := Codes(m.entries) + m.mac, Codes(n.entries) + n.mac;
    SignedApart(m.version, n.version, Signed(m.createdAt) + (Unary(|m.entries|) + p), Signed(n.createdAt) + (Unary(|n.entries|) + q));
    SignedApart(m.createdAt, n.createdAt, Unary(|m.entries|) + p, Unary(|n.entries|) + q);
    UnaryApart(|m.entries|, |n.entries|, p, q);
    CodesApart(m.entries, n.entries, m.mac, n.mac);
  }

  ghost function ReadBack(bs: Bytes): Option<Manifest> {
    if m :| Spelled(m) == bs then Some(m) else None
  }

  lemma LawfulCodec(c: Codec)
    requires forall m :: c.unmarshal(c.marshal(m)) == Some(m)
    requires forall m :: |c.marshal(m)| >= TextLen(m.entries)
    ensures Lawful(c) && JsonSized(c)
  {
  }

  /** There is a codec with these laws, and there are files for any number of ids. */
  lemma LawsCanBeHad(n: nat)
    ensures exists c :: Lawful(c) && JsonSized(c)
    ensures exists files :: HasAll(files, n)
  {
    hide Spelled, IdAt, TextLen, Lawful, JsonSized;
    var c := Codec(s => s, m => Spelled(m), bs => ReadBack(bs));
    forall m
      ensures c.unmarshal(c.marshal(m)) == Some(m)
    {
      var back := ReadBack(Spelled(m));
      assert back.Some?;
      SpelledInjective(back.value, m);
    }
    LawfulCodec(c);
    var files: map<Bytes, Bytes> := map id | id in Ids(n) :: [];
    forall i | 0 <= i < n
      ensures IdAt(i) in files
    {
      assert Ids(n)[i] == IdAt(i);
    }
    assert HasAll(files, n);
  }
}
