/**
 The backup archive and its MAC (client_backend/internal/backup/backup.go): the
 stream the MAC is taken over can be read only one way, and what unpacking
 accepts is what writing made. The tar container is a list of named entries, the
 keyed MAC and the manifest's JSON are parameters.
 */
module Backup {
  import opened Common

  type Bytes = seq<byte>

  // The entry names "nox.key", "nox.db", "files/" and "manifest", and the MAC's opening "nox/backup/v1\n".
  const KEY_NAME: Bytes := [110, 111, 120, 46, 107, 101, 121]
  const DB_NAME: Bytes := [110, 111, 120, 46, 100, 98]
  const FILES_PREFIX: Bytes := [102, 105, 108, 101, 115, 47]
  const MANIFEST_NAME: Bytes := [109, 97, 110, 105, 102, 101, 115, 116]
  const MAC_INFO: Bytes := [110, 111, 120, 47, 98, 97, 99, 107, 117, 112, 47, 118, 49, 10]
  const FORMAT: int := 1
  const MAX_MANIFEST: nat := 0x100_0000
  const MAX_KEY: nat := 0x1_0000
  const INT64: nat := 0x1_0000_0000_0000_0000

  datatype Item = Item(name: Bytes, content: Bytes)

  predicate Int64(x: int) {
    -(INT64 / 2) <= x < INT64 / 2
  }

  /** A signed 64-bit integer in eight bytes, two's complement. */
  function Fixed64(x: int): (bs: Bytes)
    ensures |bs| == 8
  {
    BigEndian(x % INT64, 8)
  }

  lemma TwosComplement(x: int)
    requires Int64(x)
    ensures x % INT64 == if x < 0 then x + INT64 else x
  {
  }

  lemma Fixed64Injective(x: int, y: int)
    requires Int64(x) && Int64(y) && Fixed64(x) == Fixed64(y)
    ensures x == y
  {
    Pow256Values();
    hide BigEndian, Pow256;
    BigEndianInjective(x % INT64, y % INT64, 8);
    TwosComplement(x);
    TwosComplement(y);
  }

  // ---- the stream ----

  /** A length in two bytes, whatever it is. */
  function Fixed16(n: nat): (bs: Bytes)
    ensures |bs| == 2
  {
    BigEndian(n % 0x1_0000, 2)
  }

  lemma Fixed16Injective(m: nat, n: nat)
    requires m < 0x1_0000 && n < 0x1_0000 && Fixed16(m) == Fixed16(n)
    ensures m == n
  {
    Pow256Values();
    hide BigEndian, Pow256;
    BigEndianInjective(m, n, 2);
  }

  /** What one entry feeds the MAC: its name's length, its name, its size, its bytes. */
  function Fed(e: Item): Bytes {
    Fixed16(|e.name|) + e.name + Fixed64(|e.content|) + e.content
  }

  function FedAll(es: seq<Item>): Bytes {
    if es == [] then [] else Fed(es[0]) + FedAll(es[1..])
  }

  function Closing(at: int, n: int): Bytes {
    [0xff] + Fixed64(at) + Fixed64(n)
  }

  function Stream(es: seq<Item>, at: int): Bytes {
    MAC_INFO + FedAll(es) + Closing(at, |es|)
  }

  /** A name short enough that its length's first byte is never the closing mark, and a size the eight bytes hold. */
  predicate Short(e: Item) {
    |e.name| < 0xff00 && |e.content| < INT64 / 2
  }

  lemma LengthFirstByte(e: Item)
    requires Short(e)
    ensures |Fed(e)| >= 10 && Fed(e)[0] != 0xff
  {
    var n := |e.name|;
    assert n % 0x1_0000 == n;
    assert BigEndian(n, 2) == BigEndian(n / 256, 1) + [n % 256];
    assert BigEndian(n / 256, 1) == BigEndian(n / 256 / 256, 0) + [n / 256 % 256];
  }

  /** The entry at the head of a stream is read off it in one way. */
  lemma FedApart(a: Item, b: Item, x: Bytes, y: Bytes)
    requires Short(a) && Short(b) && Fed(a) + x == Fed(b) + y
    ensures a == b && x == y
  {
    hide Fixed16, Fixed64;
    var p, q := Fixed16(|a.name|), Fixed16(|b.name|);
    var i, j := Fixed64(|a.content|), Fixed64(|b.content|);
    assert p + (a.name + (i + (a.content + x))) == Fed(a) + x;
    assert q + (b.name + (j + (b.content + y))) == Fed(b) + y;
    SplitEqual(p, a.name + (i + (a.content + x)), q, b.name + (j + (b.content + y)));
    Fixed16Injective(|a.name|, |b.name|);
    SplitEqual(a.name, i + (a.content + x), b.name, j + (b.content + y));
    SplitEqual(i, a.content + x, j, b.content + y);
    Fixed64Injective(|a.content|, |b.content|);
    SplitEqual(a.content, x, b.content, y);
  }

  /** The first byte tells an entry from the closing. */
  lemma FirstByte(es: seq<Item>, x: Bytes)
    requires forall i :: 0 <= i < |es| ==> Short(es[i])
    ensures (FedAll(es) + ([0xff] + x))[0] == 0xff <==> es == []
  {
    hide Fed;
    if es != [] {
      LengthFirstByte(es[0]);
    }
  }

  /** Entries with their closing come apart in one way. */
  lemma {:induction false} FedAllApart(a: seq<Item>, b: seq<Item>, x: Bytes, y: Bytes)
    requires forall i :: 0 <= i < |a| ==> Short(a[i])
    requires forall i :: 0 <= i < |b| ==> Short(b[i])
    requires FedAll(a) + ([0xff] + x) == FedAll(b) + ([0xff] + y)
    ensures a == b && x == y
  {
    hide Fed;
    FirstByte(a, x);
    FirstByte(b, y);
    if a == [] {
      assert FedAll(a) + ([0xff] + x) == [0xff] + x && FedAll(b) + ([0xff] + y) == [0xff] + y;
      SplitEqual([0xff], x, [0xff], y);
    } else {
      assert FedAll(a) + ([0xff] + x) == Fed(a[0]) + (FedAll(a[1..]) + ([0xff] + x));
      assert FedAll(b) + ([0xff] + y) == Fed(b[0]) + (FedAll(b[1..]) + ([0xff] + y));
      FedApart(a[0], b[0], FedAll(a[1..]) + ([0xff] + x), FedAll(b[1..]) + ([0xff] + y));
      FedAllApart(a[1..], b[1..], x, y);
      assert a == [a[0]] + a[1..] && b == [b[0]] + b[1..];
    }
  }

  /** Two backups that feed the MAC the same bytes are the same entries, contents and moment. */
  lemma StreamInjective(a: seq<Item>, b: seq<Item>, at: int, bt: int)
    requires forall i :: 0 <= i < |a| ==> Short(a[i])
    requires forall i :: 0 <= i < |b| ==> Short(b[i])
    requires Int64(at) && Int64(bt)
    requires Stream(a, at) == Stream(b, bt)
    ensures a == b && at == bt
  {
    hide FedAll, Fixed64, Short;
    var x, y := Fixed64(at) + Fixed64(|a|), Fixed64(bt) + Fixed64(|b|);
    assert Stream(a, at) == MAC_INFO + (FedAll(a) + ([0xff] + x));
    assert Stream(b, bt) == MAC_INFO + (FedAll(b) + ([0xff] + y));
    SplitEqual(MAC_INFO, FedAll(a) + ([0xff] + x), MAC_INFO, FedAll(b) + ([0xff] + y));
    FedAllApart(a, b, x, y);
    SplitEqual(Fixed64(at), Fixed64(|a|), Fixed64(bt), Fixed64(|b|));
    Fixed64Injective(at, bt);
  }

  // ---- the archive ----

  /** A tar entry: a regular file or not. */
  datatype TarEntry = TarEntry(name: Bytes, regular: bool, content: Bytes)

  datatype Listed = Listed(name: Bytes, size: nat)

  datatype Manifest = Manifest(version: int, createdAt: int, entries: seq<Listed>, mac: Bytes)

  /** The keyed MAC and the manifest's JSON. */
  datatype Codec = Codec(mac: Bytes -> Bytes, marshal: Manifest -> Bytes, unmarshal: Bytes -> Option<Manifest>)

  ghost predicate Lawful(c: Codec) {
    forall m :: c.unmarshal(c.marshal(m)) == Some(m)
  }

  function ListOf(es: seq<Item>): (l: seq<Listed>)
    ensures |l| == |es|
  {
    seq(|es|, i requires 0 <= i < |es| => Listed(es[i].name, |es[i].content|))
  }

  predicate Hex(b: byte) {
    48 <= b <= 57 || 97 <= b <= 102
  }

  /** The server's own file ids: "f_" and one to sixty-four hex digits. */
  predicate FileId(id: Bytes) {
    3 <= |id| <= 66 && id[..2] == [102, 95] && forall i :: 2 <= i < |id| ==> Hex(id[i])
  }

  /** The attachment id an entry name carries, if it carries one. */
  function FileIdOf(name: Bytes): (id: Option<Bytes>)
    ensures id.Some? ==> name == FILES_PREFIX + id.value && FileId(id.value)
  {
    if |name| > |FILES_PREFIX| && name[..|FILES_PREFIX|] == FILES_PREFIX && FileId(name[|FILES_PREFIX|..])
    then Some(name[|FILES_PREFIX|..]) else None
  }

  /** Every file id is found again in its entry's name. */
  lemma FileIdFoundAgain(id: Bytes)
    requires FileId(id)
    ensures FileIdOf(FILES_PREFIX + id) == Some(id)
  {
    var name := FILES_PREFIX + id;
    assert name[..|FILES_PREFIX|] == FILES_PREFIX && name[|FILES_PREFIX|..] == id;
  }

  function Tar(e: Item): TarEntry {
    TarEntry(e.name, true, e.content)
  }

  function TarAll(es: seq<Item>): (t: seq<TarEntry>)
    ensures |t| == |es|
  {
    seq(|es|, i requires 0 <= i < |es| => Tar(es[i]))
  }

  function ManifestOf(c: Codec, es: seq<Item>, at: int): Manifest {
    Manifest(FORMAT, at, ListOf(es), c.mac(Stream(es, at)))
  }

  /** An archive: its entries and, last, the manifest that names them. */
  function ArchiveOf(c: Codec, es: seq<Item>, at: int): seq<TarEntry> {
    TarAll(es) + [TarEntry(MANIFEST_NAME, true, c.marshal(ManifestOf(c, es, at)))]
  }

  /** The order of a backup: the key no larger than a key file, the database, then attachments, none twice. */
  predicate InOrder(es: seq<Item>) {
    && |es| >= 2
    && es[0].name == KEY_NAME && |es[0].content| <= MAX_KEY
    && es[1].name == DB_NAME
    && (forall i :: 2 <= i < |es| ==> FileIdOf(es[i].name).Some?)
    && (forall i, j :: 2 <= i < j < |es| ==> es[i].name != es[j].name)
  }

  /** What a manifest must say of the entries before it. */
  predicate Vouches(c: Codec, es: seq<Item>, raw: Bytes) {
    && |raw| <= MAX_MANIFEST
    && c.unmarshal(raw).Some?
    && var m := c.unmarshal(raw).value;
       m.version == FORMAT && m.entries == ListOf(es) && m.mac == c.mac(Stream(es, m.createdAt))
  }

  /** What a restore accepts: entries in order and, last of all, a manifest that vouches for exactly them. */
  ghost predicate Accepted(c: Codec, archive: seq<TarEntry>, es: seq<Item>, raw: Bytes) {
    archive == TarAll(es) + [TarEntry(MANIFEST_NAME, true, raw)] && InOrder(es) && Vouches(c, es, raw)
  }

  /** Every entry a restore accepts has a short name. */
  lemma InOrderIsShort(es: seq<Item>, i: nat)
    requires InOrder(es) && i < |es| && |es[i].content| < INT64 / 2
    ensures Short(es[i])
  {
    if i >= 2 {
      var id := FileIdOf(es[i].name);
    }
  }

  /**
   With a MAC nobody can make collide, a backup accepted with the MAC of a backup
   that was written holds the same entries in the same order with the same bytes,
   made at the same moment.
   */
  lemma AcceptedIsWritten(c: Codec, written: seq<Item>, at: int, archive: seq<TarEntry>, es: seq<Item>, raw: Bytes)
    requires forall s, t :: c.mac(s) == c.mac(t) ==> s == t
    requires InOrder(written) && Int64(at) && forall i :: 0 <= i < |written| ==> |written[i].content| < INT64 / 2
    requires Accepted(c, archive, es, raw) && forall i :: 0 <= i < |es| ==> |es[i].content| < INT64 / 2
    requires c.unmarshal(raw).value.mac == c.mac(Stream(written, at)) && Int64(c.unmarshal(raw).value.createdAt)
    ensures es == written && c.unmarshal(raw).value.createdAt == at
  {
    hide Stream, Tar, TarAll;
    forall i | 0 <= i < |es| ensures Short(es[i]) { InOrderIsShort(es, i); }
    forall i | 0 <= i < |written| ensures Short(written[i]) { InOrderIsShort(written, i); }
    hide InOrder, Short;
    StreamInjective(es, written, c.unmarshal(raw).value.createdAt, at);
  }

  // ---- writing ----

  lemma {:induction false} FedAppend(es: seq<Item>, e: Item)
    ensures FedAll(es + [e]) == FedAll(es) + Fed(e)
  {
    hide Fed;
    if es == [] {
      assert [e][1..] == [];
      assert es + [e] == [e];
    } else {
      FedAppend(es[1..], e);
      assert (es + [e])[1..] == es[1..] + [e];
    }
  }

  /** The archive being written: the entries, what the MAC was fed, what the manifest will name. */
  class Writer {
    var tar: seq<TarEntry>
    var fed: Bytes
    var listed: seq<Listed>
    ghost var items: seq<Item>

    constructor ()
      ensures Valid() && items == []
    {
      tar, fed, listed, items := [], MAC_INFO, [], [];
    }

    ghost predicate Valid()
      reads this
    {
      tar == TarAll(items) && listed == ListOf(items) && fed == MAC_INFO + FedAll(items)
    }

    method Begin(name: Bytes, size: nat)
      modifies this`fed
      ensures fed == old(fed) + (Fixed16(|name|) + name + Fixed64(size))
    {
      fed := fed + (Fixed16(|name|) + name + Fixed64(size));
    }

    /** Adds one entry to the archive, the MAC and the list. */
    method Add(name: Bytes, content: Bytes)
      requires Valid()
      modifies this
      ensures Valid() && items == old(items) + [Item(name, content)]
    {
      FedAppend(items, Item(name, content));
      hide FedAll, Fixed16, Fixed64;
      Begin(name, |content|);
      tar := tar + [TarEntry(name, true, content)];
      fed := fed + content;
      listed := listed + [Listed(name, |content|)];
      items := items + [Item(name, content)];
    }

    /** Adds the attachments whose bytes are there and counts the rows that have none. */
    method AddFiles(ids: seq<Bytes>, files: map<Bytes, Bytes>) returns (missing: nat)
      requires Valid()
      modifies this
      ensures Valid() && items == old(items) + Carried(ids, files)
      ensures missing + |Carried(ids, files)| == |ids|
    {
      hide Valid;
      missing := 0;
      for i := 0 to |ids|
        invariant Valid() && items == old(items) + Carried(ids[..i], files)
        invariant missing + |Carried(ids[..i], files)| == i
      {
        assert ids[..i + 1][..i] == ids[..i];
        if ids[i] in files {
          Add(FILES_PREFIX + ids[i], files[ids[i]]);
        } else {
          missing := missing + 1;
        }
      }
      assert ids[..|ids|] == ids;
    }
  }

  /** The attachments a backup carries: of the rows' files, those whose bytes are finished, in order. */
  function Carried(ids: seq<Bytes>, files: map<Bytes, Bytes>): seq<Item> {
    if ids == [] then []
    else
      var rest, id := Carried(ids[..|ids| - 1], files), ids[|ids| - 1];
      if id in files then rest + [Item(FILES_PREFIX + id, files[id])] else rest
  }

  function Contents(key: Bytes, db: Bytes, ids: seq<Bytes>, files: map<Bytes, Bytes>): seq<Item> {
    [Item(KEY_NAME, key), Item(DB_NAME, db)] + Carried(ids, files)
  }

  predicate Distinct(ids: seq<Bytes>) {
    (forall i :: 0 <= i < |ids| ==> FileId(ids[i])) && forall i, j :: 0 <= i < j < |ids| ==> ids[i] != ids[j]
  }

  /** Entries named after ids of a list, no two alike. */
  predicate NamedAfter(es: seq<Item>, ids: seq<Bytes>) {
    && (forall i :: 0 <= i < |es| ==> FileIdOf(es[i].name).Some? && FileIdOf(es[i].name).value in ids)
    && (forall i, j :: 0 <= i < j < |es| ==> es[i].name != es[j].name)
  }

  lemma OneMoreNamed(es: seq<Item>, ids: seq<Bytes>, id: Bytes, content: Bytes)
    requires NamedAfter(es, ids) && FileId(id) && id !in ids
    ensures NamedAfter(es, ids + [id]) && NamedAfter(es + [Item(FILES_PREFIX + id, content)], ids + [id])
  {
    FileIdFoundAgain(id);
    var more := es + [Item(FILES_PREFIX + id, content)];
    forall i | 0 <= i < |more|
      ensures FileIdOf(more[i].name).Some? && FileIdOf(more[i].name).value in ids + [id]
      ensures i < |es| ==> more[i].name != FILES_PREFIX + id
    {
      if i < |es| {
        assert more[i] == es[i];
      }
    }
  }

  lemma {:induction false} CarriedInOrder(ids: seq<Bytes>, files: map<Bytes, Bytes>)
    requires Distinct(ids)
    ensures NamedAfter(Carried(ids, files), ids)
  {
    if ids != [] {
      var rest, id := ids[..|ids| - 1], ids[|ids| - 1];
      hide NamedAfter, FileId;
      CarriedInOrder(rest, files);
      assert rest + [id] == ids;
      OneMoreNamed(Carried(rest, files), rest, id, if id in files then files[id] else []);
    } else {
      assert Carried(ids, files) == [];
    }
  }

  lemma ContentsInOrder(key: Bytes, db: Bytes, ids: seq<Bytes>, files: map<Bytes, Bytes>)
    requires Distinct(ids) && |key| <= MAX_KEY
    ensures InOrder(Contents(key, db, ids, files))
  {
    CarriedInOrder(ids, files);
    hide FileIdOf, Carried, Distinct;
    var es, carried := Contents(key, db, ids, files), Carried(ids, files);
    forall i | 2 <= i < |es|
      ensures es[i] == carried[i - 2] && FileIdOf(es[i].name).Some?
    {
    }
    forall i, j | 2 <= i < j < |es|
      ensures es[i].name != es[j].name
    {
      assert es[i] == carried[i - 2] && es[j] == carried[j - 2];
    }
  }

  /** Makes a backup of the key file, the database snapshot and the finished files of its rows. */
  method Write(c: Codec, key: Bytes, db: Bytes, ids: seq<Bytes>, files: map<Bytes, Bytes>, at: int)
    returns (archive: Option<seq<TarEntry>>, missing: nat)
    requires Distinct(ids)
    ensures archive.Some? <==> |key| <= MAX_KEY
    ensures archive.Some? ==> archive.value == ArchiveOf(c, Contents(key, db, ids, files), at)
    ensures archive.Some? ==> InOrder(Contents(key, db, ids, files))
    ensures archive.Some? ==> missing + |Carried(ids, files)| == |ids|
  {
    missing := 0;
    if |key| > MAX_KEY {
      return None, 0;
    }
    ContentsInOrder(key, db, ids, files);
    hide InOrder, FedAll, Carried;
    var w := new Writer();
    w.Add(KEY_NAME, key);
    w.Add(DB_NAME, db);
    missing := w.AddFiles(ids, files);
    assert w.items == Contents(key, db, ids, files);
    var sum := c.mac(w.fed + ([0xff] + Fixed64(at) + Fixed64(|w.listed|)));
    var raw := c.marshal(Manifest(FORMAT, at, w.listed, sum));
    archive := Some(w.tar + [TarEntry(MANIFEST_NAME, true, raw)]);
  }

  // ---- restoring ----

  function ItemsOf(ts: seq<TarEntry>): (es: seq<Item>)
    ensures |es| == |ts|
  {
    seq(|ts|, i requires 0 <= i < |ts| => Item(ts[i].name, ts[i].content))
  }

  /** Whether a restore accepts an archive. */
  ghost predicate Restorable(c: Codec, archive: seq<TarEntry>) {
    exists es, raw :: Accepted(c, archive, es, raw)
  }

  /**
   A backup that was written is accepted, with the very entries it was made of in
   the same order, exactly when its manifest is within the restore's bound, which
   writing does not check.
   */
  lemma WrittenIsRestorable(c: Codec, es: seq<Item>, at: int)
    requires Lawful(c) && InOrder(es)
    ensures Restorable(c, ArchiveOf(c, es, at)) <==> |c.marshal(ManifestOf(c, es, at))| <= MAX_MANIFEST
    ensures forall x, raw :: Accepted(c, ArchiveOf(c, es, at), x, raw) ==> x == es
  {
    hide InOrder, Stream;
    var archive, own := ArchiveOf(c, es, at), c.marshal(ManifestOf(c, es, at));
    assert c.unmarshal(own) == Some(ManifestOf(c, es, at));
    if |own| <= MAX_MANIFEST {
      assert Accepted(c, archive, es, own);
    }
    forall x, raw | Accepted(c, archive, x, raw)
      ensures x == es && raw == own
    {
      SameArchive(x, es, raw, own);
    }
  }

  /** Two lists of entries and manifests that make the same archive are the same. */
  lemma SameArchive(a: seq<Item>, b: seq<Item>, x: Bytes, y: Bytes)
    requires TarAll(a) + [TarEntry(MANIFEST_NAME, true, x)] == TarAll(b) + [TarEntry(MANIFEST_NAME, true, y)]
    ensures a == b && x == y
  {
    var s, t := TarAll(a), TarAll(b);
    assert |s + [TarEntry(MANIFEST_NAME, true, x)]| == |t + [TarEntry(MANIFEST_NAME, true, y)]|;
    SplitEqual(s, [TarEntry(MANIFEST_NAME, true, x)], t, [TarEntry(MANIFEST_NAME, true, y)]);
    assert [TarEntry(MANIFEST_NAME, true, x)][0] == [TarEntry(MANIFEST_NAME, true, y)][0];
    forall i | 0 <= i < |a|
      ensures a[i] == b[i]
    {
      assert s[i] == t[i];
    }
  }

  /** The only entries and manifest an archive can be accepted as. */
  lemma AcceptedAs(c: Codec, archive: seq<TarEntry>)
    requires Restorable(c, archive)
    ensures var n := |archive| - 1;
            && n >= 2 && Accepted(c, archive, ItemsOf(archive[..n]), archive[n].content)
            && archive[n].name == MANIFEST_NAME
            && forall i :: 0 <= i <= n ==> archive[i].regular
  {
    var es, raw :| Accepted(c, archive, es, raw);
    var n := |archive| - 1;
    assert archive[n] == TarEntry(MANIFEST_NAME, true, raw);
    forall i | 0 <= i < n
      ensures archive[i].regular && ItemsOf(archive[..n])[i] == es[i]
    {
      assert archive[i] == Tar(es[i]);
    }
    assert ItemsOf(archive[..n]) == es;
  }

  /** A manifest of the one format there is that names the entries, each with its size, and no others. */
  predicate Names(m: Manifest, es: seq<Item>) {
    && m.version == 1 && |m.entries| == |es|
    && forall i :: 0 <= i < |es| ==> m.entries[i].name == es[i].name && m.entries[i].size == |es[i].content|
  }

  /** What was unpacked: the entries, the attachments' ids in order, the moment. */
  datatype Unpacked = Unpacked(entries: seq<Item>, ids: seq<Bytes>, madeAt: int)

  /** The entries read so far stand where a backup has them. */
  predicate SoFar(es: seq<Item>, ids: seq<Bytes>) {
    && |es| >= 1
    && es[0].name == KEY_NAME && |es[0].content| <= MAX_KEY
    && (|es| > 1 ==> es[1].name == DB_NAME)
    && |ids| == Max(0, |es| - 2)
    && (forall i :: 2 <= i < |es| ==> FileIdOf(es[i].name) == Some(ids[i - 2]))
    && (forall i, j :: 0 <= i < j < |ids| ==> ids[i] != ids[j])
  }

  /** Where the next entry of a name belongs, given how many came before: nowhere, or as a file of an id. */
  function Place(seen: nat, ids: seq<Bytes>, name: Bytes): Option<seq<Bytes>> {
    if seen == 1 && name == DB_NAME then Some(ids)
    else if seen > 1 && FileIdOf(name).Some? && FileIdOf(name).value !in ids then Some(ids + [FileIdOf(name).value])
    else None
  }

  lemma PlaceKeeps(es: seq<Item>, ids: seq<Bytes>, e: Item)
    requires SoFar(es, ids) && Place(|es|, ids, e.name).Some?
    ensures SoFar(es + [e], Place(|es|, ids, e.name).value)
  {
    hide FileIdOf;
  }

  /** In an archive a restore accepts, every entry but the last has its place, and none but the last is a manifest. */
  lemma HasItsPlace(c: Codec, archive: seq<TarEntry>, i: nat, ids: seq<Bytes>)
    requires Restorable(c, archive)
    requires 1 <= i < |archive| - 1 && SoFar(ItemsOf(archive[..i]), ids)
    ensures archive[i].name != MANIFEST_NAME && Place(i, ids, archive[i].name).Some?
  {
    AcceptedAs(c, archive);
    var es, before := ItemsOf(archive[..|archive| - 1]), ItemsOf(archive[..i]);
    assert es[i].name == archive[i].name;
    if i > 1 {
      forall k | 0 <= k < |ids|
        ensures ids[k] != FileIdOf(es[i].name).value
      {
        assert before[k + 2].name == es[k + 2].name && es[k + 2].name != es[i].name;
        assert FileIdOf(before[k + 2].name) == Some(ids[k]);
      }
    }
  }

  /** Entries that stand in place from the first to the last, the database among them, are in a backup's order. */
  lemma AllInPlace(es: seq<Item>, ids: seq<Bytes>)
    requires SoFar(es, ids) && |es| >= 2
    ensures InOrder(es)
  {
    forall i, j | 2 <= i < j < |es|
      ensures es[i].name != es[j].name
    {
      assert ids[i - 2] != ids[j - 2];
      assert FileIdOf(es[i].name) == Some(ids[i - 2]) && FileIdOf(es[j].name) == Some(ids[j - 2]);
    }
  }

  /** The first entries of an archive, read and found in place. */
  predicate ReadTo(archive: seq<TarEntry>, entries: seq<Item>, ids: seq<Bytes>) {
    && 1 <= |entries| <= |archive|
    && entries == ItemsOf(archive[..|entries|]) && SoFar(entries, ids)
    && forall j :: 0 <= j < |entries| ==> archive[j].regular
  }

  lemma ReadOneMore(archive: seq<TarEntry>, entries: seq<Item>, ids: seq<Bytes>)
    requires ReadTo(archive, entries, ids) && |entries| < |archive| && archive[|entries|].regular
    requires Place(|entries|, ids, archive[|entries|].name).Some?
    ensures var t := archive[|entries|];
            ReadTo(archive, entries + [Item(t.name, t.content)], Place(|entries|, ids, t.name).value)
  {
    var t := archive[|entries|];
    PlaceKeeps(entries, ids, Item(t.name, t.content));
    hide SoFar, Place;
    assert ItemsOf(archive[..|entries| + 1]) == entries + [Item(t.name, t.content)];
  }

  lemma FirstRead(archive: seq<TarEntry>)
    requires archive != [] && archive[0].name == KEY_NAME && archive[0].regular && |archive[0].content| <= MAX_KEY
    ensures ReadTo(archive, [Item(archive[0].name, archive[0].content)], [])
    ensures FedAll([Item(archive[0].name, archive[0].content)]) == Fed(Item(archive[0].name, archive[0].content))
  {
    var e := Item(archive[0].name, archive[0].content);
    assert [e][1..] == [];
  }

  /** What stops the walk before its end is in no archive a restore accepts. */
  lemma StopsOnlyTheBad(c: Codec, archive: seq<TarEntry>, entries: seq<Item>, ids: seq<Bytes>)
    requires Restorable(c, archive) && ReadTo(archive, entries, ids)
    ensures |entries| < |archive| && archive[|entries|].regular
    ensures archive[|entries|].name == MANIFEST_NAME <==> |entries| == |archive| - 1
    ensures |entries| < |archive| - 1 ==> Place(|entries|, ids, archive[|entries|].name).Some?
  {
    AcceptedAs(c, archive);
    NoManifestAmong(entries, ids);
    assert forall i :: 0 <= i < |entries| ==> entries[i].name == archive[i].name;
    hide SoFar, Accepted, Place;
    if |entries| < |archive| - 1 {
      HasItsPlace(c, archive, |entries|, ids);
    }
  }

  lemma NoManifestAmong(es: seq<Item>, ids: seq<Bytes>)
    requires SoFar(es, ids)
    ensures forall i :: 0 <= i < |es| ==> es[i].name != MANIFEST_NAME
  {
    assert FileIdOf(MANIFEST_NAME).None?;
    assert KEY_NAME[0] != MANIFEST_NAME[0] && DB_NAME[0] != MANIFEST_NAME[0];
    hide FileIdOf;
    forall i | 0 <= i < |es|
      ensures es[i].name != MANIFEST_NAME
    {
      if i >= 2 {
        assert FileIdOf(es[i].name).Some?;
      }
    }
  }

  /** With everything but the manifest in place, the manifest decides. */
  lemma TheManifestDecides(c: Codec, archive: seq<TarEntry>, entries: seq<Item>, ids: seq<Bytes>)
    requires ReadTo(archive, entries, ids) && 2 <= |entries| == |archive| - 1
    requires archive[|entries|].name == MANIFEST_NAME && archive[|entries|].regular
    ensures Restorable(c, archive) <==> Vouches(c, entries, archive[|entries|].content)
    ensures Restorable(c, archive) ==> Accepted(c, archive, entries, archive[|entries|].content)
  {
    var n := |entries|;
    AllInPlace(entries, ids);
    hide Vouches, InOrder, SoFar;
    assert archive == TarAll(entries) + [TarEntry(MANIFEST_NAME, true, archive[n].content)];
    if Vouches(c, entries, archive[n].content) {
      assert Accepted(c, archive, entries, archive[n].content);
    }
    if Restorable(c, archive) {
      AcceptedAs(c, archive);
    }
  }

  /** The key entry, and the entries up to the manifest, each checked for its place and fed to the MAC. */
  method ReadEntries(ghost c: Codec, archive: seq<TarEntry>)
    returns (ok: bool, entries: seq<Item>, ids: seq<Bytes>, fed: Bytes)
    ensures !ok ==> !Restorable(c, archive)
    ensures ok ==> ReadTo(archive, entries, ids) && fed == MAC_INFO + FedAll(entries)
    ensures ok && |entries| < |archive| ==> archive[|entries|].name == MANIFEST_NAME
  {
    if archive == [] || archive[0].name != KEY_NAME || !archive[0].regular || |archive[0].content| > MAX_KEY {
      StartsWithTheKey(c, archive);
      hide Restorable;
      return false, [], [], [];
    }
    FirstRead(archive);
    hide ReadTo, Restorable, FedAll, Fed;
    var first := Item(archive[0].name, archive[0].content);
    ok, entries, ids, fed := ReadRest(c, archive, first, MAC_INFO + Fed(first));
  }

  method ReadRest(ghost c: Codec, archive: seq<TarEntry>, first: Item, start: Bytes)
    returns (ok: bool, entries: seq<Item>, ids: seq<Bytes>, fed: Bytes)
    requires ReadTo(archive, [first], []) && start == MAC_INFO + FedAll([first])
    ensures !ok ==> !Restorable(c, archive)
    ensures ok ==> ReadTo(archive, entries, ids) && fed == MAC_INFO + FedAll(entries)
    ensures ok && |entries| < |archive| ==> archive[|entries|].name == MANIFEST_NAME
  {
    entries, ids, fed := [first], [], start;
    hide ReadTo, Place, FedAll, Fed, Restorable, FileIdOf, SoFar, ItemsOf;
    ReadToBound(archive, entries, ids);
    while |entries| < |archive| && archive[|entries|].name != MANIFEST_NAME
      invariant |entries| <= |archive| && ReadTo(archive, entries, ids)
      invariant fed == MAC_INFO + FedAll(entries)
      decreases |archive| - |entries|
    {
      var t := archive[|entries|];
      var placed := Place(|entries|, ids, t.name);
      if !t.regular || placed.None? {
        ghost var good := Restorable(c, archive);
        if good {
          StopsOnlyTheBad(c, archive, entries, ids);
        }
        return false, [], [], [];
      }
      ReadOneMore(archive, entries, ids);
      var e := Item(t.name, t.content);
      FedAppend(entries, e);
      fed := fed + Fed(e);
      entries, ids := entries + [e], placed.value;
    }
    ok := true;
  }

  lemma ReadToBound(archive: seq<TarEntry>, entries: seq<Item>, ids: seq<Bytes>)
    requires ReadTo(archive, entries, ids)
    ensures |entries| <= |archive|
  {
  }

  lemma StartsWithTheKey(c: Codec, archive: seq<TarEntry>)
    ensures Restorable(c, archive) ==>
      archive != [] && archive[0].name == KEY_NAME && archive[0].regular && |archive[0].content| <= MAX_KEY
  {
    if Restorable(c, archive) {
      AcceptedAs(c, archive);
      assert ItemsOf(archive[..|archive| - 1])[0] == Item(archive[0].name, archive[0].content);
    }
  }

  /**
   Reads an archive entry by entry and checks it against the manifest at its end.
   It succeeds exactly on the archives a restore accepts, with their entries.
   */
  method Unpack(c: Codec, archive: seq<TarEntry>) returns (r: Option<Unpacked>)
    ensures r.Some? <==> Restorable(c, archive)
    ensures r.Some? ==>
      && archive != []
      && Accepted(c, archive, r.value.entries, archive[|archive| - 1].content)
      && c.unmarshal(archive[|archive| - 1].content).Some?
      && r.value.madeAt == c.unmarshal(archive[|archive| - 1].content).value.createdAt
      && ReadTo(archive, r.value.entries, r.value.ids)
      && Names(c.unmarshal(archive[|archive| - 1].content).value, r.value.entries)
  {
    var ok, entries, ids, fed := ReadEntries(c, archive);
    if !ok {
      return None;
    }
    var n := |entries|;
    ghost var good := Restorable(c, archive);
    if good {
      StopsOnlyTheBad(c, archive, entries, ids);
      LongEnough(c, archive);
    }
    hide Restorable, FedAll, SoFar, InOrder;
    if n != |archive| - 1 || !archive[n].regular || n < 2 {
      return None;
    }
    TheManifestDecides(c, archive, entries, ids);
    var raw := archive[n].content;
    if |raw| > MAX_MANIFEST || c.unmarshal(raw).None? {
      return None;
    }
    var man := c.unmarshal(raw).value;
    if man.version != FORMAT || man.entries != ListOf(entries)
       || c.mac(fed + ([0xff] + Fixed64(man.createdAt) + Fixed64(n))) != man.mac {
      return None;
    }
    r := Some(Unpacked(entries, ids, man.createdAt));
  }

  lemma LongEnough(c: Codec, archive: seq<TarEntry>)
    requires Restorable(c, archive)
    ensures |archive| >= 3
  {
    AcceptedAs(c, archive);
  }

  // ---- writing, then restoring ----

  /** Two ids stand in a list one before the other. */
  predicate StandsBefore(ids: seq<Bytes>, x: Bytes, y: Bytes) {
    exists a, b :: 0 <= a < b < |ids| && ids[a] == x && ids[b] == y
  }

  /** Entry by entry the files of `kept`, the ids of the rows whose bytes are there, in the rows' order. */
  ghost predicate TheFiles(es: seq<Item>, kept: seq<Bytes>, ids: seq<Bytes>, files: map<Bytes, Bytes>) {
    && |es| == |kept|
    && (forall id :: id in kept <==> id in ids && id in files)
    && (forall i, j :: 0 <= i < j < |kept| ==> StandsBefore(ids, kept[i], kept[j]))
    && (forall i :: 0 <= i < |kept| ==> es[i].name == FILES_PREFIX + kept[i] && kept[i] in files && es[i].content == files[kept[i]])
  }

  lemma {:induction false} CarriedAreTheFiles(ids: seq<Bytes>, files: map<Bytes, Bytes>) returns (kept: seq<Bytes>)
    ensures TheFiles(Carried(ids, files), kept, ids, files)
  {
    kept := [];
    if ids == [] {
      NoFiles(files);
    } else {
      hide TheFiles;
      var rest, id := ids[..|ids| - 1], ids[|ids| - 1];
      var before := CarriedAreTheFiles(rest, files);
      kept := if id in files then before + [id] else before;
      OneMoreFile(Carried(rest, files), before, rest, files, id);
      assert rest + [id] == ids;
    }
  }

  lemma NoFiles(files: map<Bytes, Bytes>)
    ensures TheFiles([], [], [], files)
  {
  }

  lemma OneMoreFile(es: seq<Item>, kept: seq<Bytes>, ids: seq<Bytes>, files: map<Bytes, Bytes>, id: Bytes)
    requires TheFiles(es, kept, ids, files)
    ensures id in files ==> TheFiles(es + [Item(FILES_PREFIX + id, files[id])], kept + [id], ids + [id], files)
    ensures id !in files ==> TheFiles(es, kept, ids + [id], files)
  {
    var more := ids + [id];
    forall x, y | StandsBefore(ids, x, y)
      ensures StandsBefore(more, x, y)
    {
      var a, b :| 0 <= a < b < |ids| && ids[a] == x && ids[b] == y;
      assert more[a] == x && more[b] == y;
    }
    forall x | x in ids
      ensures StandsBefore(more, x, id)
    {
      var a :| 0 <= a < |ids| && ids[a] == x;
      assert more[a] == x && more[|ids|] == id;
    }
    hide StandsBefore;
  }

  /**
   What is written is restored: the key, the database and every attachment whose
   bytes were there, each with its own bytes, in the rows' order, and the moment;
   and nothing is, exactly when the manifest is past the restore's bound.
   */
  method WriteThenUnpack(c: Codec, key: Bytes, db: Bytes, ids: seq<Bytes>, files: map<Bytes, Bytes>, at: int)
    returns (archive: seq<TarEntry>, r: Option<Unpacked>, missing: nat)
    requires Lawful(c) && Distinct(ids) && |key| <= MAX_KEY
    ensures archive != [] && (r.Some? <==> |archive[|archive| - 1].content| <= MAX_MANIFEST)
    ensures r.Some? ==>
      && |r.value.entries| >= 2
      && r.value.entries[0] == Item(KEY_NAME, key) && r.value.entries[1] == Item(DB_NAME, db)
      && TheFiles(r.value.entries[2..], r.value.ids, ids, files)
      && r.value.madeAt == at
      && missing + |r.value.ids| == |ids|
  {
    var written;
    written, missing := Write(c, key, db, ids, files, at);
    archive := written.value;
    ghost var es := Contents(key, db, ids, files);
    WrittenIsRestorable(c, es, at);
    assert archive[|archive| - 1].content == c.marshal(ManifestOf(c, es, at));
    hide Restorable, InOrder, Distinct, ManifestOf, Carried;
    r := Unpack(c, archive);
    if r.Some? {
      RestoredIsWritten(c, key, db, ids, files, at, r.value);
    }
  }

  lemma RestoredIsWritten(c: Codec, key: Bytes, db: Bytes, ids: seq<Bytes>, files: map<Bytes, Bytes>, at: int, r: Unpacked)
    requires Lawful(c) && Distinct(ids) && |key| <= MAX_KEY
    requires r.entries == Contents(key, db, ids, files)
    requires SoFar(r.entries, r.ids)
    ensures TheFiles(r.entries[2..], r.ids, ids, files)
  {
    var kept := CarriedAreTheFiles(ids, files);
    var es := Carried(ids, files);
    assert r.entries[2..] == es;
    forall i | 0 <= i < |kept|
      ensures r.ids[i] == kept[i]
    {
      assert kept[i] in kept;
      FileIdFoundAgain(kept[i]);
      assert r.entries[i + 2] == es[i];
    }
    hide TheFiles;
    assert r.ids == kept;
  }
}
