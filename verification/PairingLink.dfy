/**
 The pairing link's payload (client_backend/internal/server/pairing_link.go):
 version, server key, token, then addresses, each a type, a one-byte length and a
 value. Base64 and the printing of hosts are the library's; an address here is
 what the link spells.
 */
module PairingLink {
  import opened Common

  const VERSION: byte := 3
  const IPV4: byte := 1
  const IPV6: byte := 2
  const NAME: byte := 3
  const ONION: byte := 4
  const KEY: nat := 32
  const TOKEN: nat := 16
  const HEADER: nat := 1 + KEY + TOKEN
  const MAX_NAME: nat := 253
  const COLON: byte := 58

  type Bytes = seq<byte>

  datatype Host = V4(ip: Bytes) | V6(ip: Bytes) | Name(name: Bytes)

  datatype Address = Address(host: Host, port: nat)

  datatype Parsed =
    | Link(key: Bytes, token: Bytes, direct: seq<Address>, onion: Option<Bytes>)
    | Malformed
    | NewerVersion

  datatype Built = Payload(bytes: Bytes) | Refused

  /** An address as net.ParseIP gives it: four bytes or sixteen, or a name. */
  predicate Shaped(a: Address) {
    match a.host
    case V4(ip) => |ip| == 4
    case V6(ip) => |ip| == 16
    case Name(_) => true
  }

  /** The sixteen-byte spelling of an IPv4 address. */
  predicate Mapped(ip: Bytes)
    requires |ip| == 16
  {
    ip[..10] == [0, 0, 0, 0, 0, 0, 0, 0, 0, 0] && ip[10] == 255 && ip[11] == 255
  }

  /** The one spelling of an address: an IPv4 address in sixteen bytes is that IPv4 address. */
  function Canon(a: Address): (c: Address)
    requires Shaped(a)
    ensures Shaped(c)
  {
    if a.host.V6? && Mapped(a.host.ip) then Address(V4(a.host.ip[12..]), a.port) else a
  }

  /** What a link can carry: a usable port, and a name that fits and reads back as a name. */
  predicate Usable(a: Address, utf8: Bytes -> bool) {
    && 0 < a.port < 0x1_0000
    && (a.host.Name? ==> 0 < |a.host.name| <= MAX_NAME && utf8(a.host.name) && COLON !in a.host.name)
  }

  // ---- the entries behind the header ----

  datatype Entry = Entry(kind: byte, value: Bytes)

  /** Every value's length fits the one byte it is written in. */
  predicate Fitting(es: seq<Entry>) {
    forall i :: 0 <= i < |es| ==> |es[i].value| < 256
  }

  /** The bytes of a list of entries. */
  function Join(es: seq<Entry>): (bs: Bytes)
    requires Fitting(es)
  {
    if es == [] then [] else [es[0].kind, |es[0].value|] + es[0].value + Join(es[1..])
  }

  /** The entries some bytes are, or None when they are not a list of entries. */
  function Split(bs: Bytes): (es: Option<seq<Entry>>)
    ensures es.Some? ==> Fitting(es.value)
    decreases |bs|
  {
    if bs == [] then Some([])
    else if |bs| < 2 || |bs| - 2 < bs[1] then None
    else
      var rest := Split(bs[2 + bs[1]..]);
      if rest.None? then None else Some([Entry(bs[0], bs[2..2 + bs[1]])] + rest.value)
  }

  /** Entries come apart as they were put together. */
  lemma {:induction false} SplitOfJoin(es: seq<Entry>)
    requires Fitting(es)
    ensures Split(Join(es)) == Some(es)
  {
    if es != [] {
      SplitOfJoin(es[1..]);
      var head, bs := es[0], Join(es);
      assert bs[2..2 + |head.value|] == head.value;
      assert bs[2 + |head.value|..] == Join(es[1..]);
      assert [head] + es[1..] == es;
    }
  }

  lemma SplitHead(bs: Bytes)
    requires Split(bs).Some? && bs != []
    ensures 2 <= |bs| && 2 + bs[1] <= |bs| && Split(bs[2 + bs[1]..]).Some?
    ensures Split(bs).value == [Entry(bs[0], bs[2..2 + bs[1]])] + Split(bs[2 + bs[1]..]).value
  {
  }

  lemma HeadAndRest(bs: Bytes, n: nat)
    requires 2 <= n <= |bs|
    ensures bs == [bs[0], bs[1]] + bs[2..n] + bs[n..]
  {
  }

  lemma JoinHead(e: Entry, es: seq<Entry>)
    requires Fitting([e] + es) && Fitting(es) && |e.value| < 256
    ensures Join([e] + es) == [e.kind, |e.value|] + e.value + Join(es)
  {
    assert ([e] + es)[1..] == es;
  }

  /** Bytes that are entries are those entries' bytes and no others. */
  lemma {:induction false} JoinOfSplit(bs: Bytes)
    requires Split(bs).Some?
    ensures Join(Split(bs).value) == bs
    decreases |bs|
  {
    if bs != [] {
      hide Split, Join;
      SplitHead(bs);
      var rest := bs[2 + bs[1]..];
      JoinOfSplit(rest);
      JoinHead(Entry(bs[0], bs[2..2 + bs[1]]), Split(rest).value);
      HeadAndRest(bs, |bs| - |rest|);
    }
  }

  lemma {:induction false} JoinConcat(a: seq<Entry>, b: seq<Entry>)
    requires Fitting(a)
    requires Fitting(b)
    ensures Join(a + b) == Join(a) + Join(b)
  {
    if a == [] {
      assert a + b == b;
    } else {
      JoinConcat(a[1..], b);
      assert (a + b)[1..] == a[1..] + b;
    }
  }

  // ---- what an entry says ----

  datatype Says = Unknown | Direct(address: Address) | Onion(key: Bytes) | Bad

  function ReadHost(e: Entry, utf8: Bytes -> bool): Option<Host> {
    var n := |e.value| - 2;
    if e.kind == IPV4 then (if n == 4 then Some(V4(e.value[..4])) else None)
    else if e.kind == IPV6 then
      (if n == 16 then Some(if Mapped(e.value[..16]) then V4(e.value[12..16]) else V6(e.value[..16])) else None)
    else if n >= 1 && utf8(e.value[..n]) then Some(Name(e.value[..n])) else None
  }

  function ReadEntry(e: Entry, utf8: Bytes -> bool): Says {
    if e.kind == IPV4 || e.kind == IPV6 || e.kind == NAME then
      var host := ReadHost(e, utf8);
      if host.None? then Bad
      else
        var port := FromBigEndian(e.value[|e.value| - 2..]);
        if port == 0 then Bad else Direct(Address(host.value, port))
    else if e.kind == ONION then (if |e.value| == KEY then Onion(e.value) else Bad)
    else Unknown
  }

  /** What a list of entries says: the direct addresses in order, the first onion key, how many were known. */
  datatype Said = Said(direct: seq<Address>, onion: Option<Bytes>, known: nat)

  function Heard(s: Said, w: Says): Option<Said> {
    match w
    case Unknown => Some(s)
    case Bad => None
    case Direct(a) => Some(s.(direct := s.direct + [a], known := s.known + 1))
    case Onion(k) => Some(s.(onion := if s.onion.None? then Some(k) else s.onion, known := s.known + 1))
  }

  function Gather(es: seq<Entry>, utf8: Bytes -> bool): Option<Said> {
    if es == [] then Some(Said([], None, 0))
    else
      var s := Gather(es[..|es| - 1], utf8);
      if s.None? then None else Heard(s.value, ReadEntry(es[|es| - 1], utf8))
  }

  /** A header of this version and what the entries behind it say, put together. */
  function Told(header: Bytes, said: Option<Said>): Parsed
    requires |header| == HEADER
  {
    if said.None? || said.value.known == 0 then Malformed
    else Link(header[1..1 + KEY], header[1 + KEY..], said.value.direct, said.value.onion)
  }

  /** What a payload is, by the parse rules. */
  function Meaning(p: Bytes, utf8: Bytes -> bool): Parsed {
    if |p| < HEADER then Malformed
    else if p[0] > VERSION then NewerVersion
    else if p[0] != VERSION then Malformed
    else
      var es := Split(p[HEADER..]);
      Told(p[..HEADER], SaidBy(es, utf8))
  }

  function SaidBy(es: Option<seq<Entry>>, utf8: Bytes -> bool): Option<Said> {
    if es.None? then None else Gather(es.value, utf8)
  }

  lemma MeaningOfEntries(header: Bytes, es: seq<Entry>, utf8: Bytes -> bool)
    requires |header| == HEADER && header[0] == VERSION
    requires Fitting(es)
    ensures Meaning(header + Join(es), utf8) == Told(header, Gather(es, utf8))
  {
    hide Told, Gather, Join, Split;
    var p := header + Join(es);
    assert p[HEADER..] == Join(es) && p[..HEADER] == header;
    SplitOfJoin(es);
  }

  lemma GatherOneMore(es: seq<Entry>, e: Entry, utf8: Bytes -> bool)
    ensures Gather(es + [e], utf8) ==
            if Gather(es, utf8).None? then None else Heard(Gather(es, utf8).value, ReadEntry(e, utf8))
  {
    assert (es + [e])[..|es + [e]| - 1] == es;
  }

  lemma {:induction false} GatherFails(a: seq<Entry>, b: seq<Entry>, utf8: Bytes -> bool)
    requires Gather(a, utf8).None?
    ensures Gather(a + b, utf8).None?
  {
    if b == [] {
      assert a + b == a;
    } else {
      GatherFails(a, b[..|b| - 1], utf8);
      assert a + b == (a + b[..|b| - 1]) + [b[|b| - 1]];
      GatherOneMore(a + b[..|b| - 1], b[|b| - 1], utf8);
    }
  }

  /** What was said stands: later entries add addresses behind, and a second onion key changes nothing. */
  lemma {:induction false} SaidStands(a: seq<Entry>, b: seq<Entry>, utf8: Bytes -> bool)
    requires Gather(a + b, utf8).Some?
    ensures Gather(a, utf8).Some?
    ensures var early, late := Gather(a, utf8).value, Gather(a + b, utf8).value;
            && early.direct <= late.direct && early.known <= late.known
            && (early.onion.Some? ==> late.onion == early.onion)
  {
    hide ReadEntry;
    if b == [] {
      assert a + b == a;
    } else {
      var rest, e := b[..|b| - 1], b[|b| - 1];
      assert a + b == (a + rest) + [e];
      GatherOneMore(a + rest, e, utf8);
      SaidStands(a, rest, utf8);
    }
  }

  // ---- entries nobody knows ----

  predicate KnownKind(e: Entry) {
    e.kind == IPV4 || e.kind == IPV6 || e.kind == NAME || e.kind == ONION
  }

  function Known(es: seq<Entry>): seq<Entry> {
    if es == [] then []
    else
      var rest, e := Known(es[..|es| - 1]), es[|es| - 1];
      if KnownKind(e) then rest + [e] else rest
  }

  lemma {:induction false} GatherKnown(es: seq<Entry>, utf8: Bytes -> bool)
    ensures Gather(Known(es), utf8) == Gather(es, utf8)
  {
    if es != [] {
      var rest, e := es[..|es| - 1], es[|es| - 1];
      GatherKnown(rest, utf8);
      if KnownKind(e) {
        GatherOneMore(Known(rest), e, utf8);
      }
    }
  }

  /** Well-formed entries of unknown types, put in or left out anywhere, change nothing. */
  lemma UnknownEntriesChangeNothing(header: Bytes, a: seq<Entry>, b: seq<Entry>, utf8: Bytes -> bool)
    requires |header| == HEADER && Known(a) == Known(b)
    requires Fitting(a)
    requires Fitting(b)
    ensures Meaning(header + Join(a), utf8) == Meaning(header + Join(b), utf8)
  {
    hide Gather, Join, Split, Told;
    if header[0] == VERSION {
      MeaningOfEntries(header, a, utf8);
      MeaningOfEntries(header, b, utf8);
      GatherKnown(a, utf8);
      GatherKnown(b, utf8);
    }
  }

  // ---- building ----

  function HostEntry(h: Host, port: Bytes): Entry {
    match h
    case V4(ip) => Entry(IPV4, ip + port)
    case V6(ip) => Entry(IPV6, ip + port)
    case Name(n) => Entry(NAME, n + port)
  }

  function DirectEntry(a: Address): Entry
    requires Shaped(a)
  {
    HostEntry(Canon(a).host, BigEndian(a.port, 2))
  }

  /** The one-byte length holds every value: two bytes of port beside the longest name are 255. */
  lemma FitsItsLength(a: Address, utf8: Bytes -> bool)
    requires Shaped(a) && Usable(a, utf8)
    ensures 3 <= |DirectEntry(a).value| < 256
  {
  }

  /** An address a link can carry is read back as itself, in its one spelling. */
  lemma DirectReadsBack(a: Address, utf8: Bytes -> bool)
    requires Shaped(a) && Usable(a, utf8)
    ensures ReadEntry(DirectEntry(a), utf8) == Direct(Canon(a))
  {
    var e, h, port := DirectEntry(a), Canon(a).host, BigEndian(a.port, 2);
    Pow256Values();
    BigEndianRoundTrip(a.port, 2);
    hide BigEndian, FromBigEndian, Pow256;
    var spelled := match h case V4(ip) => ip case V6(ip) => ip case Name(n) => n;
    assert h.V6? ==> !Mapped(spelled);
    hide Mapped;
    assert e.value == spelled + port;
    Apart(spelled, port);
  }

  lemma Apart(spelled: Bytes, port: Bytes)
    requires |port| == 2
    ensures (spelled + port)[|spelled|..] == port && (spelled + port)[..|spelled|] == spelled
  {
  }

  function DirectEntries(addrs: seq<Address>): (es: seq<Entry>)
    requires forall i :: 0 <= i < |addrs| ==> Shaped(addrs[i])
    ensures |es| == |addrs|
  {
    if addrs == [] then [] else DirectEntries(addrs[..|addrs| - 1]) + [DirectEntry(addrs[|addrs| - 1])]
  }

  function Canons(addrs: seq<Address>): seq<Address>
    requires forall i :: 0 <= i < |addrs| ==> Shaped(addrs[i])
  {
    seq(|addrs|, i requires 0 <= i < |addrs| => Canon(addrs[i]))
  }

  lemma {:induction false} DirectsFit(addrs: seq<Address>, utf8: Bytes -> bool)
    requires forall i :: 0 <= i < |addrs| ==> Shaped(addrs[i]) && Usable(addrs[i], utf8)
    ensures Fitting(DirectEntries(addrs))
  {
    hide DirectEntry, Usable, Shaped;
    if addrs != [] {
      DirectsFit(addrs[..|addrs| - 1], utf8);
      FitsItsLength(addrs[|addrs| - 1], utf8);
    }
  }

  lemma {:induction false} DirectsReadBack(addrs: seq<Address>, utf8: Bytes -> bool)
    requires forall i :: 0 <= i < |addrs| ==> Shaped(addrs[i]) && Usable(addrs[i], utf8)
    ensures Gather(DirectEntries(addrs), utf8) == Some(Said(Canons(addrs), None, |addrs|))
  {
    hide ReadEntry, DirectEntry, Usable, Shaped, Canon;
    if addrs == [] {
      assert Canons(addrs) == [];
    } else {
      var rest, a := addrs[..|addrs| - 1], addrs[|addrs| - 1];
      DirectsReadBack(rest, utf8);
      DirectReadsBack(a, utf8);
      assert Canons(addrs) == Canons(rest) + [Canon(a)];
      hide Canons, Gather;
      GatherOneMore(DirectEntries(rest), DirectEntry(a), utf8);
    }
  }

  function Head(key: Bytes, token: Bytes): Bytes {
    [VERSION] + key + token
  }

  function OnionEntries(onion: Option<Bytes>): seq<Entry> {
    if onion.Some? then [Entry(ONION, onion.value)] else []
  }

  /** What the builder takes: sizes right, at least one address, every address usable. */
  predicate Buildable(key: Bytes, token: Bytes, direct: seq<Address>, onion: Option<Bytes>, utf8: Bytes -> bool) {
    && |key| == KEY && |token| == TOKEN
    && (direct != [] || onion.Some?)
    && (forall i :: 0 <= i < |direct| ==> Usable(direct[i], utf8))
    && (onion.Some? ==> |onion.value| == KEY)
  }

  /** What the builder makes means what it was given, the addresses in their one spelling. */
  lemma BuiltReadsBack(key: Bytes, token: Bytes, direct: seq<Address>, onion: Option<Bytes>, utf8: Bytes -> bool)
    requires forall i :: 0 <= i < |direct| ==> Shaped(direct[i])
    requires Buildable(key, token, direct, onion, utf8)
    ensures Fitting(DirectEntries(direct))
    ensures Meaning(Head(key, token) + Join(DirectEntries(direct)) + Join(OnionEntries(onion)), utf8)
            == Link(key, token, Canons(direct), onion)
  {
    hide Gather, Join, Meaning, DirectEntries, Canons, Usable, Shaped;
    DirectsReadBack(direct, utf8);
    DirectsFit(direct, utf8);
    var ds, os, head := DirectEntries(direct), OnionEntries(onion), Head(key, token);
    JoinConcat(ds, os);
    assert head + Join(ds) + Join(os) == head + Join(ds + os);
    assert head[1..1 + KEY] == key && head[1 + KEY..] == token;
    MeaningOfEntries(head, ds + os, utf8);
    OnionReadsBack(ds, Said(Canons(direct), None, |direct|), onion, utf8);
  }

  lemma OnionReadsBack(ds: seq<Entry>, said: Said, onion: Option<Bytes>, utf8: Bytes -> bool)
    requires Gather(ds, utf8) == Some(said) && said.onion.None? && (onion.Some? ==> |onion.value| == KEY)
    ensures Gather(ds + OnionEntries(onion), utf8)
            == Some(said.(onion := onion, known := said.known + if onion.Some? then 1 else 0))
  {
    if onion.Some? {
      GatherOneMore(ds, Entry(ONION, onion.value), utf8);
    } else {
      assert ds + OnionEntries(onion) == ds;
    }
  }

  /** The entries of one address more are one entry more. */
  lemma OneMoreAddress(direct: seq<Address>, i: nat)
    requires i < |direct| && forall j :: 0 <= j < |direct| ==> Shaped(direct[j])
    requires Fitting(DirectEntries(direct[..i]))
    requires |DirectEntry(direct[i]).value| < 256
    ensures Fitting(DirectEntries(direct[..i + 1]))
    ensures var e := DirectEntry(direct[i]);
            Join(DirectEntries(direct[..i + 1])) == Join(DirectEntries(direct[..i])) + ([e.kind, |e.value|] + e.value)
  {
    var e := DirectEntry(direct[i]);
    hide DirectEntry, Join;
    assert direct[..i + 1][..i] == direct[..i];
    assert DirectEntries(direct[..i + 1]) == DirectEntries(direct[..i]) + [e];
    hide DirectEntries;
    JoinConcat(DirectEntries(direct[..i]), [e]);
    JoinOne(e);
  }

  /** Appends the direct addresses, each by what its host is; None at the first that no link can carry. */
  method AppendAll(start: Bytes, direct: seq<Address>, utf8: Bytes -> bool) returns (r: Option<Bytes>)
    requires forall i :: 0 <= i < |direct| ==> Shaped(direct[i])
    ensures r.Some? <==> forall i :: 0 <= i < |direct| ==> Usable(direct[i], utf8)
    ensures r.Some? ==> Fitting(DirectEntries(direct)) && r.value == start + Join(DirectEntries(direct))
  {
    var payload := start;
    NoEntries(direct[..0]);
    hide Usable, Join, DirectEntries, DirectEntry, Fitting, Shaped;
    for i := 0 to |direct|
      invariant forall j :: 0 <= j < i ==> Usable(direct[j], utf8)
      invariant Fitting(DirectEntries(direct[..i]))
      invariant payload == start + Join(DirectEntries(direct[..i]))
    {
      var entry := AppendDirectAddress(direct[i], utf8);
      if entry.None? {
        return None;
      }
      OneMoreAddress(direct, i);
      payload := payload + entry.value;
    }
    assert direct[..|direct|] == direct;
    r := Some(payload);
  }

  /** Renders a link's payload, refusing exactly what a parser would refuse to read or could not tell apart. */
  method Build(key: Bytes, token: Bytes, direct: seq<Address>, onion: Option<Bytes>, utf8: Bytes -> bool)
    returns (r: Built)
    requires forall i :: 0 <= i < |direct| ==> Shaped(direct[i])
    ensures r.Payload? <==>
      && |key| == 32 && |token| == 16
      && (direct != [] || onion.Some?)
      && (onion.Some? ==> |onion.value| == 32)
      && forall i :: 0 <= i < |direct| ==> Usable(direct[i], utf8)
    ensures r.Payload? ==> |r.bytes| >= 49 && r.bytes[0] == 3
    ensures r.Payload? ==> Meaning(r.bytes, utf8) == Link(key, token, Canons(direct), onion)
  {
    if |key| != KEY || |token| != TOKEN || (direct == [] && onion.None?) {
      return Refused;
    }
    hide Meaning, Canons, Usable, Join, DirectEntries, Shaped;
    var payload := AppendAll([VERSION] + key + token, direct, utf8);
    if payload.None? || (onion.Some? && |onion.value| != KEY) {
      return Refused;
    }
    BuiltReadsBack(key, token, direct, onion, utf8);
    var tail := [];
    if onion.Some? {
      JoinOne(Entry(ONION, onion.value));
      tail := [ONION, KEY] + onion.value;
    } else {
      NothingJoined();
    }
    assert tail == Join(OnionEntries(onion));
    r := Payload(payload.value + tail);
  }

  lemma NothingJoined()
    ensures Join([]) == []
  {
  }

  lemma NoEntries(none: seq<Address>)
    requires none == []
    ensures Fitting(DirectEntries(none)) && Join(DirectEntries(none)) == []
  {
  }

  lemma JoinOne(e: Entry)
    requires |e.value| < 256
    ensures Join([e]) == [e.kind, |e.value|] + e.value
  {
    assert [e][1..] == [];
  }

  /** The bytes of one address: its type, what follows, the host, the port's high byte and its low one. */
  predicate Spells(bs: Bytes, a: Address)
    requires Shaped(a) && a.port < 0x1_0000
  {
    var port := [a.port / 256, a.port % 256];
    match a.host
    case V4(ip) => bs == [1, 6] + ip + port
    case V6(ip) =>
      if ip[..12] == [0, 0, 0, 0, 0, 0, 0, 0, 0, 0, 255, 255] then bs == [1, 6] + ip[12..] + port
      else bs == [2, 18] + ip + port
    case Name(n) => |n| < 254 && bs == [3, |n| + 2] + n + port
  }

  lemma PortBytes(port: nat)
    requires port < 0x1_0000
    ensures BigEndian(port, 2) == [port / 256, port % 256]
  {
    assert BigEndian(port, 2) == BigEndian(port / 256, 1) + [port % 256];
    assert BigEndian(port / 256, 1) == BigEndian(port / 256 / 256, 0) + [port / 256 % 256];
  }

  /** One address as its type, length, host and port. */
  method AppendDirectAddress(a: Address, utf8: Bytes -> bool) returns (r: Option<Bytes>)
    requires Shaped(a)
    ensures r.Some? <==> Usable(a, utf8)
    ensures r.Some? <==>
      && 1 <= a.port <= 65535
      && (a.host.Name? ==> 1 <= |a.host.name| <= 253 && utf8(a.host.name) && forall i :: 0 <= i < |a.host.name| ==> a.host.name[i] != 58)
    ensures r.Some? ==> Spells(r.value, a)
    ensures r.Some? ==> |DirectEntry(a).value| < 256 && r.value == [DirectEntry(a).kind, |DirectEntry(a).value|] + DirectEntry(a).value
  {
    if a.port == 0 || a.port >= 0x1_0000 {
      return None;
    }
    var port := BigEndian(a.port, 2);
    PortBytes(a.port);
    hide BigEndian;
    match a.host {
      case V4(ip) => r := Some([IPV4, 4 + 2] + ip + port);
      case V6(ip) =>
        if Mapped(ip) {
          r := Some([IPV4, 4 + 2] + ip[12..] + port);
        } else {
          r := Some([IPV6, 16 + 2] + ip + port);
        }
      case Name(n) =>
        if n == [] || |n| > MAX_NAME || !utf8(n) || COLON in n {
          return None;
        }
        r := Some([NAME, |n| + 2] + n + port);
    }
  }

  /** Walks the entries behind the header, skipping each unknown one by its length. */
  method WalkEntries(p: Bytes, utf8: Bytes -> bool) returns (r: Option<Said>)
    requires |p| >= HEADER
    ensures r == SaidBy(Split(p[HEADER..]), utf8)
  {
    var said := Said([], None, 0);
    ghost var all := Split(p[HEADER..]);
    ghost var done: seq<Entry> := [];
    var at := HEADER;
    Begins(all, utf8);
    hide Heard, ReadEntry, Gather, Split, Prepend, SaidBy, EntryAt;
    while at < |p|
      invariant HEADER <= at <= |p|
      invariant Gather(done, utf8) == Some(said)
      invariant all == Prepend(done, Split(p[at..]))
      decreases |p| - at
    {
      if |p| - at < 2 || |p| - at - 2 < p[at + 1] {
        TornEntry(done, p, at, utf8);
        return None;
      }
      var e := EntryAt(p, at);
      WalkStep(p, at, done, utf8);
      var heard := Heard(said, ReadEntry(e, utf8));
      if heard.None? {
        return None;
      }
      said, done, at := heard.value, done + [e], at + 2 + |e.value|;
    }
    assert p[at..] == [];
    NothingLeft(done, utf8);
    r := Some(said);
  }

  // ---- what a payload is, by its bytes ----

  /** The port in the last two bytes of a value. */
  function PortOf(v: Bytes): nat
    requires |v| >= 2
  {
    256 * (v[|v| - 2] as int) + v[|v| - 1]
  }

  /** An entry of a known type that is not one: a wrong length, a name no name, a port of zero. */
  predicate Broken(e: Entry, utf8: Bytes -> bool) {
    || (e.kind == 1 && (|e.value| != 6 || PortOf(e.value) == 0))
    || (e.kind == 2 && (|e.value| != 18 || PortOf(e.value) == 0))
    || (e.kind == 3 && (|e.value| < 3 || !utf8(e.value[..|e.value| - 2]) || PortOf(e.value) == 0))
    || (e.kind == 4 && |e.value| != 32)
  }

  /** What an entry of the types one to three says. */
  predicate SaysAddress(e: Entry, a: Address) {
    && |e.value| >= 2 && a.port == PortOf(e.value)
    && var v := e.value[..|e.value| - 2];
       && (e.kind == 1 ==> a.host == V4(v))
       && (e.kind == 2 ==>
             a.host == if |v| == 16 && v[..12] == [0, 0, 0, 0, 0, 0, 0, 0, 0, 0, 255, 255] then V4(v[12..]) else V6(v))
       && (e.kind == 3 ==> a.host == Name(v))
  }

  /** The entries of some types, in order. */
  function OfKinds(es: seq<Entry>, from: byte, to: byte): seq<Entry> {
    if es == [] then []
    else
      var rest, e := OfKinds(es[..|es| - 1], from, to), es[|es| - 1];
      if from <= e.kind <= to then rest + [e] else rest
  }

  lemma TwoBytes(v: Bytes)
    requires |v| == 2
    ensures FromBigEndian(v) == 256 * (v[0] as int) + v[1]
  {
    assert FromBigEndian(v) == FromBigEndian(v[..1]) * 256 + v[1];
    assert FromBigEndian(v[..1]) == FromBigEndian(v[..1][..0]) * 256 + v[0];
  }

  lemma EntryByBytes(e: Entry, utf8: Bytes -> bool)
    ensures ReadEntry(e, utf8) == Bad <==> Broken(e, utf8)
    ensures ReadEntry(e, utf8).Direct? <==> 1 <= e.kind <= 3 && !Broken(e, utf8)
    ensures ReadEntry(e, utf8).Direct? ==> SaysAddress(e, ReadEntry(e, utf8).address)
    ensures e.kind == 4 && !Broken(e, utf8) ==> ReadEntry(e, utf8) == Onion(e.value)
    ensures e.kind < 1 || e.kind > 4 ==> ReadEntry(e, utf8) == Unknown
  {
    if |e.value| >= 2 {
      TwoBytes(e.value[|e.value| - 2..]);
    }
    hide FromBigEndian;
    if e.kind == 2 && |e.value| == 18 {
      var v := e.value[..16];
      assert v[..12] == v[..10] + [v[10], v[11]];
      assert v[12..] == e.value[12..16];
      assert v[..12][..10] == v[..10] && v[..12][10] == v[10] && v[..12][11] == v[11];
    }
  }

  /** What was gathered, by the entries: none broken, the addresses in order, the first onion key, how many were known. */
  ghost predicate GatheredFrom(es: seq<Entry>, said: Said, utf8: Bytes -> bool) {
    && (forall i :: 0 <= i < |es| ==> !Broken(es[i], utf8))
    && |said.direct| == |OfKinds(es, 1, 3)|
    && (forall i :: 0 <= i < |said.direct| ==> SaysAddress(OfKinds(es, 1, 3)[i], said.direct[i]))
    && said.onion == (if OfKinds(es, 4, 4) == [] then None else Some(OfKinds(es, 4, 4)[0].value))
    && said.known == |OfKinds(es, 1, 4)|
  }

  lemma {:induction false} GatheredByBytes(es: seq<Entry>, utf8: Bytes -> bool)
    ensures Gather(es, utf8).None? <==> exists i :: 0 <= i < |es| && Broken(es[i], utf8)
    ensures Gather(es, utf8).Some? ==> GatheredFrom(es, Gather(es, utf8).value, utf8)
  {
    if es != [] {
      var rest, e := es[..|es| - 1], es[|es| - 1];
      GatheredByBytes(rest, utf8);
      EntryByBytes(e, utf8);
      hide ReadEntry, SaysAddress, Broken;
      assert forall i :: 0 <= i < |rest| ==> es[i] == rest[i];
    }
  }

  /**
   A payload of this version is malformed exactly when its entries do not come
   apart, one of a known type is broken, or none is of a known type; otherwise it
   gives the key, the token, the addresses in order and the first onion key.
   */
  lemma MeaningByBytes(p: Bytes, utf8: Bytes -> bool)
    requires |p| >= 49 && p[0] == 3
    ensures var es := Split(p[49..]);
            && (Meaning(p, utf8).Malformed? <==>
                  es.None? || (exists i :: 0 <= i < |es.value| && Broken(es.value[i], utf8)) || OfKinds(es.value, 1, 4) == [])
            && (!Meaning(p, utf8).Malformed? ==>
                  var m := Meaning(p, utf8);
                  && m.Link? && m.key == p[1..33] && m.token == p[33..49]
                  && |m.direct| == |OfKinds(es.value, 1, 3)|
                  && (forall i :: 0 <= i < |m.direct| ==> SaysAddress(OfKinds(es.value, 1, 3)[i], m.direct[i]))
                  && m.onion == (if OfKinds(es.value, 4, 4) == [] then None else Some(OfKinds(es.value, 4, 4)[0].value)))
  {
    assert p[..49][1..33] == p[1..33] && p[..49][33..] == p[33..49];
    var es := Split(p[49..]);
    if es.Some? {
      GatheredByBytes(es.value, utf8);
    }
    hide Split, Gather, SaysAddress, Broken, OfKinds;
  }

  /** Reads a payload: whatever the bytes, the walk ends, and the answer is their meaning. */
  method Parse(p: Bytes, utf8: Bytes -> bool) returns (r: Parsed)
    ensures r == Meaning(p, utf8)
    ensures |p| < 49 ==> r == Malformed
    ensures |p| >= 49 ==> (r == NewerVersion <==> p[0] > 3) && (p[0] < 3 ==> r == Malformed)
  {
    if |p| < HEADER {
      return Malformed;
    }
    if p[0] > VERSION {
      return NewerVersion;
    }
    if p[0] != VERSION {
      return Malformed;
    }
    var said := WalkEntries(p, utf8);
    hide Split, Gather;
    assert p[..HEADER][1..1 + KEY] == p[1..1 + KEY] && p[..HEADER][1 + KEY..] == p[1 + KEY..HEADER];
    if said.None? || said.value.known == 0 {
      return Malformed;
    }
    r := Link(p[1..1 + KEY], p[1 + KEY..HEADER], said.value.direct, said.value.onion);
  }

  lemma Begins(all: Option<seq<Entry>>, utf8: Bytes -> bool)
    ensures Prepend([], all) == all && Gather([], utf8) == Some(Said([], None, 0))
  {
    if all.Some? {
      assert [] + all.value == all.value;
    }
  }

  function Prepend(done: seq<Entry>, rest: Option<seq<Entry>>): Option<seq<Entry>> {
    if rest.None? then None else Some(done + rest.value)
  }

  lemma PrependOneMore(done: seq<Entry>, e: Entry, rest: Option<seq<Entry>>)
    ensures Prepend(done, Prepend([e], rest)) == Prepend(done + [e], rest)
  {
    if rest.Some? {
      assert done + ([e] + rest.value) == (done + [e]) + rest.value;
    }
  }

  /** The entry at a place in a payload that holds it whole. */
  function EntryAt(p: Bytes, at: nat): (e: Entry)
    requires at + 2 <= |p| && at + 2 + p[at + 1] <= |p|
    ensures |e.value| == p[at + 1]
  {
    Entry(p[at], p[at + 2..at + 2 + p[at + 1]])
  }

  /** One entry on: what was said so far, what is left, and that a refused entry settles it. */
  lemma WalkStep(p: Bytes, at: nat, done: seq<Entry>, utf8: Bytes -> bool)
    requires at + 2 <= |p| && at + 2 + p[at + 1] <= |p| && Gather(done, utf8).Some?
    ensures var e, on := EntryAt(p, at), at + 2 + p[at + 1];
            && Gather(done + [e], utf8) == Heard(Gather(done, utf8).value, ReadEntry(e, utf8))
            && Prepend(done, Split(p[at..])) == Prepend(done + [e], Split(p[on..]))
            && (Gather(done + [e], utf8).None? ==> SaidBy(Prepend(done, Split(p[at..])), utf8) == None)
  {
    var e, on := EntryAt(p, at), at + 2 + p[at + 1];
    hide Heard, ReadEntry;
    SplitStep(p, at);
    GatherOneMore(done, e, utf8);
    PrependOneMore(done, e, Split(p[on..]));
    if Gather(done + [e], utf8).None? {
      StopsThere(done + [e], p[on..], utf8);
    }
    hide Split, Gather, Prepend, SaidBy;
  }

  lemma TornEntry(done: seq<Entry>, p: Bytes, at: nat, utf8: Bytes -> bool)
    requires at < |p| && (|p| - at < 2 || |p| - at - 2 < p[at + 1])
    ensures SaidBy(Prepend(done, Split(p[at..])), utf8) == None
  {
  }

  lemma NothingLeft(done: seq<Entry>, utf8: Bytes -> bool)
    ensures SaidBy(Prepend(done, Split([])), utf8) == Gather(done, utf8)
  {
    assert done + [] == done;
  }

  lemma SplitStep(p: Bytes, at: nat)
    requires at + 2 <= |p| && at + 2 + p[at + 1] <= |p|
    ensures Split(p[at..]) == Prepend([Entry(p[at], p[at + 2..at + 2 + p[at + 1]])], Split(p[at + 2 + p[at + 1]..]))
  {
    var bs := p[at..];
    assert bs[2 + bs[1]..] == p[at + 2 + p[at + 1]..];
    assert bs[2..2 + bs[1]] == p[at + 2..at + 2 + p[at + 1]];
  }

  /** An entry the parser refuses makes the whole link malformed, whatever follows. */
  lemma StopsThere(done: seq<Entry>, rest: Bytes, utf8: Bytes -> bool)
    requires Gather(done, utf8).None?
    ensures SaidBy(Prepend(done, Split(rest)), utf8) == None
  {
    if Split(rest).Some? {
      GatherFails(done, Split(rest).value, utf8);
    }
  }
}
