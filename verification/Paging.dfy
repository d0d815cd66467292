/**
 Pages of a chat's history and of the chat list
 (client_backend/internal/store/store.go, client_backend/internal/server/handlers.go).
 */
module Paging {
  import opened Common
  import opened ChatLog

  const MAX_PAGE: int := 100
  const INT64: int := 0x1_0000_0000_0000_0000

  type Msg = Message<string>

  // ---- a chat's history, in the order of its sequence numbers ----

  /** The chat's messages among the first `n` events, oldest first. */
  function HistoryTo(t: Tables, chat: string, n: nat): (h: seq<Msg>)
    requires n <= |t.events|
  {
    if n == 0 then []
    else
      var h := HistoryTo(t, chat, n - 1);
      match t.events[n - 1].payload
      case MessageNew(m) =>
        if m.id in t.messages && t.messages[m.id].chatId == chat
        then h + [Joined(t.files, m.id, t.messages[m.id])] else h
      case _ => h
  }

  function History(t: Tables, chat: string): seq<Msg> {
    HistoryTo(t, chat, |t.events|)
  }

  predicate Ascending(h: seq<Msg>) {
    && (forall i :: 0 <= i < |h| ==> h[i].seqNo > 0)
    && (forall i, j :: 0 <= i < j < |h| ==> h[i].seqNo < h[j].seqNo)
  }

  lemma {:induction false} HistoryAscends(t: Tables, chat: string, n: nat)
    requires Numbered(t.messages, t.events) && n <= |t.events|
    ensures var h := HistoryTo(t, chat, n);
            Ascending(h) && forall i :: 0 <= i < |h| ==> h[i].seqNo <= n
  {
    if n > 0 {
      HistoryAscends(t, chat, n - 1);
      assert InTable(t.messages, t.events[n - 1].payload, n);
    }
  }

  /** The history is the chat's rows: each of them is in it, and nothing else is. */
  lemma {:induction false} HistoryIsTheRows(t: Tables, chat: string, n: nat, m: string)
    requires Numbered(t.messages, t.events) && n <= |t.events| && m in t.messages
    ensures Joined(t.files, m, t.messages[m]) in HistoryTo(t, chat, n)
            <==> t.messages[m].chatId == chat && t.messages[m].seqNo <= n
  {
    assert InLog(t.events, m, t.messages[m].seqNo);
    if n > 0 {
      HistoryIsTheRows(t, chat, n - 1, m);
      assert InTable(t.messages, t.events[n - 1].payload, n);
      var h := HistoryTo(t, chat, n - 1);
      assert forall x, y :: x in h + [y] <==> x in h || x == y;
    }
  }

  /** What a history already holds stays as it is while the store goes on. */
  lemma {:induction false} HistoryStays(a: Tables, b: Tables, chat: string, n: nat)
    requires Extends(a, b) && Numbered(a.messages, a.events) && n <= |a.events|
    ensures HistoryTo(a, chat, n) == HistoryTo(b, chat, n)
  {
    if n > 0 {
      HistoryStays(a, b, chat, n - 1);
      assert a.events[n - 1] == b.events[n - 1];
      assert InTable(a.messages, a.events[n - 1].payload, n);
    }
  }

  lemma {:induction false} HistoryPrefix(t: Tables, chat: string, n: nat, k: nat)
    requires k <= n <= |t.events|
    ensures HistoryTo(t, chat, k) <= HistoryTo(t, chat, n)
  {
    if k < n {
      HistoryPrefix(t, chat, n - 1, k);
    }
  }

  lemma HistoryGrows(f: Formats, a: Tables, b: Tables, chat: string)
    requires Sound(f, a) && Sound(f, b) && Extends(a, b)
    ensures History(a, chat) <= History(b, chat) && Ascending(History(b, chat))
  {
    assert Numbered(a.messages, a.events) && Numbered(b.messages, b.events);
    hide Sound;
    HistoryStays(a, b, chat, |a.events|);
    HistoryPrefix(b, chat, |b.events|, |a.events|);
    HistoryAscends(b, chat, |b.events|);
  }

  // ---- one page back ----

  /** The rows below a sequence number, or all of them when none is given. */
  function Below(h: seq<Msg>, before: int): (r: seq<Msg>)
  {
    if h == [] then []
    else
      var rest, last := Below(h[..|h| - 1], before), h[|h| - 1];
      if before <= 0 || last.seqNo < before then rest + [last] else rest
  }

  /** The newest `n` rows, newest first. */
  function Newest(rows: seq<Msg>, n: nat): seq<Msg> {
    if n == 0 || rows == [] then [] else [rows[|rows| - 1]] + Newest(rows[..|rows| - 1], n - 1)
  }

  /** The page a reader is promised: the last `limit` rows below, oldest first, and whether older ones remain. */
  function PageOf(h: seq<Msg>, before: int, limit: nat): (seq<Msg>, bool) {
    var rows := Below(h, before);
    if |rows| > limit then (rows[|rows| - limit..], true) else (rows, false)
  }

  lemma {:induction false} NewestAt(rows: seq<Msg>, n: nat)
    ensures |Newest(rows, n)| == Min(n, |rows|)
    ensures forall i :: 0 <= i < |Newest(rows, n)| ==> Newest(rows, n)[i] == rows[|rows| - 1 - i]
  {
    if n > 0 && rows != [] {
      NewestAt(rows[..|rows| - 1], n - 1);
    }
  }

  /** In a history, what lies below an entry is what comes before it. */
  lemma {:induction false} BelowAnEntry(h: seq<Msg>, before: int, k: nat)
    requires Ascending(h) && k <= |h|
    requires if k < |h| then before == h[k].seqNo else before <= 0 || forall i :: 0 <= i < |h| ==> h[i].seqNo < before
    ensures Below(h, before) == h[..k]
  {
    if h != [] {
      var shorter := h[..|h| - 1];
      if k == |h| || k == |h| - 1 {
        BelowAnEntry(shorter, before, |shorter|);
      } else {
        BelowAnEntry(shorter, before, k);
      }
    }
  }

  method ListMessages(s: Store, chat: string, before: int, limit: nat) returns (page: seq<Msg>, more: bool)
    requires limit >= 1
    ensures (page, more) == PageOf(History(s.State(), chat), before, limit)
  {
    ghost var below := Below(History(s.State(), chat), before);
    var newestFirst := Newest(Below(History(s.State(), chat), before), limit + 1);
    NewestAt(below, limit + 1);
    more := |newestFirst| > limit;
    if more {
      newestFirst := newestFirst[..limit];
    }
    page := [];
    var i := |newestFirst| - 1;
    while i >= 0
      invariant -1 <= i < |newestFirst|
      invariant page == below[|below| - |newestFirst|..|below| - 1 - i]
    {
      page := page + [newestFirst[i]];
      i := i - 1;
    }
    assert below[|below| - |newestFirst|..|below|] == below[|below| - |newestFirst|..];
  }

  /** Whether a message of the tables belongs to the chat and lies below `before`, when one is given. */
  predicate Asked(t: Tables, chat: string, before: int, m: string) {
    m in t.messages && t.messages[m].chatId == chat && (before <= 0 || t.messages[m].seqNo < before)
  }

  predicate ShowsRow(t: Tables, x: Msg) {
    && x.id in t.messages
    && var r := t.messages[x.id];
       && Says(x, x.id, r.seqNo, r.chatId, r.author, r.authorLabel, r.clientId, r.sentAt, r.body)
       && Shows(x.attachment, r.file, t.files)
  }

  predicate RowsOf(t: Tables, chat: string, h: seq<Msg>) {
    forall x :: x in h ==> ShowsRow(t, x) && t.messages[x.id].chatId == chat
  }

  lemma {:induction false} HistoryHoldsRows(t: Tables, chat: string, n: nat)
    requires n <= |t.events|
    ensures RowsOf(t, chat, HistoryTo(t, chat, n))
  {
    if n > 0 {
      HistoryHoldsRows(t, chat, n - 1);
      var rest := HistoryTo(t, chat, n - 1);
      assert forall x, y :: x in rest + [y] <==> x in rest || x == y;
    }
  }

  lemma {:induction false} BelowHolds(h: seq<Msg>, before: int, x: Msg)
    ensures x in Below(h, before) <==> x in h && (before <= 0 || x.seqNo < before)
  {
    if h != [] {
      BelowHolds(h[..|h| - 1], before, x);
      assert h == h[..|h| - 1] + [h[|h| - 1]];
    }
  }

  lemma {:induction false} BelowAscends(h: seq<Msg>, before: int)
    requires Ascending(h)
    ensures Ascending(Below(h, before))
  {
    if h != [] {
      var rest, last := Below(h[..|h| - 1], before), h[|h| - 1];
      BelowAscends(h[..|h| - 1], before);
      forall i | 0 <= i < |rest|
        ensures rest[i].seqNo < last.seqNo
      {
        BelowHolds(h[..|h| - 1], before, rest[i]);
      }
    }
  }

  /** Any message asked for is among the rows below. */
  lemma AskedIsBelow(f: Formats, t: Tables, chat: string, before: int, m: string)
    requires Sound(f, t) && Asked(t, chat, before, m)
    ensures Joined(t.files, m, t.messages[m]) in Below(History(t, chat), before)
  {
    assert Numbered(t.messages, t.events);
    assert InLog(t.events, m, t.messages[m].seqNo);
    hide Sound;
    HistoryAscends(t, chat, |t.events|);
    HistoryIsTheRows(t, chat, |t.events|, m);
    BelowHolds(History(t, chat), before, Joined(t.files, m, t.messages[m]));
  }

  /** The rows below are the chat's, each as the tables have it, in order. */
  lemma RowsBelow(f: Formats, t: Tables, chat: string, before: int)
    requires Sound(f, t)
    ensures var rows := Below(History(t, chat), before);
            && Ascending(rows)
            && forall i :: 0 <= i < |rows| ==> ShowsRow(t, rows[i]) && Asked(t, chat, before, rows[i].id)
  {
    assert Numbered(t.messages, t.events);
    hide Sound, Shows;
    var h, rows := History(t, chat), Below(History(t, chat), before);
    HistoryAscends(t, chat, |t.events|);
    HistoryHoldsRows(t, chat, |t.events|);
    BelowAscends(h, before);
    forall i | 0 <= i < |rows|
      ensures ShowsRow(t, rows[i]) && Asked(t, chat, before, rows[i].id)
    {
      BelowHolds(h, before, rows[i]);
    }
  }

  /**
   A page is the newest of what was asked for: in order, each message as the tables
   have it, at most `limit` of them, every one newer than what was left out, and a
   full page whenever something was left out.
   */
  lemma PageIsTheNewestBelow(f: Formats, t: Tables, chat: string, before: int, limit: nat)
    requires Sound(f, t) && limit >= 1
    ensures var (page, more) := PageOf(History(t, chat), before, limit);
            && (forall i, j :: 0 <= i < j < |page| ==> page[i].seqNo < page[j].seqNo)
            && (forall i :: 0 <= i < |page| ==> ShowsRow(t, page[i]) && Asked(t, chat, before, page[i].id))
            && |page| <= limit
            && (forall m :: Asked(t, chat, before, m) ==>
                  || (exists i :: 0 <= i < |page| && page[i].id == m)
                  || (more && |page| == limit && t.messages[m].seqNo < page[0].seqNo))
            && (more ==> |page| == limit && exists m :: Asked(t, chat, before, m) && t.messages[m].seqNo < page[0].seqNo)
  {
    RowsBelow(f, t, chat, before);
    hide Sound, History, Below, Shows, Says, PageOf;
    var rows := Below(History(t, chat), before);
    NewestOfRows(History(t, chat), before, limit);
    forall m | Asked(t, chat, before, m)
      ensures exists k :: 0 <= k < |rows| && rows[k].id == m && rows[k].seqNo == t.messages[m].seqNo
    {
      AskedIsBelow(f, t, chat, before, m);
    }
  }

  /** The page is the end of the rows below, whole or cut at `limit`. */
  lemma NewestOfRows(h: seq<Msg>, before: int, limit: nat)
    requires limit >= 1 && Ascending(Below(h, before))
    ensures var rows := Below(h, before);
            var (page, more) := PageOf(h, before, limit);
            && |page| <= limit && (more ==> |page| == limit && |rows| > 0 && rows[0].seqNo < page[0].seqNo)
            && (forall i :: 0 <= i < |page| ==> page[i] in rows)
            && (forall i, j :: 0 <= i < j < |page| ==> page[i].seqNo < page[j].seqNo)
            && (forall k :: 0 <= k < |rows| ==>
                  rows[k] in page || (more && |page| == limit && rows[k].seqNo < page[0].seqNo))
  {
    var rows := Below(h, before);
    var (page, more) := PageOf(h, before, limit);
    hide Below;
    if more {
      forall k | |rows| - limit <= k < |rows|
        ensures rows[k] in page
      {
        assert page[k - (|rows| - limit)] == rows[k];
      }
    }
  }

  lemma FirstPage(h: seq<Msg>, limit: nat)
    requires Ascending(h)
    ensures PageOf(h, 0, limit) == if |h| > limit then (h[|h| - limit..], true) else (h, false)
  {
    BelowAnEntry(h, 0, |h|);
    assert h[..|h|] == h;
  }

  lemma Stretches(h: seq<Msg>, a: nat, b: nat)
    requires a <= b <= |h|
    ensures h[a..b] + h[b..] == h[a..]
    ensures a < b ==> h[a..b][0] == h[a]
  {
  }

  /** The page below an entry seen earlier is the stretch right before it, whatever was sent since. */
  lemma OlderPage(f: Formats, a: Tables, b: Tables, chat: string, k: nat, limit: nat)
    requires Sound(f, a) && Sound(f, b) && Extends(a, b) && k < |History(a, chat)|
    ensures var h := History(a, chat);
            PageOf(History(b, chat), h[k].seqNo, limit) == if k > limit then (h[k - limit..k], true) else (h[..k], false)
  {
    hide Sound, Extends, History;
    HistoryGrows(f, a, b, chat);
    BelowAnEntry(History(b, chat), History(a, chat)[k].seqNo, k);
    assert History(b, chat)[..k] == History(a, chat)[..k];
  }

  /**
   Walking a chat back page by page while older messages remain, each page asked
   with any limit and with any transactions committed in between, shows every
   message the chat had when the walk began exactly once, in order.
   */
  method WalkBack(s: Store, chat: string, limits: nat -> nat, between: nat -> seq<Op>) returns (all: seq<Msg>)
    requires s.Valid()
    requires forall k :: limits(k) >= 1
    requires forall k, i :: 0 <= i < |between(k)| && between(k)[i].OpCreate? ==> between(k)[i].minted != ""
    modifies s
    ensures s.Valid()
    ensures all == History(old(s.State()), chat)
  {
    hide Sound, Extends, History, PageOf, Ascending;
    ghost var start := s.State();
    ghost var h := History(start, chat);
    ExtendsItself(start);
    HistoryGrows(s.formats, start, start, chat);
    FirstPage(h, limits(0));
    var n := 0;
    var page, more := ListMessages(s, chat, 0, limits(0));
    all := page;
    ghost var k := if |h| > limits(0) then |h| - limits(0) else 0;
    while more
      invariant s.Valid() && Extends(start, s.State())
      invariant 0 <= k <= |h| && all == h[k..]
      invariant more <==> k > 0
      invariant more ==> k < |h| && |page| > 0 && page[0] == h[k]
      decreases k
    {
      ghost var sofar := s.State();
      s.AnyRun(between(n));
      ExtendsOn(start, sofar, s.State());
      n := n + 1;
      OlderPage(s.formats, start, s.State(), chat, k, limits(n));
      page, more := ListMessages(s, chat, page[0].seqNo, limits(n));
      all := page + all;
      ghost var j := if k > limits(n) then k - limits(n) else 0;
      Stretches(h, j, k);
      k := j;
    }
  }

  // ---- the chat list ----

  /** A 64-bit signed integer keeps the low 64 bits of a product. */
  function Wrap(x: int): (r: int)
    ensures -INT64 / 2 <= r < INT64 / 2
    ensures -INT64 / 2 <= x < INT64 / 2 ==> r == x
  {
    (x + INT64 / 2) % INT64 - INT64 / 2
  }

  // ---- the order of the chat list ----

  /** Strictly before, character by character. */
  predicate Lex(a: string, b: string) {
    b != [] && (a == [] || a[0] < b[0] || (a[0] == b[0] && Lex(a[1..], b[1..])))
  }

  lemma {:induction false} LexOrders(a: string, b: string)
    ensures !Lex(a, a) && (a == b || Lex(a, b) || Lex(b, a)) && !(Lex(a, b) && Lex(b, a))
  {
    if a != [] {
      LexOrders(a[1..], if b == [] then [] else b[1..]);
      assert a == [a[0]] + a[1..];
      if b != [] { assert b == [b[0]] + b[1..]; }
    }
  }

  lemma {:induction false} LexTransitive(a: string, b: string, c: string)
    requires Lex(a, b) && Lex(b, c)
    ensures Lex(a, c)
  {
    if a != [] && a[0] == b[0] && b[0] == c[0] {
      LexTransitive(a[1..], b[1..], c[1..]);
    }
  }

  /** Newest activity first, the id as the tiebreaker. */
  predicate Before(a: Chat, b: Chat) {
    a.lastActivity > b.lastActivity || (a.lastActivity == b.lastActivity && Lex(a.id, b.id))
  }

  lemma BeforeTransitive(a: Chat, b: Chat, c: Chat)
    requires Before(a, b) && Before(b, c)
    ensures Before(a, c)
  {
    if Lex(a.id, b.id) && Lex(b.id, c.id) {
      LexTransitive(a.id, b.id, c.id);
    }
  }

  lemma BeforeOrders(a: Chat, b: Chat)
    ensures !Before(a, a) && (a.id == b.id || Before(a, b) || Before(b, a)) && !(Before(a, b) && Before(b, a))
  {
    LexOrders(a.id, b.id);
    LexOrders(a.id, a.id);
  }

  predicate Sorted(rows: seq<Chat>) {
    forall i, j :: 0 <= i < j < |rows| ==> Before(rows[i], rows[j])
  }

  /** The cards of the chats whose ids are in `ids`, each once. */
  ghost predicate CardsOf(t: Tables, ids: set<string>, rows: seq<Chat>) {
    forall c :: c in rows <==> c.id in ids && c.id in t.chats && c == Card(c.id, t.chats[c.id])
  }

  /** The chat list in its order: every chat's card, once. */
  ghost predicate InOrder(t: Tables, rows: seq<Chat>) {
    Sorted(rows) && CardsOf(t, t.chats.Keys, rows)
  }

  /** There is one such list and no other. */
  lemma {:induction false} OneOrder(a: seq<Chat>, b: seq<Chat>)
    requires Sorted(a) && Sorted(b) && forall c :: c in a <==> c in b
    ensures a == b
  {
    Inhabited(b);
    if a != [] {
      FirstAgrees(a, b);
      assert forall c :: c in a[1..] <==> c in a && c != a[0] by { RestOf(a); }
      assert forall c :: c in b[1..] <==> c in b && c != b[0] by { RestOf(b); }
      OneOrder(a[1..], b[1..]);
      assert a == [a[0]] + a[1..] && b == [b[0]] + b[1..];
    }
  }

  lemma Inhabited(a: seq<Chat>)
    ensures a != [] ==> exists c :: c in a
  {
    if a != [] {
      assert a[0] in a;
    }
  }

  lemma RestOf(a: seq<Chat>)
    requires Sorted(a) && a != []
    ensures forall c :: c in a[1..] <==> c in a && c != a[0]
  {
    BeforeOrders(a[0], a[0]);
    assert forall i :: 1 <= i < |a| ==> Before(a[0], a[i]);
    assert a == [a[0]] + a[1..];
  }

  lemma FirstAgrees(a: seq<Chat>, b: seq<Chat>)
    requires Sorted(a) && Sorted(b) && a != [] && forall c :: c in a <==> c in b
    ensures b != [] && a[0] == b[0]
  {
    assert a[0] in b;
    var i :| 0 <= i < |b| && b[i] == a[0];
    assert b[0] in a;
    var j :| 0 <= j < |a| && a[j] == b[0];
    BeforeOrders(a[0], b[0]);
  }

  /** Where a card belongs in a sorted list it is not in. */
  method Insert(rows: seq<Chat>, c: Chat) returns (r: seq<Chat>)
    requires Sorted(rows) && forall d :: d in rows ==> d.id != c.id
    ensures Sorted(r) && (forall d :: d in r <==> d in rows || d == c) && |r| == |rows| + 1
  {
    var i := 0;
    while i < |rows| && Before(rows[i], c)
      invariant 0 <= i <= |rows|
      invariant forall k :: 0 <= k < i ==> Before(rows[k], c)
    {
      i := i + 1;
    }
    forall k | i <= k < |rows|
      ensures Before(c, rows[k])
    {
      assert rows[i] in rows;
      BeforeOrders(c, rows[i]);
      if i < k { BeforeTransitive(c, rows[i], rows[k]); }
    }
    r := rows[..i] + [c] + rows[i..];
    assert rows == rows[..i] + rows[i..];
  }

  /** The query's rows: every chat, newest activity first. */
  method ChatsInOrder(s: Store) returns (rows: seq<Chat>)
    ensures InOrder(s.State(), rows) && |rows| == |s.chats|
  {
    ghost var t := s.State();
    rows := [];
    var left, done := s.chats.Keys, {};
    while left != {}
      invariant left !! done && left + done == s.chats.Keys
      invariant Sorted(rows) && CardsOf(t, done, rows) && |rows| == |done|
      decreases left
    {
      var id :| id in left;
      var before := |rows|;
      rows := Insert(rows, Card(id, s.chats[id]));
      left, done := left - {id}, done + {id};
    }
    assert done == s.chats.Keys;
  }

  function Matching(rows: seq<Chat>, keep: Chat -> bool): (r: seq<Chat>)
  {
    if rows == [] then []
    else
      var rest, last := Matching(rows[..|rows| - 1], keep), rows[|rows| - 1];
      if keep(last) then rest + [last] else rest
  }

  lemma {:induction false} MatchingNoLonger(rows: seq<Chat>, keep: Chat -> bool)
    ensures |Matching(rows, keep)| <= |rows|
  {
    if rows != [] {
      MatchingNoLonger(rows[..|rows| - 1], keep);
    }
  }

  /** Exactly the chats that match, in the order they were in. */
  lemma {:induction false} MatchingKeepsOrder(rows: seq<Chat>, keep: Chat -> bool)
    requires Sorted(rows)
    ensures Sorted(Matching(rows, keep))
    ensures forall c :: c in Matching(rows, keep) <==> c in rows && keep(c)
  {
    if rows != [] {
      var rest, last := rows[..|rows| - 1], rows[|rows| - 1];
      MatchingKeepsOrder(rest, keep);
      assert rows == rest + [last];
      assert forall i :: 0 <= i < |Matching(rest, keep)| ==> Matching(rest, keep)[i] in rest;
    }
  }

  /** The stretch of a list that lies on page `page` of `size`, pages counted from one. */
  function Slice(list: seq<Chat>, page: int, size: int): seq<Chat>
    requires page >= 1 && size >= 1
  {
    list[Min((page - 1) * size, |list|)..Min(page * size, |list|)]
  }

  /** The chats of a list that match, gathered row by row. */
  method MatchingRows(ordered: seq<Chat>, keep: Chat -> bool) returns (matched: seq<Chat>)
    ensures matched == Matching(ordered, keep)
  {
    matched := [];
    for i := 0 to |ordered|
      invariant matched == Matching(ordered[..i], keep)
    {
      assert ordered[..i + 1][..i] == ordered[..i];
      if keep(ordered[i]) {
        matched := matched + [ordered[i]];
      }
    }
    assert ordered[..|ordered|] == ordered;
  }

  /**
   One page of a matched list. The guard comes before the product: past it the
   product is at most the list's length times the page size, so for every page
   number a 64-bit integer can hold it does not wrap.
   */
  method PageOfList(matched: seq<Chat>, page: int, pageSize: int) returns (chats: seq<Chat>, more: bool)
    requires 1 <= page < INT64 / 2 && 1 <= pageSize <= MAX_PAGE
    requires |matched| * MAX_PAGE < INT64 / 2 - MAX_PAGE
    ensures chats == Slice(matched, page, pageSize)
    ensures more <==> page * pageSize < |matched|
    ensures |chats| <= pageSize && (more ==> |chats| == pageSize)
  {
    if page - 1 >= |matched| {
      PastTheEnd(page - 1, pageSize, |matched|);
      return [], false;
    }
    Product(page - 1, pageSize, |matched|);
    var start := Wrap((page - 1) * pageSize);
    assert page * pageSize == start + pageSize;
    if start >= |matched| {
      return [], false;
    }
    var end := Min(Wrap(start + pageSize), |matched|);
    chats, more := matched[start..end], end < |matched|;
  }

  /** One page of the chat list: its stretch of the chats that match, newest activity first. */
  method ListChats(s: Store, page: int, pageSize: int, keep: Chat -> bool) returns (chats: seq<Chat>, more: bool)
    requires 1 <= page < INT64 / 2 && 1 <= pageSize <= MAX_PAGE
    requires |s.chats| * MAX_PAGE < INT64 / 2 - MAX_PAGE
    ensures forall rows :: InOrder(s.State(), rows) ==>
      && chats == Slice(Matching(rows, keep), page, pageSize)
      && (more <==> page * pageSize < |Matching(rows, keep)|)
    ensures |chats| <= pageSize && (more ==> |chats| == pageSize)
  {
    var ordered := ChatsInOrder(s);
    MatchingNoLonger(ordered, keep);
    var matched := MatchingRows(ordered, keep);
    chats, more := PageOfList(matched, page, pageSize);
    hide Slice, Matching, InOrder;
    forall rows | InOrder(s.State(), rows)
      ensures rows == ordered
    {
      SameOrder(s.State(), rows, ordered);
    }
  }

  lemma PastTheEnd(p: int, size: int, len: int)
    requires p >= len >= 0 && size >= 1
    ensures len <= p * size <= (p + 1) * size
  {
    assert p * size >= p * 1;
    assert (p + 1) * size == p * size + size;
  }

  lemma Product(p: int, size: int, len: int)
    requires 0 <= p < len && 1 <= size <= MAX_PAGE
    ensures 0 <= p * size <= len * MAX_PAGE
  {
    assert p * size <= p * MAX_PAGE;
  }

  function Pages(list: seq<Chat>, n: nat, size: int): seq<Chat>
    requires size >= 1
  {
    if n == 0 then [] else Pages(list, n - 1, size) + Slice(list, n, size)
  }

  /** The pages one after another are the list: the first `n` of them are its first `n * size` chats. */
  lemma {:induction false} PagesConcatenate(list: seq<Chat>, n: nat, size: int)
    requires size >= 1
    ensures Pages(list, n, size) == list[..Min(n * size, |list|)]
  {
    if n > 0 {
      PagesConcatenate(list, n - 1, size);
      assert (n - 1) * size + size == n * size;
    }
  }

  /** Asking page after page while there is more gives every chat that matches, once, newest activity first. */
  method AllChats(s: Store, pageSize: int, keep: Chat -> bool) returns (all: seq<Chat>)
    requires 1 <= pageSize <= MAX_PAGE
    requires |s.chats| * MAX_PAGE < INT64 / 2 - MAX_PAGE
    ensures forall rows :: InOrder(s.State(), rows) ==> all == Matching(rows, keep)
    ensures NewestFirst(all) && forall c :: c in all <==> keep(c) && IsChat(s.chats, c)
  {
    var ordered := ChatsInOrder(s);
    hide Slice, Matching, Wrap, Sorted, InOrder;
    MatchingNoLonger(ordered, keep);
    ghost var list := Matching(ordered, keep);
    var page := 1;
    var more;
    all, more := ListChats(s, 1, pageSize, keep);
    assert all == Pages(list, 1, pageSize);
    while more
      invariant 1 <= page <= |list| + 1
      invariant all == Pages(list, page, pageSize)
      invariant more <==> page * pageSize < |list|
      decreases |list| + 1 - page
    {
      PastTheEnd(page, pageSize, page);
      page := page + 1;
      var chats;
      chats, more := ListChats(s, page, pageSize, keep);
      all := all + chats;
    }
    PagesConcatenate(list, page, pageSize);
    forall rows | InOrder(s.State(), rows)
      ensures rows == ordered
    {
      SameOrder(s.State(), rows, ordered);
    }
    AllAreShown(s.State(), ordered, keep);
  }

  /** Newest activity first; among chats active at the same moment, by id. */
  predicate NewestFirst(rows: seq<Chat>) {
    forall i, j :: 0 <= i < j < |rows| ==>
      rows[i].lastActivity > rows[j].lastActivity || (rows[i].lastActivity == rows[j].lastActivity && Lex(rows[i].id, rows[j].id))
  }

  predicate IsChat(chats: map<string, ChatRow>, c: Chat) {
    && c.id in chats
    && var r := chats[c.id]; ChatSays(c, c.id, r.name, r.createdAt, r.createdBy, r.preview, r.lastActivity)
  }

  lemma AllAreShown(t: Tables, ordered: seq<Chat>, keep: Chat -> bool)
    requires InOrder(t, ordered)
    ensures NewestFirst(Matching(ordered, keep))
    ensures forall c :: c in Matching(ordered, keep) <==> keep(c) && IsChat(t.chats, c)
  {
    MatchingKeepsOrder(ordered, keep);
  }

  lemma SameOrder(t: Tables, a: seq<Chat>, b: seq<Chat>)
    requires InOrder(t, a) && InOrder(t, b)
    ensures a == b
  {
    hide Sorted;
    OneOrder(a, b);
  }
}
