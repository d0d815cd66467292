/**
 Chats, messages, files and the event log they are written together with
 (client_backend/internal/store/store.go). Every mutation is one transaction
 that changes the tables and appends its event; the log folded from the start
 gives the tables back in every state a run can reach.
 */
module ChatLog {
  import opened Common

  const LIFETIME: int := 10 * 365 * 24 * 3600

  /** A message body as a reader of its JSON sees it. */
  datatype Body = Text(text: string) | Other(json: string)

  /**
   What the library code does: reading a body, the rewriting a body goes through
   when it is marshalled inside an event, folding into one line, case folding.
   */
  datatype Formats = Formats(
    parse: string -> Body,
    compact: string -> string,
    line: string -> string,
    fold: string -> string)

  /** Marshalling may respell a body but never changes what it reads as. */
  ghost predicate Lawful(f: Formats) {
    forall s :: f.parse(f.compact(s)) == f.parse(s)
  }

  datatype Chat = Chat(id: string, name: string, createdAt: int, createdBy: string, preview: string, lastActivity: int)

  datatype ChatRow = ChatRow(name: string, folded: string, createdAt: int, createdBy: string,
                             lastActivity: int, preview: string)

  datatype Attachment = Attachment(fileId: string, name: string, size: int, mime: string, expiresAt: int)

  datatype FileRow = FileRow(name: string, size: int, mime: string, createdAt: int, expiresAt: int,
                             uploaded: bool, boundTo: Option<string>)

  datatype Message<B> = Message(id: string, seqNo: int, chatId: string, author: string, authorLabel: string,
                                clientId: string, sentAt: int, body: B, attachment: Option<Attachment>)

  datatype MessageRow = MessageRow(seqNo: int, chatId: string, author: string, authorLabel: string,
                                   clientId: string, sentAt: int, body: string, file: Option<string>)

  datatype Payload =
    | ChatCreated(chat: Chat)
    | ChatUpdated(chat: Chat)
    | MessageNew(msg: Message<string>)

  datatype Event = Event(seqNo: int, payload: Payload)

  datatype Error = NameTaken | ChatNotFound | FileNotFound | FileNotReady | FileTaken | Constraint

  datatype Reply<A> = Ok(answer: A) | Err(error: Error)

  datatype Tables = Tables(
    chats: map<string, ChatRow>,
    messages: map<string, MessageRow>,
    files: map<string, FileRow>,
    events: seq<Event>)

  // ---- what the log says and what the tables say ----

  /** What somebody who follows the log knows. */
  datatype World = World(chats: map<string, Chat>, messages: map<string, Message<Body>>)

  function Parsed(f: Formats, m: Message<string>): Message<Body> {
    Message(m.id, m.seqNo, m.chatId, m.author, m.authorLabel, m.clientId, m.sentAt, f.parse(m.body), m.attachment)
  }

  /** The preview of a body already read: its text on one line, or else the file's name. */
  function Preview(f: Formats, body: Body, fileName: string): string {
    if body.Text? && f.line(body.text) != "" then f.line(body.text) else f.line(fileName)
  }

  /** A preview is empty only when there is nothing to show: a text that has a line comes first, a file's name second. */
  lemma PreviewShowsWhatThereIs(f: Formats, body: Body, fileName: string)
    ensures Preview(f, body, fileName) == "" <==> f.line(fileName) == "" && (body.Text? ==> f.line(body.text) == "")
    ensures body.Text? && f.line(body.text) != "" ==> forall other :: Preview(f, body, other) == f.line(body.text)
  {
  }

  function AttachedName(a: Option<Attachment>): string {
    if a.Some? then a.value.name else ""
  }

  function Apply(f: Formats, w: World, e: Payload): World {
    match e
    case ChatCreated(c) => w.(chats := w.chats[c.id := c])
    case ChatUpdated(c) => w.(chats := w.chats[c.id := c])
    case MessageNew(m) =>
      World(if m.chatId in w.chats
            then w.chats[m.chatId := w.chats[m.chatId].(preview := Preview(f, f.parse(m.body), AttachedName(m.attachment)),
                                                        lastActivity := m.sentAt)]
            else w.chats,
            w.messages[m.id := Parsed(f, m)])
  }

  function Fold(f: Formats, events: seq<Event>): World {
    if events == [] then World(map[], map[])
    else Apply(f, Fold(f, events[..|events| - 1]), events[|events| - 1].payload)
  }

  function Card(id: string, r: ChatRow): Chat {
    Chat(id, r.name, r.createdAt, r.createdBy, r.preview, r.lastActivity)
  }

  function AttachmentOf(id: string, r: FileRow): Attachment {
    Attachment(id, r.name, r.size, r.mime, r.expiresAt)
  }

  /** A message row joined with its file. */
  function Joined(files: map<string, FileRow>, id: string, r: MessageRow): Message<string> {
    Message(id, r.seqNo, r.chatId, r.author, r.authorLabel, r.clientId, r.sentAt, r.body,
            if r.file.Some? && r.file.value in files then Some(AttachmentOf(r.file.value, files[r.file.value])) else None)
  }

  function View(f: Formats, t: Tables): World {
    World(map id | id in t.chats :: Card(id, t.chats[id]),
          map id | id in t.messages :: Parsed(f, Joined(t.files, id, t.messages[id])))
  }

  // ---- what a reader is told, field by field ----

  predicate Says<B(==)>(m: Message<B>, id: string, seqNo: int, chatId: string, author: string, authorLabel: string,
                    clientId: string, sentAt: int, body: B) {
    && m.id == id && m.seqNo == seqNo && m.chatId == chatId && m.author == author && m.authorLabel == authorLabel
    && m.clientId == clientId && m.sentAt == sentAt && m.body == body
  }

  /** A message shows the row of the file it came with, and no file when it came with none. */
  predicate Shows(a: Option<Attachment>, file: Option<string>, files: map<string, FileRow>) {
    && (a.Some? <==> file.Some? && file.value in files)
    && (a.Some? ==> a.value.fileId == file.value && a.value.name == files[file.value].name && a.value.size == files[file.value].size
                    && a.value.mime == files[file.value].mime && a.value.expiresAt == files[file.value].expiresAt)
  }

  predicate ChatSays(c: Chat, id: string, name: string, createdAt: int, createdBy: string, preview: string, lastActivity: int) {
    && c.id == id && c.name == name && c.createdAt == createdAt && c.createdBy == createdBy
    && c.preview == preview && c.lastActivity == lastActivity
  }

  ghost predicate TellsChats(w: World, t: Tables) {
    && w.chats.Keys == t.chats.Keys
    && (forall c :: c in t.chats ==>
          var r := t.chats[c]; ChatSays(w.chats[c], c, r.name, r.createdAt, r.createdBy, r.preview, r.lastActivity))
  }

  ghost predicate TellsMessages(f: Formats, w: World, t: Tables) {
    && w.messages.Keys == t.messages.Keys
    && (forall m :: m in t.messages ==>
          var r := t.messages[m];
          && Says(w.messages[m], m, r.seqNo, r.chatId, r.author, r.authorLabel, r.clientId, r.sentAt, f.parse(r.body))
          && Shows(w.messages[m].attachment, r.file, t.files))
  }

  /** In every reachable state, whoever folds the log knows every chat and message, each field as its row has it. */
  lemma LogTellsEverything(f: Formats, t: Tables)
    requires Sound(f, t)
    ensures TellsChats(Fold(f, t.events), t) && TellsMessages(f, Fold(f, t.events), t)
  {
    hide NamesUnique, OncePerSendKey, FilesBound, Numbered, InChats, Fold;
  }

  /** What a first send leaves: a message, its event and its row saying what was sent, the chat touched, the file bound. */
  ghost predicate SentFirst(f: Formats, before: Tables, after: Tables, id: string, chatId: string, clientId: string,
                            author: string, authorLabel: string, body: string, file: Option<string>, now: int,
                            it: Message<string>, event: Event) {
    && Says(it, id, |before.events| + 1, chatId, author, authorLabel, clientId, now, body)
    && Shows(it.attachment, file, before.files)
    && after.events == before.events + [event]
    && event.seqNo == |before.events| + 1 && event.payload.MessageNew?
    && Says(event.payload.msg, id, event.seqNo, chatId, author, authorLabel, clientId, now, f.compact(body))
    && event.payload.msg.attachment == it.attachment
    && after.messages.Keys == before.messages.Keys + {id}
    && (forall m :: m in before.messages && m != id ==> after.messages[m] == before.messages[m])
    && Stores(after.messages[id], it, file)
    && chatId in before.chats
    && after.chats == before.chats[chatId := before.chats[chatId].(lastActivity := now, preview :=
         if f.parse(body).Text? && f.line(f.parse(body).text) != "" then f.line(f.parse(body).text)
         else f.line(if it.attachment.Some? then it.attachment.value.name else ""))]
    && (file.None? ==> after.files == before.files)
    && (file.Some? ==> file.value in before.files
                       && after.files == before.files[file.value := before.files[file.value].(boundTo := Some(id))])
  }

  predicate Stores(r: MessageRow, m: Message<string>, file: Option<string>) {
    && r.seqNo == m.seqNo && r.chatId == m.chatId && r.author == m.author && r.authorLabel == m.authorLabel
    && r.clientId == m.clientId && r.sentAt == m.sentAt && r.body == m.body && r.file == file
  }

  lemma SentIsFirst(f: Formats, t: Tables, id: string, row: MessageRow)
    requires row.chatId in t.chats && (row.file.Some? ==> row.file.value in t.files) && row.seqNo == |t.events| + 1
    requires id !in t.messages
    ensures var after := Sent(f, t, id, row);
            |after.events| == |t.events| + 1 &&
            SentFirst(f, t, after, id, row.chatId, row.clientId, row.author, row.authorLabel, row.body, row.file, row.sentAt,
                      Joined(t.files, id, row), after.events[|t.events|])
  {
  }

  // ---- what every reachable state keeps ----

  ghost predicate NamesUnique(f: Formats, chats: map<string, ChatRow>) {
    && (forall c :: c in chats ==> chats[c].folded == f.fold(chats[c].name))
    && (forall c, d :: c in chats && d in chats && chats[c].folded == chats[d].folded ==> c == d)
  }

  predicate SameSendKey(a: MessageRow, b: MessageRow) {
    a.author == b.author && a.clientId == b.clientId
  }

  ghost predicate OncePerSendKey(messages: map<string, MessageRow>) {
    forall m, n :: m in messages && n in messages && SameSendKey(messages[m], messages[n]) ==> m == n
  }

  /** A message's file is there, uploaded and bound to it; a bound file is the file of that message. */
  ghost predicate FilesBound(messages: map<string, MessageRow>, files: map<string, FileRow>) {
    && (forall m :: m in messages && messages[m].file.Some? ==>
          && messages[m].file.value in files
          && files[messages[m].file.value].uploaded
          && files[messages[m].file.value].boundTo == Some(m))
    && (forall x :: x in files && files[x].boundTo.Some? ==>
          files[x].boundTo.value in messages && messages[files[x].boundTo.value].file == Some(x))
  }

  /** Sequence numbers count from one with no hole; a message carries its event's, and its event is there once. */
  ghost predicate Numbered(messages: map<string, MessageRow>, events: seq<Event>) {
    && (forall i :: 0 <= i < |events| ==> events[i].seqNo == i + 1)
    && (forall m :: m in messages ==> InLog(events, m, messages[m].seqNo))
    && (forall i :: 0 <= i < |events| ==> InTable(messages, events[i].payload, i + 1))
  }

  predicate InLog(events: seq<Event>, m: string, seqNo: int) {
    && 1 <= seqNo <= |events|
    && events[seqNo - 1].payload.MessageNew?
    && events[seqNo - 1].payload.msg.id == m
  }

  predicate InTable(messages: map<string, MessageRow>, p: Payload, seqNo: int) {
    p.MessageNew? ==> p.msg.id in messages && messages[p.msg.id].seqNo == seqNo
  }

  lemma NumberedOneMore(messages: map<string, MessageRow>, events: seq<Event>, e: Event, id: string, row: MessageRow)
    requires Numbered(messages, events) && e.seqNo == |events| + 1
    ensures !e.payload.MessageNew? ==> Numbered(messages, events + [e])
    ensures e.payload.MessageNew? && e.payload.msg.id == id && row.seqNo == e.seqNo && id !in messages ==>
              Numbered(messages[id := row], events + [e])
  {
    forall m | m in messages
      ensures InLog(events + [e], m, messages[m].seqNo)
    {
      assert InLog(events, m, messages[m].seqNo);
    }
    forall i | 0 <= i < |events|
      ensures InTable(messages, (events + [e])[i].payload, i + 1)
    {
      assert InTable(messages, events[i].payload, i + 1);
    }
  }

  ghost predicate InChats(chats: map<string, ChatRow>, messages: map<string, MessageRow>) {
    forall m :: m in messages ==> messages[m].chatId in chats
  }

  ghost predicate Sound(f: Formats, t: Tables) {
    && NamesUnique(f, t.chats)
    && OncePerSendKey(t.messages)
    && FilesBound(t.messages, t.files)
    && Numbered(t.messages, t.events)
    && InChats(t.chats, t.messages)
    && Fold(f, t.events) == View(f, t)
  }

  /** One message per file: two rows with the same file are the same row. */
  lemma FileBoundOnce(f: Formats, t: Tables, m: string, n: string)
    requires Sound(f, t)
    requires m in t.messages && n in t.messages && t.messages[m].file.Some?
    requires t.messages[m].file == t.messages[n].file
    ensures m == n
  {
    assert t.files[t.messages[m].file.value].boundTo == Some(m);
    assert t.files[t.messages[n].file.value].boundTo == Some(n);
  }

  /** One message per person and send key. */
  lemma OneMessagePerSendKey(f: Formats, t: Tables, m: string, n: string, author: string, clientId: string)
    requires Sound(f, t) && Repeats(t.messages, m, author, clientId) && Repeats(t.messages, n, author, clientId)
    ensures m == n
  {
    hide Fold, View;
    assert SameSendKey(t.messages[m], t.messages[n]);
  }

  /** Two messages never share a sequence number. */
  lemma SeqNoIdentifies(f: Formats, t: Tables, m: string, n: string)
    requires Sound(f, t) && m in t.messages && n in t.messages && t.messages[m].seqNo == t.messages[n].seqNo
    ensures m == n
  {
    assert InLog(t.events, m, t.messages[m].seqNo) && InLog(t.events, n, t.messages[n].seqNo);
  }

  /**
   Nothing written is ever taken back: the log only grows, chats stay, and every
   message reads as it did, its attachment included.
   */
  ghost predicate Extends(before: Tables, after: Tables) {
    && before.events <= after.events
    && before.chats.Keys <= after.chats.Keys
    && (forall m :: m in before.messages ==>
          m in after.messages && Joined(after.files, m, after.messages[m]) == Joined(before.files, m, before.messages[m])
          && after.messages[m] == before.messages[m])
  }

  lemma ExtendsItself(t: Tables)
    ensures Extends(t, t)
  {
  }

  lemma ExtendsOn(a: Tables, b: Tables, c: Tables)
    requires Extends(a, b) && Extends(b, c)
    ensures Extends(a, c)
  {
  }

  lemma FoldAppend(f: Formats, events: seq<Event>, e: Event)
    ensures Fold(f, events + [e]) == Apply(f, Fold(f, events), e.payload)
  {
    assert (events + [e])[..|events + [e]| - 1] == events;
  }

  /** Writing a chat card beside its event keeps the fold. */
  lemma CardKeepsFold(f: Formats, t: Tables, id: string, row: ChatRow, e: Event)
    requires Fold(f, t.events) == View(f, t)
    requires e.payload == ChatCreated(Card(id, row)) || e.payload == ChatUpdated(Card(id, row))
    ensures var after := t.(chats := t.chats[id := row], events := t.events + [e]);
            Fold(f, after.events) == View(f, after)
  {
    var after := t.(chats := t.chats[id := row], events := t.events + [e]);
    FoldAppend(f, t.events, e);
    assert View(f, t).chats[id := Card(id, row)] == View(f, after).chats;
    assert View(f, t).messages == View(f, after).messages;
  }

  lemma CardKeeps(f: Formats, t: Tables, id: string, row: ChatRow, e: Event)
    requires Sound(f, t)
    requires row.folded == f.fold(row.name)
    requires forall c :: c in t.chats && c != id ==> t.chats[c].folded != row.folded
    requires e.payload == ChatCreated(Card(id, row)) || e.payload == ChatUpdated(Card(id, row))
    requires e.seqNo == |t.events| + 1
    ensures var after := t.(chats := t.chats[id := row], events := t.events + [e]);
            Sound(f, after) && Extends(t, after)
  {
    CardKeepsFold(f, t, id, row, e);
    NumberedOneMore(t.messages, t.events, e, "", MessageRow(0, "", "", "", "", 0, "", None));
    CardExtends(t, id, row, e);
    assert NamesUnique(f, t.chats[id := row]);
    hide Fold, View, Numbered, NamesUnique, OncePerSendKey, FilesBound, Extends;
  }

  lemma CardExtends(t: Tables, id: string, row: ChatRow, e: Event)
    ensures Extends(t, t.(chats := t.chats[id := row], events := t.events + [e]))
  {
  }

  /** The tables after a message: its row, its file bound, its chat touched, its event. */
  function Sent(f: Formats, t: Tables, id: string, row: MessageRow): Tables
    requires row.chatId in t.chats
    requires row.file.Some? ==> row.file.value in t.files
  {
    var att := Joined(t.files, id, row).attachment;
    Tables(
      t.chats[row.chatId := t.chats[row.chatId].(lastActivity := row.sentAt,
                                                 preview := Preview(f, f.parse(row.body), AttachedName(att)))],
      t.messages[id := row],
      if row.file.Some? then t.files[row.file.value := t.files[row.file.value].(boundTo := Some(id))] else t.files,
      t.events + [Event(row.seqNo, MessageNew(Joined(t.files, id, row).(body := f.compact(row.body))))])
  }

  /** Binding a file changes nothing a message shows. */
  lemma SameJoined(f: Formats, t: Tables, id: string, row: MessageRow, m: string, r: MessageRow)
    requires row.chatId in t.chats && (row.file.Some? ==> row.file.value in t.files)
    ensures Joined(Sent(f, t, id, row).files, m, r) == Joined(t.files, m, r)
  {
  }

  lemma SentMessages(f: Formats, t: Tables, id: string, row: MessageRow)
    requires row.chatId in t.chats && (row.file.Some? ==> row.file.value in t.files)
    ensures View(f, Sent(f, t, id, row)).messages == View(f, t).messages[id := Parsed(f, Joined(t.files, id, row))]
  {
    var after := Sent(f, t, id, row);
    forall m | m in after.messages
      ensures Joined(after.files, m, after.messages[m]) == Joined(t.files, m, after.messages[m])
    {
      SameJoined(f, t, id, row, m, after.messages[m]);
    }
    hide Joined, Parsed;
  }

  lemma SentKeepsFold(f: Formats, t: Tables, id: string, row: MessageRow)
    requires Lawful(f) && Fold(f, t.events) == View(f, t)
    requires row.chatId in t.chats && (row.file.Some? ==> row.file.value in t.files)
    ensures var after := Sent(f, t, id, row); Fold(f, after.events) == View(f, after)
  {
    var after := Sent(f, t, id, row);
    var e := after.events[|t.events|];
    FoldAppend(f, t.events, e);
    var w := Apply(f, View(f, t), e.payload);
    assert f.parse(f.compact(row.body)) == f.parse(row.body);
    assert Parsed(f, e.payload.msg) == Parsed(f, Joined(t.files, id, row));
    SentMessages(f, t, id, row);
    assert w.messages == View(f, after).messages;
    assert w.chats == View(f, after).chats;
  }

  lemma SentBinds(f: Formats, t: Tables, id: string, row: MessageRow)
    requires FilesBound(t.messages, t.files)
    requires id !in t.messages && row.chatId in t.chats
    requires row.file.Some? ==> row.file.value in t.files && t.files[row.file.value].uploaded
                                && t.files[row.file.value].boundTo.None?
    ensures FilesBound(Sent(f, t, id, row).messages, Sent(f, t, id, row).files)
  {
  }

  lemma SentExtends(f: Formats, t: Tables, id: string, row: MessageRow)
    requires row.chatId in t.chats && (row.file.Some? ==> row.file.value in t.files) && id !in t.messages
    ensures Extends(t, Sent(f, t, id, row))
  {
    forall m | m in t.messages
      ensures Joined(Sent(f, t, id, row).files, m, t.messages[m]) == Joined(t.files, m, t.messages[m])
    {
      SameJoined(f, t, id, row, m, t.messages[m]);
    }
    hide Joined;
  }

  lemma SentNames(f: Formats, t: Tables, id: string, row: MessageRow)
    requires NamesUnique(f, t.chats) && row.chatId in t.chats && (row.file.Some? ==> row.file.value in t.files)
    ensures NamesUnique(f, Sent(f, t, id, row).chats)
  {
  }

  lemma SentRows(f: Formats, t: Tables, id: string, row: MessageRow)
    requires OncePerSendKey(t.messages) && Numbered(t.messages, t.events) && InChats(t.chats, t.messages)
    requires id !in t.messages && row.chatId in t.chats && row.seqNo == |t.events| + 1
    requires row.file.Some? ==> row.file.value in t.files
    requires forall m :: !Repeats(t.messages, m, row.author, row.clientId)
    ensures var after := Sent(f, t, id, row);
            OncePerSendKey(after.messages) && Numbered(after.messages, after.events) && InChats(after.chats, after.messages)
  {
    var after := Sent(f, t, id, row);
    assert after.messages == t.messages[id := row];
    NumberedOneMore(t.messages, t.events, after.events[|t.events|], id, row);
    assert InChats(after.chats, after.messages);
    hide Numbered, InChats;
    forall m | m in t.messages
      ensures !SameSendKey(t.messages[m], row)
    {
      assert !Repeats(t.messages, m, row.author, row.clientId);
    }
  }

  lemma SentKeeps(f: Formats, t: Tables, id: string, row: MessageRow)
    requires Lawful(f) && Sound(f, t)
    requires id !in t.messages && row.chatId in t.chats && row.seqNo == |t.events| + 1
    requires forall m :: !Repeats(t.messages, m, row.author, row.clientId)
    requires row.file.Some? ==> row.file.value in t.files && t.files[row.file.value].uploaded
                                && t.files[row.file.value].boundTo.None?
    ensures Sound(f, Sent(f, t, id, row))
    ensures Extends(t, Sent(f, t, id, row))
  {
    hide Fold, View, FilesBound, Extends, Joined, NamesUnique, OncePerSendKey, Numbered, InChats, Sent, Repeats;
    SentKeepsFold(f, t, id, row);
    SentBinds(f, t, id, row);
    SentExtends(f, t, id, row);
    SentRows(f, t, id, row);
    SentNames(f, t, id, row);
  }

  /** The same bound files: the rows of the others may come, change and go. */
  ghost predicate SameBound(files: map<string, FileRow>, after: map<string, FileRow>) {
    && (forall x :: x in files && files[x].boundTo.Some? ==> x in after && after[x] == files[x])
    && (forall x :: x in after && after[x].boundTo.Some? ==> x in files && after[x] == files[x])
  }

  lemma SameBoundShows(t: Tables, files: map<string, FileRow>, m: string)
    requires FilesBound(t.messages, t.files) && SameBound(t.files, files) && m in t.messages
    ensures Joined(files, m, t.messages[m]) == Joined(t.files, m, t.messages[m])
  {
  }

  lemma SameBoundView(f: Formats, t: Tables, files: map<string, FileRow>)
    requires FilesBound(t.messages, t.files) && SameBound(t.files, files)
    ensures View(f, t.(files := files)) == View(f, t) && Extends(t, t.(files := files))
  {
    forall m | m in t.messages
      ensures Joined(files, m, t.messages[m]) == Joined(t.files, m, t.messages[m])
    {
      SameBoundShows(t, files, m);
    }
    hide Joined, Parsed, SameBound, FilesBound;
    assert View(f, t.(files := files)).messages == View(f, t).messages;
  }

  lemma FilesKeep(f: Formats, t: Tables, files: map<string, FileRow>)
    requires Sound(f, t) && SameBound(t.files, files)
    ensures Sound(f, t.(files := files)) && Extends(t, t.(files := files))
  {
    SameBoundView(f, t, files);
    assert FilesBound(t.messages, files);
    hide Fold, View, Joined, Extends, NamesUnique, OncePerSendKey, FilesBound, Numbered, InChats;
  }

  lemma DropKeeps(f: Formats, t: Tables, x: string)
    requires Sound(f, t) && !Bound(t.messages, x)
    ensures Sound(f, t.(files := t.files - {x})) && Extends(t, t.(files := t.files - {x}))
  {
    assert x in t.files && t.files[x].boundTo.Some? ==> Bound(t.messages, x);
    FilesKeep(f, t, t.files - {x});
  }

  datatype Op =
    | OpCreate(chatId: string, name: string, creator: string, now: int, minted: string)
    | OpRename(chatId: string, name: string)
    | OpSend(chatId: string, clientId: string, author: string, authorLabel: string, body: string,
             fileId: string, now: int, minted: string)
    | OpUpload(name: string, size: int, mime: string, now: int, minted: string)
    | OpUploaded(fileId: string)
    | OpDelete(ids: seq<string>)

  datatype Written<A> = Written(it: A, event: Option<Event>)

  class Store {
    const formats: Formats
    var chats: map<string, ChatRow>
    var messages: map<string, MessageRow>
    var files: map<string, FileRow>
    var events: seq<Event>

    constructor (f: Formats)
      requires Lawful(f)
      ensures Valid() && State() == Tables(map[], map[], map[], [])
    {
      formats := f;
      chats, messages, files, events := map[], map[], map[], [];
    }

    function State(): Tables
      reads this
    {
      Tables(chats, messages, files, events)
    }

    ghost predicate Valid()
      reads this
    {
      Lawful(formats) && Sound(formats, State())
    }

    /**
     Creates a chat, unless one with that id is there: then it comes back as it is
     now and nothing is written. The id is looked up before the name is checked.
     */
    method CreateChat(chatId: string, name: string, creator: string, now: int, minted: string)
      returns (r: Reply<Written<Chat>>)
      requires Valid() && minted != ""
      modifies this`chats, this`events
      ensures Valid() && Extends(old(State()), State())
      ensures var id := if chatId == "" then minted else chatId;
        if chatId != "" && chatId in old(chats) then
          && r.Ok? && r.answer.event.None? && State() == old(State())
          && var row := old(chats)[chatId];
             ChatSays(r.answer.it, chatId, row.name, row.createdAt, row.createdBy, row.preview, row.lastActivity)
        else if exists c :: c in old(chats) && old(chats)[c].folded == formats.fold(name) then
          r == Err(NameTaken) && State() == old(State())
        else if id in old(chats) || name == "" || formats.fold(name) == "" then
          r == Err(Constraint) && State() == old(State())
        else
          && r.Ok? && ChatSays(r.answer.it, id, name, now, creator, "", now)
          && events == old(events) + [Event(|old(events)| + 1, ChatCreated(r.answer.it))]
          && r.answer.event == Some(events[|old(events)|])
          && chats == old(chats)[id := ChatRow(name, formats.fold(name), now, creator, now, "")]
    {
      hide Sound, Extends;
      ExtendsItself(State());
      if chatId != "" && chatId in chats {
        return Ok(Written(Card(chatId, chats[chatId]), None));
      }
      var folded := formats.fold(name);
      if exists c :: c in chats && chats[c].folded == folded {
        return Err(NameTaken);
      }
      var id := if chatId == "" then minted else chatId;
      if id in chats || name == "" || folded == "" {
        return Err(Constraint);
      }
      var row := ChatRow(name, folded, now, creator, now, "");
      var e := Event(|events| + 1, ChatCreated(Card(id, row)));
      CardKeeps(formats, State(), id, row, e);
      chats := chats[id := row];
      events := events + [e];
      r := Ok(Written(Card(id, row), Some(e)));
    }

    /** Renames a chat; the stored name again is no change, and renaming is not activity. */
    method RenameChat(chatId: string, name: string) returns (r: Reply<Written<Chat>>)
      requires Valid()
      modifies this`chats, this`events
      ensures Valid() && Extends(old(State()), State())
      ensures
        if chatId !in old(chats) then r == Err(ChatNotFound) && State() == old(State())
        else if old(chats)[chatId].name == name then
          && r.Ok? && r.answer.event.None? && State() == old(State())
          && var row := old(chats)[chatId];
             ChatSays(r.answer.it, chatId, name, row.createdAt, row.createdBy, row.preview, row.lastActivity)
        else if exists c :: c in old(chats) && c != chatId && old(chats)[c].folded == formats.fold(name) then
          r == Err(NameTaken) && State() == old(State())
        else if name == "" || formats.fold(name) == "" then r == Err(Constraint) && State() == old(State())
        else
          var row := old(chats)[chatId];
          && r.Ok? && ChatSays(r.answer.it, chatId, name, row.createdAt, row.createdBy, row.preview, row.lastActivity)
          && events == old(events) + [Event(|old(events)| + 1, ChatUpdated(r.answer.it))]
          && r.answer.event == Some(events[|old(events)|])
          && chats == old(chats)[chatId := row.(name := name, folded := formats.fold(name))]
    {
      hide Sound, Extends;
      ExtendsItself(State());
      if chatId !in chats {
        return Err(ChatNotFound);
      }
      if chats[chatId].name == name {
        return Ok(Written(Card(chatId, chats[chatId]), None));
      }
      var folded := formats.fold(name);
      if exists c :: c in chats && c != chatId && chats[c].folded == folded {
        return Err(NameTaken);
      }
      if name == "" || folded == "" {
        return Err(Constraint);
      }
      var row := chats[chatId].(name := name, folded := folded);
      var e := Event(|events| + 1, ChatUpdated(Card(chatId, row)));
      CardKeeps(formats, State(), chatId, row, e);
      chats := chats[chatId := row];
      events := events + [e];
      r := Ok(Written(Card(chatId, row), Some(e)));
    }

    /** Whether a file may go with a new message. */
    method CheckFile(fileId: string) returns (e: Option<Error>)
      ensures e == FileRefusal(files, fileId)
    {
      e := None;
      if fileId != "" {
        if fileId !in files {
          e := Some(FileNotFound);
        } else if !files[fileId].uploaded {
          e := Some(FileNotReady);
        } else if files[fileId].boundTo.Some? {
          e := Some(FileTaken);
        }
      }
    }

    /**
     Sends a message: the event, the row, the file's binding and the chat's preview
     in one transaction. The same send key from the same person again answers the
     message as it was stored and writes nothing.
     */
    method SendMessage(chatId: string, clientId: string, author: string, authorLabel: string, body: string,
                       fileId: string, now: int, minted: string)
      returns (r: Reply<Written<Message<string>>>)
      requires Valid()
      modifies this
      ensures Valid() && Extends(old(State()), State())
      ensures r.Ok? ==> Repeats(messages, r.answer.it.id, author, clientId)
                        && r.answer.it == Joined(files, r.answer.it.id, messages[r.answer.it.id])
      ensures r.Ok? ==> r.answer.it.author == author && r.answer.it.clientId == clientId
      ensures (exists m :: m in old(messages) && old(messages)[m].author == author && old(messages)[m].clientId == clientId) ==>
        && State() == old(State()) && r.Ok? && r.answer.event.None?
        && r.answer.it.id in messages
        && var row := messages[r.answer.it.id];
           && Says(r.answer.it, r.answer.it.id, row.seqNo, row.chatId, author, row.authorLabel, clientId, row.sentAt, row.body)
           && Shows(r.answer.it.attachment, row.file, files)
      ensures (forall m :: m in old(messages) ==> old(messages)[m].author != author || old(messages)[m].clientId != clientId) ==>
        if chatId !in old(chats) then r == Err(ChatNotFound) && State() == old(State())
        else if fileId != "" && fileId !in old(files) then r == Err(FileNotFound) && State() == old(State())
        else if fileId != "" && !old(files)[fileId].uploaded then r == Err(FileNotReady) && State() == old(State())
        else if fileId != "" && old(files)[fileId].boundTo.Some? then r == Err(FileTaken) && State() == old(State())
        else if minted in old(messages) then r == Err(Constraint) && State() == old(State())
        else
          && r.Ok? && r.answer.event.Some?
          && SentFirst(formats, old(State()), State(), minted, chatId, clientId, author, authorLabel, body,
                       if fileId == "" then None else Some(fileId), now, r.answer.it, r.answer.event.value)
    {
      hide Sound, Extends;
      ExtendsItself(State());
      if m :| m in messages && Repeats(messages, m, author, clientId) {
        return Ok(Written(Joined(files, m, messages[m]), None));
      }
      if chatId !in chats {
        return Err(ChatNotFound);
      }
      var refusal := CheckFile(fileId);
      if refusal.Some? {
        return Err(refusal.value);
      }
      if minted in messages {
        return Err(Constraint);
      }
      var row := MessageRow(|events| + 1, chatId, author, authorLabel, clientId, now, body,
                            if fileId == "" then None else Some(fileId));
      SentKeeps(formats, State(), minted, row);
      SameJoined(formats, State(), minted, row, minted, row);
      SentIsFirst(formats, State(), minted, row);
      hide Sent, SentFirst;
      r := Insert(minted, row);
    }

    /** The statements of a send nothing stands against. */
    method Insert(id: string, row: MessageRow) returns (r: Reply<Written<Message<string>>>)
      requires row.chatId in chats && (row.file.Some? ==> row.file.value in files)
      modifies this
      ensures State() == Sent(formats, old(State()), id, row)
      ensures r == Ok(Written(Joined(old(files), id, row), Some(events[|old(events)|])))
    {
      var msg := Joined(files, id, row);
      var e := Event(row.seqNo, MessageNew(msg.(body := formats.compact(row.body))));
      events := events + [e];
      messages := messages[id := row];
      if row.file.Some? {
        files := files[row.file.value := files[row.file.value].(boundTo := Some(id))];
      }
      chats := chats[row.chatId := chats[row.chatId].(lastActivity := row.sentAt,
        preview := Preview(formats, formats.parse(row.body), AttachedName(msg.attachment)))];
      r := Ok(Written(msg, Some(e)));
    }

    /** Registers a declared upload. */
    method CreateUpload(name: string, size: int, mime: string, now: int, minted: string) returns (r: Reply<Attachment>)
      requires Valid()
      modifies this`files
      ensures Valid() && Extends(old(State()), State())
      ensures if minted in old(files) || name == "" || size <= 0 || mime == ""
        then r == Err(Constraint) && files == old(files)
        else files == old(files)[minted := FileRow(name, size, mime, now, now + LIFETIME, false, None)]
             && r == Ok(Attachment(minted, name, size, mime, now + LIFETIME))
    {
      if minted in files || name == "" || size <= 0 || mime == "" {
        return Err(Constraint);
      }
      var after := files[minted := FileRow(name, size, mime, now, now + LIFETIME, false, None)];
      FilesKeep(formats, State(), after);
      files := after;
      r := Ok(AttachmentOf(minted, files[minted]));
    }

    /** Marks a file whose bytes are in place; one already marked is not found. */
    method MarkUploaded(fileId: string) returns (ok: bool)
      requires Valid()
      modifies this`files
      ensures Valid() && Extends(old(State()), State())
      ensures ok <==> fileId in old(files) && !old(files)[fileId].uploaded
      ensures files == if ok then old(files)[fileId := old(files)[fileId].(uploaded := true)] else old(files)
    {
      ok := fileId in files && !files[fileId].uploaded;
      if ok {
        assert files[fileId].boundTo.None?;
        var after := files[fileId := files[fileId].(uploaded := true)];
        FilesKeep(formats, State(), after);
        files := after;
      }
    }

    /**
     Deletes file rows one statement at a time. A row some message has is held by
     its foreign key: the deletion stops there, and the rows before it are gone.
     */
    method DeleteFiles(ids: seq<string>) returns (gone: nat)
      requires Valid()
      modifies this`files
      ensures Valid() && Extends(old(State()), State())
      ensures gone <= |ids|
      ensures forall j :: 0 <= j < gone ==> !Bound(messages, ids[j])
      ensures gone < |ids| ==> Bound(messages, ids[gone])
      ensures files == old(files) - (set x | x in ids[..gone])
    {
      hide Sound, Extends;
      ExtendsItself(State());
      gone := 0;
      while gone < |ids| && !Bound(messages, ids[gone])
        invariant gone <= |ids|
        invariant forall j :: 0 <= j < gone ==> !Bound(messages, ids[j])
        invariant Valid() && Extends(old(State()), State())
        invariant files == old(files) - (set x | x in ids[..gone])
      {
        DropKeeps(formats, State(), ids[gone]);
        ExtendsOn(old(State()), State(), State().(files := files - {ids[gone]}));
        files := files - {ids[gone]};
        assert ids[..gone + 1] == ids[..gone] + [ids[gone]];
        gone := gone + 1;
      }
    }

    /** Any run of transactions keeps everything and takes nothing back. */
    method AnyRun(ops: seq<Op>)
      requires Valid() && forall i :: 0 <= i < |ops| && ops[i].OpCreate? ==> ops[i].minted != ""
      modifies this
      ensures Valid() && Extends(old(State()), State())
    {
      for i := 0 to |ops|
        invariant Valid() && Extends(old(State()), State())
      {
        match ops[i] {
          case OpCreate(c, n, who, now, minted) => var _ := CreateChat(c, n, who, now, minted);
          case OpRename(c, n) => var _ := RenameChat(c, n);
          case OpSend(c, k, a, l, b, x, now, minted) => var _ := SendMessage(c, k, a, l, b, x, now, minted);
          case OpUpload(n, size, mime, now, minted) => var _ := CreateUpload(n, size, mime, now, minted);
          case OpUploaded(x) => var _ := MarkUploaded(x);
          case OpDelete(ids) => var _ := DeleteFiles(ids);
        }
      }
    }

    /**
     A send repeated with its send key, whatever ran in between and whatever else
     the repeat says, is answered with the message stored first and writes nothing.
     */
    method SendAgain(first: Op, between: seq<Op>, again: Op) returns (a: Reply<Written<Message<string>>>, b: Reply<Written<Message<string>>>)
      requires Valid() && first.OpSend? && again.OpSend?
      requires first.author == again.author && first.clientId == again.clientId
      requires forall i :: 0 <= i < |between| && between[i].OpCreate? ==> between[i].minted != ""
      modifies this
      ensures Valid()
      ensures a.Ok? ==> b.Ok? && b.answer.event.None? && b.answer.it == a.answer.it
    {
      hide Sound, Sent, Joined, Preview, FileRefusal;
      a := SendMessage(first.chatId, first.clientId, first.author, first.authorLabel, first.body, first.fileId, first.now, first.minted);
      ghost var id := if a.Ok? then a.answer.it.id else "";
      AnyRun(between);
      assert a.Ok? ==> Repeats(messages, id, first.author, first.clientId);
      b := SendMessage(again.chatId, again.clientId, again.author, again.authorLabel, again.body, again.fileId, again.now, again.minted);
      if a.Ok? {
        OneMessagePerSendKey(formats, State(), a.answer.it.id, b.answer.it.id, first.author, first.clientId);
      }
    }
  }

  predicate Repeats(messages: map<string, MessageRow>, m: string, author: string, clientId: string) {
    m in messages && messages[m].author == author && messages[m].clientId == clientId
  }

  predicate Bound(messages: map<string, MessageRow>, fileId: string) {
    exists m :: m in messages && messages[m].file == Some(fileId)
  }

  function FileRefusal(files: map<string, FileRow>, fileId: string): Option<Error> {
    if fileId == "" then None
    else if fileId !in files then Some(FileNotFound)
    else if !files[fileId].uploaded then Some(FileNotReady)
    else if files[fileId].boundTo.Some? then Some(FileTaken)
    else None
  }
}
