/**
 The two shapes an event is delivered in (client_backend/internal/server/handlers.go
 eventEnvelope, client_backend/internal/hub/hub.go FrameFor): the author's copy of a
 message keeps its client id, everybody else's omits it. Live delivery and replay
 pick the same frame.
 */
module Envelopes {
  import opened Common
  import opened ChatLog

  /** One event made ready for everybody. */
  datatype Envelope = Envelope(author: string, full: Event, stripped: Event)

  function Bare<B>(m: Message<B>): Message<B> {
    m.(clientId := "")
  }

  function EnvelopeOf(e: Event): Envelope {
    match e.payload
    case MessageNew(m) => Envelope(m.author, e, e.(payload := MessageNew(Bare(m))))
    case _ => Envelope("", e, e)
  }

  function FrameFor(env: Envelope, who: string): Event {
    if env.author != "" && env.author == who then env.full else env.stripped
  }

  /** The frames one recipient gets for a stretch of the log. */
  function FramesFor(events: seq<Event>, who: string): (fs: seq<Event>)
    ensures |fs| == |events|
  {
    seq(|events|, i requires 0 <= i < |events| => FrameFor(EnvelopeOf(events[i]), who))
  }

  /** What a recipient may see of a message: its client id only when it is the recipient's own. */
  function SeenBy<B>(m: Message<B>, who: string): Message<B> {
    if m.author != "" && m.author == who then m else Bare(m)
  }

  function WorldSeenBy(w: World, who: string): World {
    w.(messages := map id | id in w.messages :: SeenBy(w.messages[id], who))
  }

  /** What a recipient may read in place of a message's client id. */
  predicate OwnIdOnly<B(==)>(seen: Message<B>, m: Message<B>, who: string) {
    && (who != "" && who == m.author ==> seen == m)
    && (who == "" || who != m.author ==>
          && seen.clientId == ""
          && seen.id == m.id && seen.seqNo == m.seqNo && seen.chatId == m.chatId && seen.author == m.author
          && seen.authorLabel == m.authorLabel && seen.sentAt == m.sentAt && seen.body == m.body && seen.attachment == m.attachment)
  }

  /** No frame shows a recipient somebody else's client id, and every frame keeps its event's place in the log and all else it says. */
  lemma FrameShowsOwnIdsOnly(e: Event, who: string)
    ensures var fr := FrameFor(EnvelopeOf(e), who);
            && fr.seqNo == e.seqNo
            && (fr.payload.MessageNew? <==> e.payload.MessageNew?)
            && (!e.payload.MessageNew? ==> fr == e)
            && (e.payload.MessageNew? ==> OwnIdOnly(fr.payload.msg, e.payload.msg, who))
  {
  }

  lemma ApplySeen(f: Formats, w: World, e: Event, who: string)
    ensures Apply(f, WorldSeenBy(w, who), FrameFor(EnvelopeOf(e), who).payload) == WorldSeenBy(Apply(f, w, e.payload), who)
  {
    var l := Apply(f, WorldSeenBy(w, who), FrameFor(EnvelopeOf(e), who).payload);
    var r := WorldSeenBy(Apply(f, w, e.payload), who);
    if e.payload.MessageNew? {
      var m := e.payload.msg;
      assert Parsed(f, SeenBy(m, who)) == SeenBy(Parsed(f, m), who);
      hide Parsed, SeenBy, Preview;
      assert l.messages == r.messages;
    }
  }

  /** Folding the frames a recipient gets gives the whole world, other people's client ids left out. */
  lemma {:induction false} FramesFoldToTheWorld(f: Formats, events: seq<Event>, who: string)
    ensures Fold(f, FramesFor(events, who)) == WorldSeenBy(Fold(f, events), who)
  {
    if events == [] {
      assert WorldSeenBy(Fold(f, events), who).messages == map[];
    } else {
      var rest, last := events[..|events| - 1], events[|events| - 1];
      FramesFoldToTheWorld(f, rest, who);
      ApplySeen(f, Fold(f, rest), last, who);
      var frames := FramesFor(events, who);
      assert frames == FramesFor(rest, who) + [FrameFor(EnvelopeOf(last), who)];
      FoldAppend(f, FramesFor(rest, who), FrameFor(EnvelopeOf(last), who));
    }
  }

  /**
   A recipient who has folded every frame knows the tables, in every reachable
   state: every chat as its row has it, and every message too, with the client ids
   of the recipient's own.
   */
  lemma FramesFoldToTheTables(f: Formats, t: Tables, who: string)
    requires Sound(f, t)
    ensures var w := Fold(f, FramesFor(t.events, who));
            && TellsChats(w, t)
            && w.messages.Keys == t.messages.Keys
            && (forall m :: m in t.messages ==>
                  var r := t.messages[m];
                  && Says(w.messages[m], m, r.seqNo, r.chatId, r.author, r.authorLabel,
                          if who != "" && who == r.author then r.clientId else "", r.sentAt, f.parse(r.body))
                  && Shows(w.messages[m].attachment, r.file, t.files))
  {
    FramesFoldToTheWorld(f, t.events, who);
    LogTellsEverything(f, t);
    hide Fold, Sound, FramesFor;
  }
}
