/**
 Delivery of committed events (client_backend/internal/server/server.go
 runDispatcher, client_backend/internal/hub/hub.go Run,
 client_backend/internal/server/handlers.go handleSessionHello,
 client_backend/internal/server/client.go): commits, the dispatcher, the hub and
 any number of connections interleave step by step. Events carry the sequence
 numbers 1, 2, 3, ... the log gives them.
 */
module Delivery {
  import opened Common

  const SUB_BUFFER: nat := 16
  const OUT_BUFFER: nat := 64

  /** What goes out to a device: the greeting's reply, an event, any other frame, the close sentinel. */
  datatype Frame = Reply(cursor: nat) | Event(n: nat) | Note | Bye

  /** How far a connection's greeting is: subscribe, read the cursor, reply, replay, live. */
  datatype Stage =
    | Fresh
    | Subscribed
    | Answering(cursor: nat)
    | Greeted
    | Replaying(next: nat, to: nat)
    | Live
    | Over

  /**
   One connection. `mark` is what its device counts from: the `since` it greeted
   with, or the reply's cursor when it gave none. `taken` is the last event moved
   out of its subscription, or the last one broadcast before it subscribed.
   */
  datatype Conn = Conn(
    since: Option<int>,
    stage: Stage,
    mark: nat,
    taken: nat,
    buffer: seq<nat>,
    out: seq<Frame>,
    wire: seq<Frame>,
    writing: bool,
    cancelled: bool)

  datatype Dispatcher = Idle | Reading | Sending(to: nat)

  /** `owed`: commits whose kick has not been given yet. `fan`: whom the hub has still to serve with event `last`. */
  datatype State = State(
    log: nat,
    owed: nat,
    kick: bool,
    dispatcher: Dispatcher,
    last: nat,
    subs: set<nat>,
    fan: set<nat>,
    conns: map<nat, Conn>)

  datatype Action =
    | Commit
    | Kick
    | Wake
    | ReadLog
    | Broadcast
    | EndBatch
    | FanOut(c: nat)
    | Connect(c: nat, since: Option<int>)
    | Register(c: nat)
    | ReadCursor(c: nat)
    | SendReply(c: nat, lost: bool)
    | ReadReplay(c: nat)
    | SendReplay(c: nat, lost: bool)
    | GoLive(c: nat)
    | Forward(c: nat)
    | StopForward(c: nat)
    | Enqueue(c: nat, f: Frame)
    | Write(c: nat)
    | WriteFails(c: nat)
    | Cancel(c: nat)
    | Unregister(c: nat)

  function Start(log: nat): State {
    State(log, 0, false, Idle, log, {}, {}, map[])
  }

  function Since(c: Conn): nat {
    if c.since.Some? && c.since.value > 0 then c.since.value else 0
  }

  /** A full queue makes the sender wait; once the connection is cancelled a frame may be lost instead. */
  predicate CanSend(c: Conn, lost: bool) {
    if lost then c.cancelled else |c.out| < OUT_BUFFER
  }

  function Send(c: Conn, f: Frame, lost: bool): Conn {
    if lost then c else c.(out := c.out + [f])
  }

  /** A connection's own step; None when it cannot be taken. */
  function Own(s: State, c: Conn, a: Action): Option<Conn> {
    match a
    case ReadCursor(_) =>
      if c.stage == Subscribed
      then Some(c.(stage := Answering(s.log), mark := if c.since.Some? then Since(c) else s.log)) else None
    case SendReply(_, lost) =>
      if c.stage.Answering? && CanSend(c, lost)
      then Some(Send(c, Reply(c.stage.cursor), lost).(stage := Greeted)) else None
    case ReadReplay(_) =>
      if c.stage == Greeted
      then Some(c.(stage := if c.since.Some? then Replaying(Since(c) + 1, s.log) else Live)) else None
    case SendReplay(_, lost) =>
      if c.stage.Replaying? && c.stage.next <= c.stage.to && CanSend(c, lost)
      then Some(Send(c, Event(c.stage.next), lost).(stage := Replaying(c.stage.next + 1, c.stage.to))) else None
    case GoLive(_) =>
      if c.stage.Replaying? && c.stage.next > c.stage.to then Some(c.(stage := Live)) else None
    case Forward(_) =>
      if c.stage != Live || c.buffer == [] then None
      else
        var d := c.(buffer := c.buffer[1..], taken := c.buffer[0]);
        if |c.out| < OUT_BUFFER then Some(d.(out := c.out + [Event(c.buffer[0])])) else Some(d.(stage := Over))
    case StopForward(_) =>
      if c.stage == Live && c.cancelled then Some(c.(stage := Over)) else None
    case Enqueue(_, f) =>
      if !f.Event? && !f.Reply? && |c.out| < OUT_BUFFER then Some(c.(out := c.out + [f])) else None
    case Write(_) =>
      if c.out == [] || !c.writing then None
      else if c.out[0] == Bye || c.cancelled then Some(c.(out := c.out[1..], writing := false))
      else Some(c.(out := c.out[1..], wire := c.wire + [c.out[0]]))
    case WriteFails(_) =>
      if c.out == [] || !c.writing then None else Some(c.(out := c.out[1..], writing := false))
    case Cancel(_) => Some(c.(cancelled := true))
    case _ => None
  }

  /** One step of any of them; a step that cannot be taken changes nothing. */
  function Next(s: State, a: Action): State {
    match a
    case Commit => s.(log := s.log + 1, owed := s.owed + 1)
    case Kick => if s.owed > 0 then s.(owed := s.owed - 1, kick := true) else s
    case Wake => if s.dispatcher == Idle && s.kick then s.(kick := false, dispatcher := Reading) else s
    case ReadLog =>
      if s.dispatcher == Reading then s.(dispatcher := if s.last == s.log then Idle else Sending(s.log)) else s
    case Broadcast =>
      if s.dispatcher.Sending? && s.last < s.dispatcher.to && s.fan == {}
      then s.(last := s.last + 1, fan := s.subs) else s
    case EndBatch =>
      if s.dispatcher.Sending? && s.last == s.dispatcher.to then s.(dispatcher := Reading) else s
    case FanOut(c) =>
      if c !in s.fan || c !in s.conns then s
      else if |s.conns[c].buffer| < SUB_BUFFER
      then s.(fan := s.fan - {c}, conns := s.conns[c := s.conns[c].(buffer := s.conns[c].buffer + [s.last])])
      else s.(fan := s.fan - {c}, subs := s.subs - {c})
    case Connect(c, since) =>
      if c in s.conns then s
      else s.(conns := s.conns[c := Conn(since, Fresh, 0, 0, [], [], [], true, false)])
    case Register(c) =>
      if c in s.conns && s.conns[c].stage == Fresh && s.fan == {}
      then s.(subs := s.subs + {c}, conns := s.conns[c := s.conns[c].(stage := Subscribed, taken := s.last)]) else s
    case Unregister(c) =>
      if s.fan == {} then s.(subs := s.subs - {c}) else s
    case _ =>
      if a.c !in s.conns then s
      else match Own(s, s.conns[a.c], a)
        case Some(after) => s.(conns := s.conns[a.c := after])
        case None => s
  }

  function Run(s: State, actions: seq<Action>): State {
    if actions == [] then s else Next(Run(s, actions[..|actions| - 1]), actions[|actions| - 1])
  }

  // ---- what a device makes of the frames ----

  function Events(frames: seq<Frame>): seq<nat> {
    if frames == [] then []
    else
      var rest, f := Events(frames[..|frames| - 1]), frames[|frames| - 1];
      if f.Event? then rest + [f.n] else rest
  }

  /** The highest event seen, counting from `mark`. */
  function High(mark: nat, ns: seq<nat>): (h: nat)
    ensures h >= mark
  {
    if ns == [] then mark else Max(High(mark, ns[..|ns| - 1]), ns[|ns| - 1])
  }

  /** What is left when every event not above the highest seen so far is dropped. */
  function Dedup(mark: nat, ns: seq<nat>): seq<nat> {
    if ns == [] then []
    else
      var earlier, n := ns[..|ns| - 1], ns[|ns| - 1];
      if n > High(mark, earlier) then Dedup(mark, earlier) + [n] else Dedup(mark, earlier)
  }

  /** No event comes more than one past the highest seen before it. */
  predicate NoJump(mark: nat, ns: seq<nat>) {
    ns == []
    || (NoJump(mark, ns[..|ns| - 1]) && ns[|ns| - 1] <= High(mark, ns[..|ns| - 1]) + 1)
  }

  function Upto(from: nat, to: nat): seq<nat>
    requires from <= to
  {
    seq(to - from, i requires 0 <= i => from + 1 + i)
  }

  /** Without a jump, what is left is the events right after the mark, one after another. */
  lemma {:induction false} NoJumpNoGap(mark: nat, ns: seq<nat>)
    requires NoJump(mark, ns)
    ensures Dedup(mark, ns) == Upto(mark, High(mark, ns))
  {
    if ns != [] {
      NoJumpNoGap(mark, ns[..|ns| - 1]);
    }
  }

  lemma {:induction false} EventsConcat(a: seq<Frame>, b: seq<Frame>)
    ensures Events(a + b) == Events(a) + Events(b)
  {
    if b == [] {
      assert a + b == a;
    } else {
      assert (a + b)[..|a + b| - 1] == a + b[..|b| - 1];
      EventsConcat(a, b[..|b| - 1]);
    }
  }

  lemma {:induction false} NoJumpPrefix(mark: nat, a: seq<nat>, b: seq<nat>)
    requires NoJump(mark, a + b)
    ensures NoJump(mark, a)
  {
    if b == [] {
      assert a + b == a;
    } else {
      assert (a + b)[..|a + b| - 1] == a + b[..|b| - 1];
      NoJumpPrefix(mark, a, b[..|b| - 1]);
    }
  }

  lemma OneMoreFrame(frames: seq<Frame>, f: Frame)
    ensures Events(frames + [f]) == if f.Event? then Events(frames) + [f.n] else Events(frames)
  {
    assert (frames + [f])[..|frames + [f]| - 1] == frames;
  }

  lemma OneMoreEvent(mark: nat, ns: seq<nat>, n: nat)
    ensures High(mark, ns + [n]) == Max(High(mark, ns), n)
    ensures NoJump(mark, ns + [n]) <==> NoJump(mark, ns) && n <= High(mark, ns) + 1
  {
    assert (ns + [n])[..|ns + [n]| - 1] == ns;
  }

  lemma {:induction false} HighPrefix(mark: nat, a: seq<nat>, b: seq<nat>)
    ensures High(mark, a) <= High(mark, a + b)
  {
    if b == [] {
      assert a + b == a;
    } else {
      assert (a + b)[..|a + b| - 1] == a + b[..|b| - 1];
      HighPrefix(mark, a, b[..|b| - 1]);
    }
  }

  /** The reply comes before every event. */
  predicate ReplyFirst(frames: seq<Frame>) {
    forall i :: 0 <= i < |frames| && frames[i].Event? ==> Answered(frames[..i])
  }

  predicate Answered(frames: seq<Frame>) {
    exists i :: 0 <= i < |frames| && frames[i].Reply?
  }

  // ---- what every reachable state keeps ----

  predicate Flowing(c: Conn) {
    c.writing && !c.cancelled
  }

  predicate Early(c: Conn) {
    c.stage.Fresh? || c.stage.Subscribed?
  }

  /** Everything the device has been or will be shown while the connection holds. */
  function Shown(c: Conn): seq<nat> {
    Events(c.wire + c.out)
  }

  /** The subscription holds the events right after the last one taken, up to the last one the hub handed it. */
  ghost predicate Buffered(s: State, id: nat, c: Conn) {
    && (c.stage.Fresh? ==> id !in s.subs && c.buffer == [])
    && c.taken + |c.buffer| <= s.last
    && (forall i :: 0 <= i < |c.buffer| ==> c.buffer[i] == c.taken + 1 + i)
    && (id in s.subs ==> c.taken + |c.buffer| == if id in s.fan then s.last - 1 else s.last)
  }

  /** What the device has received has no jump, whatever becomes of the connection. */
  ghost predicate Received(s: State, c: Conn) {
    && NoJump(c.mark, Events(c.wire))
    && High(c.mark, Events(c.wire)) <= Max(c.mark, s.log)
    && (Early(c) ==> Events(c.wire) == [])
    && (!Early(c) && c.since.Some? ==> c.mark == Since(c))
    && (c.stage.Greeted? ==> c.since.None? ==> c.taken <= c.mark)
    && (c.stage.Answering? && c.since.None? ==> c.taken <= c.mark)
  }

  /** What is queued behind it has none either, and what comes next will not make one. */
  ghost predicate Coming(s: State, c: Conn) {
    && NoJump(c.mark, Shown(c))
    && High(c.mark, Shown(c)) <= Max(c.mark, s.log)
    && match c.stage
       case Replaying(next, to) => 1 <= next <= High(c.mark, Shown(c)) + 1 && c.taken <= to <= s.log
       case Live => c.taken <= High(c.mark, Shown(c))
       case Over => true
       case _ => Shown(c) == []
  }

  /** The reply before every event, and its cursor the mark of a device that gave none. */
  predicate Proper(c: Conn, frames: seq<Frame>) {
    ReplyFirst(frames)
    && forall i :: 0 <= i < |frames| && frames[i].Reply? && c.since.None? ==> frames[i].cursor == c.mark
  }

  /** Neither a reply nor an event. */
  predicate Bare(frames: seq<Frame>) {
    forall i :: 0 <= i < |frames| ==> !frames[i].Reply? && !frames[i].Event?
  }

  ghost predicate Ordered(c: Conn) {
    && Proper(c, c.wire)
    && (Early(c) ==> Bare(c.wire))
    && (c.stage.Answering? && c.since.None? ==> c.mark == c.stage.cursor)
    && (Flowing(c) ==>
          && Proper(c, c.wire + c.out)
          && (if Early(c) || c.stage.Answering? then Bare(c.wire + c.out) else Answered(c.wire + c.out)))
  }

  ghost predicate ConnOk(s: State, id: nat, c: Conn) {
    Buffered(s, id, c) && Received(s, c) && (Flowing(c) ==> Coming(s, c))
  }

  /** A commit not yet broadcast is on its way: a kick is waiting or owed, or the dispatcher is up. */
  predicate Awake(s: State) {
    s.last < s.log ==> s.kick || s.owed > 0 || s.dispatcher != Idle
  }

  ghost predicate Inv(s: State) {
    && s.last <= s.log
    && (s.dispatcher.Sending? ==> s.last <= s.dispatcher.to <= s.log)
    && Awake(s)
    && s.fan <= s.subs && s.subs <= s.conns.Keys
    && (forall id :: id in s.conns ==> ConnOk(s, id, s.conns[id]) && Ordered(s.conns[id]))
  }

  lemma SentOne(c: Conn, f: Frame)
    ensures Shown(c.(out := c.out + [f])) == if f.Event? then Shown(c) + [f.n] else Shown(c)
  {
    assert c.wire + (c.out + [f]) == (c.wire + c.out) + [f];
    OneMoreFrame(c.wire + c.out, f);
  }

  lemma EventQueued(s: State, c: Conn, n: nat)
    requires NoJump(c.mark, Shown(c)) && High(c.mark, Shown(c)) <= Max(c.mark, s.log)
    requires n <= High(c.mark, Shown(c)) + 1 && n <= s.log
    ensures var d := c.(out := c.out + [Event(n)]);
            && NoJump(c.mark, Shown(d)) && High(c.mark, Shown(d)) <= Max(c.mark, s.log)
            && High(c.mark, Shown(d)) == Max(High(c.mark, Shown(c)), n)
  {
    SentOne(c, Event(n));
    OneMoreEvent(c.mark, Shown(c), n);
  }

  lemma WrittenOne(s: State, c: Conn)
    requires c.out != [] && c.writing && !c.cancelled && Received(s, c) && Coming(s, c)
    ensures var d := c.(out := c.out[1..], wire := c.wire + [c.out[0]]);
            Shown(d) == Shown(c) && NoJump(c.mark, Events(d.wire)) && High(c.mark, Events(d.wire)) <= Max(c.mark, s.log)
            && (Shown(c) == [] ==> Events(d.wire) == [])
  {
    var d := c.(out := c.out[1..], wire := c.wire + [c.out[0]]);
    assert d.wire + d.out == c.wire + c.out;
    EventsConcat(d.wire, d.out);
    NoJumpPrefix(c.mark, Events(d.wire), Events(d.out));
    HighPrefix(c.mark, Events(d.wire), Events(d.out));
  }

  lemma CursorKeeps(s: State, id: nat, c: Conn, a: Action)
    requires s.last <= s.log && ConnOk(s, id, c) && a.ReadCursor?
    ensures var d := Own(s, c, a); d.Some? ==> ConnOk(s, id, d.value)
  {
    assert NoJump(s.log, []) && NoJump(Since(c), []);
    assert High(s.log, []) == s.log && High(Since(c), []) == Since(c);
    hide NoJump, Events, High;
  }

  lemma GreetingKeeps(s: State, id: nat, c: Conn, a: Action)
    requires s.last <= s.log && ConnOk(s, id, c)
    requires a.SendReply? || a.ReadReplay? || a.GoLive?
    ensures var d := Own(s, c, a); d.Some? ==> ConnOk(s, id, d.value)
  {
    assert High(c.mark, []) == c.mark;
    hide NoJump, Events, High;
    if a.SendReply? && c.stage.Answering? {
      SentOne(c, Reply(c.stage.cursor));
    }
  }

  lemma ReplayKeeps(s: State, id: nat, c: Conn, a: Action)
    requires s.last <= s.log && ConnOk(s, id, c)
    requires a.SendReplay? || a.StopForward?
    ensures var d := Own(s, c, a); d.Some? ==> ConnOk(s, id, d.value)
  {
    hide NoJump, Events, High;
    if Flowing(c) && a.SendReplay? && c.stage.Replaying? && c.stage.next <= c.stage.to {
      EventQueued(s, c, c.stage.next);
    }
  }

  lemma ForwardKeeps(s: State, id: nat, c: Conn, a: Action)
    requires s.last <= s.log && ConnOk(s, id, c) && a.Forward?
    ensures var d := Own(s, c, a); d.Some? ==> ConnOk(s, id, d.value)
  {
    hide NoJump, Events, High;
    if Flowing(c) && c.stage.Live? && c.buffer != [] {
      EventQueued(s, c, c.buffer[0]);
    }
  }

  lemma QueueKeeps(s: State, id: nat, c: Conn, a: Action)
    requires ConnOk(s, id, c)
    requires a.Enqueue? || a.Write? || a.WriteFails? || a.Cancel?
    ensures var d := Own(s, c, a); d.Some? ==> ConnOk(s, id, d.value)
  {
    hide NoJump, Events, High, Shown;
    if a.Enqueue? {
      SentOne(c, a.f);
    } else if Flowing(c) && a.Write? && c.out != [] {
      WrittenOne(s, c);
    }
  }

  /** One more frame behind a proper run of them. */
  lemma ProperOneMore(c: Conn, frames: seq<Frame>, f: Frame)
    requires Proper(c, frames)
    requires f.Event? ==> Answered(frames)
    requires f.Reply? && c.since.None? ==> f.cursor == c.mark
    ensures Proper(c, frames + [f])
    ensures Answered(frames) || f.Reply? ==> Answered(frames + [f])
    ensures Bare(frames) && !f.Event? && !f.Reply? ==> Bare(frames + [f])
  {
    var more := frames + [f];
    forall i | 0 <= i < |more| && more[i].Event?
      ensures Answered(more[..i])
    {
      assert more[..i] == frames[..i];
      if i == |frames| { assert frames[..i] == frames; }
    }
    if f.Reply? {
      assert more[|frames|].Reply?;
    } else if i :| 0 <= i < |frames| && frames[i].Reply? {
      assert more[i].Reply?;
    }
  }

  lemma ProperPrefix(c: Conn, frames: seq<Frame>, k: nat)
    requires k <= |frames| && Proper(c, frames)
    ensures Proper(c, frames[..k])
    ensures Bare(frames) ==> Bare(frames[..k])
  {
    forall i | 0 <= i < k && frames[i].Event?
      ensures Answered(frames[..k][..i])
    {
      assert frames[..k][..i] == frames[..i];
    }
  }

  /** Queueing a frame keeps the order. */
  lemma QueuedOrder(c: Conn, f: Frame)
    requires Proper(c, c.wire + c.out)
    requires f.Event? ==> Answered(c.wire + c.out)
    requires f.Reply? && c.since.None? ==> f.cursor == c.mark
    ensures var all := c.wire + (c.out + [f]);
            Proper(c, all) && (Answered(c.wire + c.out) || f.Reply? ==> Answered(all))
            && (Bare(c.wire + c.out) && !f.Event? && !f.Reply? ==> Bare(all))
  {
    assert c.wire + (c.out + [f]) == (c.wire + c.out) + [f];
    ProperOneMore(c, c.wire + c.out, f);
  }

  lemma SendsKeepOrder(s: State, c: Conn, a: Action)
    requires Ordered(c)
    requires a.SendReply? || a.SendReplay? || a.Forward? || a.Enqueue?
    ensures var d := Own(s, c, a); d.Some? ==> Ordered(d.value)
  {
    hide ReplyFirst, Answered, Bare;
    if Flowing(c) && Own(s, c, a).Some? {
      match a
      case SendReply(_, _) => QueuedOrder(c, Reply(c.stage.cursor));
      case SendReplay(_, _) => QueuedOrder(c, Event(c.stage.next));
      case Forward(_) => QueuedOrder(c, Event(c.buffer[0]));
      case Enqueue(_, f) => QueuedOrder(c, f);
    }
  }

  lemma OthersKeepOrder(s: State, c: Conn, a: Action)
    requires Ordered(c)
    requires a.ReadCursor? || a.ReadReplay? || a.GoLive? || a.StopForward? || a.Write? || a.WriteFails? || a.Cancel?
    ensures var d := Own(s, c, a); d.Some? ==> Ordered(d.value)
  {
    if Flowing(c) && a.Write? && c.out != [] {
      var d := c.(out := c.out[1..], wire := c.wire + [c.out[0]]);
      assert d.wire + d.out == c.wire + c.out;
      assert (c.wire + c.out)[..|c.wire| + 1] == d.wire;
      ProperPrefix(c, c.wire + c.out, |c.wire| + 1);
    }
    hide ReplyFirst, Answered;
  }

  lemma OwnKeeps(s: State, id: nat, c: Conn, a: Action)
    requires s.last <= s.log && ConnOk(s, id, c) && Ordered(c)
    ensures var d := Own(s, c, a); d.Some? ==> ConnOk(s, id, d.value) && Ordered(d.value)
  {
    hide ConnOk, Ordered;
    if a.ReadCursor? {
      CursorKeeps(s, id, c, a);
    } else if a.SendReply? || a.ReadReplay? || a.GoLive? {
      GreetingKeeps(s, id, c, a);
    } else if a.SendReplay? || a.StopForward? {
      ReplayKeeps(s, id, c, a);
    } else if a.Forward? {
      ForwardKeeps(s, id, c, a);
    } else if a.Enqueue? || a.Write? || a.WriteFails? || a.Cancel? {
      QueueKeeps(s, id, c, a);
    }
    if a.SendReply? || a.SendReplay? || a.Forward? || a.Enqueue? {
      SendsKeepOrder(s, c, a);
    } else if Own(s, c, a).Some? {
      OthersKeepOrder(s, c, a);
    }
  }

  /** What changes around a connection leaves it in order. */
  lemma AroundKeeps(s: State, t: State, id: nat, c: Conn)
    requires ConnOk(s, id, c) && s.last <= s.log
    requires s.log <= t.log && s.last <= t.last
    requires id in t.subs ==> id in s.subs
    requires (s.last == t.last && (id in s.fan <==> id in t.fan)) || id !in t.subs
             || (t.last == s.last + 1 && id in t.fan && id !in s.fan)
    ensures ConnOk(t, id, c)
  {
    hide NoJump, Events, High;
  }

  predicate OfTheHub(a: Action) {
    a.Commit? || a.Kick? || a.Wake? || a.ReadLog? || a.Broadcast? || a.EndBatch? || a.Unregister?
  }

  lemma HubKeeps(s: State, a: Action)
    requires Inv(s) && OfTheHub(a)
    ensures Inv(Next(s, a))
  {
    hide ConnOk, Ordered;
    forall id | id in s.conns
      ensures ConnOk(Next(s, a), id, s.conns[id])
    {
      AroundKeeps(s, Next(s, a), id, s.conns[id]);
    }
  }

  lemma FannedOut(s: State, id: nat, c: Conn)
    requires ConnOk(s, id, c) && id in s.fan && id in s.subs && s.last <= s.log
    ensures ConnOk(s.(fan := s.fan - {id}), id, c.(buffer := c.buffer + [s.last]))
    ensures ConnOk(s.(fan := s.fan - {id}, subs := s.subs - {id}), id, c)
  {
    hide NoJump, Events, High;
  }

  lemma FanOutKeeps(s: State, a: Action)
    requires Inv(s) && a.FanOut?
    ensures Inv(Next(s, a))
  {
    hide ConnOk, Ordered, Own;
    var t := Next(s, a);
    forall id | id in t.conns
      ensures ConnOk(t, id, t.conns[id]) && Ordered(t.conns[id])
    {
      if a.c in s.fan {
        FanOutConn(s, a, id);
      }
    }
  }

  lemma FanOutConn(s: State, a: Action, id: nat)
    requires s.last <= s.log && s.fan <= s.subs && s.subs <= s.conns.Keys && id in s.conns
    requires ConnOk(s, id, s.conns[id]) && Ordered(s.conns[id]) && a.FanOut? && a.c in s.fan
    ensures var t := Next(s, a); ConnOk(t, id, t.conns[id]) && Ordered(t.conns[id])
  {
    var t := Next(s, a);
    if id == a.c {
      FannedOut(s, id, s.conns[id]);
      hide ConnOk;
      SameAround(s.(fan := t.fan, subs := t.subs), t, id, t.conns[id]);
    } else {
      hide ConnOk;
      AroundKeeps(s, t, id, s.conns[id]);
    }
  }

  /** A connection's condition depends on the log, the hub and itself alone. */
  lemma SameAround(s: State, t: State, id: nat, c: Conn)
    requires s.log == t.log && s.last == t.last && s.subs == t.subs && s.fan == t.fan
    ensures ConnOk(s, id, c) <==> ConnOk(t, id, c)
  {
    hide NoJump, Events, High;
  }

  lemma JoinKeeps(s: State, a: Action)
    requires Inv(s) && (a.Connect? || a.Register?)
    ensures Inv(Next(s, a))
  {
    hide ConnOk, Ordered, Own;
    var t := Next(s, a);
    if t != s {
      Joined(s, t, a);
      forall id | id in s.conns && id != a.c
        ensures ConnOk(t, id, s.conns[id])
      {
        AroundKeeps(s, t, id, s.conns[id]);
      }
    }
  }

  lemma Joined(s: State, t: State, a: Action)
    requires Inv(s) && (a.Connect? || a.Register?) && t == Next(s, a) && t != s
    ensures ConnOk(t, a.c, t.conns[a.c]) && Ordered(t.conns[a.c])
  {
    var c := t.conns[a.c];
    if a.Connect? {
      assert c.wire + c.out == [];
    } else {
      assert c.wire + c.out == s.conns[a.c].wire + s.conns[a.c].out;
    }
  }

  lemma NextKeeps(s: State, a: Action)
    requires Inv(s)
    ensures Inv(Next(s, a))
  {
    if OfTheHub(a) {
      HubKeeps(s, a);
    } else if a.FanOut? {
      FanOutKeeps(s, a);
    } else if a.Connect? || a.Register? {
      JoinKeeps(s, a);
    } else {
      OwnStepKeeps(s, a);
    }
  }

  lemma OwnStepKeeps(s: State, a: Action)
    requires Inv(s) && !OfTheHub(a) && !a.FanOut? && !a.Connect? && !a.Register?
    ensures Inv(Next(s, a))
  {
    hide ConnOk, Ordered, Own;
    var t := Next(s, a);
    if a.c in s.conns {
      OwnKeeps(s, a.c, s.conns[a.c], a);
      forall id | id in t.conns
        ensures ConnOk(t, id, t.conns[id]) && Ordered(t.conns[id])
      {
        SameAround(s, t, id, t.conns[id]);
      }
    }
  }

  lemma {:induction false} RunKeeps(log: nat, actions: seq<Action>)
    ensures Inv(Run(Start(log), actions))
  {
    hide Next, Inv;
    if actions == [] {
      StartInv(log);
    } else {
      RunKeeps(log, actions[..|actions| - 1]);
      NextKeeps(Run(Start(log), actions[..|actions| - 1]), actions[|actions| - 1]);
    }
  }

  lemma StartInv(log: nat)
    ensures Inv(Start(log))
  {
  }

  // ---- what the design promises ----

  /**
   In every interleaving, what a device has received, counted from its mark and
   deduplicated, is the committed events right after the mark, one after another
   with no gap, however its connection ended.
   */
  lemma GapFree(log: nat, actions: seq<Action>, id: nat)
    requires id in Run(Start(log), actions).conns
    ensures var s := Run(Start(log), actions);
            var c := s.conns[id];
            var high := High(c.mark, Events(c.wire));
            && Dedup(c.mark, Events(c.wire)) == Upto(c.mark, high)
            && high <= Max(c.mark, s.log)
            && Proper(c, c.wire)
            && (Answered(c.wire) && c.since.Some? ==> c.mark == Max(0, c.since.value))
  {
    RunKeeps(log, actions);
    var s := Run(Start(log), actions);
    var c := s.conns[id];
    assert ConnOk(s, id, c) && Ordered(c);
    NoJumpNoGap(c.mark, Events(c.wire));
  }

  /** No commit is forgotten: while one is not broadcast, somebody is going to broadcast it. */
  lemma NoLostWakeup(log: nat, actions: seq<Action>)
    ensures Awake(Run(Start(log), actions))
  {
    RunKeeps(log, actions);
  }

  /** Everything there is to do for connection `id` has been done. */
  predicate Settled(s: State, id: nat) {
    && s.owed == 0 && !s.kick && s.dispatcher == Idle && s.fan == {}
    && id in s.subs && id in s.conns
    && s.conns[id].stage == Live && s.conns[id].buffer == [] && s.conns[id].out == [] && Flowing(s.conns[id])
  }

  /** Once everything has settled, a connection that holds has received every event after its mark. */
  lemma AllDelivered(log: nat, actions: seq<Action>, id: nat)
    requires Settled(Run(Start(log), actions), id)
    ensures var s := Run(Start(log), actions);
            var c := s.conns[id];
            Dedup(c.mark, Events(c.wire)) == Upto(c.mark, Max(c.mark, s.log))
  {
    RunKeeps(log, actions);
    var s := Run(Start(log), actions);
    var c := s.conns[id];
    assert ConnOk(s, id, c);
    assert c.wire + c.out == c.wire;
    NoJumpNoGap(c.mark, Events(c.wire));
    assert s.last == s.log;
  }

  // ---- what the greeting read, and when ----

  /** The state after the first `k` actions. */
  function At(log: nat, actions: seq<Action>, k: nat): State
    requires k <= |actions|
  {
    Run(Start(log), actions[..k])
  }

  function Commits(actions: seq<Action>): (n: nat) {
    if actions == [] then 0
    else Commits(actions[..|actions| - 1]) + (if actions[|actions| - 1].Commit? then 1 else 0)
  }

  /** The log holds what it held and one event for every commit. */
  lemma {:induction false} LogCountsCommits(log: nat, actions: seq<Action>)
    ensures Run(Start(log), actions).log == log + Commits(actions)
  {
    if actions != [] {
      LogCountsCommits(log, actions[..|actions| - 1]);
      hide Own;
    }
  }

  lemma OneMoreAction(log: nat, actions: seq<Action>, k: nat)
    requires k < |actions|
    ensures At(log, actions, k + 1) == Next(At(log, actions, k), actions[k])
  {
    assert actions[..k + 1][..k] == actions[..k];
  }

  lemma {:induction false} LogGrows(log: nat, actions: seq<Action>, j: nat, k: nat)
    requires j <= k <= |actions|
    ensures At(log, actions, j).log <= At(log, actions, k).log
    ensures At(log, actions, j).last <= At(log, actions, k).log
    decreases k - j
  {
    hide *;
    LastBelow(log, actions, j);
    if j < k {
      LogGrows(log, actions, j, k - 1);
      GrowsOneMore(log, actions, k - 1);
    }
  }

  lemma GrowsOneMore(log: nat, actions: seq<Action>, k: nat)
    requires k < |actions|
    ensures At(log, actions, k).log <= At(log, actions, k + 1).log
  {
    OneMoreAction(log, actions, k);
    hide Own, At;
  }

  lemma LastBelow(log: nat, actions: seq<Action>, k: nat)
    requires k <= |actions|
    ensures At(log, actions, k).last <= At(log, actions, k).log
  {
    RunKeeps(log, actions[..k]);
    hide ConnOk, Ordered, Run;
  }

  /** The connection is subscribed after `k` actions, and its greeting read the log with the next. */
  predicate ReadAt(log: nat, actions: seq<Action>, id: nat, k: nat) {
    && k < |actions|
    && id in At(log, actions, k).conns && At(log, actions, k).conns[id].stage == Subscribed
    && id in At(log, actions, k + 1).conns && At(log, actions, k + 1).conns[id].stage.Answering?
  }

  predicate RepliesAre(frames: seq<Frame>, cursor: nat) {
    forall i :: 0 <= i < |frames| && frames[i].Reply? ==> frames[i].cursor == cursor
  }

  predicate NoReply(frames: seq<Frame>) {
    forall i :: 0 <= i < |frames| ==> !frames[i].Reply?
  }

  /** All the connection says and counts of the log is `cursor`. */
  predicate Told(c: Conn, cursor: nat) {
    && (c.stage.Answering? ==> c.stage.cursor == cursor)
    && (c.since.None? ==> c.mark == cursor)
    && RepliesAre(c.wire, cursor) && RepliesAre(c.out, cursor)
  }

  lemma TellsNothingElse(s: State, c: Conn, a: Action, cursor: nat)
    requires !Early(c) && Told(c, cursor)
    ensures var d := Own(s, c, a); d.Some? ==> !Early(d.value) && Told(d.value, cursor)
  {
  }

  lemma TellsNothingYet(s: State, c: Conn, a: Action)
    requires Early(c) && NoReply(c.wire) && NoReply(c.out)
    ensures var d := Own(s, c, a);
            d.Some? ==>
              || (Early(d.value) && NoReply(d.value.wire) && NoReply(d.value.out))
              || (c.stage == Subscribed && d.value.stage.Answering? && Told(d.value, s.log))
  {
  }

  /** How a connection stands after some actions: nothing said yet, or all it says is the log at its reading. */
  ghost predicate Reads(log: nat, actions: seq<Action>, id: nat) {
    var s := Run(Start(log), actions);
    id in s.conns ==>
      var c := s.conns[id];
      && (Early(c) ==> NoReply(c.wire) && NoReply(c.out))
      && (!Early(c) ==> exists k: nat :: ReadAt(log, actions, id, k) && Told(c, At(log, actions, k).log))
  }

  lemma {:induction false} GreetingReadsTheLog(log: nat, actions: seq<Action>, id: nat)
    ensures Reads(log, actions, id)
  {
    if actions != [] {
      var n := |actions| - 1;
      var s, t := Run(Start(log), actions[..n]), Run(Start(log), actions);
      assert actions[..n + 1] == actions;
      GreetingReadsTheLog(log, actions[..n], id);
      assert t == Next(s, actions[n]);
      hide Next, Run, Told;
      if id in s.conns {
        StepReads(s, actions[n], id);
        if !Early(s.conns[id]) {
          var k: nat :| ReadAt(log, actions[..n], id, k) && Told(s.conns[id], At(log, actions[..n], k).log);
          assert actions[..n][..k] == actions[..k] && actions[..n][..k + 1] == actions[..k + 1];
          assert ReadAt(log, actions, id, k);
        } else if !Early(t.conns[id]) {
          assert ReadAt(log, actions, id, n);
        }
      } else {
        NewConnection(s, actions[n], id);
      }
    }
  }

  lemma NewConnection(s: State, a: Action, id: nat)
    requires id !in s.conns
    ensures var t := Next(s, a);
            id in t.conns ==> Early(t.conns[id]) && NoReply(t.conns[id].wire) && NoReply(t.conns[id].out)
  {
    hide Own;
  }

  lemma StepReads(s: State, a: Action, id: nat)
    requires id in s.conns
    ensures id in Next(s, a).conns
    ensures var c, d := s.conns[id], Next(s, a).conns[id];
            && (Early(c) && NoReply(c.wire) && NoReply(c.out) ==>
                  || (Early(d) && NoReply(d.wire) && NoReply(d.out))
                  || (c.stage == Subscribed && d.stage.Answering? && Told(d, s.log)))
            && (!Early(c) ==> !Early(d) && forall cursor :: Told(c, cursor) ==> Told(d, cursor))
  {
    var c := s.conns[id];
    if Early(c) && NoReply(c.wire) && NoReply(c.out) {
      TellsNothingYet(s, c, a);
    }
    forall cursor | !Early(c) && Told(c, cursor)
      ensures Own(s, c, a).Some? ==> Told(Own(s, c, a).value, cursor)
    {
      TellsNothingElse(s, c, a, cursor);
    }
    StaysGreeted(s, c, a);
    hide Own, RepliesAre, NoReply;
  }

  lemma StaysGreeted(s: State, c: Conn, a: Action)
    ensures !Early(c) && Own(s, c, a).Some? ==> !Early(Own(s, c, a).value)
  {
  }

  /**
   Every cursor a device is told is the log as it stood at one moment: after the
   connection subscribed, so that nothing broadcast before is past it, and before
   the reply, so that nothing past it is already behind.
   */
  lemma CursorIsTheLog(log: nat, actions: seq<Action>, id: nat, i: nat)
    requires id in Run(Start(log), actions).conns
    requires var w := Run(Start(log), actions).conns[id].wire; i < |w| && w[i].Reply?
    ensures exists k: nat :: ReadAt(log, actions, id, k)
                        && Run(Start(log), actions).conns[id].wire[i].cursor == At(log, actions, k).log
                        && (forall j :: 0 <= j <= k ==> At(log, actions, j).last <= At(log, actions, k).log)
                        && (forall j :: k <= j <= |actions| ==> At(log, actions, k).log <= At(log, actions, j).log)
  {
    GreetingReadsTheLog(log, actions, id);
    var c := Run(Start(log), actions).conns[id];
    var k: nat :| ReadAt(log, actions, id, k) && Told(c, At(log, actions, k).log);
    LogGrowsAround(log, actions, k);
    hide Run, ReadAt;
  }

  lemma LogGrowsAround(log: nat, actions: seq<Action>, k: nat)
    requires k <= |actions|
    ensures forall j :: 0 <= j <= k ==> At(log, actions, j).last <= At(log, actions, k).log
    ensures forall j :: k <= j <= |actions| ==> At(log, actions, k).log <= At(log, actions, j).log
  {
    hide At;
    forall j | 0 <= j <= k
      ensures At(log, actions, j).last <= At(log, actions, k).log
    {
      LogGrows(log, actions, j, k);
    }
    forall j | k <= j <= |actions|
      ensures At(log, actions, k).log <= At(log, actions, j).log
    {
      LogGrows(log, actions, k, j);
    }
  }

  /** What a device counts from: the `since` it sent, or else the cursor of a reply it got. */
  predicate CountsFrom(c: Conn, from: nat) {
    match c.since
    case Some(n) => from == if n > 0 then n else 0
    case None => exists i :: 0 <= i < |c.wire| && c.wire[i].Reply? && c.wire[i].cursor == from
  }

  /**
   A device past the reading of its cursor when the log was `At(k).log` gets, once
   all has settled for it, every event committed after that and after its `since`,
   whatever it counts from.
   */
  lemma NothingMissedSince(log: nat, actions: seq<Action>, id: nat, k: nat, from: nat, n: nat)
    requires Settled(Run(Start(log), actions), id) && k <= |actions|
    requires id in At(log, actions, k).conns
    requires var st := At(log, actions, k).conns[id].stage; !st.Fresh? && !st.Subscribed?
    requires var c := Run(Start(log), actions).conns[id];
             CountsFrom(c, from) && (c.since.Some? ==> n > c.since.value)
    requires At(log, actions, k).log < n <= Run(Start(log), actions).log
    ensures n in Dedup(from, Events(Run(Start(log), actions).conns[id].wire))
  {
    var c := Run(Start(log), actions).conns[id];
    MarkBefore(log, actions, id, k);
    AllDelivered(log, actions, id);
    MarkIsWhatItCountsFrom(log, actions, id, from);
    assert n == Upto(c.mark, Max(c.mark, Run(Start(log), actions).log))[n - c.mark - 1];
    hide Run, At, Dedup, Events;
  }

  lemma MarkIsWhatItCountsFrom(log: nat, actions: seq<Action>, id: nat, from: nat)
    requires Settled(Run(Start(log), actions), id)
    requires CountsFrom(Run(Start(log), actions).conns[id], from)
    ensures Run(Start(log), actions).conns[id].mark == from
  {
    RunKeeps(log, actions);
    var s := Run(Start(log), actions);
    assert ConnOk(s, id, s.conns[id]) && Ordered(s.conns[id]);
  }

  /** Without a `since`, the mark is at most the log at any moment after the reading. */
  lemma MarkBefore(log: nat, actions: seq<Action>, id: nat, k: nat)
    requires k <= |actions| && id in At(log, actions, k).conns && !Early(At(log, actions, k).conns[id])
    ensures id in Run(Start(log), actions).conns
    ensures var c := Run(Start(log), actions).conns[id];
            c.since.None? ==> c.mark <= At(log, actions, k).log
  {
    var j := ReadBefore(log, actions, id, k);
    LogGrows(log, actions, j, k);
    StaysTold(log, actions, id, k, |actions|, At(log, actions, j).log);
    AtTheEnd(log, actions);
    hide At, Run, Early;
  }

  lemma AtTheEnd(log: nat, actions: seq<Action>)
    ensures At(log, actions, |actions|) == Run(Start(log), actions)
  {
    assert actions[..|actions|] == actions;
  }

  lemma ReadBefore(log: nat, actions: seq<Action>, id: nat, k: nat) returns (j: nat)
    requires k <= |actions| && id in At(log, actions, k).conns && !Early(At(log, actions, k).conns[id])
    ensures j <= k && Told(At(log, actions, k).conns[id], At(log, actions, j).log)
  {
    GreetingReadsTheLog(log, actions[..k], id);
    hide Run, Told, Early;
    j :| ReadAt(log, actions[..k], id, j) && Told(At(log, actions, k).conns[id], At(log, actions[..k], j).log);
    assert actions[..k][..j] == actions[..j];
  }

  lemma {:induction false} StaysTold(log: nat, actions: seq<Action>, id: nat, k: nat, m: nat, cursor: nat)
    requires k <= m <= |actions| && id in At(log, actions, k).conns && !Early(At(log, actions, k).conns[id])
    requires Told(At(log, actions, k).conns[id], cursor)
    ensures id in At(log, actions, m).conns && !Early(At(log, actions, m).conns[id])
    ensures Told(At(log, actions, m).conns[id], cursor)
    decreases m - k
  {
    hide *;
    if k < m {
      StaysTold(log, actions, id, k, m - 1, cursor);
      ToldOneMore(log, actions, id, m - 1, cursor);
    }
  }

  lemma ToldOneMore(log: nat, actions: seq<Action>, id: nat, k: nat, cursor: nat)
    requires k < |actions| && id in At(log, actions, k).conns && !Early(At(log, actions, k).conns[id])
    requires Told(At(log, actions, k).conns[id], cursor)
    ensures id in At(log, actions, k + 1).conns && !Early(At(log, actions, k + 1).conns[id])
    ensures Told(At(log, actions, k + 1).conns[id], cursor)
  {
    OneMoreAction(log, actions, k);
    StepReads(At(log, actions, k), actions[k], id);
    hide *;
  }

  // ---- and it does go on ----

  /** Nothing is under way between the log and the subscriptions. */
  predicate Quiet(s: State) {
    s.fan == {} && s.dispatcher == Idle && s.owed == 0 && !s.kick && s.last == s.log
  }

  /** A connection that is live with nothing on its way. */
  predicate Listening(s: State, id: nat) {
    && id in s.conns && id in s.subs
    && s.conns[id].stage == Live && s.conns[id].buffer == [] && s.conns[id].out == []
    && s.conns[id].writing && !s.conns[id].cancelled
  }

  /** A device that connects is told where the log stands and listens from there. */
  lemma GreetedListens(s: State, id: nat)
    requires Quiet(s) && id !in s.conns
    ensures var a := Next(Next(Next(s, Connect(id, None)), Register(id)), ReadCursor(id));
            var t := Next(Next(Next(a, SendReply(id, false)), Write(id)), ReadReplay(id));
            && Quiet(t) && t.log == s.log && Listening(t, id) && t.conns[id].wire == [Reply(s.log)]
            && t.conns == s.conns[id := t.conns[id]]
  {
    Subscribes(s, id);
    AnswersAndListens(Next(Next(Next(s, Connect(id, None)), Register(id)), ReadCursor(id)), id);
    hide Next;
  }

  lemma Subscribes(s: State, id: nat)
    requires Quiet(s) && id !in s.conns
    ensures Next(Next(Next(s, Connect(id, None)), Register(id)), ReadCursor(id)) ==
            s.(subs := s.subs + {id}, conns := s.conns[id := Conn(None, Answering(s.log), s.log, s.last, [], [], [], true, false)])
  {
  }

  lemma AnswersAndListens(s: State, id: nat)
    requires id in s.conns && s.conns[id] == Conn(None, Answering(s.log), s.log, s.last, [], [], [], true, false)
    ensures Next(Next(Next(s, SendReply(id, false)), Write(id)), ReadReplay(id)) ==
            s.(conns := s.conns[id := Conn(None, Live, s.log, s.last, [], [], [Reply(s.log)], true, false)])
  {
    var c := s.conns[id];
    var c1 := c.(out := [Reply(s.log)], stage := Greeted);
    var c2 := c1.(out := [], wire := [Reply(s.log)]);
    assert [] + [Reply(s.log)] == [Reply(s.log)] && [Reply(s.log)][1..] == [];
    assert Own(s, c, SendReply(id, false)) == Some(c1);
    assert Own(s.(conns := s.conns[id := c1]), c1, Write(id)) == Some(c2);
    assert Own(s.(conns := s.conns[id := c2]), c2, ReadReplay(id)) == Some(c2.(stage := Live));
    hide Own;
    assert Next(s, SendReply(id, false)) == s.(conns := s.conns[id := c1]);
    assert Next(s.(conns := s.conns[id := c1]), Write(id)) == s.(conns := s.conns[id := c2]);
  }

  /** An event committed goes through kick, dispatcher, hub and connection to the device. */
  lemma CommitArrives(s: State, id: nat)
    requires Quiet(s) && Listening(s, id)
    ensures var a := Next(Next(Next(Next(s, Commit), Kick), Wake), ReadLog);
            var b := Next(Next(a, Broadcast), FanOut(id));
            var t := Next(Next(b, Forward(id)), Write(id));
            && t.log == s.log + 1 && Listening(t, id)
            && t.conns[id].wire == s.conns[id].wire + [Event(s.log + 1)]
  {
    var a := Next(Next(Next(Next(s, Commit), Kick), Wake), ReadLog);
    assert a == s.(log := s.log + 1, dispatcher := Sending(s.log + 1));
    var b := Next(Next(a, Broadcast), FanOut(id));
    assert b.conns[id] == s.conns[id].(buffer := [s.log + 1]);
    var c := Next(b, Forward(id));
    assert c.conns[id] == s.conns[id].(taken := s.log + 1, out := [Event(s.log + 1)]);
  }
}
