/**
 The address list on its way to the devices
 (client_backend/internal/server/addresses.go refreshAddresses, pokeAddresses,
 runAddressWatcher, sendAddresses, markGreeted; the greeting in
 client_backend/internal/server/handlers.go): one watcher, any number of greetings.
 */
module Addresses {
  import opened Common

  /** What a device is shown: the greeting's reply or an address event, with the version of the list in it. */
  datatype Frame = Reply(version: nat) | Event(version: nat)

  /** A greeting: the snapshot read, the reply queued, marked greeted. */
  datatype Stage = Fresh | Answering(version: nat) | Replied(version: nat) | Greeted

  datatype Conn = Conn(stage: Stage, version: nat, owesPoke: bool, shown: seq<Frame>)

  datatype Watcher = Idle | Woken | Refreshed | Sending(left: set<nat>)

  /** `lists` is every list there has been; the current one is the last, and its version their number. */
  datatype State = State(lists: seq<string>, kick: bool, watcher: Watcher, conns: map<nat, Conn>)

  datatype Action =
    | Connect(c: nat)
    | ReadSnapshot(c: nat)
    | QueueReply(c: nat)
    | MarkGreeted(c: nat)
    | Poke(c: nat)
    | PokeFromPage
    | Wake
    | Tick
    | Refresh(list: string)
    | Collect
    | SendOne(c: nat)
    | EndPass

  function Current(s: State): nat {
    |s.lists|
  }

  function With(s: State, c: nat, conn: Conn): State {
    s.(conns := s.conns[c := conn])
  }

  predicate Behind(s: State, c: Conn) {
    c.stage.Greeted? && c.version < Current(s)
  }

  /** A greeting's own step. */
  function Greeting(s: State, c: Conn, a: Action): Conn {
    match a
    case ReadSnapshot(_) => if c.stage.Fresh? then c.(stage := Answering(Current(s))) else c
    case QueueReply(_) =>
      if c.stage.Answering? then c.(stage := Replied(c.stage.version), shown := c.shown + [Reply(c.stage.version)]) else c
    case MarkGreeted(_) =>
      if c.stage.Replied? then c.(stage := Greeted, version := c.stage.version, owesPoke := true) else c
    case _ => c
  }

  function Next(s: State, a: Action): State {
    match a
    case Connect(c) => if c in s.conns then s else With(s, c, Conn(Fresh, 0, false, []))
    case Poke(c) =>
      if c in s.conns && s.conns[c].owesPoke then With(s, c, s.conns[c].(owesPoke := false)).(kick := true) else s
    case PokeFromPage => s.(kick := true)
    case Wake => if s.watcher.Idle? && s.kick then s.(kick := false, watcher := Woken) else s
    case Tick => if s.watcher.Idle? then s.(watcher := Woken) else s
    case Refresh(list) =>
      if !s.watcher.Woken? then s
      else s.(watcher := Refreshed, lists := if s.lists != [] && s.lists[|s.lists| - 1] == list then s.lists else s.lists + [list])
    case Collect =>
      if !s.watcher.Refreshed? then s
      else s.(watcher := Sending(set c | c in s.conns && Behind(s, s.conns[c])),
              conns := map c | c in s.conns ::
                if Behind(s, s.conns[c]) then s.conns[c].(version := Current(s)) else s.conns[c])
    case SendOne(c) =>
      if s.watcher.Sending? && c in s.watcher.left && c in s.conns
      then With(s, c, s.conns[c].(shown := s.conns[c].shown + [Event(Current(s))])).(watcher := Sending(s.watcher.left - {c}))
      else s
    case EndPass => if s.watcher == Sending({}) then s.(watcher := Idle) else s
    case _ => if a.c in s.conns then With(s, a.c, Greeting(s, s.conns[a.c], a)) else s
  }

  function Run(s: State, actions: seq<Action>): State {
    if actions == [] then s else Next(Run(s, actions[..|actions| - 1]), actions[|actions| - 1])
  }

  /** The first list is taken before any listener opens. */
  function Start(list: string): State {
    State([list], false, Idle, map[])
  }

  // ---- what every reachable state keeps ----

  /** Strictly growing versions, the reply first. */
  predicate Growing(fs: seq<Frame>) {
    && (fs != [] ==> fs[0].Reply?)
    && (forall i :: 1 <= i < |fs| ==> fs[i].Event?)
    && (forall i, j :: 0 <= i < j < |fs| ==> fs[i].version < fs[j].version)
  }

  function LastShown(c: Conn): nat {
    if c.shown == [] then 0 else c.shown[|c.shown| - 1].version
  }

  predicate Targeted(s: State, id: nat) {
    s.watcher.Sending? && id in s.watcher.left
  }

  /** Nothing is shown before the reply; what was shown last is the version on record, or is about to be. */
  predicate ShownOk(s: State, id: nat, c: Conn) {
    && Growing(c.shown)
    && match c.stage
       case Fresh => c.shown == [] && !Targeted(s, id)
       case Answering(v) => c.shown == [] && v <= Current(s) && !Targeted(s, id)
       case Replied(v) => c.shown == [Reply(v)] && v <= Current(s) && !Targeted(s, id)
       case Greeted =>
         && c.shown != [] && c.version <= Current(s)
         && (if Targeted(s, id) then LastShown(c) < c.version && c.version == Current(s) else LastShown(c) == c.version)
  }

  /** A connection behind will be caught up: a poke waits, a pass has yet to collect, or its greeter is about to poke. */
  predicate CaughtUp(s: State, c: Conn) {
    Behind(s, c) ==> s.kick || s.watcher.Woken? || s.watcher.Refreshed? || c.owesPoke
  }

  predicate ConnOk(s: State, id: nat, c: Conn) {
    ShownOk(s, id, c) && CaughtUp(s, c)
  }

  ghost predicate Inv(s: State) {
    && s.lists != []
    && (s.watcher.Sending? ==> s.watcher.left <= s.conns.Keys)
    && forall id :: id in s.conns ==> ConnOk(s, id, s.conns[id])
  }

  lemma OneMoreShown(fs: seq<Frame>, v: nat)
    requires Growing(fs) && fs != [] && fs[|fs| - 1].version < v
    ensures Growing(fs + [Event(v)])
  {
  }

  predicate OfAGreeting(a: Action) {
    a.ReadSnapshot? || a.QueueReply? || a.MarkGreeted?
  }

  lemma GreetingStep(s: State, id: nat, c: Conn, a: Action)
    requires s.lists != [] && ConnOk(s, id, c)
    ensures ConnOk(s, id, Greeting(s, c, a))
  {
    hide Growing;
    if a.QueueReply? && c.stage.Answering? {
      assert c.shown + [Reply(c.stage.version)] == [Reply(c.stage.version)];
      ReplyAlone(c.stage.version);
    }
  }

  /** A connection's condition depends on the list, the watcher and itself alone. */
  lemma SameAround(s: State, t: State, id: nat, c: Conn)
    requires ConnOk(s, id, c) && t.lists == s.lists && t.kick == s.kick && t.watcher == s.watcher
    ensures ConnOk(t, id, c)
  {
    hide Growing;
  }

  lemma GreetingKeeps(s: State, a: Action, id: nat)
    requires s.lists != [] && id in s.conns && ConnOk(s, id, s.conns[id]) && OfAGreeting(a)
    ensures ConnOk(Next(s, a), id, Next(s, a).conns[id])
  {
    hide ConnOk, Greeting;
    GreetingStep(s, id, s.conns[id], a);
    SameAround(s, Next(s, a), id, if a.c == id then Greeting(s, s.conns[id], a) else s.conns[id]);
  }

  lemma ReplyAlone(v: nat)
    ensures Growing([Reply(v)])
  {
  }

  lemma SendKeeps(s: State, a: Action, id: nat)
    requires s.lists != [] && id in s.conns && ConnOk(s, id, s.conns[id]) && a.SendOne?
    ensures ConnOk(Next(s, a), id, Next(s, a).conns[id])
  {
    hide Growing;
    if a == SendOne(id) && Targeted(s, id) {
      OneMoreShown(s.conns[id].shown, Current(s));
    }
  }

  lemma WatcherKeeps(s: State, a: Action, id: nat)
    requires s.lists != [] && id in s.conns && ConnOk(s, id, s.conns[id]) && !OfAGreeting(a) && !a.SendOne?
    ensures ConnOk(Next(s, a), id, Next(s, a).conns[id])
  {
    hide Growing;
  }

  lemma StepKeepsConn(s: State, a: Action, id: nat)
    requires Inv(s) && id in s.conns && id in Next(s, a).conns
    ensures ConnOk(Next(s, a), id, Next(s, a).conns[id])
  {
    hide ConnOk;
    if OfAGreeting(a) {
      GreetingKeeps(s, a, id);
    } else if a.SendOne? {
      SendKeeps(s, a, id);
    } else {
      WatcherKeeps(s, a, id);
    }
  }

  lemma NextKeeps(s: State, a: Action)
    requires Inv(s)
    ensures Inv(Next(s, a))
  {
    var t := Next(s, a);
    forall id | id in t.conns
      ensures ConnOk(t, id, t.conns[id])
    {
      if id in s.conns {
        StepKeepsConn(s, a, id);
      }
    }
    hide ConnOk;
  }

  lemma {:induction false} RunKeeps(list: string, actions: seq<Action>)
    ensures Inv(Run(Start(list), actions))
  {
    hide Next;
    if actions != [] {
      RunKeeps(list, actions[..|actions| - 1]);
      NextKeeps(Run(Start(list), actions[..|actions| - 1]), actions[|actions| - 1]);
    }
  }

  // ---- what the design promises ----

  /** Every device sees the reply first and strictly growing versions after it. */
  lemma VersionsGrow(list: string, actions: seq<Action>, id: nat)
    requires id in Run(Start(list), actions).conns
    ensures Growing(Run(Start(list), actions).conns[id].shown)
  {
    RunKeeps(list, actions);
  }

  /** A greeted connection behind the current list is never forgotten. */
  lemma NobodyIsLeftBehind(list: string, actions: seq<Action>, id: nat)
    requires var s := Run(Start(list), actions); id in s.conns && Behind(s, s.conns[id])
    ensures var s := Run(Start(list), actions);
            s.kick || s.watcher.Woken? || s.watcher.Refreshed? || s.conns[id].owesPoke
  {
    RunKeeps(list, actions);
  }

  /** A pass takes the list it read: it is the current one then, and a version more exactly when it is another. */
  lemma RefreshTakesTheList(s: State, list: string)
    requires s.lists != [] && s.watcher.Woken?
    ensures var t := Next(s, Refresh(list));
            && t.watcher.Refreshed? && t.kick == s.kick && t.conns == s.conns
            && t.lists[|t.lists| - 1] == list && s.lists <= t.lists
            && |t.lists| == if s.lists[|s.lists| - 1] == list then |s.lists| else |s.lists| + 1
  {
  }

  /** A greeting ends with the current list in its reply, the device on record with it, and the watcher poked. */
  lemma GreetingShowsTheCurrent(s: State, c: nat)
    requires s.lists != [] && c !in s.conns
    ensures var t := Run(s, [Connect(c), ReadSnapshot(c), QueueReply(c), MarkGreeted(c), Poke(c)]);
            t.lists == s.lists && t.kick && t.conns == s.conns[c := Conn(Greeted, |s.lists|, false, [Reply(|s.lists|)])]
  {
    var steps := [Connect(c), ReadSnapshot(c), QueueReply(c), MarkGreeted(c), Poke(c)];
    assert steps[..4][..3] == steps[..3] && steps[..3][..2] == steps[..2] && steps[..2][..1] == steps[..1] && steps[..1][..0] == [];
    var s1, n := With(s, c, Conn(Fresh, 0, false, [])), |s.lists|;
    assert Run(s, steps[..1]) == s1;
    assert Run(s, steps[..2]) == With(s1, c, Conn(Answering(n), 0, false, []));
    assert [] + [Reply(n)] == [Reply(n)];
    assert Run(s, steps[..3]) == With(s1, c, Conn(Replied(n), 0, false, [Reply(n)]));
    assert Run(s, steps[..4]) == With(s1, c, Conn(Greeted, n, true, [Reply(n)]));
  }

  /** A pass collects exactly the greeted devices whose version is not the current one, and a send shows it to one of them. */
  lemma PassReachesThoseBehind(s: State, c: nat)
    requires s.watcher.Refreshed? && c in s.conns && s.conns[c].stage.Greeted? && s.conns[c].version < |s.lists|
    ensures var t := Next(Next(s, Collect), SendOne(c));
            && t.lists == s.lists && t.conns[c].version == |s.lists|
            && t.conns[c].shown == s.conns[c].shown + [Event(|s.lists|)]
  {
  }

  /** At rest, every greeted device was shown the current list last. */
  lemma AtRestEveryoneIsCurrent(list: string, actions: seq<Action>, id: nat)
    requires var s := Run(Start(list), actions);
             && !s.kick && s.watcher.Idle?
             && id in s.conns && s.conns[id].stage.Greeted? && !s.conns[id].owesPoke
    ensures var s := Run(Start(list), actions);
            s.conns[id].shown != [] && LastShown(s.conns[id]) == Current(s)
  {
    RunKeeps(list, actions);
    hide Run;
    assert ConnOk(Run(Start(list), actions), id, Run(Start(list), actions).conns[id]);
  }
}
