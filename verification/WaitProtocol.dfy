/**
 Waits against closings (client_backend/internal/server/unpaired.go awaitAnswer
 and endWait): a connection takes a request's wait and then asks the store again;
 whoever closes a request writes the store and then ends its wait. Steps under
 the registry lock and single store transactions are atomic; everything else
 interleaves.
 */
module WaitProtocol {
  import opened Common
  import opened Holds

  /**
   Where a connection's `pair` is: the store said the request waits; the wait is
   taken and the store not yet asked again; the connection is going and its
   handler is about to let it go.
   */
  datatype Agent = Quiet | Found(q: string) | Registered(q: string) | Going

  datatype State = State(
    cap: int,
    room: Room,
    closed: map<string, bool>,
    agents: map<nat, Agent>,
    owed: multiset<string>)

  datatype Action =
    | Connect(c: nat)
    | Find(c: nat, q: string)
    | Register(c: nat)
    | Check(c: nat)
    | CheckGone(c: nat)
    | LetGo(c: nat)
    | Close(q: string, allowed: bool)
    | EndWait(q: string)

  function AgentOf(s: State, c: nat): Agent {
    if c in s.agents then s.agents[c] else Quiet
  }

  function Next(s: State, a: Action): State {
    match a
    case Connect(c) =>
      if Free(At(s.room, c)) then s.(room := PlaceOf(s.room, c, s.cap)) else s
    case Find(c, q) =>
      if AgentOf(s, c) == Quiet && q !in s.closed && q != "" then s.(agents := s.agents[c := Found(q)]) else s
    case Register(c) =>
      if !AgentOf(s, c).Found? then s
      else if Free(At(s.room, c)) then s.(agents := s.agents[c := Quiet])
      else s.(room := AwaitOf(s.room, c, AgentOf(s, c).q), agents := s.agents[c := Registered(AgentOf(s, c).q)])
    case Check(c) =>
      if !AgentOf(s, c).Registered? then s
      else s.(agents := s.agents[c := Quiet],
              owed := if AgentOf(s, c).q in s.closed then s.owed + multiset{AgentOf(s, c).q} else s.owed)
    case CheckGone(c) =>
      if AgentOf(s, c).Registered? then s.(agents := s.agents[c := Going]) else s
    case LetGo(c) =>
      s.(room := LetGoOf(s.room, c),
         agents := if AgentOf(s, c) == Going then s.agents[c := Quiet] else s.agents)
    case Close(q, allowed) =>
      if q !in s.closed then s.(closed := s.closed[q := allowed], owed := s.owed + multiset{q}) else s
    case EndWait(q) =>
      if q in s.owed && q in s.closed
      then s.(room := EndWaitOf(s.room, q, s.closed[q], s.cap), owed := s.owed - multiset{q}) else s
  }

  function Run(s: State, actions: seq<Action>): State {
    if actions == [] then s else Next(Run(s, actions[..|actions| - 1]), actions[|actions| - 1])
  }

  function Start(cap: int): State {
    State(cap, Room([], map[], map[], {}, map[]), map[], map[], multiset{})
  }

  /** The end of the wait on `q` is owed, or its holder is about to look, or about to be let go of. */
  predicate Attended(s: State, q: string, holder: nat) {
    q in s.owed || AgentOf(s, holder) == Registered(q) || AgentOf(s, holder) == Going
  }

  ghost predicate Inv(s: State) {
    && Ok(s.room) && |s.room.places| <= Max(s.cap, 1)
    && (forall q :: q in s.owed ==> q in s.closed)
    && (forall c :: c in s.agents && (s.agents[c].Found? || s.agents[c].Registered?) ==> s.agents[c].q != "")
    && (forall q :: q in s.room.waits && q in s.closed ==> Attended(s, q, s.room.waits[q]))
  }

  lemma ConnectKeeps(s: State, c: nat)
    requires Inv(s)
    ensures Inv(Next(s, Connect(c)))
  {
    if Free(At(s.room, c)) {
      PlaceKeeps(s.room, c, s.cap);
      hide Ok;
    }
  }

  /** The wait taken, its new holder is about to look; a wait it took over has no holder any more. */
  lemma RegisterKeeps(s: State, c: nat)
    requires Inv(s)
    ensures Inv(Next(s, Register(c)))
  {
    var t := Next(s, Register(c));
    if AgentOf(s, c).Found? && !Free(At(s.room, c)) {
      AwaitKeeps(s.room, c, AgentOf(s, c).q);
      OtherWaitsStay(s.room, c, AgentOf(s, c).q);
    }
    hide Ok;
  }

  lemma OtherWaitsStay(r: Room, c: nat, q: string)
    requires Ok(r) && !Free(At(r, c))
    ensures forall p :: p in AwaitOf(r, c, q).waits && p != q ==> p in r.waits && r.waits[p] == AwaitOf(r, c, q).waits[p] && r.waits[p] != c
  {
    LetGoKeeps(r, c);
  }

  lemma LetGoStepKeeps(s: State, c: nat)
    requires Inv(s)
    ensures Inv(Next(s, Action.LetGo(c)))
  {
    LetGoKeeps(s.room, c);
    assert forall p :: p in LetGoOf(s.room, c).waits ==> s.room.waits[p] != c;
    hide Ok;
  }

  lemma EndWaitStepKeeps(s: State, q: string)
    requires Inv(s)
    ensures Inv(Next(s, Action.EndWait(q)))
  {
    if q in s.owed {
      EndWaitKeeps(s.room, q, s.closed[q], s.cap);
      hide Ok;
    }
  }

  /** A closing owes the end of the wait from the moment it is written. */
  lemma CloseKeeps(s: State, q: string, allowed: bool)
    requires Inv(s)
    ensures Inv(Next(s, Close(q, allowed)))
  {
    hide Ok;
  }

  /** A look that finds the request closed owes the end of the wait; one that finds it waiting owes nothing. */
  lemma CheckKeeps(s: State, c: nat)
    requires Inv(s)
    ensures Inv(Next(s, Check(c)))
  {
    hide Ok;
  }

  lemma AgentsKeep(s: State, a: Action)
    requires Inv(s) && (a.Find? || a.CheckGone?)
    ensures Inv(Next(s, a))
  {
    hide Ok;
  }

  lemma NextKeeps(s: State, a: Action)
    requires Inv(s)
    ensures Inv(Next(s, a))
  {
    hide Inv, Next;
    match a
    case Connect(c) => ConnectKeeps(s, c);
    case Register(c) => RegisterKeeps(s, c);
    case LetGo(c) => LetGoStepKeeps(s, c);
    case EndWait(q) => EndWaitStepKeeps(s, q);
    case Close(q, allowed) => CloseKeeps(s, q, allowed);
    case Check(c) => CheckKeeps(s, c);
    case _ => AgentsKeep(s, a);
  }

  lemma {:induction false} RunKeeps(cap: int, actions: seq<Action>)
    ensures Inv(Run(Start(cap), actions))
  {
    hide Next;
    if actions != [] {
      RunKeeps(cap, actions[..|actions| - 1]);
      NextKeeps(Run(Start(cap), actions[..|actions| - 1]), actions[|actions| - 1]);
    }
  }

  /** Every `pair` has come to its end, and so has everybody who closed a request. */
  predicate Finished(s: State) {
    s.owed == multiset{} && forall c :: c in s.agents ==> s.agents[c] == Quiet || s.agents[c].Found?
  }

  /** No wait outlives its request, in any interleaving and through any takeover. */
  lemma NoWaitOutlivesItsRequest(cap: int, actions: seq<Action>, q: string)
    requires Finished(Run(Start(cap), actions))
    requires q in Run(Start(cap), actions).room.waits
    ensures q !in Run(Start(cap), actions).closed
  {
    RunKeeps(cap, actions);
  }

  /** And none is ended before its request: whoever is about to end a wait has seen the request closed. */
  lemma EndsOnlyTheClosed(cap: int, actions: seq<Action>, q: string)
    requires q in Run(Start(cap), actions).owed
    ensures q in Run(Start(cap), actions).closed
  {
    RunKeeps(cap, actions);
  }

  // ---- what a wait is for ----

  /** A connection that found a request waiting, and is held to something, is the holder of its wait from then on. */
  lemma RegisterTakes(s: State, c: nat, q: string)
    requires Inv(s) && AgentOf(s, c) == Found(q) && !Free(At(s.room, c))
    ensures var t := Next(s, Register(c));
            && q in t.room.waits && t.room.waits[q] == c && At(t.room, c).waitsOn == q && !At(t.room, c).placed
            && AgentOf(t, c) == Registered(q) && t.closed == s.closed && t.owed == s.owed
  {
    assert q != "" by { assert c in s.agents; }
    AwaitKeeps(s.room, c, q);
    AwaitTakes(s.room, c, q);
    hide Ok;
  }

  /** Closing a request is for good, and whoever closed it owes the end of its wait. */
  lemma CloseOwes(s: State, q: string, allowed: bool)
    ensures var t := Next(s, Close(q, allowed));
            && t.room == s.room && t.agents == s.agents
            && q in t.closed && t.closed[q] == (if q in s.closed then s.closed[q] else allowed)
            && (q !in s.closed ==> t.owed == s.owed + multiset{q})
            && (q in s.closed ==> t == s)
  {
  }

  /** The end owed of a wait frees its holder when the request was allowed, and makes it a stranger with a place otherwise. */
  lemma EndWaitAnswers(s: State, q: string) returns (cut: seq<nat>)
    requires Inv(s) && q in s.owed
    ensures q in s.closed
    ensures EndedTheWait(s.room, Next(s, Action.EndWait(q)).room, q, s.closed[q], s.cap, cut)
  {
    EndWaitEnds(s.room, q, s.closed[q], s.cap);
    var free := if q in s.room.waits then LetGoOf(s.room, s.room.waits[q]) else s.room;
    cut := if q in s.room.waits && !s.closed[q] then free.places[..Holds.Excess(free, s.cap)] else [];
    assert EndedTheWait(s.room, EndWaitOf(s.room, q, s.closed[q], s.cap), q, s.closed[q], s.cap, cut);
    hide EndedTheWait, EndWaitOf, Ok;
  }

  /** A wait is not lost meanwhile: it ends by its request's end, by another connection or another request, or by its holder's going. */
  lemma WaitStands(s: State, a: Action, q: string)
    requires Inv(s) && q in s.room.waits
    ensures var t, c := Next(s, a), s.room.waits[q];
            || (q in t.room.waits && t.room.waits[q] == c)
            || (a == Action.EndWait(q) && q in s.closed)
            || a == Action.LetGo(c)
            || (a.Register? && (a.c == c || AgentOf(s, a.c) == Found(q)))
  {
    var c := s.room.waits[q];
    assert At(s.room, c).waitsOn == q && WaitsOk(s.room);
    assert forall d: nat :: d != c ==> At(s.room, d).waitsOn != q;
    hide Ok;
    match a
    case Connect(d) => if Free(At(s.room, d)) { PlaceKeeps(s.room, d, s.cap); }
    case Register(d) =>
      if AgentOf(s, d).Found? && d != c && !Free(At(s.room, d)) && AgentOf(s, d).q != q {
        OthersKeepTheirs(s.room, d, AgentOf(s, d).q, q);
      }
    case LetGo(d) => LetGoKeeps(s.room, d);
    case EndWait(p) => if p in s.closed { EndWaitKeeps(s.room, p, s.closed[p], s.cap); }
    case _ =>
  }

  lemma OthersKeepTheirs(r: Room, d: nat, p: string, q: string)
    requires Ok(r) && q in r.waits && r.waits[q] != d && p != q && p != "" && !Free(At(r, d))
    ensures var t := AwaitOf(r, d, p); q in t.waits && t.waits[q] == r.waits[q]
  {
    var a := LetGoOf(r, d);
    assert At(r, r.waits[q]).waitsOn == q && At(r, d).waitsOn != q;
    LetGoKeeps(r, d);
    assert q in a.waits && a.waits[q] == r.waits[q];
    if p in a.waits {
      assert At(a, a.waits[p]).waitsOn == p;
    }
  }
}
