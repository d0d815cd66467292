/**
 Pairing requests against greetings and against their own end
 (client_backend/internal/server/requests.go): whoever opens a request writes the
 store, then walks the greeted connections of its issuer and asks on each; whoever
 closes one writes the store, then walks them and tells each; a connection is
 marked greeted, then reads the requests waiting for its device, asks for each,
 reads them again and tells of those that no longer wait.
 */
module AskProtocol {
  import opened Common

  /** A walk still to begin, or the frames it has left to send. */
  datatype Walk<T> = Due | Sending(left: set<T>)

  /** A greeting's requests: to be read; asked for one by one; to be read again; those over told one by one. */
  datatype Resend = ToRead | AskingFor(read: set<string>, left: set<string>) | ToLook(read: set<string>) | Telling(left: set<string>)

  /**
   `issuers` maps every request there has been to its issuer, for no id comes twice;
   `waiting` holds those that wait and are in time, `closed` those the store has
   closed. `conns` maps connections to their devices. `dialogs` is what a device
   shows: an ask opens a dialog on its connection, a frame that tells of the end
   closes it. `late` records the asks of an announcement sent when nothing that
   would close their dialog was left to come.
   */
  datatype State = State(
    issuers: map<string, string>,
    waiting: set<string>,
    closed: set<string>,
    conns: map<nat, string>,
    greeted: set<nat>,
    gone: set<nat>,
    announcing: map<string, Walk<nat>>,
    closing: map<string, Walk<nat>>,
    resending: map<nat, Resend>,
    asked: set<(nat, string)>,
    dialogs: set<(nat, string)>,
    late: set<(nat, string)>)

  datatype Action =
    | Connect(c: nat, device: string)
    | Leave(c: nat)
    | Open(q: string, issuer: string)
    | Lapse(q: string)
    | Close(q: string)
    | WalkGreeted(q: string)
    | AskOn(q: string, c: nat)
    | EndAnnounce(q: string)
    | WalkToTell(q: string)
    | TellOn(q: string, c: nat)
    | EndClose(q: string)
    | MarkGreeted(c: nat)
    | ReadWaiting(c: nat)
    | AskFor(c: nat, q: string)
    | EndAsking(c: nat)
    | LookAgain(c: nat)
    | TellFor(c: nat, q: string)
    | EndResend(c: nat)

  /** The greeted connections of a request's issuer. */
  function Audience(s: State, q: string): set<nat> {
    set c | c in s.greeted && c in s.conns && q in s.issuers && s.conns[c] == s.issuers[q]
  }

  function Shown(s: State, c: nat, q: string): State {
    s.(asked := s.asked + {(c, q)}, dialogs := s.dialogs + {(c, q)})
  }

  function Told(s: State, c: nat, q: string): State {
    s.(dialogs := s.dialogs - {(c, q)})
  }

  predicate InWalk(m: map<string, Walk<nat>>, q: string, c: nat) {
    q in m && m[q].Sending? && c in m[q].left
  }

  predicate Ended<K(==), T(==)>(m: map<K, Walk<T>>, k: K) {
    k in m && m[k] == Sending({})
  }

  /** A frame that will close the dialog of `q` on `c` is still to come: from whoever closed it, or from the second look. */
  predicate EndToCome(s: State, q: string, c: nat) {
    || (q in s.closing && (s.closing[q].Due? || c in s.closing[q].left))
    || (c in s.resending &&
          match s.resending[c]
          case ToRead => false
          case AskingFor(read, _) => q in read
          case ToLook(read) => q in read
          case Telling(left) => q in left)
  }

  function Next(s: State, a: Action): State {
    match a
    case Connect(c, device) => if c in s.conns then s else s.(conns := s.conns[c := device])
    case Leave(c) => s.(greeted := s.greeted - {c}, gone := s.gone + {c})
    case Open(q, issuer) =>
      if q in s.issuers then s
      else s.(issuers := s.issuers[q := issuer], waiting := s.waiting + {q}, announcing := s.announcing[q := Due])
    case Lapse(q) => s.(waiting := s.waiting - {q})
    case Close(q) =>
      if q in s.issuers && q !in s.closed
      then s.(waiting := s.waiting - {q}, closed := s.closed + {q}, closing := s.closing[q := Due]) else s
    case WalkGreeted(q) =>
      if q in s.announcing && s.announcing[q].Due? then s.(announcing := s.announcing[q := Sending(Audience(s, q))]) else s
    case AskOn(q, c) =>
      if InWalk(s.announcing, q, c)
      then Shown(s, c, q).(announcing := s.announcing[q := Sending(s.announcing[q].left - {c})],
                           late := if q in s.closed && !EndToCome(s, q, c) then s.late + {(c, q)} else s.late)
      else s
    case EndAnnounce(q) => if Ended(s.announcing, q) then s.(announcing := s.announcing - {q}) else s
    case WalkToTell(q) =>
      if q in s.closing && s.closing[q].Due? then s.(closing := s.closing[q := Sending(Audience(s, q))]) else s
    case TellOn(q, c) =>
      if InWalk(s.closing, q, c) then Told(s, c, q).(closing := s.closing[q := Sending(s.closing[q].left - {c})]) else s
    case EndClose(q) => if Ended(s.closing, q) then s.(closing := s.closing - {q}) else s
    case MarkGreeted(c) =>
      if c in s.conns && c !in s.greeted && c !in s.gone && c !in s.resending
      then s.(greeted := s.greeted + {c}, resending := s.resending[c := ToRead]) else s
    case ReadWaiting(c) =>
      if c in s.resending && s.resending[c].ToRead? && c in s.conns
      then
        var read := set q | q in s.waiting && q in s.issuers && s.issuers[q] == s.conns[c];
        s.(resending := s.resending[c := AskingFor(read, read)])
      else s
    case AskFor(c, q) =>
      if c in s.resending && s.resending[c].AskingFor? && q in s.resending[c].left
      then Shown(s, c, q).(resending := s.resending[c := AskingFor(s.resending[c].read, s.resending[c].left - {q})]) else s
    case EndAsking(c) =>
      if c in s.resending && s.resending[c].AskingFor? && s.resending[c].left == {}
      then s.(resending := s.resending[c := ToLook(s.resending[c].read)]) else s
    case LookAgain(c) =>
      if c in s.resending && s.resending[c].ToLook?
      then s.(resending := s.resending[c := Telling(s.resending[c].read - s.waiting)]) else s
    case TellFor(c, q) =>
      if c in s.resending && s.resending[c].Telling? && q in s.resending[c].left
      then Told(s, c, q).(resending := s.resending[c := Telling(s.resending[c].left - {q})]) else s
    case EndResend(c) =>
      if c in s.resending && s.resending[c] == Telling({}) then s.(resending := s.resending - {c}) else s
  }

  function Run(s: State, actions: seq<Action>): State {
    if actions == [] then s else Next(Run(s, actions[..|actions| - 1]), actions[|actions| - 1])
  }

  function Start(): State {
    State(map[], {}, {}, map[], {}, {}, map[], map[], map[], {}, {}, {})
  }

  // ---- every request is asked ----

  predicate AskToCome(s: State, q: string, c: nat) {
    || (q in s.announcing && (s.announcing[q].Due? || c in s.announcing[q].left))
    || (c in s.resending && (s.resending[c].ToRead? || (s.resending[c].AskingFor? && q in s.resending[c].left)))
  }

  /** Request `q` concerns connection `c`: it waits for the answer of the device `c` is greeted as. */
  predicate Concerns(s: State, q: string, c: nat) {
    q in s.waiting && c in Audience(s, q)
  }

  predicate Served(s: State, q: string, c: nat) {
    Concerns(s, q, c) ==> (c, q) in s.asked || AskToCome(s, q, c)
  }

  // ---- every dialog is closed, but for the late ----

  /** The connection has greeted, whether or not it is still there. */
  predicate Met(s: State, c: nat) {
    c in s.conns && (c in s.greeted || c in s.gone)
  }

  /** A dialog is open on a connection of the request's issuer; one of a closed request has its end to come, or was late. */
  predicate DialogOk(s: State, q: string, c: nat) {
    && ((c, q) in s.dialogs ==> Met(s, c) && q in s.issuers && s.conns[c] == s.issuers[q])
    && ((c, q) in s.dialogs && c in s.greeted && q in s.closed ==> EndToCome(s, q, c) || (c, q) in s.late)
  }

  /** A late one stays open: nothing that would close it is left. */
  predicate LateOk(s: State, q: string, c: nat) {
    (c, q) in s.late ==> (c, q) in s.dialogs && q in s.closed && !EndToCome(s, q, c)
  }

  /** Walks and greetings are about connections of the request's issuer; what is closed does not wait. */
  predicate WalkOk(s: State, q: string, c: nat) {
    && (c in s.greeted ==> c in s.conns) && (c in s.resending ==> Met(s, c))
    && (InWalk(s.announcing, q, c) ==> Met(s, c) && q in s.issuers && s.conns[c] == s.issuers[q])
    && (c in s.resending && s.resending[c].AskingFor? && q in s.resending[c].read ==>
          c in s.conns && q in s.issuers && s.conns[c] == s.issuers[q])
    && (c in s.resending && s.resending[c].AskingFor? && q in s.resending[c].left ==> q in s.resending[c].read)
    && (c in s.resending && s.resending[c].ToLook? && q in s.resending[c].read ==> q in s.issuers)
    && (c in s.resending && s.resending[c].Telling? && q in s.resending[c].left ==> q in s.issuers && q !in s.waiting)
    && (q in s.closed ==> q in s.issuers && q !in s.waiting)
    && (q in s.closing ==> q in s.closed)
    && (q in s.waiting ==> q in s.issuers)
  }

  /** What was asked and still waits is still shown. */
  predicate StaysOpen(s: State, q: string, c: nat) {
    && ((c, q) in s.asked ==> q in s.issuers)
    && ((c, q) in s.asked && q in s.waiting ==> (c, q) in s.dialogs)
  }

  ghost predicate Inv(s: State) {
    forall q, c {:trigger Served(s, q, c)} ::
      Served(s, q, c) && DialogOk(s, q, c) && LateOk(s, q, c) && WalkOk(s, q, c) && StaysOpen(s, q, c)
  }

  lemma ServedStays(s: State, a: Action, q: string, c: nat)
    requires Served(s, q, c) && WalkOk(s, q, c)
    ensures Served(Next(s, a), q, c)
  {
  }

  lemma WalkStays(s: State, a: Action, q: string, c: nat)
    requires WalkOk(s, q, c)
    ensures WalkOk(Next(s, a), q, c)
  {
  }

  lemma DialogStays(s: State, a: Action, q: string, c: nat)
    requires DialogOk(s, q, c) && WalkOk(s, q, c)
    ensures DialogOk(Next(s, a), q, c)
  {
  }

  lemma LateStays(s: State, a: Action, q: string, c: nat)
    requires LateOk(s, q, c) && WalkOk(s, q, c)
    ensures LateOk(Next(s, a), q, c)
  {
  }

  lemma OpenStays(s: State, a: Action, q: string, c: nat)
    requires StaysOpen(s, q, c) && WalkOk(s, q, c)
    ensures StaysOpen(Next(s, a), q, c)
  {
    hide EndToCome, Audience;
  }

  lemma NextKeeps(s: State, a: Action)
    requires Inv(s)
    ensures Inv(Next(s, a))
  {
    hide Served, DialogOk, LateOk, WalkOk, StaysOpen, Next;
    forall q, c
      ensures Served(Next(s, a), q, c) && DialogOk(Next(s, a), q, c) && LateOk(Next(s, a), q, c)
              && WalkOk(Next(s, a), q, c) && StaysOpen(Next(s, a), q, c)
    {
      assert Served(s, q, c);
      ServedStays(s, a, q, c);
      DialogStays(s, a, q, c);
      LateStays(s, a, q, c);
      WalkStays(s, a, q, c);
      OpenStays(s, a, q, c);
    }
  }

  lemma StartInv()
    ensures Inv(Start())
  {
    var s := Start();
    forall q, c: nat
      ensures Served(s, q, c) && DialogOk(s, q, c) && LateOk(s, q, c) && WalkOk(s, q, c) && StaysOpen(s, q, c)
    {
      assert Audience(s, q) == {};
    }
  }

  lemma {:induction false} RunKeeps(actions: seq<Action>)
    ensures Inv(Run(Start(), actions))
  {
    hide Next, Inv;
    if actions == [] {
      StartInv();
    } else {
      RunKeeps(actions[..|actions| - 1]);
      NextKeeps(Run(Start(), actions[..|actions| - 1]), actions[|actions| - 1]);
    }
  }

  // ---- what the design promises, and where it does not reach ----

  /** Once both sides have finished, every waiting request has been asked on every greeted connection of its issuer, and is still shown. */
  lemma EveryRequestReachesItsIssuer(actions: seq<Action>, q: string, c: nat)
    requires var s := Run(Start(), actions);
             && q in s.waiting && q in s.issuers && c in s.greeted && c in s.conns && s.conns[c] == s.issuers[q]
             && q !in s.announcing && c !in s.resending
    ensures (c, q) in Run(Start(), actions).asked && (c, q) in Run(Start(), actions).dialogs
  {
    RunKeeps(actions);
    hide Run;
    assert Served(Run(Start(), actions), q, c);
  }

  /** A device is asked only about requests it issued, and a request is shown while it waits, in every state. */
  lemma AskedWhomItConcerns(actions: seq<Action>, q: string, c: nat)
    requires (c, q) in Run(Start(), actions).asked
    ensures var s := Run(Start(), actions);
            && q in s.issuers
            && (q in s.waiting ==> (c, q) in s.dialogs && c in s.conns && s.conns[c] == s.issuers[q])
  {
    RunKeeps(actions);
    hide Run;
    assert Served(Run(Start(), actions), q, c);
  }

  /** A request opened waits, is its issuer's, and its announcement is due; one id never opens twice. */
  lemma OpenedWaits(s: State, q: string, issuer: string, another: string)
    requires q !in s.issuers
    ensures var t := Next(s, Open(q, issuer));
            && q in t.waiting && t.issuers == s.issuers[q := issuer] && q in t.announcing && t.announcing[q].Due?
            && Next(t, Open(q, another)) == t
  {
  }

  /** A greeting asks: any request waiting for the device is read and shown. */
  lemma GreetingAsks(s: State, c: nat, q: string)
    requires c in s.conns && c !in s.greeted && c !in s.gone && c !in s.resending
    requires q in s.waiting && q in s.issuers && s.issuers[q] == s.conns[c]
    ensures var t := Next(Next(Next(s, MarkGreeted(c)), ReadWaiting(c)), AskFor(c, q));
            c in t.greeted && (c, q) in t.asked && (c, q) in t.dialogs && q in t.waiting
  {
    var s1 := s.(greeted := s.greeted + {c}, resending := s.resending[c := ToRead]);
    assert Next(s, MarkGreeted(c)) == s1;
    var read := set x | x in s1.waiting && x in s1.issuers && s1.issuers[x] == s1.conns[c];
    assert Next(s1, ReadWaiting(c)) == s1.(resending := s1.resending[c := AskingFor(read, read)]);
    hide EndToCome, Audience;
  }

  /**
   Once all sides have finished, a greeted connection is left with an open dialog
   for a closed request exactly when the announcement's ask went out to it late: the
   request closed, its end told there or never to be, and no second look to come.
   The asks of a greeting never leave one.
   */
  lemma OnlyLateAsksStayOpen(actions: seq<Action>, q: string, c: nat)
    requires var s := Run(Start(), actions);
             c in s.greeted && q in s.closed && q !in s.closing && c !in s.resending
    ensures var s := Run(Start(), actions);
            (c, q) in s.dialogs <==> (c, q) in s.late
  {
    RunKeeps(actions);
    hide Run;
    assert Served(Run(Start(), actions), q, c);
  }

  /** A request whose announcement is over before it closes leaves no dialog behind. */
  lemma AnnouncedInTimeLeavesNone(s: State, actions: seq<Action>, q: string, c: nat)
    requires Inv(s) && q in s.issuers && q !in s.closed && q !in s.announcing
    ensures (c, q) !in Run(s, actions).late
  {
    assert Served(s, q, c);
    NeverLate(s, actions, q, c);
  }

  lemma {:induction false} NeverLate(s: State, actions: seq<Action>, q: string, c: nat)
    requires q in s.issuers && q !in s.announcing && (c, q) !in s.late
    ensures var t := Run(s, actions); q in t.issuers && q !in t.announcing && (c, q) !in t.late
  {
    hide Next;
    if actions != [] {
      NeverLate(s, actions[..|actions| - 1], q, c);
      NotLateNext(Run(s, actions[..|actions| - 1]), actions[|actions| - 1], q, c);
    }
  }

  lemma NotLateNext(s: State, a: Action, q: string, c: nat)
    requires q in s.issuers && q !in s.announcing && (c, q) !in s.late
    ensures var t := Next(s, a); q in t.issuers && q !in t.announcing && (c, q) !in t.late
  {
    hide EndToCome, Audience;
  }

  /**
   It does happen: on any greeted connection whose greeting is over, a request that
   closes, and whose end is told there, between the announcement's walk and its ask.
   */
  lemma LateAsk(s: State, q: string, c: nat)
    requires Inv(s) && c in s.greeted && c !in s.resending && q !in s.issuers
    ensures c in s.conns
    ensures var t := Run(s, [Open(q, s.conns[c]), WalkGreeted(q), Close(q), WalkToTell(q), TellOn(q, c), AskOn(q, c)]);
            (c, q) in t.dialogs && q in t.closed && (c, q) in t.late && !EndToCome(t, q, c)
  {
    assert Served(s, q, c);
    var a, b, d := Open(q, s.conns[c]), WalkGreeted(q), Close(q);
    var e, f, g := WalkToTell(q), TellOn(q, c), AskOn(q, c);
    var s3 := Next(Next(Next(s, a), b), d);
    var s6 := Next(Next(Next(s3, e), f), g);
    ClosedInTheWalk(s, q, c);
    AskedAfterTheEnd(s3, q, c);
    hide Next, EndToCome, Inv;
    RunOfThree(s, a, b, d);
    RunOfThree(s3, e, f, g);
    RunConcat(s, [a, b, d], [e, f, g]);
    assert [a, b, d] + [e, f, g] == [a, b, d, e, f, g];
  }

  lemma ClosedInTheWalk(s: State, q: string, c: nat)
    requires c in s.greeted && c in s.conns && c !in s.resending && q !in s.issuers && q !in s.closed
    ensures var t := Next(Next(Next(s, Open(q, s.conns[c])), WalkGreeted(q)), Close(q));
            && q in t.closed && InWalk(t.announcing, q, c) && q in t.closing && t.closing[q].Due?
            && c in Audience(t, q) && c !in t.resending
  {
    var s1 := Next(s, Open(q, s.conns[c]));
    assert c in Audience(s1, q);
    hide EndToCome;
    assert Next(s1, WalkGreeted(q)) == s1.(announcing := s1.announcing[q := Sending(Audience(s1, q))]);
  }

  lemma AskedAfterTheEnd(s: State, q: string, c: nat)
    requires q in s.closed && InWalk(s.announcing, q, c) && q in s.closing && s.closing[q].Due?
    requires c in Audience(s, q) && c !in s.resending
    ensures var t := Next(Next(Next(s, WalkToTell(q)), TellOn(q, c)), AskOn(q, c));
            (c, q) in t.dialogs && q in t.closed && (c, q) in t.late && !EndToCome(t, q, c)
  {
    var s1 := s.(closing := s.closing[q := Sending(Audience(s, q))]);
    assert Next(s, WalkToTell(q)) == s1;
    var s2 := Told(s1, c, q).(closing := s1.closing[q := Sending(Audience(s, q) - {c})]);
    assert Next(s1, TellOn(q, c)) == s2;
    assert !EndToCome(s2, q, c);
  }

  lemma RunOfThree(s: State, a: Action, b: Action, d: Action)
    ensures Run(s, [a, b, d]) == Next(Next(Next(s, a), b), d)
  {
    hide Next;
    assert [a, b, d][..2] == [a, b] && [a, b][..1] == [a] && [a][..0] == [];
    assert Run(s, []) == s && Run(s, [a]) == Next(s, a) && Run(s, [a, b]) == Next(Next(s, a), b);
  }

  lemma {:induction false} RunConcat(s: State, xs: seq<Action>, ys: seq<Action>)
    ensures Run(s, xs + ys) == Run(Run(s, xs), ys)
  {
    hide Next;
    if ys == [] {
      assert xs + ys == xs;
    } else {
      assert (xs + ys)[..|xs + ys| - 1] == xs + ys[..|ys| - 1];
      RunConcat(s, xs, ys[..|ys| - 1]);
    }
  }
}
