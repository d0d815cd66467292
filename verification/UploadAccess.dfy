/**
 Who may write a file's part, and when
 (client_backend/internal/server/tokens.go, writers.go and the PUT of files.go):
 one-shot tokens, one writer per file, and the steps of concurrent requests.
 */
module UploadAccess {
  import opened Common

  const TOKEN_TTL: int := 600

  datatype TokenOp = ForUpload | ForDownload

  datatype Entry = Entry(file: string, op: TokenOp, offset: nat, expires: int)

  predicate Superseded(e: Entry, file: string, op: TokenOp) {
    op == ForUpload && e.op == ForUpload && e.file == file
  }

  predicate Swept(e: Entry, file: string, op: TokenOp, now: int) {
    Superseded(e, file, op) || now > e.expires
  }

  function IssueOf(ts: map<string, Entry>, token: string, file: string, op: TokenOp, offset: nat, now: int): map<string, Entry> {
    (map k | k in ts && !Swept(ts[k], file, op, now) :: ts[k])[token := Entry(file, op, offset, now + TOKEN_TTL)]
  }

  /** Which entry a presented token redeems, if any; the token is gone from here on either way. */
  function RedeemOf(ts: map<string, Entry>, token: string, op: TokenOp, now: int): Option<Entry> {
    if token in ts && ts[token].op == op && now <= ts[token].expires then Some(ts[token]) else None
  }

  /** At most one upload token per file is live. */
  ghost predicate OneUploadToken(ts: map<string, Entry>) {
    forall j, k :: j in ts && k in ts && ts[j].op == ForUpload && ts[k].op == ForUpload && ts[j].file == ts[k].file ==> j == k
  }

  lemma IssueKeepsOne(ts: map<string, Entry>, token: string, file: string, op: TokenOp, offset: nat, now: int)
    requires OneUploadToken(ts)
    ensures OneUploadToken(IssueOf(ts, token, file, op, offset, now))
  {
    var after := IssueOf(ts, token, file, op, offset, now);
    forall j, k | j in after && k in after && after[j].op == ForUpload && after[k].op == ForUpload && after[j].file == after[k].file
      ensures j == k
    {
      if j != token && k != token {
        assert ts[j] == after[j] && ts[k] == after[k];
      }
    }
  }

  /** A token outlives the issue of another: it has not expired, and is not an upload token of the file one is issued for. */
  predicate Outlives(e: Entry, file: string, op: TokenOp, now: int) {
    now <= e.expires && !(op == ForUpload && e.op == ForUpload && e.file == file)
  }

  class TokenStore {
    var tokens: map<string, Entry>

    constructor ()
      ensures tokens == map[] && Valid()
    {
      tokens := map[];
    }

    ghost predicate Valid()
      reads this
    {
      OneUploadToken(tokens)
    }

    /** Mints a token, after a sweep of the expired ones and of the file's earlier upload tokens. */
    method Issue(token: string, file: string, op: TokenOp, offset: nat, now: int)
      requires Valid() && token !in tokens
      modifies this
      ensures Valid() && tokens == IssueOf(old(tokens), token, file, op, offset, now)
      ensures token in tokens && tokens[token] == Entry(file, op, offset, now + 600)
      ensures forall k :: k != token ==>
        (k in tokens <==> k in old(tokens) && Outlives(old(tokens)[k], file, op, now)) && (k in tokens ==> tokens[k] == old(tokens)[k])
    {
      IssueKeepsOne(tokens, token, file, op, offset, now);
      ghost var start := tokens;
      var left := tokens.Keys;
      while left != {}
        invariant left <= start.Keys
        invariant forall k :: k in tokens <==> k in start && (k in left || !Swept(start[k], file, op, now))
        invariant forall k :: k in tokens ==> tokens[k] == start[k]
        decreases left
      {
        var k :| k in left;
        if Swept(tokens[k], file, op, now) {
          tokens := tokens - {k};
        }
        left := left - {k};
      }
      tokens := tokens[token := Entry(file, op, offset, now + TOKEN_TTL)];
    }

    /** Redeems a token once; the first presentation removes it whatever comes of it. */
    method Consume(token: string, op: TokenOp, now: int) returns (e: Option<Entry>)
      requires Valid()
      modifies this
      ensures Valid() && tokens == old(tokens) - {token}
      ensures e.Some? <==> token in old(tokens) && old(tokens)[token].op == op && now <= old(tokens)[token].expires
      ensures e.Some? ==> e.value == old(tokens)[token]
      ensures RedeemOf(tokens, token, op, now) == None
    {
      if token !in tokens {
        return None;
      }
      var found := tokens[token];
      tokens := tokens - {token};
      if found.op != op || now > found.expires {
        return None;
      }
      e := Some(found);
    }
  }

  // ---- requests side by side ----

  datatype Row = Row(size: nat, uploaded: bool)

  /** Where a PUT is: its token redeemed, the file's one writer, writing the part, the bytes all in place, leaving. */
  datatype Stage = Waiting | Holding | Writing | Complete | Leaving

  datatype Put = Put(file: string, offset: nat, stage: Stage)

  /** What is in memory - tokens, the registry of writers, requests under way - and the file rows, which are not. */
  datatype State = State(
    tokens: map<string, Entry>,
    minted: set<string>,
    redeemed: seq<string>,
    rows: map<string, Row>,
    active: map<string, nat>,
    puts: map<nat, Put>,
    asking: map<nat, (string, nat)>)

  /** What a writer found: the file finished, too few durable bytes or no part to be had, or the part open. */
  datatype Found = IsWhole | IsShort | IsOpen

  datatype Action =
    | Declare(file: string, size: nat, token: string, now: int)
    | Ask(k: nat, file: string, received: nat)
    | Reply(k: nat, token: string, now: int)
    | Present(r: nat, token: string, now: int)
    | Take(r: nat)
    | GiveUp(r: nat)
    | Look(r: nat, found: Found)
    | LetGo(r: nat)
    | Whole(r: nat)
    | Commit(r: nat)
    | CommitFails(r: nat)
    | Release(r: nat)
    | Restart

  function WithPut(s: State, r: nat, stage: Stage): State
    requires r in s.puts
  {
    s.(puts := s.puts[r := s.puts[r].(stage := stage)])
  }

  predicate Is(s: State, r: nat, stage: Stage) {
    r in s.puts && s.puts[r].stage == stage && s.puts[r].file in s.rows
  }

  function Issued(s: State, file: string, offset: nat, token: string, now: int): State {
    if token in s.minted then s
    else s.(minted := s.minted + {token}, tokens := IssueOf(s.tokens, token, file, ForUpload, offset, now))
  }

  /** A PUT after its look at a finished file: it may have a commit to land, or nothing to do. */
  function AfterFinished(p: Put, row: Row): Stage {
    if p.offset < row.size || row.uploaded then Leaving else Complete
  }

  function Next(s: State, a: Action): State {
    match a
    case Declare(file, size, token, now) =>
      if file in s.rows || size == 0 || token in s.minted then s
      else Issued(s.(rows := s.rows[file := Row(size, false)]), file, 0, token, now)
    case Ask(k, file, received) =>
      if file in s.rows && k !in s.asking then s.(asking := s.asking[k := (file, received)]) else s
    case Reply(k, token, now) =>
      if k in s.asking && token !in s.minted
      then Issued(s, s.asking[k].0, s.asking[k].1, token, now).(asking := s.asking - {k}) else s
    case Present(r, token, now) =>
      if r in s.puts then s
      else
        var e := RedeemOf(s.tokens, token, ForUpload, now);
        var t := s.(tokens := s.tokens - {token});
        if e.None? then t
        else t.(redeemed := s.redeemed + [token], puts := s.puts[r := Put(e.value.file, e.value.offset, Waiting)])
    case Take(r) =>
      if Is(s, r, Waiting) && s.puts[r].file !in s.active
      then WithPut(s, r, Holding).(active := s.active[s.puts[r].file := r]) else s
    case GiveUp(r) => if Is(s, r, Waiting) then s.(puts := s.puts - {r}) else s
    case Look(r, found) =>
      if !Is(s, r, Holding) then s
      else WithPut(s, r,
             match found
             case IsWhole => AfterFinished(s.puts[r], s.rows[s.puts[r].file])
             case IsShort => Leaving
             case IsOpen => Writing)
    case LetGo(r) => if Is(s, r, Writing) then WithPut(s, r, Leaving) else s
    case Whole(r) => if Is(s, r, Writing) then WithPut(s, r, Complete) else s
    case Commit(r) =>
      if Is(s, r, Complete)
      then WithPut(s, r, Leaving).(rows := s.rows[s.puts[r].file := s.rows[s.puts[r].file].(uploaded := true)]) else s
    case CommitFails(r) => if Is(s, r, Complete) then WithPut(s, r, Leaving) else s
    case Release(r) =>
      if Is(s, r, Leaving)
      then s.(puts := s.puts - {r},
              active := if s.puts[r].file in s.active && s.active[s.puts[r].file] == r then s.active - {s.puts[r].file} else s.active)
      else s
    case Restart => s.(tokens := map[], active := map[], puts := map[], asking := map[])
  }

  function Run(s: State, actions: seq<Action>): State {
    if actions == [] then s else Next(Run(s, actions[..|actions| - 1]), actions[|actions| - 1])
  }

  function Start(): State {
    State(map[], {}, [], map[], map[], map[], map[])
  }

  // ---- what a token is good for ----

  /** The tokens after one for `file` was issued: it, good for ten minutes, and those that outlive it. */
  ghost predicate IssuedNow(was: map<string, Entry>, after: map<string, Entry>, token: string, file: string, offset: nat, now: int) {
    && token in after && after[token] == Entry(file, ForUpload, offset, now + 600)
    && (forall k :: k != token ==> (k in after <==> k in was && Outlives(was[k], file, ForUpload, now)))
    && (forall k :: k != token && k in after ==> after[k] == was[k])
  }

  /** A declared file gets a token from its start; a continuation gets one from what it was told is there. */
  lemma TokensAreIssuedFor(s: State, token: string, now: int)
    requires token !in s.minted
    ensures forall file: string, size: nat :: file !in s.rows && size > 0 ==>
              var t := Next(s, Action.Declare(file, size, token, now));
              && IssuedNow(s.tokens, t.tokens, token, file, 0, now)
              && t.rows == s.rows[file := Row(size, false)] && t.puts == s.puts && t.active == s.active
    ensures forall k :: k in s.asking ==>
              var t := Next(s, Reply(k, token, now));
              && IssuedNow(s.tokens, t.tokens, token, s.asking[k].0, s.asking[k].1, now)
              && t.rows == s.rows && t.puts == s.puts && t.active == s.active
  {
    forall file: string, offset: nat
      ensures IssuedNow(s.tokens, IssueOf(s.tokens, token, file, ForUpload, offset, now), token, file, offset, now)
    {
    }
    hide IssueOf, IssuedNow;
  }

  /** Presented in time an upload token starts a PUT of its file at its offset; presented at all it is gone. */
  lemma PresentedStartsItsPut(s: State, r: nat, token: string, now: int)
    requires r !in s.puts
    ensures var t := Next(s, Present(r, token, now));
            && t.tokens.Keys == s.tokens.Keys - {token} && (forall k :: k in t.tokens ==> t.tokens[k] == s.tokens[k])
            && t.rows == s.rows && t.active == s.active
            && t.puts == if token in s.tokens && s.tokens[token].op == ForUpload && now <= s.tokens[token].expires
                         then s.puts[r := Put(s.tokens[token].file, s.tokens[token].offset, Waiting)] else s.puts
  {
  }

  /** Until it is presented, superseded, swept or lost in a restart, a token stays what it was issued as. */
  lemma TokenStays(s: State, a: Action, token: string)
    requires token in s.tokens && s.tokens.Keys <= s.minted
    ensures var e, t := s.tokens[token], Next(s, a);
            && (token in t.tokens ==> t.tokens[token] == e)
            && (token !in t.tokens ==>
                  || a.Restart?
                  || (a.Present? && a.token == token)
                  || (a.Declare? && !Outlives(e, a.file, ForUpload, a.now))
                  || (a.Reply? && a.k in s.asking && !Outlives(e, s.asking[a.k].0, ForUpload, a.now)))
  {
  }

  /** What a PUT's steps come to: who takes a file, what the look decides, whose row is told, and that a release is one. */
  lemma PutSteps(s: State, r: nat)
    requires r in s.puts && s.puts[r].file in s.rows
    ensures var p, file := s.puts[r], s.puts[r].file;
            && (p.stage == Waiting ==>
                  Next(s, Take(r)) == if file in s.active then s else s.(puts := s.puts[r := Put(file, p.offset, Holding)], active := s.active[file := r]))
            && (p.stage == Holding ==>
                  && Next(s, Look(r, IsOpen)) == s.(puts := s.puts[r := Put(file, p.offset, Writing)])
                  && Next(s, Look(r, IsShort)) == s.(puts := s.puts[r := Put(file, p.offset, Leaving)])
                  && Next(s, Look(r, IsWhole)) == s.(puts := s.puts[r :=
                       Put(file, p.offset, if p.offset >= s.rows[file].size && !s.rows[file].uploaded then Complete else Leaving)]))
            && (p.stage == Writing ==>
                  && Next(s, Whole(r)) == s.(puts := s.puts[r := Put(file, p.offset, Complete)])
                  && Next(s, LetGo(r)) == s.(puts := s.puts[r := Put(file, p.offset, Leaving)]))
            && (p.stage == Complete ==>
                  Next(s, Commit(r)) == s.(puts := s.puts[r := Put(file, p.offset, Leaving)],
                                           rows := s.rows[file := Row(s.rows[file].size, true)]))
            && (p.stage == Leaving && file in s.active && s.active[file] == r ==>
                  Next(s, Release(r)) == s.(puts := s.puts - {r}, active := s.active - {file}))
  {
  }

  // ---- what every reachable state keeps ----

  /** No token is live after it was redeemed, and none is redeemed twice. */
  ghost predicate TokensOk(s: State) {
    && OneUploadToken(s.tokens)
    && s.tokens.Keys <= s.minted
    && (forall i :: 0 <= i < |s.redeemed| ==> s.redeemed[i] in s.minted && s.redeemed[i] !in s.tokens)
    && (forall i, j :: 0 <= i < j < |s.redeemed| ==> s.redeemed[i] != s.redeemed[j])
  }

  /** The registry names exactly the requests past their wait, one for each file, and their files have rows. */
  ghost predicate WritersOk(s: State) {
    && (forall f :: f in s.active ==> s.active[f] in s.puts && s.puts[s.active[f]].file == f && s.puts[s.active[f]].stage != Waiting)
    && (forall r :: r in s.puts && s.puts[r].stage != Waiting ==>
          s.puts[r].file in s.active && s.active[s.puts[r].file] == r && s.puts[r].file in s.rows)
  }

  ghost predicate Inv(s: State) {
    TokensOk(s) && WritersOk(s)
  }

  /** Steps that change no request's stage, steps of a writer, and steps into and out of the registry. */
  predicate Aside(a: Action) {
    a.Declare? || a.Ask? || a.Reply?
  }

  predicate OfTheWriter(a: Action) {
    a.Look? || a.LetGo? || a.Whole? || a.Commit? || a.CommitFails?
  }

  lemma IssuedKeepsTokens(s: State, file: string, offset: nat, token: string, now: int)
    requires TokensOk(s)
    ensures TokensOk(Issued(s, file, offset, token, now))
  {
    IssueKeepsOne(s.tokens, token, file, ForUpload, offset, now);
  }

  lemma PresentKeepsTokens(s: State, a: Action)
    requires TokensOk(s) && a.Present?
    ensures TokensOk(Next(s, a))
  {
  }

  lemma SameTokens(s: State, t: State)
    requires TokensOk(s) && (t.tokens == s.tokens || t.tokens == map[]) && t.minted == s.minted && t.redeemed == s.redeemed
    ensures TokensOk(t)
  {
  }

  lemma TokensKeep(s: State, a: Action)
    requires TokensOk(s)
    ensures TokensOk(Next(s, a))
  {
    hide TokensOk, IssueOf, RedeemOf;
    match a
    case Declare(file, size, token, now) =>
      var t := s.(rows := s.rows[file := Row(size, false)]);
      SameTokens(s, t);
      IssuedKeepsTokens(t, file, 0, token, now);
    case Reply(k, token, now) =>
      if k in s.asking {
        IssuedKeepsTokens(s, s.asking[k].0, s.asking[k].1, token, now);
        var t := Issued(s, s.asking[k].0, s.asking[k].1, token, now);
        SameTokens(t, t.(asking := s.asking - {k}));
      }
    case Present(_, _, _) => PresentKeepsTokens(s, a);
    case _ => SameTokens(s, Next(s, a));
  }

  lemma RestagedKeeps(s: State, r: nat, stage: Stage)
    requires WritersOk(s) && r in s.puts && s.puts[r].stage != Waiting && stage != Waiting
    ensures WritersOk(WithPut(s, r, stage))
  {
  }

  lemma SameWriters(s: State, t: State)
    requires WritersOk(s) && t.puts == s.puts && t.active == s.active && s.rows.Keys <= t.rows.Keys
    ensures WritersOk(t)
  {
  }

  lemma WriterStepKeeps(s: State, a: Action)
    requires WritersOk(s) && OfTheWriter(a)
    ensures WritersOk(Next(s, a))
  {
    hide WritersOk;
    var t := Next(s, a);
    if t == s {
    } else {
      RestagedKeeps(s, a.r, t.puts[a.r].stage);
      SameWriters(WithPut(s, a.r, t.puts[a.r].stage), t);
    }
  }

  lemma RegistryStepKeeps(s: State, a: Action)
    requires WritersOk(s) && !OfTheWriter(a) && !Aside(a)
    ensures WritersOk(Next(s, a))
  {
    hide RedeemOf;
  }

  lemma AsideKeeps(s: State, a: Action)
    requires WritersOk(s) && Aside(a)
    ensures WritersOk(Next(s, a))
  {
    hide IssueOf;
    SameWriters(s, Next(s, a));
  }

  lemma NextKeeps(s: State, a: Action)
    requires Inv(s)
    ensures Inv(Next(s, a))
  {
    hide Next, TokensOk, WritersOk;
    TokensKeep(s, a);
    if OfTheWriter(a) {
      WriterStepKeeps(s, a);
    } else if Aside(a) {
      AsideKeeps(s, a);
    } else {
      RegistryStepKeeps(s, a);
    }
  }

  lemma {:induction false} RunKeeps(actions: seq<Action>)
    ensures Inv(Run(Start(), actions))
  {
    hide Next;
    if actions != [] {
      RunKeeps(actions[..|actions| - 1]);
      NextKeeps(Run(Start(), actions[..|actions| - 1]), actions[|actions| - 1]);
    }
  }

  /** Whatever the disk answers, at most one request holds a file's part. */
  lemma OneWriter(actions: seq<Action>, q: nat, r: nat)
    requires var s := Run(Start(), actions);
             && q in s.puts && r in s.puts && s.puts[q].file == s.puts[r].file
             && s.puts[q].stage != Waiting && s.puts[r].stage != Waiting
    ensures q == r
  {
    RunKeeps(actions);
    hide Run;
  }

  /** A token is redeemed at most once, restarts included, and at most one upload token of a file is live. */
  lemma RedeemedOnce(actions: seq<Action>)
    ensures var s := Run(Start(), actions);
            && (forall i, j :: 0 <= i < j < |s.redeemed| ==> s.redeemed[i] != s.redeemed[j])
            && OneUploadToken(s.tokens)
  {
    RunKeeps(actions);
    hide Run;
  }
}
