/**
 The pairing transactions as the store runs them, statement by statement, each
 proved against its function on the tables (client_backend/internal/store/
 pairing.go, requests.go, devices.go, identity.go, serverkey.go).
 */
module PairingStore {
  import opened Common
  import opened PairingDb
  import opened PairingInvariant
  import Spec = PairingDb

  datatype Reply<A> = Ok(answer: A) | Err(error: Error)

  function ReplyOf<A>(tx: Tx<A>): (r: Reply<A>)
    ensures tx.Done? ==> r == Ok(tx.answer)
    ensures tx.Refused? ==> r == Err(tx.error)
  {
    match tx
    case Done(_, answer) => Ok(answer)
    case Refused(e) => Err(e)
  }

  /** One request closed, and its invite spent unless it is already. */
  function CloseOne(db: Db, id: string, o: Outcome, now: int): (after: Db)
    requires id in db.requests
  {
    var r := db.requests[id];
    db.(requests := db.requests[id := Closed(r, o, now)],
        tokens := if r.token in db.tokens && Unspent(db.tokens[r.token])
                  then db.tokens[r.token := Spent(db.tokens[r.token], r.deviceKey, now)]
                  else db.tokens)
  }

  lemma NothingClosed(db: Db, now: int, f: Request -> Outcome)
    ensures CloseAll(db, {}, now, f) == db
  {
    var after := CloseAll(db, {}, now, f);
    assert after.requests == db.requests;
    assert forall t, id :: !OpenedWith(db, {}, t, id);
    assert after.tokens == db.tokens;
  }

  /** Closing the requests of a set one by one, in any order, is closing them at once. */
  lemma OneMoreClosed(db: Db, done: set<string>, id: string, now: int, f: Request -> Outcome)
    requires OneRequestPerToken(db)
    requires id in db.requests && id !in done
    ensures id in CloseAll(db, done, now, f).requests
    ensures CloseOne(CloseAll(db, done, now, f), id, f(db.requests[id]), now) == CloseAll(db, done + {id}, now, f)
  {
    OneMoreRequest(db, done, id, now, f);
    var so, all := CloseAll(db, done, now, f), CloseAll(db, done + {id}, now, f);
    var after := CloseOne(so, id, f(db.requests[id]), now);
    forall t | t in db.tokens
      ensures after.tokens[t] == all.tokens[t]
    {
      OneMoreToken(db, done, id, now, f, t);
    }
    assert after.tokens.Keys == db.tokens.Keys == all.tokens.Keys;
    hide CloseAll, CloseOne;
    assert after.tokens == all.tokens;
  }

  lemma OneMoreRequest(db: Db, done: set<string>, id: string, now: int, f: Request -> Outcome)
    requires id in db.requests && id !in done
    ensures id in CloseAll(db, done, now, f).requests
    ensures var after, all := CloseOne(CloseAll(db, done, now, f), id, f(db.requests[id]), now), CloseAll(db, done + {id}, now, f);
            after.requests == all.requests && after.users == all.users && after.devices == all.devices
  {
  }

  lemma OneMoreToken(db: Db, done: set<string>, id: string, now: int, f: Request -> Outcome, t: string)
    requires OneRequestPerToken(db)
    requires id in db.requests && id !in done && t in db.tokens
    ensures CloseOne(CloseAll(db, done, now, f), id, f(db.requests[id]), now).tokens[t]
         == CloseAll(db, done + {id}, now, f).tokens[t]
  {
    var mine := db.requests[id].token;
    if t == mine {
      HolderIsOpener(db, done + {id}, id);
      forall b | OpenedWith(db, done, mine, b)
        ensures false
      {
      }
    } else {
      assert !OpenedWith(db, done + {id}, t, id);
      forall b
        ensures OpenedWith(db, done, t, b) <==> OpenedWith(db, done + {id}, t, b)
      {
      }
      if b :| OpenedWith(db, done, t, b) {
        HolderIsOpener(db, done, b);
        HolderIsOpener(db, done + {id}, b);
      }
    }
  }

  lemma ClosedAlone(db: Db, id: string, now: int, f: Request -> Outcome)
    requires OneRequestPerToken(db) && id in db.requests
    ensures CloseOne(db, id, f(db.requests[id]), now) == CloseAll(db, {id}, now, f)
  {
    NothingClosed(db, now, f);
    OneMoreClosed(db, {}, id, now, f);
    assert {} + {id} == {id};
  }

  class Store {
    var users: map<string, string>
    var devices: map<Key, Device>
    var tokens: map<string, Token>
    var requests: map<string, Request>

    constructor ()
      ensures State() == Db(map[], map[], map[], map[]) && Valid()
    {
      users, devices, tokens, requests := map[], map[], map[], map[];
    }

    function State(): (db: Db)
      reads this
    {
      Db(users, devices, tokens, requests)
    }

    ghost predicate Valid()
      reads this
    {
      Joint(State())
    }

    method Rollback(saved: Db)
      modifies this
      ensures State() == saved
    {
      users, devices, tokens, requests := saved.users, saved.devices, saved.tokens, saved.requests;
    }

    /** UPDATE ... WHERE used_at IS NULL: the affected-row count decides a race. */
    method SpendToken(token: string, key: Key, now: int) returns (ok: bool)
      modifies this`tokens
      ensures ok <==> token in old(tokens) && Unspent(old(tokens)[token])
      ensures tokens == if ok then old(tokens)[token := Spent(old(tokens)[token], key, now)] else old(tokens)
    {
      ok := token in tokens && Unspent(tokens[token]);
      if ok {
        tokens := tokens[token := Spent(tokens[token], key, now)];
      }
    }

    /** Closes a request that still waits and spends its invite. */
    method CloseRequest(id: string, o: Outcome, now: int) returns (ok: bool)
      modifies this`requests, this`tokens
      ensures ok <==> id in old(requests) && Waiting(old(requests)[id])
      ensures ok ==> State() == CloseOne(old(State()), id, o, now)
      ensures !ok ==> State() == old(State())
    {
      if id !in requests || !Waiting(requests[id]) {
        return false;
      }
      var r := requests[id];
      requests := requests[id := Closed(r, o, now)];
      var _ := SpendToken(r.token, r.deviceKey, now);
      ok := true;
    }

    method IssueMachineLink(now: int, minted: string) returns (r: Reply<LinkAnswer>)
      requires Valid()
      modifies this`tokens
      ensures Valid()
      ensures var tx := Spec.IssueMachineLink(old(State()), now, minted);
              State() == Kept(old(State()), tx) && r == ReplyOf(tx)
    {
      MachineLinkKeeps(State(), now, minted);
      var saved := State();
      tokens := VoidMachineLinks(tokens, now);
      if minted in tokens {
        tokens := saved.tokens;
        return Err(Collision);
      }
      tokens := tokens[minted := MachineToken(now)];
      r := Ok(LinkAnswer(minted, now + TTL));
    }

    /** The device count and the unspent machine link, read together. */
    method PageLinkState() returns (page: PageAnswer)
      requires Valid()
      ensures page == PageState(State())
    {
      page := PageAnswer(|devices|, None);
      if t :| t in tokens && UnspentMachine(tokens[t]) {
        page := page.(link := Some(LinkAnswer(t, tokens[t].expiresAt)));
      }
    }

    /** A page load's first half: what it read, and whether that is all it needs. */
    method PageRead() returns (page: PageAnswer, enough: bool)
      requires Valid()
      ensures page == PageState(State()) && (enough <==> ShowsEnough(page))
    {
      page := PageLinkState();
      enough := page.link.Some? || page.devices > 0;
    }

    /** Its second half, a transaction of its own: asked again, and a link minted when there is still neither. */
    method PageMint(now: int, minted: string) returns (r: Reply<PageAnswer>)
      requires Valid()
      modifies this`tokens
      ensures Valid()
      ensures var tx := Spec.PageMachineLink(old(State()), now, minted);
              State() == Kept(old(State()), tx) && r == ReplyOf(tx)
    {
      var page := PageLinkState();
      if page.link.Some? || page.devices > 0 {
        return Ok(page);
      }
      var link := IssueMachineLink(now, minted);
      match link
      case Ok(l) => r := Ok(page.(link := Some(l)));
      case Err(e) => r := Err(e);
    }

    method IssueDeviceInvite(issuer: Key, now: int, minted: string) returns (r: Reply<string>)
      requires Valid()
      modifies this`tokens
      ensures Valid()
      ensures var tx := Spec.IssueDeviceInvite(old(State()), issuer, now, minted);
              State() == Kept(old(State()), tx) && r == ReplyOf(tx)
    {
      InviteKeeps(State(), issuer, now, minted);
      if issuer !in devices {
        return Err(DeviceUnknown);
      }
      if minted in tokens {
        return Err(Collision);
      }
      tokens := tokens[minted := InviteToken(devices[issuer].userId, issuer, now)];
      r := Ok(minted);
    }

    /** Writes the device row for the person, refusing a key that belongs to somebody else. */
    method BindDevice(key: Key, userId: string, platform: string, now: int) returns (ok: bool)
      modifies this`devices
      ensures ok <==> !(key in old(devices) && old(devices)[key].userId != userId)
      ensures devices == if ok then InsertDevice(old(devices), key, userId, platform, now) else old(devices)
    {
      if key in devices && devices[key].userId != userId {
        return false;
      }
      devices := InsertDevice(devices, key, userId, platform, now);
      ok := true;
    }

    /** Whose device it is going to be: the one person, or a new one inserted when there is nobody. */
    method ResolveSolePerson(newUser: string, name: string) returns (id: Option<Identity>)
      modifies this`users
      ensures id == SolePerson(old(users), newUser, name)
      ensures users == if id.Some? && id.value.created then old(users)[newUser := name] else old(users)
    {
      if |users| == 1 {
        OneKey(users);
        var u :| u in users;
        assert forall v :: v in users ==> v == u;
        return Some(Identity(u, users[u], false));
      }
      if |users| == 0 {
        users := users[newUser := name];
        return Some(Identity(newUser, name, true));
      }
      id := None;
    }

    /** Pairs the device through the machine link, or answers again what it was answered before. */
    method PairByMachineLink(token: string, key: Key, platform: string, now: int, newUser: string, name: string)
      returns (r: Reply<PairAnswer>)
      requires Valid() && token in tokens && tokens[token].kind == Machine
      modifies this
      ensures Valid()
      ensures var tx := Spec.PairByMachineLink(old(State()), token, key, platform, now, newUser, name);
              State() == Kept(old(State()), tx) && r == ReplyOf(tx)
    {
      var saved := State();
      var same := PairedBy(saved, token, key);
      if same.Some? {
        return Ok(Repeated(same.value));
      }
      if !Unspent(tokens[token]) {
        return Err(TokenInvalid);
      }
      if !Live(tokens[token].expiresAt, now) {
        return Err(TokenExpired);
      }
      SolePersonIsThePerson(saved, newUser, name);
      JoinKeeps(saved, token, key, platform, now, SolePerson(saved.users, newUser, name).value);
      r := Join(token, key, platform, now, newUser, name);
    }

    /** Spends a token that can still be spent, finds or writes the person and writes the device, all or nothing. */
    method Join(token: string, key: Key, platform: string, now: int, newUser: string, name: string)
      returns (r: Reply<PairAnswer>)
      requires token in tokens && Unspent(tokens[token])
      requires SolePerson(users, newUser, name).Some?
      modifies this
      ensures var tx := JoinBy(old(State()), token, key, platform, now, SolePerson(old(users), newUser, name).value);
              State() == Kept(old(State()), tx) && r == ReplyOf(tx)
    {
      var saved := State();
      var _ := SpendToken(token, key, now);
      var id := ResolveSolePerson(newUser, name);
      var ok := BindDevice(key, id.value.userId, platform, now);
      if !ok {
        Rollback(saved);
        return Err(TokenInvalid);
      }
      tokens := tokens[token := tokens[token].(paired := Some(id.value.userId), created := id.value.created)];
      r := Ok(Joined(id.value));
    }

    /** Answers a presentation of an invite whose request exists. */
    method RepeatRequest(id: string, token: string, key: Key, now: int) returns (r: Reply<PairAnswer>)
      requires Valid() && id in requests
      modifies this`requests, this`tokens
      ensures Valid()
      ensures var tx := Spec.RepeatRequest(old(State()), id, token, key, now);
              State() == Kept(old(State()), tx) && r == ReplyOf(tx)
    {
      if requests[id].deviceKey != key {
        return Err(TokenInvalid);
      }
      match requests[id].outcome
      case None =>
        if Live(requests[id].expiresAt, now) {
          return Ok(Standing(id, None));
        }
        CloseAllKeeps(State(), {id}, now, _ => Expired);
        ClosedAlone(State(), id, now, _ => Expired);
        var _ := CloseRequest(id, Expired, now);
        r := Ok(RanOut(id));
      case Some(Allowed) =>
        var who := PairedBy(State(), token, key);
        r := if who.None? then Err(TokenInvalid) else Ok(Repeated(who.value));
      case Some(o) =>
        r := Ok(Standing(id, Some(o)));
    }

    method FindRequest(token: string) returns (found: Option<string>)
      requires OneRequestPerToken(State())
      ensures found == RequestByToken(State(), token)
    {
      if id :| id in requests && requests[id].token == token {
        found := Some(id);
      } else {
        found := None;
      }
    }

    /** Presents a token for the key the connection proved. */
    method Pair(token: string, key: Key, platform: string, now: int, newUser: string, name: string, newRequest: string)
      returns (r: Reply<PairAnswer>)
      requires Valid()
      modifies this
      ensures Valid()
      ensures var tx := Spec.Pair(old(State()), token, key, platform, now, newUser, name, newRequest);
              State() == Kept(old(State()), tx) && r == ReplyOf(tx)
    {
      if token !in tokens {
        return Err(TokenInvalid);
      }
      if tokens[token].kind == Machine {
        r := PairByMachineLink(token, key, platform, now, newUser, name);
        return;
      }
      var found := FindRequest(token);
      if found.Some? {
        r := RepeatRequest(found.value, token, key, now);
        return;
      }
      assert TokenOk(State(), tokens[token]);
      r := OpenByInvite(token, key, platform, now, newRequest);
    }

    /** Opens the request of an invite nobody has presented, after every check the invite and the key must pass. */
    method OpenByInvite(token: string, key: Key, platform: string, now: int, newRequest: string)
      returns (r: Reply<PairAnswer>)
      requires Valid() && token in tokens && tokens[token].issuer.Some? && RequestByToken(State(), token).None?
      modifies this`requests
      ensures Valid()
      ensures var tx := OpenRequest(old(State()), token, key, platform, now, newRequest);
              State() == Kept(old(State()), tx) && r == ReplyOf(tx)
    {
      OpenKeeps(State(), token, key, platform, now, newRequest);
      hide Joint, RequestByToken;
      var pt := tokens[token];
      if pt.usedAt.Some? {
        return Err(TokenInvalid);
      }
      if pt.expiresAt <= now {
        return Err(TokenExpired);
      }
      if pt.issuer.value !in devices {
        return Err(TokenInvalid);
      }
      if key in devices && Some(devices[key].userId) != pt.userId {
        return Err(TokenInvalid);
      }
      if newRequest in requests {
        return Err(Collision);
      }
      requests := requests[newRequest := Request(token, key, platform, pt.issuer.value, pt.expiresAt, None, None)];
      r := Ok(Opened(newRequest));
    }

    /** The issuing device's answer: an Allow writes the device, spends the token and closes the request. */
    method DecidePairRequest(id: string, issuer: Key, allow: bool, now: int) returns (r: Reply<Option<Identity>>)
      requires Valid()
      modifies this
      ensures Valid()
      ensures var tx := Spec.Decide(old(State()), id, issuer, allow, now);
              State() == Kept(old(State()), tx) && r == ReplyOf(tx)
    {
      if issuer !in devices {
        return Err(DeviceUnknown);
      }
      var person := devices[issuer].userId;
      if id !in requests || requests[id].issuer != issuer || !Waiting(requests[id]) || !Live(requests[id].expiresAt, now) {
        return Err(RequestNotFound);
      }
      if !allow {
        CloseAllKeeps(State(), {id}, now, _ => Denied);
        ClosedAlone(State(), id, now, _ => Denied);
        var _ := CloseRequest(id, Denied, now);
        return Ok(None);
      }
      r := Allow(id, issuer, now);
    }

    method Allow(id: string, issuer: Key, now: int) returns (r: Reply<Option<Identity>>)
      requires Valid()
      requires issuer in devices && id in requests && requests[id].issuer == issuer
      requires Waiting(requests[id]) && Live(requests[id].expiresAt, now)
      modifies this
      ensures Valid()
      ensures var tx := Spec.Decide(old(State()), id, issuer, true, now);
              State() == Kept(old(State()), tx) && r == ReplyOf(tx)
    {
      AllowKeeps(State(), id, issuer, now);
      AllowInTimeSucceeds(State(), id, issuer, now);
      assert RequestOk(State(), requests[id]);
      var person := devices[issuer].userId;
      hide Joint, RequestOk;
      LetInOne(id, person, now);
      r := Ok(Some(Identity(person, users[person], false)));
    }

    /** Spends the invite, closes the request, writes the device and records whom the token let in. */
    method LetInOne(id: string, person: string, now: int)
      requires id in requests && Waiting(requests[id])
      requires requests[id].token in tokens && Unspent(tokens[requests[id].token])
      requires requests[id].deviceKey in devices ==> devices[requests[id].deviceKey].userId == person
      modifies this
      ensures State() == LetIn(old(State()), id, person, now)
    {
      var q := requests[id];
      var spent := SpendToken(q.token, q.deviceKey, now);
      var closed := CloseRequest(id, Allowed, now);
      var bound := BindDevice(q.deviceKey, person, q.platform, now);
      assert spent && closed && bound;
      tokens := tokens[q.token := tokens[q.token].(paired := Some(person), created := false)];
    }

    /** The new device withdraws its request; one whose time ran out is closed as expired. */
    method CancelPairRequest(token: string, key: Key, now: int) returns (r: Reply<Option<string>>)
      requires Valid()
      modifies this`requests, this`tokens
      ensures Valid()
      ensures var tx := Spec.Cancel(old(State()), token, key, now);
              State() == Kept(old(State()), tx) && r == ReplyOf(tx)
    {
      var found := FindRequest(token);
      if found.None? || requests[found.value].deviceKey != key || !Waiting(requests[found.value]) {
        return Ok(None);
      }
      var id := found.value;
      ghost var f := (q: Request) => if q.expiresAt <= now then Expired else Cancelled;
      CloseAllKeeps(State(), {id}, now, f);
      ClosedAlone(State(), id, now, f);
      var outcome := if requests[id].expiresAt <= now then Expired else Cancelled;
      var _ := CloseRequest(id, outcome, now);
      r := Ok(Some(id));
    }

    /** Closes the requests of `ids` one after another. */
    method CloseEach(ids: set<string>, now: int, f: Request -> Outcome)
      requires OneRequestPerToken(State())
      requires forall id :: id in ids ==> id in requests && Waiting(requests[id])
      modifies this`requests, this`tokens
      ensures State() == CloseAll(old(State()), ids, now, f)
    {
      ghost var start := State();
      NothingClosed(start, now, f);
      ghost var done: set<string> := {};
      var rest := ids;
      while rest != {}
        invariant done + rest == ids && done !! rest
        invariant State() == CloseAll(start, done, now, f)
        decreases rest
      {
        var id :| id in rest;
        OneMoreClosed(start, done, id, now, f);
        assert requests[id] == start.requests[id];
        var _ := CloseRequest(id, f(requests[id]), now);
        done, rest := done + {id}, rest - {id};
      }
      assert done == ids;
    }

    /** Closes, as expired, every waiting request whose time ran out. */
    method ExpirePairRequests(now: int) returns (closed: set<string>)
      requires Valid()
      modifies this`requests, this`tokens
      ensures Valid()
      ensures Spec.Expire(old(State()), now) == Done(State(), closed)
    {
      CloseAllKeeps(State(), DueRequests(State(), now), now, _ => Expired);
      closed := DueRequests(State(), now);
      CloseEach(closed, now, _ => Expired);
    }

    /** Removes a key from the allowed list, and with it everything it could still open. */
    method RevokeDevice(caller: Key, key: Key, now: int) returns (r: Reply<set<string>>)
      requires Valid()
      modifies this
      ensures Valid()
      ensures var tx := Spec.Revoke(old(State()), caller, key, now);
              State() == Kept(old(State()), tx) && r == ReplyOf(tx)
    {
      if caller != "" && caller !in devices {
        return Err(DeviceUnknown);
      }
      if key !in devices {
        return Ok({});
      }
      RevokedKeeps(State(), key, now);
      var ids := RequestsOf(State(), key);
      devices := map k | k in devices && k != key :: devices[k];
      assert State() == WithoutDevice(old(State()), key);
      CloseEach(ids, now, (q: Request) => EndOutcome(q, now));
      assert State() == Answered(old(State()), key, now);
      tokens := VoidInvitesOf(tokens, key, now);
      if |devices| == 0 {
        tokens := VoidRunOut(tokens, now);
      }
      r := Ok(ids);
    }

    /** Finds the person a connection speaks as, by the key it proved. */
    method ResolveIdentity(key: Key, now: int) returns (r: Reply<Identity>)
      requires Valid()
      modifies this`devices
      ensures Valid()
      ensures var tx := Spec.ResolveIdentity(old(State()), key, now);
              State() == Kept(old(State()), tx) && r == ReplyOf(tx)
    {
      ResolveKeeps(State(), key, now);
      if key == "" || key !in devices || devices[key].userId !in users {
        return Err(DeviceUnknown);
      }
      var d := devices[key];
      devices := devices[key := d.(lastSeenAt := now)];
      r := Ok(Identity(d.userId, users[d.userId], false));
    }

    /** Lets every device, token and request go; the person stays. */
    method Rekey()
      requires Valid()
      modifies this
      ensures Valid()
      ensures Spec.Rekey(old(State())) == Done(State(), ())
    {
      requests := map[];
      tokens := map[];
      devices := map[];
    }
  }

  lemma OneKey(m: map<string, string>)
    requires |m| == 1
    ensures exists u :: u in m
    ensures forall u, v :: u in m && v in m ==> u == v
  {
    var u :| u in m.Keys;
    assert |m.Keys - {u}| == 0;
    assert m.Keys == {u} + (m.Keys - {u}) == {u};
    assert forall v :: v in m ==> v in m.Keys;
  }
}
