/**
 What each pairing transaction leaves in the tables and answers, field by field,
 in every store that satisfies the joint invariant (client_backend/internal/
 store/pairing.go, requests.go, devices.go, identity.go, serverkey.go). Nothing
 here is said through the transactions' own pieces.
 */
module PairingEffects {
  import opened Common
  import opened PairingDb
  import opened PairingInvariant

  /** One request answered `o`, its invite spent by the key that asked, and nothing else touched. */
  predicate OneAnswered(db: Db, after: Db, id: string, o: Outcome, now: int) {
    && id in db.requests && id in after.requests
    && db.requests[id].token in db.tokens
    && after.users == db.users && after.devices == db.devices
    && after.requests == db.requests[id := db.requests[id].(outcome := Some(o), decidedAt := Some(now))]
    && after.tokens == db.tokens[db.requests[id].token :=
                         db.tokens[db.requests[id].token].(usedAt := Some(now), usedBy := Some(db.requests[id].deviceKey))]
    && after.tokens[db.requests[id].token].paired.None?
  }

  /** Closing one waiting request of a joint store answers it and touches nothing else. */
  lemma ClosingOneAnswers(db: Db, id: string, now: int, f: Request -> Outcome)
    requires Joint(db) && id in db.requests && db.requests[id].outcome.None?
    ensures OneAnswered(db, CloseAll(db, {id}, now, f), id, f(db.requests[id]), now)
  {
    var r, after := db.requests[id], CloseAll(db, {id}, now, f);
    assert RequestOk(db, r);
    HolderIsOpener(db, {id}, id);
    forall t | t in db.tokens && t != r.token
      ensures after.tokens[t] == db.tokens[t]
    {
      assert !OpenedWith(db, {id}, t, id);
    }
    assert after.tokens == db.tokens[r.token := db.tokens[r.token].(usedAt := Some(now), usedBy := Some(r.deviceKey))];
    assert after.requests == db.requests[id := r.(outcome := Some(f(r)), decidedAt := Some(now))];
  }

  /** Whether a device may answer: it is the request's issuer, nobody answered before, and there is time. */
  predicate MayAnswer(db: Db, id: string, issuer: Key, now: int) {
    id in db.requests && db.requests[id].issuer == issuer && db.requests[id].outcome.None? && now < db.requests[id].expiresAt
  }

  /** Who may not answer is refused, unpaired devices by another error; who may is not. */
  lemma WhoMayAnswer(db: Db, id: string, issuer: Key, allow: bool, now: int)
    requires Joint(db)
    ensures var tx := Decide(db, id, issuer, allow, now);
            && (tx.Done? <==> MayAnswer(db, id, issuer, now))
            && (tx.Refused? ==> tx.error == if issuer in db.devices then RequestNotFound else DeviceUnknown)
  {
    if MayAnswer(db, id, issuer, now) {
      assert RequestOk(db, db.requests[id]);
      if allow {
        AllowInTimeSucceeds(db, id, issuer, now);
      }
    }
  }

  /** A Deny answers the request and spends its invite for nobody. */
  lemma DenyInTimeCloses(db: Db, id: string, issuer: Key, now: int)
    requires Joint(db) && MayAnswer(db, id, issuer, now)
    ensures var tx := Decide(db, id, issuer, false, now);
            tx.Done? && tx.answer.None? && OneAnswered(db, tx.db, id, Denied, now)
  {
    assert RequestOk(db, db.requests[id]);
    ClosingOneAnswers(db, id, now, _ => Denied);
  }

  /** A device written for its person: first paired now unless it was paired before, seen now. */
  predicate DeviceWritten(was: map<Key, Device>, after: map<Key, Device>, key: Key, person: string, platform: string, now: int) {
    after == was[key := Device(person, platform, if key in was then was[key].createdAt else now, now)]
  }

  /** An Allow makes the key a device of the issuer's person, spends the invite for it and answers the request, and no more. */
  lemma AllowInTimeLetsIn(db: Db, id: string, issuer: Key, now: int)
    requires Joint(db) && MayAnswer(db, id, issuer, now)
    ensures var tx, r := Decide(db, id, issuer, true, now), db.requests[id];
            && tx.Done?
            && issuer in db.devices && r.token in db.tokens
            && var person := db.devices[issuer].userId;
               && person in db.users
               && tx.answer == Some(Identity(person, db.users[person], false))
               && tx.db.users == db.users
               && DeviceWritten(db.devices, tx.db.devices, r.deviceKey, person, r.platform, now)
               && tx.db.requests == db.requests[id := r.(outcome := Some(Allowed), decidedAt := Some(now))]
               && tx.db.tokens == db.tokens[r.token := db.tokens[r.token].(usedAt := Some(now), usedBy := Some(r.deviceKey),
                                                                          paired := Some(person), created := false)]
  {
    AllowInTimeSucceeds(db, id, issuer, now);
    var r := db.requests[id];
    assert RequestOk(db, r);
    if r.deviceKey in db.devices {
      SamePerson(db, db.devices[r.deviceKey].userId, db.devices[issuer].userId);
    }
  }

  /** The request a token was presented for is found. */
  lemma TheRequestOf(db: Db, token: string, id: string)
    requires OneRequestPerToken(db) && id in db.requests && db.requests[id].token == token
    ensures RequestByToken(db, token) == Some(id)
  {
    var found := RequestByToken(db, token);
    assert found.Some? && found.value in db.requests && db.requests[found.value].token == token;
  }

  /** The key that asked withdraws what still waits; anything else of a withdrawal changes nothing. */
  lemma WithdrawalCloses(db: Db, token: string, key: Key, now: int)
    requires Joint(db)
    ensures var tx := Cancel(db, token, key, now);
            && tx.Done?
            && (forall id :: id in db.requests && db.requests[id].token == token ==>
                  if db.requests[id].deviceKey == key && db.requests[id].outcome.None?
                  then tx.answer == Some(id)
                       && OneAnswered(db, tx.db, id, if now < db.requests[id].expiresAt then Cancelled else Expired, now)
                  else tx.answer.None? && tx.db == db)
            && ((forall id :: id in db.requests ==> db.requests[id].token != token) ==> tx.answer.None? && tx.db == db)
  {
    var tx := Cancel(db, token, key, now);
    var found := RequestByToken(db, token);
    if found.Some? && db.requests[found.value].outcome.None? {
      ClosingOneAnswers(db, found.value, now, (q: Request) => if q.expiresAt <= now then Expired else Cancelled);
    }
    forall id | id in db.requests && db.requests[id].token == token
      ensures found == Some(id)
    {
      TheRequestOf(db, token, id);
    }
    hide CloseAll, Joint;
  }

  // ---- presenting a token ----

  /** The key that spent a token for a person it still belongs to. */
  predicate StillTheirs(db: Db, token: string, key: Key) {
    && token in db.tokens
    && var t := db.tokens[token];
       && t.usedAt.Some? && t.usedBy == Some(key) && t.paired.Some? && t.paired.value in db.users
       && key in db.devices && db.devices[key].userId == t.paired.value
  }

  /** Whom a token paired, with the name the person has now. */
  function Theirs(db: Db, token: string, key: Key): Identity
    requires StillTheirs(db, token, key)
  {
    Identity(db.tokens[token].paired.value, db.users[db.tokens[token].paired.value], db.tokens[token].created)
  }

  /** What an invite presented again answers, by whose it is and how its request stands. */
  lemma PresentedAgain(db: Db, id: string, key: Key, platform: string, now: int, newUser: string, name: string, newRequest: string)
    requires Joint(db) && id in db.requests
    ensures var r := db.requests[id];
            var tx := Pair(db, r.token, key, platform, now, newUser, name, newRequest);
            && (r.deviceKey != key ==> tx == Refused(TokenInvalid))
            && (r.deviceKey == key ==>
                  match r.outcome
                  case None =>
                    if now < r.expiresAt then tx == Done(db, Standing(id, None))
                    else tx.Done? && tx.answer == RanOut(id) && OneAnswered(db, tx.db, id, Expired, now)
                  case Some(Allowed) =>
                    tx == if StillTheirs(db, r.token, key) then Done(db, Repeated(Theirs(db, r.token, key))) else Refused(TokenInvalid)
                  case Some(o) => tx == Done(db, Standing(id, Some(o))))
  {
    var r := db.requests[id];
    assert RequestOk(db, r);
    TheRequestOf(db, r.token, id);
    if r.outcome.None? {
      ClosingOneAnswers(db, id, now, _ => Expired);
    }
    hide Joint, CloseAll, RequestByToken, OneAnswered;
  }

  /** An invite nobody presented: why it is refused, and the request it opens otherwise. */
  lemma FirstPresentation(db: Db, token: string, key: Key, platform: string, now: int, newUser: string, name: string, newRequest: string)
    requires Joint(db) && token in db.tokens && db.tokens[token].kind == Invite
    requires forall id :: id in db.requests ==> db.requests[id].token != token
    ensures var t := db.tokens[token];
            var tx := Pair(db, token, key, platform, now, newUser, name, newRequest);
            && t.issuer.Some? && t.userId.Some?
            && if t.usedAt.Some? then tx == Refused(TokenInvalid)
               else if t.expiresAt <= now then tx == Refused(TokenExpired)
               else if newRequest in db.requests then tx == Refused(Collision)
               else tx == Done(db.(requests := db.requests[newRequest :=
                                     Request(token, key, platform, t.issuer.value, t.expiresAt, None, None)]),
                               Opened(newRequest))
  {
    assert TokenOk(db, db.tokens[token]);
    var t := db.tokens[token];
    if t.usedAt.None? && key in db.devices {
      SamePerson(db, db.devices[key].userId, t.userId.value);
    }
    hide Joint;
  }

  /** A token that is not there. */
  lemma UnknownToken(db: Db, token: string, key: Key, platform: string, now: int, newUser: string, name: string, newRequest: string)
    requires token !in db.tokens
    ensures Pair(db, token, key, platform, now, newUser, name, newRequest) == Refused(TokenInvalid)
  {
    hide PairByMachineLink, RepeatRequest, OpenRequest;
  }

  /** A machine link spent is answered again to the device it paired, and to nobody else. */
  lemma SpentLinkPresented(db: Db, token: string, key: Key, platform: string, now: int, newUser: string, name: string, newRequest: string)
    requires token in db.tokens && db.tokens[token].kind == Machine
    requires db.tokens[token].usedAt.Some? || db.tokens[token].expiresAt <= now
    ensures Pair(db, token, key, platform, now, newUser, name, newRequest) ==
            if db.tokens[token].usedAt.None? then Refused(TokenExpired)
            else if StillTheirs(db, token, key) then Done(db, Repeated(Theirs(db, token, key)))
            else Refused(TokenInvalid)
  {
  }

  /**
   A live machine link pairs whoever presents it first: a device of the one person,
   or of a new one when there is nobody, with the link spent by it for that person.
   */
  lemma LiveLinkPairs(db: Db, token: string, key: Key, platform: string, now: int, newUser: string, name: string, newRequest: string)
    requires Joint(db) && token in db.tokens && db.tokens[token].kind == Machine
    requires db.tokens[token].usedAt.None? && now < db.tokens[token].expiresAt
    ensures var tx := Pair(db, token, key, platform, now, newUser, name, newRequest);
            && tx.Done? && tx.answer.Joined?
            && var id := tx.answer.id;
               && id.created == (db.users == map[])
               && (id.created ==> id.userId == newUser && id.name == name && tx.db.users == map[newUser := name])
               && (!id.created ==> id.userId in db.users && id.name == db.users[id.userId] && tx.db.users == db.users)
               && DeviceWritten(db.devices, tx.db.devices, key, id.userId, platform, now)
               && tx.db.requests == db.requests
               && tx.db.tokens == db.tokens[token := db.tokens[token].(usedAt := Some(now), usedBy := Some(key),
                                                                      paired := Some(id.userId), created := id.created)]
  {
    SolePersonIsThePerson(db, newUser, name);
    var person := SolePerson(db.users, newUser, name).value;
    assert |db.users| == 0 <==> db.users == map[];
    if key in db.devices {
      assert db.devices[key].userId in db.users;
      SamePerson(db, db.devices[key].userId, person.userId);
    }
    hide Joint;
  }

  // ---- issuing ----

  /** A new machine link lives ten minutes and is the only one unspent: the others are voided, paired to nobody. */
  lemma MachineLinkIssued(db: Db, now: int, minted: string)
    ensures var tx := IssueMachineLink(db, now, minted);
            && (minted in db.tokens ==> tx == Refused(Collision))
            && (minted !in db.tokens ==>
                  && tx.Done? && tx.answer == LinkAnswer(minted, now + 600)
                  && tx.db.users == db.users && tx.db.devices == db.devices && tx.db.requests == db.requests
                  && tx.db.tokens.Keys == db.tokens.Keys + {minted}
                  && tx.db.tokens[minted] == Token(Machine, None, None, now, now + 600, None, None, None, false)
                  && forall t :: t in db.tokens ==>
                       tx.db.tokens[t] == if db.tokens[t].kind == Machine && db.tokens[t].usedAt.None?
                                          then db.tokens[t].(usedAt := Some(now)) else db.tokens[t])
  {
    if minted !in db.tokens {
      assert IssueMachineLink(db, now, minted).db.tokens.Keys == db.tokens.Keys + {minted};
    }
  }

  /** The page shows the unspent machine link; with none, it mints one only when nobody is paired. */
  lemma PageShown(db: Db, now: int, minted: string)
    requires Joint(db)
    ensures var tx := PageMachineLink(db, now, minted);
            && (forall t :: t in db.tokens && db.tokens[t].kind == Machine && db.tokens[t].usedAt.None? ==>
                  tx == Done(db, PageAnswer(|db.devices|, Some(LinkAnswer(t, db.tokens[t].expiresAt)))))
            && ((forall t :: t in db.tokens ==> db.tokens[t].kind == Invite || db.tokens[t].usedAt.Some?) ==>
                  if db.devices != map[] then tx == Done(db, PageAnswer(|db.devices|, None))
                  else if minted in db.tokens then tx == Refused(Collision)
                  else tx == Done(db.(tokens := db.tokens[minted := Token(Machine, None, None, now, now + 600, None, None, None, false)]),
                                  PageAnswer(0, Some(LinkAnswer(minted, now + 600)))))
  {
    var tx := PageMachineLink(db, now, minted);
    assert |db.devices| == 0 <==> db.devices == map[];
    if forall t :: t in db.tokens ==> db.tokens[t].kind == Invite || db.tokens[t].usedAt.Some? {
      assert VoidMachineLinks(db.tokens, now) == db.tokens;
    } else {
      var t :| t in db.tokens && UnspentMachine(db.tokens[t]);
      assert forall u :: u in db.tokens && UnspentMachine(db.tokens[u]) ==> u == t;
    }
  }

  /** An invite is for the issuer's person, lives ten minutes, and is nobody's yet. */
  lemma InviteIssued(db: Db, issuer: Key, now: int, minted: string)
    ensures var tx := IssueDeviceInvite(db, issuer, now, minted);
            if issuer !in db.devices then tx == Refused(DeviceUnknown)
            else if minted in db.tokens then tx == Refused(Collision)
            else tx == Done(db.(tokens := db.tokens[minted :=
                              Token(Invite, Some(db.devices[issuer].userId), Some(issuer), now, now + 600, None, None, None, false)]), minted)
  {
  }

  // ---- ending ----

  /** A request still waiting when its time is over. */
  predicate Overdue(r: Request, now: int) {
    r.outcome.None? && r.expiresAt <= now
  }

  /** Every overdue request expires with its invite spent by the key that asked; nothing else changes. */
  lemma OverdueExpire(db: Db, now: int)
    requires Joint(db)
    ensures var tx := Expire(db, now);
            && tx.Done?
            && tx.db.users == db.users && tx.db.devices == db.devices
            && tx.db.requests.Keys == db.requests.Keys && tx.db.tokens.Keys == db.tokens.Keys
            && (forall id :: id in tx.answer <==> id in db.requests && Overdue(db.requests[id], now))
            && (forall id :: id in db.requests ==>
                  tx.db.requests[id] == if Overdue(db.requests[id], now)
                                        then db.requests[id].(outcome := Some(Expired), decidedAt := Some(now)) else db.requests[id])
            && (forall t :: t in db.tokens ==> InviteAfter(db, tx.answer, t, now, tx.db.tokens[t]))
  {
    var ids := DueRequests(db, now);
    forall t | t in db.tokens
      ensures InviteAfter(db, ids, t, now, Expire(db, now).db.tokens[t])
    {
      ClosedInvite(db, ids, now, _ => Expired, t);
    }
  }

  /** A token after the requests of `ids` ended: spent by the key that asked with it, or as it was. */
  ghost predicate InviteAfter(db: Db, ids: set<string>, token: string, now: int, after: Token)
    requires token in db.tokens
  {
    && (forall id :: id in ids && id in db.requests && db.requests[id].token == token ==>
          after == db.tokens[token].(usedAt := Some(now), usedBy := Some(db.requests[id].deviceKey)))
    && ((forall id :: id in ids && id in db.requests ==> db.requests[id].token != token) ==> after == db.tokens[token])
  }

  lemma ClosedInvite(db: Db, ids: set<string>, now: int, f: Request -> Outcome, token: string)
    requires RequestsOk(db) && OneRequestPerToken(db) && token in db.tokens
    requires forall id :: id in ids ==> id in db.requests && db.requests[id].outcome.None?
    ensures InviteAfter(db, ids, token, now, CloseAll(db, ids, now, f).tokens[token])
  {
    forall id | id in ids && db.requests[id].token == token
      ensures CloseAll(db, ids, now, f).tokens[token] ==
              db.tokens[token].(usedAt := Some(now), usedBy := Some(db.requests[id].deviceKey))
    {
      assert RequestOk(db, db.requests[id]);
      HolderIsOpener(db, ids, id);
    }
  }

  /** A request the device takes part in, on either side, that still waits. */
  predicate TakesPart(r: Request, key: Key) {
    r.outcome.None? && (r.issuer == key || r.deviceKey == key)
  }

  /** Who may revoke, what is answered, and that exactly the device's row goes. */
  lemma RevocationAnswers(db: Db, caller: Key, key: Key, now: int)
    ensures var tx := Revoke(db, caller, key, now);
            if caller != "" && caller !in db.devices then tx == Refused(DeviceUnknown)
            else if key !in db.devices then tx == Done(db, {})
            else
              && tx.Done?
              && (forall id :: id in tx.answer <==> id in db.requests && TakesPart(db.requests[id], key))
              && tx.db.users == db.users
              && tx.db.devices.Keys == db.devices.Keys - {key}
              && (forall k :: k in tx.db.devices ==> tx.db.devices[k] == db.devices[k])
  {
  }

  /** A revocation ends every request the device takes part in, as denied, or as expired when its time was over. */
  lemma RevocationEndsRequests(db: Db, caller: Key, key: Key, now: int, id: string)
    requires id in db.requests && key in db.devices && (caller == "" || caller in db.devices)
    ensures var tx, r := Revoke(db, caller, key, now), db.requests[id];
            && tx.Done? && tx.db.requests.Keys == db.requests.Keys
            && tx.db.requests[id] ==
               if !TakesPart(r, key) then r
               else r.(outcome := Some(if now < r.expiresAt then Denied else Expired), decidedAt := Some(now))
  {
  }

  /**
   A revocation spends the invites of the requests it ends, by the keys that asked;
   it voids the device's other unspent invites, and, with the last device gone, a
   machine link that ran out; every other token stays as it was.
   */
  lemma RevocationEndsTokens(db: Db, caller: Key, key: Key, now: int, token: string)
    requires Joint(db) && token in db.tokens && key in db.devices && (caller == "" || caller in db.devices)
    ensures var tx, t := Revoke(db, caller, key, now), db.tokens[token];
            && tx.Done? && tx.db.tokens.Keys == db.tokens.Keys
            && (forall id :: id in db.requests && db.requests[id].token == token && TakesPart(db.requests[id], key) ==>
                  tx.db.tokens[token] == t.(usedAt := Some(now), usedBy := Some(db.requests[id].deviceKey)))
            && ((forall id :: id in db.requests && TakesPart(db.requests[id], key) ==> db.requests[id].token != token) ==>
                  tx.db.tokens[token] ==
                  if t.usedAt.None? && (t.issuer == Some(key)
                                        || (db.devices.Keys == {key} && t.kind == Machine && t.expiresAt <= now))
                  then t.(usedAt := Some(now)) else t)
  {
    var f := (r: Request) => EndOutcome(r, now);
    ClosedInviteWithout(db, key, RequestsOf(db, key), now, f, token);
    VoidedAfter(db, key, now, token);
    hide Joint, CloseAll, Revoked, WithoutDevice, Answered;
  }

  lemma VoidedAfter(db: Db, key: Key, now: int, token: string)
    requires token in db.tokens && key in db.devices
    ensures var a := Answered(db, key, now);
            && token in a.tokens && Revoked(db, key, now).tokens.Keys == db.tokens.Keys
            && Revoked(db, key, now).tokens[token] ==
               if a.tokens[token].usedAt.None? && (a.tokens[token].issuer == Some(key)
                    || (db.devices.Keys == {key} && a.tokens[token].kind == Machine && a.tokens[token].expiresAt <= now))
               then a.tokens[token].(usedAt := Some(now)) else a.tokens[token]
  {
    var without := WithoutDevice(db, key);
    assert without.devices.Keys == db.devices.Keys - {key};
    NoneLeft(without.devices);
    assert without.devices.Keys == {} <==> db.devices.Keys == {key};
  }

  lemma NoneLeft<K, V>(m: map<K, V>)
    ensures |m| == 0 <==> m.Keys == {}
  {
    assert |m| == |m.Keys|;
  }

  lemma ClosedInviteWithout(db: Db, key: Key, ids: set<string>, now: int, f: Request -> Outcome, token: string)
    requires RequestsOk(db) && OneRequestPerToken(db) && token in db.tokens
    requires forall id :: id in ids ==> id in db.requests && db.requests[id].outcome.None?
    ensures InviteAfter(db, ids, token, now, CloseAll(WithoutDevice(db, key), ids, now, f).tokens[token])
  {
    var without := WithoutDevice(db, key);
    ClosedInvite(db, ids, now, f, token);
    assert forall t, id :: OpenedWith(without, ids, t, id) <==> OpenedWith(db, ids, t, id);
    if id :| OpenedWith(db, ids, token, id) {
      HolderIsOpener(db, ids, id);
      HolderIsOpener(without, ids, id);
    }
  }

  // ---- the rest ----

  /** A greeting changes when the device was last seen; a new name changes the name; another key clears all but the person. */
  lemma TheRest(db: Db, key: Key, now: int, user: string, name: string)
    requires Joint(db)
    ensures var tx := ResolveIdentity(db, key, now);
            if key == "" || key !in db.devices then tx == Refused(DeviceUnknown)
            else
              var person := db.devices[key].userId;
              && person in db.users
              && tx == Done(db.(devices := db.devices[key := db.devices[key].(lastSeenAt := now)]),
                            Identity(person, db.users[person], false))
    ensures var after := SetLabel(db, user, name).db;
            && after.devices == db.devices && after.tokens == db.tokens && after.requests == db.requests
            && after.users.Keys == db.users.Keys
            && (forall u :: u in db.users ==> after.users[u] == if u == user then name else db.users[u])
    ensures Rekey(db).db == Db(db.users, map[], map[], map[])
  {
  }
}
