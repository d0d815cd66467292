/**
 What every reachable pairing store satisfies, and that every transaction keeps
 it (client_backend/internal/store/requests.go, pairing.go, devices.go).
 */
module PairingInvariant {
  import opened Common
  import opened PairingDb

  /** A waiting request has an unspent invite of a paired issuer, a closed one a spent invite. */
  predicate RequestOk(db: Db, r: Request) {
    && r.token in db.tokens
    && var t := db.tokens[r.token];
       && t.kind == Invite
       && t.issuer == Some(r.issuer)
       && t.expiresAt == r.expiresAt
       && (Waiting(r) ==> Unspent(t) && r.issuer in db.devices)
       && (!Waiting(r) ==> !Unspent(t))
       && (r.outcome == Some(Allowed) ==> t.usedBy == Some(r.deviceKey) && t.paired.Some?)
       && (r.outcome != Some(Allowed) ==> t.paired.None?)
  }

  /** An unspent invite's issuer is paired, to the person the invite is for. */
  predicate TokenOk(db: Db, t: Token) {
    && (t.kind == Machine <==> t.issuer.None?)
    && (t.kind == Machine <==> t.userId.None?)
    && (t.userId.Some? ==> t.userId.value in db.users)
    && (t.kind == Invite && Unspent(t) ==>
          t.issuer.value in db.devices && db.devices[t.issuer.value].userId == t.userId.value)
    && (t.paired.Some? ==> t.paired.value in db.users && t.usedBy.Some? && t.usedAt.Some?)
  }

  predicate RequestsOk(db: Db) {
    forall id :: id in db.requests ==> RequestOk(db, db.requests[id])
  }

  predicate TokensOk(db: Db) {
    forall t :: t in db.tokens ==> TokenOk(db, db.tokens[t])
  }

  predicate OneRequestPerToken(db: Db) {
    forall a, b :: a in db.requests && b in db.requests && db.requests[a].token == db.requests[b].token ==> a == b
  }

  predicate OneMachineLink(ts: map<string, Token>) {
    forall a, b :: a in ts && b in ts && UnspentMachine(ts[a]) && UnspentMachine(ts[b]) ==> a == b
  }

  predicate OnePerson(db: Db) {
    && |db.users| <= 1
    && forall k :: k in db.devices ==> db.devices[k].userId in db.users
  }

  predicate Joint(db: Db) {
    RequestsOk(db) && TokensOk(db) && OneRequestPerToken(db) && OneMachineLink(db.tokens) && OnePerson(db)
  }

  lemma EmptyIsJoint()
    ensures Joint(Db(map[], map[], map[], map[]))
  {
  }

  /** With one person, any two people in the table are the same one. */
  lemma SamePerson(db: Db, a: string, b: string)
    requires OnePerson(db) && a in db.users && b in db.users
    ensures a == b
  {
    if a != b {
      var two := {a, b};
      assert two <= db.users.Keys && |two| == 2;
      SubsetSize(two, db.users.Keys);
    }
  }

  lemma SubsetSize<T>(a: set<T>, b: set<T>)
    requires a <= b
    ensures |a| <= |b|
  {
    if a != {} {
      var x :| x in a;
      SubsetSize(a - {x}, b - {x});
    }
  }

  // ---- closing requests ----

  /** Who holds the request of a token is no matter of choice. */
  lemma HolderIsOpener(db: Db, ids: set<string>, id: string)
    requires OneRequestPerToken(db)
    requires id in ids && id in db.requests
    ensures OpenedWith(db, ids, db.requests[id].token, id)
    ensures HolderOf(db, ids, db.requests[id].token) == db.requests[id].deviceKey
  {
    var t := db.requests[id].token;
    assert OpenedWith(db, ids, t, id);
    forall other | OpenedWith(db, ids, t, other)
      ensures other == id
    {
    }
  }

  /** Closing requests touches only them and their invites: everything else of a token stays. */
  lemma CloseAllTokens(db: Db, ids: set<string>, now: int, outcome: Request -> Outcome, t: string)
    requires t in db.tokens
    ensures var after := CloseAll(db, ids, now, outcome);
            && after.tokens.Keys == db.tokens.Keys
            && after.tokens[t] == db.tokens[t].(usedAt := after.tokens[t].usedAt, usedBy := after.tokens[t].usedBy)
            && (!Unspent(db.tokens[t]) ==> after.tokens[t] == db.tokens[t])
            && (Unspent(after.tokens[t]) <==> Unspent(db.tokens[t]) && !exists id :: OpenedWith(db, ids, t, id))
            && (after.tokens[t].usedAt.None? ==> after.tokens[t] == db.tokens[t])
  {
  }

  /** Closing waiting requests, none of them as allowed, keeps the invariant. */
  lemma CloseAllKeeps(db: Db, ids: set<string>, now: int, outcome: Request -> Outcome)
    requires Joint(db)
    requires forall id :: id in ids ==> id in db.requests && Waiting(db.requests[id])
    requires forall r :: outcome(r) != Allowed
    ensures Joint(CloseAll(db, ids, now, outcome))
  {
    var after := CloseAll(db, ids, now, outcome);
    forall t | t in after.tokens
      ensures TokenOk(after, after.tokens[t])
    {
      CloseAllTokens(db, ids, now, outcome, t);
      assert TokenOk(db, db.tokens[t]);
    }
    forall id | id in after.requests
      ensures RequestOk(after, after.requests[id])
    {
      CloseAllRequest(db, ids, now, outcome, id);
    }
    CloseAllMachine(db, ids, now, outcome);
  }

  lemma CloseAllRequest(db: Db, ids: set<string>, now: int, outcome: Request -> Outcome, id: string)
    requires RequestsOk(db) && OneRequestPerToken(db)
    requires id in db.requests && (id in ids ==> Waiting(db.requests[id]))
    requires forall r :: outcome(r) != Allowed
    ensures var after := CloseAll(db, ids, now, outcome);
            RequestOk(after, after.requests[id])
  {
    var r := db.requests[id];
    assert RequestOk(db, r);
    CloseAllTokens(db, ids, now, outcome, r.token);
    if id in ids {
      assert OpenedWith(db, ids, r.token, id);
    }
  }

  lemma CloseAllMachine(db: Db, ids: set<string>, now: int, outcome: Request -> Outcome)
    requires OneMachineLink(db.tokens)
    ensures OneMachineLink(CloseAll(db, ids, now, outcome).tokens)
  {
    var after := CloseAll(db, ids, now, outcome);
    forall a, b | a in after.tokens && b in after.tokens && UnspentMachine(after.tokens[a]) && UnspentMachine(after.tokens[b])
      ensures a == b
    {
      CloseAllTokens(db, ids, now, outcome, a);
      CloseAllTokens(db, ids, now, outcome, b);
    }
  }

  // ---- issuing ----

  lemma MachineLinkKeeps(db: Db, now: int, minted: string)
    requires Joint(db)
    ensures var tx := IssueMachineLink(db, now, minted); tx.Done? ==> Joint(tx.db)
  {
    var tx := IssueMachineLink(db, now, minted);
    if tx.Done? {
      forall t | t in tx.db.tokens
        ensures TokenOk(tx.db, tx.db.tokens[t])
      {
        if t != minted { assert TokenOk(db, db.tokens[t]); }
      }
      forall id | id in tx.db.requests
        ensures RequestOk(tx.db, tx.db.requests[id])
      {
        assert RequestOk(db, db.requests[id]);
      }
    }
  }

  lemma InviteKeeps(db: Db, issuer: Key, now: int, minted: string)
    requires Joint(db)
    ensures var tx := IssueDeviceInvite(db, issuer, now, minted); tx.Done? ==> Joint(tx.db)
  {
    var tx := IssueDeviceInvite(db, issuer, now, minted);
    if tx.Done? {
      forall t | t in tx.db.tokens
        ensures TokenOk(tx.db, tx.db.tokens[t])
      {
        if t != minted { assert TokenOk(db, db.tokens[t]); }
      }
      forall id | id in tx.db.requests
        ensures RequestOk(tx.db, tx.db.requests[id])
      {
        assert RequestOk(db, db.requests[id]);
      }
    }
  }

  // ---- pairing ----

  lemma SolePersonIsThePerson(db: Db, newUser: string, name: string)
    requires OnePerson(db)
    ensures var p := SolePerson(db.users, newUser, name);
            && p.Some?
            && (p.value.created <==> |db.users| == 0)
            && (p.value.created ==> p.value.userId == newUser)
            && (!p.value.created ==> p.value.userId in db.users)
  {
    if |db.users| == 1 {
      assert |db.users.Keys| == 1;
      assert db.users.Keys != {};
    }
  }

  /** Writing a device of the one person keeps every paired issuer paired, to the same person. */
  lemma JoinKeeps(db: Db, token: string, key: Key, platform: string, now: int, id: Identity)
    requires Joint(db)
    requires token in db.tokens && UnspentMachine(db.tokens[token])
    requires if id.created then |db.users| == 0 else id.userId in db.users
    ensures var tx := JoinBy(db, token, key, platform, now, id); tx.Done? ==> Joint(tx.db)
  {
    var tx := JoinBy(db, token, key, platform, now, id);
    if tx.Done? {
      var after := tx.db;
      assert db.users.Keys <= after.users.Keys;
      forall t | t in after.tokens
        ensures TokenOk(after, after.tokens[t])
      {
        assert TokenOk(db, db.tokens[t]);
      }
      forall r | r in after.requests
        ensures RequestOk(after, after.requests[r])
      {
        assert RequestOk(db, db.requests[r]);
      }
      if id.created {
        assert db.users == map[];
      }
    }
  }

  lemma OpenKeeps(db: Db, token: string, key: Key, platform: string, now: int, minted: string)
    requires Joint(db)
    requires token in db.tokens && db.tokens[token].issuer.Some? && RequestByToken(db, token).None?
    ensures var tx := OpenRequest(db, token, key, platform, now, minted); tx.Done? ==> Joint(tx.db)
  {
    var tx := OpenRequest(db, token, key, platform, now, minted);
    if tx.Done? {
      assert TokenOk(db, db.tokens[token]);
      forall t | t in tx.db.tokens
        ensures TokenOk(tx.db, tx.db.tokens[t])
      {
        assert TokenOk(db, db.tokens[t]);
      }
      forall id | id in tx.db.requests
        ensures RequestOk(tx.db, tx.db.requests[id])
      {
        if id != minted { assert RequestOk(db, db.requests[id]); }
      }
    }
  }

  lemma PairKeeps(db: Db, token: string, key: Key, platform: string, now: int, newUser: string, name: string, newRequest: string)
    requires Joint(db)
    ensures var tx := Pair(db, token, key, platform, now, newUser, name, newRequest); tx.Done? ==> Joint(tx.db)
  {
    if token in db.tokens {
      if db.tokens[token].kind == Machine {
        SolePersonIsThePerson(db, newUser, name);
        if UnspentMachine(db.tokens[token]) {
          JoinKeeps(db, token, key, platform, now, SolePerson(db.users, newUser, name).value);
        }
      } else {
        var found := RequestByToken(db, token);
        if found.Some? {
          if Waiting(db.requests[found.value]) {
            CloseAllKeeps(db, {found.value}, now, _ => Expired);
          }
        } else if db.tokens[token].issuer.Some? {
          OpenKeeps(db, token, key, platform, now, newRequest);
        }
      }
    }
  }

  // ---- answering ----

  /** An Allow: the device written, the token spent, the request closed, all at once. */
  lemma AllowKeeps(db: Db, id: string, issuer: Key, now: int)
    requires Joint(db)
    ensures var tx := Decide(db, id, issuer, true, now); tx.Done? ==> Joint(tx.db)
  {
    var tx := Decide(db, id, issuer, true, now);
    if tx.Done? {
      var after := tx.db;
      var mine := db.requests[id];
      assert RequestOk(db, mine);
      forall t | t in after.tokens
        ensures TokenOk(after, after.tokens[t])
      {
        assert TokenOk(db, db.tokens[t]);
      }
      forall r | r in after.requests
        ensures RequestOk(after, after.requests[r])
      {
        assert RequestOk(db, db.requests[r]);
        if r != id { assert db.requests[r].token != mine.token; }
      }
    }
  }

  /**
   An Allow from the issuer, in time, on a request still waiting always goes
   through: the token is there to spend, the person is there, and no other
   person holds the new key.
   */
  lemma AllowInTimeSucceeds(db: Db, id: string, issuer: Key, now: int)
    requires Joint(db)
    requires id in db.requests && db.requests[id].issuer == issuer
    requires Waiting(db.requests[id]) && Live(db.requests[id].expiresAt, now)
    ensures var tx := Decide(db, id, issuer, true, now);
            && tx.Done?
            && tx.db.requests[id].outcome == Some(Allowed)
            && db.requests[id].deviceKey in tx.db.devices
            && tx.db.devices[db.requests[id].deviceKey].userId == db.devices[issuer].userId
            && !Unspent(tx.db.tokens[db.requests[id].token])
  {
    var r := db.requests[id];
    assert RequestOk(db, r);
    var person := db.devices[issuer].userId;
    if r.deviceKey in db.devices {
      SamePerson(db, db.devices[r.deviceKey].userId, person);
    }
  }

  lemma DecideKeeps(db: Db, id: string, issuer: Key, allow: bool, now: int)
    requires Joint(db)
    ensures var tx := Decide(db, id, issuer, allow, now); tx.Done? ==> Joint(tx.db)
  {
    if allow {
      AllowKeeps(db, id, issuer, now);
    } else if id in db.requests && Waiting(db.requests[id]) {
      CloseAllKeeps(db, {id}, now, _ => Denied);
    }
  }

  // ---- revoking ----

  /**
   What a revocation does to a token: one spent already stays as it was; one
   still unspent is untouched, was not issued by the revoked device, and is no
   machine link that ran out before the last device went.
   */
  lemma RevokedToken(db: Db, key: Key, now: int, t: string)
    requires t in db.tokens
    ensures var was, after := db.tokens[t], Revoked(db, key, now);
            && after.tokens.Keys == db.tokens.Keys
            && after.tokens[t] == was.(usedAt := after.tokens[t].usedAt, usedBy := after.tokens[t].usedBy)
            && (!Unspent(was) ==> after.tokens[t] == was)
            && (Unspent(after.tokens[t]) ==> after.tokens[t] == was)
            && (Unspent(after.tokens[t]) <==>
                  && Unspent(was)
                  && was.issuer != Some(key)
                  && !(|after.devices| == 0 && was.kind == Machine && !Live(was.expiresAt, now))
                  && !(exists id :: OpenedWith(db, RequestsOf(db, key), t, id)))
  {
    var without, ids := WithoutDevice(db, key), RequestsOf(db, key);
    CloseAllTokens(without, ids, now, (q: Request) => EndOutcome(q, now), t);
    assert forall id :: OpenedWith(without, ids, t, id) <==> OpenedWith(db, ids, t, id);
  }

  lemma RevokedTokenOk(db: Db, key: Key, now: int, t: string)
    requires TokensOk(db) && t in db.tokens
    ensures var after := Revoked(db, key, now); t in after.tokens && TokenOk(after, after.tokens[t])
  {
    RevokedToken(db, key, now, t);
    assert TokenOk(db, db.tokens[t]);
  }

  /** A revocation closes exactly the waiting requests its device takes part in. */
  lemma RevokedRequest(db: Db, key: Key, now: int, id: string)
    requires id in db.requests
    ensures var r, after := db.requests[id], Revoked(db, key, now);
            && id in after.requests
            && after.requests[id] ==
               (if Waiting(r) && (r.issuer == key || r.deviceKey == key) then Closed(r, EndOutcome(r, now), now) else r)
  {
  }

  lemma RevokedRequestOk(db: Db, key: Key, now: int, id: string)
    requires RequestsOk(db) && OneRequestPerToken(db) && id in db.requests
    ensures var after := Revoked(db, key, now);
            id in after.requests && RequestOk(after, after.requests[id])
  {
    var ids, r := RequestsOf(db, key), db.requests[id];
    RevokedRequest(db, key, now, id);
    assert RequestOk(db, r);
    RevokedToken(db, key, now, r.token);
    if id in ids {
      assert OpenedWith(db, ids, r.token, id);
    } else {
      forall b | OpenedWith(db, ids, r.token, b)
        ensures b == id
      {
      }
    }
  }

  lemma RevokedOneLink(db: Db, key: Key, now: int)
    requires OneMachineLink(db.tokens)
    ensures OneMachineLink(Revoked(db, key, now).tokens)
  {
    var after := Revoked(db, key, now);
    forall a, b | a in after.tokens && b in after.tokens && UnspentMachine(after.tokens[a]) && UnspentMachine(after.tokens[b])
      ensures a == b
    {
      RevokedToken(db, key, now, a);
      RevokedToken(db, key, now, b);
    }
  }

  lemma RevokedKeeps(db: Db, key: Key, now: int)
    requires Joint(db)
    ensures Joint(Revoked(db, key, now))
  {
    var after := Revoked(db, key, now);
    forall t | t in after.tokens
      ensures TokenOk(after, after.tokens[t])
    {
      RevokedTokenOk(db, key, now, t);
    }
    forall id | id in after.requests
      ensures RequestOk(after, after.requests[id])
    {
      RevokedRequestOk(db, key, now, id);
    }
    RevokedOneLink(db, key, now);
  }

  lemma ResolveKeeps(db: Db, key: Key, now: int)
    requires Joint(db)
    ensures var tx := ResolveIdentity(db, key, now); tx.Done? ==> Joint(tx.db)
  {
    var tx := ResolveIdentity(db, key, now);
    if tx.Done? {
      forall t | t in tx.db.tokens
        ensures TokenOk(tx.db, tx.db.tokens[t])
      {
        assert TokenOk(db, db.tokens[t]);
      }
      forall id | id in tx.db.requests
        ensures RequestOk(tx.db, tx.db.requests[id])
      {
        assert RequestOk(db, db.requests[id]);
      }
    }
  }

  lemma SetLabelKeeps(db: Db, user: string, name: string)
    requires Joint(db)
    ensures Joint(SetLabel(db, user, name).db)
  {
    var after := SetLabel(db, user, name).db;
    assert after.users.Keys == db.users.Keys;
    assert |after.users| == |db.users|;
    forall t | t in after.tokens
      ensures TokenOk(after, after.tokens[t])
    {
      assert TokenOk(db, db.tokens[t]);
    }
    forall id | id in after.requests
      ensures RequestOk(after, after.requests[id])
    {
      assert RequestOk(db, db.requests[id]);
    }
  }
}
