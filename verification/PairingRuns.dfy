/**
 Whole runs of the pairing store: who ever became a device, by what, and what a
 revocation leaves (client_backend/internal/store/pairing.go, requests.go,
 devices.go, serverkey.go). A run is any sequence of transactions with any
 clock readings.
 */
module PairingRuns {
  import opened Common
  import opened PairingDb
  import opened PairingInvariant

  datatype Op =
    | LinkOp(now: int, minted: string)
    | PageOp(now: int, minted: string)
    | InviteOp(issuer: Key, now: int, minted: string)
    | PairOp(token: string, key: Key, platform: string, now: int, newUser: string, name: string, newRequest: string)
    | DecideOp(id: string, issuer: Key, allow: bool, now: int)
    | CancelOp(token: string, key: Key, now: int)
    | ExpireOp(now: int)
    | RevokeOp(caller: Key, key: Key, now: int)
    | ResolveOp(key: Key, now: int)
    | LabelOp(user: string, name: string)
    | RekeyOp

  /** The tables after one transaction; a refused one leaves them as they were. */
  ghost function After(db: Db, op: Op): Db {
    match op
    case LinkOp(now, minted) => Kept(db, IssueMachineLink(db, now, minted))
    case PageOp(now, minted) => Kept(db, PageMachineLink(db, now, minted))
    case InviteOp(issuer, now, minted) => Kept(db, IssueDeviceInvite(db, issuer, now, minted))
    case PairOp(token, key, platform, now, newUser, name, newRequest) =>
      Kept(db, Pair(db, token, key, platform, now, newUser, name, newRequest))
    case DecideOp(id, issuer, allow, now) => Kept(db, Decide(db, id, issuer, allow, now))
    case CancelOp(token, key, now) => Kept(db, Cancel(db, token, key, now))
    case ExpireOp(now) => Kept(db, Expire(db, now))
    case RevokeOp(caller, key, now) => Kept(db, Revoke(db, caller, key, now))
    case ResolveOp(key, now) => Kept(db, ResolveIdentity(db, key, now))
    case LabelOp(user, name) => Kept(db, SetLabel(db, user, name))
    case RekeyOp => Kept(db, Rekey(db))
  }

  /** The tables after the first `n` transactions of a run from `start`. */
  ghost function At(start: Db, ops: seq<Op>, n: nat): Db
    requires n <= |ops|
  {
    if n == 0 then start else After(At(start, ops, n - 1), ops[n - 1])
  }

  const Empty: Db := Db(map[], map[], map[], map[])

  lemma PageKeeps(db: Db, now: int, minted: string)
    requires Joint(db)
    ensures Joint(Kept(db, PageMachineLink(db, now, minted)))
  {
    MachineLinkKeeps(db, now, minted);
    hide Joint, PageState;
  }

  lemma CancelKeeps(db: Db, token: string, key: Key, now: int)
    requires Joint(db)
    ensures Joint(Kept(db, Cancel(db, token, key, now)))
  {
    var found := RequestByToken(db, token);
    if found.Some? && Waiting(db.requests[found.value]) {
      CloseAllKeeps(db, {found.value}, now, (q: Request) => if q.expiresAt <= now then Expired else Cancelled);
    }
    hide Joint, CloseAll;
  }

  lemma RevokeKeeps(db: Db, caller: Key, key: Key, now: int)
    requires Joint(db)
    ensures Joint(Kept(db, Revoke(db, caller, key, now)))
  {
    hide Joint, Revoked;
    RevokedKeeps(db, key, now);
  }

  lemma ExpireAndRekeyKeep(db: Db, now: int)
    requires Joint(db)
    ensures Joint(Kept(db, Expire(db, now))) && Joint(Kept(db, Rekey(db)))
  {
    CloseAllKeeps(db, DueRequests(db, now), now, _ => Expired);
    assert Joint(Rekey(db).db);
    hide Joint, CloseAll;
  }

  /** Every transaction keeps the joint invariant. */
  lemma AfterKeeps(db: Db, op: Op)
    requires Joint(db)
    ensures Joint(After(db, op))
  {
    hide Joint, IssueMachineLink, PageMachineLink, IssueDeviceInvite, Pair, Decide, Cancel, Expire, Revoke, ResolveIdentity, SetLabel, Rekey;
    match op
    case LinkOp(now, minted) => MachineLinkKeeps(db, now, minted);
    case PageOp(now, minted) => PageKeeps(db, now, minted);
    case InviteOp(issuer, now, minted) => InviteKeeps(db, issuer, now, minted);
    case PairOp(token, key, platform, now, newUser, name, newRequest) =>
      PairKeeps(db, token, key, platform, now, newUser, name, newRequest);
    case DecideOp(id, issuer, allow, now) => DecideKeeps(db, id, issuer, allow, now);
    case CancelOp(token, key, now) => CancelKeeps(db, token, key, now);
    case ExpireOp(now) => ExpireAndRekeyKeep(db, now);
    case RevokeOp(caller, key, now) => RevokeKeeps(db, caller, key, now);
    case ResolveOp(key, now) => ResolveKeeps(db, key, now);
    case LabelOp(user, name) => LabelKeeps(db, user, name);
    case RekeyOp => ExpireAndRekeyKeep(db, 0);
  }

  lemma LabelKeeps(db: Db, user: string, name: string)
    requires Joint(db)
    ensures Joint(Kept(db, SetLabel(db, user, name)))
  {
    SetLabelKeeps(db, user, name);
    hide Joint;
  }

  /** Every reachable store satisfies the joint invariant. */
  lemma {:induction false} ReachableIsJoint(start: Db, ops: seq<Op>, n: nat)
    requires Joint(start) && n <= |ops|
    ensures Joint(At(start, ops, n))
  {
    hide After;
    if n > 0 {
      ReachableIsJoint(start, ops, n - 1);
      AfterKeeps(At(start, ops, n - 1), ops[n - 1]);
    }
  }

  // ---- what never changes back ----

  lemma SpentThroughPair(db: Db, op: Op, t: string)
    requires Joint(db) && op.PairOp?
    requires t in db.tokens && !Unspent(db.tokens[t])
    ensures t in After(db, op).tokens && After(db, op).tokens[t] == db.tokens[t]
  {
    SolePersonIsThePerson(db, op.newUser, op.name);
  }

  lemma SpentThroughDecide(db: Db, op: Op, t: string)
    requires Joint(db) && op.DecideOp?
    requires t in db.tokens && !Unspent(db.tokens[t])
    ensures t in After(db, op).tokens && After(db, op).tokens[t] == db.tokens[t]
  {
    if op.id in db.requests {
      assert RequestOk(db, db.requests[op.id]);
    }
  }

  lemma SpentThroughRevoke(db: Db, op: Op, t: string)
    requires op.RevokeOp?
    requires t in db.tokens && !Unspent(db.tokens[t])
    ensures t in After(db, op).tokens && After(db, op).tokens[t] == db.tokens[t]
  {
    RevokedToken(db, op.key, op.now, t);
  }

  lemma SpentThroughTheRest(db: Db, op: Op, t: string)
    requires !op.PairOp? && !op.DecideOp? && !op.RevokeOp? && !op.RekeyOp?
    requires t in db.tokens && !Unspent(db.tokens[t])
    ensures t in After(db, op).tokens && After(db, op).tokens[t] == db.tokens[t]
  {
  }

  /** A token once spent or voided is never touched again, until a rekey lets every token go. */
  lemma SpentStaysSpent(db: Db, op: Op, t: string)
    requires Joint(db)
    requires t in db.tokens && !Unspent(db.tokens[t])
    requires !op.RekeyOp?
    ensures t in After(db, op).tokens && After(db, op).tokens[t] == db.tokens[t]
  {
    hide After;
    match op
    case PairOp(_, _, _, _, _, _, _) => SpentThroughPair(db, op, t);
    case DecideOp(_, _, _, _) => SpentThroughDecide(db, op, t);
    case RevokeOp(_, _, _) => SpentThroughRevoke(db, op, t);
    case _ => SpentThroughTheRest(db, op, t);
  }

  lemma OutcomeThroughPair(db: Db, op: Op, id: string)
    requires op.PairOp?
    requires id in db.requests && !Waiting(db.requests[id])
    ensures id in After(db, op).requests && After(db, op).requests[id] == db.requests[id]
  {
  }

  lemma OutcomeThroughRevoke(db: Db, op: Op, id: string)
    requires op.RevokeOp?
    requires id in db.requests && !Waiting(db.requests[id])
    ensures id in After(db, op).requests && After(db, op).requests[id] == db.requests[id]
  {
    RevokedRequest(db, op.key, op.now, id);
  }

  lemma OutcomeThroughTheRest(db: Db, op: Op, id: string)
    requires !op.PairOp? && !op.RevokeOp? && !op.RekeyOp?
    requires id in db.requests && !Waiting(db.requests[id])
    ensures id in After(db, op).requests && After(db, op).requests[id] == db.requests[id]
  {
  }

  /** A request once closed keeps its outcome, until a rekey lets every request go. */
  lemma OutcomeStands(db: Db, op: Op, id: string)
    requires id in db.requests && !Waiting(db.requests[id])
    requires !op.RekeyOp?
    ensures id in After(db, op).requests && After(db, op).requests[id] == db.requests[id]
  {
    hide After;
    match op
    case PairOp(_, _, _, _, _, _, _) => OutcomeThroughPair(db, op, id);
    case RevokeOp(_, _, _) => OutcomeThroughRevoke(db, op, id);
    case _ => OutcomeThroughTheRest(db, op, id);
  }

  lemma {:induction false} OutcomeStandsForGood(start: Db, ops: seq<Op>, i: nat, n: nat, id: string)
    requires i <= n <= |ops|
    requires id in At(start, ops, i).requests && !Waiting(At(start, ops, i).requests[id])
    requires forall j :: i <= j < n ==> !ops[j].RekeyOp?
    ensures id in At(start, ops, n).requests && At(start, ops, n).requests[id] == At(start, ops, i).requests[id]
    decreases n
  {
    hide After;
    if i < n {
      OutcomeStandsForGood(start, ops, i, n - 1, id);
      OutcomeStands(At(start, ops, n - 1), ops[n - 1], id);
    }
  }

  // ---- where devices come from ----

  /** `op` pairs `k` by spending a machine link that was unspent and live. */
  ghost predicate ByMachineLink(db: Db, op: Op, k: Key, t: string) {
    && op.PairOp? && op.key == k && op.token == t
    && t in db.tokens && UnspentMachine(db.tokens[t]) && Live(db.tokens[t].expiresAt, op.now)
    && t in After(db, op).tokens && After(db, op).tokens[t].usedBy == Some(k) && !Unspent(After(db, op).tokens[t])
  }

  /** `op` is an Allow, in time, from the paired issuer of a waiting request that `k` opened with `t`. */
  ghost predicate ByAllow(db: Db, op: Op, k: Key, t: string) {
    && op.DecideOp? && op.allow && op.issuer in db.devices
    && op.id in db.requests
    && var r := db.requests[op.id];
       && r.deviceKey == k && r.issuer == op.issuer && r.token == t
       && Waiting(r) && Live(r.expiresAt, op.now)
       && t in db.tokens && Unspent(db.tokens[t])
       && t in After(db, op).tokens && After(db, op).tokens[t].usedBy == Some(k) && !Unspent(After(db, op).tokens[t])
  }

  ghost predicate Writes(db: Db, op: Op, k: Key) {
    k !in db.devices && k in After(db, op).devices
  }

  ghost predicate WritesWith(db: Db, op: Op, k: Key, t: string) {
    ByMachineLink(db, op, k, t) || ByAllow(db, op, k, t)
  }

  /** A device row is written by spending a live machine link or by an Allow, and by nothing else. */
  lemma OnlyTwoWaysIn(db: Db, op: Op, k: Key) returns (t: string)
    requires Writes(db, op, k)
    ensures WritesWith(db, op, k, t)
  {
    match op
    case PairOp(token, key, platform, now, newUser, name, newRequest) => t := token;
    case DecideOp(id, issuer, allow, now) =>
      t := db.requests[id].token;
  }

  /**
   Every device row of every reachable store was written by such a transaction,
   and has been there since.
   */
  lemma {:induction false} DeviceProvenance(ops: seq<Op>, n: nat, k: Key) returns (i: nat, t: string)
    requires n <= |ops| && k in At(Empty, ops, n).devices
    ensures i < n && WritesWith(At(Empty, ops, i), ops[i], k, t)
    ensures forall j :: i < j <= n ==> k in At(Empty, ops, j).devices
  {
    hide After;
    var db := At(Empty, ops, n - 1);
    if k in db.devices {
      i, t := DeviceProvenance(ops, n - 1, k);
    } else {
      t := OnlyTwoWaysIn(db, ops[n - 1], k);
      i := n - 1;
    }
  }

  /** Every device of every reachable store belongs to the one person there is. */
  lemma DevicesBelongToThePerson(ops: seq<Op>, n: nat, a: Key, b: Key)
    requires n <= |ops|
    requires a in At(Empty, ops, n).devices && b in At(Empty, ops, n).devices
    ensures var db := At(Empty, ops, n);
            && |db.users| == 1
            && db.devices[a].userId == db.devices[b].userId
            && db.devices[a].userId in db.users
  {
    hide After;
    EmptyIsJoint();
    ReachableIsJoint(Empty, ops, n);
    var db := At(Empty, ops, n);
    SamePerson(db, db.devices[a].userId, db.devices[b].userId);
    assert db.users.Keys != {};
  }

  lemma PersonThroughPair(db: Db, op: Op)
    requires OnePerson(db) && op.PairOp?
    ensures db.users.Keys <= After(db, op).users.Keys
    ensures db.users.Keys != {} ==> After(db, op).users.Keys == db.users.Keys
  {
    SolePersonIsThePerson(db, op.newUser, op.name);
    hide SolePerson, OnePerson, PairedBy, CloseAll, InsertDevice, RequestByToken;
  }

  lemma PersonThroughRevoke(db: Db, op: Op)
    requires op.RevokeOp?
    ensures After(db, op).users.Keys == db.users.Keys
  {
    hide RequestsOf, VoidInvitesOf, VoidRunOut, HolderOf;
  }

  lemma PersonThroughTheRest(db: Db, op: Op)
    requires !op.PairOp? && !op.RevokeOp?
    ensures After(db, op).users.Keys == db.users.Keys
  {
    hide Pair, Revoke, PageState, DueRequests, RequestByToken, HolderOf, VoidMachineLinks;
  }

  /** The one person is never replaced by another. */
  lemma PersonStays(db: Db, op: Op)
    requires Joint(db)
    ensures db.users.Keys <= After(db, op).users.Keys
    ensures db.users.Keys != {} ==> After(db, op).users.Keys == db.users.Keys
  {
    hide After;
    if op.PairOp? {
      PersonThroughPair(db, op);
    } else if op.RevokeOp? {
      PersonThroughRevoke(db, op);
    } else {
      PersonThroughTheRest(db, op);
    }
  }

  /** `op` is the presentation of an invite by key `k` that opened request `id`. */
  ghost predicate Opens(db: Db, op: Op, id: string, k: Key) {
    && op.PairOp? && op.key == k && op.newRequest == id
    && id !in db.requests && id in After(db, op).requests
    && Live(After(db, op).requests[id].expiresAt, op.now)
  }

  /** The same request, whatever has been decided about it. */
  predicate SameRequest(a: Request, b: Request) {
    a.(outcome := None, decidedAt := None) == b.(outcome := None, decidedAt := None)
  }

  lemma IdentityThroughPair(db: Db, op: Op, id: string)
    requires op.PairOp? && id in After(db, op).requests
    ensures id in db.requests ==> SameRequest(After(db, op).requests[id], db.requests[id])
    ensures id !in db.requests ==> Opens(db, op, id, After(db, op).requests[id].deviceKey)
  {
    hide SolePerson, PairedBy;
  }

  lemma IdentityThroughRevoke(db: Db, op: Op, id: string)
    requires op.RevokeOp? && id in After(db, op).requests
    ensures id in db.requests && SameRequest(After(db, op).requests[id], db.requests[id])
  {
    if id in db.requests { RevokedRequest(db, op.key, op.now, id); }
  }

  lemma IdentityThroughTheRest(db: Db, op: Op, id: string)
    requires !op.PairOp? && !op.RevokeOp? && id in After(db, op).requests
    ensures id in db.requests && SameRequest(After(db, op).requests[id], db.requests[id])
  {
    hide Revoked, Pair;
  }

  /** A request comes into being only by the presentation of its invite; all but its outcome never changes. */
  lemma RequestIdentity(db: Db, op: Op, id: string)
    requires id in After(db, op).requests
    ensures id in db.requests ==> SameRequest(After(db, op).requests[id], db.requests[id])
    ensures id !in db.requests ==> Opens(db, op, id, After(db, op).requests[id].deviceKey)
  {
    hide After;
    if op.PairOp? {
      IdentityThroughPair(db, op, id);
    } else if op.RevokeOp? {
      IdentityThroughRevoke(db, op, id);
    } else {
      IdentityThroughTheRest(db, op, id);
    }
  }

  /** The key a request would let in is the key that opened it. */
  lemma {:induction false} RequestProvenance(ops: seq<Op>, n: nat, id: string) returns (i: nat)
    requires n <= |ops| && id in At(Empty, ops, n).requests
    ensures i < n && Opens(At(Empty, ops, i), ops[i], id, At(Empty, ops, n).requests[id].deviceKey)
    ensures forall j :: i < j <= n ==> id in At(Empty, ops, j).requests
  {
    hide After;
    var db := At(Empty, ops, n - 1);
    RequestIdentity(db, ops[n - 1], id);
    if id in db.requests {
      i := RequestProvenance(ops, n - 1, id);
    } else {
      i := n - 1;
    }
  }

  // ---- what a revocation leaves ----

  ghost predicate Mints(db: Db, op: Op, t: string) {
    t !in db.tokens && t in After(db, op).tokens
  }

  lemma RekeyLetsGo(db: Db)
    ensures After(db, RekeyOp).tokens == map[] && After(db, RekeyOp).requests == map[] && After(db, RekeyOp).devices == map[]
  {
  }

  /** A token unspent in the run was unspent when the run began, or minted since. */
  lemma {:induction false} UnspentSinceOrMinted(start: Db, ops: seq<Op>, n: nat, t: string) returns (j: int)
    requires Joint(start) && n <= |ops|
    requires t in At(start, ops, n).tokens && Unspent(At(start, ops, n).tokens[t])
    ensures -1 <= j < n
    ensures j == -1 ==> t in start.tokens && Unspent(start.tokens[t])
    ensures j >= 0 ==> Mints(At(start, ops, j), ops[j], t)
  {
    hide After;
    if n == 0 {
      return -1;
    }
    var db, op := At(start, ops, n - 1), ops[n - 1];
    ReachableIsJoint(start, ops, n - 1);
    if t !in db.tokens {
      return n - 1;
    }
    if !Unspent(db.tokens[t]) {
      if op.RekeyOp? {
        RekeyLetsGo(db);
      } else {
        SpentStaysSpent(db, op, t);
      }
      assert false;
    }
    j := UnspentSinceOrMinted(start, ops, n - 1, t);
  }

  /**
   A key that is not paired now comes back only through a token that is unspent
   now or is minted later.
   */
  lemma {:induction false} ReturnNeedsAToken(start: Db, ops: seq<Op>, n: nat, k: Key) returns (i: nat, t: string, j: int)
    requires Joint(start) && n <= |ops|
    requires k !in start.devices && k in At(start, ops, n).devices
    ensures i < n && WritesWith(At(start, ops, i), ops[i], k, t)
    ensures -1 <= j < i
    ensures j == -1 ==> t in start.tokens && Unspent(start.tokens[t])
    ensures j >= 0 ==> Mints(At(start, ops, j), ops[j], t)
  {
    hide After;
    var db, op := At(start, ops, n - 1), ops[n - 1];
    if k in db.devices {
      i, t, j := ReturnNeedsAToken(start, ops, n - 1, k);
    } else {
      t := OnlyTwoWaysIn(db, op, k);
      i := n - 1;
      j := UnspentSinceOrMinted(start, ops, n - 1, t);
    }
  }

  /** A revocation leaves the key out, its invites dead, and its waiting requests closed with their invites spent. */
  lemma RevocationClosesEveryDoor(db: Db, caller: Key, key: Key, now: int)
    requires Joint(db)
    requires caller == "" || caller in db.devices
    requires key in db.devices
    ensures var after := After(db, RevokeOp(caller, key, now));
            && key !in after.devices
            && (forall k :: k in db.devices && k != key ==> k in after.devices && after.devices[k] == db.devices[k])
            && (forall id :: id in after.requests && (after.requests[id].issuer == key || after.requests[id].deviceKey == key)
                  ==> !Waiting(after.requests[id]) && !Unspent(after.tokens[after.requests[id].token]))
            && (forall t :: t in after.tokens && after.tokens[t].issuer == Some(key) ==> !Unspent(after.tokens[t]))
  {
    var op := RevokeOp(caller, key, now);
    var after := After(db, op);
    AfterKeeps(db, op);
    forall id | id in after.requests && (after.requests[id].issuer == key || after.requests[id].deviceKey == key)
      ensures !Waiting(after.requests[id]) && !Unspent(after.tokens[after.requests[id].token])
    {
      RevokedRequest(db, key, now, id);
      assert RequestOk(after, after.requests[id]);
    }
    forall t | t in after.tokens && after.tokens[t].issuer == Some(key)
      ensures !Unspent(after.tokens[t])
    {
      RevokedToken(db, key, now, t);
    }
  }

  /** A request waiting in the run waited when the run began, or was opened since by the presentation of its own key. */
  lemma {:induction false} WaitingSinceOrOpened(start: Db, ops: seq<Op>, n: nat, id: string) returns (j: int)
    requires n <= |ops|
    requires id in At(start, ops, n).requests && Waiting(At(start, ops, n).requests[id])
    ensures -1 <= j < n
    ensures j == -1 ==> id in start.requests && Waiting(start.requests[id])
                        && SameRequest(start.requests[id], At(start, ops, n).requests[id])
    ensures j >= 0 ==> Opens(At(start, ops, j), ops[j], id, At(start, ops, n).requests[id].deviceKey)
  {
    hide After;
    if n == 0 {
      return -1;
    }
    var db, op := At(start, ops, n - 1), ops[n - 1];
    RequestIdentity(db, op, id);
    if id !in db.requests {
      return n - 1;
    }
    if op.RekeyOp? {
      RekeyLetsGo(db);
    } else if !Waiting(db.requests[id]) {
      OutcomeStands(db, op, id);
    }
    j := WaitingSinceOrOpened(start, ops, n - 1, id);
  }

  /**
   A revoked device comes back only by presenting a token anew: no Allow on a
   request it opened before the revocation brings it back.
   */
  lemma ReturnNeedsAPresentation(db: Db, caller: Key, key: Key, now: int, ops: seq<Op>, n: nat) returns (p: nat)
    requires Joint(db) && (caller == "" || caller in db.devices) && key in db.devices
    requires n <= |ops| && key in At(After(db, RevokeOp(caller, key, now)), ops, n).devices
    ensures p < n && ops[p].PairOp? && ops[p].key == key
  {
    var start := After(db, RevokeOp(caller, key, now));
    AfterKeeps(db, RevokeOp(caller, key, now));
    RevocationClosesEveryDoor(db, caller, key, now);
    hide After, Joint;
    var i, t, _ := ReturnNeedsAToken(start, ops, n, key);
    if ops[i].PairOp? {
      return i;
    }
    var j := WaitingSinceOrOpened(start, ops, i, ops[i].id);
    p := j;
  }

  // ---- the machine link ----

  lemma PageShowsTheLink(db: Db, t: string)
    requires OneMachineLink(db.tokens)
    requires t in db.tokens && UnspentMachine(db.tokens[t])
    ensures PageState(db).link == Some(LinkAnswer(t, db.tokens[t].expiresAt))
  {
  }

  /** Page loads with nothing between them show the same thing, a link that ran out included. */
  lemma PageLoadsAgree(db: Db, now: int, minted: string, later: int, minted': string)
    requires Joint(db)
    requires PageMachineLink(db, now, minted).Done?
    ensures var first := PageMachineLink(db, now, minted);
            PageMachineLink(first.db, later, minted') == Done(first.db, first.answer)
  {
    var first := PageMachineLink(db, now, minted);
    MachineLinkKeeps(db, now, minted);
    if PageState(db).link.None? && |db.devices| == 0 {
      PageShowsTheLink(first.db, minted);
    }
  }

  /**
   Whatever ran between its two halves, a page load is the one transaction at one
   of the two moments: at the first it writes nothing, at the second it is itself.
   */
  lemma PageLoadIsOneStep(seen: Db, db: Db, now: int, minted: string)
    ensures var load := PageLoad(seen, db, now, minted);
            || (load == PageMachineLink(db, now, minted))
            || (PageMachineLink(seen, now, minted) == Done(seen, load.answer) && load == Done(db, load.answer))
  {
  }

  /**
   Two loads with nothing else between show the same thing and mint once, also when
   the second had read the tables before the first minted.
   */
  lemma RacingLoadsAgree(db: Db, now: int, minted: string, seen: Db, later: int, minted': string)
    requires Joint(db) && PageMachineLink(db, now, minted).Done?
    requires seen == db || seen == PageMachineLink(db, now, minted).db
    ensures var first := PageMachineLink(db, now, minted);
            PageLoad(seen, first.db, later, minted') == Done(first.db, first.answer)
  {
    PageLoadsAgree(db, now, minted, later, minted');
  }

  /** After the last device is revoked, a page load at that moment always shows a live link. */
  lemma LastDeviceGoneShowsALiveLink(db: Db, caller: Key, key: Key, now: int, minted: string)
    requires Joint(db)
    requires caller == "" || caller in db.devices
    requires db.devices.Keys == {key}
    requires minted !in db.tokens
    ensures var revoked := Revoke(db, caller, key, now);
            && revoked.Done?
            && var page := PageMachineLink(revoked.db, now, minted);
               && page.Done? && page.answer.devices == 0
               && page.answer.link.Some? && Live(page.answer.link.value.expiresAt, now)
  {
    hide Revoked;
    var after := Revoked(db, key, now);
    NoDeviceLeft(db, key, now);
    RevokedOneLink(db, key, now);
    RevokedTokenKeys(db, key, now);
    forall t | t in after.tokens && UnspentMachine(after.tokens[t])
      ensures Live(after.tokens[t].expiresAt, now)
    {
      RevokedToken(db, key, now, t);
    }
    PageOfNobodyIsLive(after, now, minted);
  }

  /** With no device and no link run out unused, the page shows a link that can be presented. */
  lemma PageOfNobodyIsLive(db: Db, now: int, minted: string)
    requires OneMachineLink(db.tokens) && |db.devices| == 0 && minted !in db.tokens
    requires forall t :: t in db.tokens && UnspentMachine(db.tokens[t]) ==> Live(db.tokens[t].expiresAt, now)
    ensures var page := PageMachineLink(db, now, minted);
            && page.Done? && page.answer.devices == 0
            && page.answer.link.Some? && Live(page.answer.link.value.expiresAt, now)
  {
    if t :| t in db.tokens && UnspentMachine(db.tokens[t]) {
      PageShowsTheLink(db, t);
    }
  }

  lemma NoDeviceLeft(db: Db, key: Key, now: int)
    requires db.devices.Keys == {key}
    ensures |Revoked(db, key, now).devices| == 0
  {
    assert Revoked(db, key, now).devices.Keys == {};
  }

  lemma RevokedTokenKeys(db: Db, key: Key, now: int)
    ensures Revoked(db, key, now).tokens.Keys == db.tokens.Keys
  {
  }
}
