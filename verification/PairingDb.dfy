/**
 The pairing tables as values and every transaction on them as a function from
 tables to tables (client_backend/internal/store/pairing.go, requests.go,
 devices.go, identity.go, serverkey.go). A transaction that refuses writes
 nothing. Random ids arrive as arguments; one already taken breaks a primary
 key, and the transaction rolls back.
 */
module PairingDb {
  import opened Common

  type Key = string

  const TTL: int := 600

  datatype Kind = Machine | Invite

  datatype Token = Token(
    kind: Kind,
    userId: Option<string>,
    issuer: Option<Key>,
    createdAt: int,
    expiresAt: int,
    usedAt: Option<int>,
    usedBy: Option<Key>,
    paired: Option<string>,
    created: bool)

  datatype Outcome = Allowed | Denied | Expired | Cancelled

  datatype Request = Request(
    token: string,
    deviceKey: Key,
    platform: string,
    issuer: Key,
    expiresAt: int,
    outcome: Option<Outcome>,
    decidedAt: Option<int>)

  datatype Device = Device(userId: string, platform: string, createdAt: int, lastSeenAt: int)

  datatype Db = Db(
    users: map<string, string>,
    devices: map<Key, Device>,
    tokens: map<string, Token>,
    requests: map<string, Request>)

  datatype Identity = Identity(userId: string, name: string, created: bool)

  datatype Error = TokenInvalid | TokenExpired | DeviceUnknown | RequestNotFound | Collision | OtherPerson

  /** What a transaction did: the tables after it and its answer, or why it wrote nothing. */
  datatype Tx<A> = Done(db: Db, answer: A) | Refused(error: Error)

  /** The tables once the transaction is over; a refused one leaves them as they were. */
  function Kept<A>(db: Db, tx: Tx<A>): (after: Db)
    ensures tx.Done? ==> after == tx.db
    ensures tx.Refused? ==> after == db
  {
    if tx.Done? then tx.db else db
  }

  predicate Unspent(t: Token) {
    t.usedAt.None?
  }

  predicate UnspentMachine(t: Token) {
    t.kind == Machine && Unspent(t)
  }

  predicate Waiting(r: Request) {
    r.outcome.None?
  }

  /** Whether a link can still be presented at `now`. */
  predicate Live(expiresAt: int, now: int) {
    now < expiresAt
  }

  // ---- the statements transactions are made of ----

  function Spent(t: Token, key: Key, now: int): Token {
    t.(usedAt := Some(now), usedBy := Some(key))
  }

  function Voided(t: Token, now: int): Token {
    t.(usedAt := Some(now))
  }

  function Closed(r: Request, o: Outcome, now: int): Request {
    r.(outcome := Some(o), decidedAt := Some(now))
  }

  /** Voids every unspent machine link. */
  function VoidMachineLinks(ts: map<string, Token>, now: int): (r: map<string, Token>)
  {
    map t | t in ts :: if UnspentMachine(ts[t]) then Voided(ts[t], now) else ts[t]
  }

  /** Voids every unspent invite of one issuer. */
  function VoidInvitesOf(ts: map<string, Token>, issuer: Key, now: int): (r: map<string, Token>)
  {
    map t | t in ts :: if ts[t].issuer == Some(issuer) && Unspent(ts[t]) then Voided(ts[t], now) else ts[t]
  }

  /** Voids the machine links that ran out unused. */
  function VoidRunOut(ts: map<string, Token>, now: int): (r: map<string, Token>)
  {
    map t | t in ts ::
      if UnspentMachine(ts[t]) && ts[t].expiresAt <= now then Voided(ts[t], now) else ts[t]
  }

  function MachineToken(now: int): Token {
    Token(Machine, None, None, now, now + TTL, None, None, None, false)
  }

  function InviteToken(userId: string, issuer: Key, now: int): Token {
    Token(Invite, Some(userId), Some(issuer), now, now + TTL, None, None, None, false)
  }

  function InsertDevice(ds: map<Key, Device>, key: Key, userId: string, platform: string, now: int): (r: map<Key, Device>)
  {
    if key in ds then ds[key := ds[key].(platform := platform, lastSeenAt := now)]
    else ds[key := Device(userId, platform, now, now)]
  }

  /** The outcome a request closed by the end of a device's part in it gets. */
  function EndOutcome(r: Request, now: int): Outcome {
    if r.expiresAt <= now then Expired else Denied
  }

  /** Whether `id` names one of the requests in `ids`, opened with token `t`. */
  predicate OpenedWith(db: Db, ids: set<string>, t: string, id: string) {
    id in ids && id in db.requests && db.requests[id].token == t
  }

  /** The key that held the request in `ids` opened with token `t`. */
  ghost function HolderOf(db: Db, ids: set<string>, t: string): Key
    requires exists id :: OpenedWith(db, ids, t, id)
  {
    var id :| OpenedWith(db, ids, t, id);
    db.requests[id].deviceKey
  }

  /** Closes every request of `ids` at once and spends their invites. */
  ghost function CloseAll(db: Db, ids: set<string>, now: int, outcome: Request -> Outcome): (r: Db)
  {
    db.(
      requests := map id | id in db.requests ::
        if id in ids then Closed(db.requests[id], outcome(db.requests[id]), now) else db.requests[id],
      tokens := map t | t in db.tokens ::
        if Unspent(db.tokens[t]) && exists id :: OpenedWith(db, ids, t, id)
        then Spent(db.tokens[t], HolderOf(db, ids, t), now)
        else db.tokens[t])
  }

  // ---- the transactions ----

  datatype LinkAnswer = LinkAnswer(token: string, expiresAt: int)

  function IssueMachineLink(db: Db, now: int, minted: string): Tx<LinkAnswer> {
    if minted in db.tokens then Refused(Collision)
    else Done(db.(tokens := VoidMachineLinks(db.tokens, now)[minted := MachineToken(now)]),
              LinkAnswer(minted, now + TTL))
  }

  datatype PageAnswer = PageAnswer(devices: nat, link: Option<LinkAnswer>)

  /** The unspent machine link and the device count, as the page reads them. */
  ghost function PageState(db: Db): PageAnswer {
    PageAnswer(|db.devices|,
      if t :| t in db.tokens && UnspentMachine(db.tokens[t])
      then Some(LinkAnswer(t, db.tokens[t].expiresAt)) else None)
  }

  /** The page has a link to show, or devices that need none. */
  predicate ShowsEnough(page: PageAnswer) {
    page.link.Some? || page.devices > 0
  }

  ghost function PageMachineLink(db: Db, now: int, minted: string): Tx<PageAnswer> {
    var page := PageState(db);
    if ShowsEnough(page) then Done(db, page)
    else
      match IssueMachineLink(db, now, minted)
      case Done(after, link) => Done(after, page.(link := Some(link)))
      case Refused(e) => Refused(e)
  }

  /** A whole page load: a read of the tables as they were, and, when that was not enough, a transaction on them as they are. */
  ghost function PageLoad(seen: Db, db: Db, now: int, minted: string): Tx<PageAnswer> {
    if ShowsEnough(PageState(seen)) then Done(db, PageState(seen)) else PageMachineLink(db, now, minted)
  }

  function IssueDeviceInvite(db: Db, issuer: Key, now: int, minted: string): Tx<string> {
    if issuer !in db.devices then Refused(DeviceUnknown)
    else if minted in db.tokens then Refused(Collision)
    else Done(db.(tokens := db.tokens[minted := InviteToken(db.devices[issuer].userId, issuer, now)]), minted)
  }

  /** The identity a spent token produced, for the key that spent it while it still belongs to that person. */
  function PairedBy(db: Db, token: string, key: Key): (id: Option<Identity>)
  {
    if token !in db.tokens then None
    else
      var t := db.tokens[token];
      if t.usedAt.Some? && t.usedBy == Some(key) && t.paired.Some? && t.paired.value in db.users
         && key in db.devices && db.devices[key].userId == t.paired.value
      then Some(Identity(t.paired.value, db.users[t.paired.value], t.created))
      else None
  }

  datatype PairAnswer =
    | Joined(id: Identity)
    | Repeated(id: Identity)
    | Opened(request: string)
    | Standing(request: string, outcome: Option<Outcome>)
    | RanOut(request: string)

  /** Whose device a machine link makes it: the one person, or a new one when there is nobody. */
  ghost function SolePerson(users: map<string, string>, newUser: string, name: string): Option<Identity> {
    if |users| == 0 then Some(Identity(newUser, name, true))
    else if |users| == 1 then
      var u :| u in users;
      Some(Identity(u, users[u], false))
    else None
  }

  /** A machine link's pairing once the person is known: the token spent, the device written, the outcome kept. */
  function JoinBy(db: Db, token: string, key: Key, platform: string, now: int, id: Identity): Tx<PairAnswer>
    requires token in db.tokens
  {
    if key in db.devices && db.devices[key].userId != id.userId then Refused(TokenInvalid)
    else
      Done(db.(
             users := if id.created then db.users[id.userId := id.name] else db.users,
             devices := InsertDevice(db.devices, key, id.userId, platform, now),
             tokens := db.tokens[token := Spent(db.tokens[token], key, now).(paired := Some(id.userId), created := id.created)]),
           Joined(id))
  }

  ghost function PairByMachineLink(db: Db, token: string, key: Key, platform: string, now: int,
                                   newUser: string, name: string): Tx<PairAnswer>
    requires token in db.tokens
  {
    var same := PairedBy(db, token, key);
    if same.Some? then Done(db, Repeated(same.value))
    else if !Unspent(db.tokens[token]) then Refused(TokenInvalid)
    else if !Live(db.tokens[token].expiresAt, now) then Refused(TokenExpired)
    else
      var person := SolePerson(db.users, newUser, name);
      if person.None? then Refused(TokenInvalid)
      else JoinBy(db, token, key, platform, now, person.value)
  }

  ghost function RequestByToken(db: Db, token: string): Option<string> {
    if id :| id in db.requests && db.requests[id].token == token then Some(id) else None
  }

  /** What a presentation of an invite whose request exists is answered. */
  ghost function RepeatRequest(db: Db, id: string, token: string, key: Key, now: int): Tx<PairAnswer>
    requires id in db.requests
  {
    var r := db.requests[id];
    if r.deviceKey != key then Refused(TokenInvalid)
    else match r.outcome
      case None =>
        if Live(r.expiresAt, now) then Done(db, Standing(id, None))
        else Done(CloseAll(db, {id}, now, _ => Expired), RanOut(id))
      case Some(Allowed) =>
        var who := PairedBy(db, token, key);
        if who.None? then Refused(TokenInvalid) else Done(db, Repeated(who.value))
      case Some(o) => Done(db, Standing(id, Some(o)))
  }

  /** Opens a request with an invite nobody has presented. */
  function OpenRequest(db: Db, token: string, key: Key, platform: string, now: int, minted: string): Tx<PairAnswer>
    requires token in db.tokens && db.tokens[token].issuer.Some?
  {
    var t := db.tokens[token];
    if !Unspent(t) then Refused(TokenInvalid)
    else if !Live(t.expiresAt, now) then Refused(TokenExpired)
    else if t.issuer.value !in db.devices then Refused(TokenInvalid)
    else if key in db.devices && Some(db.devices[key].userId) != t.userId then Refused(TokenInvalid)
    else if minted in db.requests then Refused(Collision)
    else Done(db.(requests := db.requests[minted :=
                Request(token, key, platform, t.issuer.value, t.expiresAt, None, None)]),
              Opened(minted))
  }

  ghost function Pair(db: Db, token: string, key: Key, platform: string, now: int,
                      newUser: string, name: string, newRequest: string): Tx<PairAnswer>
  {
    if token !in db.tokens then Refused(TokenInvalid)
    else if db.tokens[token].kind == Machine then
      PairByMachineLink(db, token, key, platform, now, newUser, name)
    else
      var found := RequestByToken(db, token);
      if found.Some? then RepeatRequest(db, found.value, token, key, now)
      else if db.tokens[token].issuer.None? then Refused(TokenInvalid)
      else OpenRequest(db, token, key, platform, now, newRequest)
  }

  /** The issuing device's answer. */
  ghost function Decide(db: Db, id: string, issuer: Key, allow: bool, now: int): Tx<Option<Identity>> {
    if issuer !in db.devices then Refused(DeviceUnknown)
    else if id !in db.requests then Refused(RequestNotFound)
    else
      var r := db.requests[id];
      var person := db.devices[issuer].userId;
      if r.issuer != issuer || !Waiting(r) || !Live(r.expiresAt, now) then Refused(RequestNotFound)
      else if !allow then Done(CloseAll(db, {id}, now, _ => Denied), None)
      else if r.token !in db.tokens || !Unspent(db.tokens[r.token]) then Refused(RequestNotFound)
      else if person !in db.users then Refused(OtherPerson)
      else if r.deviceKey in db.devices && db.devices[r.deviceKey].userId != person then Refused(OtherPerson)
      else
        Done(LetIn(db, id, person, now), Some(Identity(person, db.users[person], false)))
  }

  /** The tables after an Allow: the token spent for the person, the request closed, the device written. */
  function LetIn(db: Db, id: string, person: string, now: int): Db
    requires id in db.requests && db.requests[id].token in db.tokens
  {
    var r := db.requests[id];
    db.(tokens := db.tokens[r.token := Spent(db.tokens[r.token], r.deviceKey, now).(paired := Some(person), created := false)],
        requests := db.requests[id := Closed(r, Allowed, now)],
        devices := InsertDevice(db.devices, r.deviceKey, person, r.platform, now))
  }

  /** The new device withdraws the request it opened with `token`; None when there is nothing to withdraw. */
  ghost function Cancel(db: Db, token: string, key: Key, now: int): Tx<Option<string>> {
    var found := RequestByToken(db, token);
    if found.None? then Done(db, None)
    else
      var id := found.value;
      var r := db.requests[id];
      if r.deviceKey != key || !Waiting(r) then Done(db, None)
      else Done(CloseAll(db, {id}, now, (q: Request) => if q.expiresAt <= now then Expired else Cancelled), Some(id))
  }

  function DueRequests(db: Db, now: int): (ids: set<string>)
  {
    set id | id in db.requests && Waiting(db.requests[id]) && db.requests[id].expiresAt <= now
  }

  ghost function Expire(db: Db, now: int): Tx<set<string>> {
    Done(CloseAll(db, DueRequests(db, now), now, _ => Expired), DueRequests(db, now))
  }

  function RequestsOf(db: Db, key: Key): (ids: set<string>)
  {
    set id | id in db.requests && Waiting(db.requests[id])
             && (db.requests[id].issuer == key || db.requests[id].deviceKey == key)
  }

  function WithoutDevice(db: Db, key: Key): Db {
    db.(devices := map k | k in db.devices && k != key :: db.devices[k])
  }

  /** A device gone and every request it took part in closed. */
  ghost function Answered(db: Db, key: Key, now: int): Db {
    CloseAll(WithoutDevice(db, key), RequestsOf(db, key), now, (r: Request) => EndOutcome(r, now))
  }

  /** The revocation of a device that is there: its row, its requests, its invites, a link that ran out. */
  ghost function Revoked(db: Db, key: Key, now: int): Db {
    var answered := Answered(db, key, now);
    var voided := VoidInvitesOf(answered.tokens, key, now);
    answered.(tokens := if |answered.devices| == 0 then VoidRunOut(voided, now) else voided)
  }

  ghost function Revoke(db: Db, caller: Key, key: Key, now: int): Tx<set<string>> {
    if caller != "" && caller !in db.devices then Refused(DeviceUnknown)
    else if key !in db.devices then Done(db, {})
    else Done(Revoked(db, key, now), RequestsOf(db, key))
  }

  /** A greeting finds the person behind a key and touches the device; it never writes a person or a device. */
  function ResolveIdentity(db: Db, key: Key, now: int): Tx<Identity> {
    if key == "" || key !in db.devices || db.devices[key].userId !in db.users then Refused(DeviceUnknown)
    else
      var d := db.devices[key];
      Done(db.(devices := db.devices[key := d.(lastSeenAt := now)]), Identity(d.userId, db.users[d.userId], false))
  }

  function SetLabel(db: Db, user: string, name: string): Tx<()> {
    Done(if user in db.users then db.(users := db.users[user := name]) else db, ())
  }

  /** The key of another implementation: every device, token and request is let go. */
  function Rekey(db: Db): Tx<()> {
    Done(db.(requests := map[], tokens := map[], devices := map[]), ())
  }
}
