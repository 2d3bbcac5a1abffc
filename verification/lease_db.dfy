/** The tables of the lease database, the constraints its schema enforces, and
    the two things a service does over and over: write an audit entry and end a
    session. */
module LeaseDb {
  import opened Wrappers

  type Id = string

  datatype Role = Admin | Operator
  datatype UserStatus = UserActive | Suspended | UserDisabled
  datatype User = User(email: string, role: Role, status: UserStatus)

  datatype AccountStatus = Available | Maintenance | Disabled
  datatype Account = Account(externalId: string, status: AccountStatus)

  datatype AssignmentStatus = Assigned | Revoked | Expired
  datatype Assignment = Assignment(account: Id, user: Id, status: AssignmentStatus, expiresAt: Option<int>)

  datatype Device = Device(user: Id, publicKey: string, active: bool)

  datatype SessionStatus = Starting | Active | Stopping | Ended | Stale | Failed
  datatype RuntimeState = Launching | InClient | InGame | Reconnecting | Exited
  datatype Reason = Manual | ProcessExit | Logout | HeartbeatTimeout | AdminForceRelease | ErrorReason | LeaseTimeout

  /** Times are milliseconds. */
  datatype Session = Session(
    account: Id,
    user: Id,
    device: Id,
    status: SessionStatus,
    runtime: RuntimeState,
    startedAt: int,
    lastHeartbeatAt: int,
    endedAt: Option<int>,
    graceUntil: Option<int>,
    reason: Option<Reason>)

  datatype Action = SessionStarted | SessionEnded | SessionReaped | Other(name: string)
  datatype Entity = AccountSessions | Accounts | Users | Devices | Assignments
  datatype Audit = Audit(actor: Id, action: Action, entity: Entity, id: Id)

  datatype Db = Db(
    users: map<Id, User>,
    accounts: map<Id, Account>,
    assignments: map<Id, Assignment>,
    devices: map<Id, Device>,
    sessions: map<Id, Session>,
    audit: seq<Audit>)

  // -------------------------------------------------------------- the schema

  /** The statuses the exclusive index and every query for a lease list. */
  predicate Live(s: Session) {
    s.status.Starting? || s.status.Active? || s.status.Stopping?
  }

  predicate LiveIn(db: Db, id: Id) {
    id in db.sessions && Live(db.sessions[id])
  }

  ghost predicate ForeignKeys(db: Db) {
    && (forall a | a in db.assignments :: db.assignments[a].account in db.accounts && db.assignments[a].user in db.users)
    && (forall d | d in db.devices :: db.devices[d].user in db.users)
    && (forall s | s in db.sessions ::
          db.sessions[s].account in db.accounts && db.sessions[s].user in db.users && db.sessions[s].device in db.devices)
    && (forall e | e in db.audit :: e.actor in db.users)
  }

  ghost predicate UniqueEmails(users: map<Id, User>) {
    forall i, j | i in users && j in users && users[i].email == users[j].email :: i == j
  }

  ghost predicate UniqueExternalIds(accounts: map<Id, Account>) {
    forall i, j | i in accounts && j in accounts && accounts[i].externalId == accounts[j].externalId :: i == j
  }

  ghost predicate UniquePairs(rows: map<Id, Assignment>) {
    forall i, j | i in rows && j in rows && rows[i].account == rows[j].account && rows[i].user == rows[j].user :: i == j
  }

  ghost predicate UniqueKeys(rows: map<Id, Device>) {
    forall i, j | i in rows && j in rows && rows[i].user == rows[j].user && rows[i].publicKey == rows[j].publicKey :: i == j
  }

  ghost predicate UniqueColumns(db: Db) {
    UniqueEmails(db.users) && UniqueExternalIds(db.accounts) && UniquePairs(db.assignments) && UniqueKeys(db.devices)
  }

  /** The partial unique index over live sessions. */
  ghost predicate Exclusive(db: Db) {
    forall i, j | LiveIn(db, i) && LiveIn(db, j) && db.sessions[i].account == db.sessions[j].account :: i == j
  }

  /** The CHECK on `release_reason`: it has no `lease_timeout`. */
  predicate AllowedReason(reason: Option<Reason>) {
    reason != Some(LeaseTimeout)
  }

  ghost predicate Checks(db: Db) {
    forall s | s in db.sessions :: AllowedReason(db.sessions[s].reason)
  }

  /** What the database itself never lets go wrong. */
  ghost predicate Schema(db: Db) {
    ForeignKeys(db) && UniqueColumns(db) && Exclusive(db) && Checks(db)
  }

  /** The live session of an account, which the index makes the only one. */
  function LiveOn(db: Db, account: Id): (r: Option<Id>)
    requires Exclusive(db)
    ensures r.Some? ==> LiveIn(db, r.value) && db.sessions[r.value].account == account
    ensures r.None? ==> forall id :: LiveIn(db, id) ==> db.sessions[id].account != account
  {
    var ids := set id | id in db.sessions && LiveIn(db, id) && db.sessions[id].account == account;
    assert forall id :: LiveIn(db, id) && db.sessions[id].account == account ==> id in ids;
    if ids == {} then None
    else
      var id :| id in ids && forall other | other in ids :: other == id;
      Some(id)
  }

  function AssignmentOf(db: Db, account: Id, user: Id): (r: Option<Id>)
    requires UniqueColumns(db)
    ensures r.Some? ==> r.value in db.assignments && db.assignments[r.value].account == account && db.assignments[r.value].user == user
    ensures r.None? ==> forall id | id in db.assignments :: !(db.assignments[id].account == account && db.assignments[id].user == user)
  {
    var ids := set id | id in db.assignments && db.assignments[id].account == account && db.assignments[id].user == user;
    assert forall id | id in db.assignments && db.assignments[id].account == account && db.assignments[id].user == user :: id in ids;
    if ids == {} then None
    else
      var id :| id in ids && forall other | other in ids :: other == id;
      Some(id)
  }

  function DeviceOf(db: Db, user: Id, publicKey: string): (r: Option<Id>)
    requires UniqueColumns(db)
    ensures r.Some? ==> r.value in db.devices && db.devices[r.value].user == user && db.devices[r.value].publicKey == publicKey
    ensures r.None? ==> forall id | id in db.devices :: !(db.devices[id].user == user && db.devices[id].publicKey == publicKey)
  {
    var ids := set id | id in db.devices && db.devices[id].user == user && db.devices[id].publicKey == publicKey;
    assert forall id | id in db.devices && db.devices[id].user == user && db.devices[id].publicKey == publicKey :: id in ids;
    if ids == {} then None
    else
      var id :| id in ids && forall other | other in ids :: other == id;
      Some(id)
  }

  // ------------------------------------------------------------- transactions

  datatype Error =
    | NoActiveAssignment | DeviceNotAuthorized | AccountUnavailable | AccountBusy
    | InvalidReleaseReason | SessionNotFound | Forbidden
    | AccountNotFound | AccountExists | UserNotFound | UserExists | InvalidAssignment | AssignmentNotFound
    | DeviceNotFound | DeviceRevoked | SelfLockout | LastAdminRequired
    | ConstraintFailed(constraint: Constraint)

  datatype Constraint = ForeignKey | UniqueColumn | ExclusiveSession | CheckReason

  /** Where a callback got to: its result, or the error it threw and the tables
      as they were at that point. */
  datatype Tx<T> = Done(db: Db, value: T) | Throw(db: Db, error: Error)

  /** BEGIN, the callback, then COMMIT or ROLLBACK. */
  function Transact<T>(before: Db, tx: Tx<T>): (r: Tx<T>)
    ensures r.Throw? ==> r.db == before
    ensures r.Done? <==> tx.Done?
  {
    match tx
    case Done(_, _) => tx
    case Throw(_, error) => Throw(before, error)
  }

  /** The actor of an entry must be a user. */
  function AddAudit(db: Db, actor: Id, action: Action, entity: Entity, id: Id): (t: Tx<()>) {
    if actor !in db.users then Throw(db, ConstraintFailed(ForeignKey))
    else Done(db.(audit := db.audit + [Audit(actor, action, entity, id)]), ())
  }

  // ----------------------------------------------------------- ending sessions

  /** How a session ends; without an actor its own user is noted. */
  datatype Ending = Ending(status: SessionStatus, reason: Reason, action: Action, actor: Option<Id>)

  function EndedRow(s: Session, how: Ending, now: int): (r: Session) {
    s.(status := how.status, runtime := Exited, endedAt := Some(now), reason := Some(how.reason))
  }

  function ActorOf(db: Db, id: Id, how: Ending): (actor: Id)
    requires id in db.sessions
  {
    if how.actor.Some? then how.actor.value else db.sessions[id].user
  }

  function End(db: Db, id: Id, how: Ending, now: int): (t: Tx<()>)
    requires id in db.sessions
  {
    if !AllowedReason(Some(how.reason)) then Throw(db, ConstraintFailed(CheckReason))
    else
      var updated := db.(sessions := db.sessions[id := EndedRow(db.sessions[id], how, now)]);
      AddAudit(updated, ActorOf(db, id, how), how.action, AccountSessions, id)
  }

  /** Ends the given rows one after the other. */
  function EndEach(db: Db, rows: seq<Id>, how: Ending, now: int): (t: Tx<()>)
    requires forall id | id in rows :: id in db.sessions
    decreases |rows|
  {
    if rows == [] then Done(db, ())
    else
      var first := End(db, rows[0], how, now);
      if first.Throw? then first else EndEach(first.db, rows[1..], how, now)
  }

  function EndedSessions(db: Db, rows: seq<Id>, how: Ending, now: int): (r: map<Id, Session>) {
    map id | id in db.sessions :: if id in rows then EndedRow(db.sessions[id], how, now) else db.sessions[id]
  }

  function EndEntries(db: Db, rows: seq<Id>, how: Ending): (r: seq<Audit>)
    requires forall id | id in rows :: id in db.sessions
  {
    seq(|rows|, i requires 0 <= i < |rows| => Audit(ActorOf(db, rows[i], how), how.action, AccountSessions, rows[i]))
  }

  /** Ending rows never fails in a sound database, touches only those rows, and
      logs each of them. */
  lemma {:induction false} EndEachIs(db: Db, rows: seq<Id>, how: Ending, now: int)
    requires forall id | id in rows :: id in db.sessions && ActorOf(db, id, how) in db.users
    requires AllowedReason(Some(how.reason))
    ensures EndEach(db, rows, how, now) ==
            Done(db.(sessions := EndedSessions(db, rows, how, now), audit := db.audit + EndEntries(db, rows, how)), ())
    decreases |rows|
  {
    if rows == [] {
      assert EndedSessions(db, rows, how, now) == db.sessions;
      assert db.audit + EndEntries(db, rows, how) == db.audit;
    } else {
      var first := End(db, rows[0], how, now);
      EndEachIs(first.db, rows[1..], how, now);
      assert forall id :: id in rows <==> id == rows[0] || id in rows[1..];
      assert EndedSessions(first.db, rows[1..], how, now) == EndedSessions(db, rows, how, now);
      assert first.db.audit + EndEntries(first.db, rows[1..], how) == db.audit + EndEntries(db, rows, how);
    }
  }

  // ------------------------------------------------- what every state satisfies

  /** A session that ended says when, why and that Riot is gone; a live one says
      none of this. The grace period runs from the last heartbeat. */
  predicate Lifecycle(s: Session) {
    && (Live(s) ==> s.endedAt.None? && s.reason.None? && !s.runtime.Exited?)
    && (!Live(s) ==> s.endedAt.Some? && s.reason.Some? && s.runtime.Exited?)
    && (s.graceUntil.Some? ==> s.graceUntil.value == s.lastHeartbeatAt + GRACE)
    && s.startedAt <= s.lastHeartbeatAt
  }

  const GRACE: int := 300000
  const HEARTBEAT_LIMIT: int := 120000
  const LEASE_LIMIT: int := 14400000

  ghost predicate Lifecycles(db: Db) {
    forall s | s in db.sessions :: Lifecycle(db.sessions[s])
  }

  /** A lease is on an available account and on its user's active device. */
  ghost predicate Leases(db: Db) {
    forall id | LiveIn(db, id) ::
      && db.sessions[id].account in db.accounts && db.accounts[db.sessions[id].account].status.Available?
      && db.sessions[id].device in db.devices && db.devices[db.sessions[id].device].active
      && db.devices[db.sessions[id].device].user == db.sessions[id].user
  }

  predicate ActiveAdmin(u: User) {
    u.role.Admin? && u.status.UserActive?
  }

  ghost predicate Administered(db: Db) {
    exists u | u in db.users :: ActiveAdmin(db.users[u])
  }

  predicate Ends(action: Action) {
    action.SessionEnded? || action.SessionReaped?
  }

  ghost predicate StartLogged(audit: seq<Audit>, id: Id) {
    exists e | e in audit :: e.action.SessionStarted? && e.entity.AccountSessions? && e.id == id
  }

  ghost predicate EndLogged(audit: seq<Audit>, id: Id) {
    exists e | e in audit :: Ends(e.action) && e.entity.AccountSessions? && e.id == id
  }

  /** Replaying the log gives the lease table: no session starts unnoticed, and
      the live ones are those that started and did not end. */
  ghost predicate Audited(db: Db) {
    && (forall id | id in db.sessions :: StartLogged(db.audit, id))
    && (forall id :: LiveIn(db, id) <==> StartLogged(db.audit, id) && !EndLogged(db.audit, id))
  }

  ghost predicate Sound(db: Db) {
    Schema(db) && Lifecycles(db) && Leases(db) && Administered(db) && Audited(db)
  }

  /** An identifier nothing refers to yet. */
  ghost predicate Fresh(db: Db, id: Id) {
    && id !in db.users && id !in db.accounts && id !in db.assignments && id !in db.devices && id !in db.sessions
    && forall e | e in db.audit :: e.id != id
  }

  /** The rows a query returns: each match once, in an order SQL leaves open. */
  ghost predicate Enumerates(rows: seq<Id>, ids: set<Id>) {
    && (forall id :: id in rows <==> id in ids)
    && (forall i, j :: 0 <= i < j < |rows| ==> rows[i] != rows[j])
  }

  predicate EndsSession(how: Ending) {
    && (how.status.Ended? || how.status.Stale?)
    && AllowedReason(Some(how.reason)) && Ends(how.action)
  }
}
