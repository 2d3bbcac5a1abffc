/** The transactions of the five services, as functions from the tables to the
    tables. What SQL leaves open is a parameter: `rows` is the order in which a
    query returns its matches, `newId` the identifier drawn at random, `now`
    the clock. */
module LeaseServices {
  import opened Wrappers
  import opened LeaseDb

  /** The caller, as the route guard identified it. */
  datatype Actor = Actor(id: Id, role: Role)

  // -------------------------------------------------------------- lease service

  predicate IsStale(s: Session, now: int) {
    Live(s) && s.lastHeartbeatAt < now - HEARTBEAT_LIMIT && (s.graceUntil.None? || s.graceUntil.value <= now)
  }

  function StaleIds(db: Db, now: int): (ids: set<Id>) {
    set id | id in db.sessions && IsStale(db.sessions[id], now)
  }

  const TIMED_OUT: Ending := Ending(Stale, HeartbeatTimeout, SessionReaped, None)

  /** Not a transaction of its own: called from a timer, every row is committed
      at once; called from `AcquireLease` it is part of that transaction. */
  function ReapStale(db: Db, now: int, rows: seq<Id>): (t: Tx<()>)
    requires Enumerates(rows, StaleIds(db, now))
  {
    EndEach(db, rows, TIMED_OUT, now)
  }

  predicate IsAdmin(db: Db, user: Id) {
    user in db.users && db.users[user].role.Admin?
  }

  predicate ValidlyAssigned(db: Db, user: Id, account: Id, now: int) {
    exists a | a in db.assignments ::
      && db.assignments[a].account == account && db.assignments[a].user == user && db.assignments[a].status.Assigned?
      && (db.assignments[a].expiresAt.None? || db.assignments[a].expiresAt.value > now)
  }

  predicate Authorized(db: Db, user: Id, account: Id, now: int) {
    IsAdmin(db, user) || ValidlyAssigned(db, user, account, now)
  }

  predicate OwnsActiveDevice(db: Db, user: Id, device: Id) {
    device in db.devices && db.devices[device].user == user && db.devices[device].active
  }

  predicate IsAvailable(db: Db, account: Id) {
    account in db.accounts && db.accounts[account].status.Available?
  }

  datatype Lease = Lease(session: Id, isReconnect: bool)

  function NewSession(user: Id, account: Id, device: Id, now: int): (s: Session) {
    Session(account, user, device, Active, Launching, now, now, None, None, None)
  }

  /** The INSERT, with the constraints it can run into. */
  function InsertSession(db: Db, now: int, user: Id, account: Id, device: Id, newId: Id): (t: Tx<Lease>)
    requires Exclusive(db)
  {
    if account !in db.accounts || user !in db.users || device !in db.devices then Throw(db, ConstraintFailed(ForeignKey))
    else if LiveOn(db, account).Some? then Throw(db, ConstraintFailed(ExclusiveSession))
    else
      var inserted := db.(sessions := db.sessions[newId := NewSession(user, account, device, now)]);
      match AddAudit(inserted, user, SessionStarted, AccountSessions, newId)
      case Throw(d, e) => Throw(d, e)
      case Done(d, _) => Done(d, Lease(newId, false))
  }

  /** Takes over from, or gives way to, the session that holds the account. A
      session past its limit is replaced, noting `outlived` as the reason. */
  function Contend(db: Db, now: int, user: Id, account: Id, device: Id, newId: Id, outlived: Reason): (t: Tx<Lease>)
    requires Exclusive(db)
  {
    match LiveOn(db, account)
    case None => InsertSession(db, now, user, account, device, newId)
    case Some(active) =>
      var s := db.sessions[active];
      if s.startedAt < now - LEASE_LIMIT then
        (match End(db, active, Ending(Stale, outlived, SessionReaped, Some(user)), now)
         case Throw(d, e) => Throw(d, e)
         case Done(d, _) =>
           assert forall i :: LiveIn(d, i) ==> LiveIn(db, i) && d.sessions[i] == db.sessions[i];
           InsertSession(d, now, user, account, device, newId))
      else if s.user == user && s.device == device then Done(db, Lease(active, true))
      else Throw(db, AccountBusy)
  }

  function AcquireBody(db: Db, now: int, user: Id, account: Id, device: Id, newId: Id, rows: seq<Id>): (t: Tx<Lease>)
    requires Exclusive(db) && Enumerates(rows, StaleIds(db, now))
  {
    match ReapStale(db, now, rows)
    case Throw(d, e) => Throw(d, e)
    case Done(d, _) =>
      if !Authorized(d, user, account, now) then Throw(d, NoActiveAssignment)
      else if !OwnsActiveDevice(d, user, device) then Throw(d, DeviceNotAuthorized)
      else if !IsAvailable(d, account) then Throw(d, AccountUnavailable)
      else
        EndEachShrinks(db, rows, TIMED_OUT, now);
        Contend(d, now, user, account, device, newId, LeaseTimeout)
  }

  function AcquireLease(db: Db, now: int, user: Id, account: Id, device: Id, newId: Id, rows: seq<Id>): (t: Tx<Lease>)
    requires Exclusive(db) && Enumerates(rows, StaleIds(db, now))
  {
    Transact(db, AcquireBody(db, now, user, account, device, newId, rows))
  }

  /** The reasons the request schema lets through. */
  predicate Releasable(reason: Reason) {
    !reason.ProcessExit? && !reason.HeartbeatTimeout?
  }

  function ReleaseLease(db: Db, now: int, actor: Actor, session: Id, reason: Reason): (t: Tx<()>) {
    if !Releasable(reason) then Throw(db, InvalidReleaseReason)
    else if session !in db.sessions then Throw(db, SessionNotFound)
    else if db.sessions[session].user != actor.id && !actor.role.Admin? then Throw(db, Forbidden)
    else
      var forced := actor.role.Admin? && db.sessions[session].user != actor.id;
      var how := Ending(Ended, if forced then AdminForceRelease else reason, SessionEnded, Some(actor.id));
      Transact(db, End(db, session, how, now))
  }

  /** `Released` is committed and then reported as an error. */
  datatype Beat = Alive | Released

  function Report(t: Tx<()>, beat: Beat): (r: Tx<Beat>) {
    match t
    case Throw(d, e) => Throw(d, e)
    case Done(d, _) => Done(d, beat)
  }

  function HeartbeatLease(db: Db, now: int, user: Id, session: Id, runtime: RuntimeState): (t: Tx<Beat>) {
    if session !in db.sessions || db.sessions[session].user != user
       || !(db.sessions[session].status.Starting? || db.sessions[session].status.Active?)
    then Throw(db, SessionNotFound)
    else if !Authorized(db, user, db.sessions[session].account, now) then
      Transact(db, Report(End(db, session, Ending(Ended, ErrorReason, SessionEnded, Some(user)), now), Released))
    else if runtime.Exited? then
      Transact(db, Report(End(db, session, Ending(Ended, ProcessExit, SessionEnded, Some(user)), now), Alive))
    else
      var grace := if runtime.Reconnecting? then Some(now + GRACE) else None;
      var row := db.sessions[session].(status := Active, runtime := runtime, lastHeartbeatAt := now, graceUntil := grace);
      Done(db.(sessions := db.sessions[session := row]), Alive)
  }

  function ForceReleaseBody(db: Db, now: int, actor: Actor, account: Id): (t: Tx<()>)
    requires Exclusive(db)
  {
    var session := LiveOn(db, account);
    var ended := if session.None? then Done(db, ())
                 else End(db, session.value, Ending(Ended, AdminForceRelease, SessionEnded, Some(actor.id)), now);
    match ended
    case Throw(d, e) => Throw(d, e)
    case Done(d, _) => AddAudit(d, actor.id, SessionEnded, Accounts, account)
  }

  function ForceReleaseAccount(db: Db, now: int, actor: Actor, account: Id): (t: Tx<()>)
    requires Exclusive(db)
  {
    if !actor.role.Admin? then Throw(db, Forbidden)
    else Transact(db, ForceReleaseBody(db, now, actor, account))
  }

  // -------------------------------------------------------------- admin service

  function AddAssignment(db: Db, actor: Id, account: Id, user: Id, expiresAt: Option<int>, newId: Id): (t: Tx<Id>)
    requires UniqueColumns(db)
  {
    if account !in db.accounts then Throw(db, AccountNotFound)
    else if !db.accounts[account].status.Available? then Throw(db, AccountUnavailable)
    else if user !in db.users || !db.users[user].status.UserActive? then Throw(db, UserNotFound)
    else if db.users[user].role.Admin? then Throw(db, InvalidAssignment)
    else
      var existing := AssignmentOf(db, account, user);
      var id := if existing.Some? then existing.value else newId;
      var changed := db.(assignments := db.assignments[id := Assignment(account, user, Assigned, expiresAt)]);
      match Transact(db, AddAudit(changed, actor, Other("ASSIGNMENT_UPDATED"), Assignments, id))
      case Throw(d, e) => Throw(d, e)
      case Done(d, _) => Done(d, id)
  }

  function SessionOf(db: Db, account: Id, user: Id): (r: Option<Id>)
    requires Exclusive(db)
  {
    var session := LiveOn(db, account);
    if session.Some? && db.sessions[session.value].user == user then session else None
  }

  function RevokeAssignment(db: Db, now: int, actor: Id, account: Id, user: Id): (t: Tx<()>)
    requires UniqueColumns(db) && Exclusive(db)
  {
    match AssignmentOf(db, account, user)
    case None => Throw(db, AssignmentNotFound)
    case Some(id) =>
      var revoked := db.(assignments := db.assignments[id := db.assignments[id].(status := Revoked)]);
      match AddAudit(revoked, actor, Other("ASSIGNMENT_REVOKED"), Assignments, id)
      case Throw(_, e) => Throw(db, e)
      case Done(d, _) =>
        match SessionOf(db, account, user)
        case None => Done(d, ())
        case Some(session) =>
          Transact(db, End(d, session, Ending(Ended, AdminForceRelease, SessionEnded, Some(actor)), now))
  }

  // ------------------------------------------------------------ account service

  predicate ExternalIdTaken(db: Db, externalId: string, except: Option<Id>) {
    exists a | a in db.accounts :: db.accounts[a].externalId == externalId && except != Some(a)
  }

  function CreateAccount(db: Db, actor: Id, externalId: string, status: AccountStatus, newId: Id): (t: Tx<()>) {
    if ExternalIdTaken(db, externalId, None) then Throw(db, AccountExists)
    else
      Transact(db, AddAudit(db.(accounts := db.accounts[newId := Account(externalId, status)]),
                            actor, Other("ACCOUNT_CREATED"), Accounts, newId))
  }

  /** An empty identifier is not looked up first and meets the UNIQUE column. */
  function UpdateAccount(db: Db, actor: Id, account: Id, externalId: Option<string>, status: Option<AccountStatus>): (t: Tx<()>)
    requires Exclusive(db)
  {
    if account !in db.accounts then Throw(db, AccountNotFound)
    else
      var current := db.accounts[account];
      if status.Some? && !status.value.Available? && status.value != current.status && LiveOn(db, account).Some?
      then Throw(db, AccountBusy)
      else if externalId.Some? && ExternalIdTaken(db, externalId.value, Some(account)) then
        Throw(db, if externalId.value == "" then ConstraintFailed(UniqueColumn) else AccountExists)
      else
        var row := Account(if externalId.Some? then externalId.value else current.externalId,
                           if status.Some? then status.value else current.status);
        Transact(db, AddAudit(db.(accounts := db.accounts[account := row]), actor, Other("ACCOUNT_UPDATED"), Accounts, account))
  }

  /** ON DELETE CASCADE takes the assignments and sessions along. */
  function WithoutAccount(db: Db, account: Id): (r: Db) {
    db.(accounts := db.accounts - {account},
        assignments := map a | a in db.assignments && db.assignments[a].account != account :: db.assignments[a],
        sessions := map s | s in db.sessions && db.sessions[s].account != account :: db.sessions[s])
  }

  function DeleteAccount(db: Db, actor: Id, account: Id): (t: Tx<()>)
    requires Exclusive(db)
  {
    if account !in db.accounts then Throw(db, AccountNotFound)
    else if LiveOn(db, account).Some? then Throw(db, AccountBusy)
    else Transact(db, AddAudit(WithoutAccount(db, account), actor, Other("ACCOUNT_DELETED"), Accounts, account))
  }

  // ------------------------------------------------------------- device service

  function RegisterDevice(db: Db, user: Id, publicKey: string, newId: Id): (t: Tx<Id>)
    requires UniqueColumns(db)
  {
    match DeviceOf(db, user, publicKey)
    case Some(id) => if db.devices[id].active then Done(db, id) else Throw(db, DeviceRevoked)
    case None =>
      if user !in db.users then Throw(db, ConstraintFailed(ForeignKey))
      else
        match Transact(db, AddAudit(db.(devices := db.devices[newId := Device(user, publicKey, true)]),
                                    user, Other("DEVICE_REGISTERED"), Devices, newId))
        case Throw(d, e) => Throw(d, e)
        case Done(d, _) => Done(d, newId)
  }

  function SessionsOn(db: Db, device: Id): (ids: set<Id>) {
    set id | id in db.sessions && LiveIn(db, id) && db.sessions[id].device == device
  }

  function RevokeDevice(db: Db, now: int, actor: Id, device: Id, rows: seq<Id>): (t: Tx<()>)
    requires Enumerates(rows, SessionsOn(db, device))
  {
    if device !in db.devices then Throw(db, DeviceNotFound)
    else
      var revoked := db.(devices := db.devices[device := db.devices[device].(active := false)]);
      match AddAudit(revoked, actor, Other("DEVICE_REVOKED"), Devices, device)
      case Throw(_, e) => Throw(db, e)
      case Done(d, _) => Transact(db, EndEach(d, rows, Ending(Ended, ErrorReason, SessionEnded, Some(actor)), now))
  }

  function ApproveDevice(db: Db, actor: Id, device: Id): (t: Tx<()>) {
    if device !in db.devices then Throw(db, DeviceNotFound)
    else
      Transact(db, AddAudit(db.(devices := db.devices[device := db.devices[device].(active := true)]),
                            actor, Other("DEVICE_APPROVED"), Devices, device))
  }

  // --------------------------------------------------------------- user service

  /** The transaction at the end of user creation. `email` is lower-cased; that
      it was free a moment ago no longer counts here. */
  function CreateUser(db: Db, actor: Id, email: string, role: Role, newId: Id): (t: Tx<()>) {
    if exists u | u in db.users :: db.users[u].email == email then Throw(db, ConstraintFailed(UniqueColumn))
    else
      Transact(db, AddAudit(db.(users := db.users[newId := User(email, role, UserActive)]), actor, Other("USER_CREATED"), Users, newId))
  }

  function ActiveAdmins(db: Db): (ids: set<Id>) {
    set u | u in db.users && ActiveAdmin(db.users[u])
  }

  function SessionsBy(db: Db, user: Id): (ids: set<Id>) {
    set id | id in db.sessions && LiveIn(db, id) && db.sessions[id].user == user
  }

  predicate Deactivates(status: Option<UserStatus>) {
    status.Some? && !status.value.UserActive?
  }

  function UpdatedUser(u: User, role: Option<Role>, status: Option<UserStatus>): (r: User) {
    User(u.email, if role.Some? then role.value else u.role, if status.Some? then status.value else u.status)
  }

  function UpdateUser(db: Db, now: int, actor: Id, user: Id, role: Option<Role>, status: Option<UserStatus>, rows: seq<Id>): (t: Tx<()>)
    requires Enumerates(rows, SessionsBy(db, user))
  {
    if user !in db.users then Throw(db, UserNotFound)
    else if actor == user && Deactivates(status) then Throw(db, SelfLockout)
    else if ActiveAdmin(db.users[user]) && (role == Some(Operator) || Deactivates(status)) && |ActiveAdmins(db)| <= 1
    then Throw(db, LastAdminRequired)
    else
      var updated := db.(users := db.users[user := UpdatedUser(db.users[user], role, status)]);
      var ended := if Deactivates(status) then EndEach(updated, rows, Ending(Ended, ErrorReason, SessionEnded, Some(actor)), now)
                   else Done(updated, ());
      match ended
      case Throw(_, e) => Throw(db, e)
      case Done(d, _) => Transact(db, AddAudit(d, actor, Other("USER_UPDATED"), Users, user))
  }

  // ------------------------------------------------------------ ending rows

  /** Wherever the loop stops, it ended sessions and logged, nothing else. */
  lemma {:induction false} EndEachShrinks(db: Db, rows: seq<Id>, how: Ending, now: int)
    requires (forall id | id in rows :: id in db.sessions) && (how.status.Ended? || how.status.Stale?)
    ensures var d := EndEach(db, rows, how, now).db;
            && d.sessions.Keys == db.sessions.Keys && db.audit <= d.audit
            && d.users == db.users && d.accounts == db.accounts && d.assignments == db.assignments && d.devices == db.devices
            && (forall id :: LiveIn(d, id) ==> LiveIn(db, id) && d.sessions[id] == db.sessions[id])
            && (Exclusive(db) ==> Exclusive(d))
    decreases |rows|
  {
    if rows != [] {
      var first := End(db, rows[0], how, now);
      if first.Done? {
        EndEachShrinks(first.db, rows[1..], how, now);
      }
    }
  }
}
