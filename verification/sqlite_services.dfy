/** The five services as they run: objects that share one database and change
    its tables in place, statement by statement. Each method does exactly what
    its transaction function says. */
module SqliteServices {
  import opened Wrappers
  import opened LeaseDb
  import opened LeaseServices

  /** A method that leaves the tables `db` and reports `r` did what `t` says. */
  predicate Settles<T(==)>(t: Tx<T>, db: Db, r: Result<T, Error>) {
    && t.db == db
    && match r
       case Ok(value) => t == Done(db, value)
       case Err(error) => t == Throw(db, error)
  }

  class AppDatabase {
    var users: map<Id, User>
    var accounts: map<Id, Account>
    var assignments: map<Id, Assignment>
    var devices: map<Id, Device>
    var sessions: map<Id, Session>
    var audit: seq<Audit>

    function Tables(): (db: Db)
      reads this
    {
      Db(users, accounts, assignments, devices, sessions, audit)
    }

    constructor (db: Db)
      ensures Tables() == db
    {
      users, accounts, assignments, devices, sessions, audit := db.users, db.accounts, db.assignments, db.devices, db.sessions, db.audit;
    }

    /** ROLLBACK to what the tables were at BEGIN. */
    method Rollback(begin: Db)
      modifies this
      ensures Tables() == begin
    {
      users, accounts, assignments := begin.users, begin.accounts, begin.assignments;
      devices, sessions, audit := begin.devices, begin.sessions, begin.audit;
    }

    /** The matches of a query, in an order of the engine's choosing. */
    method Select(ids: set<Id>) returns (rows: seq<Id>)
      ensures Enumerates(rows, ids)
    {
      rows := [];
      var rest := ids;
      while rest != {}
        invariant rest <= ids
        invariant forall id :: id in rows <==> id in ids && id !in rest
        invariant forall i, j :: 0 <= i < j < |rows| ==> rows[i] != rows[j]
        decreases |rest|
      {
        var id :| id in rest;
        assert forall other :: other in rows + [id] <==> other in rows || other == id;
        rows := rows + [id];
        rest := rest - {id};
      }
    }

    method Log(actor: Id, action: Action, entity: Entity, id: Id) returns (r: Result<(), Error>)
      modifies `audit
      ensures Settles(AddAudit(old(Tables()), actor, action, entity, id), Tables(), r)
    {
      if actor !in users {
        return Err(ConstraintFailed(ForeignKey));
      }
      audit := audit + [Audit(actor, action, entity, id)];
      r := Ok(());
    }

    /** The UPDATE that ends a session, then its entry. */
    method EndSession(id: Id, how: Ending, now: int) returns (r: Result<(), Error>)
      requires id in sessions
      modifies `sessions, `audit
      ensures Settles(End(old(Tables()), id, how, now), Tables(), r)
    {
      var actor := if how.actor.Some? then how.actor.value else sessions[id].user;
      if !AllowedReason(Some(how.reason)) {
        return Err(ConstraintFailed(CheckReason));
      }
      sessions := sessions[id := sessions[id].(status := how.status, runtime := Exited, endedAt := Some(now), reason := Some(how.reason))];
      r := Log(actor, how.action, AccountSessions, id);
    }

    /** The loop of reaping, of revoking a device and of deactivating a user. */
    method EndSessions(rows: seq<Id>, how: Ending, now: int) returns (r: Result<(), Error>)
      requires forall id | id in rows :: id in sessions
      modifies `sessions, `audit
      ensures Settles(EndEach(old(Tables()), rows, how, now), Tables(), r)
    {
      var i := 0;
      while i < |rows|
        invariant 0 <= i <= |rows|
        invariant users == old(users) && accounts == old(accounts) && assignments == old(assignments) && devices == old(devices)
        invariant forall id | id in rows :: id in sessions
        invariant EndEach(Tables(), rows[i..], how, now) == EndEach(old(Tables()), rows, how, now)
      {
        assert rows[i..][0] == rows[i] && rows[i..][1..] == rows[i + 1..];
        r := EndSession(rows[i], how, now);
        if r.Err? {
          return;
        }
        i := i + 1;
      }
      r := Ok(());
    }
  }

  class LeaseService {
    const database: AppDatabase

    constructor (database: AppDatabase)
      ensures this.database == database
    {
      this.database := database;
    }

    method ReapStaleSessions(now: int) returns (r: Result<(), Error>, rows: seq<Id>)
      modifies database
      ensures Enumerates(rows, StaleIds(old(database.Tables()), now))
      ensures Settles(ReapStale(old(database.Tables()), now, rows), database.Tables(), r)
    {
      rows := database.Select(StaleIds(database.Tables(), now));
      r := database.EndSessions(rows, TIMED_OUT, now);
    }

    method Acquire(now: int, user: Id, account: Id, device: Id, newId: Id) returns (r: Result<Lease, Error>, rows: seq<Id>)
      requires Schema(database.Tables())
      modifies database
      ensures Enumerates(rows, StaleIds(old(database.Tables()), now))
      ensures Settles(AcquireLease(old(database.Tables()), now, user, account, device, newId, rows), database.Tables(), r)
    {
      var before := database.Tables();
      r, rows := AcquireSteps(now, user, account, device, newId);
      if r.Err? {
        database.Rollback(before);
      }
    }

    /** The callback of the transaction. */
    method AcquireSteps(now: int, user: Id, account: Id, device: Id, newId: Id) returns (r: Result<Lease, Error>, rows: seq<Id>)
      requires Exclusive(database.Tables())
      modifies database
      ensures Enumerates(rows, StaleIds(old(database.Tables()), now))
      ensures Settles(AcquireBody(old(database.Tables()), now, user, account, device, newId, rows), database.Tables(), r)
    {
      hide EndEach, StaleIds, LiveOn, Authorized, End;
      var reaped;
      reaped, rows := ReapStaleSessions(now);
      if reaped.Err? {
        return Err(reaped.error), rows;
      }
      if !Authorized(database.Tables(), user, account, now) {
        return Err(NoActiveAssignment), rows;
      }
      if !OwnsActiveDevice(database.Tables(), user, device) {
        return Err(DeviceNotAuthorized), rows;
      }
      if !IsAvailable(database.Tables(), account) {
        return Err(AccountUnavailable), rows;
      }
      StaleRowsExist(old(database.Tables()), now, rows);
      EndEachShrinks(old(database.Tables()), rows, TIMED_OUT, now);
      r := Take(now, user, account, device, newId);
    }

    /** Meets the session that may hold the account already. */
    method Take(now: int, user: Id, account: Id, device: Id, newId: Id) returns (r: Result<Lease, Error>)
      requires Exclusive(database.Tables())
      modifies database
      ensures Settles(Contend(old(database.Tables()), now, user, account, device, newId, LeaseTimeout), database.Tables(), r)
    {
      hide LiveOn;
      var active := LiveOn(database.Tables(), account);
      if active.Some? {
        var s := database.sessions[active.value];
        if s.startedAt < now - LEASE_LIMIT {
          var ended := database.EndSession(active.value, Ending(Stale, LeaseTimeout, SessionReaped, Some(user)), now);
          if ended.Err? {
            return Err(ended.error);
          }
        } else if s.user == user && s.device == device {
          return Ok(Lease(active.value, true));
        } else {
          return Err(AccountBusy);
        }
      }
      r := Insert(now, user, account, device, newId);
    }

    method Insert(now: int, user: Id, account: Id, device: Id, newId: Id) returns (r: Result<Lease, Error>)
      requires Exclusive(database.Tables())
      modifies database
      ensures Settles(InsertSession(old(database.Tables()), now, user, account, device, newId), database.Tables(), r)
    {
      if account !in database.accounts || user !in database.users || device !in database.devices {
        return Err(ConstraintFailed(ForeignKey));
      }
      if LiveOn(database.Tables(), account).Some? {
        return Err(ConstraintFailed(ExclusiveSession));
      }
      database.sessions := database.sessions[newId := NewSession(user, account, device, now)];
      var _ := database.Log(user, SessionStarted, AccountSessions, newId);
      r := Ok(Lease(newId, false));
    }

    method Release(now: int, actor: Actor, session: Id, reason: Reason) returns (r: Result<(), Error>)
      modifies database
      ensures Settles(ReleaseLease(old(database.Tables()), now, actor, session, reason), database.Tables(), r)
    {
      if !Releasable(reason) {
        return Err(InvalidReleaseReason);
      }
      if session !in database.sessions {
        return Err(SessionNotFound);
      }
      if database.sessions[session].user != actor.id && !actor.role.Admin? {
        return Err(Forbidden);
      }
      var forced := actor.role.Admin? && database.sessions[session].user != actor.id;
      var before := database.Tables();
      r := database.EndSession(session, Ending(Ended, if forced then AdminForceRelease else reason, SessionEnded, Some(actor.id)), now);
      if r.Err? {
        database.Rollback(before);
      }
    }

    method Heartbeat(now: int, user: Id, session: Id, runtime: RuntimeState) returns (r: Result<Beat, Error>)
      modifies database
      ensures Settles(HeartbeatLease(old(database.Tables()), now, user, session, runtime), database.Tables(), r)
    {
      hide Authorized;
      if session !in database.sessions {
        return Err(SessionNotFound);
      }
      var s := database.sessions[session];
      if s.user != user || !(s.status.Starting? || s.status.Active?) {
        return Err(SessionNotFound);
      }
      var authorized := Authorized(database.Tables(), user, s.account, now);
      if authorized && !runtime.Exited? {
        var grace := if runtime.Reconnecting? then Some(now + GRACE) else None;
        var row := s.(status := Active, runtime := runtime, lastHeartbeatAt := now, graceUntil := grace);
        database.sessions := database.sessions[session := row];
        return Ok(Alive);
      }
      var before := database.Tables();
      var how := Ending(Ended, if authorized then ProcessExit else ErrorReason, SessionEnded, Some(user));
      var ended := database.EndSession(session, how, now);
      if ended.Err? {
        database.Rollback(before);
        return Err(ended.error);
      }
      r := Ok(if authorized then Alive else Released);
    }

    method ForceRelease(now: int, actor: Actor, account: Id) returns (r: Result<(), Error>)
      requires Schema(database.Tables())
      modifies database
      ensures Settles(ForceReleaseAccount(old(database.Tables()), now, actor, account), database.Tables(), r)
    {
      hide LiveOn, End;
      if !actor.role.Admin? {
        return Err(Forbidden);
      }
      var before := database.Tables();
      var session := LiveOn(database.Tables(), account);
      if session.Some? {
        r := database.EndSession(session.value, Ending(Ended, AdminForceRelease, SessionEnded, Some(actor.id)), now);
        if r.Err? {
          database.Rollback(before);
          return;
        }
      }
      r := database.Log(actor.id, SessionEnded, Accounts, account);
      if r.Err? {
        database.Rollback(before);
      }
    }
  }

  class AdminService {
    const database: AppDatabase

    constructor (database: AppDatabase)
      ensures this.database == database
    {
      this.database := database;
    }

    method Assign(actor: Id, account: Id, user: Id, expiresAt: Option<int>, newId: Id) returns (r: Result<Id, Error>)
      requires Schema(database.Tables())
      modifies database
      ensures Settles(AddAssignment(old(database.Tables()), actor, account, user, expiresAt, newId), database.Tables(), r)
    {
      hide AssignmentOf;
      if account !in database.accounts {
        return Err(AccountNotFound);
      }
      if !database.accounts[account].status.Available? {
        return Err(AccountUnavailable);
      }
      if user !in database.users || !database.users[user].status.UserActive? {
        return Err(UserNotFound);
      }
      if database.users[user].role.Admin? {
        return Err(InvalidAssignment);
      }
      var before := database.Tables();
      var existing := AssignmentOf(database.Tables(), account, user);
      var id := if existing.Some? then existing.value else newId;
      if existing.Some? {
        database.assignments := database.assignments[id := database.assignments[id].(status := Assigned, expiresAt := expiresAt)];
      } else {
        database.assignments := database.assignments[id := Assignment(account, user, Assigned, expiresAt)];
      }
      var logged := database.Log(actor, Other("ASSIGNMENT_UPDATED"), Assignments, id);
      if logged.Err? {
        database.Rollback(before);
        return Err(logged.error);
      }
      r := Ok(id);
    }

    method Unassign(now: int, actor: Id, account: Id, user: Id) returns (r: Result<(), Error>)
      requires Schema(database.Tables())
      modifies database
      ensures Settles(RevokeAssignment(old(database.Tables()), now, actor, account, user), database.Tables(), r)
    {
      hide AssignmentOf, LiveOn, End;
      var assignment := AssignmentOf(database.Tables(), account, user);
      if assignment.None? {
        return Err(AssignmentNotFound);
      }
      var before := database.Tables();
      var session := SessionOf(database.Tables(), account, user);
      var id := assignment.value;
      database.assignments := database.assignments[id := database.assignments[id].(status := Revoked)];
      r := database.Log(actor, Other("ASSIGNMENT_REVOKED"), Assignments, id);
      if r.Ok? && session.Some? {
        r := database.EndSession(session.value, Ending(Ended, AdminForceRelease, SessionEnded, Some(actor)), now);
      }
      if r.Err? {
        database.Rollback(before);
      }
    }
  }

  class AccountService {
    const database: AppDatabase

    constructor (database: AppDatabase)
      ensures this.database == database
    {
      this.database := database;
    }

    method Create(actor: Id, externalId: string, status: AccountStatus, newId: Id) returns (r: Result<(), Error>)
      modifies database
      ensures Settles(CreateAccount(old(database.Tables()), actor, externalId, status, newId), database.Tables(), r)
    {
      hide ExternalIdTaken;
      if ExternalIdTaken(database.Tables(), externalId, None) {
        return Err(AccountExists);
      }
      var before := database.Tables();
      database.accounts := database.accounts[newId := Account(externalId, status)];
      r := database.Log(actor, Other("ACCOUNT_CREATED"), Accounts, newId);
      if r.Err? {
        database.Rollback(before);
      }
    }

    method Update(actor: Id, account: Id, externalId: Option<string>, status: Option<AccountStatus>) returns (r: Result<(), Error>)
      requires Schema(database.Tables())
      modifies database
      ensures Settles(UpdateAccount(old(database.Tables()), actor, account, externalId, status), database.Tables(), r)
    {
      hide LiveOn, ExternalIdTaken;
      if account !in database.accounts {
        return Err(AccountNotFound);
      }
      if status.Some? && !status.value.Available? && status.value != database.accounts[account].status {
        if LiveOn(database.Tables(), account).Some? {
          return Err(AccountBusy);
        }
      }
      if externalId.Some? && externalId.value != "" {
        if ExternalIdTaken(database.Tables(), externalId.value, Some(account)) {
          return Err(AccountExists);
        }
      }
      var before := database.Tables();
      if externalId.Some? {
        if ExternalIdTaken(database.Tables(), externalId.value, Some(account)) {
          return Err(ConstraintFailed(UniqueColumn));
        }
        database.accounts := database.accounts[account := database.accounts[account].(externalId := externalId.value)];
      }
      if status.Some? {
        database.accounts := database.accounts[account := database.accounts[account].(status := status.value)];
      }
      assert database.accounts == before.accounts[account := database.accounts[account]];
      r := database.Log(actor, Other("ACCOUNT_UPDATED"), Accounts, account);
      if r.Err? {
        database.Rollback(before);
      }
    }

    method Delete(actor: Id, account: Id) returns (r: Result<(), Error>)
      requires Schema(database.Tables())
      modifies database
      ensures Settles(DeleteAccount(old(database.Tables()), actor, account), database.Tables(), r)
    {
      hide LiveOn;
      if account !in database.accounts {
        return Err(AccountNotFound);
      }
      if LiveOn(database.Tables(), account).Some? {
        return Err(AccountBusy);
      }
      var before := database.Tables();
      database.accounts := database.accounts - {account};
      database.assignments := map a | a in database.assignments && database.assignments[a].account != account :: database.assignments[a];
      database.sessions := map s | s in database.sessions && database.sessions[s].account != account :: database.sessions[s];
      assert database.Tables() == WithoutAccount(before, account);
      r := database.Log(actor, Other("ACCOUNT_DELETED"), Accounts, account);
      if r.Err? {
        database.Rollback(before);
      }
    }
  }

  class DeviceService {
    const database: AppDatabase

    constructor (database: AppDatabase)
      ensures this.database == database
    {
      this.database := database;
    }

    method Register(user: Id, publicKey: string, newId: Id) returns (r: Result<Id, Error>)
      requires Schema(database.Tables())
      modifies database
      ensures Settles(RegisterDevice(old(database.Tables()), user, publicKey, newId), database.Tables(), r)
    {
      hide DeviceOf;
      var existing := DeviceOf(database.Tables(), user, publicKey);
      if existing.Some? {
        if !database.devices[existing.value].active {
          return Err(DeviceRevoked);
        }
        return Ok(existing.value);
      }
      if user !in database.users {
        return Err(ConstraintFailed(ForeignKey));
      }
      database.devices := database.devices[newId := Device(user, publicKey, true)];
      var _ := database.Log(user, Other("DEVICE_REGISTERED"), Devices, newId);
      r := Ok(newId);
    }

    method Revoke(now: int, actor: Id, device: Id) returns (r: Result<(), Error>, rows: seq<Id>)
      modifies database
      ensures Enumerates(rows, SessionsOn(old(database.Tables()), device))
      ensures Settles(RevokeDevice(old(database.Tables()), now, actor, device, rows), database.Tables(), r)
    {
      hide EndEach;
      rows := database.Select(SessionsOn(database.Tables(), device));
      if device !in database.devices {
        return Err(DeviceNotFound), rows;
      }
      var before := database.Tables();
      database.devices := database.devices[device := database.devices[device].(active := false)];
      r := database.Log(actor, Other("DEVICE_REVOKED"), Devices, device);
      if r.Ok? {
        r := database.EndSessions(rows, Ending(Ended, ErrorReason, SessionEnded, Some(actor)), now);
      }
      if r.Err? {
        database.Rollback(before);
      }
    }

    method Approve(actor: Id, device: Id) returns (r: Result<(), Error>)
      modifies database
      ensures Settles(ApproveDevice(old(database.Tables()), actor, device), database.Tables(), r)
    {
      if device !in database.devices {
        return Err(DeviceNotFound);
      }
      var before := database.Tables();
      database.devices := database.devices[device := database.devices[device].(active := true)];
      r := database.Log(actor, Other("DEVICE_APPROVED"), Devices, device);
      if r.Err? {
        database.Rollback(before);
      }
    }
  }

  class AuthService {
    const database: AppDatabase

    constructor (database: AppDatabase)
      ensures this.database == database
    {
      this.database := database;
    }

    method Create(actor: Id, email: string, role: Role, newId: Id) returns (r: Result<(), Error>)
      modifies database
      ensures Settles(CreateUser(old(database.Tables()), actor, email, role, newId), database.Tables(), r)
    {
      if exists u | u in database.users :: database.users[u].email == email {
        return Err(ConstraintFailed(UniqueColumn));
      }
      var before := database.Tables();
      database.users := database.users[newId := User(email, role, UserActive)];
      r := database.Log(actor, Other("USER_CREATED"), Users, newId);
      if r.Err? {
        database.Rollback(before);
      }
    }

    method Update(now: int, actor: Id, user: Id, role: Option<Role>, status: Option<UserStatus>) returns (r: Result<(), Error>, rows: seq<Id>)
      modifies database
      ensures Enumerates(rows, SessionsBy(old(database.Tables()), user))
      ensures Settles(UpdateUser(old(database.Tables()), now, actor, user, role, status, rows), database.Tables(), r)
    {
      hide EndEach, SessionsBy;
      rows := database.Select(SessionsBy(database.Tables(), user));
      if user !in database.users {
        return Err(UserNotFound), rows;
      }
      if actor == user && Deactivates(status) {
        return Err(SelfLockout), rows;
      }
      if ActiveAdmin(database.users[user]) && (role == Some(Operator) || Deactivates(status)) {
        if |ActiveAdmins(database.Tables())| <= 1 {
          return Err(LastAdminRequired), rows;
        }
      }
      var before := database.Tables();
      if role.Some? {
        database.users := database.users[user := database.users[user].(role := role.value)];
      }
      if status.Some? {
        database.users := database.users[user := database.users[user].(status := status.value)];
      }
      assert database.users == before.users[user := UpdatedUser(before.users[user], role, status)];
      r := Ok(());
      if Deactivates(status) {
        RowsExist(before, user, rows);
        r := database.EndSessions(rows, Ending(Ended, ErrorReason, SessionEnded, Some(actor)), now);
      }
      if r.Ok? {
        r := database.Log(actor, Other("USER_UPDATED"), Users, user);
      }
      if r.Err? {
        database.Rollback(before);
      }
    }
  }

  lemma StaleRowsExist(db: Db, now: int, rows: seq<Id>)
    requires Enumerates(rows, StaleIds(db, now))
    ensures forall id | id in rows :: id in db.sessions
  {
  }

  lemma RowsExist(db: Db, user: Id, rows: seq<Id>)
    requires Enumerates(rows, SessionsBy(db, user))
    ensures forall id | id in rows :: id in db.sessions
  {
  }
}
