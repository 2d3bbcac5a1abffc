/** Histories of the lease database: any interleaving of requests and timer
    ticks, under a clock that never runs backwards. */
module LeaseRuns {
  import opened Wrappers
  import opened LeaseDb
  import opened LeaseServices
  import opened LeaseInvariants

  datatype Event =
    | Reap(rows: seq<Id>)
    | Acquire(user: Id, account: Id, device: Id, newId: Id, rows: seq<Id>)
    | Release(actor: Actor, session: Id, reason: Reason)
    | Heartbeat(user: Id, session: Id, runtime: RuntimeState)
    | ForceRelease(actor: Actor, account: Id)
    | Assign(admin: Id, account: Id, user: Id, expiresAt: Option<int>, newId: Id)
    | Unassign(admin: Id, account: Id, user: Id)
    | NewAccount(admin: Id, externalId: string, status: AccountStatus, newId: Id)
    | EditAccount(admin: Id, account: Id, newExternalId: Option<string>, newStatus: Option<AccountStatus>)
    | DropAccount(admin: Id, account: Id)
    | EnrolDevice(user: Id, publicKey: string, newId: Id)
    | BlockDevice(admin: Id, device: Id, rows: seq<Id>)
    | UnblockDevice(admin: Id, device: Id)
    | NewUser(admin: Id, email: string, role: Role, newId: Id)
    | EditUser(admin: Id, user: Id, newRole: Option<Role>, newUserStatus: Option<UserStatus>, rows: seq<Id>)

  datatype Tick = Tick(now: int, event: Event)
  datatype World = World(db: Db, clock: int)

  /** Queries return each match once, and identifiers are drawn fresh. */
  ghost predicate Enabled(w: World, t: Tick) {
    && Schema(w.db) && w.clock <= t.now
    && match t.event
       case Reap(rows) => Enumerates(rows, StaleIds(w.db, t.now))
       case Acquire(_, _, _, newId, rows) => Enumerates(rows, StaleIds(w.db, t.now)) && Fresh(w.db, newId)
       case Assign(_, _, _, _, newId) => Fresh(w.db, newId)
       case NewAccount(_, _, _, newId) => Fresh(w.db, newId)
       case EnrolDevice(_, _, newId) => Fresh(w.db, newId)
       case NewUser(_, _, _, newId) => Fresh(w.db, newId)
       case BlockDevice(_, device, rows) => Enumerates(rows, SessionsOn(w.db, device))
       case EditUser(_, user, _, _, rows) => Enumerates(rows, SessionsBy(w.db, user))
       case _ => true
  }

  ghost function Happen(db: Db, t: Tick): (d: Db)
    requires Enabled(World(db, t.now), t)
  {
    match t.event
    case Reap(rows) => ReapStale(db, t.now, rows).db
    case Acquire(user, account, device, newId, rows) => AcquireLease(db, t.now, user, account, device, newId, rows).db
    case Release(actor, session, reason) => ReleaseLease(db, t.now, actor, session, reason).db
    case Heartbeat(user, session, runtime) => HeartbeatLease(db, t.now, user, session, runtime).db
    case ForceRelease(actor, account) => ForceReleaseAccount(db, t.now, actor, account).db
    case Assign(admin, account, user, expiresAt, newId) => AddAssignment(db, admin, account, user, expiresAt, newId).db
    case Unassign(admin, account, user) => RevokeAssignment(db, t.now, admin, account, user).db
    case NewAccount(admin, externalId, status, newId) => CreateAccount(db, admin, externalId, status, newId).db
    case EditAccount(admin, account, externalId, status) => UpdateAccount(db, admin, account, externalId, status).db
    case DropAccount(admin, account) => DeleteAccount(db, admin, account).db
    case EnrolDevice(user, publicKey, newId) => RegisterDevice(db, user, publicKey, newId).db
    case BlockDevice(admin, device, rows) => RevokeDevice(db, t.now, admin, device, rows).db
    case UnblockDevice(admin, device) => ApproveDevice(db, admin, device).db
    case NewUser(admin, email, role, newId) => CreateUser(db, admin, email, role, newId).db
    case EditUser(admin, user, role, status, rows) => UpdateUser(db, t.now, admin, user, role, status, rows).db
  }

  ghost function Next(w: World, t: Tick): (r: World) {
    if Enabled(w, t) then World(Happen(w.db, t), t.now) else w
  }

  ghost function Run(w: World, ticks: seq<Tick>): (r: World)
    decreases |ticks|
  {
    if ticks == [] then w else Next(Run(w, ticks[..|ticks| - 1]), ticks[|ticks| - 1])
  }

  /** No live session was heard from in the future. */
  ghost predicate Timely(w: World) {
    forall id | LiveIn(w.db, id) :: w.db.sessions[id].lastHeartbeatAt <= w.clock
  }

  ghost predicate Good(w: World) {
    Sound(w.db) && Timely(w)
  }

  // ------------------------------------------------ what a transaction may change

  /** Sessions may end and entries may be added. */
  ghost predicate Shrinks(db: Db, d: Db) {
    && db.audit <= d.audit
    && forall id | LiveIn(d, id) :: LiveIn(db, id) && d.sessions[id] == db.sessions[id]
  }

  lemma AddAuditShrinks(db: Db, d: Db, actor: Id, action: Action, entity: Entity, id: Id)
    requires Shrinks(db, d)
    ensures Shrinks(db, AddAudit(d, actor, action, entity, id).db)
    ensures Shrinks(db, Transact(db, AddAudit(d, actor, action, entity, id)).db)
  {
    assert forall i :: LiveIn(db.(audit := d.audit), i) <==> LiveIn(db, i);
  }

  lemma EndShrinks(db: Db, d: Db, id: Id, how: Ending, now: int)
    requires Shrinks(db, d) && id in d.sessions && (how.status.Ended? || how.status.Stale?)
    ensures Shrinks(db, End(d, id, how, now).db)
  {
    if AllowedReason(Some(how.reason)) {
      var e := d.(sessions := d.sessions[id := EndedRow(d.sessions[id], how, now)]);
      assert Shrinks(db, e);
      AddAuditShrinks(db, e, ActorOf(d, id, how), how.action, AccountSessions, id);
    }
  }

  lemma EndAllShrinks(db: Db, d: Db, rows: seq<Id>, how: Ending, now: int)
    requires Shrinks(db, d) && (forall id | id in rows :: id in d.sessions) && (how.status.Ended? || how.status.Stale?)
    ensures Shrinks(db, EndEach(d, rows, how, now).db)
  {
    hide EndEach;
    EndEachShrinks(d, rows, how, now);
  }

  /** An entry about tables other than the sessions. */
  lemma LoggedShrinks(db: Db, changed: Db, actor: Id, action: Action, entity: Entity, id: Id)
    requires changed.audit == db.audit && changed.sessions == db.sessions
    ensures Shrinks(db, changed)
    ensures Shrinks(db, AddAudit(changed, actor, action, entity, id).db)
    ensures Shrinks(db, Transact(db, AddAudit(changed, actor, action, entity, id)).db)
  {
    assert forall i :: LiveIn(changed, i) <==> LiveIn(db, i);
    AddAuditShrinks(db, changed, actor, action, entity, id);
  }

  lemma AssignShrinks(db: Db, admin: Id, account: Id, user: Id, expiresAt: Option<int>, newId: Id)
    requires UniqueColumns(db)
    ensures Shrinks(db, AddAssignment(db, admin, account, user, expiresAt, newId).db)
  {
    hide AssignmentOf, Shrinks, AddAudit;
    var existing := AssignmentOf(db, account, user);
    var id := if existing.Some? then existing.value else newId;
    var changed := db.(assignments := db.assignments[id := Assignment(account, user, Assigned, expiresAt)]);
    LoggedShrinks(db, changed, admin, Other("ASSIGNMENT_UPDATED"), Assignments, id);
    NothingShrinks(db);
  }

  lemma UnassignShrinks(db: Db, now: int, admin: Id, account: Id, user: Id)
    requires UniqueColumns(db) && Exclusive(db)
    ensures Shrinks(db, RevokeAssignment(db, now, admin, account, user).db)
  {
    hide AssignmentOf, LiveOn, Shrinks, AddAudit, End;
    NothingShrinks(db);
    var existing := AssignmentOf(db, account, user);
    if existing.Some? {
      var id := existing.value;
      var revoked := db.(assignments := db.assignments[id := db.assignments[id].(status := Revoked)]);
      LoggedShrinks(db, revoked, admin, Other("ASSIGNMENT_REVOKED"), Assignments, id);
      AddAuditSessions(revoked, admin, Other("ASSIGNMENT_REVOKED"), Assignments, id);
      var d := AddAudit(revoked, admin, Other("ASSIGNMENT_REVOKED"), Assignments, id).db;
      var session := SessionOf(db, account, user);
      if session.Some? {
        EndShrinks(db, d, session.value, Ending(Ended, AdminForceRelease, SessionEnded, Some(admin)), now);
      }
    }
  }

  lemma BlockShrinks(db: Db, now: int, admin: Id, device: Id, rows: seq<Id>)
    requires Enumerates(rows, SessionsOn(db, device))
    ensures Shrinks(db, RevokeDevice(db, now, admin, device, rows).db)
  {
    hide Shrinks, AddAudit, EndEach;
    NothingShrinks(db);
    if device in db.devices {
      var revoked := db.(devices := db.devices[device := db.devices[device].(active := false)]);
      LoggedShrinks(db, revoked, admin, Other("DEVICE_REVOKED"), Devices, device);
      AddAuditSessions(revoked, admin, Other("DEVICE_REVOKED"), Devices, device);
      var d := AddAudit(revoked, admin, Other("DEVICE_REVOKED"), Devices, device).db;
      EndAllShrinks(db, d, rows, Ending(Ended, ErrorReason, SessionEnded, Some(admin)), now);
    }
  }

  lemma EditUserShrinks(db: Db, now: int, admin: Id, user: Id, role: Option<Role>, status: Option<UserStatus>, rows: seq<Id>)
    requires Enumerates(rows, SessionsBy(db, user))
    ensures Shrinks(db, UpdateUser(db, now, admin, user, role, status, rows).db)
  {
    hide Shrinks, AddAudit, EndEach;
    NothingShrinks(db);
    if user in db.users {
      var updated := db.(users := db.users[user := UpdatedUser(db.users[user], role, status)]);
      var how := Ending(Ended, ErrorReason, SessionEnded, Some(admin));
      LoggedShrinks(db, updated, admin, Other("USER_UPDATED"), Users, user);
      EndAllShrinks(db, updated, rows, how, now);
      AddAuditShrinks(db, EndEach(updated, rows, how, now).db, admin, Other("USER_UPDATED"), Users, user);
    }
  }

  lemma DropShrinks(db: Db, admin: Id, account: Id)
    requires Exclusive(db)
    ensures Shrinks(db, DeleteAccount(db, admin, account).db)
  {
    NothingShrinks(db);
    var d := WithoutAccount(db, account);
    assert Shrinks(db, d);
    hide Shrinks, AddAudit, WithoutAccount, LiveOn;
    AddAuditShrinks(db, d, admin, Other("ACCOUNT_DELETED"), Accounts, account);
  }

  lemma NewAccountShrinks(db: Db, admin: Id, externalId: string, status: AccountStatus, newId: Id)
    ensures Shrinks(db, CreateAccount(db, admin, externalId, status, newId).db)
  {
    NothingShrinks(db);
    LoggedShrinks(db, db.(accounts := db.accounts[newId := Account(externalId, status)]), admin, Other("ACCOUNT_CREATED"), Accounts, newId);
  }

  lemma EditAccountShrinks(db: Db, admin: Id, account: Id, externalId: Option<string>, status: Option<AccountStatus>)
    requires Exclusive(db)
    ensures Shrinks(db, UpdateAccount(db, admin, account, externalId, status).db)
  {
    hide Shrinks, LiveOn, AddAudit;
    NothingShrinks(db);
    if account in db.accounts {
      var row := Account(if externalId.Some? then externalId.value else db.accounts[account].externalId,
                         if status.Some? then status.value else db.accounts[account].status);
      LoggedShrinks(db, db.(accounts := db.accounts[account := row]), admin, Other("ACCOUNT_UPDATED"), Accounts, account);
    }
  }

  lemma EnrolShrinks(db: Db, user: Id, publicKey: string, newId: Id)
    requires UniqueColumns(db)
    ensures Shrinks(db, RegisterDevice(db, user, publicKey, newId).db)
  {
    hide Shrinks, AddAudit, DeviceOf;
    NothingShrinks(db);
    LoggedShrinks(db, db.(devices := db.devices[newId := Device(user, publicKey, true)]), user, Other("DEVICE_REGISTERED"), Devices, newId);
  }

  lemma UnblockShrinks(db: Db, admin: Id, device: Id)
    ensures Shrinks(db, ApproveDevice(db, admin, device).db)
  {
    NothingShrinks(db);
    if device in db.devices {
      LoggedShrinks(db, db.(devices := db.devices[device := db.devices[device].(active := true)]), admin, Other("DEVICE_APPROVED"), Devices, device);
    }
  }

  lemma NewUserShrinks(db: Db, admin: Id, email: string, role: Role, newId: Id)
    ensures Shrinks(db, CreateUser(db, admin, email, role, newId).db)
  {
    NothingShrinks(db);
    LoggedShrinks(db, db.(users := db.users[newId := User(email, role, UserActive)]), admin, Other("USER_CREATED"), Users, newId);
  }

  predicate Leasing(e: Event) {
    e.Reap? || e.Acquire? || e.Release? || e.Heartbeat? || e.ForceRelease?
  }

  lemma SchemaHolds(db: Db)
    requires Schema(db)
    ensures Exclusive(db) && UniqueColumns(db)
  {
  }

  lemma AdministrationShrinks(db: Db, t: Tick)
    requires Enabled(World(db, t.now), t) && !Leasing(t.event)
    ensures Shrinks(db, Happen(db, t))
  {
    hide Schema, Shrinks, Fresh, AddAssignment, RevokeAssignment, RevokeDevice, UpdateUser, DeleteAccount, CreateAccount, UpdateAccount,
         RegisterDevice, ApproveDevice, CreateUser, Exclusive, UniqueColumns, Enumerates;
    SchemaHolds(db);
    match t.event
    case Assign(admin, account, user, expiresAt, newId) => AssignShrinks(db, admin, account, user, expiresAt, newId);
    case Unassign(admin, account, user) => UnassignShrinks(db, t.now, admin, account, user);
    case NewAccount(admin, externalId, status, newId) => NewAccountShrinks(db, admin, externalId, status, newId);
    case EditAccount(admin, account, externalId, status) => EditAccountShrinks(db, admin, account, externalId, status);
    case DropAccount(admin, account) => DropShrinks(db, admin, account);
    case EnrolDevice(user, publicKey, newId) => EnrolShrinks(db, user, publicKey, newId);
    case BlockDevice(admin, device, rows) => BlockShrinks(db, t.now, admin, device, rows);
    case UnblockDevice(admin, device) => UnblockShrinks(db, admin, device);
    case NewUser(admin, email, role, newId) => NewUserShrinks(db, admin, email, role, newId);
    case EditUser(admin, user, role, status, rows) => EditUserShrinks(db, t.now, admin, user, role, status, rows);
  }

  lemma AddAuditSessions(db: Db, actor: Id, action: Action, entity: Entity, id: Id)
    ensures AddAudit(db, actor, action, entity, id).db.sessions == db.sessions
  {
  }

  /** What one tick may do to the sessions: end them; refresh one, if its holder
      may still have it; start one, under a new identifier. The log only grows. */
  ghost predicate Evolves(db: Db, d: Db, now: int) {
    && db.audit <= d.audit
    && forall id | LiveIn(d, id) :: Kept(db, d.sessions[id], id, now) || Begun(db, d.sessions[id], id, now)
  }

  ghost predicate Kept(db: Db, s: Session, id: Id, now: int) {
    && LiveIn(db, id) && SameHolder(s, db.sessions[id]) && s.startedAt == db.sessions[id].startedAt
    && (s.lastHeartbeatAt == db.sessions[id].lastHeartbeatAt || (s.lastHeartbeatAt == now && Authorized(db, s.user, s.account, now)))
  }

  ghost predicate Begun(db: Db, s: Session, id: Id, now: int) {
    && Fresh(db, id) && s.startedAt == now == s.lastHeartbeatAt && Authorized(db, s.user, s.account, now)
  }

  lemma ShrinksEvolves(db: Db, d: Db, now: int)
    requires Shrinks(db, d)
    ensures Evolves(db, d, now)
  {
    hide Authorized, Begun;
    forall id | LiveIn(d, id)
      ensures Kept(db, d.sessions[id], id, now)
    {
    }
  }

  lemma AcquireEvolves(db: Db, now: int, user: Id, account: Id, device: Id, newId: Id, rows: seq<Id>)
    requires Sound(db) && Enumerates(rows, StaleIds(db, now)) && Fresh(db, newId)
    ensures Evolves(db, AcquireLease(db, now, user, account, device, newId, rows).db, now)
  {
    hide Sound, Fresh, LiveOn, AcquireLease, Evolves, Shrinks, Enumerates, StaleIds, Exclusive, ReapStale, Authorized;
    SoundIsExclusive(db);
    AcquireLeaves(db, now, user, account, device, newId, rows);
    NothingShrinks(db);
    ReapShrinks(db, now, rows);
    var d := Reaped(db, now, rows);
    ShrinksEvolves(db, db, now);
    ShrinksEvolves(db, d, now);
    var t := AcquireLease(db, now, user, account, device, newId, rows);
    if t.Done? && LiveOn(d, account).None? {
      StartEvolves(db, d, newId, NewSession(user, account, device, now), now);
    }
  }

  lemma StartEvolves(db: Db, d: Db, id: Id, s: Session, now: int)
    requires Shrinks(db, d) && Begun(db, s, id, now) && Live(s)
    ensures Evolves(db, Started(d, id, s), now)
  {
    hide Begun, Authorized;
    var e := Started(d, id, s);
    forall i | LiveIn(e, i)
      ensures Kept(db, e.sessions[i], i, now) || Begun(db, e.sessions[i], i, now)
    {
      assert i == id || LiveIn(d, i);
    }
  }

  lemma ReapShrinks(db: Db, now: int, rows: seq<Id>)
    requires Enumerates(rows, StaleIds(db, now))
    ensures Shrinks(db, ReapStale(db, now, rows).db)
  {
    hide EndEach;
    assert Shrinks(db, db);
    EndAllShrinks(db, db, rows, TIMED_OUT, now);
  }

  lemma HeartbeatEvolves(db: Db, now: int, user: Id, session: Id, runtime: RuntimeState)
    ensures Evolves(db, HeartbeatLease(db, now, user, session, runtime).db, now)
  {
    hide End, Authorized;
    assert Shrinks(db, db);
    var d := HeartbeatLease(db, now, user, session, runtime).db;
    if LiveIn(db, session) {
      EndShrinks(db, db, session, Ending(Ended, ErrorReason, SessionEnded, Some(user)), now);
      EndShrinks(db, db, session, Ending(Ended, ProcessExit, SessionEnded, Some(user)), now);
      if Authorized(db, user, db.sessions[session].account, now) && !runtime.Exited? {
        hide Begun;
        forall id | LiveIn(d, id)
          ensures Kept(db, d.sessions[id], id, now)
        {
        }
      } else {
        ShrinksEvolves(db, d, now);
      }
    } else {
      ShrinksEvolves(db, db, now);
    }
  }

  lemma ReleaseShrinks(db: Db, now: int, actor: Actor, session: Id, reason: Reason)
    ensures Shrinks(db, ReleaseLease(db, now, actor, session, reason).db)
  {
    NothingShrinks(db);
    hide Shrinks, End;
    if session in db.sessions {
      var forced := actor.role.Admin? && db.sessions[session].user != actor.id;
      EndShrinks(db, db, session, Ending(Ended, if forced then AdminForceRelease else reason, SessionEnded, Some(actor.id)), now);
    }
  }

  lemma ForceReleaseShrinks(db: Db, now: int, actor: Actor, account: Id)
    requires Exclusive(db)
    ensures Shrinks(db, ForceReleaseAccount(db, now, actor, account).db)
  {
    NothingShrinks(db);
    hide Shrinks, End, AddAudit, LiveOn;
    match LiveOn(db, account)
    case None => AddAuditShrinks(db, db, actor.id, SessionEnded, Accounts, account);
    case Some(session) =>
      var how := Ending(Ended, AdminForceRelease, SessionEnded, Some(actor.id));
      EndShrinks(db, db, session, how, now);
      AddAuditShrinks(db, End(db, session, how, now).db, actor.id, SessionEnded, Accounts, account);
  }

  lemma LeasingEvolves(db: Db, t: Tick)
    requires Sound(db) && Enabled(World(db, t.now), t) && Leasing(t.event)
    ensures Evolves(db, Happen(db, t), t.now)
  {
    assert Exclusive(db);
    hide Sound, Evolves, Shrinks, ReapStale, AcquireLease, HeartbeatLease, ReleaseLease, ForceReleaseAccount, Schema, Fresh, Exclusive;
    match t.event
    case Reap(rows) =>
      ReapShrinks(db, t.now, rows);
      ShrinksEvolves(db, ReapStale(db, t.now, rows).db, t.now);
    case Acquire(user, account, device, newId, rows) => AcquireEvolves(db, t.now, user, account, device, newId, rows);
    case Heartbeat(user, session, runtime) => HeartbeatEvolves(db, t.now, user, session, runtime);
    case Release(actor, session, reason) =>
      ReleaseShrinks(db, t.now, actor, session, reason);
      ShrinksEvolves(db, ReleaseLease(db, t.now, actor, session, reason).db, t.now);
    case ForceRelease(actor, account) =>
      ForceReleaseShrinks(db, t.now, actor, account);
      ShrinksEvolves(db, ForceReleaseAccount(db, t.now, actor, account).db, t.now);
  }

  lemma StepEvolves(db: Db, t: Tick)
    requires Sound(db) && Enabled(World(db, t.now), t)
    ensures Evolves(db, Happen(db, t), t.now)
  {
    hide Sound, Evolves, Shrinks, Happen, Enabled;
    if Leasing(t.event) {
      LeasingEvolves(db, t);
    } else {
      AdministrationShrinks(db, t);
      ShrinksEvolves(db, Happen(db, t), t.now);
    }
  }

  lemma NothingShrinks(db: Db)
    ensures Shrinks(db, db)
  {
  }

  lemma StepIsSound(db: Db, t: Tick)
    requires Sound(db) && Enabled(World(db, t.now), t)
    requires forall id | LiveIn(db, id) :: db.sessions[id].lastHeartbeatAt <= t.now
    ensures Sound(Happen(db, t))
  {
    hide Sound, ReapStale, AcquireLease, ReleaseLease, HeartbeatLease, ForceReleaseAccount, AddAssignment, RevokeAssignment, CreateAccount,
         UpdateAccount, DeleteAccount, RegisterDevice, RevokeDevice, ApproveDevice, CreateUser, UpdateUser, Schema, Fresh, Enumerates;
    match t.event
    case Reap(rows) => ReapSound(db, t.now, rows);
    case Acquire(user, account, device, newId, rows) => AcquireSucceedsIff(db, t.now, user, account, device, newId, rows);
    case Release(actor, session, reason) => ReleaseSound(db, t.now, actor, session, reason);
    case Heartbeat(user, session, runtime) =>
      StartedBefore(db);
      HeartbeatSound(db, t.now, user, session, runtime);
    case ForceRelease(actor, account) => ForceReleaseSound(db, t.now, actor, account);
    case Assign(admin, account, user, expiresAt, newId) => AddAssignmentSound(db, admin, account, user, expiresAt, newId);
    case Unassign(admin, account, user) => RevokeAssignmentSound(db, t.now, admin, account, user);
    case NewAccount(admin, externalId, status, newId) => CreateAccountSound(db, admin, externalId, status, newId);
    case EditAccount(admin, account, externalId, status) => UpdateAccountSound(db, admin, account, externalId, status);
    case DropAccount(admin, account) => DeleteAccountSound(db, admin, account);
    case EnrolDevice(user, publicKey, newId) => RegisterDeviceSound(db, user, publicKey, newId);
    case BlockDevice(admin, device, rows) => RevokeDeviceSound(db, t.now, admin, device, rows);
    case UnblockDevice(admin, device) => ApproveDeviceSound(db, admin, device);
    case NewUser(admin, email, role, newId) => CreateUserSound(db, admin, email, role, newId);
    case EditUser(admin, user, role, status, rows) => UpdateUserSound(db, t.now, admin, user, role, status, rows);
  }

  lemma StartedBefore(db: Db)
    requires Sound(db)
    ensures forall id | LiveIn(db, id) :: db.sessions[id].startedAt <= db.sessions[id].lastHeartbeatAt
  {
    forall id | LiveIn(db, id)
      ensures Lifecycle(db.sessions[id])
    {
    }
  }

  lemma NextIsGood(w: World, t: Tick)
    requires Good(w)
    ensures Good(Next(w, t)) && w.clock <= Next(w, t).clock
    ensures Enabled(w, t) ==> Evolves(w.db, Next(w, t).db, t.now)
    ensures w.db.audit <= Next(w, t).db.audit
  {
    hide Sound, Happen, Fresh, Schema, Enumerates, Authorized;
    if Enabled(w, t) {
      SameEnabled(w, t);
      StepIsSound(w.db, t);
      StepEvolves(w.db, t);
    }
  }

  lemma SameEnabled(w: World, t: Tick)
    requires Enabled(w, t)
    ensures Enabled(World(w.db, t.now), t)
  {
  }

  // --------------------------------------------------------------- main results

  /** In every state any history can reach, the constraints hold without the
      exclusive index ever firing, leases are on available accounts and active
      devices of their holder, an active admin remains, and replaying the log
      gives the lease table. */
  lemma {:induction false} RunsStayGood(w: World, ticks: seq<Tick>)
    requires Good(w)
    ensures Good(Run(w, ticks)) && w.clock <= Run(w, ticks).clock
    ensures w.db.audit <= Run(w, ticks).db.audit
    decreases |ticks|
  {
    hide Good, Next;
    if ticks != [] {
      RunsStayGood(w, ticks[..|ticks| - 1]);
      NextIsGood(Run(w, ticks[..|ticks| - 1]), ticks[|ticks| - 1]);
    }
  }

  /** The tables right after installation: one active admin, nothing else. */
  function Installed(admin: Id, email: string): (db: Db) {
    Db(map[admin := User(email, Admin, UserActive)], map[], map[], map[], map[], [])
  }

  lemma ReachableStatesAreSound(admin: Id, email: string, clock: int, ticks: seq<Tick>)
    ensures Sound(Run(World(Installed(admin, email), clock), ticks).db)
  {
    InstalledIsGood(admin, email, clock);
    RunsStayGood(World(Installed(admin, email), clock), ticks);
  }

  lemma InstalledIsGood(admin: Id, email: string, clock: int)
    ensures Good(World(Installed(admin, email), clock))
  {
    var db := Installed(admin, email);
    assert admin in db.users && ActiveAdmin(db.users[admin]);
  }

  lemma LoggedGrows(audit: seq<Audit>, more: seq<Audit>, id: Id)
    requires audit <= more
    ensures StartLogged(audit, id) ==> StartLogged(more, id)
    ensures EndLogged(audit, id) ==> EndLogged(more, id)
  {
    assert more == audit + more[|audit|..];
    LoggedCat(audit, more[|audit|..], id);
  }

  /** Sessions only ever die: one that ended, or whose account was deleted, is
      never live again. */
  lemma EndedStaysEnded(w: World, ticks: seq<Tick>, id: Id)
    requires Good(w) && StartLogged(w.db.audit, id) && !LiveIn(w.db, id)
    ensures !LiveIn(Run(w, ticks).db, id)
  {
    hide Run;
    RunsStayGood(w, ticks);
    LoggedGrows(w.db.audit, Run(w, ticks).db.audit, id);
  }

  lemma KnownIsNotFresh(db: Db, id: Id)
    requires StartLogged(db.audit, id)
    ensures !Fresh(db, id)
  {
  }

  /** A session never changes hands, and its start is never moved: the four
      hours cannot be prolonged. */
  lemma {:induction false} TenureIsPersonal(w: World, ticks: seq<Tick>, id: Id)
    requires Good(w) && LiveIn(w.db, id) && LiveIn(Run(w, ticks).db, id)
    ensures SameHolder(Run(w, ticks).db.sessions[id], w.db.sessions[id])
    ensures Run(w, ticks).db.sessions[id].startedAt == w.db.sessions[id].startedAt
    decreases |ticks|
  {
    hide Good, Fresh, Enabled, Happen, Authorized;
    if ticks != [] {
      LiveBefore(w, ticks, id);
      TenureIsPersonal(w, ticks[..|ticks| - 1], id);
    }
  }

  /** One step back in a history. */
  lemma LiveBefore(w: World, ticks: seq<Tick>, id: Id)
    requires Good(w) && LiveIn(w.db, id) && ticks != [] && LiveIn(Run(w, ticks).db, id)
    ensures var last := Run(w, ticks[..|ticks| - 1]);
            && Good(last) && LiveIn(last.db, id)
            && var t := ticks[|ticks| - 1];
               && (Run(w, ticks).db.sessions[id] == last.db.sessions[id]
                   || (Enabled(last, t) && Kept(last.db, Run(w, ticks).db.sessions[id], id, t.now)))
  {
    hide Fresh, Enabled, Happen, Authorized, Sound, Timely;
    var last := Run(w, ticks[..|ticks| - 1]);
    RunsStayGood(w, ticks[..|ticks| - 1]);
    NextIsGood(last, ticks[|ticks| - 1]);
    LiveIsLogged(w.db, id);
    LoggedGrows(w.db.audit, last.db.audit, id);
    KnownIsNotFresh(last.db, id);
  }

  lemma LiveIsLogged(db: Db, id: Id)
    requires Sound(db) && LiveIn(db, id)
    ensures StartLogged(db.audit, id)
  {
  }

  /** At no tick of the history is the user an admin or validly assigned. */
  ghost predicate NeverAuthorized(w: World, ticks: seq<Tick>, user: Id, account: Id) {
    forall k | 0 <= k < |ticks| && Enabled(Run(w, ticks[..k]), ticks[k]) ::
      !Authorized(Run(w, ticks[..k]).db, user, account, ticks[k].now)
  }

  lemma NeverAuthorizedBefore(w: World, ticks: seq<Tick>, user: Id, account: Id)
    requires ticks != [] && NeverAuthorized(w, ticks, user, account)
    ensures NeverAuthorized(w, ticks[..|ticks| - 1], user, account)
    ensures var last := Run(w, ticks[..|ticks| - 1]);
            Enabled(last, ticks[|ticks| - 1]) ==> !Authorized(last.db, user, account, ticks[|ticks| - 1].now)
  {
    hide Enabled, Authorized, Run;
    var init := ticks[..|ticks| - 1];
    forall k | 0 <= k < |init| && Enabled(Run(w, init[..k]), init[k])
      ensures !Authorized(Run(w, init[..k]).db, user, account, init[k].now)
    {
      assert init[..k] == ticks[..k] && init[k] == ticks[k];
    }
  }

  /** Without authorization no heartbeat refreshes a lease. */
  lemma {:induction false} UnauthorizedIsNeverRefreshed(w: World, ticks: seq<Tick>, id: Id)
    requires Good(w) && LiveIn(w.db, id)
    requires NeverAuthorized(w, ticks, w.db.sessions[id].user, w.db.sessions[id].account)
    requires LiveIn(Run(w, ticks).db, id)
    ensures Run(w, ticks).db.sessions[id].lastHeartbeatAt == w.db.sessions[id].lastHeartbeatAt
    decreases |ticks|
  {
    hide Good, Fresh, Enabled, Happen, Authorized, NeverAuthorized, Next;
    if ticks != [] {
      LiveBefore(w, ticks, id);
      NeverAuthorizedBefore(w, ticks, w.db.sessions[id].user, w.db.sessions[id].account);
      TenureIsPersonal(w, ticks, id);
      UnauthorizedIsNeverRefreshed(w, ticks[..|ticks| - 1], id);
    }
  }

  /** A tick that reaps: the timer's, or a lease granted. */
  ghost predicate Reaps(w: World, t: Tick)
    requires Enabled(w, t)
  {
    match t.event
    case Reap(_) => true
    case Acquire(user, account, device, newId, rows) => AcquireLease(w.db, t.now, user, account, device, newId, rows).Done?
    case _ => false
  }

  lemma ReapingEndsTheStale(w: World, t: Tick, id: Id)
    requires Good(w) && Enabled(w, t) && Reaps(w, t) && LiveIn(w.db, id) && IsStale(w.db.sessions[id], t.now)
    ensures !LiveIn(Next(w, t).db, id)
  {
    hide Sound, Fresh, LiveOn, Schema, ReapStale, AcquireLease, EndEntries, Enumerates;
    ReapSound(w.db, t.now, t.event.rows);
    if t.event.Acquire? {
      AcquireLeaves(w.db, t.now, t.event.user, t.event.account, t.event.device, t.event.newId, t.event.rows);
      LiveIsLogged(w.db, id);
      KnownIsNotFresh(w.db, id);
    }
  }

  /** Whoever lost the right to a lease keeps it for at most five minutes beyond
      the next reaping, by the timer or by anyone's being granted a lease: a
      reaping that late leaves it ended, for good. */
  lemma TenureIsBounded(w: World, ticks: seq<Tick>, late: Tick, more: seq<Tick>, id: Id)
    requires Good(w) && LiveIn(w.db, id)
    requires NeverAuthorized(w, ticks, w.db.sessions[id].user, w.db.sessions[id].account)
    requires Enabled(Run(w, ticks), late) && Reaps(Run(w, ticks), late) && late.now >= w.clock + GRACE
    ensures !LiveIn(Run(w, ticks + [late] + more).db, id)
  {
    hide Run, Sound, Fresh, Authorized, NeverAuthorized, Schema, Reaps, Enabled, Next;
    var there := Run(w, ticks);
    RunsStayGood(w, ticks);
    LiveIsLogged(w.db, id);
    LoggedGrows(w.db.audit, there.db.audit, id);
    RunLast(w, ticks, late);
    if LiveIn(there.db, id) {
      UnauthorizedIsNeverRefreshed(w, ticks, id);
      LateIsStale(there.db, id, late.now);
      ReapingEndsTheStale(there, late, id);
    } else {
      EndedStaysEnded(there, [late], id);
      RunCat(w, ticks, [late]);
    }
    RunsStayGood(w, ticks + [late]);
    LoggedGrows(w.db.audit, Run(w, ticks + [late]).db.audit, id);
    EndedStaysEnded(Run(w, ticks + [late]), more, id);
    RunCat(w, ticks + [late], more);
  }

  lemma LateIsStale(db: Db, id: Id, now: int)
    requires Sound(db) && LiveIn(db, id) && db.sessions[id].lastHeartbeatAt + GRACE <= now
    ensures IsStale(db.sessions[id], now)
  {
    assert Lifecycle(db.sessions[id]);
  }

  lemma RunLast(w: World, ticks: seq<Tick>, t: Tick)
    ensures Run(w, ticks + [t]) == Next(Run(w, ticks), t)
  {
    assert (ticks + [t])[..|ticks|] == ticks;
  }

  lemma {:induction false} RunCat(w: World, ticks: seq<Tick>, more: seq<Tick>)
    ensures Run(w, ticks + more) == Run(Run(w, ticks), more)
    decreases |more|
  {
    hide Next;
    if more == [] {
      assert ticks + more == ticks;
    } else {
      RunCat(w, ticks, more[..|more| - 1]);
      assert (ticks + more)[..|ticks + more| - 1] == ticks + more[..|more| - 1];
    }
  }

  /** After a reaping every live session was heard from within five minutes. */
  lemma ReapingLeavesTheRecent(db: Db, now: int, rows: seq<Id>, id: Id)
    requires Sound(db) && Enumerates(rows, StaleIds(db, now)) && LiveIn(ReapStale(db, now, rows).db, id)
    ensures ReapStale(db, now, rows).db.sessions[id].lastHeartbeatAt > now - GRACE
  {
    hide ReapStale;
    ReapSound(db, now, rows);
    assert Lifecycle(db.sessions[id]);
  }
}
