/** What the tables say, read off the history of requests: which leases a request
    ends, who may lease what, and when a right that ran out costs the lease. */
module LeaseHistory {
  import opened Wrappers
  import opened LeaseDb
  import opened LeaseServices
  import opened LeaseInvariants
  import opened LeaseOutcomes
  import opened LeaseRuns

  /** The request went through. */
  ghost predicate Accepted(db: Db, t: Tick)
    requires Enabled(World(db, t.now), t)
  {
    match t.event
    case Reap(rows) => ReapStale(db, t.now, rows).Done?
    case Acquire(user, account, device, newId, rows) => AcquireLease(db, t.now, user, account, device, newId, rows).Done?
    case Release(actor, session, reason) => ReleaseLease(db, t.now, actor, session, reason).Done?
    case Heartbeat(user, session, runtime) => HeartbeatLease(db, t.now, user, session, runtime).Done?
    case ForceRelease(actor, account) => ForceReleaseAccount(db, t.now, actor, account).Done?
    case Assign(admin, account, user, expiresAt, newId) => AddAssignment(db, admin, account, user, expiresAt, newId).Done?
    case Unassign(admin, account, user) => RevokeAssignment(db, t.now, admin, account, user).Done?
    case NewAccount(admin, externalId, status, newId) => CreateAccount(db, admin, externalId, status, newId).Done?
    case EditAccount(admin, account, externalId, status) => UpdateAccount(db, admin, account, externalId, status).Done?
    case DropAccount(admin, account) => DeleteAccount(db, admin, account).Done?
    case EnrolDevice(user, publicKey, newId) => RegisterDevice(db, user, publicKey, newId).Done?
    case BlockDevice(admin, device, rows) => RevokeDevice(db, t.now, admin, device, rows).Done?
    case UnblockDevice(admin, device) => ApproveDevice(db, admin, device).Done?
    case NewUser(admin, email, role, newId) => CreateUser(db, admin, email, role, newId).Done?
    case EditUser(admin, user, role, status, rows) => UpdateUser(db, t.now, admin, user, role, status, rows).Done?
  }

  // ---------------------------------------------------- which leases a request ends

  function SessionsAt(db: Db, account: Id): (ids: set<Id>) {
    set id | id in db.sessions && LiveIn(db, id) && db.sessions[id].account == account
  }

  /** The sessions an accepted request is meant to end. */
  ghost function Targets(db: Db, t: Tick): (ids: set<Id>) {
    match t.event
    case Reap(_) => StaleIds(db, t.now)
    case Acquire(_, _, _, _, _) => StaleIds(db, t.now)
    case Release(_, session, _) => {session}
    case Heartbeat(user, session, runtime) =>
      if session in db.sessions && Authorized(db, user, db.sessions[session].account, t.now) && !runtime.Exited? then {} else {session}
    case ForceRelease(_, account) => SessionsAt(db, account)
    case Unassign(_, account, user) => SessionsOfPair(db, account, user)
    case BlockDevice(_, device, _) => SessionsOn(db, device)
    case EditUser(_, user, _, status, _) => if Deactivates(status) then SessionsBy(db, user) else {}
    case _ => {}
  }

  ghost function Gone(db: Db, t: Tick): (ids: set<Id>)
    requires Enabled(World(db, t.now), t)
  {
    if Accepted(db, t) then Targets(db, t) else {}
  }

  predicate Refreshes(e: Event, id: Id) {
    e.Heartbeat? && e.session == id
  }

  predicate Begins(e: Event, id: Id) {
    e.Acquire? && e.newId == id
  }

  /** Exactly `gone` ends; no other row changes but the one whose heartbeat it is,
      and none appears but the one that begins. */
  ghost predicate EndsAsMeant(db: Db, d: Db, e: Event, gone: set<Id>) {
    && (forall id | LiveIn(db, id) :: LiveIn(d, id) <==> id !in gone)
    && (forall id | id in db.sessions && id in d.sessions && id !in gone && !Refreshes(e, id) :: d.sessions[id] == db.sessions[id])
    && (forall id | LiveIn(d, id) && !LiveIn(db, id) :: Begins(e, id))
  }

  lemma ExactlyIsAsMeant(db: Db, d: Db, e: Event, gone: set<Id>)
    requires EndsExactly(db, d, gone)
    ensures EndsAsMeant(db, d, e, gone)
  {
  }

  lemma NothingEnds(db: Db)
    ensures EndsExactly(db, db, {})
  {
  }

  lemma ReapEndsExactly(db: Db, now: int, rows: seq<Id>)
    requires Sound(db) && Enumerates(rows, StaleIds(db, now))
    ensures ReapStale(db, now, rows).Done? && EndsExactly(db, ReapStale(db, now, rows).db, StaleIds(db, now))
  {
    hide Sound, EndEach;
    ReapSound(db, now, rows);
  }

  lemma BegunIsAsMeant(db: Db, d: Db, id: Id, s: Session, e: Event, gone: set<Id>)
    requires EndsExactly(db, d, gone) && id !in d.sessions && id !in db.sessions && Begins(e, id)
    ensures EndsAsMeant(db, Started(d, id, s), e, gone)
  {
  }

  lemma AcquireEndsAsMeant(db: Db, t: Tick)
    requires Sound(db) && Enabled(World(db, t.now), t) && t.event.Acquire?
    ensures EndsAsMeant(db, Happen(db, t), t.event, Gone(db, t))
  {
    var Acquire(user, account, device, newId, rows) := t.event;
    hide Sound, Fresh, LiveOn, AcquireLease, EndsExactly, EndsAsMeant, Enumerates, StaleIds, Schema, Exclusive, ReapStale, Authorized;
    AcquireLeaves(db, t.now, user, account, device, newId, rows);
    ReapEndsExactly(db, t.now, rows);
    FreshSession(db, newId);
    var d := Reaped(db, t.now, rows);
    NothingEnds(db);
    ExactlyIsAsMeant(db, db, t.event, {});
    ExactlyIsAsMeant(db, d, t.event, StaleIds(db, t.now));
    BegunIsAsMeant(db, d, newId, NewSession(user, account, device, t.now), t.event, StaleIds(db, t.now));
  }

  lemma FreshSession(db: Db, newId: Id)
    requires Fresh(db, newId)
    ensures newId !in db.sessions
  {
  }

  lemma RefreshIsAsMeant(db: Db, id: Id, row: Session, e: Event)
    requires LiveIn(db, id) && Live(row) && Refreshes(e, id)
    ensures EndsAsMeant(db, db.(sessions := db.sessions[id := row]), e, {})
  {
  }

  lemma RefusedHeartbeatKeeps(db: Db, now: int, user: Id, session: Id, runtime: RuntimeState)
    ensures HeartbeatLease(db, now, user, session, runtime).Throw? || !LiveIn(db, session) ==>
              HeartbeatLease(db, now, user, session, runtime) == Throw(db, HeartbeatLease(db, now, user, session, runtime).error)
  {
    hide End, Authorized;
  }

  lemma HeartbeatEndsAsMeant(db: Db, t: Tick)
    requires Sound(db) && Enabled(World(db, t.now), t) && t.event.Heartbeat?
    ensures EndsAsMeant(db, Happen(db, t), t.event, Gone(db, t))
  {
    var Heartbeat(user, session, runtime) := t.event;
    hide Sound, Authorized, HeartbeatLease, Schema, EndsExactly, EndsAsMeant, IsStale;
    NothingEnds(db);
    RefusedHeartbeatKeeps(db, t.now, user, session, runtime);
    var d := HeartbeatLease(db, t.now, user, session, runtime).db;
    if !Accepted(db, t) {
      ExactlyIsAsMeant(db, db, t.event, {});
    } else {
      HeartbeatBuysTime(db, t.now, user, session, runtime);
      if LiveIn(d, session) {
        RefreshIsAsMeant(db, session, d.sessions[session], t.event);
      } else {
        ExactlyIsAsMeant(db, d, t.event, {session});
      }
    }
  }

  lemma LeasingEndsAsMeant(db: Db, t: Tick)
    requires Sound(db) && Enabled(World(db, t.now), t) && Leasing(t.event)
    ensures EndsAsMeant(db, Happen(db, t), t.event, Gone(db, t))
  {
    SoundIsSchema(db);
    SchemaHolds(db);
    NothingEnds(db);
    if t.event.Acquire? {
      AcquireEndsAsMeant(db, t);
    } else if t.event.Heartbeat? {
      HeartbeatEndsAsMeant(db, t);
    } else {
      hide Sound, Schema, EndsExactly, EndsAsMeant, ReapStale, ReleaseLease, ForceReleaseAccount, Exclusive, StaleIds;
      match t.event {
        case Reap(rows) => ReapEndsExactly(db, t.now, rows);
        case Release(actor, session, reason) =>
          ReleaseSucceedsIff(db, t.now, actor, session, reason);
          RefusedReleaseKeeps(db, t.now, actor, session, reason);
        case ForceRelease(actor, account) =>
          ForceReleaseFreesTheAccount(db, t.now, actor, account);
          RefusedForceKeeps(db, t.now, actor, account);
        case _ =>
      }
      ExactlyIsAsMeant(db, Happen(db, t), t.event, Gone(db, t));
    }
  }

  lemma RefusedReleaseKeeps(db: Db, now: int, actor: Actor, session: Id, reason: Reason)
    ensures ReleaseLease(db, now, actor, session, reason).Throw? ==> ReleaseLease(db, now, actor, session, reason).db == db
  {
    hide End;
  }

  lemma RefusedForceKeeps(db: Db, now: int, actor: Actor, account: Id)
    requires Exclusive(db)
    ensures ForceReleaseAccount(db, now, actor, account).Throw? ==> ForceReleaseAccount(db, now, actor, account).db == db
  {
    hide End, LiveOn, AddAudit;
  }

  /** A refused administrative request changes nothing. */
  lemma RefusedKeeps(db: Db, t: Tick)
    requires Enabled(World(db, t.now), t) && !Leasing(t.event) && !Accepted(db, t)
    ensures Happen(db, t) == db
  {
    SchemaHolds(db);
    hide Schema, EndEach, End, AddAudit, LiveOn, AssignmentOf, DeviceOf, Fresh, Exclusive, UniqueColumns, Enumerates, WithoutAccount, ExternalIdTaken;
  }

  predicate OnAccounts(e: Event) {
    e.Assign? || e.Unassign? || e.NewAccount? || e.EditAccount? || e.DropAccount?
  }

  lemma AccountRequestsEndExactly(db: Db, t: Tick)
    requires Sound(db) && Enabled(World(db, t.now), t) && OnAccounts(t.event) && Accepted(db, t)
    ensures EndsExactly(db, Happen(db, t), Targets(db, t))
  {
    SchemaHolds(db);
    hide Sound, Schema, EndsExactly, Exclusive, UniqueColumns, Fresh, Enumerates, AddAssignment, RevokeAssignment, RevokeDevice, UpdateUser,
         DeleteAccount, CreateAccount, UpdateAccount, RegisterDevice, ApproveDevice, CreateUser, SessionsOfPair, SessionsOn, SessionsBy;
    match t.event
    case Assign(admin, account, user, expiresAt, newId) =>
      FreshIsNew(db, newId);
      AssignmentAuthorizes(db, admin, account, user, expiresAt, newId);
    case Unassign(admin, account, user) => RevocationShutsOut(db, t.now, admin, account, user);
    case NewAccount(admin, externalId, status, newId) =>
      FreshIsNew(db, newId);
      CreatedAccountShows(db, admin, externalId, status, newId);
    case EditAccount(admin, account, externalId, status) => EditEndsNothing(db, admin, account, externalId, status);
    case DropAccount(admin, account) => DropEndsNothing(db, admin, account);
  }

  lemma OtherRequestsEndExactly(db: Db, t: Tick)
    requires Sound(db) && Enabled(World(db, t.now), t) && !Leasing(t.event) && !OnAccounts(t.event) && Accepted(db, t)
    ensures EndsExactly(db, Happen(db, t), Targets(db, t))
  {
    SchemaHolds(db);
    hide Sound, Schema, EndsExactly, Exclusive, UniqueColumns, Fresh, Enumerates, AddAssignment, RevokeAssignment, RevokeDevice, UpdateUser,
         DeleteAccount, CreateAccount, UpdateAccount, RegisterDevice, ApproveDevice, CreateUser, SessionsOfPair, SessionsOn, SessionsBy;
    match t.event
    case EnrolDevice(user, publicKey, newId) =>
      FreshIsNew(db, newId);
      RegistrationGivesADevice(db, user, publicKey, newId);
    case BlockDevice(admin, device, rows) => RevokedDeviceHoldsNothing(db, t.now, admin, device, rows);
    case UnblockDevice(admin, device) => ApprovalRestoresTheDevice(db, admin, device);
    case NewUser(admin, email, role, newId) => CreatedUserMayLease(db, admin, email, role, newId, "", 0);
    case EditUser(admin, user, role, status, rows) => DeactivationEndsLeases(db, t.now, admin, user, role, status, rows);
  }

  lemma AdministrationEndsAsMeant(db: Db, t: Tick)
    requires Sound(db) && Enabled(World(db, t.now), t) && !Leasing(t.event)
    ensures EndsAsMeant(db, Happen(db, t), t.event, Gone(db, t))
  {
    NothingEnds(db);
    hide Sound, Enabled, Happen, Accepted, Targets, EndsExactly, EndsAsMeant;
    if !Accepted(db, t) {
      RefusedKeeps(db, t);
    } else if OnAccounts(t.event) {
      AccountRequestsEndExactly(db, t);
    } else {
      OtherRequestsEndExactly(db, t);
    }
    ExactlyIsAsMeant(db, Happen(db, t), t.event, Gone(db, t));
  }

  lemma FreshIsNew(db: Db, newId: Id)
    requires Fresh(db, newId)
    ensures newId !in db.assignments && newId !in db.accounts && newId !in db.devices
  {
  }

  lemma EditEndsNothing(db: Db, admin: Id, account: Id, externalId: Option<string>, status: Option<AccountStatus>)
    requires Exclusive(db)
    ensures EndsExactly(db, UpdateAccount(db, admin, account, externalId, status).db, {})
    ensures UpdateAccount(db, admin, account, externalId, status).db.assignments == db.assignments
  {
    hide LiveOn, ExternalIdTaken, EndsExactly;
    SameSessionsEndNone(db, UpdateAccount(db, admin, account, externalId, status).db);
  }

  lemma DropEndsNothing(db: Db, admin: Id, account: Id)
    requires Exclusive(db) && DeleteAccount(db, admin, account).Done?
    ensures EndsExactly(db, DeleteAccount(db, admin, account).db, {})
  {
    hide LiveOn, Exclusive, EndsExactly;
    AddAuditIs(WithoutAccount(db, account), admin, Other("ACCOUNT_DELETED"), Accounts, account);
    DeletionWaits(db, admin, account);
  }

  /** Every request, of whichever service, ends exactly the leases it is meant to
      end if it is accepted and none if it is refused; it touches no other row. */
  lemma RequestsEndWhatTheyMean(db: Db, t: Tick)
    requires Sound(db) && Enabled(World(db, t.now), t)
    ensures EndsAsMeant(db, Happen(db, t), t.event, Gone(db, t))
  {
    hide Happen, EndsAsMeant, Gone, Sound, Enabled;
    if Leasing(t.event) {
      LeasingEndsAsMeant(db, t);
    } else {
      AdministrationEndsAsMeant(db, t);
    }
  }

  /** Only releasing it once more changes how an ended session ended: the service
      does not look at the status, and notes the new time and reason. */
  lemma EndedRowsChangeOnlyByRelease(db: Db, t: Tick, id: Id)
    requires Sound(db) && Enabled(World(db, t.now), t)
    requires id in db.sessions && !LiveIn(db, id) && id in Happen(db, t).sessions
    ensures var before, after := db.sessions[id], Happen(db, t).sessions[id];
            if t.event.Release? && t.event.session == id && Accepted(db, t)
            then after.reason.Some? && after == before.(status := Ended, endedAt := Some(t.now), reason := after.reason)
            else after == before
  {
    if t.event.Release? && t.event.session == id {
      ReleasedRow(db, t.now, t.event.actor, id, t.event.reason);
      EndedHasExited(db, id);
    } else if Refreshes(t.event, id) {
      RefusedHeartbeatKeeps(db, t.now, t.event.user, id, t.event.runtime);
    } else {
      RequestsEndWhatTheyMean(db, t);
      hide Sound, Happen, Accepted, Enabled;
      EndedIsNoTarget(db, t, id);
    }
  }

  lemma ReleasedRow(db: Db, now: int, actor: Actor, session: Id, reason: Reason)
    requires session in db.sessions
    ensures var t := ReleaseLease(db, now, actor, session, reason);
            && (t.Throw? ==> t.db == db)
            && (t.Done? ==> exists noted :: t.db.sessions == db.sessions[session :=
                              db.sessions[session].(status := Ended, runtime := Exited, endedAt := Some(now), reason := Some(noted))])
  {
    var noted := if actor.role.Admin? && db.sessions[session].user != actor.id then AdminForceRelease else reason;
    var row := db.sessions[session].(status := Ended, runtime := Exited, endedAt := Some(now), reason := Some(noted));
    var t := ReleaseLease(db, now, actor, session, reason);
    assert t.Done? ==> t.db.sessions == db.sessions[session := row];
  }

  lemma EndedHasExited(db: Db, id: Id)
    requires Sound(db) && id in db.sessions && !LiveIn(db, id)
    ensures db.sessions[id].runtime.Exited?
  {
    assert Lifecycle(db.sessions[id]);
  }

  lemma EndedIsNoTarget(db: Db, t: Tick, id: Id)
    requires id in db.sessions && !LiveIn(db, id) && !((t.event.Release? || t.event.Heartbeat?) && t.event.session == id)
    ensures id !in Targets(db, t)
  {
  }

  // ------------------------------------------------------------ who may lease what

  /** What a request says about a pair: that it may lease until then, that it may
      not, or nothing. */
  datatype Word = Silent | Grants(expiresAt: Option<int>) | Withdraws

  function WordOf(e: Event, account: Id, user: Id): (w: Word) {
    match e
    case Assign(_, a, u, expiresAt, _) => if a == account && u == user then Grants(expiresAt) else Silent
    case Unassign(_, a, u) => if a == account && u == user then Withdraws else Silent
    case DropAccount(_, a) => if a == account then Withdraws else Silent
    case _ => Silent
  }

  ghost predicate Speaks(w: World, t: Tick, account: Id, user: Id) {
    Enabled(w, t) && Accepted(w.db, t) && WordOf(t.event, account, user) != Silent
  }

  /** The last accepted request that said something about the pair. */
  ghost function LastWord(w: World, ticks: seq<Tick>, account: Id, user: Id): (r: Word)
    decreases |ticks|
  {
    if ticks == [] then Silent
    else
      var before, t := ticks[..|ticks| - 1], ticks[|ticks| - 1];
      if Speaks(Run(w, before), t, account, user) then WordOf(t.event, account, user) else LastWord(w, before, account, user)
  }

  predicate Unexpired(expiresAt: Option<int>, at: int) {
    expiresAt.None? || at < expiresAt.value
  }

  lemma SameRowsSameRight(db: Db, d: Db, user: Id, account: Id, at: int)
    requires d.assignments == db.assignments
    ensures ValidlyAssigned(d, user, account, at) <==> ValidlyAssigned(db, user, account, at)
  {
  }

  lemma LeasingKeepsAssignments(db: Db, t: Tick)
    requires Sound(db) && Enabled(World(db, t.now), t) && Leasing(t.event) && !t.event.Acquire?
    ensures Happen(db, t).assignments == db.assignments
  {
    SchemaHolds(db);
    hide Sound, Schema, Exclusive, UniqueColumns, ReapStale, ReleaseLease, HeartbeatLease, ForceReleaseAccount, StaleIds, EndsExactly, Authorized, IsStale;
    match t.event
    case Reap(rows) => ReapSound(db, t.now, rows);
    case Release(actor, session, reason) =>
      ReleaseSucceedsIff(db, t.now, actor, session, reason);
      RefusedReleaseKeeps(db, t.now, actor, session, reason);
    case Heartbeat(user, session, runtime) =>
      RefusedHeartbeatKeeps(db, t.now, user, session, runtime);
      if LiveIn(db, session) {
        HeartbeatBuysTime(db, t.now, user, session, runtime);
      }
    case ForceRelease(actor, account) =>
      ForceReleaseFreesTheAccount(db, t.now, actor, account);
      RefusedForceKeeps(db, t.now, actor, account);
  }

  predicate Assigns(e: Event) {
    e.Assign? || e.Unassign? || e.DropAccount?
  }

  lemma OthersKeepAssignments(db: Db, t: Tick)
    requires Sound(db) && Enabled(World(db, t.now), t) && !Leasing(t.event) && !Assigns(t.event)
    ensures Happen(db, t).assignments == db.assignments
  {
    SchemaHolds(db);
    hide Sound, Schema, EndsExactly, Exclusive, UniqueColumns, Fresh, Enumerates, RevokeDevice, UpdateUser, CreateAccount, UpdateAccount,
         RegisterDevice, ApproveDevice, CreateUser, SessionsOn, SessionsBy;
    if !Accepted(db, t) {
      RefusedKeeps(db, t);
    } else {
      match t.event
      case NewAccount(admin, externalId, status, newId) =>
        FreshIsNew(db, newId);
        CreatedAccountShows(db, admin, externalId, status, newId);
      case EditAccount(admin, account, externalId, status) => EditEndsNothing(db, admin, account, externalId, status);
      case EnrolDevice(user, publicKey, newId) =>
        FreshIsNew(db, newId);
        RegistrationGivesADevice(db, user, publicKey, newId);
      case BlockDevice(admin, device, rows) => RevokedDeviceHoldsNothing(db, t.now, admin, device, rows);
      case UnblockDevice(admin, device) => ApprovalRestoresTheDevice(db, admin, device);
      case NewUser(admin, email, role, newId) => CreatedUserMayLease(db, admin, email, role, newId, "", 0);
      case EditUser(admin, user, role, status, rows) => DeactivationEndsLeases(db, t.now, admin, user, role, status, rows);
    }
  }

  lemma AcquireKeepsAssignments(db: Db, t: Tick)
    requires Sound(db) && Enabled(World(db, t.now), t) && t.event.Acquire?
    ensures Happen(db, t).assignments == db.assignments
  {
    var Acquire(user, account, device, newId, rows) := t.event;
    hide Sound, Fresh, LiveOn, AcquireLease, Enumerates, StaleIds, Schema, Exclusive, EndEach;
    AcquireLeaves(db, t.now, user, account, device, newId, rows);
    ReapSound(db, t.now, rows);
  }

  lemma AssigningOthers(db: Db, admin: Id, a: Id, u: Id, expiresAt: Option<int>, newId: Id, account: Id, user: Id, at: int)
    requires UniqueColumns(db) && newId !in db.assignments && !(a == account && u == user)
    ensures ValidlyAssigned(AddAssignment(db, admin, a, u, expiresAt, newId).db, user, account, at) <==> ValidlyAssigned(db, user, account, at)
  {
    hide AssignmentOf;
    var existing := AssignmentOf(db, a, u);
    var id := if existing.Some? then existing.value else newId;
    var rows := db.assignments[id := Assignment(a, u, Assigned, expiresAt)];
    assert forall r | r in db.assignments && db.assignments[r].account == account && db.assignments[r].user == user ::
             r != id && r in rows && rows[r] == db.assignments[r];
    SameRight(db.assignments, rows, AddAssignment(db, admin, a, u, expiresAt, newId).db, db, user, account, at);
  }

  /** Rows about other pairs do not matter. */
  lemma SameRight(before: map<Id, Assignment>, after: map<Id, Assignment>, d: Db, db: Db, user: Id, account: Id, at: int)
    requires db.assignments == before && (d.assignments == after || d.assignments == before)
    requires forall r | r in before && before[r].account == account && before[r].user == user :: r in after && after[r] == before[r]
    requires forall r | r in after && after[r].account == account && after[r].user == user :: r in before && after[r] == before[r]
    ensures ValidlyAssigned(d, user, account, at) <==> ValidlyAssigned(db, user, account, at)
  {
  }

  lemma UnassigningOthers(db: Db, now: int, admin: Id, a: Id, u: Id, account: Id, user: Id, at: int)
    requires UniqueColumns(db) && Exclusive(db) && !(a == account && u == user)
    ensures ValidlyAssigned(RevokeAssignment(db, now, admin, a, u).db, user, account, at) <==> ValidlyAssigned(db, user, account, at)
  {
    hide AssignmentOf, SessionOf, Exclusive, UniqueColumns;
    var existing := AssignmentOf(db, a, u);
    var rows := if existing.Some? then db.assignments[existing.value := db.assignments[existing.value].(status := Revoked)] else db.assignments;
    SameRight(db.assignments, rows, RevokeAssignment(db, now, admin, a, u).db, db, user, account, at);
  }

  lemma DroppingOthers(db: Db, admin: Id, a: Id, account: Id, user: Id, at: int)
    requires Exclusive(db)
    ensures var t := DeleteAccount(db, admin, a);
            ValidlyAssigned(t.db, user, account, at) <==> ValidlyAssigned(db, user, account, at) && !(t.Done? && a == account)
  {
    hide LiveOn, Exclusive, ValidlyAssigned;
    var t := DeleteAccount(db, admin, a);
    var rows := WithoutAccount(db, a).assignments;
    if t.Done? && a == account {
      NoRowsNoRight(t.db, user, account, at);
    } else {
      SameRight(db.assignments, if t.Done? then rows else db.assignments, t.db, db, user, account, at);
    }
  }

  lemma NoRowsNoRight(db: Db, user: Id, account: Id, at: int)
    requires forall r | r in db.assignments :: db.assignments[r].account != account
    ensures !ValidlyAssigned(db, user, account, at)
  {
  }

  /** One tick, seen from one pair. */
  lemma TickDecides(db: Db, t: Tick, user: Id, account: Id, at: int)
    requires Sound(db) && Enabled(World(db, t.now), t)
    ensures var word := if Accepted(db, t) then WordOf(t.event, account, user) else Silent;
            ValidlyAssigned(Happen(db, t), user, account, at) <==>
            match word
            case Silent => ValidlyAssigned(db, user, account, at)
            case Grants(expiresAt) => Unexpired(expiresAt, at)
            case Withdraws => false
  {
    SoundIsSchema(db);
    SchemaHolds(db);
    hide Sound, Schema, Fresh, Exclusive, UniqueColumns, Enumerates, AddAssignment, RevokeAssignment, DeleteAccount, ValidlyAssigned;
    match t.event
    case Assign(admin, a, u, expiresAt, newId) =>
      FreshIsNew(db, newId);
      if a == account && u == user {
        if Accepted(db, t) {
          AssignmentAuthorizes(db, admin, a, u, expiresAt, newId);
        } else {
          RefusedKeeps(db, t);
        }
      } else {
        AssigningOthers(db, admin, a, u, expiresAt, newId, account, user, at);
      }
    case Unassign(admin, a, u) =>
      if a == account && u == user {
        if Accepted(db, t) {
          RevocationShutsOut(db, t.now, admin, a, u);
        } else {
          RefusedKeeps(db, t);
        }
      } else {
        UnassigningOthers(db, t.now, admin, a, u, account, user, at);
      }
    case DropAccount(admin, a) => DroppingOthers(db, admin, a, account, user, at);
    case _ =>
      hide Happen;
      if t.event.Acquire? {
        AcquireKeepsAssignments(db, t);
      } else if Leasing(t.event) {
        LeasingKeepsAssignments(db, t);
      } else {
        OthersKeepAssignments(db, t);
      }
      SameRowsSameRight(db, Happen(db, t), user, account, at);
  }

  /** In every reachable state a user may lease an account exactly if the last
      accepted request about the two was an assignment that has not expired:
      revoking it, or deleting the account, takes the right away. */
  lemma {:induction false} RightsFollowTheHistory(w: World, ticks: seq<Tick>, user: Id, account: Id, at: int)
    requires Good(w)
    ensures ValidlyAssigned(Run(w, ticks).db, user, account, at) <==>
            match LastWord(w, ticks, account, user)
            case Silent => ValidlyAssigned(w.db, user, account, at)
            case Grants(expiresAt) => Unexpired(expiresAt, at)
            case Withdraws => false
    decreases |ticks|
  {
    hide Good, Enabled, Happen, Accepted, ValidlyAssigned, Unexpired, WordOf;
    if ticks != [] {
      var before, t := ticks[..|ticks| - 1], ticks[|ticks| - 1];
      RightsFollowTheHistory(w, before, user, account, at);
      RunsStayGood(w, before);
      GoodIsSound(Run(w, before));
      if Enabled(Run(w, before), t) {
        SameEnabled(Run(w, before), t);
        TickDecides(Run(w, before).db, t, user, account, at);
      }
    }
  }

  lemma GoodIsSound(w: World)
    requires Good(w)
    ensures Sound(w.db)
  {
  }

  /** From installation on nobody holds an assignment that was not given. */
  lemma InstalledRightsFollowTheHistory(admin: Id, email: string, clock: int, ticks: seq<Tick>, user: Id, account: Id, at: int)
    ensures var w := World(Installed(admin, email), clock);
            ValidlyAssigned(Run(w, ticks).db, user, account, at) <==>
            LastWord(w, ticks, account, user).Grants? && Unexpired(LastWord(w, ticks, account, user).expiresAt, at)
  {
    var w := World(Installed(admin, email), clock);
    InstalledIsGood(admin, email, clock);
    hide Run, LastWord, Good;
    RightsFollowTheHistory(w, ticks, user, account, at);
  }

  predicate NoNewGrant(ticks: seq<Tick>, account: Id, user: Id) {
    forall t | t in ticks :: !WordOf(t.event, account, user).Grants?
  }

  lemma {:induction false} NoGrantNoWord(w: World, ticks: seq<Tick>, account: Id, user: Id)
    requires NoNewGrant(ticks, account, user)
    ensures !LastWord(w, ticks, account, user).Grants?
    decreases |ticks|
  {
    hide Speaks, WordOf;
    if ticks != [] {
      assert ticks[|ticks| - 1] in ticks && forall t | t in ticks[..|ticks| - 1] :: t in ticks;
      NoGrantNoWord(w, ticks[..|ticks| - 1], account, user);
    }
  }

  lemma RunOutStaysRunOut(db: Db, user: Id, account: Id, at: int, later: int)
    requires !ValidlyAssigned(db, user, account, at) && at <= later
    ensures !ValidlyAssigned(db, user, account, later)
  {
  }

  /** An operator whose assignment ran out, or was never given, and is not given
      again, loses the lease to the first reaping five minutes later, for good. */
  lemma RunOutRightEndsTheLease(w: World, ticks: seq<Tick>, late: Tick, more: seq<Tick>, id: Id)
    requires Good(w) && LiveIn(w.db, id)
    requires !ValidlyAssigned(w.db, w.db.sessions[id].user, w.db.sessions[id].account, w.clock)
    requires forall k | 0 <= k < |ticks| :: !IsAdmin(Run(w, ticks[..k]).db, w.db.sessions[id].user)
    requires NoNewGrant(ticks, w.db.sessions[id].account, w.db.sessions[id].user)
    requires Enabled(Run(w, ticks), late) && Reaps(Run(w, ticks), late) && late.now >= w.clock + GRACE
    ensures !LiveIn(Run(w, ticks + [late] + more).db, id)
  {
    hide Good, Enabled, Run, ValidlyAssigned, IsAdmin, LastWord, Reaps;
    var user, account := w.db.sessions[id].user, w.db.sessions[id].account;
    forall k | 0 <= k < |ticks| && Enabled(Run(w, ticks[..k]), ticks[k])
      ensures !Authorized(Run(w, ticks[..k]).db, user, account, ticks[k].now)
    {
      var before := ticks[..k];
      RightsFollowTheHistory(w, before, user, account, ticks[k].now);
      assert forall t | t in before :: t in ticks;
      NoGrantNoWord(w, before, account, user);
      RunsStayGood(w, before);
      EnabledIsLater(Run(w, before), ticks[k]);
      RunOutStaysRunOut(w.db, user, account, w.clock, ticks[k].now);
    }
    TenureIsBounded(w, ticks, late, more, id);
  }

  lemma EnabledIsLater(w: World, t: Tick)
    requires Enabled(w, t)
    ensures w.clock <= t.now
  {
  }
}
