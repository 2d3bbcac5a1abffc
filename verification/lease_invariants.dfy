/** Every transaction keeps the database sound. */
module LeaseInvariants {
  import opened Wrappers
  import opened LeaseDb
  import opened LeaseServices

  /** Soundness without what ties a lease to its account and device. */
  ghost predicate Core(db: Db) {
    Schema(db) && Lifecycles(db) && Administered(db) && Audited(db)
  }

  predicate LeaseHolds(db: Db, s: Session) {
    IsAvailable(db, s.account) && OwnsActiveDevice(db, s.user, s.device)
  }

  /** Every live session but those in `rows` holds its account and device. */
  ghost predicate LeasesExcept(db: Db, rows: seq<Id>) {
    forall id | LiveIn(db, id) && id !in rows :: LeaseHolds(db, db.sessions[id])
  }

  lemma SoundIsCore(db: Db)
    ensures Sound(db) <==> Core(db) && LeasesExcept(db, [])
  {
    if Sound(db) {
      forall id | LiveIn(db, id)
        ensures LeaseHolds(db, db.sessions[id])
      {
      }
    }
    if Core(db) && LeasesExcept(db, []) {
      forall id | LiveIn(db, id)
        ensures LeaseHolds(db, db.sessions[id])
      {
        assert id !in [];
      }
    }
  }

  // ------------------------------------------------------------- building blocks

  lemma LoggedCat(audit: seq<Audit>, more: seq<Audit>, id: Id)
    ensures StartLogged(audit + more, id) <==> StartLogged(audit, id) || StartLogged(more, id)
    ensures EndLogged(audit + more, id) <==> EndLogged(audit, id) || EndLogged(more, id)
  {
    assert forall e :: e in audit + more <==> e in audit || e in more;
  }

  lemma EndEntriesLog(db: Db, rows: seq<Id>, how: Ending, id: Id)
    requires (forall r | r in rows :: r in db.sessions) && Ends(how.action)
    ensures EndLogged(EndEntries(db, rows, how), id) <==> id in rows
    ensures !StartLogged(EndEntries(db, rows, how), id)
  {
    var entries := EndEntries(db, rows, how);
    if id in rows {
      var i :| 0 <= i < |rows| && rows[i] == id;
      assert entries[i] in entries && entries[i].id == id;
    }
  }

  /** Ending sessions keeps the database sound and ends exactly those. */
  lemma EndEachSound(db: Db, rows: seq<Id>, how: Ending, now: int)
    requires Core(db) && LeasesExcept(db, rows) && EndsSession(how)
    requires forall id | id in rows :: id in db.sessions
    requires how.actor.Some? ==> how.actor.value in db.users
    ensures var t := EndEach(db, rows, how, now);
            && t.Done? && Sound(t.db)
            && t.db == db.(sessions := EndedSessions(db, rows, how, now), audit := db.audit + EndEntries(db, rows, how))
            && (forall id :: LiveIn(t.db, id) <==> LiveIn(db, id) && id !in rows)
  {
    hide Schema, Lifecycles, Administered, EndEach, Sound, StartLogged, EndLogged;
    EndRowsActors(db, rows, how);
    EndEachIs(db, rows, how, now);
    var d := EndEach(db, rows, how, now).db;
    assert forall id :: LiveIn(d, id) <==> LiveIn(db, id) && id !in rows;
    EndedSchema(db, rows, how, now);
    forall id
      ensures LiveIn(d, id) <==> StartLogged(d.audit, id) && !EndLogged(d.audit, id)
      ensures id in d.sessions ==> StartLogged(d.audit, id)
    {
      LoggedCat(db.audit, EndEntries(db, rows, how), id);
      EndEntriesLog(db, rows, how, id);
    }
    forall id | LiveIn(d, id)
      ensures LeaseHolds(d, d.sessions[id])
    {
      assert LeaseHolds(db, db.sessions[id]);
    }
    SoundIsCore(d);
  }

  lemma EndRowsActors(db: Db, rows: seq<Id>, how: Ending)
    requires Schema(db) && forall id | id in rows :: id in db.sessions
    requires how.actor.Some? ==> how.actor.value in db.users
    ensures forall id | id in rows :: ActorOf(db, id, how) in db.users
  {
  }

  lemma EndedSchema(db: Db, rows: seq<Id>, how: Ending, now: int)
    requires Schema(db) && Lifecycles(db) && Administered(db) && EndsSession(how)
    requires forall id | id in rows :: id in db.sessions
    requires how.actor.Some? ==> how.actor.value in db.users
    ensures var d := db.(sessions := EndedSessions(db, rows, how, now), audit := db.audit + EndEntries(db, rows, how));
            Schema(d) && Lifecycles(d) && Administered(d)
  {
    hide UniqueColumns, Administered;
    var d := db.(sessions := EndedSessions(db, rows, how, now), audit := db.audit + EndEntries(db, rows, how));
    UniqueSame(db, d);
    forall e | e in d.audit
      ensures e.actor in db.users
    {
      if e !in db.audit {
        var i :| 0 <= i < |rows| && EndEntries(db, rows, how)[i] == e;
        assert rows[i] in rows && db.sessions[rows[i]].user in db.users;
      }
    }
    assert ForeignKeys(d);
    forall id | id in d.sessions
      ensures Lifecycle(d.sessions[id]) && AllowedReason(d.sessions[id].reason)
    {
      assert Lifecycle(db.sessions[id]) && AllowedReason(db.sessions[id].reason);
    }
    assert forall id :: LiveIn(d, id) ==> LiveIn(db, id) && d.sessions[id] == db.sessions[id];
  }

  lemma UniqueSame(db: Db, d: Db)
    requires d.users == db.users && d.accounts == db.accounts && d.assignments == db.assignments && d.devices == db.devices
    ensures UniqueColumns(db) <==> UniqueColumns(d)
    ensures Administered(db) <==> Administered(d)
  {
  }

  /** An entry that does not speak of a session. */
  predicate Aside(e: Audit) {
    e.entity != AccountSessions || e.action.Other?
  }

  lemma AuditSound(db: Db, e: Audit)
    requires Core(db) && e.actor in db.users && Aside(e)
    ensures Core(db.(audit := db.audit + [e]))
    ensures forall rows :: LeasesExcept(db.(audit := db.audit + [e]), rows) <==> LeasesExcept(db, rows)
  {
    hide UniqueColumns;
    var d := db.(audit := db.audit + [e]);
    UniqueSame(db, d);
    assert forall id :: LiveIn(d, id) <==> LiveIn(db, id);
    forall id
      ensures LiveIn(d, id) <==> StartLogged(d.audit, id) && !EndLogged(d.audit, id)
      ensures id in d.sessions ==> StartLogged(d.audit, id)
    {
      LoggedCat(db.audit, [e], id);
    }
    assert ForeignKeys(d);
    forall rows
      ensures LeasesExcept(d, rows) <==> LeasesExcept(db, rows)
    {
      assert forall s :: LeaseHolds(d, s) <==> LeaseHolds(db, s);
    }
  }

  /** The last step of most services: the changed tables are sound, and so is
      what the entry makes of them; an unknown actor undoes everything. */
  lemma LoggedSound(before: Db, changed: Db, actor: Id, action: Action, entity: Entity, id: Id)
    requires Sound(before) && Sound(changed) && Aside(Audit(actor, action, entity, id))
    ensures Sound(Transact(before, AddAudit(changed, actor, action, entity, id)).db)
  {
    SoundIsCore(changed);
    if actor in changed.users {
      AuditSound(changed, Audit(actor, action, entity, id));
      SoundIsCore(changed.(audit := changed.audit + [Audit(actor, action, entity, id)]));
    }
  }

  /** Ending one session inside a transaction. */
  lemma EndSound(db: Db, id: Id, how: Ending, now: int)
    requires Sound(db) && id in db.sessions
    requires (how.status.Ended? || how.status.Stale?) && Ends(how.action)
    ensures Sound(Transact(db, End(db, id, how, now)).db)
    ensures End(db, id, how, now).Done? ==> Sound(End(db, id, how, now).db) && !LiveIn(End(db, id, how, now).db, id)
    ensures End(db, id, how, now).Done? <==> AllowedReason(Some(how.reason)) && (how.actor.Some? ==> how.actor.value in db.users)
  {
    if AllowedReason(Some(how.reason)) && (how.actor.Some? ==> how.actor.value in db.users) {
      SoundIsCore(db);
      assert LeasesExcept(db, [id]) by {
        forall other | LiveIn(db, other) && other !in [id]
          ensures LeaseHolds(db, db.sessions[other])
        {
          assert other !in [];
        }
      }
      EndEachSound(db, [id], how, now);
      EndOne(db, id, how, now);
    }
  }

  lemma EndOne(db: Db, id: Id, how: Ending, now: int)
    requires id in db.sessions && EndEach(db, [id], how, now).Done?
    ensures EndEach(db, [id], how, now).db == End(db, id, how, now).db && End(db, id, how, now).Done?
  {
  }

  // ------------------------------------------------------------- lease service

  lemma ReapSound(db: Db, now: int, rows: seq<Id>)
    requires Sound(db) && Enumerates(rows, StaleIds(db, now))
    ensures var t := ReapStale(db, now, rows);
            && t.Done? && Sound(t.db)
            && t.db == db.(sessions := EndedSessions(db, rows, TIMED_OUT, now), audit := db.audit + EndEntries(db, rows, TIMED_OUT))
            && (forall id :: LiveIn(t.db, id) <==> LiveIn(db, id) && !IsStale(db.sessions[id], now))
  {
    SoundIsCore(db);
    assert LeasesExcept(db, rows) by {
      forall other | LiveIn(db, other) && other !in rows
        ensures LeaseHolds(db, db.sessions[other])
      {
        assert other !in [];
      }
    }
    EndEachSound(db, rows, TIMED_OUT, now);
  }

  /** The tables after a session started. */
  function Started(db: Db, id: Id, s: Session): (d: Db) {
    db.(sessions := db.sessions[id := s], audit := db.audit + [Audit(s.user, SessionStarted, AccountSessions, id)])
  }

  lemma StartAudited(db: Db, id: Id, s: Session)
    requires Audited(db) && Fresh(db, id) && Live(s)
    ensures Audited(Started(db, id, s))
  {
    var e := Audit(s.user, SessionStarted, AccountSessions, id);
    var d := Started(db, id, s);
    forall i
      ensures LiveIn(d, i) <==> StartLogged(d.audit, i) && !EndLogged(d.audit, i)
      ensures i in d.sessions ==> StartLogged(d.audit, i)
    {
      LoggedCat(db.audit, [e], i);
      assert StartLogged([e], i) <==> i == id by {
        assert e in [e];
      }
      assert LiveIn(d, i) <==> i == id || LiveIn(db, i);
    }
  }

  lemma StartCore(db: Db, id: Id, s: Session)
    requires Core(db) && Fresh(db, id) && Live(s) && Lifecycle(s) && LiveOn(db, s.account).None?
    requires s.user in db.users && s.account in db.accounts && s.device in db.devices
    ensures Core(Started(db, id, s))
  {
    hide UniqueColumns, Administered, Audited;
    var d := Started(db, id, s);
    UniqueSame(db, d);
    StartAudited(db, id, s);
    assert ForeignKeys(d);
    assert forall i | i in d.sessions :: i == id || i in db.sessions;
    assert Lifecycles(d) && Checks(d);
    assert Exclusive(d);
  }

  /** Starting a session where there is none keeps the database sound, and no
      constraint stands in its way. */
  lemma InsertSound(db: Db, now: int, user: Id, account: Id, device: Id, newId: Id)
    requires Sound(db) && Fresh(db, newId) && user in db.users && LiveOn(db, account).None?
    requires IsAvailable(db, account) && OwnsActiveDevice(db, user, device)
    ensures var t := InsertSession(db, now, user, account, device, newId);
            && t == Done(Started(db, newId, NewSession(user, account, device, now)), Lease(newId, false))
            && Sound(t.db)
  {
    hide Core, Sound, Schema, LiveOn;
    var d := Started(db, newId, NewSession(user, account, device, now));
    SoundIsCore(db);
    StartCore(db, newId, NewSession(user, account, device, now));
    SoundIsCore(d);
    forall id | LiveIn(d, id)
      ensures LeaseHolds(d, d.sessions[id])
    {
      if id != newId {
        assert id !in [] && LiveIn(db, id);
        assert LeaseHolds(db, db.sessions[id]);
      }
    }
  }

  predicate Past(s: Session, now: int) {
    s.startedAt < now - LEASE_LIMIT
  }

  /** The state `AcquireLease` works on after its own reaping. */
  function Reaped(db: Db, now: int, rows: seq<Id>): (d: Db)
    requires Enumerates(rows, StaleIds(db, now))
  {
    ReapStale(db, now, rows).db
  }

  /** Exactly when a lease is granted: the caller may have it, and the account
      is free, or held by the caller on the same device and still within four
      hours. A lease older than that is never replaced: writing its release
      reason fails the CHECK, and everything is rolled back. */
  lemma AcquireSucceedsIff(db: Db, now: int, user: Id, account: Id, device: Id, newId: Id, rows: seq<Id>)
    requires Sound(db) && Enumerates(rows, StaleIds(db, now)) && Fresh(db, newId)
    ensures Exclusive(Reaped(db, now, rows))
    ensures var d := Reaped(db, now, rows);
            var t := AcquireLease(db, now, user, account, device, newId, rows);
            && (t.Done? <==>
                  && Authorized(db, user, account, now) && OwnsActiveDevice(db, user, device) && IsAvailable(db, account)
                  && match LiveOn(d, account)
                     case None => true
                     case Some(active) => !Past(d.sessions[active], now) && d.sessions[active].user == user && d.sessions[active].device == device)
            && Sound(t.db)
            && (t.Throw? ==> t.db == db && t.error != ConstraintFailed(ExclusiveSession))
            && (t == Throw(db, ConstraintFailed(CheckReason)) <==>
                  && Authorized(db, user, account, now) && OwnsActiveDevice(db, user, device) && IsAvailable(db, account)
                  && LiveOn(d, account).Some? && Past(d.sessions[LiveOn(d, account).value], now))
            && (t.Done? ==> LiveIn(t.db, t.value.session)
                            && t.db.sessions[t.value.session].user == user && t.db.sessions[t.value.session].account == account
                            && t.db.sessions[t.value.session].device == device
                            && t.db.sessions[t.value.session].startedAt >= now - LEASE_LIMIT)
  {
    hide Sound, Fresh, LiveOn, EndEach, EndedSessions, EndEntries;
    ReapSound(db, now, rows);
    var d := Reaped(db, now, rows);
    SoundIsSchema(d);
    FreshStays(db, now, rows, newId);
    if Authorized(db, user, account, now) && OwnsActiveDevice(db, user, device) && IsAvailable(db, account) {
      DeviceUserExists(d, user, device);
      match LiveOn(d, account)
      case None =>
        InsertSound(d, now, user, account, device, newId);
        NewIsLive(d, now, user, account, device, newId);
      case Some(active) =>
    }
  }

  /** What a granted lease leaves: the reaped tables, with a new session on them
      if the account was free. */
  lemma AcquireLeaves(db: Db, now: int, user: Id, account: Id, device: Id, newId: Id, rows: seq<Id>)
    requires Sound(db) && Enumerates(rows, StaleIds(db, now)) && Fresh(db, newId)
    ensures var d := Reaped(db, now, rows);
            var t := AcquireLease(db, now, user, account, device, newId, rows);
            && Exclusive(d) && Fresh(d, newId) && newId !in d.sessions
            && (t.Throw? ==> t.db == db)
            && (t.Done? ==> Authorized(db, user, account, now)
                            && t.db == if LiveOn(d, account).None? then Started(d, newId, NewSession(user, account, device, now)) else d)
  {
    hide Sound, LiveOn, EndEach, EndedSessions, EndEntries, End, Enumerates, StaleIds, Schema, Exclusive;
    SoundIsExclusive(db);
    AcquireSucceedsIff(db, now, user, account, device, newId, rows);
    ReapSound(db, now, rows);
    FreshStays(db, now, rows, newId);
    hide Fresh;
    var d := Reaped(db, now, rows);
    SoundIsSchema(d);
    NewIsAbsent(d, newId);
    if AcquireLease(db, now, user, account, device, newId, rows).Done? && LiveOn(d, account).None? {
      DeviceUserExists(d, user, device);
      InsertSound(d, now, user, account, device, newId);
    }
  }

  lemma SoundIsExclusive(db: Db)
    requires Sound(db)
    ensures Exclusive(db)
  {
  }

  lemma NewIsAbsent(db: Db, newId: Id)
    requires Fresh(db, newId) && Schema(db)
    ensures newId !in db.sessions && Exclusive(db)
  {
  }

  /** The CHECK alone is in the way: a lease past its limit is replaced if and
      only if the reason noted for it is one the CHECK knows. */
  lemma ReplacedIffReasonAllowed(db: Db, now: int, user: Id, account: Id, device: Id, newId: Id, outlived: Reason)
    requires Sound(db) && Fresh(db, newId) && IsAvailable(db, account) && OwnsActiveDevice(db, user, device)
    requires Exclusive(db) && LiveOn(db, account).Some? && Past(db.sessions[LiveOn(db, account).value], now)
    ensures var t := Contend(db, now, user, account, device, newId, outlived);
            && (t.Done? <==> AllowedReason(Some(outlived)))
            && (t.Done? ==> Sound(t.db) && t.value == Lease(newId, false) && LiveIn(t.db, newId) && !LiveIn(t.db, LiveOn(db, account).value))
  {
    hide Sound, Schema, Fresh, End, LiveOn, Exclusive, AllowedReason;
    SoundIsSchema(db);
    DeviceUserExists(db, user, device);
    var active := LiveOn(db, account).value;
    var how := Ending(Stale, outlived, SessionReaped, Some(user));
    EndSound(db, active, how, now);
    if AllowedReason(Some(outlived)) {
      var d := End(db, active, how, now).db;
      AfterEnd(db, active, how, now, newId);
      SoundIsSchema(d);
      assert LiveOn(d, account).None?;
      InsertSound(d, now, user, account, device, newId);
      assert LiveIn(Started(d, newId, NewSession(user, account, device, now)), newId);
    }
  }

  lemma AfterEnd(db: Db, id: Id, how: Ending, now: int, newId: Id)
    requires Schema(db) && Fresh(db, newId) && LiveIn(db, id) && End(db, id, how, now).Done? && (how.status.Ended? || how.status.Stale?)
    ensures var d := End(db, id, how, now).db;
            && d.users == db.users && d.accounts == db.accounts && d.devices == db.devices
            && (forall i :: LiveIn(d, i) <==> LiveIn(db, i) && i != id)
            && (forall i | LiveIn(d, i) :: d.sessions[i].account != db.sessions[id].account)
            && Fresh(d, newId) && id != newId
  {
    hide ForeignKeys, UniqueColumns, Checks;
  }

  lemma SoundIsSchema(db: Db)
    requires Sound(db)
    ensures Schema(db)
  {
  }

  lemma NewIsLive(db: Db, now: int, user: Id, account: Id, device: Id, newId: Id)
    ensures Live(NewSession(user, account, device, now)) && NewSession(user, account, device, now).startedAt >= now - LEASE_LIMIT
  {
  }

  lemma DeviceUserExists(db: Db, user: Id, device: Id)
    requires Schema(db) && OwnsActiveDevice(db, user, device)
    ensures user in db.users
  {
  }

  lemma FreshStays(db: Db, now: int, rows: seq<Id>, newId: Id)
    requires Sound(db) && Enumerates(rows, StaleIds(db, now)) && Fresh(db, newId)
    ensures Fresh(Reaped(db, now, rows), newId)
  {
    hide Sound;
    ReapSound(db, now, rows);
    var d := Reaped(db, now, rows);
    forall e | e in d.audit
      ensures e.id != newId
    {
      if e !in db.audit {
        var i :| 0 <= i < |rows| && EndEntries(db, rows, TIMED_OUT)[i] == e;
        assert rows[i] in rows;
      }
    }
  }

  lemma ReleaseSound(db: Db, now: int, actor: Actor, session: Id, reason: Reason)
    requires Sound(db)
    ensures Sound(ReleaseLease(db, now, actor, session, reason).db)
  {
    hide Sound, End;
    if session in db.sessions {
      var forced := actor.role.Admin? && db.sessions[session].user != actor.id;
      EndSound(db, session, Ending(Ended, if forced then AdminForceRelease else reason, SessionEnded, Some(actor.id)), now);
    }
  }

  lemma HeartbeatSound(db: Db, now: int, user: Id, session: Id, runtime: RuntimeState)
    requires Sound(db) && (LiveIn(db, session) ==> db.sessions[session].startedAt <= now)
    ensures Sound(HeartbeatLease(db, now, user, session, runtime).db)
  {
    hide End;
    if session in db.sessions {
      EndSound(db, session, Ending(Ended, ErrorReason, SessionEnded, Some(user)), now);
      EndSound(db, session, Ending(Ended, ProcessExit, SessionEnded, Some(user)), now);
      var t := HeartbeatLease(db, now, user, session, runtime);
      if t.Done? && Authorized(db, user, db.sessions[session].account, now) && !runtime.Exited? {
        BeatSound(db, session, t.db.sessions[session]);
      }
    }
  }

  predicate SameHolder(s: Session, t: Session) {
    s.account == t.account && s.user == t.user && s.device == t.device
  }

  lemma BeatCore(db: Db, id: Id, row: Session)
    requires Core(db) && LiveIn(db, id) && Live(row) && Lifecycle(row) && SameHolder(row, db.sessions[id])
    ensures Core(db.(sessions := db.sessions[id := row]))
  {
    hide UniqueColumns, StartLogged, EndLogged, Administered;
    var d := db.(sessions := db.sessions[id := row]);
    UniqueSame(db, d);
    assert forall i :: LiveIn(d, i) <==> LiveIn(db, i);
    assert ForeignKeys(d);
    assert Exclusive(d);
    assert Checks(d) && Lifecycles(d);
  }

  /** Changing a live session without moving or ending it. */
  lemma BeatSound(db: Db, id: Id, row: Session)
    requires Sound(db) && LiveIn(db, id) && Live(row) && Lifecycle(row) && SameHolder(row, db.sessions[id])
    ensures Sound(db.(sessions := db.sessions[id := row]))
  {
    hide Core, Sound;
    SoundIsCore(db);
    BeatCore(db, id, row);
    var d := db.(sessions := db.sessions[id := row]);
    forall i | LiveIn(d, i)
      ensures LeaseHolds(d, d.sessions[i])
    {
      assert i !in [] && LiveIn(db, i);
      assert LeaseHolds(db, db.sessions[i]);
    }
    SoundIsCore(d);
  }

  lemma ForceReleaseSound(db: Db, now: int, actor: Actor, account: Id)
    requires Sound(db)
    ensures Sound(ForceReleaseAccount(db, now, actor, account).db)
  {
    hide Sound, End, LiveOn;
    SoundIsSchema(db);
    if actor.role.Admin? {
      match LiveOn(db, account)
      case None => LoggedSound(db, db, actor.id, SessionEnded, Accounts, account);
      case Some(session) =>
        var how := Ending(Ended, AdminForceRelease, SessionEnded, Some(actor.id));
        EndSound(db, session, how, now);
        if End(db, session, how, now).Done? {
          LoggedSound(db, End(db, session, how, now).db, actor.id, SessionEnded, Accounts, account);
        }
    }
  }

  // ------------------------------------------------- the other four services

  /** What looks at the sessions and the log alone. */
  lemma SameSessions(db: Db, d: Db)
    requires d.sessions == db.sessions && d.audit == db.audit
    ensures Exclusive(d) <==> Exclusive(db)
    ensures Checks(d) <==> Checks(db)
    ensures Lifecycles(d) <==> Lifecycles(db)
    ensures Audited(d) <==> Audited(db)
  {
    assert forall id :: LiveIn(d, id) <==> LiveIn(db, id);
  }

  lemma AssignUnique(db: Db, id: Id, row: Assignment)
    requires UniqueColumns(db)
    requires AssignmentOf(db, row.account, row.user) == Some(id) || (AssignmentOf(db, row.account, row.user).None? && id !in db.assignments)
    ensures UniquePairs(db.assignments[id := row])
  {
    forall i | i in db.assignments && i != id
      ensures !(db.assignments[i].account == row.account && db.assignments[i].user == row.user)
    {
    }
  }

  lemma AssignSound(db: Db, id: Id, row: Assignment)
    requires Sound(db) && row.account in db.accounts && row.user in db.users
    requires AssignmentOf(db, row.account, row.user) == Some(id) || (AssignmentOf(db, row.account, row.user).None? && id !in db.assignments)
    ensures Sound(db.(assignments := db.assignments[id := row]))
  {
    hide Exclusive, Checks, Lifecycles, Audited, UniqueEmails, UniqueExternalIds, UniquePairs, UniqueKeys, AssignmentOf;
    var d := db.(assignments := db.assignments[id := row]);
    SameSessions(db, d);
    AssignUnique(db, id, row);
    assert forall i :: LiveIn(d, i) <==> LiveIn(db, i);
    assert ForeignKeys(d);
  }

  lemma AddAssignmentSound(db: Db, actor: Id, account: Id, user: Id, expiresAt: Option<int>, newId: Id)
    requires Sound(db) && Fresh(db, newId)
    ensures Sound(AddAssignment(db, actor, account, user, expiresAt, newId).db)
  {
    hide AssignmentOf;
    if account in db.accounts && user in db.users {
      var existing := AssignmentOf(db, account, user);
      var id := if existing.Some? then existing.value else newId;
      var row := Assignment(account, user, Assigned, expiresAt);
      AssignSound(db, id, row);
      hide Sound;
      LoggedSound(db, db.(assignments := db.assignments[id := row]), actor, Other("ASSIGNMENT_UPDATED"), Assignments, id);
    }
  }

  lemma RevokeAssignmentSound(db: Db, now: int, actor: Id, account: Id, user: Id)
    requires Sound(db)
    ensures Sound(RevokeAssignment(db, now, actor, account, user).db)
  {
    hide AssignmentOf, LiveOn, End;
    var existing := AssignmentOf(db, account, user);
    if existing.Some? && actor in db.users {
      var id := existing.value;
      var row := db.assignments[id].(status := Revoked);
      AssignRowSound(db, id, row);
      hide Sound;
      var revoked := db.(assignments := db.assignments[id := row]);
      LoggedSound(db, revoked, actor, Other("ASSIGNMENT_REVOKED"), Assignments, id);
      var d := AddAudit(revoked, actor, Other("ASSIGNMENT_REVOKED"), Assignments, id).db;
      var session := SessionOf(db, account, user);
      if session.Some? {
        EndSound(d, session.value, Ending(Ended, AdminForceRelease, SessionEnded, Some(actor)), now);
      }
    }
  }

  lemma AssignRowSound(db: Db, id: Id, row: Assignment)
    requires Sound(db) && id in db.assignments && row.account == db.assignments[id].account && row.user == db.assignments[id].user
    ensures Sound(db.(assignments := db.assignments[id := row]))
  {
    assert AssignmentOf(db, row.account, row.user).Some?;
    AssignSound(db, id, row);
  }

  lemma AccountUnique(db: Db, id: Id, row: Account)
    requires UniqueExternalIds(db.accounts) && !ExternalIdTaken(db, row.externalId, Some(id))
    ensures UniqueExternalIds(db.accounts[id := row])
  {
  }

  lemma AccountRowSound(db: Db, id: Id, row: Account)
    requires Sound(db) && !ExternalIdTaken(db, row.externalId, Some(id))
    requires id in db.accounts && !row.status.Available? && db.accounts[id].status.Available? ==> LiveOn(db, id).None?
    requires id !in db.accounts ==> Fresh(db, id)
    ensures Sound(db.(accounts := db.accounts[id := row]))
  {
    hide Exclusive, Checks, Lifecycles, Audited, UniqueEmails, UniqueExternalIds, UniquePairs, UniqueKeys, ExternalIdTaken;
    var d := db.(accounts := db.accounts[id := row]);
    SameSessions(db, d);
    AccountUnique(db, id, row);
    assert forall i :: LiveIn(d, i) <==> LiveIn(db, i);
    assert ForeignKeys(d);
    forall s | LiveIn(d, s)
      ensures LeaseHolds(d, d.sessions[s])
    {
      assert LiveIn(db, s);
    }
  }

  lemma CreateAccountSound(db: Db, actor: Id, externalId: string, status: AccountStatus, newId: Id)
    requires Sound(db) && Fresh(db, newId)
    ensures Sound(CreateAccount(db, actor, externalId, status, newId).db)
  {
    if !ExternalIdTaken(db, externalId, None) {
      AccountRowSound(db, newId, Account(externalId, status));
      hide Sound;
      LoggedSound(db, db.(accounts := db.accounts[newId := Account(externalId, status)]), actor, Other("ACCOUNT_CREATED"), Accounts, newId);
    }
  }

  lemma UpdateAccountSound(db: Db, actor: Id, account: Id, externalId: Option<string>, status: Option<AccountStatus>)
    requires Sound(db)
    ensures Sound(UpdateAccount(db, actor, account, externalId, status).db)
  {
    hide LiveOn;
    if account in db.accounts {
      var current := db.accounts[account];
      var row := Account(if externalId.Some? then externalId.value else current.externalId,
                         if status.Some? then status.value else current.status);
      if UpdateAccount(db, actor, account, externalId, status).Done? {
        AccountRowSound(db, account, row);
        hide Sound;
        LoggedSound(db, db.(accounts := db.accounts[account := row]), actor, Other("ACCOUNT_UPDATED"), Accounts, account);
      }
    }
  }

  lemma WithoutAccountSound(db: Db, account: Id)
    requires Sound(db) && LiveOn(db, account).None?
    ensures Sound(WithoutAccount(db, account))
  {
    hide StartLogged, EndLogged, UniqueEmails, UniqueKeys, LiveOn;
    var d := WithoutAccount(db, account);
    assert forall i :: LiveIn(d, i) <==> LiveIn(db, i);
    assert ForeignKeys(d);
    assert UniqueColumns(d);
    hide UniqueColumns, ForeignKeys;
    assert forall s | s in d.sessions :: s in db.sessions && d.sessions[s] == db.sessions[s];
    assert Lifecycles(d) && Checks(d);
    assert Exclusive(d);
    assert Audited(d);
    assert Leases(d);
  }

  lemma DeleteAccountSound(db: Db, actor: Id, account: Id)
    requires Sound(db)
    ensures Sound(DeleteAccount(db, actor, account).db)
  {
    hide LiveOn, WithoutAccount;
    if account in db.accounts && LiveOn(db, account).None? {
      WithoutAccountSound(db, account);
      hide Sound;
      LoggedSound(db, WithoutAccount(db, account), actor, Other("ACCOUNT_DELETED"), Accounts, account);
    }
  }

  lemma DeviceUnique(db: Db, id: Id, row: Device)
    requires UniqueColumns(db)
    requires id in db.devices ==> row.user == db.devices[id].user && row.publicKey == db.devices[id].publicKey
    requires id !in db.devices ==> DeviceOf(db, row.user, row.publicKey).None?
    ensures UniqueKeys(db.devices[id := row])
  {
    forall i | i in db.devices && i != id
      ensures !(db.devices[i].user == row.user && db.devices[i].publicKey == row.publicKey)
    {
    }
  }

  /** Changing a device keeps everything but, when it is taken away, the leases on it. */
  lemma DeviceRowSound(db: Db, id: Id, row: Device, rows: seq<Id>)
    requires Core(db) && row.user in db.users && LeasesExcept(db, [])
    requires id in db.devices ==> row.user == db.devices[id].user && row.publicKey == db.devices[id].publicKey
    requires id !in db.devices ==> DeviceOf(db, row.user, row.publicKey).None?
    requires id in db.devices && !row.active ==> forall s :: LiveIn(db, s) && db.sessions[s].device == id ==> s in rows
    ensures Core(db.(devices := db.devices[id := row]))
    ensures LeasesExcept(db.(devices := db.devices[id := row]), rows)
  {
    hide Exclusive, Checks, Lifecycles, Audited, UniqueEmails, UniqueExternalIds, UniquePairs, UniqueKeys, DeviceOf;
    var d := db.(devices := db.devices[id := row]);
    SameSessions(db, d);
    DeviceUnique(db, id, row);
    assert ForeignKeys(d);
    forall s | LiveIn(d, s) && s !in rows
      ensures LeaseHolds(d, d.sessions[s])
    {
      assert s !in [] && LiveIn(db, s);
      assert LeaseHolds(db, db.sessions[s]);
    }
  }

  lemma RegisterDeviceSound(db: Db, user: Id, publicKey: string, newId: Id)
    requires Sound(db) && Fresh(db, newId)
    ensures Sound(RegisterDevice(db, user, publicKey, newId).db)
  {
    hide DeviceOf;
    if DeviceOf(db, user, publicKey).None? && user in db.users {
      SoundIsCore(db);
      var d := db.(devices := db.devices[newId := Device(user, publicKey, true)]);
      DeviceRowSound(db, newId, Device(user, publicKey, true), []);
      SoundIsCore(d);
      hide Sound;
      LoggedSound(db, d, user, Other("DEVICE_REGISTERED"), Devices, newId);
    }
  }

  lemma ApproveDeviceSound(db: Db, actor: Id, device: Id)
    requires Sound(db)
    ensures Sound(ApproveDevice(db, actor, device).db)
  {
    if device in db.devices {
      SoundIsCore(db);
      var row := db.devices[device].(active := true);
      var d := db.(devices := db.devices[device := row]);
      DeviceRowSound(db, device, row, []);
      SoundIsCore(d);
      hide Sound;
      LoggedSound(db, d, actor, Other("DEVICE_APPROVED"), Devices, device);
    }
  }

  lemma RowUser(db: Db, device: Id)
    requires Core(db) && device in db.devices
    ensures db.devices[device].user in db.users
  {
  }

  /** Revoking a device first leaves its leases without one; ending them all in
      the same transaction makes up for it. */
  lemma RevokeDeviceSound(db: Db, now: int, actor: Id, device: Id, rows: seq<Id>)
    requires Sound(db) && Enumerates(rows, SessionsOn(db, device))
    ensures Sound(RevokeDevice(db, now, actor, device, rows).db)
  {
    hide Core, LeasesExcept, Sound, EndEach;
    if device in db.devices && actor in db.users {
      SoundIsCore(db);
      RowUser(db, device);
      var row := db.devices[device].(active := false);
      var revoked := db.(devices := db.devices[device := row]);
      assert forall s :: LiveIn(db, s) && db.sessions[s].device == device ==> s in SessionsOn(db, device);
      DeviceRowSound(db, device, row, rows);
      assert LeasesExcept(revoked, rows);
      var e := Audit(actor, Other("DEVICE_REVOKED"), Devices, device);
      AuditSound(revoked, e);
      EndEachSound(revoked.(audit := revoked.audit + [e]), rows, Ending(Ended, ErrorReason, SessionEnded, Some(actor)), now);
    }
  }

  lemma UserUnique(users: map<Id, User>, id: Id, row: User)
    requires UniqueEmails(users)
    requires id in users ==> row.email == users[id].email
    requires id !in users ==> forall u | u in users :: users[u].email != row.email
    ensures UniqueEmails(users[id := row])
  {
  }

  lemma UserRowSound(db: Db, id: Id, row: User)
    requires Core(db)
    requires id in db.users ==> row.email == db.users[id].email
    requires id !in db.users ==> forall u | u in db.users :: db.users[u].email != row.email
    requires id in db.users && ActiveAdmin(db.users[id]) && !ActiveAdmin(row) ==> |ActiveAdmins(db)| > 1
    ensures Core(db.(users := db.users[id := row]))
    ensures LeasesExcept(db.(users := db.users[id := row]), []) <==> LeasesExcept(db, [])
  {
    hide Exclusive, Checks, Lifecycles, Audited, UniqueEmails, UniqueExternalIds, UniquePairs, UniqueKeys, Administered, ActiveAdmin, ActiveAdmins;
    var d := db.(users := db.users[id := row]);
    SameSessions(db, d);
    UserUnique(db.users, id, row);
    assert forall i :: LiveIn(d, i) <==> LiveIn(db, i);
    assert ForeignKeys(d);
    assert forall s :: LeaseHolds(d, s) <==> LeaseHolds(db, s);
    AnotherAdmin(db, id, row);
  }

  lemma AnotherAdmin(db: Db, id: Id, row: User)
    requires Administered(db)
    requires id in db.users && ActiveAdmin(db.users[id]) && !ActiveAdmin(row) ==> |ActiveAdmins(db)| > 1
    ensures Administered(db.(users := db.users[id := row]))
  {
    var d := db.(users := db.users[id := row]);
    if id in db.users && ActiveAdmin(db.users[id]) && !ActiveAdmin(row) {
      var others := ActiveAdmins(db) - {id};
      assert ActiveAdmins(db) == others + {id};
      assert others != {};
      var u :| u in others;
      assert u in d.users && ActiveAdmin(d.users[u]);
    } else {
      var u :| u in db.users && ActiveAdmin(db.users[u]);
      assert u in d.users && (ActiveAdmin(d.users[u]) || u == id);
    }
  }

  lemma CreateUserSound(db: Db, actor: Id, email: string, role: Role, newId: Id)
    requires Sound(db) && Fresh(db, newId)
    ensures Sound(CreateUser(db, actor, email, role, newId).db)
  {
    if !(exists u | u in db.users :: db.users[u].email == email) {
      SoundIsCore(db);
      var d := db.(users := db.users[newId := User(email, role, UserActive)]);
      UserRowSound(db, newId, User(email, role, UserActive));
      SoundIsCore(d);
      hide Sound;
      LoggedSound(db, d, actor, Other("USER_CREATED"), Users, newId);
    }
  }

  lemma UpdateUserSound(db: Db, now: int, actor: Id, user: Id, role: Option<Role>, status: Option<UserStatus>, rows: seq<Id>)
    requires Sound(db) && Enumerates(rows, SessionsBy(db, user))
    ensures Sound(UpdateUser(db, now, actor, user, role, status, rows).db)
  {
    hide EndEach, Core, LeasesExcept, UpdatedUser;
    SoundIsCore(db);
    if UpdateUser(db, now, actor, user, role, status, rows).Done? {
      var row := UpdatedUser(db.users[user], role, status);
      UpdatedUserKeeps(db.users[user], role, status);
      var updated := db.(users := db.users[user := row]);
      UserRowSound(db, user, row);
      var how := Ending(Ended, ErrorReason, SessionEnded, Some(actor));
      if Deactivates(status) {
        AnyRows(updated, rows);
        UpdateUserActor(db, now, actor, user, role, status, rows);
        EndEachSound(updated, rows, how, now);
        hide Sound;
        LoggedSound(db, EndEach(updated, rows, how, now).db, actor, Other("USER_UPDATED"), Users, user);
      } else {
        SoundIsCore(updated);
        hide Sound;
        LoggedSound(db, updated, actor, Other("USER_UPDATED"), Users, user);
      }
    }
  }

  lemma AnyRows(db: Db, rows: seq<Id>)
    requires LeasesExcept(db, [])
    ensures LeasesExcept(db, rows)
  {
    forall id | LiveIn(db, id) && id !in rows
      ensures LeaseHolds(db, db.sessions[id])
    {
      assert id !in [];
    }
  }

  lemma UpdatedUserKeeps(u: User, role: Option<Role>, status: Option<UserStatus>)
    ensures UpdatedUser(u, role, status).email == u.email
    ensures ActiveAdmin(u) && !ActiveAdmin(UpdatedUser(u, role, status)) ==> role == Some(Operator) || Deactivates(status)
  {
  }

  /** The final entry was accepted, so the actor exists. */
  lemma UpdateUserActor(db: Db, now: int, actor: Id, user: Id, role: Option<Role>, status: Option<UserStatus>, rows: seq<Id>)
    requires Enumerates(rows, SessionsBy(db, user)) && UpdateUser(db, now, actor, user, role, status, rows).Done?
    ensures actor in db.users
  {
    var updated := db.(users := db.users[user := UpdatedUser(db.users[user], role, status)]);
    EndEachShrinks(updated, rows, Ending(Ended, ErrorReason, SessionEnded, Some(actor)), now);
  }
}
