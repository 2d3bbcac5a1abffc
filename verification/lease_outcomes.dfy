/** What each transaction is for: when it succeeds, which leases it ends, and
    what its caller may count on afterwards. */
module LeaseOutcomes {
  import opened Wrappers
  import opened LeaseDb
  import opened LeaseServices
  import opened LeaseInvariants

  /** Exactly the live sessions outside `gone` stay live, and no row outside
      `gone` changes, whether it is live or not. */
  ghost predicate EndsExactly(db: Db, d: Db, gone: set<Id>) {
    && (forall id :: LiveIn(d, id) <==> LiveIn(db, id) && id !in gone)
    && (forall id | id in d.sessions && id !in gone :: id in db.sessions && d.sessions[id] == db.sessions[id])
  }

  lemma EndIs(db: Db, id: Id, how: Ending, now: int)
    requires id in db.sessions && (how.status.Ended? || how.status.Stale?) && End(db, id, how, now).Done?
    ensures EndsExactly(db, End(db, id, how, now).db, {id})
    ensures var d := End(db, id, how, now).db;
            d.users == db.users && d.accounts == db.accounts && d.assignments == db.assignments && d.devices == db.devices
  {
  }

  lemma AddAuditIs(db: Db, actor: Id, action: Action, entity: Entity, id: Id)
    ensures var t := AddAudit(db, actor, action, entity, id);
            && (t.Done? <==> actor in db.users)
            && (t.Done? ==> t.db == db.(audit := db.audit + [Audit(actor, action, entity, id)]))
            && t.db.(audit := []) == db.(audit := [])
            && EndsExactly(db, t.db, {})
  {
  }

  lemma SoundUser(db: Db, session: Id)
    requires Sound(db) && session in db.sessions
    ensures db.sessions[session].user in db.users
  {
  }

  /** A heartbeat of the holder buys exactly two minutes, or five while Riot
      reconnects; without the right to the account, or once Riot is gone, it ends
      the lease instead. */
  lemma HeartbeatBuysTime(db: Db, now: int, user: Id, session: Id, runtime: RuntimeState)
    requires Sound(db) && LiveIn(db, session)
    ensures var s := db.sessions[session];
            var t := HeartbeatLease(db, now, user, session, runtime);
            && (t.Done? <==> s.user == user && !s.status.Stopping?)
            && (t.Done? ==> (t.value == Released <==> !Authorized(db, user, s.account, now)))
            && (t.Done? ==> (LiveIn(t.db, session) <==> Authorized(db, user, s.account, now) && !runtime.Exited?))
            && (t.Done? && !LiveIn(t.db, session) ==> EndsExactly(db, t.db, {session}))
            && (t.Done? ==> t.db.assignments == db.assignments)
            && (t.Done? && LiveIn(t.db, session) ==>
                  && t.db == db.(sessions := db.sessions[session := t.db.sessions[session]])
                  && t.db.sessions[session].runtime == runtime && SameHolder(t.db.sessions[session], s)
                  && forall later :: IsStale(t.db.sessions[session], later) <==>
                                     later > now + HEARTBEAT_LIMIT && (runtime.Reconnecting? ==> later >= now + GRACE))
  {
    SoundUser(db, session);
    hide Sound, Authorized, EndsExactly, AddAudit;
    var s := db.sessions[session];
    if s.user == user && !s.status.Stopping? {
      var authorized := Authorized(db, user, s.account, now);
      if !authorized || runtime.Exited? {
        var how := Ending(Ended, if authorized then ProcessExit else ErrorReason, SessionEnded, Some(user));
        EndSucceedsIff(db, session, how, now);
        hide End;
      }
    }
  }

  lemma EndSucceedsIff(db: Db, id: Id, how: Ending, now: int)
    requires id in db.sessions && (how.status.Ended? || how.status.Stale?)
    ensures End(db, id, how, now).Done? <==> AllowedReason(Some(how.reason)) && ActorOf(db, id, how) in db.users
    ensures End(db, id, how, now).Done? ==> EndsExactly(db, End(db, id, how, now).db, {id}) && !LiveIn(End(db, id, how, now).db, id)
    ensures End(db, id, how, now).db.assignments == db.assignments
  {
    if End(db, id, how, now).Done? {
      EndIs(db, id, how, now);
    }
  }

  /** A release needs the holder or an admin, and a reason both the request
      schema and the CHECK know: `lease_timeout` passes the first and fails the
      second. It does not need the session to be live. */
  lemma ReleaseSucceedsIff(db: Db, now: int, actor: Actor, session: Id, reason: Reason)
    ensures var t := ReleaseLease(db, now, actor, session, reason);
            && (t.Done? <==>
                  && Releasable(reason) && session in db.sessions && actor.id in db.users
                  && (db.sessions[session].user == actor.id || actor.role.Admin?)
                  && (reason.LeaseTimeout? ==> db.sessions[session].user != actor.id))
            && (t.Done? ==> EndsExactly(db, t.db, {session}))
            && (t.Done? ==> t.db.assignments == db.assignments)
  {
    hide End, AddAudit;
    if session in db.sessions {
      var forced := actor.role.Admin? && db.sessions[session].user != actor.id;
      var how := Ending(Ended, if forced then AdminForceRelease else reason, SessionEnded, Some(actor.id));
      EndSucceedsIff(db, session, how, now);
    }
  }

  /** A forced release leaves nobody on the account, and everybody else alone. */
  lemma ForceReleaseFreesTheAccount(db: Db, now: int, actor: Actor, account: Id)
    requires Exclusive(db)
    ensures var t := ForceReleaseAccount(db, now, actor, account);
            && (t.Done? <==> actor.role.Admin? && actor.id in db.users)
            && (t.Done? ==> EndsExactly(db, t.db, set id | id in db.sessions && LiveIn(db, id) && db.sessions[id].account == account))
            && (t.Done? ==> t.db.assignments == db.assignments)
  {
    hide LiveOn, End;
    var all := set id | id in db.sessions && LiveIn(db, id) && db.sessions[id].account == account;
    match LiveOn(db, account)
    case None => AddAuditIs(db, actor.id, SessionEnded, Accounts, account);
    case Some(session) =>
      var how := Ending(Ended, AdminForceRelease, SessionEnded, Some(actor.id));
      EndSucceedsIff(db, session, how, now);
      if End(db, session, how, now).Done? {
        var d := End(db, session, how, now).db;
        EndIs(db, session, how, now);
        AddAuditIs(d, actor.id, SessionEnded, Accounts, account);
        assert all == {session};
      }
  }

  /** An assignment lets an operator in until it expires, and is refused to
      admins, inactive users and accounts that are not available. */
  lemma AssignmentAuthorizes(db: Db, actor: Id, account: Id, user: Id, expiresAt: Option<int>, newId: Id)
    requires UniqueColumns(db) && newId !in db.assignments
    ensures var t := AddAssignment(db, actor, account, user, expiresAt, newId);
            && (t.Done? <==>
                  && actor in db.users && IsAvailable(db, account)
                  && user in db.users && db.users[user].status.UserActive? && !db.users[user].role.Admin?)
            && (t.Done? ==> forall at :: ValidlyAssigned(t.db, user, account, at) <==> expiresAt.None? || at < expiresAt.value)
            && EndsExactly(db, t.db, {})
  {
    hide AssignmentOf;
    var existing := AssignmentOf(db, account, user);
    var id := if existing.Some? then existing.value else newId;
    var changed := db.(assignments := db.assignments[id := Assignment(account, user, Assigned, expiresAt)]);
    AddAuditIs(changed, actor, Other("ASSIGNMENT_UPDATED"), Assignments, id);
    assert EndsExactly(db, db, {});
    assert EndsExactly(db, changed, {});
    var t := AddAssignment(db, actor, account, user, expiresAt, newId);
    if t.Done? {
      forall at
        ensures ValidlyAssigned(t.db, user, account, at) <==> expiresAt.None? || at < expiresAt.value
      {
        OnlyAssignment(db, account, user, id, expiresAt, at);
        assert t.db.assignments == changed.assignments;
      }
    }
  }

  lemma OnlyAssignment(db: Db, account: Id, user: Id, id: Id, expiresAt: Option<int>, at: int)
    requires UniqueColumns(db)
    requires AssignmentOf(db, account, user) == Some(id) || (AssignmentOf(db, account, user).None? && id !in db.assignments)
    ensures ValidlyAssigned(db.(assignments := db.assignments[id := Assignment(account, user, Assigned, expiresAt)]), user, account, at)
            <==> expiresAt.None? || at < expiresAt.value
  {
    hide AssignmentOf;
    var d := db.(assignments := db.assignments[id := Assignment(account, user, Assigned, expiresAt)]);
    assert id in d.assignments;
    forall a | a in d.assignments && d.assignments[a].account == account && d.assignments[a].user == user
      ensures a == id
    {
    }
  }

  lemma ThenEnds(db: Db, d: Db, e: Db, gone: set<Id>)
    requires EndsExactly(db, d, {}) && EndsExactly(d, e, gone)
    ensures EndsExactly(db, e, gone)
  {
  }

  lemma SameSessionsEndNone(db: Db, d: Db)
    requires d.sessions == db.sessions
    ensures EndsExactly(db, d, {})
  {
  }

  function SessionsOfPair(db: Db, account: Id, user: Id): (ids: set<Id>) {
    set id | id in db.sessions && LiveIn(db, id) && db.sessions[id].account == account && db.sessions[id].user == user
  }

  lemma SessionOfPair(db: Db, account: Id, user: Id)
    requires Exclusive(db)
    ensures SessionsOfPair(db, account, user) == if SessionOf(db, account, user).Some? then {SessionOf(db, account, user).value} else {}
  {
  }

  /** Revoking it shuts an operator out at once: no right to the account at any
      time, and no lease on it. */
  lemma RevocationShutsOut(db: Db, now: int, actor: Id, account: Id, user: Id)
    requires UniqueColumns(db) && Exclusive(db)
    ensures var t := RevokeAssignment(db, now, actor, account, user);
            && (t.Done? <==> AssignmentOf(db, account, user).Some? && actor in db.users)
            && (t.Done? ==> (forall at :: !ValidlyAssigned(t.db, user, account, at))
                            && EndsExactly(db, t.db, SessionsOfPair(db, account, user)))
  {
    SessionOfPair(db, account, user);
    var existing := AssignmentOf(db, account, user);
    if existing.Some? {
      var id := existing.value;
      NoAssignment(db, account, user, id);
      hide AssignmentOf, SessionOf, End, EndsExactly, ValidlyAssigned, SessionsOfPair, AddAudit, Exclusive, UniqueColumns;
      var revoked := db.(assignments := db.assignments[id := db.assignments[id].(status := Revoked)]);
      AddAuditIs(revoked, actor, Other("ASSIGNMENT_REVOKED"), Assignments, id);
      if actor in db.users {
        var d := AddAudit(revoked, actor, Other("ASSIGNMENT_REVOKED"), Assignments, id).db;
        SameSessionsEndNone(db, d);
        var session := SessionOf(db, account, user);
        if session.Some? {
          var how := Ending(Ended, AdminForceRelease, SessionEnded, Some(actor));
          EndSucceedsIff(d, session.value, how, now);
          EndIs(d, session.value, how, now);
          ThenEnds(db, d, End(d, session.value, how, now).db, {session.value});
        }
      }
    }
  }

  lemma NoAssignment(db: Db, account: Id, user: Id, id: Id)
    requires UniqueColumns(db) && AssignmentOf(db, account, user) == Some(id)
    ensures forall d: Db, at | d.assignments == db.assignments[id := db.assignments[id].(status := Revoked)] :: !ValidlyAssigned(d, user, account, at)
  {
  }

  lemma EndEachIsExact(db: Db, rows: seq<Id>, how: Ending, now: int)
    requires (forall id | id in rows :: id in db.sessions && ActorOf(db, id, how) in db.users) && EndsSession(how)
    ensures EndEach(db, rows, how, now).Done?
    ensures EndsExactly(db, EndEach(db, rows, how, now).db, set id | id in rows)
    ensures EndEach(db, rows, how, now).db.users == db.users && EndEach(db, rows, how, now).db.devices == db.devices
    ensures EndEach(db, rows, how, now).db.assignments == db.assignments
  {
    EndEachIs(db, rows, how, now);
  }

  /** Revoking a device ends exactly the leases on it. */
  lemma RevokedDeviceHoldsNothing(db: Db, now: int, actor: Id, device: Id, rows: seq<Id>)
    requires Enumerates(rows, SessionsOn(db, device))
    ensures var t := RevokeDevice(db, now, actor, device, rows);
            && (t.Done? <==> device in db.devices && actor in db.users)
            && (t.Done? ==> device in t.db.devices && !t.db.devices[device].active && EndsExactly(db, t.db, SessionsOn(db, device)))
            && (t.Done? ==> t.db.assignments == db.assignments)
  {
    hide EndEach;
    if device in db.devices && actor in db.users {
      var revoked := db.(devices := db.devices[device := db.devices[device].(active := false)]);
      AddAuditIs(revoked, actor, Other("DEVICE_REVOKED"), Devices, device);
      var d := AddAudit(revoked, actor, Other("DEVICE_REVOKED"), Devices, device).db;
      EndEachIsExact(d, rows, Ending(Ended, ErrorReason, SessionEnded, Some(actor)), now);
      assert (set id | id in rows) == SessionsOn(db, device);
    }
  }

  /** Deactivating a user ends exactly their leases; neither oneself nor the last
      active admin can be taken out. */
  lemma DeactivationEndsLeases(db: Db, now: int, actor: Id, user: Id, role: Option<Role>, status: Option<UserStatus>, rows: seq<Id>)
    requires Enumerates(rows, SessionsBy(db, user))
    ensures var t := UpdateUser(db, now, actor, user, role, status, rows);
            && (t.Done? <==>
                  && user in db.users && actor in db.users
                  && !(actor == user && Deactivates(status))
                  && !(ActiveAdmins(db) == {user} && (role == Some(Operator) || Deactivates(status))))
            && (t.Done? ==> EndsExactly(db, t.db, if Deactivates(status) then SessionsBy(db, user) else {}))
            && (t.Done? && role.Some? ==> user in t.db.users && t.db.users[user].role == role.value)
            && (t.Done? && status.Some? ==> user in t.db.users && t.db.users[user].status == status.value)
            && (t.Done? ==> t.db.assignments == db.assignments)
  {
    hide EndEach;
    LastAdmin(db, user);
    if user in db.users {
      var updated := db.(users := db.users[user := UpdatedUser(db.users[user], role, status)]);
      var how := Ending(Ended, ErrorReason, SessionEnded, Some(actor));
      AddAuditIs(updated, actor, Other("USER_UPDATED"), Users, user);
      if actor in db.users {
        EndEachIsExact(updated, rows, how, now);
        AddAuditIs(EndEach(updated, rows, how, now).db, actor, Other("USER_UPDATED"), Users, user);
        assert (set id | id in rows) == SessionsBy(db, user);
      } else {
        EndEachShrinks(updated, rows, how, now);
        AddAuditIs(EndEach(updated, rows, how, now).db, actor, Other("USER_UPDATED"), Users, user);
      }
    }
  }

  lemma LastAdmin(db: Db, user: Id)
    ensures user in db.users && ActiveAdmin(db.users[user]) && |ActiveAdmins(db)| <= 1 <==> ActiveAdmins(db) == {user}
  {
    if user in db.users && ActiveAdmin(db.users[user]) && |ActiveAdmins(db)| <= 1 {
      assert user in ActiveAdmins(db);
      assert |ActiveAdmins(db) - {user}| == 0;
    }
    if ActiveAdmins(db) == {user} {
      assert user in ActiveAdmins(db);
    }
  }

  /** Registering gives the user an active device, unless that very key was
      revoked for them. */
  lemma RegistrationGivesADevice(db: Db, user: Id, publicKey: string, newId: Id)
    requires Sound(db) && newId !in db.devices
    ensures var t := RegisterDevice(db, user, publicKey, newId);
            && (t.Done? <==> user in db.users
                             && !exists d | d in db.devices :: db.devices[d].user == user && db.devices[d].publicKey == publicKey && !db.devices[d].active)
            && (t.Done? ==> OwnsActiveDevice(t.db, user, t.value) && t.db.devices[t.value].publicKey == publicKey)
            && EndsExactly(db, t.db, {})
            && t.db.assignments == db.assignments
  {
    SoundIsSchema(db);
    hide Sound, DeviceOf, Exclusive, Checks;
    AddAuditIs(db.(devices := db.devices[newId := Device(user, publicKey, true)]), user, Other("DEVICE_REGISTERED"), Devices, newId);
  }

  lemma LeasedIsAvailable(db: Db, account: Id)
    requires Sound(db) && Exclusive(db) && LiveOn(db, account).Some?
    ensures IsAvailable(db, account)
  {
    assert LiveIn(db, LiveOn(db, account).value);
  }

  /** An account leaves service only while nobody is on it. */
  lemma LeavingServiceWaits(db: Db, actor: Id, account: Id, externalId: Option<string>, status: Option<AccountStatus>)
    requires Sound(db) && Exclusive(db) && account in db.accounts && actor in db.users
    ensures var u := UpdateAccount(db, actor, account, externalId, status);
            && (u.Done? <==>
                  && (LiveOn(db, account).Some? && status.Some? ==> status == Some(Available))
                  && (externalId.Some? ==> !ExternalIdTaken(db, externalId.value, Some(account))))
            && (u.Done? && externalId.Some? ==> u.db.accounts[account].externalId == externalId.value)
            && (u.Done? && status.Some? ==> u.db.accounts[account].status == status.value)
            && EndsExactly(db, u.db, {})
  {
    if LiveOn(db, account).Some? {
      LeasedIsAvailable(db, account);
    }
    hide Sound, LiveOn, ExternalIdTaken, Exclusive, EndsExactly;
    SameSessionsEndNone(db, UpdateAccount(db, actor, account, externalId, status).db);
  }

  /** An account leaves the database only while nobody is on it, and takes its
      past sessions along. */
  lemma DeletionWaits(db: Db, actor: Id, account: Id)
    requires Exclusive(db) && account in db.accounts && actor in db.users
    ensures var r := DeleteAccount(db, actor, account);
            && (r.Done? <==> LiveOn(db, account).None?)
            && (r.Done? ==> r.db.accounts == db.accounts - {account} && EndsExactly(db, r.db, {})
                            && forall s | s in db.sessions :: s in r.db.sessions <==> db.sessions[s].account != account)
  {
    hide LiveOn, Exclusive;
    AddAuditIs(WithoutAccount(db, account), actor, Other("ACCOUNT_DELETED"), Accounts, account);
  }

  /** A new account is the only one of its external identifier and can be leased
      exactly if it is created available. */
  lemma CreatedAccountShows(db: Db, actor: Id, externalId: string, status: AccountStatus, newId: Id)
    requires newId !in db.accounts
    ensures var t := CreateAccount(db, actor, externalId, status, newId);
            && (t.Done? <==> actor in db.users && forall a | a in db.accounts :: db.accounts[a].externalId != externalId)
            && (t.Done? ==> t.db.accounts == db.accounts[newId := Account(externalId, status)]
                            && (IsAvailable(t.db, newId) <==> status.Available?))
            && EndsExactly(db, t.db, {})
            && t.db.assignments == db.assignments
  {
    AddAuditIs(db.(accounts := db.accounts[newId := Account(externalId, status)]), actor, Other("ACCOUNT_CREATED"), Accounts, newId);
    assert EndsExactly(db, db, {});
  }

  /** A new user may lease every account as an admin, and none as an operator. */
  lemma CreatedUserMayLease(db: Db, actor: Id, email: string, role: Role, newId: Id, account: Id, at: int)
    requires Sound(db) && Fresh(db, newId)
    ensures var t := CreateUser(db, actor, email, role, newId);
            && (t.Done? ==> newId in t.db.users && t.db.users[newId] == User(email, role, UserActive))
            && (t.Done? ==> (Authorized(t.db, newId, account, at) <==> role.Admin?))
            && (t.Done? ==> forall u | u in db.users :: u in t.db.users && t.db.users[u] == db.users[u] && db.users[u].email != email)
            && EndsExactly(db, t.db, {})
            && t.db.assignments == db.assignments
  {
    NobodyAssigned(db, newId);
    hide Sound, Fresh, AddAudit, EndsExactly;
    var d := db.(users := db.users[newId := User(email, role, UserActive)]);
    AddAuditIs(d, actor, Other("USER_CREATED"), Users, newId);
    SameSessionsEndNone(db, CreateUser(db, actor, email, role, newId).db);
  }

  lemma NobodyAssigned(db: Db, newId: Id)
    requires Sound(db) && Fresh(db, newId)
    ensures newId !in db.users && forall a | a in db.assignments :: db.assignments[a].user != newId
  {
    SoundIsSchema(db);
    hide Sound, Exclusive, Checks, UniqueColumns;
  }

  /** Approval gives a device back to its user, and touches no lease. */
  lemma ApprovalRestoresTheDevice(db: Db, actor: Id, device: Id)
    ensures var t := ApproveDevice(db, actor, device);
            && (t.Done? <==> device in db.devices && actor in db.users)
            && (t.Done? ==> OwnsActiveDevice(t.db, db.devices[device].user, device))
            && (t.Done? ==> forall d | d in db.devices && d != device :: d in t.db.devices && t.db.devices[d] == db.devices[d])
            && EndsExactly(db, t.db, {})
            && t.db.assignments == db.assignments
  {
    if device in db.devices {
      AddAuditIs(db.(devices := db.devices[device := db.devices[device].(active := true)]), actor, Other("DEVICE_APPROVED"), Devices, device);
    }
    assert EndsExactly(db, db, {});
  }
}
