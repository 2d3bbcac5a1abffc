/** What an accepted request leaves in every table and in the log, row by row and
    column by column, and what a refusal tells its caller. */
module LeaseEffects {
  import opened Wrappers
  import opened LeaseDb
  import opened LeaseServices
  import opened LeaseInvariants
  import opened LeaseOutcomes
  import opened LeaseRuns
  import opened LeaseHistory

  // ------------------------------------------------------------ what is meant

  /** How a session ended is written to it, and nothing else. */
  predicate EndedAs(row: Session, was: Session, status: SessionStatus, reason: Reason, now: int) {
    && row.status == status && row.runtime == Exited && row.reason == Some(reason) && row.endedAt == Some(now)
    && row.account == was.account && row.user == was.user && row.device == was.device
    && row.startedAt == was.startedAt && row.lastHeartbeatAt == was.lastHeartbeatAt && row.graceUntil == was.graceUntil
  }

  /** A heartbeat is written to the session, and nothing else. */
  predicate HeardAs(row: Session, was: Session, runtime: RuntimeState, now: int) {
    && row.status == Active && row.runtime == runtime && row.lastHeartbeatAt == now
    && row.graceUntil == (if runtime == Reconnecting then Some(now + 300000) else None)
    && row.account == was.account && row.user == was.user && row.device == was.device
    && row.startedAt == was.startedAt && row.reason == was.reason && row.endedAt == was.endedAt
  }

  /** A new lease has two minutes to be heard from: it comes without grace. */
  predicate BegunAs(row: Session, user: Id, account: Id, device: Id, now: int) {
    && row.user == user && row.account == account && row.device == device
    && row.status == Active && row.runtime == Launching && row.startedAt == now && row.lastHeartbeatAt == now
    && row.graceUntil == None && row.endedAt == None && row.reason == None
  }

  /** What a session says of its end, by who ended it. */
  ghost function StatusSaid(e: Event): (status: SessionStatus) {
    if e.Reap? || e.Acquire? then Stale else Ended
  }

  ghost function ReasonSaid(db: Db, t: Tick, id: Id): (reason: Reason)
    requires id in db.sessions
  {
    match t.event
    case Reap(_) => HeartbeatTimeout
    case Acquire(_, _, _, _, _) => HeartbeatTimeout
    case Release(actor, _, reason) => if actor.id == db.sessions[id].user then reason else AdminForceRelease
    case Heartbeat(user, _, _) => if Authorized(db, user, db.sessions[id].account, t.now) then ProcessExit else ErrorReason
    case ForceRelease(_, _) => AdminForceRelease
    case Unassign(_, _, _) => AdminForceRelease
    case _ => ErrorReason
  }

  ghost predicate SessionsFollow(db: Db, d: Db, t: Tick) {
    && (forall id | id in db.sessions :: id in d.sessions <==> !(t.event.DropAccount? && db.sessions[id].account == t.event.account))
    && (forall id | id in db.sessions && id in d.sessions ::
          if id in Targets(db, t) then EndedAs(d.sessions[id], db.sessions[id], StatusSaid(t.event), ReasonSaid(db, t, id), t.now)
          else if Refreshes(t.event, id) then HeardAs(d.sessions[id], db.sessions[id], t.event.runtime, t.now)
          else d.sessions[id] == db.sessions[id])
    && (forall id | id in d.sessions && id !in db.sessions ::
          Begins(t.event, id) && BegunAs(d.sessions[id], t.event.user, t.event.account, t.event.device, t.now))
    && (t.event.Acquire? ==>
          (t.event.newId in d.sessions <==>
           forall id | LiveIn(db, id) && db.sessions[id].account == t.event.account :: IsStale(db.sessions[id], t.now)))
  }

  ghost predicate UsersFollow(db: Db, d: Db, e: Event) {
    match e
    case NewUser(_, email, role, newId) =>
      d.users.Keys == db.users.Keys + {newId} && d.users[newId] == User(email, role, UserActive)
      && forall u | u in db.users :: u != newId && d.users[u] == db.users[u]
    case EditUser(_, user, role, status, _) =>
      && d.users.Keys == db.users.Keys && user in db.users
      && (forall u | u in db.users && u != user :: d.users[u] == db.users[u])
      && d.users[user].email == db.users[user].email
      && d.users[user].role == (if role.Some? then role.value else db.users[user].role)
      && d.users[user].status == (if status.Some? then status.value else db.users[user].status)
    case _ => d.users == db.users
  }

  ghost predicate AccountsFollow(db: Db, d: Db, e: Event) {
    match e
    case NewAccount(_, externalId, status, newId) =>
      d.accounts.Keys == db.accounts.Keys + {newId} && d.accounts[newId] == Account(externalId, status)
      && forall a | a in db.accounts :: a != newId && d.accounts[a] == db.accounts[a]
    case EditAccount(_, account, externalId, status) =>
      && d.accounts.Keys == db.accounts.Keys && account in db.accounts
      && (forall a | a in db.accounts && a != account :: d.accounts[a] == db.accounts[a])
      && d.accounts[account].externalId == (if externalId.Some? then externalId.value else db.accounts[account].externalId)
      && d.accounts[account].status == (if status.Some? then status.value else db.accounts[account].status)
    case DropAccount(_, account) =>
      d.accounts.Keys == db.accounts.Keys - {account} && forall a | a in d.accounts :: d.accounts[a] == db.accounts[a]
    case _ => d.accounts == db.accounts
  }

  predicate OfPair(a: Assignment, account: Id, user: Id) {
    a.account == account && a.user == user
  }

  /** A pair has one row for good; assigning and revoking write to it. */
  ghost predicate AssignmentsFollow(db: Db, d: Db, e: Event) {
    match e
    case Assign(_, account, user, expiresAt, newId) =>
      && (forall a | a in db.assignments :: a in d.assignments && (OfPair(db.assignments[a], account, user) || d.assignments[a] == db.assignments[a]))
      && (forall a | a in d.assignments && OfPair(d.assignments[a], account, user) ::
            d.assignments[a].status == Assigned && d.assignments[a].expiresAt == expiresAt)
      && (forall a | a in db.assignments && OfPair(db.assignments[a], account, user) :: OfPair(d.assignments[a], account, user))
      && (forall a | a in d.assignments && a !in db.assignments ::
            a == newId && OfPair(d.assignments[a], account, user) && forall o | o in db.assignments :: !OfPair(db.assignments[o], account, user))
      && exists a | a in d.assignments :: OfPair(d.assignments[a], account, user)
    case Unassign(_, account, user) =>
      && d.assignments.Keys == db.assignments.Keys
      && forall a | a in db.assignments ::
           if OfPair(db.assignments[a], account, user)
           then d.assignments[a].status == Revoked && OfPair(d.assignments[a], account, user)
                && d.assignments[a].expiresAt == db.assignments[a].expiresAt
           else d.assignments[a] == db.assignments[a]
    case DropAccount(_, account) =>
      && (forall a :: a in d.assignments <==> a in db.assignments && db.assignments[a].account != account)
      && forall a | a in d.assignments :: d.assignments[a] == db.assignments[a]
    case _ => d.assignments == db.assignments
  }

  predicate KnownKey(db: Db, user: Id, publicKey: string) {
    exists v | v in db.devices :: db.devices[v].user == user && db.devices[v].publicKey == publicKey
  }

  ghost predicate Switched(db: Db, d: Db, device: Id, active: bool) {
    && d.devices.Keys == db.devices.Keys && device in db.devices
    && (forall v | v in db.devices && v != device :: d.devices[v] == db.devices[v])
    && d.devices[device].user == db.devices[device].user && d.devices[device].publicKey == db.devices[device].publicKey
    && d.devices[device].active == active
  }

  ghost predicate DevicesFollow(db: Db, d: Db, e: Event) {
    match e
    case EnrolDevice(user, publicKey, newId) =>
      if KnownKey(db, user, publicKey) then d.devices == db.devices
      else d.devices.Keys == db.devices.Keys + {newId} && d.devices[newId] == Device(user, publicKey, true)
           && forall v | v in db.devices :: v != newId && d.devices[v] == db.devices[v]
    case BlockDevice(_, device, _) => Switched(db, d, device, false)
    case UnblockDevice(_, device) => Switched(db, d, device, true)
    case _ => d.devices == db.devices
  }

  /** One entry for every session of the query, in its order. */
  ghost predicate EachLogged(entries: seq<Audit>, rows: seq<Id>, actor: Id -> Id, action: Action) {
    |entries| == |rows| && forall i :: 0 <= i < |rows| ==> entries[i] == Audit(actor(rows[i]), action, AccountSessions, rows[i])
  }

  ghost function HolderIn(db: Db): (actor: Id -> Id) {
    id => if id in db.sessions then db.sessions[id].user else ""
  }

  /** The entries a request adds. */
  ghost predicate LogFollows(db: Db, d: Db, t: Tick) {
    && db.audit <= d.audit
    && var added := d.audit[|db.audit|..];
       match t.event
       case Reap(rows) => EachLogged(added, rows, HolderIn(db), SessionReaped)
       case Acquire(user, _, _, newId, rows) =>
         |rows| <= |added| && EachLogged(added[..|rows|], rows, HolderIn(db), SessionReaped)
         && added[|rows|..] == if newId in d.sessions then [Audit(user, SessionStarted, AccountSessions, newId)] else []
       case Release(actor, session, _) => added == [Audit(actor.id, SessionEnded, AccountSessions, session)]
       case Heartbeat(user, session, _) => added == if session in Targets(db, t) then [Audit(user, SessionEnded, AccountSessions, session)] else []
       case ForceRelease(actor, account) =>
         |added| == |Targets(db, t)| + 1 && added[|added| - 1] == Audit(actor.id, SessionEnded, Accounts, account)
         && forall id | id in Targets(db, t) :: added[0] == Audit(actor.id, SessionEnded, AccountSessions, id)
       case Assign(admin, account, user, _, _) =>
         |added| == 1 && added[0] == Audit(admin, Other("ASSIGNMENT_UPDATED"), Assignments, added[0].id)
         && added[0].id in d.assignments && OfPair(d.assignments[added[0].id], account, user)
       case Unassign(admin, account, user) =>
         |added| == 1 + |Targets(db, t)| && added[0] == Audit(admin, Other("ASSIGNMENT_REVOKED"), Assignments, added[0].id)
         && added[0].id in db.assignments && OfPair(db.assignments[added[0].id], account, user)
         && forall id | id in Targets(db, t) :: added[1] == Audit(admin, SessionEnded, AccountSessions, id)
       case NewAccount(admin, _, _, newId) => added == [Audit(admin, Other("ACCOUNT_CREATED"), Accounts, newId)]
       case EditAccount(admin, account, _, _) => added == [Audit(admin, Other("ACCOUNT_UPDATED"), Accounts, account)]
       case DropAccount(admin, account) => added == [Audit(admin, Other("ACCOUNT_DELETED"), Accounts, account)]
       case EnrolDevice(user, publicKey, newId) =>
         added == if KnownKey(db, user, publicKey) then [] else [Audit(user, Other("DEVICE_REGISTERED"), Devices, newId)]
       case BlockDevice(admin, device, rows) =>
         added != [] && added[0] == Audit(admin, Other("DEVICE_REVOKED"), Devices, device) && EachLogged(added[1..], rows, _ => admin, SessionEnded)
       case UnblockDevice(admin, device) => added == [Audit(admin, Other("DEVICE_APPROVED"), Devices, device)]
       case NewUser(admin, _, _, newId) => added == [Audit(admin, Other("USER_CREATED"), Users, newId)]
       case EditUser(admin, user, _, status, rows) =>
         added != [] && added[|added| - 1] == Audit(admin, Other("USER_UPDATED"), Users, user)
         && EachLogged(added[..|added| - 1], if Deactivates(status) then rows else [], _ => admin, SessionEnded)
  }

  /** Every table and the log are as the request means them to be. */
  ghost predicate Follows(db: Db, d: Db, t: Tick) {
    && UsersFollow(db, d, t.event) && AccountsFollow(db, d, t.event) && AssignmentsFollow(db, d, t.event)
    && DevicesFollow(db, d, t.event) && SessionsFollow(db, d, t) && LogFollows(db, d, t)
  }

  // -------------------------------------------------------------- ending sessions

  lemma EndSays(db: Db, id: Id, how: Ending, now: int)
    requires id in db.sessions && End(db, id, how, now).Done?
    ensures var d := End(db, id, how, now).db;
            && d.users == db.users && d.accounts == db.accounts && d.assignments == db.assignments && d.devices == db.devices
            && d.sessions.Keys == db.sessions.Keys && (forall o | o in db.sessions && o != id :: d.sessions[o] == db.sessions[o])
            && EndedAs(d.sessions[id], db.sessions[id], how.status, how.reason, now)
            && d.audit == db.audit + [Audit(if how.actor.Some? then how.actor.value else db.sessions[id].user, how.action, AccountSessions, id)]
  {
  }

  lemma EndEachSays(db: Db, rows: seq<Id>, how: Ending, now: int)
    requires forall id | id in rows :: id in db.sessions && ActorOf(db, id, how) in db.users
    requires AllowedReason(Some(how.reason))
    ensures var d := EndEach(db, rows, how, now).db;
            && EndEach(db, rows, how, now).Done?
            && d.users == db.users && d.accounts == db.accounts && d.assignments == db.assignments && d.devices == db.devices
            && d.sessions.Keys == db.sessions.Keys
            && (forall o | o in db.sessions ::
                  if o in rows then EndedAs(d.sessions[o], db.sessions[o], how.status, how.reason, now) else d.sessions[o] == db.sessions[o])
            && db.audit <= d.audit
            && EachLogged(d.audit[|db.audit|..], rows, if how.actor.Some? then _ => how.actor.value else HolderIn(db), how.action)
  {
    hide EndEach;
    EndEachIs(db, rows, how, now);
    assert EndEach(db, rows, how, now).db.audit[|db.audit|..] == EndEntries(db, rows, how);
  }

  lemma SoundActors(db: Db)
    requires Sound(db)
    ensures forall id | id in db.sessions :: db.sessions[id].user in db.users
  {
  }

  lemma SameAllFollow(db: Db, d: Db, e: Event)
    requires d.users == db.users && d.accounts == db.accounts && d.assignments == db.assignments && d.devices == db.devices
    requires Leasing(e)
    ensures UsersFollow(db, d, e) && AccountsFollow(db, d, e) && AssignmentsFollow(db, d, e) && DevicesFollow(db, d, e)
  {
  }

  lemma ReapFollows(db: Db, d: Db, t: Tick)
    requires Sound(db) && t.event.Reap? && Enumerates(t.event.rows, StaleIds(db, t.now)) && d == ReapStale(db, t.now, t.event.rows).db
    ensures Follows(db, d, t)
  {
    hide Sound, EndEach, EndedAs, IsStale;
    SoundActors(db);
    EndEachSays(db, t.event.rows, TIMED_OUT, t.now);
    SameAllFollow(db, d, t.event);
  }

  /** One session ends, nothing else changes in that table. */
  lemma OneEnds(db: Db, d: Db, t: Tick, id: Id)
    requires Targets(db, t) == {id} && id in db.sessions
    requires t.event.Release? || t.event.Heartbeat? || t.event.ForceRelease? || t.event.Unassign?
    requires t.event.Heartbeat? ==> t.event.session == id
    requires d.sessions.Keys == db.sessions.Keys && forall o | o in db.sessions && o != id :: d.sessions[o] == db.sessions[o]
    requires EndedAs(d.sessions[id], db.sessions[id], Ended, ReasonSaid(db, t, id), t.now)
    ensures SessionsFollow(db, d, t)
  {
    hide EndedAs, Targets, ReasonSaid;
  }

  lemma NoneEnds(db: Db, d: Db, t: Tick)
    requires Targets(db, t) == {} && d.sessions == db.sessions
    requires !t.event.Heartbeat? && !t.event.Acquire? && !t.event.DropAccount?
    ensures SessionsFollow(db, d, t)
  {
  }

  lemma Appended(audit: seq<Audit>, more: seq<Audit>)
    ensures audit <= audit + more && (audit + more)[|audit|..] == more
  {
  }

  lemma ReleaseFollows(db: Db, d: Db, t: Tick)
    requires t.event.Release? && ReleaseLease(db, t.now, t.event.actor, t.event.session, t.event.reason).Done?
    requires d == ReleaseLease(db, t.now, t.event.actor, t.event.session, t.event.reason).db
    ensures Follows(db, d, t)
  {
    var Release(actor, session, reason) := t.event;
    hide End, EndedAs, SessionsFollow, UsersFollow, AccountsFollow, AssignmentsFollow, DevicesFollow;
    var forced := actor.role.Admin? && db.sessions[session].user != actor.id;
    var how := Ending(Ended, if forced then AdminForceRelease else reason, SessionEnded, Some(actor.id));
    EndSays(db, session, how, t.now);
    OneEnds(db, d, t, session);
    Appended(db.audit, [Audit(actor.id, SessionEnded, AccountSessions, session)]);
    SameAllFollow(db, d, t.event);
  }

  /** What an accepted heartbeat makes of the tables, whichever way it goes. */
  lemma HeartbeatIs(db: Db, now: int, user: Id, session: Id, runtime: RuntimeState)
    requires HeartbeatLease(db, now, user, session, runtime).Done?
    ensures session in db.sessions && db.sessions[session].user == user
    ensures var d := HeartbeatLease(db, now, user, session, runtime).db;
            var authorized := Authorized(db, user, db.sessions[session].account, now);
            && d.users == db.users && d.accounts == db.accounts && d.assignments == db.assignments && d.devices == db.devices
            && d.sessions.Keys == db.sessions.Keys && (forall o | o in db.sessions && o != session :: d.sessions[o] == db.sessions[o])
            && (if authorized && !runtime.Exited? then HeardAs(d.sessions[session], db.sessions[session], runtime, now) && d.audit == db.audit
                else && EndedAs(d.sessions[session], db.sessions[session], Ended, if authorized then ProcessExit else ErrorReason, now)
                     && d.audit == db.audit + [Audit(user, SessionEnded, AccountSessions, session)])
  {
    hide End, EndedAs, Authorized;
    var authorized := Authorized(db, user, db.sessions[session].account, now);
    if !authorized || runtime.Exited? {
      EndSays(db, session, Ending(Ended, if authorized then ProcessExit else ErrorReason, SessionEnded, Some(user)), now);
    }
  }

  lemma HeardFollows(db: Db, d: Db, t: Tick)
    requires t.event.Heartbeat? && Targets(db, t) == {} && d.sessions.Keys == db.sessions.Keys && t.event.session in db.sessions
    requires forall o | o in db.sessions && o != t.event.session :: d.sessions[o] == db.sessions[o]
    requires HeardAs(d.sessions[t.event.session], db.sessions[t.event.session], t.event.runtime, t.now)
    ensures SessionsFollow(db, d, t)
  {
    hide HeardAs, Targets;
  }

  lemma HeartbeatFollows(db: Db, d: Db, t: Tick)
    requires t.event.Heartbeat? && HeartbeatLease(db, t.now, t.event.user, t.event.session, t.event.runtime).Done?
    requires d == HeartbeatLease(db, t.now, t.event.user, t.event.session, t.event.runtime).db
    ensures Follows(db, d, t)
  {
    hide HeartbeatLease, EndedAs, HeardAs, Authorized, UsersFollow, AccountsFollow, AssignmentsFollow, DevicesFollow, SessionsFollow;
    HeartbeatIs(db, t.now, t.event.user, t.event.session, t.event.runtime);
    SameAllFollow(db, d, t.event);
    if Targets(db, t) == {} {
      HeardFollows(db, d, t);
    } else {
      OneEnds(db, d, t, t.event.session);
      Appended(db.audit, [Audit(t.event.user, SessionEnded, AccountSessions, t.event.session)]);
    }
  }

  lemma OneOnAccount(db: Db, account: Id)
    requires Exclusive(db)
    ensures SessionsAt(db, account) == if LiveOn(db, account).Some? then {LiveOn(db, account).value} else {}
  {
  }

  lemma ForceReleaseIs(db: Db, now: int, actor: Actor, account: Id)
    requires Exclusive(db) && ForceReleaseAccount(db, now, actor, account).Done?
    ensures var d := ForceReleaseAccount(db, now, actor, account).db;
            var entry := Audit(actor.id, SessionEnded, Accounts, account);
            && d.users == db.users && d.accounts == db.accounts && d.assignments == db.assignments && d.devices == db.devices
            && match LiveOn(db, account)
               case None => d.sessions == db.sessions && d.audit == db.audit + [entry]
               case Some(id) =>
                 && d.sessions.Keys == db.sessions.Keys && (forall o | o in db.sessions && o != id :: d.sessions[o] == db.sessions[o])
                 && EndedAs(d.sessions[id], db.sessions[id], Ended, AdminForceRelease, now)
                 && d.audit == db.audit + [Audit(actor.id, SessionEnded, AccountSessions, id), entry]
  {
    hide End, EndedAs, LiveOn, Exclusive;
    if LiveOn(db, account).Some? {
      EndSays(db, LiveOn(db, account).value, Ending(Ended, AdminForceRelease, SessionEnded, Some(actor.id)), now);
    }
  }

  lemma ForceReleaseFollows(db: Db, d: Db, t: Tick)
    requires Exclusive(db) && t.event.ForceRelease? && ForceReleaseAccount(db, t.now, t.event.actor, t.event.account).Done?
    requires d == ForceReleaseAccount(db, t.now, t.event.actor, t.event.account).db
    ensures Follows(db, d, t)
  {
    OneOnAccount(db, t.event.account);
    hide ForceReleaseAccount, EndedAs, LiveOn, Exclusive, SessionsAt, SessionsFollow, UsersFollow, AccountsFollow, AssignmentsFollow, DevicesFollow;
    ForceReleaseIs(db, t.now, t.event.actor, t.event.account);
    var entry := Audit(t.event.actor.id, SessionEnded, Accounts, t.event.account);
    SameAllFollow(db, d, t.event);
    match LiveOn(db, t.event.account) {
      case None =>
        NoneEnds(db, d, t);
        Appended(db.audit, [entry]);
      case Some(id) =>
        OneEnds(db, d, t, id);
        Appended(db.audit, [Audit(t.event.actor.id, SessionEnded, AccountSessions, id), entry]);
    }
  }

  lemma NotBefore(db: Db, newId: Id)
    requires Fresh(db, newId)
    ensures newId !in db.users && newId !in db.accounts && newId !in db.assignments && newId !in db.devices && newId !in db.sessions
  {
  }

  lemma AcquireFollows(db: Db, d: Db, t: Tick)
    requires Sound(db) && t.event.Acquire? && Exclusive(db) && Enumerates(t.event.rows, StaleIds(db, t.now)) && Fresh(db, t.event.newId)
    requires var a := AcquireLease(db, t.now, t.event.user, t.event.account, t.event.device, t.event.newId, t.event.rows); a.Done? && d == a.db
    ensures Follows(db, d, t)
  {
    hide Sound, EndedAs, AcquireLease, Fresh, LiveOn, IsStale, Reaped, Exclusive, EachLogged, HolderIn, StaleIds, Enumerates,
         UsersFollow, AccountsFollow, AssignmentsFollow, DevicesFollow, SessionsFollow, LogFollows;
    NotBefore(db, t.event.newId);
    AcquireLeaves(db, t.now, t.event.user, t.event.account, t.event.device, t.event.newId, t.event.rows);
    var r := Reaped(db, t.now, t.event.rows);
    ReapedSays(db, t.now, t.event.rows);
    FreeAfterReaping(db, t.now, t.event.account, t.event.rows);
    SameAllFollow(db, d, t.event);
    AcquiredRows(db, r, d, t);
    AcquiredLog(db, r, d, t);
  }

  lemma AcquiredLog(db: Db, r: Db, d: Db, t: Tick)
    requires t.event.Acquire? && db.audit <= r.audit && EachLogged(r.audit[|db.audit|..], t.event.rows, HolderIn(db), SessionReaped)
    requires d.audit == if t.event.newId in d.sessions
                        then r.audit + [Audit(t.event.user, SessionStarted, AccountSessions, t.event.newId)] else r.audit
    ensures LogFollows(db, d, t)
  {
    hide EachLogged, HolderIn;
    var added := r.audit[|db.audit|..];
    var more := if t.event.newId in d.sessions then [Audit(t.event.user, SessionStarted, AccountSessions, t.event.newId)] else [];
    EachLoggedSize(added, t.event.rows, HolderIn(db), SessionReaped);
    assert d.audit == db.audit + (added + more);
    Appended(db.audit, added + more);
  }

  lemma EachLoggedSize(entries: seq<Audit>, rows: seq<Id>, actor: Id -> Id, action: Action)
    requires EachLogged(entries, rows, actor, action)
    ensures |entries| == |rows| && entries[..|rows|] == entries && entries[|rows|..] == []
    ensures forall more :: (entries + more)[..|rows|] == entries && (entries + more)[|rows|..] == more
  {
  }

  /** The reaped table, with the new row on it if the account was free. */
  lemma AcquiredRows(db: Db, r: Db, d: Db, t: Tick)
    requires t.event.Acquire? && t.event.newId !in db.sessions && r.sessions.Keys == db.sessions.Keys
    requires forall o | o in db.sessions ::
               if o in StaleIds(db, t.now) then EndedAs(r.sessions[o], db.sessions[o], Stale, HeartbeatTimeout, t.now) else r.sessions[o] == db.sessions[o]
    requires var free := forall id | LiveIn(db, id) && db.sessions[id].account == t.event.account :: IsStale(db.sessions[id], t.now);
             d.sessions == if free then r.sessions[t.event.newId := NewSession(t.event.user, t.event.account, t.event.device, t.now)] else r.sessions
    ensures SessionsFollow(db, d, t)
  {
    hide EndedAs, IsStale, StaleIds;
  }

  lemma ReapedSays(db: Db, now: int, rows: seq<Id>)
    requires Sound(db) && Enumerates(rows, StaleIds(db, now))
    ensures var d := Reaped(db, now, rows);
            && d.users == db.users && d.accounts == db.accounts && d.assignments == db.assignments && d.devices == db.devices
            && d.sessions.Keys == db.sessions.Keys
            && (forall o | o in db.sessions ::
                  if o in StaleIds(db, now) then EndedAs(d.sessions[o], db.sessions[o], Stale, HeartbeatTimeout, now) else d.sessions[o] == db.sessions[o])
            && db.audit <= d.audit && EachLogged(d.audit[|db.audit|..], rows, HolderIn(db), SessionReaped)
  {
    hide Sound, EndEach, EndedAs, IsStale;
    SoundActors(db);
    EndEachSays(db, rows, TIMED_OUT, now);
  }

  lemma FreeAfterReaping(db: Db, now: int, account: Id, rows: seq<Id>)
    requires Sound(db) && Enumerates(rows, StaleIds(db, now)) && Exclusive(Reaped(db, now, rows))
    ensures LiveOn(Reaped(db, now, rows), account).None? <==>
            forall id | LiveIn(db, id) && db.sessions[id].account == account :: IsStale(db.sessions[id], now)
  {
    ReapSound(db, now, rows);
    hide Sound, ReapStale, LiveOn, IsStale;
    var d := Reaped(db, now, rows);
    if LiveOn(d, account).Some? {
      assert LiveIn(db, LiveOn(d, account).value);
    } else {
      assert forall id | LiveIn(db, id) && !IsStale(db.sessions[id], now) :: LiveIn(d, id) && d.sessions[id] == db.sessions[id];
    }
  }

  // -------------------------------------------------------------- administration

  /** Of the requests that end no session: the session table stays. */
  lemma SessionsStay(db: Db, d: Db, t: Tick)
    requires d.sessions == db.sessions
    requires t.event.Assign? || t.event.NewAccount? || t.event.EditAccount? || t.event.EnrolDevice? || t.event.UnblockDevice? || t.event.NewUser?
    ensures SessionsFollow(db, d, t)
  {
    NoneEnds(db, d, t);
  }

  lemma AssignIs(db: Db, admin: Id, account: Id, user: Id, expiresAt: Option<int>, newId: Id)
    requires UniqueColumns(db) && AddAssignment(db, admin, account, user, expiresAt, newId).Done?
    ensures var d := AddAssignment(db, admin, account, user, expiresAt, newId).db;
            var existing := AssignmentOf(db, account, user);
            var id := if existing.Some? then existing.value else newId;
            && d.users == db.users && d.accounts == db.accounts && d.devices == db.devices && d.sessions == db.sessions
            && d.assignments == db.assignments[id := Assignment(account, user, Assigned, expiresAt)]
            && d.audit == db.audit + [Audit(admin, Other("ASSIGNMENT_UPDATED"), Assignments, id)]
  {
    hide AssignmentOf, UniqueColumns;
  }

  /** The row of the pair, old or new, and no other. */
  lemma AssignedRows(db: Db, d: Db, e: Event, id: Id)
    requires e.Assign? && d.assignments == db.assignments[id := Assignment(e.account, e.user, Assigned, e.expiresAt)]
    requires forall a | a in db.assignments :: OfPair(db.assignments[a], e.account, e.user) <==> a == id
    requires id in db.assignments || id == e.newId
    ensures AssignmentsFollow(db, d, e)
  {
    assert id in d.assignments && OfPair(d.assignments[id], e.account, e.user);
  }

  lemma AssignFollows(db: Db, d: Db, t: Tick)
    requires UniqueColumns(db) && t.event.Assign? && t.event.newId !in db.assignments
    requires var r := AddAssignment(db, t.event.admin, t.event.account, t.event.user, t.event.expiresAt, t.event.newId); r.Done? && d == r.db
    ensures Follows(db, d, t)
  {
    var Assign(admin, account, user, expiresAt, newId) := t.event;
    var existing := AssignmentOf(db, account, user);
    OnePair(db, account, user);
    AssignIs(db, admin, account, user, expiresAt, newId);
    hide AssignmentOf, AddAssignment, SessionsFollow, AssignmentsFollow, UniqueColumns;
    var id := if existing.Some? then existing.value else newId;
    AssignedRows(db, d, t.event, id);
    SessionsStay(db, d, t);
    Appended(db.audit, [Audit(admin, Other("ASSIGNMENT_UPDATED"), Assignments, id)]);
  }

  lemma OnePair(db: Db, account: Id, user: Id)
    requires UniqueColumns(db)
    ensures forall a | a in db.assignments :: OfPair(db.assignments[a], account, user) <==> AssignmentOf(db, account, user) == Some(a)
    ensures AssignmentOf(db, account, user).Some? ==> AssignmentOf(db, account, user).value in db.assignments
  {
  }

  lemma UnassignIs(db: Db, now: int, actor: Id, account: Id, user: Id)
    requires UniqueColumns(db) && Exclusive(db) && RevokeAssignment(db, now, actor, account, user).Done?
    ensures AssignmentOf(db, account, user).Some?
    ensures var d := RevokeAssignment(db, now, actor, account, user).db;
            var id := AssignmentOf(db, account, user).value;
            var entry := Audit(actor, Other("ASSIGNMENT_REVOKED"), Assignments, id);
            && d.users == db.users && d.accounts == db.accounts && d.devices == db.devices
            && d.assignments == db.assignments[id := db.assignments[id].(status := Revoked)]
            && match SessionOf(db, account, user)
               case None => d.sessions == db.sessions && d.audit == db.audit + [entry]
               case Some(session) =>
                 && session in db.sessions && d.sessions.Keys == db.sessions.Keys
                 && (forall o | o in db.sessions && o != session :: d.sessions[o] == db.sessions[o])
                 && EndedAs(d.sessions[session], db.sessions[session], Ended, AdminForceRelease, now)
                 && d.audit == db.audit + [entry, Audit(actor, SessionEnded, AccountSessions, session)]
  {
    hide End, EndedAs, Exclusive, UniqueColumns, AssignmentOf, LiveOn;
    var id := AssignmentOf(db, account, user).value;
    var revoked := db.(assignments := db.assignments[id := db.assignments[id].(status := Revoked)]);
    var logged := AddAudit(revoked, actor, Other("ASSIGNMENT_REVOKED"), Assignments, id).db;
    if SessionOf(db, account, user).Some? {
      EndSays(logged, SessionOf(db, account, user).value, Ending(Ended, AdminForceRelease, SessionEnded, Some(actor)), now);
    }
  }

  lemma UnassignFollows(db: Db, d: Db, t: Tick)
    requires UniqueColumns(db) && Exclusive(db) && t.event.Unassign?
    requires var r := RevokeAssignment(db, t.now, t.event.admin, t.event.account, t.event.user); r.Done? && d == r.db
    ensures Follows(db, d, t)
  {
    var Unassign(admin, account, user) := t.event;
    SessionOfPair(db, account, user);
    OnePair(db, account, user);
    hide AssignmentOf, RevokeAssignment, SessionOf, Exclusive, UniqueColumns, EndedAs, SessionsFollow, SessionsOfPair;
    UnassignIs(db, t.now, admin, account, user);
    var entry := Audit(admin, Other("ASSIGNMENT_REVOKED"), Assignments, AssignmentOf(db, account, user).value);
    match SessionOf(db, account, user) {
      case None =>
        NoneEnds(db, d, t);
        Appended(db.audit, [entry]);
      case Some(session) =>
        OneEnds(db, d, t, session);
        Appended(db.audit, [entry, Audit(admin, SessionEnded, AccountSessions, session)]);
    }
  }

  lemma NewAccountFollows(db: Db, d: Db, t: Tick)
    requires t.event.NewAccount? && t.event.newId !in db.accounts
    requires var r := CreateAccount(db, t.event.admin, t.event.externalId, t.event.status, t.event.newId); r.Done? && d == r.db
    ensures Follows(db, d, t)
  {
    hide SessionsFollow, ExternalIdTaken;
    SessionsStay(db, d, t);
    Appended(db.audit, [Audit(t.event.admin, Other("ACCOUNT_CREATED"), Accounts, t.event.newId)]);
  }

  lemma EditAccountFollows(db: Db, d: Db, t: Tick)
    requires Exclusive(db) && t.event.EditAccount?
    requires var r := UpdateAccount(db, t.event.admin, t.event.account, t.event.newExternalId, t.event.newStatus); r.Done? && d == r.db
    ensures Follows(db, d, t)
  {
    hide SessionsFollow, ExternalIdTaken, LiveOn;
    SessionsStay(db, d, t);
    Appended(db.audit, [Audit(t.event.admin, Other("ACCOUNT_UPDATED"), Accounts, t.event.account)]);
  }

  lemma DropAccountFollows(db: Db, d: Db, t: Tick)
    requires Exclusive(db) && t.event.DropAccount?
    requires var r := DeleteAccount(db, t.event.admin, t.event.account); r.Done? && d == r.db
    ensures Follows(db, d, t)
  {
    hide LiveOn;
    Appended(db.audit, [Audit(t.event.admin, Other("ACCOUNT_DELETED"), Accounts, t.event.account)]);
  }

  lemma OneKey(db: Db, user: Id, publicKey: string)
    requires UniqueColumns(db)
    ensures KnownKey(db, user, publicKey) <==> DeviceOf(db, user, publicKey).Some?
  {
  }

  lemma EnrolDeviceFollows(db: Db, d: Db, t: Tick)
    requires UniqueColumns(db) && t.event.EnrolDevice? && t.event.newId !in db.devices
    requires var r := RegisterDevice(db, t.event.user, t.event.publicKey, t.event.newId); r.Done? && d == r.db
    ensures Follows(db, d, t)
  {
    OneKey(db, t.event.user, t.event.publicKey);
    hide DeviceOf, SessionsFollow, KnownKey;
    SessionsStay(db, d, t);
    Appended(db.audit, [Audit(t.event.user, Other("DEVICE_REGISTERED"), Devices, t.event.newId)]);
    Appended(db.audit, []);
  }

  lemma UnblockDeviceFollows(db: Db, d: Db, t: Tick)
    requires t.event.UnblockDevice? && ApproveDevice(db, t.event.admin, t.event.device).Done? && d == ApproveDevice(db, t.event.admin, t.event.device).db
    ensures Follows(db, d, t)
  {
    hide SessionsFollow;
    SessionsStay(db, d, t);
    Appended(db.audit, [Audit(t.event.admin, Other("DEVICE_APPROVED"), Devices, t.event.device)]);
  }

  lemma NewUserFollows(db: Db, d: Db, t: Tick)
    requires t.event.NewUser? && t.event.newId !in db.users
    requires var r := CreateUser(db, t.event.admin, t.event.email, t.event.role, t.event.newId); r.Done? && d == r.db
    ensures Follows(db, d, t)
  {
    hide SessionsFollow;
    SessionsStay(db, d, t);
    Appended(db.audit, [Audit(t.event.admin, Other("USER_CREATED"), Users, t.event.newId)]);
  }

  /** Several sessions end, nothing else changes in that table. */
  lemma SomeEnd(db: Db, d: Db, t: Tick, rows: seq<Id>)
    requires t.event.BlockDevice? || t.event.EditUser?
    requires (forall id :: id in Targets(db, t) <==> id in rows) && d.sessions.Keys == db.sessions.Keys
    requires forall o | o in db.sessions ::
               if o in rows then EndedAs(d.sessions[o], db.sessions[o], Ended, ErrorReason, t.now) else d.sessions[o] == db.sessions[o]
    ensures SessionsFollow(db, d, t)
  {
    hide EndedAs, Targets;
  }

  lemma BlockDeviceIs(db: Db, now: int, admin: Id, device: Id, rows: seq<Id>) returns (ended: seq<Audit>)
    requires Enumerates(rows, SessionsOn(db, device)) && RevokeDevice(db, now, admin, device, rows).Done?
    ensures device in db.devices
    ensures var d := RevokeDevice(db, now, admin, device, rows).db;
            && d.users == db.users && d.accounts == db.accounts && d.assignments == db.assignments
            && d.devices == db.devices[device := Device(db.devices[device].user, db.devices[device].publicKey, false)]
            && d.sessions.Keys == db.sessions.Keys
            && (forall o | o in db.sessions ::
                  if o in rows then EndedAs(d.sessions[o], db.sessions[o], Ended, ErrorReason, now) else d.sessions[o] == db.sessions[o])
            && d.audit == db.audit + ([Audit(admin, Other("DEVICE_REVOKED"), Devices, device)] + ended)
            && EachLogged(ended, rows, _ => admin, SessionEnded)
  {
    hide EndEach, EndedAs, EachLogged;
    var revoked := db.(devices := db.devices[device := db.devices[device].(active := false)]);
    var logged := AddAudit(revoked, admin, Other("DEVICE_REVOKED"), Devices, device).db;
    EndEachSays(logged, rows, Ending(Ended, ErrorReason, SessionEnded, Some(admin)), now);
    var d := RevokeDevice(db, now, admin, device, rows).db;
    ended := d.audit[|logged.audit|..];
    assert d.audit == logged.audit + ended;
    EachLoggedBy(ended, rows, admin);
  }

  lemma BlockDeviceFollows(db: Db, d: Db, t: Tick)
    requires t.event.BlockDevice? && Enumerates(t.event.rows, SessionsOn(db, t.event.device))
    requires var r := RevokeDevice(db, t.now, t.event.admin, t.event.device, t.event.rows); r.Done? && d == r.db
    ensures Follows(db, d, t)
  {
    var BlockDevice(admin, device, rows) := t.event;
    hide RevokeDevice, EndedAs, SessionsFollow, EachLogged;
    var ended := BlockDeviceIs(db, t.now, admin, device, rows);
    var entry := Audit(admin, Other("DEVICE_REVOKED"), Devices, device);
    SomeEnd(db, d, t, rows);
    Appended(db.audit, [entry] + ended);
    assert ([entry] + ended)[1..] == ended;
  }

  lemma EachLoggedBy(entries: seq<Audit>, rows: seq<Id>, admin: Id)
    ensures forall actor: Id -> Id | EachLogged(entries, rows, actor, SessionEnded) && (forall id :: actor(id) == admin) ::
              EachLogged(entries, rows, _ => admin, SessionEnded)
  {
  }

  /** What an accepted edit makes of the tables, whether it ends leases or not. */
  lemma UpdateUserIs(db: Db, now: int, admin: Id, user: Id, role: Option<Role>, status: Option<UserStatus>, rows: seq<Id>) returns (ended: seq<Audit>)
    requires Enumerates(rows, SessionsBy(db, user)) && UpdateUser(db, now, admin, user, role, status, rows).Done?
    ensures user in db.users
    ensures var d := UpdateUser(db, now, admin, user, role, status, rows).db;
            var gone := if Deactivates(status) then rows else [];
            && d.users == db.users[user := UpdatedUser(db.users[user], role, status)]
            && d.accounts == db.accounts && d.assignments == db.assignments && d.devices == db.devices
            && d.sessions.Keys == db.sessions.Keys
            && (forall o | o in db.sessions ::
                  if o in gone then EndedAs(d.sessions[o], db.sessions[o], Ended, ErrorReason, now) else d.sessions[o] == db.sessions[o])
            && d.audit == db.audit + (ended + [Audit(admin, Other("USER_UPDATED"), Users, user)])
            && EachLogged(ended, gone, _ => admin, SessionEnded)
  {
    hide EndEach, EndedAs, EachLogged;
    var updated := db.(users := db.users[user := UpdatedUser(db.users[user], role, status)]);
    if Deactivates(status) {
      var how := Ending(Ended, ErrorReason, SessionEnded, Some(admin));
      EndEachShrinks(updated, rows, how, now);
      EndEachSays(updated, rows, how, now);
      var done := EndEach(updated, rows, how, now).db;
      ended := done.audit[|db.audit|..];
      assert done.audit == db.audit + ended;
      EachLoggedBy(ended, rows, admin);
    } else {
      ended := [];
      NothingLogged(admin);
    }
  }

  lemma EditedRows(db: Db, d: Db, e: Event)
    requires e.EditUser? && e.user in db.users && d.users == db.users[e.user := UpdatedUser(db.users[e.user], e.newRole, e.newUserStatus)]
    ensures UsersFollow(db, d, e)
  {
  }

  lemma EditUserFollows(db: Db, d: Db, t: Tick)
    requires t.event.EditUser? && Enumerates(t.event.rows, SessionsBy(db, t.event.user))
    requires var r := UpdateUser(db, t.now, t.event.admin, t.event.user, t.event.newRole, t.event.newUserStatus, t.event.rows); r.Done? && d == r.db
    ensures Follows(db, d, t)
  {
    var EditUser(admin, user, role, status, rows) := t.event;
    hide UpdateUser, EndedAs, SessionsFollow, UsersFollow, EachLogged;
    var ended := UpdateUserIs(db, t.now, admin, user, role, status, rows);
    EditedRows(db, d, t.event);
    var entry := Audit(admin, Other("USER_UPDATED"), Users, user);
    SomeEnd(db, d, t, if Deactivates(status) then rows else []);
    Appended(db.audit, ended + [entry]);
    assert (ended + [entry])[..|ended|] == ended;
  }

  lemma NothingLogged(admin: Id)
    ensures EachLogged([], [], _ => admin, SessionEnded)
  {
  }

  /** Every accepted request, of whichever service, leaves every table and the
      log as it means to: the rows it names with the columns it names, and
      nothing else. */
  lemma AcceptedRequestsFollow(db: Db, t: Tick)
    requires Sound(db) && Enabled(World(db, t.now), t) && Accepted(db, t)
    ensures Follows(db, Happen(db, t), t)
  {
    SchemaHolds(db);
    hide Sound, Schema, Exclusive, UniqueColumns, Follows, Fresh, Enumerates, ReapStale, AcquireLease, ReleaseLease, HeartbeatLease,
         ForceReleaseAccount, AddAssignment, RevokeAssignment, CreateAccount, UpdateAccount, DeleteAccount, RegisterDevice, RevokeDevice,
         ApproveDevice, CreateUser, UpdateUser;
    var d := Happen(db, t);
    match t.event
    case Reap(_) => ReapFollows(db, d, t);
    case Acquire(_, _, _, _, _) => AcquireFollows(db, d, t);
    case Release(_, _, _) => ReleaseFollows(db, d, t);
    case Heartbeat(_, _, _) => HeartbeatFollows(db, d, t);
    case ForceRelease(_, _) => ForceReleaseFollows(db, d, t);
    case Assign(_, _, _, _, newId) =>
      NotBefore(db, newId);
      AssignFollows(db, d, t);
    case Unassign(_, _, _) => UnassignFollows(db, d, t);
    case NewAccount(_, _, _, newId) =>
      NotBefore(db, newId);
      NewAccountFollows(db, d, t);
    case EditAccount(_, _, _, _) => EditAccountFollows(db, d, t);
    case DropAccount(_, _) => DropAccountFollows(db, d, t);
    case EnrolDevice(_, _, newId) =>
      NotBefore(db, newId);
      EnrolDeviceFollows(db, d, t);
    case BlockDevice(_, _, _) => BlockDeviceFollows(db, d, t);
    case UnblockDevice(_, _) => UnblockDeviceFollows(db, d, t);
    case NewUser(_, _, _, newId) =>
      NotBefore(db, newId);
      NewUserFollows(db, d, t);
    case EditUser(_, _, _, _, _) => EditUserFollows(db, d, t);
  }

  // ----------------------------------------------------- what follows for a lease

  /** A lease that is granted anew is the caller's to use at once and goes stale
      unless it is heard from within two minutes; one that is found again is left
      as it is. */
  lemma GrantedLeaseShows(db: Db, t: Tick)
    requires Sound(db) && Enabled(World(db, t.now), t) && t.event.Acquire? && Accepted(db, t)
    ensures var Acquire(user, account, device, newId, rows) := t.event;
            var granted := AcquireLease(db, t.now, user, account, device, newId, rows).value;
            var d := Happen(db, t);
            && LiveIn(d, granted.session) && (granted.isReconnect <==> granted.session in db.sessions)
            && d.sessions[granted.session].user == user && d.sessions[granted.session].account == account
            && d.sessions[granted.session].device == device
            && (granted.isReconnect ==> d.sessions[granted.session] == db.sessions[granted.session]
                                        && t.now <= db.sessions[granted.session].startedAt + 4 * 3600000)
            && (!granted.isReconnect ==>
                  && granted.session == newId && BegunAs(d.sessions[newId], user, account, device, t.now)
                  && forall later :: IsStale(d.sessions[newId], later) <==> later > t.now + 120000)
  {
    var Acquire(user, account, device, newId, rows) := t.event;
    SchemaHolds(db);
    NotBefore(db, newId);
    hide Sound, Schema, Fresh, Exclusive, Enumerates, StaleIds, AcquireLease, Follows;
    AcquireSucceedsIff(db, t.now, user, account, device, newId, rows);
    AcquireLeaves(db, t.now, user, account, device, newId, rows);
    GrantedFrom(db, t.now, user, account, device, newId, rows);
    ReapedSays(db, t.now, rows);
    RowsStayOrEnd(db, t.now, rows);
  }

  lemma GrantedFrom(db: Db, now: int, user: Id, account: Id, device: Id, newId: Id, rows: seq<Id>)
    requires Sound(db) && Exclusive(db) && Enumerates(rows, StaleIds(db, now)) && Fresh(db, newId)
    requires AcquireLease(db, now, user, account, device, newId, rows).Done? && Exclusive(Reaped(db, now, rows))
    ensures AcquireLease(db, now, user, account, device, newId, rows).value ==
            match LiveOn(Reaped(db, now, rows), account)
            case None => Lease(newId, false)
            case Some(active) => Lease(active, true)
  {
    hide Sound, Schema, Exclusive, LiveOn, EndEach, EndedSessions, EndEntries, Enumerates, StaleIds, Fresh;
    AcquireSucceedsIff(db, now, user, account, device, newId, rows);
  }

  lemma RowsStayOrEnd(db: Db, now: int, rows: seq<Id>)
    requires Sound(db) && Enumerates(rows, StaleIds(db, now))
    ensures forall id | LiveIn(Reaped(db, now, rows), id) :: LiveIn(db, id) && Reaped(db, now, rows).sessions[id] == db.sessions[id]
  {
    hide Sound, EndedAs, IsStale, Reaped;
    ReapedSays(db, now, rows);
    var d := Reaped(db, now, rows);
    forall id | LiveIn(d, id)
      ensures LiveIn(db, id) && d.sessions[id] == db.sessions[id]
    {
      if id in StaleIds(db, now) {
        EndedIsNotLive(d.sessions[id], db.sessions[id], HeartbeatTimeout, now);
      }
    }
  }

  lemma EndedIsNotLive(row: Session, was: Session, reason: Reason, now: int)
    requires EndedAs(row, was, Stale, reason, now)
    ensures !Live(row)
  {
  }

  /** Who is not active holds no lease, and whose status an edit leaves alone or
      sets to active loses none by it. */
  lemma InactiveUsersHoldNothing(db: Db, t: Tick)
    requires Sound(db) && Enabled(World(db, t.now), t) && t.event.EditUser? && Accepted(db, t)
    ensures var d := Happen(db, t);
            && (t.event.newUserStatus in [Some(Suspended), Some(UserDisabled)] ==> forall id | LiveIn(d, id) :: d.sessions[id].user != t.event.user)
            && (t.event.newUserStatus in [None, Some(UserActive)] ==> d.sessions == db.sessions)
  {
    hide Sound, Schema, UpdateUser;
    var ended := UpdateUserIs(db, t.now, t.event.admin, t.event.user, t.event.newRole, t.event.newUserStatus, t.event.rows);
    var d := Happen(db, t);
    forall id | LiveIn(d, id) && t.event.newUserStatus in [Some(Suspended), Some(UserDisabled)]
      ensures d.sessions[id].user != t.event.user
    {
      assert id in SessionsBy(db, t.event.user) <==> id in t.event.rows;
    }
  }

  // -------------------------------------------------------------------- refusals

  ghost function RefusedBy<T>(t: Tx<T>): (e: Option<Error>) {
    if t.Throw? then Some(t.error) else None
  }

  /** What the caller of a request is told if it is refused. */
  ghost function Refusal(db: Db, t: Tick): (e: Option<Error>)
    requires Enabled(World(db, t.now), t)
  {
    match t.event
    case Reap(rows) => RefusedBy(ReapStale(db, t.now, rows))
    case Acquire(user, account, device, newId, rows) => RefusedBy(AcquireLease(db, t.now, user, account, device, newId, rows))
    case Release(actor, session, reason) => RefusedBy(ReleaseLease(db, t.now, actor, session, reason))
    case Heartbeat(user, session, runtime) => RefusedBy(HeartbeatLease(db, t.now, user, session, runtime))
    case ForceRelease(actor, account) => RefusedBy(ForceReleaseAccount(db, t.now, actor, account))
    case Assign(admin, account, user, expiresAt, newId) => RefusedBy(AddAssignment(db, admin, account, user, expiresAt, newId))
    case Unassign(admin, account, user) => RefusedBy(RevokeAssignment(db, t.now, admin, account, user))
    case NewAccount(admin, externalId, status, newId) => RefusedBy(CreateAccount(db, admin, externalId, status, newId))
    case EditAccount(admin, account, externalId, status) => RefusedBy(UpdateAccount(db, admin, account, externalId, status))
    case DropAccount(admin, account) => RefusedBy(DeleteAccount(db, admin, account))
    case EnrolDevice(user, publicKey, newId) => RefusedBy(RegisterDevice(db, user, publicKey, newId))
    case BlockDevice(admin, device, rows) => RefusedBy(RevokeDevice(db, t.now, admin, device, rows))
    case UnblockDevice(admin, device) => RefusedBy(ApproveDevice(db, admin, device))
    case NewUser(admin, email, role, newId) => RefusedBy(CreateUser(db, admin, email, role, newId))
    case EditUser(admin, user, role, status, rows) => RefusedBy(UpdateUser(db, t.now, admin, user, role, status, rows))
  }

  /** A session of the account that will not go stale by itself right now. */
  predicate Holds(db: Db, id: Id, account: Id, now: int) {
    LiveIn(db, id) && db.sessions[id].account == account && !IsStale(db.sessions[id], now)
  }

  predicate OtherHas(db: Db, externalId: string, account: Id) {
    exists a | a in db.accounts && a != account :: db.accounts[a].externalId == externalId
  }

  /** Whose entry in the log could not be written. */
  predicate Unknown(db: Db, actor: Id, e: Error) {
    e == ConstraintFailed(ForeignKey) && actor !in db.users
  }

  ghost predicate AcquireRefused(db: Db, now: int, user: Id, account: Id, device: Id, e: Error) {
    || (e == NoActiveAssignment && !Authorized(db, user, account, now))
    || (e == DeviceNotAuthorized && !OwnsActiveDevice(db, user, device))
    || (e == AccountUnavailable && !IsAvailable(db, account))
    || (e == AccountBusy && exists id :: Holds(db, id, account, now) && now - 4 * 3600000 <= db.sessions[id].startedAt
                                         && !(db.sessions[id].user == user && db.sessions[id].device == device))
    || (e == ConstraintFailed(CheckReason) && exists id :: Holds(db, id, account, now) && db.sessions[id].startedAt < now - 4 * 3600000)
  }

  predicate ReleaseRefused(db: Db, actor: Actor, session: Id, reason: Reason, e: Error) {
    || (e == InvalidReleaseReason && reason in [ProcessExit, HeartbeatTimeout])
    || (e == SessionNotFound && session !in db.sessions)
    || (e == Forbidden && session in db.sessions && db.sessions[session].user != actor.id && actor.role == Operator)
    || (e == ConstraintFailed(CheckReason) && reason == LeaseTimeout && session in db.sessions && db.sessions[session].user == actor.id)
    || Unknown(db, actor.id, e)
  }

  predicate HeartbeatRefused(db: Db, user: Id, session: Id, e: Error) {
    e == SessionNotFound && !(LiveIn(db, session) && db.sessions[session].user == user && db.sessions[session].status != Stopping)
  }

  predicate ForceReleaseRefused(db: Db, actor: Actor, e: Error) {
    (e == Forbidden && actor.role == Operator) || Unknown(db, actor.id, e)
  }

  predicate AssignRefused(db: Db, admin: Id, account: Id, user: Id, e: Error) {
    || (e == AccountNotFound && account !in db.accounts)
    || (e == AccountUnavailable && account in db.accounts && db.accounts[account].status != Available)
    || (e == UserNotFound && !(user in db.users && db.users[user].status == UserActive))
    || (e == InvalidAssignment && user in db.users && db.users[user].role == Admin)
    || Unknown(db, admin, e)
  }

  predicate UnassignRefused(db: Db, admin: Id, account: Id, user: Id, e: Error) {
    || (e == AssignmentNotFound && forall a | a in db.assignments :: !OfPair(db.assignments[a], account, user))
    || Unknown(db, admin, e)
  }

  predicate NewAccountRefused(db: Db, admin: Id, externalId: string, e: Error) {
    || (e == AccountExists && exists a | a in db.accounts :: db.accounts[a].externalId == externalId)
    || Unknown(db, admin, e)
  }

  /** An empty identifier is not looked up, and stopped by the table. */
  predicate EditAccountRefused(db: Db, admin: Id, account: Id, externalId: Option<string>, status: Option<AccountStatus>, e: Error) {
    || (e == AccountNotFound && account !in db.accounts)
    || (e == AccountBusy && SessionsAt(db, account) != {} && status in [Some(Maintenance), Some(Disabled)])
    || (externalId.Some? && OtherHas(db, externalId.value, account)
        && e == if externalId.value == "" then ConstraintFailed(UniqueColumn) else AccountExists)
    || Unknown(db, admin, e)
  }

  predicate DropAccountRefused(db: Db, admin: Id, account: Id, e: Error) {
    || (e == AccountNotFound && account !in db.accounts)
    || (e == AccountBusy && SessionsAt(db, account) != {})
    || Unknown(db, admin, e)
  }

  predicate EnrolDeviceRefused(db: Db, user: Id, publicKey: string, e: Error) {
    || (e == DeviceRevoked && exists v | v in db.devices ::
          db.devices[v].user == user && db.devices[v].publicKey == publicKey && !db.devices[v].active)
    || Unknown(db, user, e)
  }

  predicate SwitchDeviceRefused(db: Db, admin: Id, device: Id, e: Error) {
    (e == DeviceNotFound && device !in db.devices) || Unknown(db, admin, e)
  }

  predicate NewUserRefused(db: Db, admin: Id, email: string, e: Error) {
    (e == ConstraintFailed(UniqueColumn) && exists u | u in db.users :: db.users[u].email == email) || Unknown(db, admin, e)
  }

  /** Taking somebody out of service. */
  predicate TakesOut(status: Option<UserStatus>) {
    status in [Some(Suspended), Some(UserDisabled)]
  }

  ghost predicate EditUserRefused(db: Db, admin: Id, user: Id, role: Option<Role>, status: Option<UserStatus>, e: Error) {
    || (e == UserNotFound && user !in db.users)
    || (e == SelfLockout && admin == user && TakesOut(status))
    || (e == LastAdminRequired && ActiveAdmins(db) == {user} && (role == Some(Operator) || TakesOut(status)))
    || Unknown(db, admin, e)
  }

  /** What an error says about the request and the tables. */
  ghost predicate Explains(db: Db, t: Tick, error: Error) {
    match t.event
    case Reap(_) => false
    case Acquire(user, account, device, _, _) => AcquireRefused(db, t.now, user, account, device, error)
    case Release(actor, session, reason) => ReleaseRefused(db, actor, session, reason, error)
    case Heartbeat(user, session, _) => HeartbeatRefused(db, user, session, error)
    case ForceRelease(actor, _) => ForceReleaseRefused(db, actor, error)
    case Assign(admin, account, user, _, _) => AssignRefused(db, admin, account, user, error)
    case Unassign(admin, account, user) => UnassignRefused(db, admin, account, user, error)
    case NewAccount(admin, externalId, _, _) => NewAccountRefused(db, admin, externalId, error)
    case EditAccount(admin, account, externalId, status) => EditAccountRefused(db, admin, account, externalId, status, error)
    case DropAccount(admin, account) => DropAccountRefused(db, admin, account, error)
    case EnrolDevice(user, publicKey, _) => EnrolDeviceRefused(db, user, publicKey, error)
    case BlockDevice(admin, device, _) => SwitchDeviceRefused(db, admin, device, error)
    case UnblockDevice(admin, device) => SwitchDeviceRefused(db, admin, device, error)
    case NewUser(admin, email, _, _) => NewUserRefused(db, admin, email, error)
    case EditUser(admin, user, role, status, _) => EditUserRefused(db, admin, user, role, status, error)
  }

  lemma AcquireExplains(db: Db, now: int, user: Id, account: Id, device: Id, newId: Id, rows: seq<Id>)
    requires Sound(db) && Exclusive(db) && Enumerates(rows, StaleIds(db, now)) && Fresh(db, newId)
    ensures var t := AcquireLease(db, now, user, account, device, newId, rows);
            t.Throw? ==> AcquireRefused(db, now, user, account, device, t.error) && t.db == db
  {
    hide Sound, Fresh, LiveOn, EndEach, EndedSessions, EndEntries, Enumerates, StaleIds, Schema, IsStale, Exclusive;
    AcquireSucceedsIff(db, now, user, account, device, newId, rows);
    ReapSound(db, now, rows);
    var d := Reaped(db, now, rows);
    RowsStayOrEnd(db, now, rows);
    if LiveOn(d, account).Some? {
      assert Holds(db, LiveOn(d, account).value, account, now);
    }
  }

  lemma ReleaseExplains(db: Db, now: int, actor: Actor, session: Id, reason: Reason)
    ensures var t := ReleaseLease(db, now, actor, session, reason);
            t.Throw? ==> ReleaseRefused(db, actor, session, reason, t.error) && t.db == db
  {
  }

  lemma HeartbeatExplains(db: Db, now: int, user: Id, session: Id, runtime: RuntimeState)
    requires session in db.sessions ==> db.sessions[session].user in db.users
    ensures var t := HeartbeatLease(db, now, user, session, runtime);
            t.Throw? ==> HeartbeatRefused(db, user, session, t.error) && t.db == db
  {
    hide Authorized;
  }

  lemma ForceReleaseExplains(db: Db, now: int, actor: Actor, account: Id)
    requires Exclusive(db)
    ensures var t := ForceReleaseAccount(db, now, actor, account);
            t.Throw? ==> ForceReleaseRefused(db, actor, t.error) && t.db == db
  {
    hide LiveOn, Exclusive;
  }

  lemma AssignExplains(db: Db, admin: Id, account: Id, user: Id, expiresAt: Option<int>, newId: Id)
    requires UniqueColumns(db)
    ensures var t := AddAssignment(db, admin, account, user, expiresAt, newId);
            t.Throw? ==> AssignRefused(db, admin, account, user, t.error) && t.db == db
  {
    hide AssignmentOf, UniqueColumns;
  }

  lemma UnassignExplains(db: Db, now: int, admin: Id, account: Id, user: Id)
    requires UniqueColumns(db) && Exclusive(db)
    ensures var t := RevokeAssignment(db, now, admin, account, user);
            t.Throw? ==> UnassignRefused(db, admin, account, user, t.error) && t.db == db
  {
    OnePair(db, account, user);
    hide AssignmentOf, UniqueColumns, LiveOn, Exclusive;
  }

  lemma NewAccountExplains(db: Db, admin: Id, externalId: string, status: AccountStatus, newId: Id)
    ensures var t := CreateAccount(db, admin, externalId, status, newId);
            t.Throw? ==> NewAccountRefused(db, admin, externalId, t.error) && t.db == db
  {
  }

  lemma UnblockDeviceExplains(db: Db, admin: Id, device: Id)
    ensures var t := ApproveDevice(db, admin, device); t.Throw? ==> SwitchDeviceRefused(db, admin, device, t.error) && t.db == db
  {
  }

  lemma NewUserExplains(db: Db, admin: Id, email: string, role: Role, newId: Id)
    ensures var t := CreateUser(db, admin, email, role, newId); t.Throw? ==> NewUserRefused(db, admin, email, t.error) && t.db == db
  {
  }

  lemma EditAccountExplains(db: Db, admin: Id, account: Id, externalId: Option<string>, status: Option<AccountStatus>)
    requires Exclusive(db)
    ensures var t := UpdateAccount(db, admin, account, externalId, status);
            t.Throw? ==> EditAccountRefused(db, admin, account, externalId, status, t.error) && t.db == db
  {
    OneOnAccount(db, account);
    hide LiveOn, Exclusive, SessionsAt;
  }

  lemma DropAccountExplains(db: Db, admin: Id, account: Id)
    requires Exclusive(db)
    ensures var t := DeleteAccount(db, admin, account);
            t.Throw? ==> DropAccountRefused(db, admin, account, t.error) && t.db == db
  {
    OneOnAccount(db, account);
    hide LiveOn, Exclusive, SessionsAt, WithoutAccount;
  }

  lemma EnrolDeviceExplains(db: Db, user: Id, publicKey: string, newId: Id)
    requires UniqueColumns(db)
    ensures var t := RegisterDevice(db, user, publicKey, newId);
            t.Throw? ==> EnrolDeviceRefused(db, user, publicKey, t.error) && t.db == db
  {
    hide DeviceOf, UniqueColumns;
  }

  lemma BlockDeviceExplains(db: Db, now: int, admin: Id, device: Id, rows: seq<Id>)
    requires Enumerates(rows, SessionsOn(db, device))
    ensures var t := RevokeDevice(db, now, admin, device, rows);
            t.Throw? ==> SwitchDeviceRefused(db, admin, device, t.error) && t.db == db
  {
    RevokedDeviceHoldsNothing(db, now, admin, device, rows);
    hide EndEach, Enumerates;
  }

  lemma EditUserExplains(db: Db, now: int, admin: Id, user: Id, role: Option<Role>, status: Option<UserStatus>, rows: seq<Id>)
    requires Enumerates(rows, SessionsBy(db, user))
    ensures var t := UpdateUser(db, now, admin, user, role, status, rows);
            t.Throw? ==> EditUserRefused(db, admin, user, role, status, t.error) && t.db == db
  {
    LastAdmin(db, user);
    hide EndEach, ActiveAdmins;
    if user in db.users {
      var updated := db.(users := db.users[user := UpdatedUser(db.users[user], role, status)]);
      var how := Ending(Ended, ErrorReason, SessionEnded, Some(admin));
      EndEachShrinks(updated, rows, how, now);
      if admin in db.users {
        EndEachIsExact(updated, rows, how, now);
      }
      EndEachRefuses(updated, rows, how, now);
    }
  }

  lemma {:induction false} EndEachRefuses(db: Db, rows: seq<Id>, how: Ending, now: int)
    requires (forall id | id in rows :: id in db.sessions) && AllowedReason(Some(how.reason))
    ensures EndEach(db, rows, how, now).Throw? ==> EndEach(db, rows, how, now).error == ConstraintFailed(ForeignKey)
    decreases |rows|
  {
    if rows != [] {
      var first := End(db, rows[0], how, now);
      if first.Done? {
        EndEachRefuses(first.db, rows[1..], how, now);
      }
    }
  }

  lemma LeasingExplains(db: Db, t: Tick)
    requires Sound(db) && Enabled(World(db, t.now), t) && Leasing(t.event)
    ensures Refusal(db, t).Some? ==> Explains(db, t, Refusal(db, t).value) && Happen(db, t) == db
  {
    SchemaHolds(db);
    SoundActors(db);
    hide Sound, Schema, Exclusive, UniqueColumns, Fresh, ReapStale, AcquireLease, ReleaseLease, HeartbeatLease, ForceReleaseAccount,
         AcquireRefused, ReleaseRefused, HeartbeatRefused, ForceReleaseRefused, StaleIds;
    match t.event
    case Reap(rows) => ReapSound(db, t.now, rows);
    case Acquire(user, account, device, newId, rows) => AcquireExplains(db, t.now, user, account, device, newId, rows);
    case Release(actor, session, reason) => ReleaseExplains(db, t.now, actor, session, reason);
    case Heartbeat(user, session, runtime) => HeartbeatExplains(db, t.now, user, session, runtime);
    case ForceRelease(actor, account) => ForceReleaseExplains(db, t.now, actor, account);
  }

  lemma AdministrationExplains(db: Db, t: Tick)
    requires Sound(db) && Enabled(World(db, t.now), t) && !Leasing(t.event)
    ensures Refusal(db, t).Some? ==> Explains(db, t, Refusal(db, t).value) && Happen(db, t) == db
  {
    SchemaHolds(db);
    hide Sound, Schema, Exclusive, UniqueColumns, Fresh, AddAssignment, RevokeAssignment, UpdateAccount, DeleteAccount, RegisterDevice,
         RevokeDevice, UpdateUser, CreateAccount, ApproveDevice, CreateUser, AssignRefused, UnassignRefused, NewAccountRefused,
         EditAccountRefused, DropAccountRefused, EnrolDeviceRefused, SwitchDeviceRefused, NewUserRefused, EditUserRefused, SessionsOn,
         SessionsBy;
    match t.event
    case NewAccount(admin, externalId, status, newId) => NewAccountExplains(db, admin, externalId, status, newId);
    case UnblockDevice(admin, device) => UnblockDeviceExplains(db, admin, device);
    case NewUser(admin, email, role, newId) => NewUserExplains(db, admin, email, role, newId);
    case Assign(admin, account, user, expiresAt, newId) => AssignExplains(db, admin, account, user, expiresAt, newId);
    case Unassign(admin, account, user) => UnassignExplains(db, t.now, admin, account, user);
    case EditAccount(admin, account, externalId, status) => EditAccountExplains(db, admin, account, externalId, status);
    case DropAccount(admin, account) => DropAccountExplains(db, admin, account);
    case EnrolDevice(user, publicKey, newId) => EnrolDeviceExplains(db, user, publicKey, newId);
    case BlockDevice(admin, device, rows) => BlockDeviceExplains(db, t.now, admin, device, rows);
    case EditUser(admin, user, role, status, rows) => EditUserExplains(db, t.now, admin, user, role, status, rows);
  }

  /** A refusal changes nothing and names something that is so: whatever error
      the caller is told, of whichever request, the tables bear it out. */
  lemma RefusalsAreTrue(db: Db, t: Tick)
    requires Sound(db) && Enabled(World(db, t.now), t)
    ensures Refusal(db, t).Some? <==> !Accepted(db, t)
    ensures Refusal(db, t).Some? ==> Explains(db, t, Refusal(db, t).value) && Happen(db, t) == db
  {
    RefusedIsNotAccepted(db, t);
    hide Sound, Enabled, Explains, Refusal, Happen, Accepted;
    if Leasing(t.event) {
      LeasingExplains(db, t);
    } else {
      AdministrationExplains(db, t);
    }
  }

  lemma RefusedIsNotAccepted(db: Db, t: Tick)
    requires Enabled(World(db, t.now), t)
    ensures Refusal(db, t).Some? <==> !Accepted(db, t)
  {
    SchemaHolds(db);
    hide Schema, Exclusive, UniqueColumns, Fresh, ReapStale, AcquireLease, ReleaseLease, HeartbeatLease, ForceReleaseAccount, AddAssignment,
         RevokeAssignment, CreateAccount, UpdateAccount, DeleteAccount, RegisterDevice, RevokeDevice, ApproveDevice, CreateUser, UpdateUser;
  }
}
