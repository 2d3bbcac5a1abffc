/** The unscoped dashboard: its counters and its account list are two queries
    over the same tables, and they agree. */
module LeaseMetrics {
  import opened Wrappers
  import opened LeaseDb
  import opened LeaseServices
  import opened LeaseInvariants

  predicate Taken(db: Db, account: Id) {
    exists id | id in db.sessions :: Live(db.sessions[id]) && db.sessions[id].account == account
  }

  function AvailableIds(db: Db): (ids: set<Id>) {
    set a | a in db.accounts && db.accounts[a].status.Available? && !Taken(db, a)
  }

  function LiveIds(db: Db): (ids: set<Id>) {
    set id | id in db.sessions && Live(db.sessions[id])
  }

  datatype Metrics = Metrics(availableAccounts: nat, totalAccounts: nat, activeLeases: nat)

  function GetMetrics(db: Db): (m: Metrics) {
    Metrics(|AvailableIds(db)|, |db.accounts|, |LiveIds(db)|)
  }

  /** A row of the left join: an account with one of its live sessions, or with
      none if it has none. */
  datatype Row = Row(account: Id, session: Option<Id>)

  function JoinedRows(db: Db): (rows: set<Row>) {
    (set id | id in LiveIds(db) && db.sessions[id].account in db.accounts :: Row(db.sessions[id].account, Some(id)))
    + (set a | a in db.accounts && !Taken(db, a) :: Row(a, None))
  }

  datatype Label = ShownMaintenance | ShownDisabled | ShownLeased | ShownAvailable

  function LabelOf(db: Db, row: Row): (l: Label)
    requires row.account in db.accounts
  {
    match db.accounts[row.account].status
    case Maintenance => ShownMaintenance
    case Disabled => ShownDisabled
    case Available => if row.session.Some? then ShownLeased else ShownAvailable
  }

  function Labelled(db: Db, shown: Label): (rows: set<Row>) {
    set row | row in JoinedRows(db) && LabelOf(db, row) == shown
  }

  /** Two finite sets in one-to-one correspondence are equally large. */
  lemma {:induction false} SameSize<A(!new), B(!new)>(a: set<A>, b: set<B>, f: A --> B)
    requires forall x | x in a :: f.requires(x) && f(x) in b
    requires forall x, y | x in a && y in a && f(x) == f(y) :: x == y
    requires forall y | y in b :: exists x :: x in a && f(x) == y
    ensures |a| == |b|
    decreases |a|
  {
    if a == {} {
      assert forall y :: y !in b;
      assert b == {};
    } else {
      var x :| x in a;
      forall y | y in b - {f(x)}
        ensures exists z :: z in a - {x} && f(z) == y
      {
        var z :| z in a && f(z) == y;
        assert z in a - {x};
      }
      SameSize(a - {x}, b - {f(x)}, f);
    }
  }

  lemma LiveIsTaken(db: Db, id: Id)
    requires Sound(db) && id in LiveIds(db)
    ensures LiveIn(db, id) && Taken(db, db.sessions[id].account)
    ensures db.sessions[id].account in db.accounts && db.accounts[db.sessions[id].account].status.Available?
  {
    assert LiveIn(db, id);
  }

  lemma OneLease(db: Db, id: Id, other: Id)
    requires Sound(db) && id in LiveIds(db) && other in LiveIds(db) && db.sessions[id].account == db.sessions[other].account
    ensures id == other
  {
    assert LiveIn(db, id) && LiveIn(db, other);
  }

  function AvailableStatus(db: Db): (ids: set<Id>) {
    set a | a in db.accounts && db.accounts[a].status.Available?
  }

  /** No available account is lost or counted twice. */
  lemma AccountsAreConserved(db: Db)
    requires Sound(db)
    ensures GetMetrics(db).availableAccounts + GetMetrics(db).activeLeases == |AvailableStatus(db)|
  {
    hide Sound;
    var leased := set a | a in AvailableStatus(db) && Taken(db, a);
    forall id | id in LiveIds(db)
      ensures db.sessions[id].account in leased
    {
      LiveIsTaken(db, id);
    }
    forall x, y | x in LiveIds(db) && y in LiveIds(db) && db.sessions[x].account == db.sessions[y].account
      ensures x == y
    {
      OneLease(db, x, y);
    }
    forall a | a in leased
      ensures exists id :: id in LiveIds(db) && db.sessions[id].account == a
    {
      var id :| id in db.sessions && Live(db.sessions[id]) && db.sessions[id].account == a;
      assert id in LiveIds(db);
    }
    SameSize(LiveIds(db), leased, id requires id in db.sessions => db.sessions[id].account);
    assert AvailableIds(db) !! leased && AvailableStatus(db) == AvailableIds(db) + leased;
  }

  /** The list shows every account exactly once. */
  lemma EveryAccountOnce(db: Db)
    requires Sound(db)
    ensures forall a | a in db.accounts :: exists row :: row in JoinedRows(db) && row.account == a
    ensures forall row, other | row in JoinedRows(db) && other in JoinedRows(db) && row.account == other.account :: row == other
    ensures |JoinedRows(db)| == GetMetrics(db).totalAccounts
  {
    hide Sound;
    var rows := JoinedRows(db);
    forall a | a in db.accounts
      ensures exists row :: row in rows && row.account == a
    {
      if Taken(db, a) {
        var id :| id in db.sessions && Live(db.sessions[id]) && db.sessions[id].account == a;
        assert id in LiveIds(db) && Row(a, Some(id)) in rows;
      } else {
        assert Row(a, None) in rows;
      }
    }
    forall row, other | row in rows && other in rows && row.account == other.account
      ensures row == other
    {
      if row.session.Some? {
        LiveIsTaken(db, row.session.value);
      }
      if other.session.Some? {
        LiveIsTaken(db, other.session.value);
      }
      if row.session.Some? && other.session.Some? {
        OneLease(db, row.session.value, other.session.value);
      }
    }
    SameSize(rows, db.accounts.Keys, (row: Row) => row.account);
    assert |db.accounts.Keys| == |db.accounts|;
  }

  lemma LeasedRows(db: Db)
    requires Sound(db)
    ensures |Labelled(db, ShownLeased)| == |LiveIds(db)|
  {
    hide Sound, Taken;
    var leased := Labelled(db, ShownLeased);
    forall id | id in LiveIds(db)
      ensures Row(db.sessions[id].account, Some(id)) in leased
    {
      LiveIsTaken(db, id);
    }
    forall row | row in leased
      ensures exists id :: id in LiveIds(db) && Row(db.sessions[id].account, Some(id)) == row
    {
      assert row.session.value in LiveIds(db);
    }
    SameSize(LiveIds(db), leased, id requires id in db.sessions => Row(db.sessions[id].account, Some(id)));
  }

  lemma AvailableRows(db: Db)
    ensures |Labelled(db, ShownAvailable)| == |AvailableIds(db)|
  {
    hide Taken;
    var free := Labelled(db, ShownAvailable);
    assert forall a | a in AvailableIds(db) :: Row(a, None) in free;
    forall row | row in free
      ensures exists a :: a in AvailableIds(db) && Row(a, None) == row
    {
      assert row.account in AvailableIds(db);
    }
    SameSize(AvailableIds(db), free, a => Row(a, None));
  }

  function StatusIds(db: Db, status: AccountStatus): (ids: set<Id>) {
    set a | a in db.accounts && db.accounts[a].status == status
  }

  lemma JoinedAccounts(db: Db)
    requires Sound(db)
    ensures forall row | row in JoinedRows(db) :: row.account in db.accounts
  {
  }

  lemma LabelTells(db: Db, shown: Label, status: AccountStatus)
    requires forall row | row in JoinedRows(db) :: row.account in db.accounts
    requires (shown == ShownMaintenance && status == Maintenance) || (shown == ShownDisabled && status == Disabled)
    ensures forall row | row in Labelled(db, shown) :: row in JoinedRows(db) && row.account in StatusIds(db, status)
    ensures forall row | row in JoinedRows(db) && row.account in StatusIds(db, status) :: row in Labelled(db, shown)
  {
    hide JoinedRows;
  }

  /** An account out of service is shown as just that. */
  lemma OutOfServiceRows(db: Db, shown: Label, status: AccountStatus)
    requires Sound(db)
    requires (shown == ShownMaintenance && status == Maintenance) || (shown == ShownDisabled && status == Disabled)
    ensures |Labelled(db, shown)| == |StatusIds(db, status)|
  {
    EveryAccountOnce(db);
    JoinedAccounts(db);
    LabelTells(db, shown, status);
    hide Sound, JoinedRows, GetMetrics, LabelOf, Labelled;
    forall a | a in StatusIds(db, status)
      ensures exists row :: row in Labelled(db, shown) && row.account == a
    {
      assert a in db.accounts;
      hide StatusIds;
      var row :| row in JoinedRows(db) && row.account == a;
      assert row in Labelled(db, shown);
    }
    hide StatusIds;
    OneRowEach(db, Labelled(db, shown), status);
  }

  lemma OneRowEach(db: Db, rows: set<Row>, status: AccountStatus)
    requires rows <= JoinedRows(db)
    requires forall row | row in rows :: row.account in StatusIds(db, status)
    requires forall row, other | row in JoinedRows(db) && other in JoinedRows(db) && row.account == other.account :: row == other
    requires forall a | a in StatusIds(db, status) :: exists row :: row in rows && row.account == a
    ensures |rows| == |StatusIds(db, status)|
  {
    hide JoinedRows, StatusIds;
    SameSize(rows, StatusIds(db, status), (row: Row) => row.account);
  }

  /** As many rows say Leased as there are active leases, as many say Available as
      there are available accounts, and the others say what their status is. */
  lemma LabelsMatchTheMetrics(db: Db)
    requires Sound(db)
    ensures |Labelled(db, ShownLeased)| == GetMetrics(db).activeLeases
    ensures |Labelled(db, ShownAvailable)| == GetMetrics(db).availableAccounts
    ensures |Labelled(db, ShownMaintenance)| == |StatusIds(db, Maintenance)| && |Labelled(db, ShownDisabled)| == |StatusIds(db, Disabled)|
  {
    LeasedRows(db);
    AvailableRows(db);
    OutOfServiceRows(db, ShownMaintenance, Maintenance);
    OutOfServiceRows(db, ShownDisabled, Disabled);
  }
}
