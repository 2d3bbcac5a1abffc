/** Whole histories of the settings files: switches, sign-ins, Riot's own
    writes, crashes at any step and recoveries that are themselves cut off. */
module SessionRuns {
  import opened Wrappers
  import opened SettingsDisk
  import opened SessionManager
  import opened Provisioner
  import opened SessionRecovery
  import opened SessionSafety

  // --------------------------------------------------------------------- runs

  /** `own` follows what the user's files are; `session` is the sandbox this
      process owns, with what it remembers about the originals. */
  datatype World = World(files: Files, own: Own, session: Option<(StagingId, seq<(SettingsFile, bool)>)>)

  datatype Event =
    | Switch(account: Content, owner: string, launches: bool, script: seq<Outcome>)
    | CleanUp(script: seq<Outcome>)
    | SignIn(id: StagingId, launches: bool, script: seq<Outcome>)
    | EndSignIn(script: seq<Outcome>)
    | RecoverAll(listing: seq<StagingId>, script: seq<Outcome>)
    | RiotWrites(file: SettingsFile, content: Option<Content>)
    | UserWrites(file: SettingsFile, content: Option<Content>)
    | Dies

  /** No sandbox left behind, and nothing in the way of a switch. */
  ghost predicate Calm(files: Files) {
    NoManifest(files) && Switchable(files)
  }

  /** The fault model, told by the disk alone: an operation or a write happens,
      also after one that failed, wherever the disk allows it. */
  ghost predicate Enabled(w: World, e: Event) {
    match e
    case Switch(_, _, _, _) => w.session.None? && MaySwitch(w.files)
    case CleanUp(_) => w.session.None? && MayCleanUp(w.files)
    case SignIn(id, _, _) => w.session.None? && MaySignIn(w.files) && Staging(id) !in w.files
    case EndSignIn(_) => w.session.Some?
    case RecoverAll(listing, _) => w.session.None? && Lists(listing, w.files)
    case RiotWrites(f, _) => MayRiotWrite(w.files, f)
    case UserWrites(f, _) => w.session.None? && MayUserWrite(w.files, f)
    case Dies => true
  }

  function Happen(w: World, e: Event): (r: World)
    requires e.EndSignIn? ==> w.session.Some?
  {
    match e
    case Switch(account, owner, launches, script) =>
      w.(files := SwitchSession(DiskState(w.files, script, false), account, owner, launches).disk.files)
    case CleanUp(script) =>
      w.(files := RestoreManaged(DiskState(w.files, script, false)).disk.files)
    case SignIn(id, launches, script) =>
      var p := StartSignIn(DiskState(w.files, script, false), id, launches);
      var owned := p.session.Some? && !p.disk.crashed;
      w.(files := p.disk.files, session := if owned then Some((id, Entries(w.files, FILES))) else None)
    case EndSignIn(script) =>
      var s := Finish(DiskState(w.files, script, false), w.session.value.0, w.session.value.1);
      w.(files := s.disk.files, session := if s.ok || s.disk.crashed then None else w.session)
    case RecoverAll(listing, script) =>
      w.(files := Recover(DiskState(w.files, script, false), listing).disk.files)
    case RiotWrites(f, content) => w.(files := SetFile(w.files, f, content))
    case UserWrites(f, content) => w.(files := SetFile(w.files, f, content), own := SetOwn(w.own, f, content))
    case Dies => w.(session := None)
  }

  ghost function Next(w: World, e: Event): (r: World) {
    if Enabled(w, e) then Happen(w, e) else w
  }

  ghost function Run(w: World, events: seq<Event>): (r: World)
    decreases |events|
  {
    if events == [] then w else Next(Run(w, events[..|events| - 1]), events[|events| - 1])
  }

  /** A disk LAAP has not touched yet. */
  ghost predicate Fresh(w: World) {
    w.session.None? && Restored(w.files, w.own) && Owner !in w.files
  }

  ghost predicate Recoverable(w: World) {
    && Safe(w.files, w.own)
    && (w.session.Some? ==> Manifest(w.session.value.0) in w.files
                            && w.files[Manifest(w.session.value.0)] == Originals(w.session.value.1))
  }

  lemma FreshIsRecoverable(w: World)
    requires Fresh(w)
    ensures Recoverable(w) && Calm(w.files)
  {
    assert forall f :: Matches(w.files, w.own, f);
    SafeAlone(w.files, w.own);
  }

  lemma ManifestStays(before: Files, after: Files, session: Option<(StagingId, seq<(SettingsFile, bool)>)>)
    requires OnlySettingsDiffer(before, after) && session.Some?
    requires Manifest(session.value.0) in before
    ensures Manifest(session.value.0) in after && after[Manifest(session.value.0)] == before[Manifest(session.value.0)]
  {
  }

  lemma RiotWritesStep(w: World, e: Event)
    requires Recoverable(w) && Enabled(w, e) && e.RiotWrites?
    ensures Recoverable(Happen(w, e))
  {
    hide Safe, MayRiotWrite;
    RiotWriteKeepsSafe(w.files, w.own, e.file, e.content);
    if w.session.Some? {
      ManifestStays(w.files, SetFile(w.files, e.file, e.content), w.session);
    }
  }

  lemma RecoverableNext(w: World, e: Event)
    requires Recoverable(w)
    ensures Recoverable(Next(w, e))
  {
    hide Safe, SwitchSession, RestoreManaged, StartSignIn, Finish, Recover, Lists, SetFile, SetOwn, Entries,
         MaySwitch, MayCleanUp, MaySignIn, MayRiotWrite, MayUserWrite;
    if Enabled(w, e) {
      match e
      case Switch(account, owner, launches, script) =>
        SwitchKeepsSafe(DiskState(w.files, script, false), account, owner, launches, w.own);
      case CleanUp(script) => CleanUpKeepsSafe(DiskState(w.files, script, false), w.own);
      case SignIn(id, launches, script) => StartGuards(DiskState(w.files, script, false), id, launches, w.own);
      case EndSignIn(script) => FinishGuards(DiskState(w.files, script, false), w.session.value.0, w.session.value.1, w.own);
      case RecoverAll(listing, script) => RecoverGuards(DiskState(w.files, script, false), listing, w.own);
      case RiotWrites(_, _) => RiotWritesStep(w, e);
      case UserWrites(f, content) => UserWriteKeepsSafe(w.files, w.own, f, content);
      case Dies =>
    }
  }

  lemma {:induction false} RunsAreRecoverable(w: World, events: seq<Event>)
    requires Fresh(w)
    ensures Recoverable(Run(w, events))
    decreases |events|
  {
    hide Next, Recoverable, Fresh;
    if events == [] {
      FreshIsRecoverable(w);
    } else {
      RunsAreRecoverable(w, events[..|events| - 1]);
      RecoverableNext(Run(w, events[..|events| - 1]), events[|events| - 1]);
    }
  }

  /** Whatever happened, in whatever order and however often it was cut off, a
      recovery that is allowed to finish puts back exactly the user's settings
      files and leaves no marker, backup or staging behind; so it does after any
      further recoveries that are not. */
  lemma EveryRunRecovers(w: World, events: seq<Event>)
    requires Fresh(w)
    ensures Retrievable(Run(w, events).files, Run(w, events).own)
    ensures forall listing | Lists(listing, Run(w, events).files) ::
              var s := Recover(DiskState(Run(w, events).files, [], false), listing);
              s.ok && Restored(s.disk.files, Run(w, events).own)
  {
    hide Run, Recover, Safe, Fresh, Retrievable, Lists, Restored;
    RunsAreRecoverable(w, events);
    SafeIsRetrievable(Run(w, events).files, Run(w, events).own);
    forall listing | Lists(listing, Run(w, events).files)
      ensures var s := Recover(DiskState(Run(w, events).files, [], false), listing); s.ok && Restored(s.disk.files, Run(w, events).own)
    {
      RecoverGuards(DiskState(Run(w, events).files, [], false), listing, Run(w, events).own);
    }
  }

  /** Recoveries cut off any number of times, then one to the end: the files are
      those of a single uninterrupted recovery, the owner note aside. */
  lemma RecoveryRestarts(w: World, events: seq<Event>, cuts: seq<Event>, one: seq<StagingId>, other: seq<StagingId>)
    requires Fresh(w) && Run(w, events).session.None? && forall e | e in cuts :: e.RecoverAll?
    requires Lists(one, Run(w, events).files) && Lists(other, Run(w, events + cuts).files)
    ensures Run(w, events + cuts).own == Run(w, events).own && Run(w, events + cuts).session.None?
    ensures Recover(DiskState(Run(w, events).files, [], false), one).disk.files - {Owner} ==
            Recover(DiskState(Run(w, events + cuts).files, [], false), other).disk.files - {Owner}
  {
    hide Recover, Fresh, Run, Retrievable, Lists, Restored;
    OnlyRecoveries(w, events, cuts);
    EveryRunRecovers(w, events);
    EveryRunRecovers(w, events + cuts);
    RestoredIsUnique(Recover(DiskState(Run(w, events).files, [], false), one).disk.files,
                     Recover(DiskState(Run(w, events + cuts).files, [], false), other).disk.files, Run(w, events).own);
  }

  lemma {:induction false} OnlyRecoveries(w: World, events: seq<Event>, cuts: seq<Event>)
    requires forall e | e in cuts :: e.RecoverAll?
    ensures Run(w, events + cuts).own == Run(w, events).own && Run(w, events + cuts).session == Run(w, events).session
    decreases |cuts|
  {
    hide Recover, Lists;
    if cuts == [] {
      assert events + cuts == events;
    } else {
      var n := |cuts| - 1;
      assert cuts[n] in cuts;
      assert (events + cuts)[..|events + cuts| - 1] == events + cuts[..n];
      OnlyRecoveries(w, events, cuts[..n]);
    }
  }

  /** The operation reports success. */
  ghost predicate Completes(w: World, e: Event)
    requires Enabled(w, e)
  {
    match e
    case Switch(account, owner, launches, script) =>
      SwitchSession(DiskState(w.files, script, false), account, owner, launches).ok
    case CleanUp(script) => RestoreManaged(DiskState(w.files, script, false)).ok
    case EndSignIn(script) => Finish(DiskState(w.files, script, false), w.session.value.0, w.session.value.1).ok
    case RecoverAll(listing, script) => Recover(DiskState(w.files, script, false), listing).ok
    case _ => false
  }

  ghost predicate OnlyManifest(files: Files, id: StagingId) {
    forall other | Manifest(other) in files :: other == id
  }

  /** An operation that completes leaves a calm state, in which every operation
      may run next. Only what was there before it can be in the way: another
      sandbox, or, once a sign-in ends, a marker without all its backups or a
      backup the sandbox knows nothing of. */
  lemma CompletedIsCalm(w: World, e: Event)
    requires Recoverable(w) && Enabled(w, e) && Completes(w, e)
    requires e.Switch? || e.CleanUp? ==> NoManifest(w.files)
    requires e.EndSignIn? ==> OnlyManifest(w.files, w.session.value.0) && MayCleanUp(w.files) && (Marker in w.files ==> Secured(w.files))
    ensures Calm(Happen(w, e).files)
  {
    hide SwitchSession, RestoreManaged, Finish, Recover, Safe, Switchable, BOOKKEEPING, Lists;
    match e
    case Switch(account, owner, launches, script) =>
      var d := DiskState(w.files, script, false);
      SafeAlone(w.files, w.own);
      SwitchGuards(d, account, owner, launches, w.own);
      SameTidyAlone(w.files, SwitchSession(d, account, owner, launches).disk.files);
    case CleanUp(script) =>
      var d := DiskState(w.files, script, false);
      SafeAlone(w.files, w.own);
      RestoreManagedGuards(d, w.own);
      NothingNoted(RestoreManaged(d).disk.files);
    case EndSignIn(script) =>
      var d := DiskState(w.files, script, false);
      FinishGuards(d, w.session.value.0, w.session.value.1, w.own);
      FinishedIsSwitchable(w.files, Finish(d, w.session.value.0, w.session.value.1).disk.files, w.session.value.0);
    case RecoverAll(listing, script) =>
      var d := DiskState(w.files, script, false);
      RecoverGuards(d, listing, w.own);
      RestoredIsCalm(Recover(d, listing).disk.files, w.own);
  }

  lemma SameTidyAlone(before: Files, after: Files)
    requires NoManifest(before) && SameStaging(before, after)
    ensures NoManifest(after)
  {
  }

  lemma NothingNoted(files: Files)
    requires forall p | p in BOOKKEEPING :: p !in files
    ensures Switchable(files)
  {
    AllBookkeeping();
  }

  lemma RestoredIsCalm(files: Files, own: Own)
    requires Restored(files, own)
    ensures Calm(files)
  {
  }

  lemma FinishedIsSwitchable(before: Files, after: Files, id: StagingId)
    requires Recorded(before, id) && SameRecords(before, after) && MayCleanUp(before) && (Marker in before ==> Secured(before))
    requires forall f :: Settings(f) in after <==> Existed(before, id, f)
    ensures Switchable(after)
  {
    SameNotes(before, after);
    forall f | Backup(f) in after
      ensures Settings(f) in after
    {
      assert RecordAgrees(before, id, f);
    }
  }

  // ------------------------------------------------------ where the edges lie

  /** The owner note outlives a recovery when the crash fell between removing
      the marker and removing the note. */
  lemma OwnerNoteCanStay(owner: Content)
    ensures var d := DiskState(map[Marker := MissingFiles(FILES), Owner := owner], [Outcome.Completes, Crashes], false);
            var cut := RestoreManaged(d).disk.files;
            && Guarded(d.files, map[]) && !RestoreManaged(d).ok
            && Recover(DiskState(cut, [], false), []) == Step(DiskState(map[Owner := owner], [], false), true)
  {
    AllFiles();
  }

  lemma {:induction false} UnrecordedStays(d: DiskState, missing: seq<SettingsFile>, todo: seq<SettingsFile>, f: SettingsFile)
    requires Settings(f) in d.files && Backup(f) !in d.files && f !in missing
    ensures var s := RestoreFiles(d, missing, todo); Settings(f) in s.disk.files && s.disk.files[Settings(f)] == d.files[Settings(f)]
    decreases |todo|
  {
    hide Attempt;
    if todo != [] && RestoreOne(d, missing, todo[0]).ok {
      UnrecordedStays(RestoreOne(d, missing, todo[0]).disk, missing, todo[1..], f);
    }
  }

  lemma RestoreKeepsUnrecorded(d: DiskState, f: SettingsFile)
    requires Settings(f) in d.files && !Noted(d.files, f)
    ensures var s := RestoreManaged(d); Settings(f) in s.disk.files && s.disk.files[Settings(f)] == d.files[Settings(f)]
  {
    hide RestoreFiles, RemoveAll, BOOKKEEPING, FILES;
    if MarkedMissing(d.files).Some? {
      var missing := MarkedMissing(d.files).value;
      UnrecordedStays(d, missing, FILES, f);
      BookkeepingKinds();
      RemoveBookkeeping(RestoreFiles(d, missing, FILES).disk, BOOKKEEPING);
      assert SameSetting(RestoreManaged(d).disk.files, RestoreFiles(d, missing, FILES).disk.files, f);
    }
  }

  /** A file lost stays lost, however recovery goes. */
  lemma LostStaysLost(d: DiskState, own: Own, session: Content, f: SettingsFile, listing: seq<StagingId>)
    requires Lost(d.files, own, session, f) && NoManifest(d.files)
    ensures !Restored(Recover(d, listing).disk.files, own)
  {
    hide RecoverAbandoned, RestoreManaged;
    NothingToRecover(d, listing);
    var sandbox := RecoverAbandoned(d, listing).disk;
    assert Settings(f) in sandbox.files && Backup(f) !in sandbox.files && !Listed(sandbox.files, f);
    RestoreKeepsUnrecorded(sandbox, f);
    assert !Matches(Recover(d, listing).disk.files, own, f);
  }

  /** Wherever a switch may not run because of an incomplete marker, running it
      loses a file for good: no recovery brings it back. */
  lemma IncompleteSwitchIsForGood(files: Files, own: Own, session: Content, owner: string, listing: seq<StagingId>, script: seq<Outcome>)
    requires WellFormed(files) && Retrievable(files, own) && Foreign(session, own)
    requires NoManifest(files) && Marker in files && !MaySwitch(files)
    ensures var after := SwitchSession(DiskState(files, [], false), session, owner, true).disk.files;
            !Restored(Recover(DiskState(after, script, false), listing).disk.files, own)
  {
    hide SwitchSession, Recover, Restored, Retrievable, WellFormed, Safe, Switchable, Taken, HoldsSession;
    SafeIff(files, own);
    SafeAlone(files, own);
    SwitchTakes(files, session, owner);
    var after := SwitchSession(DiskState(files, [], false), session, owner, true).disk.files;
    var f := UnswitchableLoses(files, after, session, own);
    TakenStaging(files, after);
    SameTidyAlone(files, after);
    LostStaysLost(DiskState(after, script, false), own, session, f, listing);
  }

  /** How a marker gets incomplete: a clean-up that fails, or is cut off, between
      two backups. The next switch then skips the backups. */
  lemma SwitchBeforeRecoveryLoses(mine: Content, riots: Content, account: Content, stop: Outcome)
    requires stop.Fails? || stop.Crashes?
    ensures var d := DiskState(map[Settings(RiotGames) := riots, Backup(RiotGames) := mine, Marker := MissingFiles([RiotClient])],
                               [Outcome.Completes, Outcome.Completes, stop], false);
            var cut := RestoreManaged(d).disk.files;
            var switched := InjectSession(DiskState(cut, [], false), account).disk.files;
            && Guarded(d.files, map[RiotGames := mine])
            && Recover(DiskState(switched, [], false), []).disk.files == map[Settings(RiotGames) := account]
  {
    hide RestoreManaged, InjectSession, Recover, Guarded;
    var cut := map[Settings(RiotGames) := mine, Marker := MissingFiles([RiotClient])];
    var d := DiskState(map[Settings(RiotGames) := riots, Backup(RiotGames) := mine, Marker := MissingFiles([RiotClient])],
                       [Outcome.Completes, Outcome.Completes, stop], false);
    CutRestore(d, mine, stop);
    var switched := cut[Settings(RiotGames) := account][Settings(RiotClient) := account];
    LateInject(cut, account);
    LateRecover(switched, account);
  }

  lemma LateInject(files: Files, account: Content)
    requires Marker in files
    ensures InjectSession(DiskState(files, [], false), account).disk.files
            == files[Settings(RiotGames) := account][Settings(RiotClient) := account]
  {
    hide RestoreManaged;
    assert FILES == [RiotGames, RiotClient] && FILES[1..] == [RiotClient] && [RiotClient][1..] == [];
  }

  lemma CutRestore(d: DiskState, mine: Content, stop: Outcome)
    requires Settings(RiotGames) in d.files && d.files.Keys == {Settings(RiotGames), Backup(RiotGames), Marker}
    requires d.files[Backup(RiotGames)] == mine && d.files[Marker] == MissingFiles([RiotClient])
    requires d.script == [Outcome.Completes, Outcome.Completes, stop] && !d.crashed && (stop.Fails? || stop.Crashes?)
    ensures RestoreManaged(d).disk.files == map[Settings(RiotGames) := mine, Marker := MissingFiles([RiotClient])]
    ensures Guarded(d.files, map[RiotGames := mine])
  {
    AllFiles();
    var missing := [RiotClient];
    var one := RestoreOne(d, missing, RiotGames);
    assert one.ok && one.disk.script == [Outcome.Completes, stop];
    assert RestoreFiles(d, missing, FILES) == RestoreFiles(one.disk, missing, [RiotClient]) == Step(one.disk, true) by {
      assert FILES[1..] == [RiotClient] && [RiotClient][1..] == [];
    }
    var two := RemoveIfPresent(one.disk, Backup(RiotGames));
    assert two.ok && two.disk.script == [stop];
    assert BOOKKEEPING[1..] == [Backup(RiotClient), Marker, Owner];
    assert RemoveAll(one.disk, BOOKKEEPING) == RemoveAll(two.disk, [Backup(RiotClient), Marker, Owner]);
    assert [Backup(RiotClient), Marker, Owner][1..] == [Marker, Owner];
    assert RemoveAll(two.disk, [Backup(RiotClient), Marker, Owner]) == RemoveAll(two.disk, [Marker, Owner]);
    assert !RemoveAll(two.disk, [Marker, Owner]).ok && RemoveAll(two.disk, [Marker, Owner]).disk.files == two.disk.files;
    forall f
      ensures f in [RiotClient] <==> f !in map[RiotGames := mine]
    {
      match f
      case RiotGames =>
      case RiotClient =>
    }
  }

  lemma LateRecover(files: Files, account: Content)
    requires files == map[Settings(RiotGames) := account, Settings(RiotClient) := account, Marker := MissingFiles([RiotClient])]
    ensures Recover(DiskState(files, [], false), []).disk.files == map[Settings(RiotGames) := account]
  {
    AllFiles();
    var d := DiskState(files, [], false);
    var missing := [RiotClient];
    var gone := RestoreOne(d, missing, RiotClient);
    assert FILES[1..] == [RiotClient] && [RiotClient][1..] == [];
    assert RestoreFiles(d, missing, FILES) == RestoreFiles(d, missing, [RiotClient]) == RestoreFiles(gone.disk, missing, []);
    assert BOOKKEEPING[1..] == [Backup(RiotClient), Marker, Owner] && [Backup(RiotClient), Marker, Owner][1..] == [Marker, Owner];
    assert [Marker, Owner][1..] == [Owner] && [Owner][1..] == [];
    var end := RemoveIfPresent(gone.disk, Marker);
    assert RemoveAll(gone.disk, BOOKKEEPING) == RemoveAll(gone.disk, [Marker, Owner]) == RemoveAll(end.disk, [Owner]);
  }

  /** How a second sandbox comes about, and what it costs: a sign-in that fails
      while it clears the settings files away, and fails again while it undoes
      itself, leaves a sandbox and half the files. The next sign-in stages those,
      and a crash after it leaves both sandboxes to a recovery that may meet the
      second one last. */
  lemma SecondSignInLoses(mine: Content, theirs: Content)
    ensures var d := DiskState(map[Settings(RiotGames) := mine, Settings(RiotClient) := theirs],
                               [Outcome.Completes, Outcome.Completes, Outcome.Completes, Outcome.Completes, Outcome.Completes, Fails, Fails], false);
            var left := StartSignIn(d, 1, true).disk.files;
            var second := StartSignIn(DiskState(left, [], false), 2, true).disk.files;
            var s := Recover(DiskState(second, [], false), [1, 2]);
            && Retrievable(left, map[RiotGames := mine, RiotClient := theirs])
            && s.ok && Settings(RiotGames) !in s.disk.files
  {
    hide StartSignIn, Recover, Retrievable, Safe;
    var own := map[RiotGames := mine, RiotClient := theirs];
    var d := DiskState(map[Settings(RiotGames) := mine, Settings(RiotClient) := theirs],
                       [Outcome.Completes, Outcome.Completes, Outcome.Completes, Outcome.Completes, Outcome.Completes, Fails, Fails], false);
    FreshIsSafe(d.files, own);
    StartGuards(d, 1, true, own);
    HalfUndone(d, mine, theirs);
    var left := StartSignIn(d, 1, true).disk.files;
    SafeIsRetrievable(left, own);
    SafeIsWellFormed(left, own);
    var second := StartSignIn(DiskState(left, [], false), 2, true).disk.files;
    assert Lists([1, 2], left[Staging(2) := Directory]) by {
      assert forall id: StagingId :: id in [1, 2] <==> id == 1 || id == 2;
    }
    SignInLoses(left, own, 2, 1, RiotGames, [1, 2]);
  }

  lemma FreshIsSafe(files: Files, own: Own)
    requires Restored(files, own)
    ensures Safe(files, own) && MaySignIn(files)
  {
    assert forall f :: Matches(files, own, f);
    SafeAlone(files, own);
  }

  /** Both files staged, in four steps. */
  function BothStagedAway(mine: Content, theirs: Content): (files: Files) {
    map[Settings(RiotGames) := mine, Settings(RiotClient) := theirs,
        Staging(1) := Directory, Staged(1, RiotGames) := mine, Staged(1, RiotClient) := theirs,
        Manifest(1) := Originals([(RiotGames, true), (RiotClient, true)])]
  }

  lemma StageBoth(d: DiskState, mine: Content, theirs: Content)
    requires d.files == map[Settings(RiotGames) := mine, Settings(RiotClient) := theirs] && !d.crashed
    requires d.script == [Outcome.Completes, Outcome.Completes, Outcome.Completes, Outcome.Completes, Outcome.Completes, Fails, Fails]
    ensures Stage(d, 1) == Step(DiskState(BothStagedAway(mine, theirs), [Outcome.Completes, Fails, Fails], false), true)
  {
    hide RemoveTree;
    assert FILES[1..] == [RiotClient] && [RiotClient][1..] == [];
    var made := Write(d, Staging(1), Directory).disk;
    var one := Write(made, Staged(1, RiotGames), mine).disk;
    var two := Write(one, Staged(1, RiotClient), theirs).disk;
    assert two.script == [Outcome.Completes, Outcome.Completes, Fails, Fails];
    assert CopyIn(made, 1, FILES) == CopyIn(one, 1, [RiotClient]) == CopyIn(two, 1, []) == Step(two, true);
    assert Entries(d.files, FILES) == [(RiotGames, true), (RiotClient, true)];
    assert Write(two, Manifest(1), Originals(Entries(d.files, FILES))).disk.files == BothStagedAway(mine, theirs);
  }

  lemma HalfUndone(d: DiskState, mine: Content, theirs: Content)
    requires d.files == map[Settings(RiotGames) := mine, Settings(RiotClient) := theirs] && !d.crashed
    requires d.script == [Outcome.Completes, Outcome.Completes, Outcome.Completes, Outcome.Completes, Outcome.Completes, Fails, Fails]
    ensures StartSignIn(d, 1, true).disk.files == BothStagedAway(mine, theirs) - {Settings(RiotGames)}
  {
    hide Stage, RemoveTree;
    StageBoth(d, mine, theirs);
    var noted := Stage(d, 1).disk;
    assert SETTINGS[1..] == [Settings(RiotClient)];
    var cleared := Remove(noted, Settings(RiotGames)).disk;
    assert cleared == DiskState(BothStagedAway(mine, theirs) - {Settings(RiotGames)}, [Fails, Fails], false);
    var stuck := Remove(cleared, Settings(RiotClient)).disk;
    assert stuck == DiskState(cleared.files, [Fails], false);
    assert RemoveAll(noted, SETTINGS) == RemoveAll(cleared, [Settings(RiotClient)]) == Step(stuck, false);
    RestoreStuck(stuck, Entries(d.files, FILES));
  }

  lemma RestoreStuck(d: DiskState, entries: seq<(SettingsFile, bool)>)
    requires d.script == [Fails] && !d.crashed && entries != [] && entries[0].1 && Staged(1, entries[0].0) in d.files
    ensures Finish(d, 1, entries).disk.files == d.files
  {
  }
}
