/** When a switch, a clean-up, a sign-in or a write loses nothing, judged by the
    disk alone: also where an earlier failure left bookkeeping half done, or
    sandboxes behind. */
module SessionSafety {
  import opened Wrappers
  import opened SettingsDisk
  import opened SessionManager
  import opened Provisioner
  import opened SessionRecovery

  // --------------------------------------------------- bookkeeping stays honest

  lemma {:induction false} RemoveAllHonest(d: DiskState, paths: seq<Path>, own: Own)
    requires Honest(d.files, own) && forall p | p in paths :: p.Backup? || p.Marker? || p.Owner?
    ensures var s := RemoveAll(d, paths); Honest(s.disk.files, own) && SameStaging(d.files, s.disk.files)
    decreases |paths|
  {
    hide Attempt;
    if paths != [] {
      assert paths[0] in paths;
      var removed := RemoveIfPresent(d, paths[0]);
      assert forall f :: Rightly(d.files, own, f) ==> Rightly(removed.disk.files, own, f);
      if removed.ok {
        RemoveAllHonest(removed.disk, paths[1..], own);
      }
    }
  }

  lemma RestoreHonest(d: DiskState, own: Own)
    requires Honest(d.files, own)
    ensures var s := RestoreManaged(d); Honest(s.disk.files, own) && SameStaging(d.files, s.disk.files)
  {
    hide RestoreFiles, RemoveAll, BOOKKEEPING, FILES, Rightly;
    var missing := MarkedMissing(d.files).value;
    RestoreFilesKeeps(d, missing, FILES);
    var restored := RestoreFiles(d, missing, FILES);
    SettingsAside(d.files, restored.disk.files, own);
    BookkeepingKinds();
    if restored.ok {
      RemoveAllHonest(restored.disk, BOOKKEEPING, own);
    }
  }

  /** Without a marker the settings files are about to be taken for the user's. */
  predicate SettingsHonest(files: Files, own: Own) {
    || Marker in files
    || forall f :: (Settings(f) in files <==> f in own) && (f in own && Backup(f) !in files ==> files[Settings(f)] == own[f])
  }

  lemma {:induction false} BackUpHonest(d: DiskState, todo: seq<SettingsFile>, own: Own)
    requires Honest(d.files, own) && SettingsHonest(d.files, own) && Marker !in d.files
    ensures var s := BackUp(d, todo);
            && Honest(s.disk.files, own) && SettingsHonest(s.disk.files, own) && SameStaging(d.files, s.disk.files)
            && Marker !in s.disk.files && forall f :: Settings(f) in s.disk.files <==> Settings(f) in d.files
    decreases |todo|
  {
    hide Attempt;
    if todo != [] {
      var f := todo[0];
      if Settings(f) in d.files && Backup(f) !in d.files {
        var copied := Write(d, Backup(f), d.files[Settings(f)]);
        assert forall g :: Rightly(d.files, own, g) ==> Rightly(copied.disk.files, own, g);
        if copied.ok {
          BackUpHonest(copied.disk, todo[1..], own);
        }
      } else {
        BackUpHonest(d, todo[1..], own);
      }
    }
  }

  lemma GuardHonest(d: DiskState, own: Own)
    requires Honest(d.files, own) && SettingsHonest(d.files, own)
    ensures var s := Guard(d); Honest(s.disk.files, own) && SameStaging(d.files, s.disk.files)
  {
    hide Attempt, BackUp, FILES;
    if Marker !in d.files {
      AllFiles();
      BackUpHonest(d, FILES, own);
      var copied := BackUp(d, FILES);
      MarkHonest(copied.disk.files, MissingIn(d.files, FILES), own);
    }
  }

  lemma MarkHonest(files: Files, missing: seq<SettingsFile>, own: Own)
    requires Honest(files, own) && SettingsHonest(files, own) && Marker !in files
    requires forall f :: f in missing <==> Settings(f) !in files
    ensures Honest(files[Marker := MissingFiles(missing)], own)
  {
    var marked := files[Marker := MissingFiles(missing)];
    forall f
      ensures Rightly(marked, own, f)
    {
      assert Rightly(files, own, f) && (Settings(f) in files <==> f in own);
    }
  }

  lemma {:induction false} OverwriteHonest(d: DiskState, session: Content, todo: seq<SettingsFile>, own: Own)
    requires Honest(d.files, own)
    ensures var s := Overwrite(d, session, todo); Honest(s.disk.files, own) && SameStaging(d.files, s.disk.files)
    decreases |todo|
  {
    hide Attempt;
    if todo != [] {
      var written := Write(d, Settings(todo[0]), session);
      SettingsAside(d.files, written.disk.files, own);
      if written.ok {
        OverwriteHonest(written.disk, session, todo[1..], own);
      }
    }
  }

  lemma SwitchHonest(d: DiskState, session: Content, owner: string, launches: bool, own: Own)
    requires Honest(d.files, own) && SettingsHonest(d.files, own)
    ensures var s := SwitchSession(d, session, owner, launches); Honest(s.disk.files, own) && SameStaging(d.files, s.disk.files)
  {
    InjectHonest(d, session, own);
    hide InjectSession, RestoreManaged, Attempt, SettingsHonest;
    var injected := InjectSession(d, session);
    if injected.ok {
      var noted := Write(injected.disk, Owner, Text(owner));
      OwnerHonest(injected.disk.files, Text(owner), own);
      hide Honest;
      RestoreHonest(noted.disk, own);
    }
  }

  lemma OwnerHonest(files: Files, owner: Content, own: Own)
    requires Honest(files, own)
    ensures Honest(files[Owner := owner], own) && SameStaging(files, files[Owner := owner])
  {
    SettingsAside(files, files[Owner := owner], own);
  }

  lemma InjectHonest(d: DiskState, session: Content, own: Own)
    requires Honest(d.files, own) && SettingsHonest(d.files, own)
    ensures var s := InjectSession(d, session); Honest(s.disk.files, own) && SameStaging(d.files, s.disk.files)
  {
    hide Guard, Overwrite, RestoreManaged, Honest, FILES, SettingsHonest;
    GuardHonest(d, own);
    var guarded := Guard(d);
    if guarded.ok {
      OverwriteHonest(guarded.disk, session, FILES, own);
      RestoreHonest(Overwrite(guarded.disk, session, FILES).disk, own);
    }
  }

  // -------------------------------------------------- beside sandboxes left behind

  /** What marker and backup say of the file is what the sandbox says. */
  ghost predicate RecordAgrees(files: Files, id: StagingId, f: SettingsFile)
    requires Recorded(files, id)
  {
    && (Backup(f) in files ==> Existed(files, id, f) && files[Backup(f)] == files[Staged(id, f)])
    && (Listed(files, f) ==> !Existed(files, id, f))
  }

  /** The settings file, unless backed up, is as it was staged. */
  ghost predicate SettingAgrees(files: Files, id: StagingId, f: SettingsFile)
    requires Recorded(files, id)
  {
    && (Settings(f) in files <==> Existed(files, id, f))
    && (Existed(files, id, f) && Backup(f) !in files ==> files[Settings(f)] == files[Staged(id, f)])
  }

  /** A clean-up may run. */
  ghost predicate MayCleanUp(files: Files) {
    forall id | Manifest(id) in files :: Recorded(files, id) && forall f :: RecordAgrees(files, id, f)
  }

  ghost predicate SettingsAgree(files: Files) {
    Marker in files || forall id | Manifest(id) in files :: Recorded(files, id) && forall f :: SettingAgrees(files, id, f)
  }

  /** A switch may run. */
  ghost predicate MaySwitch(files: Files) {
    if NoManifest(files) then Switchable(files) else MayCleanUp(files) && SettingsAgree(files)
  }

  /** Every sandbox alone could give the user's files back. */
  ghost predicate AllStaged(files: Files, own: Own) {
    forall id | Manifest(id) in files :: Recorded(files, id) && forall f :: StagedAs(files, own, id, f)
  }

  lemma AgreeIsStaged(files: Files, own: Own)
    requires Safe(files, own)
    ensures MayCleanUp(files) <==> AllStaged(files, own)
  {
    forall id, f | Manifest(id) in files
      ensures RecordAgrees(files, id, f) <==> StagedAs(files, own, id, f)
    {
      assert Rightly(files, own, f) && Kept(files, own, f);
    }
  }

  lemma SettingsAgreeIsHonest(files: Files, own: Own)
    requires Safe(files, own) && AllStaged(files, own) && !NoManifest(files)
    ensures SettingsAgree(files) <==> SettingsHonest(files, own)
  {
    var some :| Manifest(some) in files;
    forall id, f | Manifest(id) in files
      ensures SettingAgrees(files, id, f) <==>
              (Settings(f) in files <==> f in own) && (f in own && Backup(f) !in files ==> files[Settings(f)] == own[f])
    {
      assert StagedAs(files, own, id, f);
    }
  }

  lemma SameAllStaged(before: Files, after: Files, own: Own)
    requires Readable(before) && SameStaging(before, after)
    ensures AllStaged(after, own) <==> AllStaged(before, own)
  {
    hide Recorded;
    SameReadable(before, after, own);
  }

  lemma ShelteredStays(before: Files, after: Files, own: Own)
    requires Safe(before, own) && AllStaged(before, own) && !NoManifest(before)
    requires SameStaging(before, after) && Honest(after, own)
    ensures Safe(after, own)
  {
    hide Honest, Recorded;
    SameTidy(before, after);
    SameReadable(before, after, own);
    SameAllStaged(before, after, own);
  }

  /** Where no marker and no backup is left, only the sandboxes can tell. */
  lemma OnlyStagingTells(before: Files, after: Files, own: Own)
    requires Safe(before, own) && !NoManifest(before) && SameStaging(before, after)
    requires (forall f :: !Noted(after, f)) && Safe(after, own)
    ensures AllStaged(before, own)
  {
    hide Honest, Recorded, Noted, Matches;
    SameTidy(before, after);
    SameAllStaged(before, after, own);
    forall id, f | Manifest(id) in after
      ensures Recorded(after, id) && StagedAs(after, own, id, f)
    {
      assert Kept(after, own, f);
    }
  }

  lemma WellFormedStays(before: Files, after: Files)
    requires WellFormed(before) && SameStaging(before, after)
    ensures WellFormed(after)
  {
    SameTidy(before, after);
    forall id
      ensures Shaped(after, id)
    {
      assert Shaped(before, id);
    }
  }

  // ------------------------------------------------------------------- clean-up

  lemma CleanUpKeepsSafe(d: DiskState, own: Own)
    requires Safe(d.files, own) && MayCleanUp(d.files)
    ensures var s := RestoreManaged(d); Safe(s.disk.files, own) && SameStaging(d.files, s.disk.files)
  {
    hide RestoreManaged, Guarded, Tidy, Readable, Kept, Honest, MayCleanUp, AllStaged;
    var s := RestoreManaged(d);
    if NoManifest(d.files) {
      SafeAlone(d.files, own);
      RestoreManagedGuards(d, own);
      SameTidy(d.files, s.disk.files);
      SafeAlone(s.disk.files, own);
    } else {
      AgreeIsStaged(d.files, own);
      RestoreHonest(d, own);
      ShelteredStays(d.files, s.disk.files, own);
    }
  }

  /** An undisturbed restore completes and leaves neither marker nor backup. */
  lemma RestoreClears(files: Files)
    requires Marker in files ==> files[Marker].MissingFiles?
    ensures var s := RestoreManaged(DiskState(files, [], false));
            && s.ok && SameStaging(files, s.disk.files) && Marker !in s.disk.files && forall f :: !Noted(s.disk.files, f)
  {
    hide RestoreFiles, RemoveAll, BOOKKEEPING, FILES;
    var d := DiskState(files, [], false);
    var missing := MarkedMissing(files).value;
    RestoreCompletes(d, missing);
    RestoreFilesKeeps(d, missing, FILES);
    BookkeepingKinds();
    RemoveBookkeeping(RestoreFiles(d, missing, FILES).disk, BOOKKEEPING);
    AllBookkeeping();
  }

  lemma AllBookkeeping()
    ensures Marker in BOOKKEEPING && forall f :: Backup(f) in BOOKKEEPING
  {
    assert BOOKKEEPING[0] == Backup(RiotGames) && BOOKKEEPING[1] == Backup(RiotClient) && BOOKKEEPING[2] == Marker;
    forall f
      ensures Backup(f) in BOOKKEEPING
    {
      match f
      case RiotGames =>
      case RiotClient =>
    }
  }

  /** A clean-up loses nothing, whatever the disk does to it, exactly if every
      sandbox left behind says what marker and backups say. */
  lemma CleanUpIsSafeIff(files: Files, own: Own)
    requires WellFormed(files) && Retrievable(files, own)
    ensures MayCleanUp(files) <==> forall script :: Retrievable(RestoreManaged(DiskState(files, script, false)).disk.files, own)
  {
    hide RestoreManaged, Safe, Retrievable, WellFormed, MayCleanUp;
    SafeIff(files, own);
    if MayCleanUp(files) {
      forall script
        ensures Retrievable(RestoreManaged(DiskState(files, script, false)).disk.files, own)
      {
        CleanUpKeepsSafe(DiskState(files, script, false), own);
        SafeIsRetrievable(RestoreManaged(DiskState(files, script, false)).disk.files, own);
      }
    } else {
      var after := RestoreManaged(DiskState(files, [], false)).disk.files;
      SafeIsReadable(files, own);
      RestoreClears(files);
      ClearedIsLost(files, after, own);
    }
  }

  lemma SafeIsReadable(files: Files, own: Own)
    requires Safe(files, own)
    ensures Readable(files) && Honest(files, own) && (Marker in files ==> files[Marker].MissingFiles?)
  {
  }

  lemma ClearedIsLost(files: Files, after: Files, own: Own)
    requires WellFormed(files) && Safe(files, own) && !MayCleanUp(files)
    requires SameStaging(files, after) && forall f :: !Noted(after, f)
    ensures !Retrievable(after, own)
  {
    hide Safe, Retrievable, WellFormed, Noted;
    WellFormedStays(files, after);
    SafeIff(after, own);
    AgreeIsStaged(files, own);
    if Safe(after, own) {
      OnlyStagingTells(files, after, own);
    }
  }

  /** What is then lost: left alone, a recovery that meets a disagreeing sandbox
      last completes and does not give the user's files back. */
  lemma CleanUpLoses(files: Files, own: Own, id: StagingId, f: SettingsFile, listing: seq<StagingId>)
    requires WellFormed(files) && Retrievable(files, own)
    requires Manifest(id) in files && !(Recorded(files, id) && RecordAgrees(files, id, f))
    requires Lists(listing, files) && listing != [] && listing[|listing| - 1] == id
    ensures var s := Recover(DiskState(RestoreManaged(DiskState(files, [], false)).disk.files, [], false), listing);
            s.ok && !Restored(s.disk.files, own)
  {
    hide RestoreManaged, Retrievable, Recover, WellFormed, Lists, Existed;
    SafeIff(files, own);
    SafeIsReadable(files, own);
    RestoreClears(files);
    var after := RestoreManaged(DiskState(files, [], false)).disk.files;
    SameReadable(files, after, own);
    WellFormedStays(files, after);
    SameLists(listing, files, after);
    NotStagedAs(files, own, id, f);
    LastSandboxLoses(after, own, listing, f);
  }

  /** A sandbox that did not find the user's file, met last, decides. */
  lemma LastSandboxLoses(files: Files, own: Own, listing: seq<StagingId>, f: SettingsFile)
    requires WellFormed(files) && Readable(files) && (Marker in files ==> files[Marker].MissingFiles?)
    requires Lists(listing, files) && listing != [] && Manifest(listing[|listing| - 1]) in files
    requires !Noted(files, f) && !StagedAs(files, own, listing[|listing| - 1], f)
    ensures var s := Recover(DiskState(files, [], false), listing);
            && s.ok && !Restored(s.disk.files, own) && (Settings(f) in s.disk.files <==> Existed(files, listing[|listing| - 1], f))
            && (Settings(f) in s.disk.files ==> s.disk.files[Settings(f)] == files[Staged(listing[|listing| - 1], f)])
  {
    hide Recover, WellFormed, Lists, Existed;
    RecoverCompletes(files, listing);
    RecoverEnds(DiskState(files, [], false), listing, f);
    RecoveredUnstaged(Tried(files, Try(listing, [])).disk.files, files, own, listing, f);
  }

  lemma SameLists(listing: seq<StagingId>, before: Files, after: Files)
    requires SameStaging(before, after) && Lists(listing, before)
    ensures Lists(listing, after)
  {
  }

  lemma NotStagedAs(files: Files, own: Own, id: StagingId, f: SettingsFile)
    requires Safe(files, own) && Recorded(files, id) && !RecordAgrees(files, id, f)
    ensures !StagedAs(files, own, id, f)
  {
    assert Rightly(files, own, f) && Kept(files, own, f);
  }

  lemma RecoveredUnstaged(after: Files, before: Files, own: Own, listing: seq<StagingId>, f: SettingsFile)
    requires Recovered(after, before, listing, f) && !Noted(before, f)
    requires listing != [] && Recorded(before, listing[|listing| - 1]) && !StagedAs(before, own, listing[|listing| - 1], f)
    ensures !Matches(after, own, f)
  {
  }

  // --------------------------------------------------------------------- switch

  lemma SwitchKeepsSafe(d: DiskState, session: Content, owner: string, launches: bool, own: Own)
    requires Safe(d.files, own) && MaySwitch(d.files)
    ensures var s := SwitchSession(d, session, owner, launches);
            Safe(s.disk.files, own) && SameStaging(d.files, s.disk.files)
  {
    hide SwitchSession, Guarded, Tidy, Readable, Kept, SettingsHonest, Honest, MayCleanUp, AllStaged, Switchable, SettingsAgree;
    var s := SwitchSession(d, session, owner, launches);
    if NoManifest(d.files) {
      SafeAlone(d.files, own);
      SwitchGuards(d, session, owner, launches, own);
      SameTidy(d.files, s.disk.files);
      SafeAlone(s.disk.files, own);
    } else {
      AgreeIsStaged(d.files, own);
      SettingsAgreeIsHonest(d.files, own);
      SwitchHonest(d, session, owner, launches, own);
      ShelteredStays(d.files, s.disk.files, own);
    }
  }

  /** An undisturbed switch that cannot launch undoes itself and clears the
      records. */
  lemma UnlaunchedClears(files: Files, session: Content, owner: string)
    requires Marker in files ==> files[Marker].MissingFiles?
    ensures var after := SwitchSession(DiskState(files, [], false), session, owner, false).disk.files;
            SameStaging(files, after) && forall f :: !Noted(after, f)
  {
    hide InjectSession, RestoreManaged, Noted;
    InjectTakes(files, session);
    var noted := InjectSession(DiskState(files, [], false), session).disk.files[Owner := Text(owner)];
    RestoreClears(noted);
  }

  /** A completed switch takes the settings files it finds for the user's. */
  lemma SwitchMisreads(files: Files, after: Files, own: Own)
    requires Honest(files, own) && !SettingsHonest(files, own) && Taken(files, after)
    ensures !Honest(after, own)
  {
    AllFiles();
    hide FILES;
    var f :| !((Settings(f) in files <==> f in own) && (f in own && Backup(f) !in files ==> files[Settings(f)] == own[f]));
    assert f in MissingIn(files, FILES) <==> Settings(f) !in files;
    assert Rightly(files, own, f);
    assert !Rightly(after, own, f);
  }

  lemma SwitchUnsafe(files: Files, own: Own, session: Content)
    requires WellFormed(files) && Safe(files, own) && Foreign(session, own) && !MaySwitch(files)
    ensures exists launches :: !Retrievable(SwitchSession(DiskState(files, [], false), session, "", launches).disk.files, own)
  {
    hide SwitchSession, Guarded, Tidy, Readable, Kept, SettingsHonest, MayCleanUp, AllStaged, Switchable, SettingsAgree,
         WellFormed, Retrievable, Taken, HoldsSession, Rightly;
    if !NoManifest(files) && !MayCleanUp(files) {
      UnlaunchedClears(files, session, "");
      ClearedIsLost(files, SwitchSession(DiskState(files, [], false), session, "", false).disk.files, own);
    } else {
      var after := SwitchSession(DiskState(files, [], false), session, "", true).disk.files;
      SwitchTakes(files, session, "");
      TakenStaging(files, after);
      SameTidy(files, after);
      WellFormedStays(files, after);
      SafeIff(after, own);
      if NoManifest(files) {
        SafeAlone(files, own);
        var _ := UnswitchableLoses(files, after, session, own);
        SafeAlone(after, own);
      } else {
        AgreeIsStaged(files, own);
        SettingsAgreeIsHonest(files, own);
        SwitchMisreads(files, after, own);
      }
    }
  }

  lemma TakenStaging(files: Files, after: Files)
    requires Taken(files, after)
    ensures SameStaging(files, after)
  {
  }

  /** A switch loses nothing, whatever the disk does to it, exactly if the
      bookkeeping on the disk says so: without a sandbox left behind, a marker
      notes every file, or no backup is of a file that is gone; beside sandboxes,
      all records agree with them. */
  lemma SwitchIsSafeIff(files: Files, own: Own, session: Content)
    requires WellFormed(files) && Retrievable(files, own) && Foreign(session, own)
    ensures MaySwitch(files) <==>
            forall owner, launches, script ::
              Retrievable(SwitchSession(DiskState(files, script, false), session, owner, launches).disk.files, own)
  {
    hide SwitchSession, Safe, MaySwitch, WellFormed, Retrievable;
    SafeIff(files, own);
    if MaySwitch(files) {
      forall owner, launches, script
        ensures Retrievable(SwitchSession(DiskState(files, script, false), session, owner, launches).disk.files, own)
      {
        SwitchKeepsSafe(DiskState(files, script, false), session, owner, launches, own);
        SafeIsRetrievable(SwitchSession(DiskState(files, script, false), session, owner, launches).disk.files, own);
      }
    } else {
      SwitchUnsafe(files, own, session);
    }
  }

  // -------------------------------------------------------------------- sign-in

  lemma {:induction false} CopyInCompletes(d: DiskState, id: StagingId, todo: seq<SettingsFile>)
    requires d.script == [] && !d.crashed
    ensures var s := CopyIn(d, id, todo); s.ok && s.disk.script == [] && !s.disk.crashed
    decreases |todo|
  {
    if todo != [] {
      if Settings(todo[0]) in d.files {
        CopyInCompletes(Write(d, Staged(id, todo[0]), d.files[Settings(todo[0])]).disk, id, todo[1..]);
      } else {
        CopyInCompletes(d, id, todo[1..]);
      }
    }
  }

  /** The sandbox found the settings files as they are. */
  ghost predicate StagedNow(files: Files, after: Files, id: StagingId) {
    && Recorded(after, id)
    && (forall f :: Existed(after, id, f) <==> Settings(f) in files)
    && (forall f :: Settings(f) in files ==> Staged(id, f) in after && after[Staged(id, f)] == files[Settings(f)])
    && forall p: Path | p !in Tree(id) && !p.Settings? :: (p in after <==> p in files) && (p in files ==> after[p] == files[p])
  }

  lemma StageTakes(files: Files, id: StagingId)
    requires Staging(id) !in files && Tidy(files)
    ensures var s := Stage(DiskState(files, [], false), id);
            && s.ok && s.disk.script == [] && !s.disk.crashed
            && OnlyStagingDiffers(files, s.disk.files, id) && StagedNow(files, s.disk.files, id)
  {
    hide CopyIn, Entries, FILES, Recorded, Existed;
    AllFiles();
    NoTree(id);
    var made := Write(DiskState(files, [], false), Staging(id), Directory).disk;
    CopyInCompletes(made, id, FILES);
    CopyInFrame(made, id, FILES);
    var copied := CopyIn(made, id, FILES).disk;
    assert OnlyStagingDiffers(files, made.files, id);
    StagingTransitive(files, made.files, copied.files, id);
    ManifestRecords(files, copied.files, id);
  }

  /** An undisturbed sign-in adds its own sandbox to those left behind. */
  lemma StartTakes(files: Files, id: StagingId)
    requires Staging(id) !in files && Tidy(files)
    ensures StagedNow(files, StartSignIn(DiskState(files, [], false), id, true).disk.files, id)
  {
    hide Stage, RemoveAll, Finish, Recorded, Existed, SETTINGS;
    StageTakes(files, id);
    var staged := Stage(DiskState(files, [], false), id).disk;
    SettingsPaths();
    RemoveAllCompletes(staged, SETTINGS);
    RemoveSettingsFrame(staged, SETTINGS);
    var after := RemoveAll(staged, SETTINGS).disk.files;
    SettingsTree(staged.files, after, id);
    TreeFrame(staged.files, after, map[], id);
    NoTree(id);
    assert StartSignIn(DiskState(files, [], false), id, true).disk.files == after;
  }

  lemma SettingsTree(before: Files, after: Files, id: StagingId)
    requires OnlySettingsDiffer(before, after)
    ensures SameTree(before, after, id)
  {
    NoTree(id);
  }

  lemma StagedNowFrame(files: Files, after: Files, own: Own, id: StagingId)
    requires WellFormed(files) && StagedNow(files, after, id)
    ensures WellFormed(after)
    ensures forall f :: Noted(after, f) <==> Noted(files, f)
    ensures forall other | other != id && Manifest(other) in files && Recorded(files, other) ::
              Manifest(other) in after && Recorded(after, other) && forall f :: StagedAs(after, own, other, f) <==> StagedAs(files, own, other, f)
  {
    hide Recorded, Existed;
    NoTree(id);
    SettingsAside(files, after, own);
    RecordedIsShaped(after, id);
    forall other | other != id
      ensures SameTree(files, after, other) && Shaped(after, other)
    {
      NoTree(other);
      assert SameTree(files, after, other);
      TreeKept(files, after, other);
      assert Shaped(files, other);
    }
    forall other | other != id && Manifest(other) in files && Recorded(files, other)
      ensures Manifest(other) in after && Recorded(after, other)
      ensures forall f :: StagedAs(after, own, other, f) <==> StagedAs(files, own, other, f)
    {
      NoTree(other);
      TreeFrame(files, after, own, other);
    }
    forall other | Manifest(other) in after || exists f :: Staged(other, f) in after
      ensures Staging(other) in after
    {
      if other != id {
        NoTree(other);
        assert SameTree(files, after, other);
        TreeKept(files, after, other);
        assert forall f :: Staged(other, f) in Tree(other);
        if Manifest(other) !in after {
          var f :| Staged(other, f) in after;
          assert Staged(other, f) in files;
        }
      }
    }
  }

  lemma RecordedIsShaped(files: Files, id: StagingId)
    requires Recorded(files, id)
    ensures Shaped(files, id) && Staging(id) in files
  {
  }

  /** If the user's files can still be had back, both sandboxes found them. */
  lemma BothStaged(files: Files, after: Files, own: Own, id: StagingId)
    requires WellFormed(files) && Safe(files, own) && Safe(after, own) && StagedNow(files, after, id) && Manifest(id) !in files
    ensures MaySignIn(files)
  {
    StagedNowFrame(files, after, own, id);
    forall other, f | Manifest(other) in files && !Noted(files, f)
      ensures Recorded(files, other) && PutBack(files, other, (f, Existed(files, other, f)))
    {
      assert Kept(after, own, f) && Manifest(other) in after && Manifest(id) in after;
      assert StagedAs(after, own, id, f) && StagedAs(files, own, other, f);
    }
  }

  /** A sign-in loses nothing, whatever the disk does to it, exactly if each
      settings file is noted or is as every sandbox left behind found it. */
  lemma SignInIsSafeIff(files: Files, own: Own, id: StagingId)
    requires WellFormed(files) && Retrievable(files, own) && Staging(id) !in files
    ensures MaySignIn(files) <==>
            forall launches, script :: Retrievable(StartSignIn(DiskState(files, script, false), id, launches).disk.files, own)
  {
    hide StartSignIn, Safe, Retrievable, MaySignIn, StagedNow;
    SafeIff(files, own);
    if MaySignIn(files) {
      forall launches, script
        ensures Retrievable(StartSignIn(DiskState(files, script, false), id, launches).disk.files, own)
      {
        StartGuards(DiskState(files, script, false), id, launches, own);
        SafeIsRetrievable(StartSignIn(DiskState(files, script, false), id, launches).disk.files, own);
      }
    } else {
      StartTakes(files, id);
      var after := StartSignIn(DiskState(files, [], false), id, true).disk.files;
      StagedNowFrame(files, after, own, id);
      SafeIff(after, own);
      if Safe(after, own) {
        BothStaged(files, after, own, id);
      }
    }
  }

  /** What is then lost: left alone, a recovery that meets the new sandbox last
      completes with the settings file that was not the user's. */
  lemma SignInLoses(files: Files, own: Own, id: StagingId, other: StagingId, f: SettingsFile, listing: seq<StagingId>)
    requires WellFormed(files) && Retrievable(files, own) && Staging(id) !in files
    requires Manifest(other) in files && Recorded(files, other) && !Noted(files, f) && !PutBack(files, other, (f, Existed(files, other, f)))
    requires Lists(listing, files[Staging(id) := Directory]) && listing != [] && listing[|listing| - 1] == id
    ensures var after := StartSignIn(DiskState(files, [], false), id, true).disk.files;
            var s := Recover(DiskState(after, [], false), listing);
            s.ok && SameSetting(s.disk.files, files, f) && !Restored(s.disk.files, own)
  {
    hide StartSignIn, Retrievable, Recover, WellFormed;
    SafeIff(files, own);
    StartTakes(files, id);
    var after := StartSignIn(DiskState(files, [], false), id, true).disk.files;
    StagedNowFrame(files, after, own, id);
    assert Kept(files, own, f);
    assert StagedAs(files, own, other, f) && !StagedAs(after, own, id, f);
    StagedNowListed(files, after, own, id, listing);
    LastSandboxLoses(after, own, listing, f);
  }

  lemma StagedNowListed(files: Files, after: Files, own: Own, id: StagingId, listing: seq<StagingId>)
    requires WellFormed(files) && Safe(files, own) && StagedNow(files, after, id) && Staging(id) !in files
    requires Lists(listing, files[Staging(id) := Directory])
    ensures Lists(listing, after) && Readable(after) && (Marker in after ==> after[Marker].MissingFiles?)
  {
    StagedNowFrame(files, after, own, id);
    NoTree(id);
    forall other | other != id
      ensures (Staging(other) in after <==> Staging(other) in files) && (Manifest(other) in after <==> Manifest(other) in files)
    {
      NoTree(other);
    }
  }

  // --------------------------------------------------------------------- writes

  function SetFile(files: Files, f: SettingsFile, content: Option<Content>): (r: Files) {
    match content
    case None => files - {Settings(f)}
    case Some(c) => files[Settings(f) := c]
  }

  function SetOwn(own: Own, f: SettingsFile, content: Option<Content>): (r: Own) {
    match content
    case None => own - {f}
    case Some(c) => own[f := c]
  }

  /** Riot may write a file on top of the user's. */
  ghost predicate MayRiotWrite(files: Files, f: SettingsFile) {
    Noted(files, f) || !NoManifest(files)
  }

  /** The user may write a file of their own. */
  ghost predicate MayUserWrite(files: Files, f: SettingsFile) {
    !Noted(files, f) && NoManifest(files)
  }

  lemma RiotWriteKeepsSafe(files: Files, own: Own, f: SettingsFile, content: Option<Content>)
    requires Safe(files, own) && MayRiotWrite(files, f)
    ensures Safe(SetFile(files, f, content), own)
  {
    hide Noted, Tidy, Readable, Honest;
    var after := SetFile(files, f, content);
    forall g
      ensures NoManifest(files) ==> Noted(files, g) || Matches(after, own, g)
    {
      assert Kept(files, own, g);
    }
    SettingsChange(files, after, own);
  }

  lemma UserWriteKeepsSafe(files: Files, own: Own, f: SettingsFile, content: Option<Content>)
    requires Safe(files, own) && MayUserWrite(files, f)
    ensures Safe(SetFile(files, f, content), SetOwn(own, f, content))
  {
    hide Tidy;
    var after, mine := SetFile(files, f, content), SetOwn(own, f, content);
    SameTidy(files, after);
    forall g
      ensures Rightly(after, mine, g) && Kept(after, mine, g)
    {
      assert Rightly(files, own, g) && Kept(files, own, g);
    }
  }

  /** Another content than the user's. */
  function Other(own: Own, f: SettingsFile): (content: Option<Content>)
    ensures content.Some? <==> f !in own
  {
    if f in own then None else Some(Directory)
  }

  /** Riot's writes to a settings file lose nothing exactly if the user's file is
      noted or lies in a sandbox. */
  lemma RiotWriteIsSafeIff(files: Files, own: Own, f: SettingsFile)
    requires WellFormed(files) && Retrievable(files, own)
    ensures MayRiotWrite(files, f) <==> forall content :: Retrievable(SetFile(files, f, content), own)
  {
    hide Retrievable, WellFormed;
    SafeIff(files, own);
    if MayRiotWrite(files, f) {
      forall content
        ensures Retrievable(SetFile(files, f, content), own)
      {
        RiotWriteKeepsSafe(files, own, f, content);
        SafeIsRetrievable(SetFile(files, f, content), own);
      }
    } else {
      var after := SetFile(files, f, Other(own, f));
      WellFormedStays(files, after);
      SafeIff(after, own);
      assert !Kept(after, own, f);
    }
  }

  /** What the user writes becomes the user's exactly if nothing is recorded of
      the file and no sandbox is left behind. */
  lemma UserWriteIsSafeIff(files: Files, own: Own, f: SettingsFile)
    requires WellFormed(files) && Retrievable(files, own)
    ensures MayUserWrite(files, f) <==> forall content :: Retrievable(SetFile(files, f, content), SetOwn(own, f, content))
  {
    hide Retrievable, WellFormed;
    SafeIff(files, own);
    if MayUserWrite(files, f) {
      forall content
        ensures Retrievable(SetFile(files, f, content), SetOwn(own, f, content))
      {
        UserWriteKeepsSafe(files, own, f, content);
        SafeIsRetrievable(SetFile(files, f, content), SetOwn(own, f, content));
      }
    } else {
      var content := Other(own, f);
      UserWriteUnsafe(files, own, f);
      WellFormedStays(files, SetFile(files, f, content));
      SafeIff(SetFile(files, f, content), SetOwn(own, f, content));
    }
  }

  lemma UserWriteUnsafe(files: Files, own: Own, f: SettingsFile)
    requires Safe(files, own) && !MayUserWrite(files, f)
    ensures !Safe(SetFile(files, f, Other(own, f)), SetOwn(own, f, Other(own, f)))
  {
    var after, mine := SetFile(files, f, Other(own, f)), SetOwn(own, f, Other(own, f));
    SameReadable(files, after, own);
    assert Rightly(files, own, f) && Kept(files, own, f);
    assert f in own <==> f !in mine;
    if Noted(files, f) {
      assert !Rightly(after, mine, f);
    } else {
      var id :| Manifest(id) in files;
      assert StagedAs(files, own, id, f) && !StagedAs(after, mine, id, f);
      assert !Kept(after, mine, f);
    }
  }
}
