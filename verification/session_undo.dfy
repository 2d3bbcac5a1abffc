/** What a switch or a sign-in that fails leaves behind: if nothing else goes
    wrong while it undoes itself, what it found. */
module SessionUndo {
  import opened Wrappers
  import opened SettingsDisk
  import opened SessionManager
  import opened Provisioner
  import opened SessionRecovery
  import opened SessionSafety

  // ------------------------------------------------------------ counting failures

  /** How many of the coming steps will not complete. */
  function Faults(script: seq<Outcome>): (n: nat) {
    if script == [] then 0 else (if script[0].Completes? then 0 else 1) + Faults(script[1..])
  }

  /** A step, or several, stop at the first failure and at nothing else. */
  predicate Stops(d: DiskState, s: Step) {
    && (s.ok ==> !s.disk.crashed && Faults(s.disk.script) == Faults(d.script))
    && (!s.ok && !s.disk.crashed ==> Faults(s.disk.script) + 1 == Faults(d.script))
    && (!s.ok ==> Faults(d.script) > 0)
  }

  ghost predicate SameSettings(after: Files, before: Files) {
    forall f :: SameSetting(after, before, f)
  }

  lemma SameSettingsTransitive(a: Files, b: Files, c: Files)
    requires SameSettings(a, b) && SameSettings(b, c)
    ensures SameSettings(a, c)
  {
    forall f
      ensures SameSetting(a, c, f)
    {
      assert SameSetting(a, b, f) && SameSetting(b, c, f);
    }
  }

  lemma AttemptStops(d: DiskState, after: Files)
    requires !d.crashed
    ensures Stops(d, Attempt(d, after))
  {
  }

  lemma {:induction false} BackUpStops(d: DiskState, todo: seq<SettingsFile>)
    requires !d.crashed
    ensures Stops(d, BackUp(d, todo)) && SameSettings(BackUp(d, todo).disk.files, d.files)
    decreases |todo|
  {
    if todo != [] {
      if Settings(todo[0]) in d.files && Backup(todo[0]) !in d.files {
        AttemptStops(d, d.files[Backup(todo[0]) := d.files[Settings(todo[0])]]);
        var copied := Write(d, Backup(todo[0]), d.files[Settings(todo[0])]);
        if copied.ok {
          BackUpStops(copied.disk, todo[1..]);
          SameSettingsTransitive(BackUp(d, todo).disk.files, copied.disk.files, d.files);
        }
      } else {
        BackUpStops(d, todo[1..]);
      }
    }
  }

  lemma {:induction false} OverwriteStops(d: DiskState, session: Content, todo: seq<SettingsFile>)
    requires !d.crashed
    ensures Stops(d, Overwrite(d, session, todo))
    decreases |todo|
  {
    hide Attempt;
    if todo != [] {
      AttemptStops(d, d.files[Settings(todo[0]) := session]);
      var written := Write(d, Settings(todo[0]), session);
      if written.ok {
        OverwriteStops(written.disk, session, todo[1..]);
      }
    }
  }

  lemma {:induction false} RestoreFilesStops(d: DiskState, missing: seq<SettingsFile>, todo: seq<SettingsFile>)
    requires !d.crashed
    ensures Stops(d, RestoreFiles(d, missing, todo))
    decreases |todo|
  {
    hide Attempt;
    if todo != [] {
      var f := todo[0];
      if Backup(f) in d.files {
        AttemptStops(d, d.files[Settings(f) := d.files[Backup(f)]]);
      } else {
        AttemptStops(d, d.files - {Settings(f)});
      }
      if RestoreOne(d, missing, f).ok {
        RestoreFilesStops(RestoreOne(d, missing, f).disk, missing, todo[1..]);
      }
    }
  }

  lemma {:induction false} RemoveAllStops(d: DiskState, paths: seq<Path>)
    requires !d.crashed
    ensures Stops(d, RemoveAll(d, paths))
    decreases |paths|
  {
    hide Attempt;
    if paths != [] {
      AttemptStops(d, d.files - {paths[0]});
      if RemoveIfPresent(d, paths[0]).ok {
        RemoveAllStops(RemoveIfPresent(d, paths[0]).disk, paths[1..]);
      }
    }
  }

  lemma {:induction false} CopyInStops(d: DiskState, id: StagingId, todo: seq<SettingsFile>)
    requires !d.crashed
    ensures Stops(d, CopyIn(d, id, todo))
    decreases |todo|
  {
    hide Attempt;
    if todo != [] {
      if Settings(todo[0]) in d.files {
        AttemptStops(d, d.files[Staged(id, todo[0]) := d.files[Settings(todo[0])]]);
        var copied := Write(d, Staged(id, todo[0]), d.files[Settings(todo[0])]);
        if copied.ok {
          CopyInStops(copied.disk, id, todo[1..]);
        }
      } else {
        CopyInStops(d, id, todo[1..]);
      }
    }
  }

  lemma {:induction false} RestoreStagedStops(d: DiskState, id: StagingId, entries: seq<(SettingsFile, bool)>)
    requires !d.crashed && forall i :: 0 <= i < |entries| && entries[i].1 ==> Staged(id, entries[i].0) in d.files
    ensures Stops(d, RestoreStaged(d, id, entries))
    decreases |entries|
  {
    hide Attempt;
    if entries != [] {
      var (f, existed) := entries[0];
      if existed {
        AttemptStops(d, d.files[Settings(f) := d.files[Staged(id, f)]]);
      } else {
        AttemptStops(d, d.files - {Settings(f)});
      }
      var restored := if !existed then RemoveIfPresent(d, Settings(f)) else Write(d, Settings(f), d.files[Staged(id, f)]);
      if restored.ok {
        assert forall i :: 0 <= i < |entries[1..]| ==> entries[1..][i] == entries[i + 1];
        AttemptKeeps(d, id, f, existed);
        RestoreStagedStops(restored.disk, id, entries[1..]);
      }
    }
  }

  lemma AttemptKeeps(d: DiskState, id: StagingId, f: SettingsFile, existed: bool)
    requires existed ==> Staged(id, f) in d.files
    ensures var restored := if !existed then RemoveIfPresent(d, Settings(f)) else Write(d, Settings(f), d.files[Staged(id, f)]);
            forall g :: Staged(id, g) in d.files <==> Staged(id, g) in restored.disk.files
  {
  }

  // ---------------------------------------------------------------- the switch

  lemma RestoreManagedStops(d: DiskState)
    requires !d.crashed && MarkedMissing(d.files).Some?
    ensures Stops(d, RestoreManaged(d))
  {
    hide Attempt, FILES, BOOKKEEPING, RestoreFiles, RemoveAll;
    var missing := MarkedMissing(d.files).value;
    RestoreFilesStops(d, missing, FILES);
    if RestoreFiles(d, missing, FILES).ok {
      RemoveAllStops(RestoreFiles(d, missing, FILES).disk, BOOKKEEPING);
    }
  }

  lemma GuardStops(d: DiskState)
    requires !d.crashed
    ensures Stops(d, Guard(d)) && SameSettings(Guard(d).disk.files, d.files)
  {
    hide Attempt, FILES, BackUp, MissingIn;
    if Marker !in d.files {
      BackUpStops(d, FILES);
      var copied := BackUp(d, FILES);
      if copied.ok {
        AttemptStops(copied.disk, copied.disk.files[Marker := MissingFiles(MissingIn(d.files, FILES))]);
        MarkerKeeps(copied.disk, MissingFiles(MissingIn(d.files, FILES)));
        SameSettingsTransitive(Guard(d).disk.files, copied.disk.files, d.files);
      }
    }
  }

  lemma MarkerKeeps(d: DiskState, content: Content)
    ensures SameSettings(Write(d, Marker, content).disk.files, d.files)
  {
  }

  lemma GuardedReads(files: Files, own: Own)
    requires Guarded(files, own)
    ensures MarkedMissing(files).Some?
  {
  }

  lemma SameMatch(before: Files, after: Files, own: Own)
    requires AllMatch(before, own) && SameSettings(after, before)
    ensures AllMatch(after, own)
  {
    forall f
      ensures Matches(after, own, f)
    {
      assert Matches(before, own, f) && SameSetting(after, before, f);
    }
  }

  /** Injecting a session that fails once, and is not cut off, leaves the user's
      own files. */
  lemma FailedInjectionIsUndone(d: DiskState, session: Content, own: Own)
    requires !d.crashed && Guarded(d.files, own) && Switchable(d.files) && (Marker in d.files || AllMatch(d.files, own))
    ensures var s := InjectSession(d, session);
            && (s.ok ==> !s.disk.crashed && Faults(s.disk.script) == Faults(d.script))
            && (!s.ok ==> Faults(d.script) > 0)
            && (!s.ok && !s.disk.crashed ==> Faults(s.disk.script) < Faults(d.script))
            && (!s.ok && !s.disk.crashed && Faults(d.script) == Faults(s.disk.script) + 1 ==> AllMatch(s.disk.files, own))
  {
    hide Attempt, Guard, Overwrite, RestoreManaged, Guarded, Switchable, Honest, Secured, Matches, FILES, AllMatch, BOOKKEEPING;
    GuardStops(d);
    GuardGuards(d, own);
    var guarded := Guard(d);
    if guarded.ok {
      OverwriteStops(guarded.disk, session, FILES);
      OverwriteGuards(guarded.disk, session, FILES, own);
      var written := Overwrite(guarded.disk, session, FILES);
      NotedIsGuarded(written.disk.files, own);
      GuardedReads(written.disk.files, own);
      if !written.ok && !written.disk.crashed {
        RestoreManagedStops(written.disk);
        RestoreManagedGuards(written.disk, own);
      } else if !written.ok {
        CrashStays(written.disk);
      }
    } else if Marker !in d.files {
      SameMatch(d.files, guarded.disk.files, own);
    } else {
      MarkedGuards(d);
    }
  }

  lemma MarkedGuards(d: DiskState)
    requires Marker in d.files
    ensures Guard(d).ok
  {
  }

  lemma CrashStays(d: DiskState)
    requires d.crashed
    ensures RestoreManaged(d).disk.crashed
  {
    hide FILES, BOOKKEEPING;
    if MarkedMissing(d.files).Some? {
      CrashedRestore(d, MarkedMissing(d.files).value, FILES);
      CrashedRemove(RestoreFiles(d, MarkedMissing(d.files).value, FILES).disk, BOOKKEEPING);
    }
  }

  lemma {:induction false} CrashedRestore(d: DiskState, missing: seq<SettingsFile>, todo: seq<SettingsFile>)
    requires d.crashed
    ensures RestoreFiles(d, missing, todo).disk.crashed
    decreases |todo|
  {
    if todo != [] && RestoreOne(d, missing, todo[0]).ok {
      CrashedRestore(RestoreOne(d, missing, todo[0]).disk, missing, todo[1..]);
    }
  }

  lemma {:induction false} CrashedRemove(d: DiskState, paths: seq<Path>)
    requires d.crashed
    ensures RemoveAll(d, paths).disk.crashed
    decreases |paths|
  {
    if paths != [] && RemoveIfPresent(d, paths[0]).ok {
      CrashedRemove(RemoveIfPresent(d, paths[0]).disk, paths[1..]);
    }
  }

  /** A switch succeeds exactly if no step fails and Riot can be launched; then
      both files hold the login and the note names its owner. One that fails
      once, at whatever step or at the launch, and is not cut off, leaves the
      user's own files. */
  lemma FailedSwitchIsUndone(d: DiskState, session: Content, owner: string, launches: bool, own: Own)
    requires !d.crashed && Guarded(d.files, own) && Switchable(d.files) && (Marker in d.files || AllMatch(d.files, own))
    ensures var s := SwitchSession(d, session, owner, launches);
            && (s.ok ==> launches && HoldsSession(s.disk.files, session) && Owner in s.disk.files && s.disk.files[Owner] == Text(owner))
            && (Faults(d.script) == 0 ==> (s.ok <==> launches))
            && (!s.ok && !s.disk.crashed && Faults(d.script) - Faults(s.disk.script) == (if launches then 1 else 0) ==> AllMatch(s.disk.files, own))
            && (launches && !s.ok && !s.disk.crashed ==> Faults(d.script) > Faults(s.disk.script))
  {
    hide Attempt, InjectSession, RestoreManaged, Guarded, Switchable, Honest, Secured, Matches, FILES, AllMatch, BOOKKEEPING;
    FailedInjectionIsUndone(d, session, own);
    InjectGuards(d, session, own);
    var injected := InjectSession(d, session);
    if injected.ok {
      AttemptStops(injected.disk, injected.disk.files[Owner := Text(owner)]);
      var noted := Write(injected.disk, Owner, Text(owner));
      OwnerAside(injected.disk, Text(owner), session, own);
      NotedIsGuarded(noted.disk.files, own);
      GuardedReads(noted.disk.files, own);
      RestoreManagedGuards(noted.disk, own);
      if !noted.disk.crashed {
        RestoreManagedStops(noted.disk);
      } else {
        CrashStays(noted.disk);
      }
    }
  }

  lemma OwnerAside(d: DiskState, owner: Content, session: Content, own: Own)
    requires Honest(d.files, own) && Secured(d.files) && HoldsSession(d.files, session)
    ensures var s := Write(d, Owner, owner);
            && Honest(s.disk.files, own) && Secured(s.disk.files) && HoldsSession(s.disk.files, session)
            && (s.ok ==> Owner in s.disk.files && s.disk.files[Owner] == owner)
  {
    SettingsAside(d.files, Write(d, Owner, owner).disk.files, own);
  }

  // --------------------------------------------------------------- the sign-in

  lemma DirectoryMade(d: DiskState, id: StagingId)
    ensures OnlyStagingDiffers(d.files, Write(d, Staging(id), Directory).disk.files, id)
    ensures Write(d, Staging(id), Directory).ok ==> Staging(id) in Write(d, Staging(id), Directory).disk.files
  {
    NoTree(id);
  }

  /** Staging stops at the first failure, and what it changed is in its own
      directory; completed, the directory holds the settings files as they are. */
  lemma StageStops(d: DiskState, id: StagingId)
    requires !d.crashed && Tidy(d.files) && Staging(id) !in d.files
    ensures var s := Stage(d, id);
            && OnlyStagingDiffers(d.files, s.disk.files, id)
            && (s.ok ==> !s.disk.crashed && Faults(s.disk.script) == Faults(d.script) && StagedNow(d.files, s.disk.files, id))
            && (s.ok ==> Manifest(id) in s.disk.files && s.disk.files[Manifest(id)] == Originals(Entries(d.files, FILES)))
            && (!s.ok ==> Faults(d.script) > 0)
            && (!s.ok && !s.disk.crashed ==> Faults(s.disk.script) < Faults(d.script))
            && (!s.ok && !s.disk.crashed && Faults(d.script) == Faults(s.disk.script) + 1 ==> s.disk.files == d.files)
  {
    hide Attempt, CopyIn, Entries, FILES, StagedNow;
    AllFiles();
    NoTree(id);
    AttemptStops(d, d.files[Staging(id) := Directory]);
    DirectoryMade(d, id);
    var made := Write(d, Staging(id), Directory);
    if made.ok {
      CopyInStops(made.disk, id, FILES);
      CopyInFrame(made.disk, id, FILES);
      var copied := CopyIn(made.disk, id, FILES);
      StagingTransitive(d.files, made.disk.files, copied.disk.files, id);
      NotedStops(d, copied, id);
    } else {
      FailedWriteIs(d, Staging(id), Directory);
    }
  }

  lemma FailedWriteIs(d: DiskState, path: Path, content: Content)
    ensures !Write(d, path, content).ok ==> Write(d, path, content).disk.files == d.files
  {
  }

  lemma NotedStops(d: DiskState, copied: Step, id: StagingId)
    requires !d.crashed && Tidy(d.files) && Staging(id) !in d.files && OnlyStagingDiffers(d.files, copied.disk.files, id)
    requires Manifest(id) !in copied.disk.files && Staging(id) in copied.disk.files && Stops(d, copied)
    requires copied.ok ==> Copied(d.files, copied.disk.files, id)
    ensures var noted := if copied.ok then Write(copied.disk, Manifest(id), Originals(Entries(d.files, FILES))) else copied;
            var s := if noted.ok then noted else Step(RemoveTree(noted.disk, id).disk, false);
            && OnlyStagingDiffers(d.files, s.disk.files, id)
            && (s.ok ==> !s.disk.crashed && Faults(s.disk.script) == Faults(d.script) && StagedNow(d.files, s.disk.files, id))
            && (s.ok ==> Manifest(id) in s.disk.files && s.disk.files[Manifest(id)] == Originals(Entries(d.files, FILES)))
            && (!s.ok ==> Faults(d.script) > 0)
            && (!s.ok && !s.disk.crashed ==> Faults(s.disk.script) < Faults(d.script))
            && (!s.ok && !s.disk.crashed && Faults(d.script) == Faults(s.disk.script) + 1 ==> s.disk.files == d.files)
  {
    hide Entries, FILES, Recorded, Existed;
    var noted := if copied.ok then Write(copied.disk, Manifest(id), Originals(Entries(d.files, FILES))) else copied;
    if copied.ok {
      AttemptStops(copied.disk, copied.disk.files[Manifest(id) := Originals(Entries(d.files, FILES))]);
      ManifestRecords(d.files, copied.disk.files, id);
    }
    assert Stops(d, noted);
    assert OnlyStagingDiffers(d.files, noted.disk.files, id) by {
      NoTree(id);
    }
    if noted.ok {
      NoTree(id);
    } else {
      if !noted.disk.crashed {
        AttemptStops(noted.disk, noted.disk.files - Tree(id));
      }
      TreeGone(d.files, noted.disk.files, id);
    }
  }

  /** Without its directory the disk is what it was. */
  lemma TreeGone(before: Files, after: Files, id: StagingId)
    requires Tidy(before) && Staging(id) !in before && OnlyStagingDiffers(before, after, id)
    ensures after - Tree(id) == before && OnlyStagingDiffers(before, after - Tree(id), id)
  {
    NoTree(id);
    assert Manifest(id) !in before && forall f :: Staged(id, f) !in before;
    forall p: Path
      ensures p in after - Tree(id) <==> p in before
      ensures p in before ==> (after - Tree(id))[p] == before[p]
    {
      if p in Tree(id) {
        assert p !in before;
      }
    }
  }

  /** Finishing the sandbox that was just opened stops at the first failure;
      completed, the disk is what the sandbox found. */
  lemma FinishStops(before: Files, d: DiskState, id: StagingId)
    requires !d.crashed && Tidy(before) && Staging(id) !in before && StagedNow(before, d.files, id)
    requires d.files[Manifest(id)] == Originals(Entries(before, FILES))
    ensures var s := Finish(d, id, Entries(before, FILES)); Stops(d, s) && (s.ok ==> s.disk.files == before)
  {
    hide Attempt, RestoreStaged, FILES;
    var entries := Entries(before, FILES);
    RecordedEntries(d.files, id);
    RestoreStagedStops(d, id, entries);
    RestoreStagedFrame(d, id, entries);
    var restored := RestoreStaged(d, id, entries);
    if restored.ok {
      AttemptStops(restored.disk, restored.disk.files - Tree(id));
      BackAsFound(before, d.files, restored.disk.files, id);
      TreeGone(before, restored.disk.files, id);
      RemovedIs(restored.disk, id);
    }
  }

  lemma RemovedIs(d: DiskState, id: StagingId)
    ensures RemoveTree(d, id).ok ==> RemoveTree(d, id).disk.files == d.files - Tree(id)
  {
  }

  lemma BackAsFound(before: Files, staged: Files, restored: Files, id: StagingId)
    requires StagedNow(before, staged, id) && OnlySettingsDiffer(staged, restored)
    requires forall entry | entry in staged[Manifest(id)].entries :: PutBack(restored, id, entry)
    ensures OnlyStagingDiffers(before, restored, id)
  {
    RecordedEntries(staged, id);
    NoTree(id);
    forall p: Path | p !in Tree(id)
      ensures (p in before <==> p in restored) && (p in before ==> before[p] == restored[p])
    {
      if p.Settings? {
        assert PutBack(restored, id, (p.file, Existed(staged, id, p.file)));
      }
    }
  }

  lemma ClearedIsStagedNow(before: Files, staged: Files, after: Files, id: StagingId)
    requires StagedNow(before, staged, id) && OnlySettingsDiffer(staged, after)
    ensures StagedNow(before, after, id) && after[Manifest(id)] == staged[Manifest(id)]
  {
    SettingsTree(staged, after, id);
    TreeFrame(staged, after, map[], id);
    NoTree(id);
  }

  /** What the sign-in command leaves. It succeeds exactly if no step fails and
      Riot can be launched, and then owns the sandbox. If the preparation fails,
      or the launch, it undoes itself: unless a step of the undoing fails too, or
      it is cut off, the disk is what it was, to the last file, and no sandbox is
      owned. Only a failed launch whose undoing failed leaves one owned. */
  lemma FailedSignInIsUndone(d: DiskState, id: StagingId, launches: bool)
    requires !d.crashed && Tidy(d.files) && Staging(id) !in d.files
    ensures var p := StartSignIn(d, id, launches);
            && (p.ok ==> launches && p.session == Some(id) && forall f :: Settings(f) !in p.disk.files)
            && (Faults(d.script) == 0 ==> (p.ok <==> launches))
            && (!p.ok && !p.disk.crashed ==>
                  && (launches ==> Faults(p.disk.script) < Faults(d.script) && p.session.None?)
                  && (Faults(d.script) - Faults(p.disk.script) == (if launches then 1 else 0) ==> p.session.None? && p.disk.files == d.files)
                  && (p.session.Some? ==> p.session == Some(id) && !launches && Faults(p.disk.script) < Faults(d.script))
                  && (p.session.None? && Faults(d.script) <= Faults(p.disk.script) + 1 ==> p.disk.files == d.files))
  {
    hide Attempt, Stage, RemoveAll, Finish, Entries, FILES, SETTINGS, StagedNow, Tidy;
    StageStops(d, id);
    var staged := Stage(d, id);
    if staged.ok {
      SettingsPaths();
      RemoveAllStops(staged.disk, SETTINGS);
      RemoveSettingsFrame(staged.disk, SETTINGS);
      var removed := RemoveAll(staged.disk, SETTINGS);
      ClearedIsStagedNow(d.files, staged.disk.files, removed.disk.files, id);
      if !removed.disk.crashed {
        FinishStops(d.files, removed.disk, id);
      } else {
        CrashedFinish(removed.disk, id, Entries(d.files, FILES));
      }
    }
  }

  lemma CrashedFinish(d: DiskState, id: StagingId, entries: seq<(SettingsFile, bool)>)
    requires d.crashed
    ensures Finish(d, id, entries).disk.crashed
  {
    CrashedRestoreStaged(d, id, entries);
  }

  lemma {:induction false} CrashedRestoreStaged(d: DiskState, id: StagingId, entries: seq<(SettingsFile, bool)>)
    requires d.crashed
    ensures RestoreStaged(d, id, entries).disk.crashed
    decreases |entries|
  {
    if entries != [] {
      var (f, existed) := entries[0];
      if !existed {
        CrashedRestoreStaged(RemoveIfPresent(d, Settings(f)).disk, id, entries[1..]);
      }
    }
  }
}
