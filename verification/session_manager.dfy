/** Swapping a saved Riot login in, and the user's own settings back. */
module SessionManager {
  import opened Wrappers
  import opened SettingsDisk

  // --------------------------------------------------------- what the steps do

  /** Copies every settings file that has no backup yet. */
  function BackUp(d: DiskState, todo: seq<SettingsFile>): (s: Step)
    decreases |todo|
  {
    if todo == [] then Step(d, true)
    else if Settings(todo[0]) in d.files && Backup(todo[0]) !in d.files then
      var copied := Write(d, Backup(todo[0]), d.files[Settings(todo[0])]);
      if copied.ok then BackUp(copied.disk, todo[1..]) else copied
    else BackUp(d, todo[1..])
  }

  function MissingIn(files: Files, todo: seq<SettingsFile>): (missing: seq<SettingsFile>)
    ensures forall f :: f in missing <==> f in todo && Settings(f) !in files
  {
    if todo == [] then []
    else (if Settings(todo[0]) in files then [] else [todo[0]]) + MissingIn(files, todo[1..])
  }

  function Overwrite(d: DiskState, session: Content, todo: seq<SettingsFile>): (s: Step)
    decreases |todo|
  {
    if todo == [] then Step(d, true)
    else
      var written := Write(d, Settings(todo[0]), session);
      if written.ok then Overwrite(written.disk, session, todo[1..]) else written
  }

  function Guard(d: DiskState): (s: Step) {
    if Marker in d.files then Step(d, true)
    else
      var copied := BackUp(d, FILES);
      if copied.ok then Write(copied.disk, Marker, MissingFiles(MissingIn(d.files, FILES))) else copied
  }

  function InjectSession(d: DiskState, session: Content): (s: Step) {
    var guarded := Guard(d);
    if !guarded.ok then guarded
    else
      var written := Overwrite(guarded.disk, session, FILES);
      if written.ok then written else Step(RestoreManaged(written.disk).disk, false)
  }

  function RestoreOne(d: DiskState, missing: seq<SettingsFile>, f: SettingsFile): (s: Step) {
    if Backup(f) in d.files then Write(d, Settings(f), d.files[Backup(f)])
    else if f in missing && Settings(f) in d.files then Remove(d, Settings(f))
    else Step(d, true)
  }

  function RestoreFiles(d: DiskState, missing: seq<SettingsFile>, todo: seq<SettingsFile>): (s: Step)
    decreases |todo|
  {
    if todo == [] then Step(d, true)
    else
      var restored := RestoreOne(d, missing, todo[0]);
      if restored.ok then RestoreFiles(restored.disk, missing, todo[1..]) else restored
  }

  function RemoveIfPresent(d: DiskState, path: Path): (s: Step) {
    if path in d.files then Remove(d, path) else Step(d, true)
  }

  function RemoveAll(d: DiskState, paths: seq<Path>): (s: Step)
    decreases |paths|
  {
    if paths == [] then Step(d, true)
    else
      var removed := RemoveIfPresent(d, paths[0]);
      if removed.ok then RemoveAll(removed.disk, paths[1..]) else removed
  }

  /** In this order: both backups, the marker, the owner note. */
  const BOOKKEEPING: seq<Path> := [Backup(RiotGames), Backup(RiotClient), Marker, Owner]

  /** The files to delete on restore; `None` if the marker cannot be read. */
  function MarkedMissing(files: Files): (r: Option<seq<SettingsFile>>) {
    if Marker !in files then Some([])
    else match files[Marker] case MissingFiles(missing) => Some(missing) case _ => None
  }

  function RestoreManaged(d: DiskState): (s: Step) {
    match MarkedMissing(d.files)
    case None => Step(d, false)
    case Some(missing) =>
      var restored := RestoreFiles(d, missing, FILES);
      if restored.ok then RemoveAll(restored.disk, BOOKKEEPING) else restored
  }

  /** A whole switch: inject, note the owner, launch; undone if a part fails. */
  function SwitchSession(d: DiskState, session: Content, owner: string, launches: bool): (s: Step) {
    var injected := InjectSession(d, session);
    if !injected.ok then injected
    else
      var noted := Write(injected.disk, Owner, Text(owner));
      if noted.ok && launches then noted else Step(RestoreManaged(noted.disk).disk, false)
  }

  // --------------------------------------------------------------- the program

  class Manager {
    const disk: Disk

    constructor (disk: Disk)
      ensures this.disk == disk
    {
      this.disk := disk;
    }

    method Inject(session: Content) returns (ok: bool)
      modifies disk
      ensures Step(disk.Now(), ok) == InjectSession(old(disk.Now()), session)
    {
      hide Attempt, RestoreManaged;
      if Marker !in disk.files {
        var missing := MissingIn(disk.files, FILES);
        for i := 0 to |FILES|
          invariant BackUp(old(disk.Now()), FILES) == BackUp(disk.Now(), FILES[i..])
        {
          assert FILES[i..][0] == FILES[i] && FILES[i..][1..] == FILES[i + 1..];
          if Settings(FILES[i]) in disk.files && Backup(FILES[i]) !in disk.files {
            ok := disk.WritePrivate(Backup(FILES[i]), disk.files[Settings(FILES[i])]);
            if !ok {
              return;
            }
          }
        }
        ok := disk.WritePrivate(Marker, MissingFiles(missing));
        if !ok {
          return;
        }
      }
      ghost var guarded := disk.Now();
      for i := 0 to |FILES|
        invariant Overwrite(guarded, session, FILES) == Overwrite(disk.Now(), session, FILES[i..])
      {
        assert FILES[i..][0] == FILES[i] && FILES[i..][1..] == FILES[i + 1..];
        ok := disk.WritePrivate(Settings(FILES[i]), session);
        if !ok {
          var restored := Restore();
          return;
        }
      }
      ok := true;
    }

    method Restore() returns (ok: bool)
      modifies disk
      ensures Step(disk.Now(), ok) == RestoreManaged(old(disk.Now()))
    {
      hide Attempt;
      var missing := [];
      if Marker in disk.files {
        match disk.files[Marker] {
          case MissingFiles(files) => missing := files;
          case _ => return false;
        }
      }
      for i := 0 to |FILES|
        invariant RestoreFiles(old(disk.Now()), missing, FILES) == RestoreFiles(disk.Now(), missing, FILES[i..])
      {
        assert FILES[i..][0] == FILES[i] && FILES[i..][1..] == FILES[i + 1..];
        var f := FILES[i];
        if Backup(f) in disk.files {
          ok := disk.WritePrivate(Settings(f), disk.files[Backup(f)]);
          if !ok {
            return;
          }
        } else if f in missing && Settings(f) in disk.files {
          ok := disk.RemoveFile(Settings(f));
          if !ok {
            return;
          }
        }
      }
      ghost var restored := disk.Now();
      for i := 0 to |BOOKKEEPING|
        invariant RemoveAll(restored, BOOKKEEPING) == RemoveAll(disk.Now(), BOOKKEEPING[i..])
      {
        assert BOOKKEEPING[i..][0] == BOOKKEEPING[i] && BOOKKEEPING[i..][1..] == BOOKKEEPING[i + 1..];
        if BOOKKEEPING[i] in disk.files {
          ok := disk.RemoveFile(BOOKKEEPING[i]);
          if !ok {
            return;
          }
        }
      }
      ok := true;
    }

    method Switch(session: Content, owner: string, launches: bool) returns (ok: bool)
      modifies disk
      ensures Step(disk.Now(), ok) == SwitchSession(old(disk.Now()), session, owner, launches)
    {
      hide Attempt, RestoreManaged, InjectSession;
      ok := Inject(session);
      if !ok {
        return;
      }
      var noted := disk.WritePrivate(Owner, Text(owner));
      if !noted || !launches {
        var restored := Restore();
        return false;
      }
    }
  }

  // ----------------------------------------------------- when nothing can be lost

  /** The user's own settings files: absent files are absent keys. */
  type Own = map<SettingsFile, Content>

  predicate Matches(files: Files, own: Own, f: SettingsFile) {
    && (Settings(f) in files <==> f in own)
    && (f in own ==> files[Settings(f)] == own[f])
  }

  predicate AllMatch(files: Files, own: Own) {
    forall f :: Matches(files, own, f)
  }

  predicate Listed(files: Files, f: SettingsFile) {
    Marker in files && files[Marker].MissingFiles? && f in files[Marker].files
  }

  /** A backup or the marker settles what recovery makes of the file. */
  predicate Noted(files: Files, f: SettingsFile) {
    Backup(f) in files || Listed(files, f)
  }

  /** What backup and marker say of the file is so; they never both speak. */
  predicate Rightly(files: Files, own: Own, f: SettingsFile) {
    && (Backup(f) in files ==> f in own && files[Backup(f)] == own[f])
    && (Listed(files, f) ==> f !in own)
  }

  predicate Honest(files: Files, own: Own) {
    && (Marker in files ==> files[Marker].MissingFiles?)
    && forall f :: Rightly(files, own, f)
  }

  predicate Secured(files: Files) {
    forall f :: Noted(files, f)
  }

  /** Every file the user had is noted, or still where it was. */
  predicate Guarded(files: Files, own: Own) {
    Honest(files, own) && forall f :: Noted(files, f) || Matches(files, own, f)
  }

  /** A switch may run: a marker, which makes it skip the backups, notes every
      file together with them; without one, no backup is of a file that is gone
      and would be listed as missing. */
  predicate Switchable(files: Files) {
    if Marker in files then Secured(files) else forall f :: Backup(f) in files ==> Settings(f) in files
  }

  /** No step of an operation touches the sign-in sandbox. */
  ghost predicate SameStaging(before: Files, after: Files) {
    forall p: Path :: p.Staging? || p.Staged? || p.Manifest? ==>
      (p in before <==> p in after) && (p in before ==> before[p] == after[p])
  }

  lemma RestoreOneGuards(d: DiskState, missing: seq<SettingsFile>, f: SettingsFile, own: Own)
    requires Guarded(d.files, own) && MarkedMissing(d.files) == Some(missing)
    ensures var s := RestoreOne(d, missing, f);
            && Guarded(s.disk.files, own) && MarkedMissing(s.disk.files) == Some(missing) && SameStaging(d.files, s.disk.files)
            && (s.ok ==> Matches(s.disk.files, own, f))
            && (forall g :: g != f && Matches(d.files, own, g) ==> Matches(s.disk.files, own, g))
            && (Owner in s.disk.files <==> Owner in d.files)
  {
    hide Attempt;
    var s := RestoreOne(d, missing, f);
    assert Rightly(d.files, own, f) && (Noted(d.files, f) || Matches(d.files, own, f));
    forall g
      ensures Rightly(s.disk.files, own, g) && (Noted(s.disk.files, g) || Matches(s.disk.files, own, g))
    {
      assert Rightly(d.files, own, g) && (Noted(d.files, g) || Matches(d.files, own, g));
    }
  }

  lemma {:induction false} RestoreFilesGuards(d: DiskState, missing: seq<SettingsFile>, todo: seq<SettingsFile>, own: Own)
    requires Guarded(d.files, own) && MarkedMissing(d.files) == Some(missing)
    requires forall f :: f in todo || Matches(d.files, own, f)
    ensures var s := RestoreFiles(d, missing, todo);
            && Guarded(s.disk.files, own) && MarkedMissing(s.disk.files) == Some(missing) && SameStaging(d.files, s.disk.files)
            && (s.ok ==> AllMatch(s.disk.files, own))
            && (Owner in s.disk.files <==> Owner in d.files)
    decreases |todo|
  {
    hide Guarded, RestoreOne, Matches;
    if todo != [] {
      RestoreOneGuards(d, missing, todo[0], own);
      var restored := RestoreOne(d, missing, todo[0]);
      if restored.ok {
        assert forall f :: f in todo[1..] || f == todo[0] || f !in todo;
        RestoreFilesGuards(restored.disk, missing, todo[1..], own);
      }
    }
  }

  lemma {:induction false} RemoveAllGuards(d: DiskState, paths: seq<Path>, own: Own)
    requires Honest(d.files, own) && AllMatch(d.files, own)
    requires forall p | p in paths :: p.Backup? || p.Marker? || p.Owner?
    ensures var s := RemoveAll(d, paths);
            && Honest(s.disk.files, own) && AllMatch(s.disk.files, own) && SameStaging(d.files, s.disk.files)
            && (s.ok ==> forall p :: p in s.disk.files <==> p in d.files && p !in paths)
    decreases |paths|
  {
    if paths != [] {
      var removed := RemoveIfPresent(d, paths[0]);
      assert paths[0] in paths;
      forall g
        ensures Matches(removed.disk.files, own, g) && Rightly(removed.disk.files, own, g)
      {
        assert Matches(d.files, own, g) && Rightly(d.files, own, g);
      }
      if removed.ok {
        RemoveAllGuards(removed.disk, paths[1..], own);
      }
    }
  }

  /** Restoring, cut off anywhere, loses nothing: the originals are all written
      before the first backup goes. Completed, it leaves the user's files and
      no bookkeeping. */
  lemma RestoreManagedGuards(d: DiskState, own: Own)
    requires Guarded(d.files, own)
    ensures var s := RestoreManaged(d);
            && Guarded(s.disk.files, own) && SameStaging(d.files, s.disk.files)
            && (s.ok ==> AllMatch(s.disk.files, own) && forall p | p in BOOKKEEPING :: p !in s.disk.files)
            && (d.script == [] && !d.crashed ==> s.ok)
  {
    hide RestoreOne, Matches, BOOKKEEPING, FILES, RemoveIfPresent;
    var missing := MarkedMissing(d.files).value;
    AllFiles();
    RestoreFilesGuards(d, missing, FILES, own);
    var restored := RestoreFiles(d, missing, FILES);
    if restored.ok {
      BookkeepingKinds();
      RemoveAllGuards(restored.disk, BOOKKEEPING, own);
    }
    if d.script == [] && !d.crashed {
      RestoreCompletes(d, missing);
    }
  }

  lemma AllFiles()
    ensures forall f :: f in FILES
  {
    assert FILES[0] == RiotGames && FILES[1] == RiotClient;
    forall f
      ensures f in FILES
    {
      match f
      case RiotGames =>
      case RiotClient =>
    }
  }

  lemma BookkeepingKinds()
    ensures forall p | p in BOOKKEEPING :: p.Backup? || p.Marker? || p.Owner?
  {
  }

  lemma RestoreCompletes(d: DiskState, missing: seq<SettingsFile>)
    requires d.script == [] && !d.crashed
    ensures var r := RestoreFiles(d, missing, FILES);
            r.ok && RemoveAll(r.disk, BOOKKEEPING).ok
  {
    RestoreFilesCompletes(d, missing, FILES);
    RemoveAllCompletes(RestoreFiles(d, missing, FILES).disk, BOOKKEEPING);
  }

  lemma {:induction false} RestoreFilesCompletes(d: DiskState, missing: seq<SettingsFile>, todo: seq<SettingsFile>)
    requires d.script == [] && !d.crashed
    ensures var r := RestoreFiles(d, missing, todo); r.ok && r.disk.script == [] && !r.disk.crashed
    decreases |todo|
  {
    if todo != [] {
      RestoreFilesCompletes(RestoreOne(d, missing, todo[0]).disk, missing, todo[1..]);
    }
  }

  lemma {:induction false} RemoveAllCompletes(d: DiskState, paths: seq<Path>)
    requires d.script == [] && !d.crashed
    ensures RemoveAll(d, paths).ok
    decreases |paths|
  {
    if paths != [] {
      RemoveAllCompletes(RemoveIfPresent(d, paths[0]).disk, paths[1..]);
    }
  }

  lemma {:induction false} BackUpGuards(d: DiskState, todo: seq<SettingsFile>, own: Own)
    requires Guarded(d.files, own) && Marker !in d.files && Switchable(d.files)
    ensures var s := BackUp(d, todo);
            && Guarded(s.disk.files, own) && Marker !in s.disk.files && Switchable(s.disk.files) && SameStaging(d.files, s.disk.files)
            && (forall f :: Settings(f) in d.files <==> Settings(f) in s.disk.files)
            && (forall f :: Backup(f) in d.files ==> Backup(f) in s.disk.files)
            && (s.ok ==> forall f :: f in todo && Settings(f) in d.files ==> Backup(f) in s.disk.files)
    decreases |todo|
  {
    hide Attempt;
    if todo != [] {
      var f := todo[0];
      if Settings(f) in d.files && Backup(f) !in d.files {
        var copied := Write(d, Backup(f), d.files[Settings(f)]);
        if copied.ok {
          OneMoreBackup(d.files, f, own);
          BackUpGuards(copied.disk, todo[1..], own);
        }
      } else {
        BackUpGuards(d, todo[1..], own);
      }
    }
  }

  lemma OneMoreBackup(files: Files, f: SettingsFile, own: Own)
    requires Guarded(files, own) && Marker !in files && Settings(f) in files && Backup(f) !in files
    ensures Guarded(files[Backup(f) := files[Settings(f)]], own)
  {
    var after := files[Backup(f) := files[Settings(f)]];
    assert Matches(files, own, f);
    forall g
      ensures Rightly(after, own, g) && (Noted(after, g) || Matches(after, own, g))
    {
      assert Rightly(files, own, g) && (Noted(files, g) || Matches(files, own, g));
    }
  }

  lemma {:induction false} OverwriteGuards(d: DiskState, session: Content, todo: seq<SettingsFile>, own: Own)
    requires Honest(d.files, own) && Secured(d.files)
    ensures var s := Overwrite(d, session, todo);
            && Honest(s.disk.files, own) && Secured(s.disk.files) && SameStaging(d.files, s.disk.files)
            && (Marker in d.files <==> Marker in s.disk.files)
            && (s.ok ==> forall f :: f in todo ==> Settings(f) in s.disk.files && s.disk.files[Settings(f)] == session)
            && (forall f :: Settings(f) in d.files && d.files[Settings(f)] == session ==>
                  Settings(f) in s.disk.files && s.disk.files[Settings(f)] == session)
    decreases |todo|
  {
    if todo != [] {
      var written := Write(d, Settings(todo[0]), session);
      if written.ok {
        SettingsAside(d.files, written.disk.files, own);
        OverwriteGuards(written.disk, session, todo[1..], own);
      }
    }
  }

  lemma SettingsAside(before: Files, after: Files, own: Own)
    requires forall p: Path | p.Backup? || p.Marker? :: (p in before <==> p in after) && (p in before ==> before[p] == after[p])
    ensures forall f :: (Noted(before, f) <==> Noted(after, f)) && (Rightly(before, own, f) <==> Rightly(after, own, f))
    ensures Honest(before, own) <==> Honest(after, own)
    ensures Secured(before) <==> Secured(after)
  {
    forall f
      ensures (Noted(before, f) <==> Noted(after, f)) && (Rightly(before, own, f) <==> Rightly(after, own, f))
    {
      assert Backup(f) in before <==> Backup(f) in after;
    }
  }

  lemma MarkGuards(files: Files, missing: seq<SettingsFile>, own: Own)
    requires Guarded(files, own) && Marker !in files && Switchable(files)
    requires forall f :: f in missing <==> Settings(f) !in files
    requires forall f :: Settings(f) in files ==> Backup(f) in files
    ensures var marked := files[Marker := MissingFiles(missing)]; Secured(marked) && Honest(marked, own)
  {
    var marked := files[Marker := MissingFiles(missing)];
    forall f
      ensures Noted(marked, f) && Rightly(marked, own, f)
    {
      assert Rightly(files, own, f) && (Noted(files, f) || Matches(files, own, f));
    }
  }

  lemma NotedIsGuarded(files: Files, own: Own)
    requires Honest(files, own) && Secured(files)
    ensures Guarded(files, own)
  {
  }

  /** Backing up before the first overwrite: cut off anywhere, every file is
      noted or where it was; completed, every file is noted. */
  lemma GuardGuards(d: DiskState, own: Own)
    requires Guarded(d.files, own) && Switchable(d.files)
    ensures var s := Guard(d);
            && Guarded(s.disk.files, own) && SameStaging(d.files, s.disk.files)
            && (s.ok ==> Secured(s.disk.files) && Honest(s.disk.files, own) && Marker in s.disk.files)
  {
    hide Attempt, BackUp, MissingIn, FILES, Rightly, Noted, Matches;
    if Marker !in d.files {
      AllFiles();
      BackUpGuards(d, FILES, own);
      var copied := BackUp(d, FILES);
      if copied.ok {
        MarkGuards(copied.disk.files, MissingIn(d.files, FILES), own);
        hide Honest, Secured;
        NotedIsGuarded(copied.disk.files[Marker := MissingFiles(MissingIn(d.files, FILES))], own);
      }
    }
  }

  /** Injecting a session, cut off or failing anywhere, loses nothing; completed,
      both settings files hold the session and the user's are noted. */
  lemma InjectGuards(d: DiskState, session: Content, own: Own)
    requires Guarded(d.files, own) && Switchable(d.files)
    ensures var s := InjectSession(d, session);
            && Guarded(s.disk.files, own) && SameStaging(d.files, s.disk.files)
            && (s.ok ==> Honest(s.disk.files, own) && Secured(s.disk.files) && Marker in s.disk.files
                         && forall f :: Settings(f) in s.disk.files && s.disk.files[Settings(f)] == session)
  {
    hide Guard, RestoreManaged, Overwrite, Honest, Secured, Guarded, Switchable;
    GuardGuards(d, own);
    var guarded := Guard(d);
    if guarded.ok {
      AllFiles();
      OverwriteGuards(guarded.disk, session, FILES, own);
      var written := Overwrite(guarded.disk, session, FILES);
      NotedIsGuarded(written.disk.files, own);
      if !written.ok {
        RestoreManagedGuards(written.disk, own);
      }
    }
  }

  lemma SwitchGuards(d: DiskState, session: Content, owner: string, launches: bool, own: Own)
    requires Guarded(d.files, own) && Switchable(d.files)
    ensures var s := SwitchSession(d, session, owner, launches);
            && Guarded(s.disk.files, own) && SameStaging(d.files, s.disk.files)
            && (s.ok ==> Switchable(s.disk.files))
  {
    hide InjectSession, RestoreManaged, Attempt;
    InjectGuards(d, session, own);
    var injected := InjectSession(d, session);
    if injected.ok {
      var noted := Write(injected.disk, Owner, Text(owner));
      SettingsAside(injected.disk.files, noted.disk.files, own);
      hide Honest, Secured, Guarded;
      NotedIsGuarded(noted.disk.files, own);
      RestoreManagedGuards(noted.disk, own);
    }
  }

  // ----------------------------------------------------- when a switch is safe

  lemma {:induction false} OverwriteCompletes(d: DiskState, session: Content, todo: seq<SettingsFile>)
    requires d.script == [] && !d.crashed
    ensures var s := Overwrite(d, session, todo);
            && s.ok && s.disk.script == [] && !s.disk.crashed
            && (forall f :: f in todo ==> Settings(f) in s.disk.files && s.disk.files[Settings(f)] == session)
            && (forall p: Path | !p.Settings? :: (p in s.disk.files <==> p in d.files) && (p in d.files ==> s.disk.files[p] == d.files[p]))
    decreases |todo|
  {
    if todo != [] {
      var written := Write(d, Settings(todo[0]), session);
      OverwriteCompletes(written.disk, session, todo[1..]);
      var s := Overwrite(d, session, todo);
      assert Settings(todo[0]) in s.disk.files && s.disk.files[Settings(todo[0])] == session by {
        OverwriteKeeps(written.disk, session, todo[1..], todo[0]);
      }
    }
  }

  lemma {:induction false} OverwriteKeeps(d: DiskState, session: Content, todo: seq<SettingsFile>, f: SettingsFile)
    requires Settings(f) in d.files && d.files[Settings(f)] == session
    ensures var s := Overwrite(d, session, todo); Settings(f) in s.disk.files && s.disk.files[Settings(f)] == session
    decreases |todo|
  {
    if todo != [] && Write(d, Settings(todo[0]), session).ok {
      OverwriteKeeps(Write(d, Settings(todo[0]), session).disk, session, todo[1..], f);
    }
  }

  predicate Foreign(session: Content, own: Own) {
    forall f :: f in own ==> own[f] != session
  }

  /** The session stands where no backup and no marker will clear it away. */
  predicate Lost(files: Files, own: Own, session: Content, f: SettingsFile) {
    Settings(f) in files && files[Settings(f)] == session && (f in own ==> own[f] != session) && !Noted(files, f)
  }

  /** Backup and marker both speak: whichever recovery removes first is right. */
  predicate Disputed(files: Files, f: SettingsFile) {
    Backup(f) in files && Listed(files, f)
  }

  /** Marker and backups as they are, or taken from the settings files. */
  ghost predicate Taken(files: Files, after: Files) {
    && SameStaging(files, after) && Marker in after
    && (forall f :: Backup(f) in files ==> Backup(f) in after && after[Backup(f)] == files[Backup(f)])
    && (Marker in files ==> after[Marker] == files[Marker] && forall f :: Backup(f) in after ==> Backup(f) in files)
    && (Marker !in files ==>
          && after[Marker] == MissingFiles(MissingIn(files, FILES))
          && forall f :: Settings(f) in files && Backup(f) !in files ==> Backup(f) in after && after[Backup(f)] == files[Settings(f)])
  }

  lemma {:induction false} BackUpCompletes(d: DiskState, todo: seq<SettingsFile>)
    requires d.script == [] && !d.crashed
    ensures var s := BackUp(d, todo);
            && s.ok && s.disk.script == [] && !s.disk.crashed
            && (forall p: Path | !p.Backup? :: (p in s.disk.files <==> p in d.files) && (p in d.files ==> s.disk.files[p] == d.files[p]))
            && (forall f :: Backup(f) in d.files ==> Backup(f) in s.disk.files && s.disk.files[Backup(f)] == d.files[Backup(f)])
            && (forall f :: f in todo && Settings(f) in d.files && Backup(f) !in d.files ==>
                  Backup(f) in s.disk.files && s.disk.files[Backup(f)] == d.files[Settings(f)])
    decreases |todo|
  {
    if todo != [] {
      var f := todo[0];
      if Settings(f) in d.files && Backup(f) !in d.files {
        BackUpCompletes(Write(d, Backup(f), d.files[Settings(f)]).disk, todo[1..]);
      } else {
        BackUpCompletes(d, todo[1..]);
      }
    }
  }

  lemma GuardTakes(files: Files)
    ensures var s := Guard(DiskState(files, [], false));
            s.ok && s.disk.script == [] && !s.disk.crashed && Taken(files, s.disk.files)
  {
    AllFiles();
    BackUpCompletes(DiskState(files, [], false), FILES);
    hide BackUp, MissingIn, FILES;
  }

  lemma TakenStays(files: Files, before: Files, after: Files)
    requires Taken(files, before)
    requires forall p: Path | !p.Settings? && !p.Owner? :: (p in after <==> p in before) && (p in before ==> after[p] == before[p])
    ensures Taken(files, after)
  {
    hide MissingIn, FILES;
  }

  ghost predicate HoldsSession(files: Files, session: Content) {
    forall f :: Settings(f) in files && files[Settings(f)] == session
  }

  /** What an undisturbed injection leaves. */
  lemma InjectTakes(files: Files, session: Content)
    ensures var s := InjectSession(DiskState(files, [], false), session);
            && s.ok && s.disk.script == [] && !s.disk.crashed
            && Taken(files, s.disk.files) && HoldsSession(s.disk.files, session)
  {
    hide Guard, Overwrite, Taken, RestoreManaged, FILES;
    GuardTakes(files);
    AllFiles();
    var guarded := Guard(DiskState(files, [], false)).disk;
    OverwriteCompletes(guarded, session, FILES);
    TakenStays(files, guarded.files, Overwrite(guarded, session, FILES).disk.files);
  }

  lemma SwitchTakes(files: Files, session: Content, owner: string)
    ensures var s := SwitchSession(DiskState(files, [], false), session, owner, true);
            s.ok && Taken(files, s.disk.files) && HoldsSession(s.disk.files, session)
  {
    hide InjectSession, Taken, RestoreManaged;
    InjectTakes(files, session);
    var injected := InjectSession(DiskState(files, [], false), session).disk.files;
    TakenStays(files, injected, injected[Owner := Text(owner)]);
  }

  /** Where it may not run, a switch leaves a file lost or disputed. */
  lemma UnswitchableLoses(files: Files, after: Files, session: Content, own: Own) returns (f: SettingsFile)
    requires Guarded(files, own) && Foreign(session, own) && !Switchable(files)
    requires Taken(files, after) && HoldsSession(after, session)
    ensures if Marker in files then Lost(after, own, session, f) else Disputed(after, f)
    ensures !Guarded(after, own)
  {
    AllFiles();
    hide FILES;
    if Marker in files {
      f :| !Noted(files, f);
      assert Matches(files, own, f);
      assert !Matches(after, own, f);
    } else {
      f :| Backup(f) in files && Settings(f) !in files;
      assert f in MissingIn(files, FILES);
      assert !Rightly(after, own, f);
    }
  }

  /** Exactly when an injection is safe, whatever the disk does to it. */
  lemma InjectIsSafeIff(files: Files, session: Content, own: Own)
    requires Guarded(files, own) && Foreign(session, own)
    ensures Switchable(files) <==>
            forall script :: Guarded(InjectSession(DiskState(files, script, false), session).disk.files, own)
  {
    hide InjectSession, Switchable;
    if Switchable(files) {
      forall script
        ensures Guarded(InjectSession(DiskState(files, script, false), session).disk.files, own)
      {
        InjectGuards(DiskState(files, script, false), session, own);
      }
    } else {
      InjectTakes(files, session);
      var f := UnswitchableLoses(files, InjectSession(DiskState(files, [], false), session).disk.files, session, own);
    }
  }
}
