/** The sign-in sandbox: the settings files are staged away, Riot writes new
    ones, and the staged ones come back. Also the recovery that runs after a
    crash, for the sandbox and for the managed session underneath it. */
module Provisioner {
  import opened Wrappers
  import opened SettingsDisk
  import opened SessionManager

  // --------------------------------------------------------- what the steps do

  function Entries(files: Files, todo: seq<SettingsFile>): (entries: seq<(SettingsFile, bool)>)
    ensures |entries| == |todo|
    ensures forall i :: 0 <= i < |todo| ==> entries[i] == (todo[i], Settings(todo[i]) in files)
  {
    if todo == [] then [] else [(todo[0], Settings(todo[0]) in files)] + Entries(files, todo[1..])
  }

  function CopyIn(d: DiskState, id: StagingId, todo: seq<SettingsFile>): (s: Step)
    decreases |todo|
  {
    if todo == [] then Step(d, true)
    else if Settings(todo[0]) in d.files then
      var copied := Write(d, Staged(id, todo[0]), d.files[Settings(todo[0])]);
      if copied.ok then CopyIn(copied.disk, id, todo[1..]) else copied
    else CopyIn(d, id, todo[1..])
  }

  /** The staging directory, complete with its manifest, or not at all. */
  function Stage(d: DiskState, id: StagingId): (s: Step) {
    var made := Write(d, Staging(id), Directory);
    if !made.ok then made
    else
      var copied := CopyIn(made.disk, id, FILES);
      var noted := if copied.ok then Write(copied.disk, Manifest(id), Originals(Entries(d.files, FILES))) else copied;
      if noted.ok then noted else Step(RemoveTree(noted.disk, id).disk, false)
  }

  const SETTINGS: seq<Path> := [Settings(RiotGames), Settings(RiotClient)]

  /** `session` is the sandbox the provisioner now owns. */
  datatype Prepared = Prepared(disk: DiskState, session: Option<StagingId>, ok: bool)

  function Prepare(d: DiskState, id: StagingId): (p: Prepared) {
    var staged := Stage(d, id);
    if !staged.ok then Prepared(staged.disk, None, false)
    else
      var removed := RemoveAll(staged.disk, SETTINGS);
      Prepared(removed.disk, Some(id), removed.ok)
  }

  function RestoreStaged(d: DiskState, id: StagingId, entries: seq<(SettingsFile, bool)>): (s: Step)
    decreases |entries|
  {
    if entries == [] then Step(d, true)
    else
      var (f, existed) := entries[0];
      var restored :=
        if !existed then RemoveIfPresent(d, Settings(f))
        else if Staged(id, f) in d.files then Write(d, Settings(f), d.files[Staged(id, f)])
        else Step(d, false);
      if restored.ok then RestoreStaged(restored.disk, id, entries[1..]) else restored
  }

  function Finish(d: DiskState, id: StagingId, entries: seq<(SettingsFile, bool)>): (s: Step) {
    var restored := RestoreStaged(d, id, entries);
    if restored.ok then RemoveTree(restored.disk, id) else restored
  }

  /** The sign-in command: a sandbox that could not be prepared or launched is
      finished at once. */
  function StartSignIn(d: DiskState, id: StagingId, launches: bool): (p: Prepared) {
    var prepared := Prepare(d, id);
    var entries := Entries(d.files, FILES);
    if !prepared.ok then
      var cleaned := if prepared.session.Some? then Finish(prepared.disk, id, entries) else Step(prepared.disk, true);
      Prepared(cleaned.disk, None, false)
    else if launches then prepared
    else
      var finished := Finish(prepared.disk, id, entries);
      Prepared(finished.disk, if finished.ok then None else Some(id), false)
  }

  /** One sandbox left behind: its files come back if it has a manifest, then its
      directory goes. */
  function RecoverOne(d: DiskState, id: StagingId): (s: Step) {
    var restored :=
      if Manifest(id) !in d.files then Step(d, true)
      else match d.files[Manifest(id)] case Originals(entries) => RestoreStaged(d, id, entries) case _ => Step(d, false);
    if restored.ok then RemoveTree(restored.disk, id) else restored
  }

  /** `listing` is the order in which the directory yields the stagings. */
  function RecoverAbandoned(d: DiskState, listing: seq<StagingId>): (s: Step)
    decreases |listing|
  {
    if listing == [] then Step(d, true)
    else
      var one := RecoverOne(d, listing[0]);
      if one.ok then RecoverAbandoned(one.disk, listing[1..]) else one
  }

  predicate SessionLeft(files: Files) {
    Marker in files || Backup(RiotGames) in files || Backup(RiotClient) in files
  }

  /** Sandbox first, managed session second. */
  function Recover(d: DiskState, listing: seq<StagingId>): (s: Step) {
    var sandbox := RecoverAbandoned(d, listing);
    if sandbox.ok && SessionLeft(sandbox.disk.files) then RestoreManaged(sandbox.disk) else sandbox
  }

  // --------------------------------------------------------------- the program

  class Sandbox {
    const disk: Disk
    var staging: Option<StagingId>
    var originals: seq<(SettingsFile, bool)>

    constructor (disk: Disk)
      ensures this.disk == disk && staging == None
    {
      this.disk, staging, originals := disk, None, [];
    }

    method PrepareStaging(id: StagingId) returns (ok: bool)
      modifies disk
      ensures Step(disk.Now(), ok) == Stage(old(disk.Now()), id)
    {
      hide Attempt, RemoveTree;
      ok := disk.WritePrivate(Staging(id), Directory);
      if !ok {
        return;
      }
      ghost var made := disk.Now();
      for i := 0 to |FILES|
        invariant CopyIn(made, id, FILES) == CopyIn(disk.Now(), id, FILES[i..])
        invariant ok
      {
        assert FILES[i..][0] == FILES[i] && FILES[i..][1..] == FILES[i + 1..];
        if Settings(FILES[i]) in disk.files {
          ok := disk.WritePrivate(Staged(id, FILES[i]), disk.files[Settings(FILES[i])]);
          if !ok {
            var removed := disk.RemoveDirAll(id);
            return;
          }
        }
      }
      MadeKeepsSettings(old(disk.Now()), id);
      CopyKeepsSettings(made, id, FILES);
      EntriesSame(old(disk.files), disk.files, FILES);
      ok := disk.WritePrivate(Manifest(id), Originals(Entries(disk.files, FILES)));
      if !ok {
        var removed := disk.RemoveDirAll(id);
      }
    }

    /** Refuses a second sandbox; otherwise stages the settings away. */
    method PrepareForProvisioning(id: StagingId) returns (ok: bool)
      modifies this, disk
      ensures old(staging).Some? ==> !ok && disk.Now() == old(disk.Now()) && staging == old(staging)
      ensures old(staging).None? ==>
                && Prepared(disk.Now(), staging, ok) == Prepare(old(disk.Now()), id)
                && (staging.Some? ==> originals == Entries(old(disk.files), FILES))
    {
      hide Attempt, Stage;
      if staging.Some? {
        return false;
      }
      var entries := Entries(disk.files, FILES);
      ok := PrepareStaging(id);
      if !ok {
        return;
      }
      staging, originals := Some(id), entries;
      ghost var staged := disk.Now();
      for i := 0 to |SETTINGS|
        invariant RemoveAll(staged, SETTINGS) == RemoveAll(disk.Now(), SETTINGS[i..])
        invariant ok && staging == Some(id) && originals == entries
      {
        assert SETTINGS[i..][0] == SETTINGS[i] && SETTINGS[i..][1..] == SETTINGS[i + 1..];
        if SETTINGS[i] in disk.files {
          ok := disk.RemoveFile(SETTINGS[i]);
          if !ok {
            return;
          }
        }
      }
    }

    method FinishAndRestore() returns (ok: bool)
      modifies this, disk
      ensures old(staging).None? ==> ok && disk.Now() == old(disk.Now()) && staging.None?
      ensures old(staging).Some? ==>
                && Step(disk.Now(), ok) == Finish(old(disk.Now()), old(staging).value, old(originals))
                && staging == (if ok then None else old(staging))
                && originals == (if ok then [] else old(originals))
    {
      hide Attempt;
      if staging.None? {
        return true;
      }
      ok := RestoreFrom(staging.value, originals);
      if !ok {
        return;
      }
      ok := disk.RemoveDirAll(staging.value);
      if ok {
        staging, originals := None, [];
      }
    }

    method RestoreFrom(id: StagingId, entries: seq<(SettingsFile, bool)>) returns (ok: bool)
      modifies disk
      ensures Step(disk.Now(), ok) == RestoreStaged(old(disk.Now()), id, entries)
    {
      hide Attempt;
      ok := true;
      assert entries[0..] == entries;
      for i := 0 to |entries|
        invariant RestoreStaged(old(disk.Now()), id, entries) == RestoreStaged(disk.Now(), id, entries[i..])
        invariant ok
      {
        assert entries[i..][0] == entries[i] && entries[i..][1..] == entries[i + 1..];
        var (f, existed) := entries[i];
        if existed {
          if Staged(id, f) !in disk.files {
            return false;
          }
          ok := disk.WritePrivate(Settings(f), disk.files[Staged(id, f)]);
        } else if Settings(f) in disk.files {
          ok := disk.RemoveFile(Settings(f));
        }
        if !ok {
          return;
        }
      }
    }

    /** A login is only ever captured from a sandbox that is open. */
    method PollCapturedSession(persisted: Content -> bool) returns (captured: Option<Content>)
      ensures staging.None? ==> captured == None
      ensures captured.Some? ==> persisted(captured.value) && exists f :: Settings(f) in disk.files && disk.files[Settings(f)] == captured.value
      ensures staging.Some? && captured.None? ==> forall f :: Settings(f) in disk.files ==> !persisted(disk.files[Settings(f)])
      ensures staging.Some? && Settings(RiotGames) in disk.files && persisted(disk.files[Settings(RiotGames)]) ==>
                captured == Some(disk.files[Settings(RiotGames)])
    {
      if staging.None? {
        return None;
      }
      AllFiles();
      assert FILES[0] == RiotGames;
      for i := 0 to |FILES|
        invariant forall j :: 0 <= j < i && Settings(FILES[j]) in disk.files ==> !persisted(disk.files[Settings(FILES[j])])
      {
        if Settings(FILES[i]) in disk.files && persisted(disk.files[Settings(FILES[i])]) {
          return Some(disk.files[Settings(FILES[i])]);
        }
      }
      captured := None;
      forall f | Settings(f) in disk.files
        ensures !persisted(disk.files[Settings(f)])
      {
        var j :| 0 <= j < |FILES| && FILES[j] == f;
      }
    }

    method RecoverOrphaned(listing: seq<StagingId>, manager: Manager) returns (ok: bool)
      requires manager.disk == disk
      modifies disk
      ensures Step(disk.Now(), ok) == Recover(old(disk.Now()), listing)
    {
      hide Attempt, RestoreStaged, RestoreManaged;
      ok := true;
      assert listing[0..] == listing;
      for i := 0 to |listing|
        invariant RecoverAbandoned(old(disk.Now()), listing) == RecoverAbandoned(disk.Now(), listing[i..])
        invariant ok
      {
        assert listing[i..][0] == listing[i] && listing[i..][1..] == listing[i + 1..];
        var id := listing[i];
        if Manifest(id) in disk.files {
          match disk.files[Manifest(id)] {
            case Originals(entries) =>
              ok := RestoreFrom(id, entries);
              if !ok {
                return;
              }
            case _ => return false;
          }
        }
        ok := disk.RemoveDirAll(id);
        if !ok {
          return;
        }
      }
      if SessionLeft(disk.files) {
        ok := manager.Restore();
      }
    }
  }

  lemma MadeKeepsSettings(d: DiskState, id: StagingId)
    ensures forall f :: Settings(f) in Write(d, Staging(id), Directory).disk.files <==> Settings(f) in d.files
  {
  }

  lemma {:induction false} CopyKeepsSettings(d: DiskState, id: StagingId, todo: seq<SettingsFile>)
    ensures var s := CopyIn(d, id, todo); forall f :: Settings(f) in s.disk.files <==> Settings(f) in d.files
    decreases |todo|
  {
    if todo != [] {
      if Settings(todo[0]) in d.files {
        CopyKeepsSettings(Write(d, Staged(id, todo[0]), d.files[Settings(todo[0])]).disk, id, todo[1..]);
      } else {
        CopyKeepsSettings(d, id, todo[1..]);
      }
    }
  }

  lemma {:induction false} EntriesSame(a: Files, b: Files, todo: seq<SettingsFile>)
    requires forall f :: Settings(f) in a <==> Settings(f) in b
    ensures Entries(a, todo) == Entries(b, todo)
  {
    if todo != [] {
      EntriesSame(a, b, todo[1..]);
    }
  }

  // ----------------------------------------------------- when nothing can be lost

  /** A manifest the recovery can follow. */
  ghost predicate Recorded(files: Files, id: StagingId) {
    && Staging(id) in files && Manifest(id) in files
    && files[Manifest(id)].Originals?
    && var entries := files[Manifest(id)].entries;
       && |entries| == 2 && entries[0].0 == RiotGames && entries[1].0 == RiotClient
       && (forall i :: 0 <= i < 2 && entries[i].1 ==> Staged(id, entries[i].0) in files)
  }

  predicate Existed(files: Files, id: StagingId, f: SettingsFile)
    requires Manifest(id) in files && files[Manifest(id)].Originals?
  {
    (f, true) in files[Manifest(id)].entries
  }

  /** The sandbox found the file as the user had it. */
  ghost predicate StagedAs(files: Files, own: Own, id: StagingId, f: SettingsFile)
    requires Recorded(files, id)
  {
    (Existed(files, id, f) <==> f in own) && (f in own ==> files[Staged(id, f)] == own[f])
  }

  ghost predicate NoManifest(files: Files) {
    forall id :: Manifest(id) !in files
  }

  ghost predicate Readable(files: Files) {
    forall id | Manifest(id) in files :: Recorded(files, id)
  }

  /** Staged files and manifests live in staging directories. */
  ghost predicate Tidy(files: Files) {
    forall id :: (Manifest(id) in files || exists f :: Staged(id, f) in files) ==> Staging(id) in files
  }

  /** What is not noted lies in every sandbox left behind; without any, where it
      was. Beside a sandbox the settings files may hold anything. */
  ghost predicate Kept(files: Files, own: Own, f: SettingsFile) {
    || Noted(files, f)
    || (NoManifest(files) && Matches(files, own, f))
    || (!NoManifest(files) && forall id | Manifest(id) in files :: Recorded(files, id) && StagedAs(files, own, id, f))
  }

  /** Whatever was cut off, recovery will find the user's files. */
  ghost predicate Safe(files: Files, own: Own) {
    Tidy(files) && Readable(files) && Honest(files, own) && forall f :: Kept(files, own, f)
  }

  ghost predicate OnlySettingsDiffer(before: Files, after: Files) {
    forall p: Path :: !p.Settings? ==> (p in before <==> p in after) && (p in before ==> before[p] == after[p])
  }

  ghost predicate OnlyStagingDiffers(before: Files, after: Files, id: StagingId) {
    forall p: Path :: p !in Tree(id) ==> (p in before <==> p in after) && (p in before ==> before[p] == after[p])
  }

  ghost predicate SameTree(before: Files, after: Files, id: StagingId) {
    forall p | p in Tree(id) :: (p in before <==> p in after) && (p in before ==> before[p] == after[p])
  }

  lemma NoTree(id: StagingId)
    ensures Staging(id) in Tree(id) && Manifest(id) in Tree(id) && forall f :: Staged(id, f) in Tree(id)
    ensures forall p :: p in Tree(id) ==> !p.Settings? && !p.Backup? && !p.Marker? && !p.Owner?
    ensures forall p :: p in Tree(id) ==> p.id == id
  {
    forall f
      ensures Staged(id, f) in Tree(id)
    {
      match f
      case RiotGames =>
      case RiotClient =>
    }
  }

  lemma TreeFrame(before: Files, after: Files, own: Own, id: StagingId)
    requires Recorded(before, id) && SameTree(before, after, id)
    ensures Recorded(after, id) && forall f :: StagedAs(after, own, id, f) <==> StagedAs(before, own, id, f)
    ensures forall f :: Existed(after, id, f) <==> Existed(before, id, f)
  {
    NoTree(id);
    assert after[Manifest(id)] == before[Manifest(id)];
    assert forall f :: Staged(id, f) in before ==> Staged(id, f) in after && after[Staged(id, f)] == before[Staged(id, f)];
  }

  lemma OtherTrees(before: Files, after: Files, id: StagingId, other: StagingId)
    requires OnlyStagingDiffers(before, after, id) && other != id
    ensures SameTree(before, after, other) && (Manifest(other) in before <==> Manifest(other) in after)
  {
    NoTree(id);
    NoTree(other);
  }

  lemma StagingTransitive(a: Files, b: Files, c: Files, id: StagingId)
    requires OnlyStagingDiffers(a, b, id) && OnlyStagingDiffers(b, c, id)
    ensures OnlyStagingDiffers(a, c, id)
  {
    forall p: Path | p !in Tree(id)
      ensures (p in a <==> p in c) && (p in a ==> a[p] == c[p])
    {
      assert p in a <==> p in b;
    }
  }

  lemma TidyFrame(before: Files, after: Files, id: StagingId)
    requires Tidy(before) && OnlyStagingDiffers(before, after, id)
    requires Staging(id) in after || (Manifest(id) !in after && forall f :: Staged(id, f) !in after)
    ensures Tidy(after)
  {
    forall other | Manifest(other) in after || exists f :: Staged(other, f) in after
      ensures Staging(other) in after
    {
      if other != id {
        assert Staging(other) !in Tree(id) && Manifest(other) !in Tree(id) && forall f :: Staged(other, f) !in Tree(id);
        if Manifest(other) !in after {
          var f :| Staged(other, f) in after;
          assert Staged(other, f) in before;
        }
      }
    }
  }

  lemma SameTidy(before: Files, after: Files)
    requires Tidy(before) && SameStaging(before, after)
    ensures Tidy(after) && (NoManifest(after) <==> NoManifest(before))
  {
    forall id | Manifest(id) in after || exists f :: Staged(id, f) in after
      ensures Staging(id) in after
    {
      if f :| Staged(id, f) in after {
        assert Staged(id, f) in before;
      }
    }
  }

  lemma SameReadable(before: Files, after: Files, own: Own)
    requires Readable(before) && SameStaging(before, after)
    ensures Readable(after)
    ensures forall id, f | Manifest(id) in before :: StagedAs(after, own, id, f) <==> StagedAs(before, own, id, f)
    ensures forall id, f | Manifest(id) in before :: Existed(after, id, f) <==> Existed(before, id, f)
  {
    forall id | Manifest(id) in before
      ensures Recorded(after, id) && forall f :: StagedAs(after, own, id, f) <==> StagedAs(before, own, id, f)
      ensures forall f :: Existed(after, id, f) <==> Existed(before, id, f)
    {
      NoTree(id);
      TreeFrame(before, after, own, id);
    }
  }

  /** Beside a sandbox, and where they are noted, the settings files may change. */
  lemma SettingsChange(before: Files, after: Files, own: Own)
    requires Safe(before, own) && OnlySettingsDiffer(before, after)
    requires NoManifest(before) ==> forall f :: Noted(before, f) || Matches(after, own, f)
    ensures Safe(after, own)
  {
    hide StagedAs, Recorded, Matches;
    SettingsAside(before, after, own);
    SameTidy(before, after);
    SameReadable(before, after, own);
    forall f
      ensures Kept(after, own, f)
    {
      assert Kept(before, own, f);
    }
  }

  lemma RecordsOutside(before: Files, after: Files, own: Own, id: StagingId)
    requires OnlyStagingDiffers(before, after, id)
    ensures forall f :: (Noted(before, f) <==> Noted(after, f)) && (Matches(before, own, f) <==> Matches(after, own, f))
    ensures Honest(before, own) <==> Honest(after, own)
  {
    NoTree(id);
    SettingsAside(before, after, own);
  }

  /** A staging directory without manifest does not matter. */
  lemma StagingChange(before: Files, after: Files, own: Own, id: StagingId)
    requires Safe(before, own) && OnlyStagingDiffers(before, after, id)
    requires Manifest(id) !in before && Manifest(id) !in after && Tidy(after)
    ensures Safe(after, own)
  {
    hide StagedAs, Recorded, Matches, Tidy, Noted;
    RecordsOutside(before, after, own, id);
    forall other | Manifest(other) in after || Manifest(other) in before
      ensures Manifest(other) in before && Manifest(other) in after && Recorded(after, other)
      ensures forall f :: StagedAs(after, own, other, f) <==> StagedAs(before, own, other, f)
    {
      OtherTrees(before, after, id, other);
      TreeFrame(before, after, own, other);
    }
    forall f
      ensures Kept(after, own, f)
    {
      assert Kept(before, own, f);
    }
  }

  /** Dropping a staging directory: with its manifest, once its files are back. */
  lemma DropStaging(before: Files, own: Own, id: StagingId)
    requires Safe(before, own)
    requires Manifest(id) in before ==> forall f :: Noted(before, f) || Matches(before, own, f)
    ensures var after := before - Tree(id); Safe(after, own) && OnlyStagingDiffers(before, after, id)
    ensures forall other :: Staging(other) in before - Tree(id) <==> Staging(other) in before && other != id
  {
    hide StagedAs, Recorded, Matches, Noted;
    var after := before - Tree(id);
    NoTree(id);
    TidyFrame(before, after, id);
    RecordsOutside(before, after, own, id);
    forall other | Manifest(other) in after || (Manifest(other) in before && other != id)
      ensures other != id && Manifest(other) in before && Manifest(other) in after && Recorded(after, other)
      ensures forall f :: StagedAs(after, own, other, f) <==> StagedAs(before, own, other, f)
    {
      OtherTrees(before, after, id, other);
      TreeFrame(before, after, own, other);
    }
    forall f
      ensures Kept(after, own, f)
    {
      assert Kept(before, own, f);
    }
  }

  // --------------------------------------------------------- opening a sandbox

  /** One settings file is as the manifest says. */
  ghost predicate PutBack(files: Files, id: StagingId, entry: (SettingsFile, bool)) {
    && (Settings(entry.0) in files <==> entry.1)
    && (entry.1 ==> Staged(id, entry.0) in files && files[Settings(entry.0)] == files[Staged(id, entry.0)])
  }

  /** A sign-in may open another sandbox: what is noted nowhere is still, or
      again, as every sandbox left behind found it. */
  ghost predicate MaySignIn(files: Files) {
    forall id | Manifest(id) in files :: Recorded(files, id) && forall f :: Noted(files, f) || PutBack(files, id, (f, Existed(files, id, f)))
  }

  lemma SettingsAreOwn(files: Files, own: Own, f: SettingsFile)
    requires Safe(files, own) && MaySignIn(files)
    ensures Noted(files, f) || Matches(files, own, f)
  {
    assert Kept(files, own, f);
    if !NoManifest(files) && !Noted(files, f) {
      var id :| Manifest(id) in files;
      assert StagedAs(files, own, id, f) && PutBack(files, id, (f, Existed(files, id, f)));
    }
  }

  lemma {:induction false} CopyInFrame(d: DiskState, id: StagingId, todo: seq<SettingsFile>)
    requires Manifest(id) !in d.files && Staging(id) in d.files
    ensures var s := CopyIn(d, id, todo);
            && OnlyStagingDiffers(d.files, s.disk.files, id)
            && Manifest(id) !in s.disk.files && Staging(id) in s.disk.files
            && (s.ok ==> forall f :: f in todo && Settings(f) in d.files ==>
                           Staged(id, f) in s.disk.files && s.disk.files[Staged(id, f)] == d.files[Settings(f)])
            && (forall f :: f !in todo && Staged(id, f) in d.files ==>
                  Staged(id, f) in s.disk.files && s.disk.files[Staged(id, f)] == d.files[Staged(id, f)])
            && (forall f :: f in todo && Staged(id, f) in d.files && Settings(f) in d.files && d.files[Staged(id, f)] == d.files[Settings(f)] ==>
                  Staged(id, f) in s.disk.files && s.disk.files[Staged(id, f)] == d.files[Staged(id, f)])
    decreases |todo|
  {
    hide Attempt;
    NoTree(id);
    if todo != [] {
      if Settings(todo[0]) in d.files {
        var copied := Write(d, Staged(id, todo[0]), d.files[Settings(todo[0])]);
        assert OnlyStagingDiffers(d.files, copied.disk.files, id);
        if copied.ok {
          CopyInFrame(copied.disk, id, todo[1..]);
          StagingTransitive(d.files, copied.disk.files, CopyIn(d, id, todo).disk.files, id);
        }
      } else {
        CopyInFrame(d, id, todo[1..]);
      }
    }
  }

  /** The manifest of a staging directory that holds copies of the settings files. */
  ghost predicate Copied(before: Files, copied: Files, id: StagingId) {
    && Staging(id) in copied && OnlyStagingDiffers(before, copied, id)
    && forall f :: Settings(f) in before ==> Staged(id, f) in copied && copied[Staged(id, f)] == before[Settings(f)]
  }

  /** Written last, the manifest records the settings files as they are. */
  lemma ManifestRecords(before: Files, copied: Files, id: StagingId)
    requires Copied(before, copied, id)
    ensures var after := copied[Manifest(id) := Originals(Entries(before, FILES))];
            && Recorded(after, id) && OnlyStagingDiffers(before, after, id)
            && (forall f :: Existed(after, id, f) <==> Settings(f) in before)
            && (forall f :: Settings(f) in before ==> Staged(id, f) in after && after[Staged(id, f)] == before[Settings(f)])
  {
    var entries := Entries(before, FILES);
    assert FILES[0] == RiotGames && FILES[1] == RiotClient;
    NoTree(id);
    assert entries[0] == (RiotGames, Settings(RiotGames) in before) && entries[1] == (RiotClient, Settings(RiotClient) in before);
    forall f
      ensures (f, true) in entries <==> Settings(f) in before
    {
      match f
      case RiotGames =>
      case RiotClient =>
    }
  }

  lemma NoteManifest(before: Files, copied: Files, own: Own, id: StagingId)
    requires Safe(before, own) && MaySignIn(before) && Copied(before, copied, id) && Manifest(id) !in before
    ensures Safe(copied[Manifest(id) := Originals(Entries(before, FILES))], own)
  {
    hide Entries, FILES, Noted;
    var after := copied[Manifest(id) := Originals(Entries(before, FILES))];
    ManifestRecords(before, copied, id);
    RecordsOutside(before, after, own, id);
    TidyFrame(before, after, id);
    forall other | Manifest(other) in after && other != id
      ensures Manifest(other) in before && Recorded(after, other)
      ensures forall f :: StagedAs(after, own, other, f) <==> StagedAs(before, own, other, f)
    {
      OtherTrees(before, after, id, other);
      TreeFrame(before, after, own, other);
    }
    forall f
      ensures Kept(after, own, f)
    {
      SettingsAreOwn(before, own, f);
      assert Kept(before, own, f);
      if !Noted(after, f) {
        assert StagedAs(after, own, id, f);
      }
    }
  }

  lemma StageGuards(d: DiskState, id: StagingId, own: Own)
    requires Safe(d.files, own) && MaySignIn(d.files) && Staging(id) !in d.files
    ensures var s := Stage(d, id);
            && Safe(s.disk.files, own) && OnlyStagingDiffers(d.files, s.disk.files, id)
            && (s.ok ==> Manifest(id) in s.disk.files && s.disk.files[Manifest(id)] == Originals(Entries(d.files, FILES)))
            && (!s.ok ==> Manifest(id) !in s.disk.files)
  {
    hide Attempt, CopyIn, Honest, Kept, Recorded, Entries, FILES, MaySignIn;
    NoTree(id);
    AllFiles();
    var made := Write(d, Staging(id), Directory);
    TidyFrame(d.files, made.disk.files, id);
    StagingChange(d.files, made.disk.files, own, id);
    if made.ok {
      CopyInFrame(made.disk, id, FILES);
      var copied := CopyIn(made.disk, id, FILES);
      StagingTransitive(d.files, made.disk.files, copied.disk.files, id);
      StageNoted(d, copied, id, own);
    }
  }

  lemma StageNoted(d: DiskState, copied: Step, id: StagingId, own: Own)
    requires Safe(d.files, own) && MaySignIn(d.files) && Staging(id) !in d.files
    requires OnlyStagingDiffers(d.files, copied.disk.files, id)
    requires Manifest(id) !in copied.disk.files && Staging(id) in copied.disk.files
    requires copied.ok ==> Copied(d.files, copied.disk.files, id)
    ensures var noted := if copied.ok then Write(copied.disk, Manifest(id), Originals(Entries(d.files, FILES))) else copied;
            var s := if noted.ok then noted else Step(RemoveTree(noted.disk, id).disk, false);
            && Safe(s.disk.files, own) && OnlyStagingDiffers(d.files, s.disk.files, id)
            && (s.ok ==> Manifest(id) in s.disk.files && s.disk.files[Manifest(id)] == Originals(Entries(d.files, FILES)))
            && (!s.ok ==> Manifest(id) !in s.disk.files)
  {
    hide Attempt, Honest, Kept, Recorded, Entries, FILES, MaySignIn, Copied;
    NoTree(id);
    TidyFrame(d.files, copied.disk.files, id);
    StagingChange(d.files, copied.disk.files, own, id);
    var noted := if copied.ok then Write(copied.disk, Manifest(id), Originals(Entries(d.files, FILES))) else copied;
    if noted.ok {
      NoteManifest(d.files, copied.disk.files, own, id);
    } else {
      DropStaging(noted.disk.files, own, id);
      StagingTransitive(d.files, noted.disk.files, noted.disk.files - Tree(id), id);
    }
  }

  lemma {:induction false} RemoveSettingsFrame(d: DiskState, paths: seq<Path>)
    requires forall p | p in paths :: p.Settings?
    ensures var s := RemoveAll(d, paths);
            && OnlySettingsDiffer(d.files, s.disk.files)
            && (s.ok ==> forall p | p in paths :: p !in s.disk.files)
            && (forall p | p !in d.files :: p !in s.disk.files)
    decreases |paths|
  {
    hide Attempt;
    if paths != [] {
      assert paths[0] in paths;
      var removed := RemoveIfPresent(d, paths[0]);
      if removed.ok {
        RemoveSettingsFrame(removed.disk, paths[1..]);
      }
    }
  }

  lemma SettingsPaths()
    ensures (forall p | p in SETTINGS :: p.Settings?) && forall f :: Settings(f) in SETTINGS
  {
    assert SETTINGS[0] == Settings(RiotGames) && SETTINGS[1] == Settings(RiotClient);
    forall f
      ensures Settings(f) in SETTINGS
    {
      match f
      case RiotGames =>
      case RiotClient =>
    }
  }

  /** Marker, backups and owner note as before. */
  ghost predicate SameRecords(before: Files, after: Files) {
    forall p: Path :: p.Marker? || p.Backup? || p.Owner? ==> (p in before <==> p in after) && (p in before ==> before[p] == after[p])
  }

  lemma RecordsOutsideTree(before: Files, after: Files, id: StagingId)
    requires OnlyStagingDiffers(before, after, id)
    ensures SameRecords(before, after)
  {
    NoTree(id);
  }

  /** Opening a sandbox where that is allowed, cut off or failing anywhere, loses
      nothing; opened, it starts without settings files. */
  lemma PrepareGuards(d: DiskState, id: StagingId, own: Own)
    requires Safe(d.files, own) && MaySignIn(d.files) && Staging(id) !in d.files
    ensures var p := Prepare(d, id);
            && Safe(p.disk.files, own)
            && (p.session.Some? ==> p.session == Some(id) && Manifest(id) in p.disk.files
                                    && p.disk.files[Manifest(id)] == Originals(Entries(d.files, FILES)))
            && (p.session.None? ==> !p.ok && Manifest(id) !in p.disk.files)
            && (p.ok ==> forall f :: Settings(f) !in p.disk.files)
            && SameRecords(d.files, p.disk.files)
  {
    hide Stage, Entries, RemoveAll, SETTINGS, Safe, MaySignIn;
    StageGuards(d, id, own);
    var staged := Stage(d, id);
    RecordsOutsideTree(d.files, staged.disk.files, id);
    if staged.ok {
      SettingsPaths();
      RemoveSettingsFrame(staged.disk, SETTINGS);
      SettingsChange(staged.disk.files, RemoveAll(staged.disk, SETTINGS).disk.files, own);
    }
  }

  // ---------------------------------------------------------- ending a sandbox

  lemma {:induction false} RestoreStagedFrame(d: DiskState, id: StagingId, entries: seq<(SettingsFile, bool)>)
    requires forall i, j :: 0 <= i < j < |entries| ==> entries[i].0 != entries[j].0
    ensures var s := RestoreStaged(d, id, entries);
            && OnlySettingsDiffer(d.files, s.disk.files)
            && (s.ok ==> forall entry | entry in entries :: PutBack(s.disk.files, id, entry))
            && (forall f :: (forall entry | entry in entries :: entry.0 != f) ==>
                  (Settings(f) in s.disk.files <==> Settings(f) in d.files)
                  && (Settings(f) in d.files ==> s.disk.files[Settings(f)] == d.files[Settings(f)]))
    decreases |entries|
  {
    hide Attempt;
    if entries != [] {
      var (f, existed) := entries[0];
      var restored :=
        if !existed then RemoveIfPresent(d, Settings(f))
        else if Staged(id, f) in d.files then Write(d, Settings(f), d.files[Staged(id, f)])
        else Step(d, false);
      if restored.ok {
        assert forall entry | entry in entries[1..] :: entry.0 != f;
        RestoreStagedFrame(restored.disk, id, entries[1..]);
        var s := RestoreStaged(d, id, entries);
        assert PutBack(s.disk.files, id, entries[0]);
        forall entry | entry in entries
          ensures s.ok ==> PutBack(s.disk.files, id, entry)
        {
          assert entry == entries[0] || entry in entries[1..];
        }
      }
    }
  }

  lemma RecordedEntries(files: Files, id: StagingId)
    requires Recorded(files, id)
    ensures var entries := files[Manifest(id)].entries;
            && entries[0].0 != entries[1].0
            && forall f :: (f, Existed(files, id, f)) in entries
  {
    var entries := files[Manifest(id)].entries;
    var (one, oneExisted) := entries[0];
    var (other, otherExisted) := entries[1];
    assert (one, oneExisted) in entries && (other, otherExisted) in entries;
    forall f
      ensures (f, Existed(files, id, f)) in entries
    {
      match f
      case RiotGames =>
      case RiotClient =>
    }
  }

  /** All settings files as the sandbox found them. */
  ghost predicate AllBack(files: Files, id: StagingId)
    requires Recorded(files, id)
  {
    forall f :: PutBack(files, id, (f, Existed(files, id, f)))
  }

  lemma RestoreStagedGuards(d: DiskState, id: StagingId, own: Own)
    requires Safe(d.files, own) && Manifest(id) in d.files
    ensures var s := RestoreStaged(d, id, d.files[Manifest(id)].entries);
            && Safe(s.disk.files, own) && OnlySettingsDiffer(d.files, s.disk.files)
            && (s.ok ==> AllBack(s.disk.files, id) && forall f :: Noted(s.disk.files, f) || Matches(s.disk.files, own, f))
  {
    hide RestoreStaged, Noted, Tidy, Honest;
    var entries := d.files[Manifest(id)].entries;
    RecordedEntries(d.files, id);
    RestoreStagedFrame(d, id, entries);
    var after := RestoreStaged(d, id, entries).disk.files;
    SettingsChange(d.files, after, own);
    RecordedEntries(after, id);
    if RestoreStaged(d, id, entries).ok {
      assert AllBack(after, id);
      forall f
        ensures Noted(after, f) || Matches(after, own, f)
      {
        assert Kept(after, own, f) && PutBack(after, id, (f, Existed(after, id, f)));
      }
    }
  }

  /** Restoring from the staging directory and then dropping it, cut off
      anywhere, loses nothing; completed, the sandbox is gone and the settings
      files are those it found. */
  lemma FinishGuards(d: DiskState, id: StagingId, entries: seq<(SettingsFile, bool)>, own: Own)
    requires Safe(d.files, own) && Manifest(id) in d.files && d.files[Manifest(id)] == Originals(entries)
    ensures var s := Finish(d, id, entries);
            && Safe(s.disk.files, own) && SameRecords(d.files, s.disk.files)
            && (s.ok ==> && (forall other :: Staging(other) in s.disk.files <==> Staging(other) in d.files && other != id)
                         && (forall other :: Manifest(other) in s.disk.files <==> Manifest(other) in d.files && other != id)
                         && (forall f :: Settings(f) in s.disk.files <==> Existed(d.files, id, f))
                         && (forall f :: Existed(d.files, id, f) ==> s.disk.files[Settings(f)] == d.files[Staged(id, f)]))
            && (!s.ok ==> Manifest(id) in s.disk.files && s.disk.files[Manifest(id)] == Originals(entries)
                          && (forall other :: Staging(other) in s.disk.files <==> Staging(other) in d.files))
  {
    hide Attempt, RestoreStaged, Tidy, Honest, Kept, Noted, Matches;
    RestoreStagedGuards(d, id, own);
    var restored := RestoreStaged(d, id, entries);
    if restored.ok {
      DropStaging(restored.disk.files, own, id);
      NoTree(id);
      var after := Finish(d, id, entries).disk.files;
      forall f
        ensures (Settings(f) in after <==> Existed(d.files, id, f)) && (Existed(d.files, id, f) ==> after[Settings(f)] == d.files[Staged(id, f)])
      {
        assert PutBack(restored.disk.files, id, (f, Existed(restored.disk.files, id, f)));
        assert Settings(f) !in Tree(id);
      }
    }
  }

  /** The sign-in command as a whole, with its own undoing. */
  lemma StartGuards(d: DiskState, id: StagingId, launches: bool, own: Own)
    requires Safe(d.files, own) && MaySignIn(d.files) && Staging(id) !in d.files
    ensures var p := StartSignIn(d, id, launches);
            && Safe(p.disk.files, own)
            && (p.session.Some? ==> p.session == Some(id) && Manifest(id) in p.disk.files
                                    && p.disk.files[Manifest(id)] == Originals(Entries(d.files, FILES)))
  {
    hide Prepare, Finish, Safe, MaySignIn, Entries;
    PrepareGuards(d, id, own);
    var p := Prepare(d, id);
    if p.session.Some? {
      FinishGuards(p.disk, id, Entries(d.files, FILES), own);
    }
  }
}
