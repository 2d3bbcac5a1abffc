/** What recovery gives back, and exactly from which disks: whatever order the
    staging directories come in, and however often recovery itself is cut off. */
module SessionRecovery {
  import opened Wrappers
  import opened SettingsDisk
  import opened SessionManager
  import opened Provisioner

  /** A directory listing: every staging directory once, in any order. */
  ghost predicate Lists(listing: seq<StagingId>, files: Files) {
    && (forall id :: Staging(id) in files <==> id in listing)
    && (forall i, j :: 0 <= i < j < |listing| ==> listing[i] != listing[j])
  }

  /** Nothing but the user's settings files, and perhaps the owner note. */
  ghost predicate Restored(files: Files, own: Own) {
    AllMatch(files, own) && forall p | p in files :: p.Settings? || p.Owner?
  }

  /** Without a sandbox left behind, being safe is being guarded. */
  lemma SafeAlone(files: Files, own: Own)
    requires NoManifest(files)
    ensures Safe(files, own) <==> Tidy(files) && Guarded(files, own)
  {
    hide Matches, Noted, Tidy, Rightly;
    if Safe(files, own) {
      forall f
        ensures Noted(files, f) || Matches(files, own, f)
      {
        assert Kept(files, own, f);
      }
    }
    if Guarded(files, own) {
      forall f
        ensures Kept(files, own, f)
      {
        assert Noted(files, f) || Matches(files, own, f);
      }
    }
  }

  // ------------------------------------------------------ from every safe disk

  lemma {:induction false} RestoreStagedCompletes(d: DiskState, id: StagingId, entries: seq<(SettingsFile, bool)>)
    requires d.script == [] && !d.crashed
    requires forall i :: 0 <= i < |entries| && entries[i].1 ==> Staged(id, entries[i].0) in d.files
    ensures var s := RestoreStaged(d, id, entries); s.ok && s.disk.script == [] && !s.disk.crashed
    decreases |entries|
  {
    if entries != [] {
      var (f, existed) := entries[0];
      var restored := if !existed then RemoveIfPresent(d, Settings(f)) else Write(d, Settings(f), d.files[Staged(id, f)]);
      RestoreStagedCompletes(restored.disk, id, entries[1..]);
    }
  }

  lemma RecoverOneGuards(d: DiskState, id: StagingId, own: Own)
    requires Safe(d.files, own)
    ensures var s := RecoverOne(d, id);
            && Safe(s.disk.files, own)
            && (s.ok ==> SameRecords(d.files, s.disk.files)
                         && forall other :: Staging(other) in s.disk.files <==> Staging(other) in d.files && other != id)
            && (d.script == [] && !d.crashed ==> s.ok && s.disk.script == [] && !s.disk.crashed)
  {
    if Manifest(id) in d.files {
      hide RestoreStaged, Tidy, Honest, Kept;
      var entries := d.files[Manifest(id)].entries;
      FinishGuards(d, id, entries, own);
      if d.script == [] && !d.crashed {
        RestoreStagedCompletes(d, id, entries);
      }
    } else {
      hide Safe;
      DropStaging(d.files, own, id);
      RecordsOutsideTree(d.files, d.files - Tree(id), id);
    }
  }

  lemma {:induction false} RecoverAbandonedGuards(d: DiskState, listing: seq<StagingId>, own: Own)
    requires Safe(d.files, own) && Lists(listing, d.files)
    ensures var s := RecoverAbandoned(d, listing);
            && Safe(s.disk.files, own)
            && (s.ok ==> NoManifest(s.disk.files) && Lists([], s.disk.files) && SameRecords(d.files, s.disk.files))
            && (d.script == [] && !d.crashed ==> s.ok && s.disk.script == [] && !s.disk.crashed)
    decreases |listing|
  {
    hide RecoverOne, Honest, Kept, Readable;
    if listing != [] {
      RecoverOneGuards(d, listing[0], own);
      var one := RecoverOne(d, listing[0]);
      if one.ok {
        TailLists(listing, d.files, one.disk.files);
        RecoverAbandonedGuards(one.disk, listing[1..], own);
      }
    }
  }

  lemma TailLists(listing: seq<StagingId>, before: Files, after: Files)
    requires listing != [] && Lists(listing, before)
    requires forall other :: Staging(other) in after <==> Staging(other) in before && other != listing[0]
    ensures Lists(listing[1..], after)
  {
    forall id
      ensures id in listing[1..] <==> id in listing && id != listing[0]
    {
      if id in listing[1..] {
        var i :| 0 <= i < |listing[1..]| && listing[1..][i] == id;
        assert listing[i + 1] == id;
      }
    }
  }

  /** Recovery, cut off anywhere, leaves a state that recovery can still repair.
      Completed, it puts back exactly the user's files and leaves no marker, no
      backup and no staging. The owner note stays if and only if there was one
      without a managed session to restore. */
  lemma RecoverGuards(d: DiskState, listing: seq<StagingId>, own: Own)
    requires Safe(d.files, own) && Lists(listing, d.files)
    ensures var s := Recover(d, listing);
            && Safe(s.disk.files, own)
            && (s.ok ==> Restored(s.disk.files, own)
                         && (Owner in s.disk.files <==> Owner in d.files && !SessionLeft(d.files)))
            && (d.script == [] && !d.crashed ==> s.ok)
  {
    hide RecoverAbandoned, RestoreManaged, Guarded, AllMatch, BOOKKEEPING, Tidy, Readable, Honest, Kept;
    RecoverAbandonedGuards(d, listing, own);
    var sandbox := RecoverAbandoned(d, listing);
    if sandbox.ok {
      SafeAlone(sandbox.disk.files, own);
      if SessionLeft(sandbox.disk.files) {
        RestoreManagedGuards(sandbox.disk, own);
        var s := RestoreManaged(sandbox.disk);
        SameTidy(sandbox.disk.files, s.disk.files);
        SafeAlone(s.disk.files, own);
        if s.ok {
          NothingElse(s.disk.files, own);
        }
      } else {
        NothingManaged(sandbox.disk.files, own);
      }
    }
  }

  lemma NothingElse(files: Files, own: Own)
    requires Tidy(files) && Lists([], files) && AllMatch(files, own)
    requires forall p | p in BOOKKEEPING :: p !in files
    ensures Restored(files, own) && Owner !in files
  {
    assert BOOKKEEPING[0] == Backup(RiotGames) && BOOKKEEPING[1] == Backup(RiotClient);
    assert BOOKKEEPING[2] == Marker && BOOKKEEPING[3] == Owner;
    OnlySettingsLeft(files);
  }

  lemma NothingManaged(files: Files, own: Own)
    requires Tidy(files) && Lists([], files) && Guarded(files, own) && !SessionLeft(files)
    ensures Restored(files, own)
  {
    OnlySettingsLeft(files);
  }

  lemma OnlySettingsLeft(files: Files)
    requires Tidy(files) && Lists([], files) && !SessionLeft(files)
    ensures forall p | p in files :: p.Settings? || p.Owner?
    ensures forall f :: Backup(f) !in files
  {
    forall f
      ensures Backup(f) !in files
    {
      match f
      case RiotGames =>
      case RiotClient =>
    }
    forall p | p in files
      ensures p.Settings? || p.Owner?
    {
      if p.Staging? || p.Staged? || p.Manifest? {
        NoStagingLeft(files, p.id);
      }
    }
  }

  lemma NoStagingLeft(files: Files, id: StagingId)
    requires Tidy(files) && Lists([], files)
    ensures Staging(id) !in files && Manifest(id) !in files && forall f :: Staged(id, f) !in files
  {
    assert Staging(id) !in files;
  }

  /** What a completed recovery leaves does not depend on how often it was cut
      off before: only the owner note can differ. */
  lemma RestoredIsUnique(one: Files, other: Files, own: Own)
    requires Restored(one, own) && Restored(other, own)
    ensures one - {Owner} == other - {Owner}
  {
    forall p: Path | p != Owner
      ensures (p in one <==> p in other) && (p in one ==> one[p] == other[p])
    {
      if p.Settings? {
        assert Matches(one, own, p.file) && Matches(other, own, p.file);
      }
    }
  }

  // ------------------------------------------------------------ and no others

  /** One call of recovery, with the listing it saw and what the disk did. */
  datatype Try = Try(listing: seq<StagingId>, script: seq<Outcome>)

  function Tried(files: Files, t: Try): (s: Step) {
    Recover(DiskState(files, t.script, false), t.listing)
  }

  function AfterTries(files: Files, tries: seq<Try>): (after: Files)
    decreases |tries|
  {
    if tries == [] then files else AfterTries(Tried(files, tries[0]).disk.files, tries[1..])
  }

  ghost predicate Possible(files: Files, tries: seq<Try>)
    decreases |tries|
  {
    tries == [] || (Lists(tries[0].listing, files) && Possible(Tried(files, tries[0]).disk.files, tries[1..]))
  }

  /** A recovery left alone completes, and one that completes restores the user's
      files. */
  ghost predicate EndsWell(files: Files, own: Own, t: Try) {
    (t.script == [] ==> Tried(files, t).ok) && (Tried(files, t).ok ==> Restored(Tried(files, t).disk.files, own))
  }

  /** The user's files can be had back: every recovery ends well, in whatever
      order it meets the sandboxes, after any number of recoveries cut off. */
  ghost predicate Retrievable(files: Files, own: Own) {
    forall tries, t: Try ::
      Possible(files, tries) && Lists(t.listing, AfterTries(files, tries)) ==> EndsWell(AfterTries(files, tries), own, t)
  }

  lemma {:induction false} TriesKeepSafe(files: Files, own: Own, tries: seq<Try>)
    requires Safe(files, own) && Possible(files, tries)
    ensures Safe(AfterTries(files, tries), own)
    decreases |tries|
  {
    hide Safe, Recover, Lists;
    if tries != [] {
      RecoverGuards(DiskState(files, tries[0].script, false), tries[0].listing, own);
      TriesKeepSafe(Tried(files, tries[0]).disk.files, own, tries[1..]);
    }
  }

  lemma SafeIsRetrievable(files: Files, own: Own)
    requires Safe(files, own)
    ensures Retrievable(files, own)
  {
    hide Safe, Recover, Lists, Restored;
    forall tries, t: Try | Possible(files, tries) && Lists(t.listing, AfterTries(files, tries))
      ensures EndsWell(AfterTries(files, tries), own, t)
    {
      TriesKeepSafe(files, own, tries);
      RecoverGuards(DiskState(AfterTries(files, tries), t.script, false), t.listing, own);
    }
  }

  /** What a manifest this program wrote looks like. */
  ghost predicate Shaped(files: Files, id: StagingId) {
    Manifest(id) in files && files[Manifest(id)].Originals? ==>
      var entries := files[Manifest(id)].entries;
      |entries| == 2 && entries[0].0 == RiotGames && entries[1].0 == RiotClient
  }

  /** Files live in their directories, and manifests, if they can be read at all,
      name both settings files. */
  ghost predicate WellFormed(files: Files) {
    Tidy(files) && forall id :: Shaped(files, id)
  }

  lemma {:induction false} SeqOf(ids: set<StagingId>) returns (s: seq<StagingId>)
    ensures (forall id :: id in ids <==> id in s) && forall i, j :: 0 <= i < j < |s| ==> s[i] != s[j]
    decreases ids
  {
    if ids == {} {
      s := [];
    } else {
      var id :| id in ids;
      var rest := SeqOf(ids - {id});
      s := rest + [id];
    }
  }

  lemma AnyListing(files: Files) returns (listing: seq<StagingId>)
    ensures Lists(listing, files)
  {
    listing := SeqOf(set p | p in files.Keys && p.Staging? :: p.id);
    forall id
      ensures Staging(id) in files <==> id in listing
    {
      assert Staging(id) in files <==> id in (set p | p in files.Keys && p.Staging? :: p.id);
    }
  }

  /** Any staging directory may be the last one listed. */
  lemma ListingEndingWith(files: Files, id: StagingId) returns (listing: seq<StagingId>)
    requires Staging(id) in files
    ensures Lists(listing, files) && listing != [] && listing[|listing| - 1] == id
  {
    var rest := AnyListing(files - {Staging(id)});
    listing := rest + [id];
    forall other
      ensures Staging(other) in files <==> other in listing
    {
      assert Staging(other) in files - {Staging(id)} <==> other in rest;
    }
  }

  lemma {:induction false} RestoreStagedNeeds(d: DiskState, id: StagingId, entries: seq<(SettingsFile, bool)>)
    requires RestoreStaged(d, id, entries).ok
    ensures forall i :: 0 <= i < |entries| && entries[i].1 ==> Staged(id, entries[i].0) in d.files
    decreases |entries|
  {
    hide Attempt;
    if entries != [] {
      var (f, existed) := entries[0];
      var restored :=
        if !existed then RemoveIfPresent(d, Settings(f))
        else Write(d, Settings(f), d.files[Staged(id, f)]);
      RestoreStagedNeeds(restored.disk, id, entries[1..]);
      forall i | 0 <= i < |entries| && entries[i].1
        ensures Staged(id, entries[i].0) in d.files
      {
        if i > 0 {
          assert entries[i] == entries[1..][i - 1];
        }
      }
    }
  }

  /** The settings files are as the sandbox found them. */
  ghost predicate LooksLike(after: Files, before: Files, id: StagingId)
    requires Recorded(before, id)
  {
    forall f :: (Settings(f) in after <==> Existed(before, id, f)) && (Existed(before, id, f) ==> after[Settings(f)] == before[Staged(id, f)])
  }

  lemma RecoverOneEnds(d: DiskState, id: StagingId)
    requires Shaped(d.files, id) && Staging(id) in d.files && RecoverOne(d, id).ok
    ensures var after := RecoverOne(d, id).disk.files;
            && SameRecords(d.files, after)
            && (forall other | other != id :: SameTree(d.files, after, other))
            && (forall p | p in Tree(id) :: p !in after)
            && (Manifest(id) in d.files ==> Recorded(d.files, id) && LooksLike(after, d.files, id))
  {
    hide Attempt, RestoreStaged;
    NoTree(id);
    assert forall other :: Staging(other) in Tree(other);
    forall other | other != id
      ensures forall p | p in Tree(other) :: p !in Tree(id) && !p.Settings?
    {
      NoTree(other);
    }
    if Manifest(id) in d.files {
      var entries := d.files[Manifest(id)].entries;
      RestoreStagedNeeds(d, id, entries);
      RestoreStagedFrame(d, id, entries);
      RecordedEntries(d.files, id);
      var restored := RestoreStaged(d, id, entries).disk.files;
      forall f
        ensures (Settings(f) in restored <==> Existed(d.files, id, f)) && (Existed(d.files, id, f) ==> restored[Settings(f)] == d.files[Staged(id, f)])
      {
        assert PutBack(restored, id, (f, Existed(d.files, id, f)));
      }
    }
  }

  lemma TreeKept(before: Files, after: Files, id: StagingId)
    requires SameTree(before, after, id)
    ensures Staging(id) in after <==> Staging(id) in before
    ensures Manifest(id) in after <==> Manifest(id) in before
    ensures Shaped(before, id) ==> Shaped(after, id)
    ensures Recorded(after, id) ==> Recorded(before, id) && forall end :: LooksLike(end, after, id) ==> LooksLike(end, before, id)
  {
    NoTree(id);
    if Manifest(id) in before {
      assert after[Manifest(id)] == before[Manifest(id)];
    }
    assert forall f :: Staged(id, f) in Tree(id);
    if Recorded(after, id) {
      TreeFrame(after, before, map[], id);
    }
  }

  lemma SameTreeTransitive(a: Files, b: Files, c: Files, id: StagingId)
    requires SameTree(a, b, id) && SameTree(b, c, id)
    ensures SameTree(a, c, id)
  {
  }

  lemma SameTreeItself(files: Files, id: StagingId)
    ensures SameTree(files, files, id)
  {
  }

  lemma {:induction false} AbandonedEnds(d: DiskState, listing: seq<StagingId>, last: StagingId)
    requires (forall id :: Shaped(d.files, id)) && forall id | id in listing :: Staging(id) in d.files
    requires forall i, j :: 0 <= i < j < |listing| ==> listing[i] != listing[j]
    requires RecoverAbandoned(d, listing).ok
    ensures var after := RecoverAbandoned(d, listing).disk.files;
            && SameRecords(d.files, after)
            && (forall id | id in listing && Manifest(id) in d.files :: Recorded(d.files, id))
            && (forall id | id in listing :: Staging(id) !in after && Manifest(id) !in after)
            && (forall other | other !in listing :: SameTree(d.files, after, other))
            && (listing != [] && last == listing[|listing| - 1] && Manifest(last) in d.files ==>
                  Recorded(d.files, last) && LooksLike(after, d.files, last))
    decreases |listing|
  {
    hide RecoverOne, Recorded, LooksLike, SameTree, Shaped;
    if listing == [] {
      forall other
        ensures SameTree(d.files, d.files, other)
      {
        SameTreeItself(d.files, other);
      }
    } else {
      var id := listing[0];
      assert id in listing;
      RecoverOneEnds(d, id);
      var one := RecoverOne(d, id).disk;
      forall other
        ensures Shaped(one.files, other)
        ensures other in listing[1..] ==> other != id && other in listing && Staging(other) in one.files
        ensures other != id ==> (Manifest(other) in d.files <==> Manifest(other) in one.files)
      {
        if other != id {
          TreeKept(d.files, one.files, other);
        } else {
          GoneIsShaped(one.files, id);
        }
        if other in listing[1..] {
          var i :| 0 <= i < |listing[1..]| && listing[1..][i] == other;
          assert listing[i + 1] == other;
        }
      }
      assert id !in listing[1..];
      AbandonedEnds(one, listing[1..], last);
      var after := RecoverAbandoned(d, listing).disk.files;
      NoTree(id);
      TreeKept(one.files, after, id);
      forall other | other != id
        ensures other in listing[1..] && Manifest(other) in d.files ==> Recorded(d.files, other)
        ensures other !in listing ==> SameTree(d.files, after, other)
      {
        TreeKept(d.files, one.files, other);
        if other !in listing {
          SameTreeTransitive(d.files, one.files, after, other);
        }
      }
      if |listing| > 1 {
        assert listing[1..][|listing| - 2] == listing[|listing| - 1];
        TreeKept(d.files, one.files, listing[|listing| - 1]);
      }
    }
  }

  lemma GoneIsShaped(files: Files, id: StagingId)
    requires forall p | p in Tree(id) :: p !in files
    ensures Shaped(files, id)
  {
    NoTree(id);
  }

  lemma RecoverOneCompletes(d: DiskState, id: StagingId)
    requires d.script == [] && !d.crashed && (Manifest(id) in d.files ==> Recorded(d.files, id))
    ensures var s := RecoverOne(d, id); s.ok && s.disk.script == [] && !s.disk.crashed
  {
    if Manifest(id) in d.files {
      RestoreStagedCompletes(d, id, d.files[Manifest(id)].entries);
    }
  }

  lemma {:induction false} AbandonedCompletes(d: DiskState, listing: seq<StagingId>)
    requires d.script == [] && !d.crashed && forall id | id in listing :: Staging(id) in d.files
    requires forall i, j :: 0 <= i < j < |listing| ==> listing[i] != listing[j]
    requires (forall id :: Shaped(d.files, id)) && forall id | id in listing && Manifest(id) in d.files :: Recorded(d.files, id)
    ensures var s := RecoverAbandoned(d, listing); s.ok && s.disk.script == [] && !s.disk.crashed
    decreases |listing|
  {
    hide RecoverOne, Recorded, LooksLike, SameTree, Shaped;
    if listing != [] {
      var id := listing[0];
      RecoverOneCompletes(d, id);
      RecoverOneEnds(d, id);
      var one := RecoverOne(d, id).disk;
      GoneIsShaped(one.files, id);
      assert id !in listing[1..];
      forall other | other != id
        ensures Shaped(one.files, other)
        ensures other in listing[1..] ==> Staging(other) in one.files && (Manifest(other) in one.files ==> Recorded(one.files, other))
      {
        TreeKept(d.files, one.files, other);
        if other in listing[1..] && Manifest(other) in d.files {
          assert other in listing;
          TreeFrame(d.files, one.files, map[], other);
        }
      }
      AbandonedCompletes(one, listing[1..]);
    }
  }

  /** Left alone, recovery completes where manifests and marker can be read. */
  lemma RecoverCompletes(files: Files, listing: seq<StagingId>)
    requires WellFormed(files) && Readable(files) && (Marker in files ==> files[Marker].MissingFiles?) && Lists(listing, files)
    ensures Tried(files, Try(listing, [])).ok
  {
    hide RecoverAbandoned, FILES, BOOKKEEPING;
    var d := DiskState(files, [], false);
    AbandonedCompletes(d, listing);
    AbandonedEnds(d, listing, 0);
    var sandbox := RecoverAbandoned(d, listing).disk;
    SameNotes(files, sandbox.files);
    RestoreCompletes(sandbox, MarkedMissing(files).value);
  }

  /** What backup and marker say of a settings file has happened to it; a file
      they do not speak of is as before. */
  ghost predicate Ended(after: Files, before: Files, missing: seq<SettingsFile>, f: SettingsFile) {
    if Backup(f) in before then Settings(f) in after && after[Settings(f)] == before[Backup(f)]
    else if f in missing then Settings(f) !in after
    else SameSetting(after, before, f)
  }

  ghost predicate SameSetting(after: Files, before: Files, f: SettingsFile) {
    (Settings(f) in after <==> Settings(f) in before) && (Settings(f) in before ==> after[Settings(f)] == before[Settings(f)])
  }

  lemma {:induction false} RestoreFilesEnds(d: DiskState, missing: seq<SettingsFile>, todo: seq<SettingsFile>, f: SettingsFile)
    requires RestoreFiles(d, missing, todo).ok && (f in todo || Ended(d.files, d.files, missing, f))
    ensures var after := RestoreFiles(d, missing, todo).disk.files;
            Ended(after, d.files, missing, f) && OnlySettingsDiffer(d.files, after)
    decreases |todo|
  {
    hide Attempt;
    if todo != [] {
      RestoreFilesEnds(RestoreOne(d, missing, todo[0]).disk, missing, todo[1..], f);
    }
  }

  lemma {:induction false} RemoveBookkeeping(d: DiskState, paths: seq<Path>)
    requires forall p | p in paths :: p.Backup? || p.Marker? || p.Owner?
    ensures var s := RemoveAll(d, paths);
            && (forall f :: SameSetting(s.disk.files, d.files, f))
            && SameStaging(d.files, s.disk.files)
            && (forall p | p !in paths :: (p in s.disk.files <==> p in d.files) && (p in d.files ==> s.disk.files[p] == d.files[p]))
            && (s.ok ==> forall p | p in paths :: p !in s.disk.files)
            && (forall p | p !in d.files :: p !in s.disk.files)
    decreases |paths|
  {
    hide Attempt;
    if paths != [] {
      assert paths[0] in paths;
      var removed := RemoveIfPresent(d, paths[0]);
      if removed.ok {
        RemoveBookkeeping(removed.disk, paths[1..]);
      }
    }
  }

  lemma RestoreManagedEnds(d: DiskState, f: SettingsFile)
    requires RestoreManaged(d).ok
    ensures MarkedMissing(d.files).Some? && Ended(RestoreManaged(d).disk.files, d.files, MarkedMissing(d.files).value, f)
    ensures SameStaging(d.files, RestoreManaged(d).disk.files)
  {
    hide RestoreFiles, RemoveAll, BOOKKEEPING, FILES;
    AllFiles();
    BookkeepingKinds();
    var missing := MarkedMissing(d.files).value;
    RestoreFilesEnds(d, missing, FILES, f);
    RemoveBookkeeping(RestoreFiles(d, missing, FILES).disk, BOOKKEEPING);
  }

  lemma SameNotes(before: Files, after: Files)
    requires SameRecords(before, after)
    ensures MarkedMissing(before) == MarkedMissing(after) && (SessionLeft(before) <==> SessionLeft(after))
    ensures forall f :: (Noted(before, f) <==> Noted(after, f)) && (Backup(f) in after <==> Backup(f) in before)
    ensures forall f :: Backup(f) in before ==> after[Backup(f)] == before[Backup(f)]
  {
    assert forall f :: Backup(f) in after <==> Backup(f) in before;
  }

  /** What a recovery that completes makes of one settings file. */
  ghost predicate Recovered(after: Files, before: Files, listing: seq<StagingId>, f: SettingsFile) {
    && (forall id | Manifest(id) in before :: Recorded(before, id))
    && MarkedMissing(before).Some?
    && (Backup(f) in before ==> Settings(f) in after && after[Settings(f)] == before[Backup(f)])
    && (Backup(f) !in before && Listed(before, f) ==> Settings(f) !in after)
    && (!Noted(before, f) && NoManifest(before) ==> SameSetting(after, before, f))
    && (!Noted(before, f) && listing != [] && Manifest(listing[|listing| - 1]) in before ==>
          && (Settings(f) in after <==> Existed(before, listing[|listing| - 1], f))
          && (Settings(f) in after ==> after[Settings(f)] == before[Staged(listing[|listing| - 1], f)]))
  }

  lemma {:induction false} NothingToRecover(d: DiskState, listing: seq<StagingId>)
    requires NoManifest(d.files)
    ensures var s := RecoverAbandoned(d, listing); NoManifest(s.disk.files) && forall p: Path | !p.Staging? && !p.Staged? ::
              (p in s.disk.files <==> p in d.files) && (p in d.files ==> s.disk.files[p] == d.files[p])
    decreases |listing|
  {
    hide Attempt;
    if listing != [] && RemoveTree(d, listing[0]).ok {
      NothingToRecover(RemoveTree(d, listing[0]).disk, listing[1..]);
    }
  }

  lemma RecoverEnds(d: DiskState, listing: seq<StagingId>, f: SettingsFile)
    requires WellFormed(d.files) && Lists(listing, d.files) && Recover(d, listing).ok
    ensures Recovered(Recover(d, listing).disk.files, d.files, listing, f)
  {
    hide RecoverAbandoned, RestoreManaged, Recorded;
    if NoManifest(d.files) {
      NothingToRecover(d, listing);
    }
    AbandonedEnds(d, listing, if listing == [] then 0 else listing[|listing| - 1]);
    var sandbox := RecoverAbandoned(d, listing).disk;
    SameNotes(d.files, sandbox.files);
    if SessionLeft(sandbox.files) {
      RestoreManagedEnds(sandbox, f);
    } else {
      NoteIsLeft(sandbox.files, f);
    }
  }

  /** Left alone, recovery completes exactly where every manifest is followed by
      its staged files and the marker can be read; one that is not blocks it. */
  lemma RecoverCompletesIff(files: Files, listing: seq<StagingId>)
    requires WellFormed(files) && Lists(listing, files)
    ensures Tried(files, Try(listing, [])).ok <==> Readable(files) && (Marker in files ==> files[Marker].MissingFiles?)
  {
    hide Recover, WellFormed, Recorded, Lists;
    if Tried(files, Try(listing, [])).ok {
      RecoverEnds(DiskState(files, [], false), listing, RiotGames);
    } else if Readable(files) && (Marker in files ==> files[Marker].MissingFiles?) {
      RecoverCompletes(files, listing);
    }
  }

  lemma NoteIsLeft(files: Files, f: SettingsFile)
    ensures !SessionLeft(files) ==> Marker !in files && !Noted(files, f)
  {
    match f
    case RiotGames =>
    case RiotClient =>
  }

  // ------------------------------- a recovery cut off between backups and marker

  lemma {:induction false} RestoreStagedTakes(d: DiskState, id: StagingId, entries: seq<(SettingsFile, bool)>, rest: seq<Outcome>)
      returns (script: seq<Outcome>)
    requires d.script == [] && !d.crashed && RestoreStaged(d, id, entries).ok
    ensures RestoreStaged(d.(script := script), id, entries) == Step(RestoreStaged(d, id, entries).disk.(script := rest), true)
    ensures RestoreStaged(d, id, entries).disk.script == [] && !RestoreStaged(d, id, entries).disk.crashed
    decreases |entries|
  {
    if entries == [] {
      script := rest;
    } else {
      var (f, existed) := entries[0];
      var restored := if !existed then RemoveIfPresent(d, Settings(f)) else Write(d, Settings(f), d.files[Staged(id, f)]);
      script := RestoreStagedTakes(restored.disk, id, entries[1..], rest);
      if existed || Settings(f) in d.files {
        script := [Outcome.Completes] + script;
      }
    }
  }

  lemma {:induction false} AbandonedTakes(d: DiskState, listing: seq<StagingId>, rest: seq<Outcome>) returns (script: seq<Outcome>)
    requires d.script == [] && !d.crashed && RecoverAbandoned(d, listing).ok
    ensures RecoverAbandoned(d.(script := script), listing) == Step(RecoverAbandoned(d, listing).disk.(script := rest), true)
    ensures RecoverAbandoned(d, listing).disk.script == [] && !RecoverAbandoned(d, listing).disk.crashed
    decreases |listing|
  {
    hide RestoreStaged;
    if listing == [] {
      script := rest;
    } else {
      var id := listing[0];
      if Manifest(id) in d.files {
        var _ := RestoreStagedTakes(d, id, d.files[Manifest(id)].entries, []);
      }
      script := AbandonedTakes(RecoverOne(d, id).disk, listing[1..], rest);
      script := [Outcome.Completes] + script;
      if Manifest(id) in d.files {
        script := RestoreStagedTakes(d, id, d.files[Manifest(id)].entries, script);
      }
    }
  }

  lemma {:induction false} RestoreFilesTakes(d: DiskState, missing: seq<SettingsFile>, todo: seq<SettingsFile>, rest: seq<Outcome>)
      returns (script: seq<Outcome>)
    requires d.script == [] && !d.crashed
    ensures RestoreFiles(d.(script := script), missing, todo) == Step(RestoreFiles(d, missing, todo).disk.(script := rest), true)
    ensures RestoreFiles(d, missing, todo).disk.script == [] && !RestoreFiles(d, missing, todo).disk.crashed
    decreases |todo|
  {
    if todo == [] {
      script := rest;
    } else {
      var f := todo[0];
      script := RestoreFilesTakes(RestoreOne(d, missing, f).disk, missing, todo[1..], rest);
      if Backup(f) in d.files || (f in missing && Settings(f) in d.files) {
        script := [Outcome.Completes] + script;
      }
    }
  }

  /** Both backups gone, the marker still there. */
  lemma RemoveCut(d: DiskState) returns (script: seq<Outcome>)
    requires d.script == [] && !d.crashed && Marker in d.files
    ensures RemoveAll(d.(script := script), BOOKKEEPING)
            == Step(d.(files := d.files - {Backup(RiotGames), Backup(RiotClient)}), false)
  {
    script := [Fails];
    var noClient := d.files - {Backup(RiotClient)};
    var noGames := d.files - {Backup(RiotGames)};
    if Backup(RiotClient) in noGames {
      script := [Outcome.Completes] + script;
    }
    if Backup(RiotGames) in d.files {
      script := [Outcome.Completes] + script;
    }
    var bare := d.files - {Backup(RiotGames), Backup(RiotClient)};
    assert BOOKKEEPING[1..] == [Backup(RiotClient), Marker, Owner] && [Backup(RiotClient), Marker, Owner][1..] == [Marker, Owner];
    var one := RemoveIfPresent(d.(script := script), Backup(RiotGames));
    assert one.ok && one.disk.files == noGames;
    var two := RemoveIfPresent(one.disk, Backup(RiotClient));
    assert two.ok && two.disk == DiskState(bare, [Fails], false);
  }

  lemma RestoreCut(d: DiskState) returns (script: seq<Outcome>)
    requires d.script == [] && !d.crashed && Marker in d.files && d.files[Marker].MissingFiles?
    ensures var cut := RestoreManaged(d.(script := script)).disk.files;
            && SameStaging(d.files, cut) && (forall f :: Backup(f) !in cut) && Marker in cut && cut[Marker] == d.files[Marker]
  {
    hide BOOKKEEPING, FILES, RestoreFiles, RemoveAll;
    AllFiles();
    var missing := d.files[Marker].files;
    var _ := RestoreFilesTakes(d, missing, FILES, []);
    var restored := RestoreFiles(d, missing, FILES).disk;
    RestoreFilesKeeps(d, missing, FILES);
    script := RemoveCut(restored);
    script := RestoreFilesTakes(d, missing, FILES, script);
    forall f
      ensures Backup(f) !in restored.files - {Backup(RiotGames), Backup(RiotClient)}
    {
      match f
      case RiotGames =>
      case RiotClient =>
    }
  }

  lemma {:induction false} RestoreFilesKeeps(d: DiskState, missing: seq<SettingsFile>, todo: seq<SettingsFile>)
    ensures OnlySettingsDiffer(d.files, RestoreFiles(d, missing, todo).disk.files)
    decreases |todo|
  {
    hide Attempt;
    if todo != [] && RestoreOne(d, missing, todo[0]).ok {
      RestoreFilesKeeps(RestoreOne(d, missing, todo[0]).disk, missing, todo[1..]);
    }
  }

  /** A recovery that stops between the last backup and the marker. */
  lemma RecoverCut(files: Files, listing: seq<StagingId>) returns (t: Try)
    requires WellFormed(files) && Lists(listing, files) && RecoverAbandoned(DiskState(files, [], false), listing).ok
    requires Marker in files && files[Marker].MissingFiles?
    ensures t.listing == listing
    ensures var cut := Tried(files, t).disk.files;
            && (forall id :: Staging(id) !in cut) && NoManifest(cut)
            && (forall f :: Backup(f) !in cut) && Marker in cut && cut[Marker] == files[Marker]
  {
    hide RecoverAbandoned, RestoreManaged, Recorded, SameTree;
    var d := DiskState(files, [], false);
    var _ := AbandonedTakes(d, listing, []);
    AbandonedEnds(d, listing, 0);
    var sandbox := RecoverAbandoned(d, listing).disk;
    var script := RestoreCut(sandbox);
    script := AbandonedTakes(d, listing, script);
    t := Try(listing, script);
    forall id
      ensures Staging(id) !in sandbox.files && Manifest(id) !in sandbox.files
    {
      if id !in listing {
        TreeKept(files, sandbox.files, id);
      }
    }
  }

  // -------------------------------------------------------------- the equivalence

  lemma FirstTry(files: Files, own: Own, t: Try)
    requires Retrievable(files, own) && Lists(t.listing, files)
    ensures EndsWell(files, own, t)
  {
    hide EndsWell;
    assert Possible(files, []) && AfterTries(files, []) == files;
  }

  lemma SecondTry(files: Files, own: Own, cut: Try, t: Try)
    requires Retrievable(files, own) && Lists(cut.listing, files) && Lists(t.listing, Tried(files, cut).disk.files)
    ensures EndsWell(Tried(files, cut).disk.files, own, t)
  {
    hide EndsWell, Tried, Lists;
    assert [cut][1..] == [];
    assert Possible(Tried(files, cut).disk.files, []);
    assert Possible(files, [cut]);
    assert AfterTries(files, [cut]) == AfterTries(Tried(files, cut).disk.files, []);
  }

  /** One undisturbed recovery restores the user's files and shows what it went
      by. */
  lemma RetrievableShows(files: Files, own: Own, listing: seq<StagingId>, f: SettingsFile)
    requires WellFormed(files) && Retrievable(files, own) && Lists(listing, files)
    ensures var s := Tried(files, Try(listing, []));
            s.ok && Recovered(s.disk.files, files, listing, f) && Matches(s.disk.files, own, f)
  {
    hide Retrievable, Recover, Lists, Recovered, WellFormed, Matches;
    FirstTry(files, own, Try(listing, []));
    RecoverEnds(DiskState(files, [], false), listing, f);
  }

  lemma DisputedIsLost(files: Files, own: Own, f: SettingsFile)
    requires WellFormed(files) && Retrievable(files, own) && Disputed(files, f)
    ensures f !in own
  {
    var listing := AnyListing(files);
    hide Retrievable, RecoverAbandoned, RestoreManaged;
    FirstTry(files, own, Try(listing, []));
    var cut := RecoverCut(files, listing);
    hide Recover;
    var after := Tried(files, cut).disk.files;
    SecondTry(files, own, cut, Try([], []));
    RecoverListed(DiskState(after, [], false), f);
    assert Matches(Tried(after, Try([], [])).disk.files, own, f);
  }

  lemma RecoverListed(d: DiskState, f: SettingsFile)
    requires Listed(d.files, f) && Backup(f) !in d.files && Recover(d, []).ok
    ensures Settings(f) !in Recover(d, []).disk.files
  {
    hide RestoreManaged;
    RestoreManagedEnds(d, f);
  }

  lemma RetrievableIsKept(files: Files, own: Own, f: SettingsFile)
    requires WellFormed(files) && Retrievable(files, own)
    ensures Rightly(files, own, f) && Kept(files, own, f)
  {
    hide Retrievable, Tried, WellFormed, Lists;
    var listing := AnyListing(files);
    RetrievableShows(files, own, listing, f);
    if Disputed(files, f) {
      DisputedIsLost(files, own, f);
    }
    if !Noted(files, f) && !NoManifest(files) {
      forall id | Manifest(id) in files
        ensures Recorded(files, id) && StagedAs(files, own, id, f)
      {
        HasStaging(files, id);
        var last := ListingEndingWith(files, id);
        RetrievableShows(files, own, last, f);
      }
    }
  }

  lemma HasStaging(files: Files, id: StagingId)
    requires WellFormed(files) && Manifest(id) in files
    ensures Staging(id) in files
  {
  }

  lemma RetrievableIsSafe(files: Files, own: Own)
    requires WellFormed(files) && Retrievable(files, own)
    ensures Safe(files, own)
  {
    hide Retrievable, Tried, Lists, Rightly, Kept;
    var listing := AnyListing(files);
    RetrievableShows(files, own, listing, RiotGames);
    forall f
      ensures Rightly(files, own, f) && Kept(files, own, f)
    {
      RetrievableIsKept(files, own, f);
    }
  }

  /** Exactly when the user's files can be had back, told by the disk: manifests
      and marker can be read; a backup holds the user's file and a file listed as
      missing is one the user did not have; and what neither speaks of lies in
      every sandbox left behind or, without any, where it was. */
  lemma SafeIff(files: Files, own: Own)
    requires WellFormed(files)
    ensures Safe(files, own) <==> Retrievable(files, own)
  {
    if Safe(files, own) {
      SafeIsRetrievable(files, own);
    }
    if Retrievable(files, own) {
      RetrievableIsSafe(files, own);
    }
  }

  /** The disk alone settles what the user's files are. */
  lemma OwnIsDetermined(files: Files, one: Own, other: Own)
    requires Retrievable(files, one) && Retrievable(files, other)
    ensures one == other
  {
    hide Retrievable, Recover, Lists;
    var listing := AnyListing(files);
    var t := Try(listing, []);
    FirstTry(files, one, t);
    FirstTry(files, other, t);
    var after := Tried(files, t).disk.files;
    forall f
      ensures (f in one <==> f in other) && (f in one ==> one[f] == other[f])
    {
      assert Matches(after, one, f) && Matches(after, other, f);
    }
  }

  lemma SafeIsWellFormed(files: Files, own: Own)
    requires Safe(files, own)
    ensures WellFormed(files)
  {
    assert forall id | Manifest(id) in files :: Recorded(files, id);
  }
}
