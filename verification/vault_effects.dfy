/** What each call of the store leaves in the profile it names, field by field,
    and what a refusal tells its caller. */
module VaultEffects {
  import opened Wrappers
  import opened LocalVault
  import opened VaultRuns
  import opened VaultIdentities

  /** Nothing that belongs to the login changed. */
  predicate SameLogin(a: Account, b: Account) {
    a.id == b.id && a.puuid == b.puuid && a.session == b.session && a.sessionUpdatedAt == b.sessionUpdatedAt && a.createdAt == b.createdAt
  }

  /** Nothing the user entered changed. */
  predicate SameDetails(a: Account, b: Account) {
    a.name == b.name && a.region == b.region && a.notes == b.notes && a.favorite == b.favorite
  }

  predicate RefreshedAs(env: Env, a: Account, b: Account, session: string, now: int) {
    && a.session == session && a.sessionUpdatedAt == Some(now)
    && a.puuid == (if env.detect(session).Some? then env.detect(session) else b.puuid)
    && a.id == b.id && a.createdAt == b.createdAt && a.lastUsedAt == b.lastUsedAt
    && SameDetails(a, b) && a.rank == b.rank && a.customization == b.customization
  }

  predicate EditedAs(a: Account, b: Account, name: string, region: string, rank: Option<string>, details: Details) {
    && SameLogin(a, b) && a.lastUsedAt == b.lastUsedAt
    && a.name == name && a.region == region && a.notes == details.notes && a.favorite == details.favorite
    && match details.customization
       case None => a.customization == b.customization && a.rank == rank
       case Some(said) =>
         && a.customization.autoSyncIcon == said.autoSyncIcon && a.customization.autoSyncRank == said.autoSyncRank
         && a.rank == (if b.customization.autoSyncRank && said.autoSyncRank then b.rank else rank)
         && SameIcon(a.customization, if b.customization.autoSyncIcon && said.autoSyncIcon then b.customization else said)
  }

  /** A sync writes the rank and the icon it brings where their switch is on. */
  predicate SyncedAs(a: Account, b: Account, rank: Option<string>, icon: Option<(string, nat)>) {
    && SameLogin(a, b) && SameDetails(a, b) && a.lastUsedAt == b.lastUsedAt
    && a.rank == (if b.customization.autoSyncRank && rank.Some? then rank else b.rank)
    && a.customization.autoSyncIcon == b.customization.autoSyncIcon && a.customization.autoSyncRank == b.customization.autoSyncRank
    && (if b.customization.autoSyncIcon && icon.Some?
        then && a.customization.iconAsset == Some(icon.value.0) && a.customization.iconId == Some(icon.value.1)
             && a.customization.iconSource == Some("game")
        else SameIcon(a.customization, b.customization))
  }

  predicate PlayedAs(a: Account, b: Account, now: int) {
    SameLogin(a, b) && SameDetails(a, b) && a.rank == b.rank && a.customization == b.customization && a.lastUsedAt == Some(now)
  }

  /** What a call that succeeds makes of the profile it names. */
  predicate WrittenAs(env: Env, a: Account, b: Account, e: Event) {
    match e
    case Edit(_, details) =>
      (match env.tidy(details)
       case None => false
       case Some(t) => EditedAs(a, b, t.name, t.region, t.rank, details))
    case Refresh(_, session, now) => RefreshedAs(env, a, b, session, now)
    case Sync(_, puuid, rank, icon) => if b.puuid == Some(puuid) then SyncedAs(a, b, rank, icon) else a == b
    case Play(_, now) => PlayedAs(a, b, now)
    case _ => a == b
  }

  lemma TouchedIs(env: Env, b: Account, e: Event)
    ensures (e.Edit? ==> env.Tidied(e.details).Some?) ==> WrittenAs(env, Touched(env, b, e), b, e)
  {
  }

  /** A call that succeeds writes the fields it is about to the profile it names
      and leaves all its other fields, and every other profile, alone; a deleted
      profile is gone. */
  lemma CallsWriteWhatTheyMean(env: Env, w: World, c: Call, id: string)
    requires id in w.used && ProfileIn(env, w, id).Some?
    ensures var before, after := ProfileIn(env, w, id).value, ProfileIn(env, Next(env, w, c), id);
            if !Succeeded(env, w, c) then after == Some(before)
            else if c.event == Delete(id) then after == None
            else if Names(c.event, id) then after.Some? && WrittenAs(env, after.value, before, c.event)
            else after == Some(before)
  {
    hide Touched, WrittenAs, Answer, Effect, ProfileIn;
    StepAt(env, w, c, id);
    TouchedIs(env, ProfileIn(env, w, id).value, c.event);
    SucceededEffect(env, w, c);
    if c.event == Delete(id) && Succeeded(env, w, c) {
      DeletedShows(env, w, c, id);
    } else if c.event == Delete(id) {
      RefusedShows(env, w, c, id);
    }
  }

  lemma SucceededEffect(env: Env, w: World, c: Call)
    ensures Succeeded(env, w, c) && c.event.Edit? ==> env.Tidied(c.event.details).Some?
  {
  }

  lemma DeletedShows(env: Env, w: World, c: Call, id: string)
    requires c.event == Delete(id) && Succeeded(env, w, c)
    ensures ProfileIn(env, Next(env, w, c), id) == None
  {
    hide Answer, Effect, Profiles, At;
    var d := w.disk.(outcomes := c.outcomes);
    SameProfiles(env, w.disk, c.outcomes);
    CallsAreAtomic(env, d, c.event);
    DeletedIsGone(env, Profiles(env, d), id);
  }

  lemma RefusedShows(env: Env, w: World, c: Call, id: string)
    requires !Succeeded(env, w, c)
    ensures ProfileIn(env, Next(env, w, c), id) == ProfileIn(env, w, id)
  {
    hide Answer, Effect, Profiles, At;
    if Enabled(w, c) {
      SameProfiles(env, w.disk, c.outcomes);
      CallsAreAtomic(env, w.disk.(outcomes := c.outcomes), c.event);
    }
  }

  // -------------------------------------------------------------- what is returned

  /** The new profile is returned as it was saved, at the end of the list. */
  lemma CreatedIsReturned(env: Env, d: Disk, details: Details, session: string, newId: string, now: int)
    ensures var o := CreateProfile(env, d, details, session, newId, now);
            o.result.Ok? ==>
              && env.tidy(details).Some? && env.Tidied(details).Some?
              && o.result.value.name == env.tidy(details).value.name && o.result.value.region == env.tidy(details).value.region
              && o.result.value.rank == env.tidy(details).value.rank
              && o.result.value.notes == details.notes && o.result.value.favorite == details.favorite
              && Profiles(env, o.disk) == Profiles(env, d) + [o.result.value]
              && CreatedAs(env, o.result.value, env.Tidied(details).value, session, newId, now)
  {
    CallsAreAtomic(env, d, Create(details, session, newId, now));
    LoadPreserves(env, d);
    hide Load, Save, Profiles;
  }

  /** A sync reports a change exactly if it brought another rank or an icon for a
      profile that syncs it; otherwise the profiles stay as they are. */
  lemma SyncReportsChanges(env: Env, d: Disk, id: string, puuid: string, rank: Option<string>, icon: Option<(string, nat)>)
    ensures var o := ApplySync(env, d, id, puuid, rank, icon);
            var a := At(Profiles(env, d), id);
            o.result.Ok? ==>
              && (o.result.value <==>
                    && a.Some? && a.value.puuid == Some(puuid)
                    && ((a.value.customization.autoSyncRank && rank.Some? && rank != a.value.rank)
                        || (a.value.customization.autoSyncIcon && icon.Some?)))
              && (!o.result.value ==> Profiles(env, o.disk) == Profiles(env, d))
  {
    CallsAreAtomic(env, d, Sync(id, puuid, rank, icon));
    LoadPreserves(env, d);
    hide Load, Save, Profiles;
    var accounts := Profiles(env, d);
    if IndexOf(accounts, id).Some? {
      var i := IndexOf(accounts, id).value;
      assert accounts[i := accounts[i]] == accounts;
    }
  }

  /** Deleting is a filter: profiles go or stay one by one, in order. */
  lemma {:induction false} OthersCat(a: seq<Account>, b: seq<Account>, id: string)
    ensures Others(a + b, id) == Others(a, id) + Others(b, id)
    decreases |a|
  {
    if a == [] {
      assert a + b == b;
    } else {
      assert (a + b)[1..] == a[1..] + b;
      OthersCat(a[1..], b, id);
    }
  }

  // ------------------------------------------------------------------------ refusals

  function ErrorIn<T>(o: Outcome<T>): (e: Option<VaultError>) {
    if o.result.Err? then Some(o.result.error) else None
  }

  function Refusal(env: Env, d: Disk, e: Event): (r: Option<VaultError>) {
    match e
    case Create(details, session, newId, now) => ErrorIn(CreateProfile(env, d, details, session, newId, now))
    case Edit(id, details) => ErrorIn(EditProfile(env, d, id, details))
    case Refresh(id, session, now) => ErrorIn(RefreshSession(env, d, id, session, now))
    case Delete(id) => ErrorIn(DeleteAccount(env, d, id))
    case Sync(id, puuid, rank, icon) => ErrorIn(ApplySync(env, d, id, puuid, rank, icon))
    case Play(id, now) => ErrorIn(MarkPlayed(env, d, id, now))
    case Open => ErrorIn(Load(env, d))
  }

  predicate NobodyIs(accounts: seq<Account>, id: string) {
    forall a | a in accounts :: a.id != id
  }

  /** What an error says of the call and of the vault. */
  predicate Explains(env: Env, d: Disk, e: Event, error: VaultError) {
    match error
    case InvalidDetails => (e.Create? || e.Edit?) && env.tidy(e.details) == None
    case NoSavedLogin => (e.Create? || e.Refresh?) && !env.reusable(e.session)
    case DamagedVault => d.file == Broken
    case NothingReadable => NoneReadable(d)
    case WriteFailed => !AllSucceed(d.outcomes)
    case _ => ChangeRefused(env, Profiles(env, d), e, error)
  }

  lemma LoadExplains(env: Env, d: Disk, e: Event)
    ensures Load(env, d).result.Err? ==> Explains(env, d, e, Load(env, d).result.error)
    ensures Load(env, d).result.Ok? && !AllSucceed(Load(env, d).disk.outcomes) ==> !AllSucceed(d.outcomes)
  {
    if d.file.Records? {
      var s := Sifting(d, [], false, false);
      SiftIs(env, s, d.file.entries);
      SiftTells(env, s, d.file.entries);
      NoneReadableIs(env, d.file.entries);
    }
  }

  lemma {:induction false} SiftTells(env: Env, s: Sifting, entries: seq<Record>)
    requires !s.failed
    ensures Sift(env, s, entries).failed || !AllSucceed(Sift(env, s, entries).disk.outcomes) ==> !AllSucceed(s.disk.outcomes)
    decreases |entries|
  {
    if entries != [] && !SiftOne(env, s, entries[0]).failed {
      SiftTells(env, SiftOne(env, s, entries[0]), entries[1..]);
    }
  }

  lemma {:induction false} OthersKeepsAll(accounts: seq<Account>, id: string)
    ensures |Others(accounts, id)| == |accounts| <==> NobodyIs(accounts, id)
    decreases |accounts|
  {
    if accounts != [] {
      OthersKeepsAll(accounts[1..], id);
      assert forall a :: a in accounts <==> a == accounts[0] || a in accounts[1..];
    }
  }

  lemma CommitExplains<T>(d: Disk, change: Change<T>)
    ensures var o := Commit(d, change);
            o.result.Err? ==> (change.Err? && o.result.error == change.error) || (o.result.error == WriteFailed && !AllSucceed(d.outcomes))
    ensures change.Err? ==> Commit(d, change).result == Err(change.error)
  {
  }

  /** What the change of a call may be refused for. */
  predicate ChangeRefused(env: Env, accounts: seq<Account>, e: Event, error: VaultError) {
    match error
    case AlreadySaved => e.Create? && env.detect(e.session).Some? && exists a | a in accounts :: a.puuid == env.detect(e.session)
    case ProfileNotFound => (e.Edit? || e.Refresh? || e.Delete? || e.Play?) && NobodyIs(accounts, e.id)
    case BelongsToAnother =>
      e.Refresh? && env.detect(e.session).Some? && exists a | a in accounts :: a.id != e.id && a.puuid == env.detect(e.session)
    case DifferentAccount =>
      e.Refresh? && exists a | a in accounts ::
        a.id == e.id && a.puuid.Some? && env.detect(e.session).Some? && a.puuid != env.detect(e.session)
    case _ => false
  }

  lemma AddingExplains(env: Env, accounts: seq<Account>, details: Details, session: string, newId: string, now: int)
    ensures var c := Adding(env, accounts, details, session, newId, now);
            c.Err? ==> forall given :: ChangeRefused(env, accounts, Create(given, session, newId, now), c.error)
  {
  }

  lemma EditingExplains(env: Env, accounts: seq<Account>, id: string, details: Details)
    ensures var c := Editing(accounts, id, details); c.Err? ==> forall given :: ChangeRefused(env, accounts, Edit(id, given), c.error)
  {
  }

  lemma RefreshingExplains(env: Env, accounts: seq<Account>, id: string, session: string, now: int)
    ensures var c := Refreshing(env, accounts, id, session, now); c.Err? ==> ChangeRefused(env, accounts, Refresh(id, session, now), c.error)
  {
    if IndexOf(accounts, id).Some? {
      assert accounts[IndexOf(accounts, id).value] in accounts;
    }
  }

  lemma DeletingExplains(env: Env, accounts: seq<Account>, id: string)
    ensures var c := Deleting(accounts, id); c.Err? ==> ChangeRefused(env, accounts, Delete(id), c.error)
  {
    OthersKeepsAll(accounts, id);
  }

  lemma PlayingExplains(env: Env, accounts: seq<Account>, id: string, now: int)
    ensures var c := Playing(accounts, id, now); c.Err? ==> ChangeRefused(env, accounts, Play(id, now), c.error)
  {
  }

  lemma SyncingIsNeverRefused(accounts: seq<Account>, id: string, puuid: string, rank: Option<string>, icon: Option<(string, nat)>)
    ensures Syncing(accounts, id, puuid, rank, icon).Ok?
  {
  }

  lemma RefusedIsExplained(env: Env, d: Disk, e: Event, error: VaultError)
    requires ChangeRefused(env, Profiles(env, d), e, error) || (error == WriteFailed && !AllSucceed(d.outcomes))
    ensures Explains(env, d, e, error)
  {
    hide Profiles, NobodyIs, AllSucceed;
  }

  /** An error is told only if it is so, whatever the call. */
  lemma RefusalsAreTrue(env: Env, d: Disk, e: Event)
    ensures Refusal(env, d, e).Some? <==> !Answer(env, d, e).1
    ensures Refusal(env, d, e).Some? ==> Explains(env, d, e, Refusal(env, d, e).value)
  {
    LoadExplains(env, d, e);
    LoadPreserves(env, d);
    hide Load, Commit, Profiles, NoneReadable, AllSucceed, Adding, Editing, Refreshing, Deleting, Syncing, Playing, ChangeRefused;
    var loaded := Load(env, d);
    if loaded.result.Ok? {
      var accounts := loaded.result.value;
      match e {
        case Create(details, session, newId, now) =>
          if env.Tidied(details).Some? && env.reusable(session) {
            AddingExplains(env, accounts, env.Tidied(details).value, session, newId, now);
            CommitExplains(loaded.disk, Adding(env, accounts, env.Tidied(details).value, session, newId, now));
          }
        case Edit(id, details) =>
          if env.Tidied(details).Some? {
            EditingExplains(env, accounts, id, env.Tidied(details).value);
            CommitExplains(loaded.disk, Editing(accounts, id, env.Tidied(details).value));
          }
        case Refresh(id, session, now) =>
          RefreshingExplains(env, accounts, id, session, now);
          CommitExplains(loaded.disk, Refreshing(env, accounts, id, session, now));
        case Delete(id) =>
          DeletingExplains(env, accounts, id);
          CommitExplains(loaded.disk, Deleting(accounts, id));
        case Sync(id, puuid, rank, icon) =>
          SyncingIsNeverRefused(accounts, id, puuid, rank, icon);
          CommitExplains(loaded.disk, Syncing(accounts, id, puuid, rank, icon));
        case Play(id, now) =>
          PlayingExplains(env, accounts, id, now);
          CommitExplains(loaded.disk, Playing(accounts, id, now));
        case Open =>
      }
      var passes := (e.Create? || e.Edit? ==> env.Tidied(e.details).Some?) && (e.Create? || e.Refresh? ==> env.reusable(e.session));
      if Refusal(env, d, e).Some? && passes {
        RefusedIsExplained(env, d, e, Refusal(env, d, e).value);
      }
    }
  }

  lemma LoadedIsReadable(env: Env, d: Disk)
    ensures Load(env, d).result.Ok? ==> d.file != Broken && !NoneReadable(d)
  {
    if d.file.Records? {
      SiftIs(env, Sifting(d, [], false, false), d.file.entries);
      NoneReadableIs(env, d.file.entries);
    }
  }

  lemma AnsweredIsLoaded(env: Env, d: Disk, e: Event)
    ensures Answer(env, d, e).1 ==> Load(env, d).result.Ok?
  {
    hide Load, Commit, Adding, Editing, Refreshing, Deleting, Syncing, Playing;
  }

  lemma EffectIsFree(env: Env, accounts: seq<Account>, e: Event)
    requires Effect(env, accounts, e).Some?
    ensures (e.Create? || e.Edit? ==> env.tidy(e.details) != None) && (e.Create? || e.Refresh? ==> env.reusable(e.session))
    ensures e.Create? && env.detect(e.session).Some? ==> forall a | a in accounts :: a.puuid != env.detect(e.session)
    ensures e.Edit? || e.Refresh? || e.Delete? || e.Play? ==> !NobodyIs(accounts, e.id)
    ensures e.Refresh? && env.detect(e.session).Some? ==> forall a | a in accounts && a.id != e.id :: a.puuid != env.detect(e.session)
    ensures e.Refresh? ==> At(accounts, e.id).Some?
                           && (At(accounts, e.id).value.puuid.None? || env.detect(e.session).None?
                               || At(accounts, e.id).value.puuid == env.detect(e.session))
  {
    if e.Delete? {
      OthersKeepsAll(accounts, e.id);
    } else if (e.Edit? || e.Refresh? || e.Play?) && IndexOf(accounts, e.id).Some? {
      assert accounts[IndexOf(accounts, e.id).value] in accounts;
    }
  }

  /** And a call that succeeds gave none of the reasons it could be refused for. */
  lemma AcceptedIsUnobjectionable(env: Env, d: Disk, e: Event, error: VaultError)
    requires Answer(env, d, e).1 && error != WriteFailed && error != DifferentAccount
    ensures !Explains(env, d, e, error)
    ensures e.Refresh? ==> At(Profiles(env, d), e.id).Some?
                           && (At(Profiles(env, d), e.id).value.puuid.None? || env.detect(e.session).None?
                               || At(Profiles(env, d), e.id).value.puuid == env.detect(e.session))
  {
    CallsAreAtomic(env, d, e);
    AnsweredIsLoaded(env, d, e);
    LoadedIsReadable(env, d);
    hide Answer, Effect, Profiles, NoneReadable, NobodyIs, At;
    EffectIsFree(env, Profiles(env, d), e);
  }
}
