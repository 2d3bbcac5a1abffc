/** The sign-in commands: one sandbox at a time, spoken to by ticket, and a
    login that reaches the vault only once the user's own files are back. */
module SignIn {
  import opened Wrappers
  import opened SettingsDisk
  import opened Provisioner
  import V = LocalVault
  import R = VaultRuns
  import I = VaultIdentities
  import LocalStoreObject

  datatype SignInError =
    | AlreadyInProgress | NotPrepared | NotLaunched | WrongTicket | Cancelled | NoLogin | NotRestored | DetailsRequired
    | VaultRefused(error: V.VaultError)

  /** What a saved login looks like to the store. */
  predicate IsLogin(env: V.Env, c: Content) {
    c.Text? && env.reusable(c.text)
  }

  /** The login Riot wrote: the first of its files that holds one. */
  function LoginIn(env: V.Env, files: Files): (c: Option<Content>)
    ensures c.Some? <==> exists f :: Settings(f) in files && IsLogin(env, files[Settings(f)])
    ensures c.Some? ==> IsLogin(env, c.value) && exists f :: Settings(f) in files && files[Settings(f)] == c.value
  {
    if Settings(RiotGames) in files && IsLogin(env, files[Settings(RiotGames)]) then Some(files[Settings(RiotGames)])
    else if Settings(RiotClient) in files && IsLogin(env, files[Settings(RiotClient)]) then Some(files[Settings(RiotClient)])
    else
      assert forall f :: Settings(f) in files ==> f == RiotGames || f == RiotClient;
      None
  }

  /** Where the capture of a sign-in goes. */
  function Stored(env: V.Env, d: V.Disk, profile: Option<string>, details: V.Details, session: string, newId: string, now: int)
    : (r: (V.Disk, Option<V.VaultError>))
  {
    match profile
    case Some(id) =>
      var o := V.RefreshSession(env, d, id, session, now);
      (o.disk, if o.result.Ok? then None else Some(o.result.error))
    case None =>
      var o := V.CreateProfile(env, d, details, session, newId, now);
      (o.disk, if o.result.Ok? then None else Some(o.result.error))
  }

  /** A capture that was stored is in the vault: signed in again on the profile it
      was for, whose identity it does not contradict, or as a new profile. */
  lemma StoredShows(env: V.Env, d: V.Disk, profile: Option<string>, details: V.Details, session: string, newId: string, now: int)
    requires Stored(env, d, profile, details, session, newId, now).1 == None
    requires I.At(R.Profiles(env, d), newId) == None
    ensures var after := Stored(env, d, profile, details, session, newId, now).0;
            var id := if profile.Some? then profile.value else newId;
            && env.reusable(session)
            && I.At(R.Profiles(env, after), id).Some? && I.At(R.Profiles(env, after), id).value.session == session
            && I.At(R.Profiles(env, after), id).value.sessionUpdatedAt == Some(now)
            && (profile.Some? <==> I.At(R.Profiles(env, d), id).Some?)
            && forall other | other != id :: I.At(R.Profiles(env, after), other) == I.At(R.Profiles(env, d), other)
  {
    var accounts := R.Profiles(env, d);
    match profile
    case Some(id) =>
      R.CallsAreAtomic(env, d, R.Refresh(id, session, now));
      forall other | other != id
        ensures I.At(R.Profiles(env, Stored(env, d, profile, details, session, newId, now).0), other) == I.At(accounts, other)
      {
        RefreshedElsewhere(env, accounts, R.Refresh(id, session, now), other);
      }
      RefreshedThere(env, accounts, R.Refresh(id, session, now));
    case None =>
      R.CallsAreAtomic(env, d, R.Create(details, session, newId, now));
      var a := V.NewAccount(env, env.Tidied(details).value, session, newId, now);
      forall other
        ensures I.At(accounts + [a], other) == if I.At(accounts, other).Some? then I.At(accounts, other) else if a.id == other then Some(a) else None
      {
        I.AtAdded(accounts, a, other);
      }
  }

  lemma RefreshedElsewhere(env: V.Env, accounts: seq<V.Account>, e: R.Event, other: string)
    requires e.Refresh? && R.Effect(env, accounts, e).Some? && other != e.id
    ensures I.At(R.Effect(env, accounts, e).value, other) == I.At(accounts, other)
  {
    if I.At(accounts, other).Some? {
      I.EffectAt(env, accounts, e, other);
    } else {
      I.NeverBack(env, accounts, e, other);
    }
  }

  lemma RefreshedThere(env: V.Env, accounts: seq<V.Account>, e: R.Event)
    requires e.Refresh? && R.Effect(env, accounts, e).Some?
    ensures I.At(accounts, e.id).Some? && env.reusable(e.session)
    ensures I.At(R.Effect(env, accounts, e).value, e.id) == Some(I.Touched(env, I.At(accounts, e.id).value, e))
  {
    I.RefreshFinds(env, accounts, e);
    I.EffectAt(env, accounts, e, e.id);
  }

  class Commands {
    const disk: Disk
    const store: LocalStoreObject.LocalStore
    var session: Sandbox?
    var ticket: string

    ghost predicate Valid()
      reads this
    {
      session != null ==> session.disk == disk
    }

    constructor (disk: Disk, store: LocalStoreObject.LocalStore)
      ensures Valid() && this.disk == disk && this.store == store && session == null
    {
      this.disk, this.store, session, ticket := disk, store, null, "";
    }

    /** Opens a sandbox unless there is one. One that could not be prepared or
        launched is finished at once; what then cannot be finished stays owned
        if it was launched, and is left to recovery if it was not prepared. */
    method Start(newTicket: string, id: StagingId, launches: bool) returns (r: Result<string, SignInError>)
      requires Valid()
      modifies this, disk
      ensures Valid()
      ensures old(session) != null ==> r == Err(AlreadyInProgress) && session == old(session) && disk.Now() == old(disk.Now())
      ensures old(session) == null ==>
                var p := StartSignIn(old(disk.Now()), id, launches);
                && disk.Now() == p.disk
                && (r.Ok? <==> p.ok) && (r.Ok? ==> r.value == newTicket == ticket)
                && (session != null <==> p.session.Some?)
                && (session != null ==> fresh(session) && session.staging == p.session && session.originals == Entries(old(disk.files), FILES))
    {
      hide Stage, Finish, Entries, FILES;
      if session != null {
        return Err(AlreadyInProgress);
      }
      var worker := new Sandbox(disk);
      var ok := worker.PrepareForProvisioning(id);
      if !ok {
        var cleaned := worker.FinishAndRestore();
        return Err(NotPrepared);
      }
      session, ticket := worker, newTicket;
      if !launches {
        ok := worker.FinishAndRestore();
        if ok {
          session := null;
        }
        return Err(NotLaunched);
      }
      r := Ok(newTicket);
    }

    /** Ends the sandbox; another's ticket ends nothing. */
    method EndSession(given: Option<string>) returns (r: Result<(), SignInError>)
      requires Valid()
      modifies this, disk, session
      ensures Valid()
      ensures old(session) == null ==> r.Ok? && session == null && disk.Now() == old(disk.Now())
      ensures old(session) != null && given.Some? && given.value != old(ticket) ==>
                r == Err(WrongTicket) && session == old(session) && session.staging == old(session.staging) && disk.Now() == old(disk.Now())
      ensures old(session) != null && (given.None? || given.value == old(ticket)) ==>
                && (r.Ok? <==> session == null)
                && (r.Err? ==> session == old(session) && session.staging == old(session.staging))
                && (old(session.staging).None? ==> r.Ok? && disk.Now() == old(disk.Now()))
                && (old(session.staging).Some? ==>
                      Step(disk.Now(), r.Ok?) == Finish(old(disk.Now()), old(session.staging).value, old(session.originals)))
    {
      hide Finish;
      if session == null {
        return Ok(());
      }
      if given.Some? && given.value != ticket {
        return Err(WrongTicket);
      }
      var ok := session.FinishAndRestore();
      if !ok {
        return Err(NotRestored);
      }
      session := null;
      r := Ok(());
    }

    /** Captures the login, puts the user's files back, and only then touches the
        vault. Without a profile and without details it stops in between, and the
        finished sandbox stays reserved until the sign-in is cancelled. */
    method Complete(given: string, profile: Option<string>, details: Option<V.Details>, newId: string, now: int)
      returns (r: Result<(), SignInError>)
      requires Valid()
      modifies this, disk, session, store
      ensures Valid()
      ensures store.disk != old(store.disk) || r.Ok? ==>
                && old(session) != null && old(session.staging).Some? && given == old(ticket)
                && session == null
                && Finish(old(disk.Now()), old(session.staging).value, old(session.originals)) == Step(disk.Now(), true)
                && (profile.Some? || details.Some?)
                && LoginIn(store.env, old(disk.files)).Some?
                && Stored(store.env, old(store.disk), profile, if details.Some? then details.value else NO_DETAILS,
                          LoginIn(store.env, old(disk.files)).value.text, newId, now)
                   == (store.disk, if r.Ok? then None else if r.error.VaultRefused? then Some(r.error.error) else None)
      ensures r == Err(NotRestored) ==> session == old(session) != null && session.staging == old(session.staging)
      ensures r == Err(DetailsRequired) <==>
                && old(session) != null && given == old(ticket) && profile.None? && details.None? && old(session.staging).Some?
                && LoginIn(store.env, old(disk.files)).Some?
                && Finish(old(disk.Now()), old(session.staging).value, old(session.originals)).ok
      ensures r == Err(DetailsRequired) ==>
                && session == old(session) && session.staging.None? && store.disk == old(store.disk)
                && disk.Now() == Finish(old(disk.Now()), old(session.staging).value, old(session.originals)).disk
    {
      hide Finish, V.RefreshSession, V.CreateProfile;
      if session == null {
        return Err(Cancelled);
      }
      if given != ticket {
        return Err(WrongTicket);
      }
      var env := store.env;
      var captured := session.PollCapturedSession(c => IsLogin(env, c));
      if captured.None? {
        return Err(NoLogin);
      }
      ghost var f :| Settings(f) in disk.files && disk.files[Settings(f)] == captured.value;
      assert f == RiotGames || f == RiotClient;
      assert captured == LoginIn(env, disk.files);
      var restored := session.FinishAndRestore();
      if !restored {
        return Err(NotRestored);
      }
      if profile.Some? {
        var refreshed := store.RefreshSession(profile.value, captured.value.text, now);
        session := null;
        return if refreshed.Ok? then Ok(()) else Err(VaultRefused(refreshed.error));
      }
      if details.None? {
        return Err(DetailsRequired);
      }
      var created := store.CreateProfile(details.value, captured.value.text, newId, now);
      session := null;
      r := if created.Ok? then Ok(()) else Err(VaultRefused(created.error));
    }
  }

  const NO_DETAILS := V.Details("", "", None, "", false, None)
}
