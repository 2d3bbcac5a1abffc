/** Histories of the vault: what its repairs preserve, how identities behave
    over any run, and why edits and background syncs do not disturb each other. */
module VaultRuns {
  import opened Wrappers
  import opened LocalVault

  // --------------------------------------------------------------- what a load shows

  function Readable(env: Env, entries: seq<Record>): (accounts: seq<Account>) {
    if entries == [] then []
    else if entries[0].Unreadable? then Readable(env, entries[1..])
    else [Backfilled(env, entries[0].account)] + Readable(env, entries[1..])
  }

  function Unreadables(entries: seq<Record>): (raws: seq<string>) {
    if entries == [] then []
    else if entries[0].Unreadable? then [entries[0].raw] + Unreadables(entries[1..])
    else Unreadables(entries[1..])
  }

  /** The profiles of a vault, whether or not it was repaired yet. */
  function Profiles(env: Env, d: Disk): (accounts: seq<Account>) {
    if d.file.Records? then Readable(env, d.file.entries) else []
  }

  function UnreadableIn(d: Disk): (raws: seq<string>) {
    if d.file.Records? then Unreadables(d.file.entries) else []
  }

  /** Backfill has nothing to add. */
  predicate Known(env: Env, a: Account) {
    a.puuid.Some? || env.detect(a.session).None?
  }

  predicate AllKnown(env: Env, accounts: seq<Account>) {
    forall a | a in accounts :: Known(env, a)
  }

  predicate Sound(env: Env, entry: Record) {
    entry.Sealed? && Known(env, entry.account)
  }

  /** Nothing left to repair. */
  predicate Settled(env: Env, d: Disk) {
    !d.file.Broken? && (d.file.Records? ==> AllSound(env, d.file.entries))
  }

  predicate AllSound(env: Env, entries: seq<Record>) {
    forall entry | entry in entries :: Sound(env, entry)
  }

  lemma AllSoundSplits(env: Env, entries: seq<Record>)
    requires entries != []
    ensures AllSound(env, entries) <==> Sound(env, entries[0]) && AllSound(env, entries[1..])
  {
    assert forall entry :: entry in entries <==> entry == entries[0] || entry in entries[1..];
  }

  lemma {:induction false} SiftIs(env: Env, s: Sifting, entries: seq<Record>)
    requires !s.failed
    ensures var r := Sift(env, s, entries);
            && r.disk.file == s.disk.file
            && (!r.failed ==> r.accounts == s.accounts + Readable(env, entries)
                              && r.disk.quarantine == s.disk.quarantine + Unreadables(entries)
                              && (r.changed <==> s.changed || !AllSound(env, entries)))
            && (r.failed ==> s.disk.quarantine <= r.disk.quarantine)
            && (!s.changed && !r.changed && !r.failed ==> r.disk == s.disk)
    decreases |entries|
  {
    if entries != [] {
      var next := SiftOne(env, s, entries[0]);
      AllSoundSplits(env, entries);
      if !next.failed {
        SiftIs(env, next, entries[1..]);
      }
    }
  }

  lemma {:induction false} SealedReads(env: Env, accounts: seq<Account>)
    requires AllKnown(env, accounts)
    ensures Readable(env, SealAll(accounts)) == accounts
    ensures Unreadables(SealAll(accounts)) == []
    ensures AllSound(env, SealAll(accounts))
    decreases |accounts|
  {
    if accounts != [] {
      assert SealAll(accounts)[1..] == SealAll(accounts[1..]);
      assert accounts[0] in accounts && forall a :: a in accounts[1..] ==> a in accounts;
      SealedReads(env, accounts[1..]);
      AllSoundSplits(env, SealAll(accounts));
    }
  }

  lemma {:induction false} ReadableIsBackfilled(env: Env, entries: seq<Record>)
    ensures AllKnown(env, Readable(env, entries))
    decreases |entries|
  {
    if entries != [] {
      ReadableIsBackfilled(env, entries[1..]);
    }
  }

  lemma {:induction false} NoneUnreadable(env: Env, entries: seq<Record>)
    requires AllSound(env, entries)
    ensures Unreadables(entries) == []
    ensures entries != [] ==> Readable(env, entries) != []
    decreases |entries|
  {
    if entries != [] {
      AllSoundSplits(env, entries);
      NoneUnreadable(env, entries[1..]);
    }
  }

  /** Loading, wherever its writes fail, changes no profile and loses no record:
      what cannot be read stays in the vault or was set aside before. Done, the
      vault has nothing left to repair. */
  lemma LoadPreserves(env: Env, d: Disk)
    ensures var r := Load(env, d);
            && Profiles(env, r.disk) == Profiles(env, d)
            && (r.result.Ok? ==> r.result.value == Profiles(env, d) && Settled(env, r.disk)
                                 && r.disk.quarantine == d.quarantine + UnreadableIn(d))
            && d.quarantine <= r.disk.quarantine
            && (r.result.Err? ==> r.disk.file == d.file)
            && (forall raw | raw in UnreadableIn(d) :: raw in UnreadableIn(r.disk) || raw in r.disk.quarantine)
  {
    if d.file.Records? {
      var entries := d.file.entries;
      SiftIs(env, Sifting(d, [], false, false), entries);
      ReadableIsBackfilled(env, entries);
      assert [] + Readable(env, entries) == Readable(env, entries);
      SealedReads(env, Readable(env, entries));
      var s := Sift(env, Sifting(d, [], false, false), entries);
      if !s.failed && !s.changed {
        NoneUnreadable(env, entries);
      }
    }
  }

  /** A vault with nothing to repair is only read: not even its file is touched. */
  lemma SettledLoadIsNoop(env: Env, d: Disk)
    requires Settled(env, d)
    ensures Load(env, d) == Outcome(d, Ok(Profiles(env, d)))
  {
    if d.file.Records? {
      SiftIs(env, Sifting(d, [], false, false), d.file.entries);
      NoneUnreadable(env, d.file.entries);
      assert [] + Readable(env, d.file.entries) == Readable(env, d.file.entries);
      SoundSift(env, Sifting(d, [], false, false), d.file.entries);
    }
  }

  lemma {:induction false} SoundSift(env: Env, s: Sifting, entries: seq<Record>)
    requires !s.failed && AllSound(env, entries)
    ensures !Sift(env, s, entries).failed
    decreases |entries|
  {
    if entries != [] {
      AllSoundSplits(env, entries);
      SoundSift(env, SiftOne(env, s, entries[0]), entries[1..]);
    }
  }

  /** The second of two loads finds the same profiles and does nothing. */
  lemma SecondLoadIsNoop(env: Env, d: Disk)
    requires Load(env, d).result.Ok?
    ensures Load(env, Load(env, d).disk) == Load(env, d)
  {
    LoadPreserves(env, d);
    SettledLoadIsNoop(env, Load(env, d).disk);
  }

  /** There are records, and none can be read. */
  predicate NoneReadable(d: Disk) {
    d.file.Records? && d.file.entries != [] && forall entry | entry in d.file.entries :: entry.Unreadable?
  }

  predicate AllSucceed(outcomes: seq<bool>) {
    forall i :: 0 <= i < |outcomes| ==> outcomes[i]
  }

  lemma {:induction false} SiftSucceeds(env: Env, s: Sifting, entries: seq<Record>)
    requires !s.failed && AllSucceed(s.disk.outcomes)
    ensures !Sift(env, s, entries).failed && AllSucceed(Sift(env, s, entries).disk.outcomes)
    decreases |entries|
  {
    if entries != [] {
      SiftSucceeds(env, SiftOne(env, s, entries[0]), entries[1..]);
    }
  }

  lemma {:induction false} NoneReadableIs(env: Env, entries: seq<Record>)
    ensures Readable(env, entries) == [] <==> forall entry | entry in entries :: entry.Unreadable?
    ensures Readable(env, entries) == [] && entries != [] ==> Unreadables(entries) != []
    decreases |entries|
  {
    if entries != [] {
      assert forall entry :: entry in entries <==> entry == entries[0] || entry in entries[1..];
      NoneReadableIs(env, entries[1..]);
    }
  }

  /** A vault none of whose records can be read is kept as it is, and every load
      sets all its records aside once more. */
  lemma UnreadableVaultIsSetAsideAgain(env: Env, d: Disk)
    requires NoneReadable(d) && AllSucceed(d.outcomes)
    ensures var r := Load(env, d);
            && r.result == Err(NothingReadable) && r.disk.file == d.file
            && r.disk.quarantine == d.quarantine + UnreadableIn(d) && UnreadableIn(d) != [] && AllSucceed(r.disk.outcomes)
  {
    SiftIs(env, Sifting(d, [], false, false), d.file.entries);
    SiftSucceeds(env, Sifting(d, [], false, false), d.file.entries);
    NoneReadableIs(env, d.file.entries);
  }

  lemma ReadableVaultLoads(env: Env, d: Disk)
    requires AllSucceed(d.outcomes) && !NoneReadable(d) && !d.file.Broken?
    ensures Load(env, d).result.Ok?
  {
    if d.file.Records? {
      SiftIs(env, Sifting(d, [], false, false), d.file.entries);
      SiftSucceeds(env, Sifting(d, [], false, false), d.file.entries);
      NoneReadableIs(env, d.file.entries);
    }
  }

  /** Exactly when loading twice is loading once, where no write fails: unless
      there are records and none can be read. */
  lemma LoadIsIdempotentIff(env: Env, d: Disk)
    requires AllSucceed(d.outcomes)
    ensures Load(env, Load(env, d).disk) == Load(env, d) <==> !NoneReadable(d)
  {
    if NoneReadable(d) {
      UnreadableVaultIsSetAsideAgain(env, d);
      UnreadableVaultIsSetAsideAgain(env, Load(env, d).disk);
      assert |Load(env, Load(env, d).disk).disk.quarantine| > |Load(env, d).disk.quarantine|;
    } else if !d.file.Broken? {
      ReadableVaultLoads(env, d);
      SecondLoadIsNoop(env, d);
    }
  }

  // ------------------------------------------------------------------------- runs

  datatype Event =
    | Create(details: Details, session: string, newId: string, now: int)
    | Edit(id: string, details: Details)
    | Refresh(id: string, session: string, now: int)
    | Delete(id: string)
    | Sync(id: string, puuid: string, rank: Option<string>, icon: Option<(string, nat)>)
    | Play(id: string, now: int)
    | Open

  /** A call, and how the disk answers its writes. */
  datatype Call = Call(event: Event, outcomes: seq<bool>)

  /** `used` are the identifiers ever drawn. */
  datatype World = World(disk: Disk, used: set<string>)

  predicate Enabled(w: World, c: Call) {
    c.event.Create? ==> c.event.newId !in w.used
  }

  function Report<T>(o: Outcome<T>): (r: (Disk, bool)) {
    (o.disk, o.result.Ok?)
  }

  /** The disk after a call, and whether the call succeeded. */
  function Answer(env: Env, d: Disk, e: Event): (r: (Disk, bool)) {
    match e
    case Create(details, session, newId, now) => Report(CreateProfile(env, d, details, session, newId, now))
    case Edit(id, details) => Report(EditProfile(env, d, id, details))
    case Refresh(id, session, now) => Report(RefreshSession(env, d, id, session, now))
    case Delete(id) => Report(DeleteAccount(env, d, id))
    case Sync(id, puuid, rank, icon) => Report(ApplySync(env, d, id, puuid, rank, icon))
    case Play(id, now) => Report(MarkPlayed(env, d, id, now))
    case Open => Report(Load(env, d))
  }

  predicate Succeeded(env: Env, w: World, c: Call) {
    Enabled(w, c) && Answer(env, w.disk.(outcomes := c.outcomes), c.event).1
  }

  function Next(env: Env, w: World, c: Call): (r: World) {
    if Enabled(w, c) then
      World(Answer(env, w.disk.(outcomes := c.outcomes), c.event).0, if c.event.Create? then w.used + {c.event.newId} else w.used)
    else w
  }

  function Run(env: Env, w: World, calls: seq<Call>): (r: World)
    decreases |calls|
  {
    if calls == [] then w else Next(env, Run(env, w, calls[..|calls| - 1]), calls[|calls| - 1])
  }

  function Listed<T>(change: Change<T>): (r: Option<seq<Account>>) {
    match change
    case Err(_) => None
    case Ok((accounts, _)) => Some(accounts)
  }

  /** What a call makes of the profiles, if it is not refused. */
  function Effect(env: Env, accounts: seq<Account>, e: Event): (r: Option<seq<Account>>) {
    match e
    case Create(details, session, newId, now) =>
      if env.Tidied(details).None? || !env.reusable(session) then None
      else Listed(Adding(env, accounts, env.Tidied(details).value, session, newId, now))
    case Edit(id, details) => if env.Tidied(details).None? then None else Listed(Editing(accounts, id, env.Tidied(details).value))
    case Refresh(id, session, now) => if !env.reusable(session) then None else Listed(Refreshing(env, accounts, id, session, now))
    case Delete(id) => Listed(Deleting(accounts, id))
    case Sync(id, puuid, rank, icon) => Listed(Syncing(accounts, id, puuid, rank, icon))
    case Play(id, now) => Listed(Playing(accounts, id, now))
    case Open => Some(accounts)
  }

  lemma CommitIs<T>(env: Env, d: Disk, change: Change<T>)
    requires Listed(change).Some? ==> AllKnown(env, Listed(change).value)
    requires Settled(env, d)
    ensures var r := Commit(d, change);
            && Settled(env, r.disk)
            && (r.result.Ok? ==> Listed(change).Some? && Profiles(env, r.disk) == Listed(change).value)
            && (r.result.Err? ==> Profiles(env, r.disk) == Profiles(env, d))
            && r.disk.quarantine == d.quarantine
  {
    if change.Ok? {
      SealedReads(env, change.value.0);
    }
  }

  /** A call that succeeds does to the profiles what it should; one that fails,
      for whatever reason, does nothing to them. Repairs do not show. */
  lemma CallsAreAtomic(env: Env, d: Disk, e: Event)
    ensures var (after, ok) := Answer(env, d, e);
            && (ok ==> Effect(env, Profiles(env, d), e).Some? && Profiles(env, after) == Effect(env, Profiles(env, d), e).value
                       && Settled(env, after))
            && (!ok ==> Profiles(env, after) == Profiles(env, d))
            && (Settled(env, d) ==> Settled(env, after))
            && d.quarantine <= after.quarantine
            && (forall raw | raw in UnreadableIn(d) || raw in d.quarantine :: raw in UnreadableIn(after) || raw in after.quarantine)
  {
    hide Load, Commit, Settled, Profiles, AllKnown, UnreadableIn;
    LoadPreserves(env, d);
    KeepsSettled(env, d);
    var loaded := Load(env, d);
    if loaded.result.Ok? {
      var accounts := loaded.result.value;
      ProfilesAreBackfilled(env, d);
      if Effect(env, accounts, e).Some? {
        EffectKeeps(env, accounts, e);
      }
      match e
      case Create(details, session, newId, now) =>
        if env.Tidied(details).Some? && env.reusable(session) {
          CommitIs(env, loaded.disk, Adding(env, accounts, env.Tidied(details).value, session, newId, now));
        }
      case Edit(id, details) =>
        if env.Tidied(details).Some? {
          CommitIs(env, loaded.disk, Editing(accounts, id, env.Tidied(details).value));
        }
      case Refresh(id, session, now) =>
        if env.reusable(session) {
          CommitIs(env, loaded.disk, Refreshing(env, accounts, id, session, now));
        }
      case Delete(id) => CommitIs(env, loaded.disk, Deleting(accounts, id));
      case Sync(id, puuid, rank, icon) => CommitIs(env, loaded.disk, Syncing(accounts, id, puuid, rank, icon));
      case Play(id, now) => CommitIs(env, loaded.disk, Playing(accounts, id, now));
      case Open =>
    }
  }

  lemma KeepsSettled(env: Env, d: Disk)
    ensures Settled(env, d) ==> Settled(env, Load(env, d).disk)
  {
    if Settled(env, d) {
      SettledLoadIsNoop(env, d);
    }
  }

  lemma ProfilesAreBackfilled(env: Env, d: Disk)
    ensures AllKnown(env, Profiles(env, d))
  {
    if d.file.Records? {
      ReadableIsBackfilled(env, d.file.entries);
    }
  }

  lemma EffectKeeps(env: Env, accounts: seq<Account>, e: Event)
    requires AllKnown(env, accounts) && Effect(env, accounts, e).Some?
    ensures AllKnown(env, Effect(env, accounts, e).value)
  {
    forall a | a in Effect(env, accounts, e).value
      ensures Known(env, a)
    {
      if a !in accounts && !e.Create? && !e.Delete? {
        var i := IndexOf(accounts, e.id).value;
        assert accounts[i] in accounts && a == Effect(env, accounts, e).value[i];
      }
    }
  }
}
