/** The vault file of saved Riot profiles: how it is read, repaired and
    replaced, and what the store's operations do to the profiles in it. */
module LocalVault {
  import opened Wrappers

  datatype Customization = Customization(
    iconAsset: Option<string>,
    iconSource: Option<string>,
    iconId: Option<nat>,
    autoSyncIcon: bool,
    autoSyncRank: bool)

  const PLAIN := Customization(None, None, None, false, false)

  datatype Account = Account(
    id: string,
    name: string,
    region: string,
    rank: Option<string>,
    notes: string,
    favorite: bool,
    puuid: Option<string>,
    session: string,
    sessionUpdatedAt: Option<int>,
    createdAt: int,
    lastUsedAt: Option<int>,
    customization: Customization)

  datatype Details = Details(
    name: string,
    region: string,
    rank: Option<string>,
    notes: string,
    favorite: bool,
    customization: Option<Customization>)

  /** What validation trims and checks. */
  datatype Tidy = Tidy(name: string, region: string, rank: Option<string>)

  /** The code the store leans on: which identity a saved login shows, whether
      it can be reused, and the validation of an edit. */
  datatype Env = Env(detect: string -> Option<string>, reusable: string -> bool, tidy: Details -> Option<Tidy>)
  {
    function Tidied(details: Details): (r: Option<Details>) {
      match tidy(details)
      case None => None
      case Some(t) => Some(details.(name := t.name, region := t.region, rank := t.rank))
    }
  }

  datatype VaultError =
    | InvalidDetails | NoSavedLogin | DamagedVault | NothingReadable | WriteFailed
    | AlreadySaved | ProfileNotFound | BelongsToAnother | DifferentAccount

  // ------------------------------------------------------------------- the disk

  /** A record is sealed, was stored before sealing existed, or cannot be read:
      malformed, or sealed with another key or for another profile. */
  datatype Record = Sealed(account: Account) | Legacy(account: Account) | Unreadable(raw: string)

  datatype File = Missing | Blank | Broken | Records(entries: seq<Record>)

  /** `outcomes` says of each coming write whether it succeeds; once it is used
      up they all do. */
  datatype Disk = Disk(file: File, quarantine: seq<string>, outcomes: seq<bool>)

  function Succeeds(d: Disk): (ok: bool) {
    d.outcomes == [] || d.outcomes[0]
  }

  function Tried(d: Disk): (r: Disk) {
    d.(outcomes := if d.outcomes == [] then [] else d.outcomes[1..])
  }

  datatype Outcome<T> = Outcome(disk: Disk, result: Result<T, VaultError>)

  function SealAll(accounts: seq<Account>): (entries: seq<Record>)
    ensures |entries| == |accounts| && forall i :: 0 <= i < |entries| ==> entries[i] == Sealed(accounts[i])
  {
    seq(|accounts|, i requires 0 <= i < |accounts| => Sealed(accounts[i]))
  }

  function Save(d: Disk, accounts: seq<Account>): (r: Outcome<()>) {
    if Succeeds(d) then Outcome(Tried(d).(file := Records(SealAll(accounts))), Ok(()))
    else Outcome(Tried(d), Err(WriteFailed))
  }

  // ---------------------------------------------------------------------- loading

  function Backfilled(env: Env, a: Account): (r: Account) {
    if a.puuid.None? then a.(puuid := env.detect(a.session)) else a
  }

  /** What went through the loop so far. */
  datatype Sifting = Sifting(disk: Disk, accounts: seq<Account>, changed: bool, failed: bool)

  function SiftOne(env: Env, s: Sifting, entry: Record): (r: Sifting) {
    match entry
    case Unreadable(raw) =>
      if Succeeds(s.disk) then s.(disk := Tried(s.disk).(quarantine := s.disk.quarantine + [raw]), changed := true)
      else s.(disk := Tried(s.disk), failed := true)
    case Sealed(a) => s.(accounts := s.accounts + [Backfilled(env, a)], changed := s.changed || Backfilled(env, a) != a)
    case Legacy(a) => s.(accounts := s.accounts + [Backfilled(env, a)], changed := true)
  }

  function Sift(env: Env, s: Sifting, entries: seq<Record>): (r: Sifting)
    decreases |entries|
  {
    if entries == [] || s.failed then s else Sift(env, SiftOne(env, s, entries[0]), entries[1..])
  }

  function Load(env: Env, d: Disk): (r: Outcome<seq<Account>>) {
    match d.file
    case Missing => Outcome(d, Ok([]))
    case Blank => Outcome(d, Ok([]))
    case Broken => Outcome(d, Err(DamagedVault))
    case Records(entries) =>
      var s := Sift(env, Sifting(d, [], false, false), entries);
      if s.failed then Outcome(s.disk, Err(WriteFailed))
      else if entries != [] && s.accounts == [] then Outcome(s.disk, Err(NothingReadable))
      else if !s.changed then Outcome(s.disk, Ok(s.accounts))
      else
        var saved := Save(s.disk, s.accounts);
        if saved.result.Ok? then Outcome(saved.disk, Ok(s.accounts)) else Outcome(saved.disk, Err(saved.result.error))
  }

  /** What the closure of an update makes of the profiles. */
  type Change<T> = Result<(seq<Account>, T), VaultError>

  /** The end of an update: the vault is replaced if the change went through. */
  function Commit<T>(d: Disk, change: Change<T>): (r: Outcome<T>) {
    match change
    case Err(e) => Outcome(d, Err(e))
    case Ok((accounts, value)) =>
      var saved := Save(d, accounts);
      if saved.result.Ok? then Outcome(saved.disk, Ok(value)) else Outcome(saved.disk, Err(saved.result.error))
  }

  // ------------------------------------------------------------ the store's actions

  /** The first profile with this identifier. */
  function IndexOf(accounts: seq<Account>, id: string): (r: Option<nat>)
    ensures r.Some? ==> r.value < |accounts| && accounts[r.value].id == id && forall j :: 0 <= j < r.value ==> accounts[j].id != id
    ensures r.None? ==> forall j :: 0 <= j < |accounts| ==> accounts[j].id != id
  {
    if accounts == [] then None
    else if accounts[0].id == id then Some(0)
    else
      var rest := IndexOf(accounts[1..], id);
      if rest.None? then None else Some(rest.value + 1)
  }

  /** Another profile already goes by this identity. */
  predicate Claimed(accounts: seq<Account>, puuid: Option<string>, except: Option<string>) {
    puuid.Some? && exists a | a in accounts :: a.puuid == puuid && except != Some(a.id)
  }

  function NewAccount(env: Env, details: Details, session: string, newId: string, now: int): (a: Account) {
    Account(newId, details.name, details.region, details.rank, details.notes, details.favorite, env.detect(session), session,
            Some(now), now, None, if details.customization.Some? then details.customization.value else PLAIN)
  }

  function Adding(env: Env, accounts: seq<Account>, details: Details, session: string, newId: string, now: int)
    : (r: Change<Account>)
  {
    if Claimed(accounts, env.detect(session), None) then Err(AlreadySaved)
    else
      var account := NewAccount(env, details, session, newId, now);
      Ok((accounts + [account], account))
  }

  /** An edit leaves what is synced alone, as long as it was and stays synced. */
  function Edited(a: Account, details: Details): (r: Account) {
    var keepRank := a.customization.autoSyncRank && details.customization.Some? && details.customization.value.autoSyncRank;
    var customization :=
      match details.customization
      case None => a.customization
      case Some(c) =>
        if a.customization.autoSyncIcon && c.autoSyncIcon
        then c.(iconAsset := a.customization.iconAsset, iconSource := a.customization.iconSource, iconId := a.customization.iconId)
        else c;
    a.(name := details.name, region := details.region, rank := if keepRank then a.rank else details.rank,
       notes := details.notes, favorite := details.favorite, customization := customization)
  }

  function Editing(accounts: seq<Account>, id: string, details: Details): (r: Change<()>) {
    match IndexOf(accounts, id)
    case None => Err(ProfileNotFound)
    case Some(i) => Ok((accounts[i := Edited(accounts[i], details)], ()))
  }

  function Refreshing(env: Env, accounts: seq<Account>, id: string, session: string, now: int)
    : (r: Change<()>)
  {
    var detected := env.detect(session);
    if Claimed(accounts, detected, Some(id)) then Err(BelongsToAnother)
    else
      match IndexOf(accounts, id)
      case None => Err(ProfileNotFound)
      case Some(i) =>
        var a := accounts[i];
        if a.puuid.Some? && detected.Some? && a.puuid != detected then Err(DifferentAccount)
        else
          var refreshed := a.(session := session, sessionUpdatedAt := Some(now), puuid := if detected.Some? then detected else a.puuid);
          Ok((accounts[i := refreshed], ()))
  }

  function Others(accounts: seq<Account>, id: string): (r: seq<Account>)
    ensures |r| <= |accounts|
    ensures forall a :: a in r <==> a in accounts && a.id != id
  {
    if accounts == [] then []
    else if accounts[0].id == id then Others(accounts[1..], id)
    else [accounts[0]] + Others(accounts[1..], id)
  }

  function Deleting(accounts: seq<Account>, id: string): (r: Change<()>) {
    if |Others(accounts, id)| == |accounts| then Err(ProfileNotFound) else Ok((Others(accounts, id), ()))
  }

  const GAME := "game"

  function Synced(a: Account, rank: Option<string>, icon: Option<(string, nat)>): (r: Account) {
    var ranked := if a.customization.autoSyncRank && rank.Some? then a.(rank := rank) else a;
    if a.customization.autoSyncIcon && icon.Some?
    then ranked.(customization := a.customization.(iconAsset := Some(icon.value.0), iconId := Some(icon.value.1), iconSource := Some(GAME)))
    else ranked
  }

  /** Whether a sync reports a change; an icon counts even if it is the same. */
  predicate SyncChanges(a: Account, rank: Option<string>, icon: Option<(string, nat)>) {
    (a.customization.autoSyncRank && rank.Some? && a.rank != rank) || (a.customization.autoSyncIcon && icon.Some?)
  }

  function Syncing(accounts: seq<Account>, id: string, puuid: string, rank: Option<string>, icon: Option<(string, nat)>)
    : (r: Change<bool>)
  {
    match IndexOf(accounts, id)
    case None => Ok((accounts, false))
    case Some(i) =>
      if accounts[i].puuid != Some(puuid) then Ok((accounts, false))
      else Ok((accounts[i := Synced(accounts[i], rank, icon)], SyncChanges(accounts[i], rank, icon)))
  }

  function Playing(accounts: seq<Account>, id: string, now: int): (r: Change<()>) {
    match IndexOf(accounts, id)
    case None => Err(ProfileNotFound)
    case Some(i) => Ok((accounts[i := accounts[i].(lastUsedAt := Some(now))], ()))
  }

  function CreateProfile(env: Env, d: Disk, details: Details, session: string, newId: string, now: int): (r: Outcome<Account>) {
    match env.Tidied(details)
    case None => Outcome(d, Err(InvalidDetails))
    case Some(tidied) =>
      if !env.reusable(session) then Outcome(d, Err(NoSavedLogin))
      else
        var loaded := Load(env, d);
        if loaded.result.Err? then Outcome(loaded.disk, Err(loaded.result.error))
        else Commit(loaded.disk, Adding(env, loaded.result.value, tidied, session, newId, now))
  }

  function EditProfile(env: Env, d: Disk, id: string, details: Details): (r: Outcome<()>) {
    match env.Tidied(details)
    case None => Outcome(d, Err(InvalidDetails))
    case Some(tidied) =>
      var loaded := Load(env, d);
      if loaded.result.Err? then Outcome(loaded.disk, Err(loaded.result.error))
      else Commit(loaded.disk, Editing(loaded.result.value, id, tidied))
  }

  function RefreshSession(env: Env, d: Disk, id: string, session: string, now: int): (r: Outcome<()>) {
    if !env.reusable(session) then Outcome(d, Err(NoSavedLogin))
    else
      var loaded := Load(env, d);
      if loaded.result.Err? then Outcome(loaded.disk, Err(loaded.result.error))
      else Commit(loaded.disk, Refreshing(env, loaded.result.value, id, session, now))
  }

  function DeleteAccount(env: Env, d: Disk, id: string): (r: Outcome<()>) {
    var loaded := Load(env, d);
    if loaded.result.Err? then Outcome(loaded.disk, Err(loaded.result.error))
    else Commit(loaded.disk, Deleting(loaded.result.value, id))
  }

  function ApplySync(env: Env, d: Disk, id: string, puuid: string, rank: Option<string>, icon: Option<(string, nat)>): (r: Outcome<bool>) {
    var loaded := Load(env, d);
    if loaded.result.Err? then Outcome(loaded.disk, Err(loaded.result.error))
    else Commit(loaded.disk, Syncing(loaded.result.value, id, puuid, rank, icon))
  }

  function MarkPlayed(env: Env, d: Disk, id: string, now: int): (r: Outcome<()>) {
    var loaded := Load(env, d);
    if loaded.result.Err? then Outcome(loaded.disk, Err(loaded.result.error))
    else Commit(loaded.disk, Playing(loaded.result.value, id, now))
  }
}
