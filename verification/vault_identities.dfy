/** Identities over whole histories of the vault, and the independence of edits
    and background syncs. */
module VaultIdentities {
  import opened Wrappers
  import opened LocalVault
  import opened VaultRuns

  predicate DistinctIds(accounts: seq<Account>) {
    forall i, j :: 0 <= i < j < |accounts| ==> accounts[i].id != accounts[j].id
  }

  /** No two profiles are known to be the same Riot account. */
  predicate DistinctIdentities(accounts: seq<Account>) {
    forall i, j :: 0 <= i < j < |accounts| && accounts[i].puuid.Some? ==> accounts[i].puuid != accounts[j].puuid
  }

  predicate AllUsed(accounts: seq<Account>, used: set<string>) {
    forall a | a in accounts :: a.id in used
  }

  predicate Tidy(accounts: seq<Account>, used: set<string>) {
    DistinctIds(accounts) && DistinctIdentities(accounts) && AllUsed(accounts, used)
  }

  predicate Apart(a: Account, rest: seq<Account>) {
    forall b | b in rest :: b.id != a.id && (a.puuid.Some? ==> b.puuid != a.puuid)
  }

  lemma TidyHead(accounts: seq<Account>, used: set<string>)
    requires Tidy(accounts, used) && accounts != []
    ensures Tidy(accounts[1..], used) && Apart(accounts[0], accounts[1..]) && accounts[0].id in used
  {
    var rest := accounts[1..];
    assert forall b | b in rest :: b in accounts;
    forall b | b in rest
      ensures b.id != accounts[0].id && (accounts[0].puuid.Some? ==> b.puuid != accounts[0].puuid)
    {
      var k :| 0 <= k < |rest| && rest[k] == b;
      assert accounts[k + 1] == b;
    }
  }

  lemma TidyCons(a: Account, rest: seq<Account>, used: set<string>)
    requires Tidy(rest, used) && Apart(a, rest) && a.id in used
    ensures Tidy([a] + rest, used)
  {
    forall j | 0 < j < |[a] + rest|
      ensures ([a] + rest)[j] in rest
    {
    }
  }

  lemma {:induction false} OthersTidy(accounts: seq<Account>, id: string, used: set<string>)
    requires Tidy(accounts, used)
    ensures Tidy(Others(accounts, id), used)
    decreases |accounts|
  {
    hide Tidy;
    if accounts == [] {
    } else {
      TidyHead(accounts, used);
      OthersTidy(accounts[1..], id, used);
      if accounts[0].id != id {
        TidyCons(accounts[0], Others(accounts[1..], id), used);
      }
    }
  }

  /** Replacing one profile by another with the same identifier and an identity
      that is its own or nobody's. */
  lemma ReplaceTidy(accounts: seq<Account>, i: nat, a: Account, used: set<string>)
    requires Tidy(accounts, used) && i < |accounts| && a.id == accounts[i].id
    requires a.puuid == accounts[i].puuid || !Claimed(accounts, a.puuid, Some(a.id))
    ensures Tidy(accounts[i := a], used)
  {
    forall j | 0 <= j < |accounts| && j != i
      ensures a.puuid.Some? ==> accounts[j].puuid != a.puuid
    {
      assert accounts[j] in accounts && accounts[j].id != a.id;
    }
  }

  function UsedAfter(used: set<string>, e: Event): (r: set<string>) {
    if e.Create? then used + {e.newId} else used
  }

  lemma EffectTidy(env: Env, accounts: seq<Account>, e: Event, used: set<string>)
    requires Tidy(accounts, used) && Effect(env, accounts, e).Some? && (e.Create? ==> e.newId !in used)
    ensures Tidy(Effect(env, accounts, e).value, UsedAfter(used, e))
  {
    match e
    case Create(details, session, newId, now) =>
      assert forall j :: 0 <= j < |accounts| ==> accounts[j] in accounts;
    case Delete(id) => OthersTidy(accounts, id, used);
    case Open =>
    case _ =>
      if IndexOf(accounts, e.id).Some? {
        var i := IndexOf(accounts, e.id).value;
        var a := Effect(env, accounts, e).value[i];
        assert accounts[i := accounts[i]] == accounts;
        ReplaceTidy(accounts, i, a, used);
      }
  }

  predicate Good(env: Env, w: World) {
    Tidy(Profiles(env, w.disk), w.used)
  }

  lemma NextStaysGood(env: Env, w: World, c: Call)
    requires Good(env, w)
    ensures Good(env, Next(env, w, c)) && w.used <= Next(env, w, c).used
    ensures Settled(env, w.disk) ==> Settled(env, Next(env, w, c).disk)
  {
    hide Answer, Effect, Settled, Profiles;
    if Enabled(w, c) {
      var d := w.disk.(outcomes := c.outcomes);
      SameProfiles(env, w.disk, c.outcomes);
      CallsAreAtomic(env, d, c.event);
      if Answer(env, d, c.event).1 {
        EffectTidy(env, Profiles(env, d), c.event, w.used);
      }
    }
  }

  lemma SameProfiles(env: Env, d: Disk, outcomes: seq<bool>)
    ensures Profiles(env, d.(outcomes := outcomes)) == Profiles(env, d)
    ensures Settled(env, d.(outcomes := outcomes)) <==> Settled(env, d)
    ensures UnreadableIn(d.(outcomes := outcomes)) == UnreadableIn(d)
  {
  }

  /** From any vault whose identities are distinct, they stay distinct, whatever
      is called and however the disk fails. */
  lemma {:induction false} RunsStayGood(env: Env, w: World, calls: seq<Call>)
    requires Good(env, w)
    ensures Good(env, Run(env, w, calls)) && w.used <= Run(env, w, calls).used
    ensures Settled(env, w.disk) ==> Settled(env, Run(env, w, calls).disk)
    decreases |calls|
  {
    hide Good, Next, Settled;
    if calls != [] {
      RunsStayGood(env, w, calls[..|calls| - 1]);
      NextStaysGood(env, Run(env, w, calls[..|calls| - 1]), calls[|calls| - 1]);
    }
  }

  /** A record that could not be read once is still in the vault or was set
      aside, after any history. */
  lemma {:induction false} RecordsAreNeverLost(env: Env, w: World, calls: seq<Call>, raw: string)
    requires raw in UnreadableIn(w.disk) || raw in w.disk.quarantine
    ensures raw in UnreadableIn(Run(env, w, calls).disk) || raw in Run(env, w, calls).disk.quarantine
    decreases |calls|
  {
    hide Answer, Effect, Settled, Profiles, UnreadableIn;
    if calls != [] {
      var before, c := Run(env, w, calls[..|calls| - 1]), calls[|calls| - 1];
      RecordsAreNeverLost(env, w, calls[..|calls| - 1], raw);
      if Enabled(before, c) {
        SameProfiles(env, before.disk, c.outcomes);
        CallsAreAtomic(env, before.disk.(outcomes := c.outcomes), c.event);
      }
    }
  }

  const EMPTY := World(Disk(Missing, [], []), {})

  /** Starting from no vault, every history keeps identities distinct and leaves
      nothing to repair: loading, with its backfill, is a plain read. */
  lemma EmptyVaultStaysSound(env: Env, calls: seq<Call>)
    ensures var d := Run(env, EMPTY, calls).disk;
            && DistinctIdentities(Profiles(env, d))
            && Load(env, d) == Outcome(d, Ok(Profiles(env, d)))
  {
    assert Good(env, EMPTY) && Settled(env, EMPTY.disk);
    hide Run, Settled;
    RunsStayGood(env, EMPTY, calls);
    SettledLoadIsNoop(env, Run(env, EMPTY, calls).disk);
  }

  /** Two records of one Riot account: both know it, only one does and the login
      of the other shows it, or both logins show it. */
  predicate Twins(env: Env, a: Account, b: Account) {
    match (a.puuid, b.puuid)
    case (Some(p), Some(q)) => p == q
    case (Some(p), None) => env.detect(b.session) == Some(p)
    case (None, Some(q)) => env.detect(a.session) == Some(q)
    case (None, None) => env.detect(a.session).Some? && env.detect(a.session) == env.detect(b.session)
  }

  predicate NoTwins(env: Env, accounts: seq<Account>) {
    forall i, j :: 0 <= i < j < |accounts| ==> !Twins(env, accounts[i], accounts[j])
  }

  function Contents(entries: seq<Record>): (accounts: seq<Account>) {
    if entries == [] then []
    else if entries[0].Unreadable? then Contents(entries[1..])
    else [entries[0].account] + Contents(entries[1..])
  }

  lemma {:induction false} ReadableIs(env: Env, entries: seq<Record>)
    ensures |Readable(env, entries)| == |Contents(entries)|
    ensures forall i :: 0 <= i < |Contents(entries)| ==> Readable(env, entries)[i] == Backfilled(env, Contents(entries)[i])
    decreases |entries|
  {
    if entries != [] {
      ReadableIs(env, entries[1..]);
    }
  }

  /** A vault written before identities were noted is another matter: backfill
      compares nothing, so it makes duplicates exactly if two of its records are
      of one account. */
  lemma BackfillIsDistinctIff(env: Env, d: Disk)
    requires Load(env, d).result.Ok? && d.file.Records?
    ensures DistinctIdentities(Load(env, d).result.value) <==> NoTwins(env, Contents(d.file.entries))
  {
    hide Load;
    LoadPreserves(env, d);
    ReadableIs(env, d.file.entries);
    var before, after := Contents(d.file.entries), Profiles(env, d);
    assert forall i :: 0 <= i < |before| ==> after[i] == Backfilled(env, before[i]);
  }

  /** Two old records of one login become two profiles of one account. */
  lemma LegacyVaultCanHoldTwins(env: Env, a: Account, b: Account)
    requires a.puuid.None? && b.puuid.None? && env.detect(a.session).Some? && env.detect(a.session) == env.detect(b.session)
    ensures var d := Disk(Records([Legacy(a), Legacy(b)]), [], []);
            Load(env, d).result.Ok? && !DistinctIdentities(Load(env, d).result.value)
  {
    var entries := [Legacy(a), Legacy(b)];
    assert entries[1..] == [Legacy(b)] && [Legacy(b)][1..] == [];
    var s := Sifting(Disk(Records(entries), [], []), [], false, false);
    var t := SiftOne(env, SiftOne(env, s, entries[0]), entries[1]);
    assert Sift(env, s, entries) == Sift(env, SiftOne(env, s, entries[0]), [Legacy(b)]) == t;
    assert t.accounts == [Backfilled(env, a), Backfilled(env, b)];
    assert t.accounts[0].puuid == t.accounts[1].puuid;
  }

  // -------------------------------------------------------- one profile over time

  function At(accounts: seq<Account>, id: string): (r: Option<Account>) {
    var i := IndexOf(accounts, id);
    if i.None? then None else Some(accounts[i.value])
  }

  lemma {:induction false} AtReplaced(accounts: seq<Account>, i: nat, a: Account, id: string)
    requires IndexOf(accounts, a.id) == Some(i)
    ensures At(accounts[i := a], id) == if id == a.id then Some(a) else At(accounts, id)
  {
    FirstIs(accounts[i := a], a.id, i);
    if id != a.id && IndexOf(accounts, id).Some? {
      FirstIs(accounts[i := a], id, IndexOf(accounts, id).value);
    }
  }

  lemma FirstIs(accounts: seq<Account>, id: string, i: nat)
    requires i < |accounts| && accounts[i].id == id && forall j :: 0 <= j < i ==> accounts[j].id != id
    ensures IndexOf(accounts, id) == Some(i)
  {
  }

  lemma AtAdded(accounts: seq<Account>, a: Account, id: string)
    ensures At(accounts + [a], id) == if At(accounts, id).Some? then At(accounts, id) else if a.id == id then Some(a) else None
  {
    if IndexOf(accounts, id).Some? {
      FirstIs(accounts + [a], id, IndexOf(accounts, id).value);
    } else if a.id == id {
      FirstIs(accounts + [a], id, |accounts|);
    }
  }

  lemma {:induction false} AtOthers(accounts: seq<Account>, gone: string, id: string)
    ensures At(Others(accounts, gone), id) == if id == gone then None else At(accounts, id)
    decreases |accounts|
  {
    hide At;
    if accounts == [] {
      AtNone(id);
    } else {
      AtOthers(accounts[1..], gone, id);
      if accounts[0].id != gone {
        AtTail(accounts[0], Others(accounts[1..], gone), id);
      }
      assert accounts == [accounts[0]] + accounts[1..];
      AtTail(accounts[0], accounts[1..], id);
    }
  }

  lemma AtNone(id: string)
    ensures At([], id).None?
  {
  }

  lemma AtTail(a: Account, rest: seq<Account>, id: string)
    ensures At([a] + rest, id) == if a.id == id then Some(a) else At(rest, id)
  {
    assert ([a] + rest)[1..] == rest;
  }

  /** What a call does to the profile it names. */
  function Touched(env: Env, a: Account, e: Event): (r: Account) {
    match e
    case Edit(_, details) => if env.Tidied(details).Some? then Edited(a, env.Tidied(details).value) else a
    case Refresh(_, session, now) =>
      a.(session := session, sessionUpdatedAt := Some(now), puuid := if env.detect(session).Some? then env.detect(session) else a.puuid)
    case Sync(_, puuid, rank, icon) => if a.puuid == Some(puuid) then Synced(a, rank, icon) else a
    case Play(_, now) => a.(lastUsedAt := Some(now))
    case _ => a
  }

  predicate Names(e: Event, id: string) {
    !e.Create? && !e.Open? && e.id == id
  }

  /** A profile changes only by calls that name it. */
  lemma EffectAt(env: Env, accounts: seq<Account>, e: Event, id: string)
    requires Effect(env, accounts, e).Some? && At(accounts, id).Some? && e != Delete(id)
    ensures At(Effect(env, accounts, e).value, id)
         == Some(if Names(e, id) then Touched(env, At(accounts, id).value, e) else At(accounts, id).value)
  {
    match e
    case Create(details, session, newId, now) =>
      AtAdded(accounts, NewAccount(env, env.Tidied(details).value, session, newId, now), id);
    case Delete(gone) => AtOthers(accounts, gone, id);
    case Open =>
    case _ =>
      if IndexOf(accounts, e.id).Some? {
        var i := IndexOf(accounts, e.id).value;
        AtReplaced(accounts, i, Touched(env, accounts[i], e), id);
        assert accounts[i := accounts[i]] == accounts;
      }
  }

  lemma RefreshKeepsIdentity(env: Env, accounts: seq<Account>, e: Event, id: string)
    requires Effect(env, accounts, e).Some? && At(accounts, id).Some? && Names(e, id) && e != Delete(id)
    requires At(accounts, id).value.puuid.Some?
    ensures Touched(env, At(accounts, id).value, e).puuid == At(accounts, id).value.puuid
  {
  }

  lemma NeverBack(env: Env, accounts: seq<Account>, e: Event, id: string)
    requires Effect(env, accounts, e).Some? && At(accounts, id).None? && (e.Create? ==> e.newId != id)
    ensures At(Effect(env, accounts, e).value, id).None?
  {
    match e
    case Create(details, session, newId, now) =>
      AtAdded(accounts, NewAccount(env, env.Tidied(details).value, session, newId, now), id);
    case Delete(gone) => AtOthers(accounts, gone, id);
    case Open =>
    case _ =>
      if IndexOf(accounts, e.id).Some? {
        var i := IndexOf(accounts, e.id).value;
        AtReplaced(accounts, i, Touched(env, accounts[i], e), id);
        assert accounts[i := accounts[i]] == accounts;
      }
  }

  function ProfileIn(env: Env, w: World, id: string): (r: Option<Account>) {
    At(Profiles(env, w.disk), id)
  }

  /** One call, seen from one profile. */
  lemma StepAt(env: Env, w: World, c: Call, id: string)
    requires id in w.used
    ensures var before, after := ProfileIn(env, w, id), ProfileIn(env, Next(env, w, c), id);
            && (after.Some? ==> before.Some?)
            && (before.Some? && c.event != Delete(id) ==> after.Some?)
            && (before.Some? && after.Some? ==>
                  after.value == if Succeeded(env, w, c) && Names(c.event, id) then Touched(env, before.value, c.event) else before.value)
            && (before.Some? && after.Some? && before.value.puuid.Some? ==> after.value.puuid == before.value.puuid)
            && id in Next(env, w, c).used
  {
    hide Answer, Effect, Profiles, Touched, At;
    if Enabled(w, c) {
      var d := w.disk.(outcomes := c.outcomes);
      SameProfiles(env, w.disk, c.outcomes);
      CallsAreAtomic(env, d, c.event);
      var accounts := Profiles(env, d);
      if Answer(env, d, c.event).1 {
        if At(accounts, id).None? {
          NeverBack(env, accounts, c.event, id);
        } else if c.event == Delete(id) {
          DeletedIsGone(env, accounts, id);
        } else {
          EffectAt(env, accounts, c.event, id);
          if Names(c.event, id) && At(accounts, id).value.puuid.Some? {
            RefreshKeepsIdentity(env, accounts, c.event, id);
          }
        }
      }
    }
  }

  lemma DeletedIsGone(env: Env, accounts: seq<Account>, id: string)
    requires Effect(env, accounts, Delete(id)).Some?
    ensures At(Effect(env, accounts, Delete(id)).value, id).None?
  {
    AtOthers(accounts, id, id);
  }

  /** Each field of a new profile: its details as given, the login and what it
      shows, the time, and no play yet. */
  predicate CreatedAs(env: Env, a: Account, details: Details, session: string, newId: string, now: int) {
    && a.id == newId && a.name == details.name && a.region == details.region && a.rank == details.rank
    && a.notes == details.notes && a.favorite == details.favorite
    && a.session == session && a.puuid == env.detect(session)
    && a.sessionUpdatedAt == Some(now) && a.createdAt == now && a.lastUsedAt == None
    && (details.customization.Some? ==> a.customization == details.customization.value)
    && (details.customization.None? ==> a.customization == Customization(None, None, None, false, false))
  }

  /** A profile that was created shows what it was created with, and no other
      profile goes by the identity of its login. */
  lemma CreatedProfileShows(env: Env, w: World, c: Call)
    requires Good(env, w) && c.event.Create? && Succeeded(env, w, c)
    ensures var e := c.event;
            && env.Tidied(e.details).Some? && env.reusable(e.session)
            && ProfileIn(env, Next(env, w, c), e.newId).Some?
            && CreatedAs(env, ProfileIn(env, Next(env, w, c), e.newId).value, env.Tidied(e.details).value, e.session, e.newId, e.now)
            && forall a | a in Profiles(env, w.disk) && a.puuid.Some? :: a.puuid != env.detect(e.session)
  {
    hide Answer, Profiles, IndexOf;
    var d := w.disk.(outcomes := c.outcomes);
    SameProfiles(env, w.disk, c.outcomes);
    CallsAreAtomic(env, d, c.event);
    var accounts := Profiles(env, d);
    assert forall j :: 0 <= j < |accounts| ==> accounts[j] in accounts && accounts[j].id in w.used;
    AtAdded(accounts, NewAccount(env, env.Tidied(c.event.details).value, c.event.session, c.event.newId, c.event.now), c.event.newId);
  }

  /** A profile that was signed in again holds the new login, and keeps or gains
      the identity it shows. */
  lemma RefreshedProfileShows(env: Env, w: World, c: Call)
    requires Good(env, w) && c.event.Refresh? && Succeeded(env, w, c) && c.event.id in w.used
    ensures var before, after := ProfileIn(env, w, c.event.id), ProfileIn(env, Next(env, w, c), c.event.id);
            && before.Some? && after.Some? && after.value.session == c.event.session && env.reusable(c.event.session)
            && (env.detect(c.event.session).Some? ==> after.value.puuid == env.detect(c.event.session))
            && (before.value.puuid.Some? ==> after.value.puuid == before.value.puuid)
  {
    hide Answer, Profiles, At;
    var d := w.disk.(outcomes := c.outcomes);
    SameProfiles(env, w.disk, c.outcomes);
    CallsAreAtomic(env, d, c.event);
    RefreshFinds(env, Profiles(env, d), c.event);
    StepAt(env, w, c, c.event.id);
  }

  predicate SameIcon(a: Customization, b: Customization) {
    a.iconAsset == b.iconAsset && a.iconSource == b.iconSource && a.iconId == b.iconId
  }

  /** An edit decides the switches; rank and icon follow it unless they were and
      stay synced, and an edit that says nothing of the customization keeps it. */
  lemma EditRespectsTheSwitches(env: Env, w: World, c: Call)
    requires Good(env, w) && c.event.Edit? && Succeeded(env, w, c) && c.event.id in w.used
    ensures var details := c.event.details;
            var before, after := ProfileIn(env, w, c.event.id), ProfileIn(env, Next(env, w, c), c.event.id);
            && before.Some? && after.Some? && env.Tidied(details).Some?
            && EditShows(after.value, before.value, env.Tidied(details))
            && (details.customization.None? ==>
                  after.value.customization == before.value.customization && after.value.rank == env.Tidied(details).value.rank)
            && (details.customization.Some? ==>
                  var was, said, now := before.value.customization, details.customization.value, after.value.customization;
                  && now.autoSyncIcon == said.autoSyncIcon && now.autoSyncRank == said.autoSyncRank
                  && after.value.rank == (if was.autoSyncRank && now.autoSyncRank then before.value.rank else env.Tidied(details).value.rank)
                  && SameIcon(now, if was.autoSyncIcon && now.autoSyncIcon then was else said))
  {
    hide Answer, Profiles, At;
    var d := w.disk.(outcomes := c.outcomes);
    SameProfiles(env, w.disk, c.outcomes);
    CallsAreAtomic(env, d, c.event);
    EditFinds(env, Profiles(env, d), c.event);
    StepAt(env, w, c, c.event.id);
  }

  lemma EditFinds(env: Env, accounts: seq<Account>, e: Event)
    requires e.Edit? && Effect(env, accounts, e).Some?
    ensures At(accounts, e.id).Some?
  {
  }

  lemma RefreshFinds(env: Env, accounts: seq<Account>, e: Event)
    requires e.Refresh? && Effect(env, accounts, e).Some?
    ensures At(accounts, e.id).Some?
  {
  }

  /** A known identity never changes, and a deleted profile never returns. */
  lemma {:induction false} KnownIdentityNeverChanges(env: Env, w: World, calls: seq<Call>, id: string)
    requires id in w.used && (ProfileIn(env, w, id).Some? ==> ProfileIn(env, w, id).value.puuid.Some?)
    ensures ProfileIn(env, Run(env, w, calls), id).Some? ==>
              && ProfileIn(env, w, id).Some?
              && ProfileIn(env, Run(env, w, calls), id).value.puuid == ProfileIn(env, w, id).value.puuid
    ensures id in Run(env, w, calls).used
    decreases |calls|
  {
    hide Next, ProfileIn;
    if calls != [] {
      KnownIdentityNeverChanges(env, w, calls[..|calls| - 1], id);
      StepAt(env, Run(env, w, calls[..|calls| - 1]), calls[|calls| - 1], id);
    }
  }

  // ------------------------------------------------------------- edits and syncs

  predicate BothOn(c: Customization) {
    c.autoSyncIcon && c.autoSyncRank
  }

  /** No call deletes the profile or edits it without keeping both switches on. */
  predicate KeepsSyncing(calls: seq<Call>, id: string) {
    forall c | c in calls ::
      && c.event != Delete(id)
      && (c.event.Edit? && c.event.id == id ==> c.event.details.customization.Some? && BothOn(c.event.details.customization.value))
  }

  /** The last edit that went through. */
  function LastEdit(env: Env, w: World, calls: seq<Call>, id: string): (r: Option<Details>)
    decreases |calls|
  {
    if calls == [] then None
    else
      var c := calls[|calls| - 1];
      if c.event.Edit? && c.event.id == id && Succeeded(env, Run(env, w, calls[..|calls| - 1]), c)
      then env.Tidied(c.event.details)
      else LastEdit(env, w, calls[..|calls| - 1], id)
  }

  predicate Syncs(env: Env, w: World, c: Call, id: string, puuid: string) {
    c.event.Sync? && c.event.id == id && c.event.puuid == puuid && Succeeded(env, w, c)
  }

  /** The rank of the last sync that brought one. */
  function LastRank(env: Env, w: World, calls: seq<Call>, id: string, puuid: string): (r: Option<string>)
    decreases |calls|
  {
    if calls == [] then None
    else
      var c := calls[|calls| - 1];
      if Syncs(env, Run(env, w, calls[..|calls| - 1]), c, id, puuid) && c.event.rank.Some? then c.event.rank
      else LastRank(env, w, calls[..|calls| - 1], id, puuid)
  }

  function LastIcon(env: Env, w: World, calls: seq<Call>, id: string, puuid: string): (r: Option<(string, nat)>)
    decreases |calls|
  {
    if calls == [] then None
    else
      var c := calls[|calls| - 1];
      if Syncs(env, Run(env, w, calls[..|calls| - 1]), c, id, puuid) && c.event.icon.Some? then c.event.icon
      else LastIcon(env, w, calls[..|calls| - 1], id, puuid)
  }

  predicate EditShows(a: Account, start: Account, edit: Option<Details>) {
    && a.name == (if edit.Some? then edit.value.name else start.name)
    && a.region == (if edit.Some? then edit.value.region else start.region)
    && a.notes == (if edit.Some? then edit.value.notes else start.notes)
    && a.favorite == (if edit.Some? then edit.value.favorite else start.favorite)
  }

  predicate SyncShows(a: Account, start: Account, rank: Option<string>, icon: Option<(string, nat)>) {
    && BothOn(a.customization)
    && a.rank == (if rank.Some? then rank else start.rank)
    && a.customization.iconAsset == (if icon.Some? then Some(icon.value.0) else start.customization.iconAsset)
    && a.customization.iconId == (if icon.Some? then Some(icon.value.1) else start.customization.iconId)
    && a.customization.iconSource == (if icon.Some? then Some(GAME) else start.customization.iconSource)
  }

  /** While both switches stay on, edits and syncs may interleave in any order:
      the profile ends with the fields of the last edit and the rank and icon
      last synced. */
  lemma {:induction false} EditsAndSyncsCommute(env: Env, w: World, calls: seq<Call>, id: string, puuid: string)
    requires id in w.used && ProfileIn(env, w, id).Some?
    requires ProfileIn(env, w, id).value.puuid == Some(puuid) && BothOn(ProfileIn(env, w, id).value.customization)
    requires KeepsSyncing(calls, id)
    ensures var start, end := ProfileIn(env, w, id), ProfileIn(env, Run(env, w, calls), id);
            && end.Some? && end.value.puuid == Some(puuid) && id in Run(env, w, calls).used
            && EditShows(end.value, start.value, LastEdit(env, w, calls, id))
            && SyncShows(end.value, start.value, LastRank(env, w, calls, id, puuid), LastIcon(env, w, calls, id, puuid))
    decreases |calls|
  {
    hide Next, ProfileIn, Succeeded;
    if calls != [] {
      var before, c := calls[..|calls| - 1], calls[|calls| - 1];
      assert c in calls && forall b :: b in before ==> b in calls;
      EditsAndSyncsCommute(env, w, before, id, puuid);
      StepAt(env, Run(env, w, before), c, id);
      TidiedIfEdited(env, Run(env, w, before), c);
    }
  }

  lemma TidiedIfEdited(env: Env, w: World, c: Call)
    ensures c.event.Edit? && Succeeded(env, w, c) ==> env.Tidied(c.event.details).Some?
    ensures c.event.Edit? && env.Tidied(c.event.details).Some? ==>
              env.Tidied(c.event.details).value.customization == c.event.details.customization
  {
  }
}
