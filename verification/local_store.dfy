/** The store as it runs: an object over the vault file whose methods walk and
    change the profile list in place. */
module LocalStoreObject {
  import opened Wrappers
  import V = LocalVault

  /** The first profile with this identifier, searched from the front. */
  method Find(accounts: seq<V.Account>, id: string) returns (r: Option<nat>)
    ensures r == V.IndexOf(accounts, id)
  {
    var i := 0;
    while i < |accounts|
      invariant 0 <= i <= |accounts|
      invariant forall j :: 0 <= j < i ==> accounts[j].id != id
    {
      if accounts[i].id == id {
        return Some(i);
      }
      i := i + 1;
    }
    r := None;
  }

  /** `retain` of everything else. */
  method Retain(accounts: seq<V.Account>, id: string) returns (r: seq<V.Account>)
    ensures r == V.Others(accounts, id)
  {
    r := [];
    var i := 0;
    while i < |accounts|
      invariant 0 <= i <= |accounts|
      invariant r + V.Others(accounts[i..], id) == V.Others(accounts, id)
    {
      assert accounts[i..][0] == accounts[i] && accounts[i..][1..] == accounts[i + 1..];
      if accounts[i].id != id {
        r := r + [accounts[i]];
      }
      i := i + 1;
    }
    assert accounts[i..] == [];
  }

  class LocalStore {
    const env: V.Env
    var disk: V.Disk

    constructor (env: V.Env, disk: V.Disk)
      ensures this.env == env && this.disk == disk
    {
      this.env, this.disk := env, disk;
    }

    /** One atomic replacement of a file. */
    method Write() returns (ok: bool)
      modifies this
      ensures ok == V.Succeeds(old(disk)) && disk == V.Tried(old(disk))
    {
      ok := disk.outcomes == [] || disk.outcomes[0];
      if disk.outcomes != [] {
        disk := disk.(outcomes := disk.outcomes[1..]);
      }
    }

    method Save(accounts: seq<V.Account>) returns (r: Result<(), V.VaultError>)
      modifies this
      ensures V.Outcome(disk, r) == V.Save(old(disk), accounts)
    {
      var ok := Write();
      if !ok {
        return Err(V.WriteFailed);
      }
      disk := disk.(file := V.Records(V.SealAll(accounts)));
      r := Ok(());
    }

    /** Reads every record, completes what is missing and sets aside what cannot
        be read; a vault that changed by this is written back. */
    method Load() returns (r: Result<seq<V.Account>, V.VaultError>)
      modifies this
      ensures V.Outcome(disk, r) == V.Load(env, old(disk))
    {
      if disk.file.Missing? || disk.file.Blank? {
        return Ok([]);
      }
      if disk.file.Broken? {
        return Err(V.DamagedVault);
      }
      var entries := disk.file.entries;
      var accounts: seq<V.Account>, changed, i := [], false, 0;
      while i < |entries|
        invariant 0 <= i <= |entries|
        invariant V.Sift(env, V.Sifting(disk, accounts, changed, false), entries[i..])
               == V.Sift(env, V.Sifting(old(disk), [], false, false), entries)
      {
        assert entries[i..][0] == entries[i] && entries[i..][1..] == entries[i + 1..];
        match entries[i] {
          case Unreadable(raw) =>
            var ok := Write();
            if !ok {
              return Err(V.WriteFailed);
            }
            disk := disk.(quarantine := disk.quarantine + [raw]);
            changed := true;
          case Sealed(account) =>
            var known := account.puuid;
            if known.None? {
              known := env.detect(account.session);
              changed := changed || known.Some?;
            }
            accounts := accounts + [account.(puuid := known)];
          case Legacy(account) =>
            var known := account.puuid;
            if known.None? {
              known := env.detect(account.session);
            }
            changed := true;
            accounts := accounts + [account.(puuid := known)];
        }
        i := i + 1;
      }
      if |entries| > 0 && accounts == [] {
        return Err(V.NothingReadable);
      }
      if changed {
        var saved := Save(accounts);
        if saved.Err? {
          return Err(saved.error);
        }
      }
      r := Ok(accounts);
    }

    method CreateProfile(details: V.Details, session: string, newId: string, now: int) returns (r: Result<V.Account, V.VaultError>)
      modifies this
      ensures V.Outcome(disk, r) == V.CreateProfile(env, old(disk), details, session, newId, now)
    {
      hide V.Load, V.Save;
      var tidied := env.Tidied(details);
      if tidied.None? {
        return Err(V.InvalidDetails);
      }
      if !env.reusable(session) {
        return Err(V.NoSavedLogin);
      }
      var detected := env.detect(session);
      var loaded := Load();
      if loaded.Err? {
        return Err(loaded.error);
      }
      var accounts := loaded.value;
      if detected.Some? && exists a | a in accounts :: a.puuid == detected {
        return Err(V.AlreadySaved);
      }
      var account := V.NewAccount(env, tidied.value, session, newId, now);
      accounts := accounts + [account];
      var saved := Save(accounts);
      r := if saved.Ok? then Ok(account) else Err(saved.error);
    }

    method EditProfile(id: string, details: V.Details) returns (r: Result<(), V.VaultError>)
      modifies this
      ensures V.Outcome(disk, r) == V.EditProfile(env, old(disk), id, details)
    {
      hide V.Load, V.Save;
      var tidied := env.Tidied(details);
      if tidied.None? {
        return Err(V.InvalidDetails);
      }
      var loaded := Load();
      if loaded.Err? {
        return Err(loaded.error);
      }
      var accounts, d := loaded.value, tidied.value;
      var i := Find(accounts, id);
      if i.None? {
        return Err(V.ProfileNotFound);
      }
      var account := accounts[i.value];
      account := account.(name := d.name, region := d.region);
      if !(account.customization.autoSyncRank && d.customization.Some? && d.customization.value.autoSyncRank) {
        account := account.(rank := d.rank);
      }
      account := account.(notes := d.notes, favorite := d.favorite);
      if d.customization.Some? {
        var customization := d.customization.value;
        if account.customization.autoSyncIcon && customization.autoSyncIcon {
          customization := customization.(iconAsset := account.customization.iconAsset);
          customization := customization.(iconSource := account.customization.iconSource);
          customization := customization.(iconId := account.customization.iconId);
        }
        account := account.(customization := customization);
      }
      accounts := accounts[i.value := account];
      var saved := Save(accounts);
      r := if saved.Ok? then Ok(()) else Err(saved.error);
    }

    method RefreshSession(id: string, session: string, now: int) returns (r: Result<(), V.VaultError>)
      modifies this
      ensures V.Outcome(disk, r) == V.RefreshSession(env, old(disk), id, session, now)
    {
      hide V.Load, V.Save;
      if !env.reusable(session) {
        return Err(V.NoSavedLogin);
      }
      var detected := env.detect(session);
      var loaded := Load();
      if loaded.Err? {
        return Err(loaded.error);
      }
      var accounts := loaded.value;
      if detected.Some? && exists a | a in accounts :: a.id != id && a.puuid == detected {
        return Err(V.BelongsToAnother);
      }
      var i := Find(accounts, id);
      if i.None? {
        return Err(V.ProfileNotFound);
      }
      var account := accounts[i.value];
      if account.puuid.Some? && detected.Some? && account.puuid.value != detected.value {
        return Err(V.DifferentAccount);
      }
      account := account.(session := session, sessionUpdatedAt := Some(now));
      if detected.Some? {
        account := account.(puuid := detected);
      }
      accounts := accounts[i.value := account];
      var saved := Save(accounts);
      r := if saved.Ok? then Ok(()) else Err(saved.error);
    }

    method DeleteAccount(id: string) returns (r: Result<(), V.VaultError>)
      modifies this
      ensures V.Outcome(disk, r) == V.DeleteAccount(env, old(disk), id)
    {
      hide V.Load, V.Save, V.Others;
      var loaded := Load();
      if loaded.Err? {
        return Err(loaded.error);
      }
      var accounts := Retain(loaded.value, id);
      if |accounts| == |loaded.value| {
        return Err(V.ProfileNotFound);
      }
      var saved := Save(accounts);
      r := if saved.Ok? then Ok(()) else Err(saved.error);
    }

    method ApplySync(id: string, puuid: string, rank: Option<string>, icon: Option<(string, nat)>) returns (r: Result<bool, V.VaultError>)
      modifies this
      ensures V.Outcome(disk, r) == V.ApplySync(env, old(disk), id, puuid, rank, icon)
    {
      hide V.Load, V.Save;
      var loaded := Load();
      if loaded.Err? {
        return Err(loaded.error);
      }
      var accounts, changed := loaded.value, false;
      var i := Find(accounts, id);
      if i.Some? && accounts[i.value].puuid == Some(puuid) {
        var account := accounts[i.value];
        if account.customization.autoSyncRank && rank.Some? && account.rank != rank {
          account := account.(rank := rank);
          changed := true;
        }
        if account.customization.autoSyncIcon && icon.Some? {
          var (asset, iconId) := icon.value;
          account := account.(customization := account.customization.(iconAsset := Some(asset)));
          account := account.(customization := account.customization.(iconId := Some(iconId)));
          account := account.(customization := account.customization.(iconSource := Some(V.GAME)));
          changed := true;
        }
        accounts := accounts[i.value := account];
      }
      var saved := Save(accounts);
      r := if saved.Ok? then Ok(changed) else Err(saved.error);
    }

    method MarkPlayed(id: string, now: int) returns (r: Result<(), V.VaultError>)
      modifies this
      ensures V.Outcome(disk, r) == V.MarkPlayed(env, old(disk), id, now)
    {
      hide V.Load, V.Save;
      var loaded := Load();
      if loaded.Err? {
        return Err(loaded.error);
      }
      var accounts := loaded.value;
      var i := Find(accounts, id);
      if i.None? {
        return Err(V.ProfileNotFound);
      }
      accounts := accounts[i.value := accounts[i.value].(lastUsedAt := Some(now))];
      var saved := Save(accounts);
      r := if saved.Ok? then Ok(()) else Err(saved.error);
    }
  }
}
