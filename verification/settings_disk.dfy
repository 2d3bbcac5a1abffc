/** The disk under Riot's two settings files, seen one atomic step at a time.

    Every step may complete, fail and report it, or be cut off by a crash of
    the launcher, after which no further step of the same operation happens.
    Which of the three comes next is the disk's script. */
module SettingsDisk {

  datatype SettingsFile = RiotGames | RiotClient

  const FILES: seq<SettingsFile> := [RiotGames, RiotClient]

  type StagingId = nat

  datatype Path =
    | Settings(file: SettingsFile)
    | Backup(file: SettingsFile)
    | Marker
    | Owner
    | Staging(id: StagingId)
    | Staged(id: StagingId, file: SettingsFile)
    | Manifest(id: StagingId)

  /** Marker and manifest are small records; the rest is opaque text. */
  datatype Content =
    | Text(text: string)
    | MissingFiles(files: seq<SettingsFile>)
    | Originals(entries: seq<(SettingsFile, bool)>)
    | Directory

  type Files = map<Path, Content>

  datatype Outcome = Completes | Fails | Crashes

  datatype DiskState = DiskState(files: Files, script: seq<Outcome>, crashed: bool)

  datatype Step = Step(disk: DiskState, ok: bool)

  /** One atomic change, if the script lets it happen. */
  function Attempt(d: DiskState, after: Files): (s: Step)
    ensures s.disk.files == if s.ok then after else d.files
    ensures s.ok ==> !d.crashed && !s.disk.crashed
    ensures d.script == [] && !d.crashed ==> s.ok && s.disk.script == []
  {
    if d.crashed then Step(d, false)
    else if d.script == [] then Step(d.(files := after), true)
    else
      var rest := d.(script := d.script[1..]);
      match d.script[0]
      case Completes => Step(rest.(files := after), true)
      case Fails => Step(rest, false)
      case Crashes => Step(rest.(crashed := true), false)
  }

  function Write(d: DiskState, path: Path, content: Content): (s: Step) {
    Attempt(d, d.files[path := content])
  }

  function Remove(d: DiskState, path: Path): (s: Step) {
    Attempt(d, d.files - {path})
  }

  function Tree(id: StagingId): (paths: set<Path>) {
    {Staging(id), Manifest(id), Staged(id, RiotGames), Staged(id, RiotClient)}
  }

  function RemoveTree(d: DiskState, id: StagingId): (s: Step) {
    Attempt(d, d.files - Tree(id))
  }

  /** The disk as the program holds it. */
  class Disk {
    var files: Files
    var script: seq<Outcome>
    var crashed: bool

    function Now(): (d: DiskState)
      reads this
    {
      DiskState(files, script, crashed)
    }

    constructor (initial: Files, faults: seq<Outcome>)
      ensures Now() == DiskState(initial, faults, false)
    {
      files, script, crashed := initial, faults, false;
    }

    method Change(after: Files) returns (ok: bool)
      modifies this
      ensures Step(Now(), ok) == Attempt(old(Now()), after)
    {
      if crashed {
        return false;
      }
      var outcome := Completes;
      if script != [] {
        outcome := script[0];
        script := script[1..];
      }
      match outcome {
        case Completes => files := after;
        case Fails =>
        case Crashes => crashed := true;
      }
      ok := outcome.Completes?;
    }

    method WritePrivate(path: Path, content: Content) returns (ok: bool)
      modifies this
      ensures Step(Now(), ok) == Write(old(Now()), path, content)
    {
      ok := Change(files[path := content]);
    }

    method RemoveFile(path: Path) returns (ok: bool)
      modifies this
      ensures Step(Now(), ok) == Remove(old(Now()), path)
    {
      ok := Change(files - {path});
    }

    method RemoveDirAll(id: StagingId) returns (ok: bool)
      modifies this
      ensures Step(Now(), ok) == RemoveTree(old(Now()), id)
    {
      ok := Change(files - Tree(id));
    }
  }
}
