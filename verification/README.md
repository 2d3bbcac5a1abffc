# LAAP, verified in Dafny

LAAP lets several people share a pool of Riot accounts. A desktop application
(Rust, Tauri) swaps saved Riot logins in and out of Riot's settings files,
keeps them in a local vault and can show its user as offline on Riot's chat; an
API (TypeScript, SQLite) hands out exclusive leases on accounts. This project
models the parts of both that carry state across failures, interleavings and
time, and proves what they keep.

`dafny verify dfyconfig.toml` checks everything.

## What is modelled

**Presence** (`xml_lexer`, `presence_framing`, `xml_tree`, `presence_rewrite`,
`presence_relay`). The outbound chat stream of RFC 6120 is cut into frames as
bytes arrive, the last global presence (RFC 6121, section 4.7) is rewritten to
look offline, and replayed when the user changes the mode. The decoder is a
class over a byte buffer, the relay a class whose steps are the stretches
between two awaits, so that mode changes may fall between any two of them. The
XML reader and the tree library are stood in for by a small lexer, parser and
printer.

**Settings files** (`settings_disk`, `session_manager`, `provisioner`,
`session_recovery`, `session_safety`, `session_undo`, `session_runs`,
`sign_in`). Switching accounts and signing in overwrite two files that belong to
the user. The disk is a map changed one atomic step at a time; a script decides
which steps fail and where the launcher crashes. Two hand-written undo logs, backups with a marker
and staging directories with a manifest, are proved to bring the user's files
back; from which disks, and after which operations, is proved exactly.

**Operation locks** (`operation_lock`). A mutex, two lock files and the owned
sandbox, as a step machine over any number of processes and threads.

**Leases** (`lease_db`, `lease_services`, `lease_invariants`, `lease_outcomes`,
`lease_runs`, `lease_history`, `lease_effects`, `lease_metrics`,
`sqlite_services`). The tables are maps, the schema's constraints are
predicates, each service method is a transaction that commits or rolls back. `sqlite_services` holds the services as objects that
change shared tables statement by statement, each proved to do what its
transaction function says. The invariants are proved for every history of
requests and timer ticks.

**Vault** (`local_vault`, `local_store`, `vault_runs`, `vault_identities`,
`vault_effects`). The profiles of saved logins, with the repairs done on loading, and writes that may
fail.

**Rate limiter** (`rate_limiter`).

## What came out

- A lease older than four hours is meant to be replaced
  (`lease.service.ts:74-80`), but the reason it is given, `lease_timeout`, is
  not in the CHECK of `database.ts:73`. The statement fails, the transaction
  rolls back, and the lease stays until it is reaped or released
  (`AcquireSucceedsIff`). The reason is the only obstacle
  (`ReplacedIffReasonAllowed`). A holder who asks to release with that reason,
  which the request schema admits, fails the same way (`ReleaseSucceedsIff`).
- A crash between removing the marker and removing the owner note leaves a note
  that no later recovery removes (`OwnerNoteCanStay`); `RecoverGuards` says
  exactly when a note stays.
- Which disks the user's files can be had back from is settled exactly, for any
  number of sandboxes left behind (`SafeIff`); so is, for each operation and each
  write, on which of those it loses nothing (`SwitchIsSafeIff`,
  `CleanUpIsSafeIff`, `SignInIsSafeIff`, `RiotWriteIsSafeIff`,
  `UserWriteIsSafeIff`). The program checks none of these conditions.
- A switch takes any marker for a complete record and then skips the backups
  (`session_manager.rs:92`). A clean-up that fails, or is cut off, between two
  backups leaves a marker that is not one, and the next switch loses a file for
  good (`SwitchBeforeRecoveryLoses`, `IncompleteSwitchIsForGood`).
- A sign-in whose preparation and whose own undoing both fail leaves a sandbox
  that nobody owns and nothing guards. Beside it a clean-up can throw away the
  records that were right (`CleanUpLoses`), and a second sign-in can stage what
  the first one left: a recovery that meets the second sandbox last then loses a
  file (`SignInLoses`, `SecondSignInLoses`). A second sign-in that finds the
  settings files as the first one found them loses nothing.
- Completing a sign-in with neither a profile nor details, once there is a login
  to capture, restores the user's files but keeps the sandbox reserved until it
  is cancelled (`SignIn.Commands.Complete`).
- A poll of one's own sandbox at the wrong moment makes `acquire` refuse its
  owner (`WhoIsRefused`).
- The identity backfill of the vault compares nothing: an old vault with two
  records of one login becomes one with two profiles of one account
  (`BackfillIsDistinctIff`, `LegacyVaultCanHoldTwins`).
- A vault with records of which none can be read is set aside anew on every load
  (`UnreadableVaultIsSetAsideAgain`); every other vault is settled by one load
  (`LoadIsIdempotentIff`).
- Releasing a session does not look at its status: releasing an ended one notes a
  new time and reason and logs a second end (`EndedRowsChangeOnlyByRelease`).
- The limiter's bound over a sliding window is one less than twice the limit,
  and no better (`FewerThanTwiceTheLimit`, `TwiceTheLimitLessOne`).

## Model

| member | source | states |
|---|---|---|
| `XmlLexer.LexStable` | apps/desktop/src-tauri/src/presence_protocol.rs:36-70 | an event of the chat stream, once complete, is not changed by bytes that arrive later, unless it is text still open at the end |
| `XmlLexer.LexCut` | apps/desktop/src-tauri/src/presence_protocol.rs:65-67 | cutting the input anywhere behind an event leaves the event as it was |
| `XmlLexer.TagEndStable` | apps/desktop/src-tauri/src/presence_protocol.rs:72-86 | the end of a tag, found outside quotes, does not depend on what follows it |
| `XmlLexer.TagEndIff` | apps/desktop/src-tauri/src/presence_protocol.rs:72-86 | a tag ends at a `>` before which every quote that opens is closed by its like and no other `>` stands outside quotes |
| `XmlLexer.FindEndIff` | apps/desktop/src-tauri/src/presence_protocol.rs:53-56 | a comment or processing instruction ends at the first place where its end stands |
| `XmlLexer.DoctypeAnyCase` | apps/desktop/src-tauri/src/presence_protocol.rs:58-60 | a document type is recognized in any letter case |
| `PresenceFraming.FindTagEnd` | apps/desktop/src-tauri/src/presence_protocol.rs:72-86 | the byte loop with its quote variable finds exactly the first `>` outside quotes |
| `PresenceFraming.ReadElement` | apps/desktop/src-tauri/src/presence_protocol.rs:34-69 | the event loop ends where the first element, or other top-level event, is complete, or in the error that comes first |
| `PresenceFraming.Frames.Push` | apps/desktop/src-tauri/src/presence_protocol.rs:11-17 | bytes are appended if and only if the buffer stays within 256 KiB; otherwise nothing changes |
| `PresenceFraming.Frames.Pending` | apps/desktop/src-tauri/src/presence_protocol.rs:18-20 | bytes are pending if and only if the buffer is not empty |
| `PresenceFraming.Frames.Next` | apps/desktop/src-tauri/src/presence_protocol.rs:21-70 | one call draws exactly the first frame off the buffer, or leaves the buffer alone |
| `PresenceFraming.FirstFrameStable` | apps/desktop/src-tauri/src/presence_protocol.rs:21-70 | a frame or an error is settled by the bytes that made it; only text open at the end of the buffer can still grow |
| `PresenceFraming.FrameAlone` | apps/desktop/src-tauri/src/presence_protocol.rs:65-67 | a frame framed again on its own is itself |
| `PresenceFraming.StanzaIsMinimal` | apps/desktop/src-tauri/src/presence_protocol.rs:43-67 | no proper prefix of a stanza is a frame or an error: stanzas end at the first place where they can |
| `PresenceFraming.StreamTagsStandAlone` | apps/desktop/src-tauri/src/presence_protocol.rs:25-33 | the two tags of the stream root are frames of their own and end where their tag does |
| `PresenceFraming.ErrorsTell` | apps/desktop/src-tauri/src/presence_protocol.rs:43-64 | an error names the event at fault: a tag that opens a sixty-fifth element, a closing tag with nothing open or another name than what is open, or a document type |
| `PresenceFraming.DrainConserves` | apps/desktop/src-tauri/src/presence_protocol.rs:11-70 | frames drawn, in order, followed by the rest of the buffer are the bytes pushed |
| `PresenceFraming.DrainYieldsFrames` | apps/desktop/src-tauri/src/presence_protocol.rs:21-70 | whatever is drawn is a non-empty frame of its own, and draining again yields nothing |
| `PresenceFraming.FeedIsDrain` | apps/desktop/src-tauri/src/presence_protocol.rs:11-70 | pushing in pieces, drained after each, agrees with draining the whole stream once |
| `PresenceFraming.ChunkingDoesNotMatter` | apps/desktop/src-tauri/src/presence_protocol.rs:11-70 | two ways of cutting one stream into accepted pushes give the same non-text frames, the same text once neighbours are joined, and the same error or pending bytes |
| `XmlTree.ParsePrinted` | apps/desktop/src-tauri/src/presence_protocol.rs:112-131 | a sequence of sound trees prints to bytes that read back as the same trees |
| `XmlTree.ScanOne` | apps/desktop/src-tauri/src/presence_protocol.rs:34-69 | a printed element is one complete frame for the framer |
| `XmlTree.FrameIsOneElement` | apps/desktop/src-tauri/src/presence_protocol.rs:112-113 | a stanza frame with valid tags reads as exactly one element |
| `XmlTree.ParsedIsSound` | apps/desktop/src-tauri/src/presence_protocol.rs:112-113 | what is read from a frame is a sound tree no deeper than the framer admits |
| `XmlTree.WrittenReads` | apps/desktop/src-tauri/src/presence_protocol.rs:97-98 | an attribute written as a key, `=` and a quoted value, with any space around the `=`, is read as that key and value |
| `XmlTree.ReadWasWritten` | apps/desktop/src-tauri/src/presence_protocol.rs:97-98 | whatever is read as an attribute was written like that |
| `PresenceRewrite.InspectPresence` | apps/desktop/src-tauri/src/presence_protocol.rs:87-107 | the attribute loop decides what `GlobalPresenceIff` says of the frame |
| `PresenceRewrite.GlobalPresenceIff` | apps/desktop/src-tauri/src/presence_protocol.rs:87-107 | a frame is a global presence if and only if it begins with a `presence` tag whose attributes can all be read and none of which is a `to` with a value; a `to` with a value in front of whatever cannot be read makes it a directed one; malformed or repeated attributes are an error otherwise |
| `PresenceRewrite.EditOffline` | apps/desktop/src-tauri/src/presence_protocol.rs:114-125 | the in-place edit computes the offline tree of the specification |
| `PresenceRewrite.FindChild` | apps/desktop/src-tauri/src/presence_protocol.rs:116-119 | the first child of a given local name |
| `PresenceRewrite.RewriteFrame` | apps/desktop/src-tauri/src/presence_protocol.rs:108-133 | online and non-global frames are returned untouched, global ones edited and printed, errors reported |
| `PresenceRewrite.OfflineHidesActivity` | apps/desktop/src-tauri/src/presence_protocol.rs:114-125 | after the edit there is no `status`, the first `games` is empty and the first `show` says offline |
| `PresenceRewrite.OfflineKeepsTheRest` | apps/desktop/src-tauri/src/presence_protocol.rs:114-125 | every other child is kept, unchanged and in order |
| `PresenceRewrite.OfflineIsFixed` | apps/desktop/src-tauri/src/presence_protocol.rs:114-125 | editing an edited tree changes nothing |
| `PresenceRewrite.OfflineChildrenAre` | apps/desktop/src-tauri/src/presence_protocol.rs:114-125 | child by child: those that are no `status` stay where they are with name and attributes, the first `games` loses its content, the first `show` says offline, and where there is none one is added at the end |
| `PresenceRewrite.WithoutStatusCat` | apps/desktop/src-tauri/src/presence_protocol.rs:114-115 | dropping `status` keeps or drops each child by itself, in order |
| `PresenceRewrite.LocalNameIs` | apps/desktop/src-tauri/src/presence_protocol.rs:114-119 | children are told apart by their name without its namespace prefix |
| `PresenceRewrite.RewriteLeavesAlone` | apps/desktop/src-tauri/src/presence_protocol.rs:108-111 | staying online, or for a frame that is no global presence, nothing is rewritten; a frame that cannot be inspected or parsed is an error |
| `PresenceRewrite.RewrittenPresence` | apps/desktop/src-tauri/src/presence_protocol.rs:108-133 | the rewrite of a complete global presence prints to exactly one complete frame that reads back as the edited tree, is a global presence again, and is not changed by a second rewrite; name and attributes of the element are kept |
| `PresenceRewrite.RewrittenIffTagsValid` | apps/desktop/src-tauri/src/presence_protocol.rs:108-133 | a complete global presence is always one element, and is rewritten if and only if its names and attributes are valid |
| `PresenceRewrite.StatusGivesWayToShow` | apps/desktop/src-tauri/src/presence_protocol.rs:108-133 | an instance: a presence with only a status becomes one with only `show` |
| `PresenceRelay.Relay.ChangeMode` | apps/desktop/src-tauri/src/presence_proxy.rs:75-81 | setting the mode marks it as unseen, whatever the relay is doing |
| `PresenceRelay.Relay.Notice` | apps/desktop/src-tauri/src/presence_proxy.rs:514-518 | a noticed change is marked as seen and starts a replay if there is an original |
| `PresenceRelay.Relay.Receive` | apps/desktop/src-tauri/src/presence_proxy.rs:524-533 | a chunk read is buffered, or breaks the relay if it is too large |
| `PresenceRelay.Relay.DrawFrame` | apps/desktop/src-tauri/src/presence_proxy.rs:534-536 | the next frame is drawn, inspected, and the mode for it read |
| `PresenceRelay.Relay.SendForward` | apps/desktop/src-tauri/src/presence_proxy.rs:537-540 | a frame is forwarded as it is or rewritten; a global one becomes the original and its mode is reported applied |
| `PresenceRelay.Relay.SendReplay` | apps/desktop/src-tauri/src/presence_proxy.rs:516-521 | the original is sent again under the mode read for it |
| `PresenceRelay.Relay.Close` | apps/desktop/src-tauri/src/presence_proxy.rs:532 | the end of the stream is an error exactly if bytes are pending |
| `PresenceRelay.Relay.Serve` | apps/desktop/src-tauri/src/presence_proxy.rs:502-545 | the loop over a whole connection is the run of the step machine |
| `PresenceRelay.AlwaysConsistent` | apps/desktop/src-tauri/src/presence_proxy.rs:511-544 | after any interleaving of reads, mode changes and steps: every write is faithful to its frame and mode, and an unseen change is the only reason why the wire may lag behind the mode |
| `PresenceRelay.SettlesOnTheMode` | apps/desktop/src-tauri/src/presence_proxy.rs:514-541 | waiting with no change unseen, the last presence on the wire is the last original under the current mode and that mode is reported applied; on Online it has the original bytes |
| `PresenceRelay.ModeIsTheLastChosen` | apps/desktop/src-tauri/src/presence_proxy.rs:502-541 | that mode is the one chosen last |
| `PresenceRelay.OriginalIsRemembered` | apps/desktop/src-tauri/src/presence_proxy.rs:539 | that original is the last global presence forwarded |
| `PresenceRelay.ChangeIsAnswered` | apps/desktop/src-tauri/src/presence_proxy.rs:512-520 | a change noticed while waiting sends the remembered presence again under the mode of now, or reports why it cannot, and the relay waits again |
| `PresenceRelay.DrainsToRest` | apps/desktop/src-tauri/src/presence_proxy.rs:532-540 | after reading, the relay comes to rest by itself: the frames in the buffer are written in order under the mode of now, the last global one is remembered, and it waits with what is no frame yet, or is broken by the first error there is |
| `PresenceRelay.ReadIsDelivered` | apps/desktop/src-tauri/src/presence_proxy.rs:521-540 | whatever is read while waiting is delivered like that, unless it outgrows the buffer, which ends the connection |
| `PresenceRelay.EndOfStreamTells` | apps/desktop/src-tauri/src/presence_proxy.rs:530 | the end of the stream is clean if and only if everything read has been forwarded, and a partial stanza otherwise |
| `PresenceRelay.ForwardsConserve` | apps/desktop/src-tauri/src/presence_proxy.rs:524-542 | frames forwarded, the frame on its way and the buffer are together the bytes received |
| `PresenceRelay.ForwardsArePerFrame` | apps/desktop/src-tauri/src/presence_proxy.rs:534-541 | without its replays the relay is a map over frames: the k-th write is the k-th frame drawn, unchanged or rewritten under the mode at the moment it was drawn |
| `PresenceRelay.ForwardsTheStream` | apps/desktop/src-tauri/src/presence_proxy.rs:502-545 | whenever the relay waits, it has forwarded the frames of everything received, however the socket cut it up |
| `PresenceRelay.OutputReframes` | apps/desktop/src-tauri/src/presence_proxy.rs:514-541 | replays fall between frames only: framing the output gives back exactly the writes |
| `PresenceRelay.OnlineCopies` | apps/desktop/src-tauri/src/presence_proxy.rs:534-541 | a run that stays online copies its input byte for byte |
| `SettingsDisk.Attempt` | apps/desktop/src-tauri/src/riot/session_manager.rs:206-249 | an atomic step either happens completely or not at all, and nothing happens after a crash |
| `SettingsDisk.Disk.Change` | apps/desktop/src-tauri/src/riot/session_manager.rs:206-249 | the disk object takes exactly one such step |
| `SessionManager.Manager.Inject` | apps/desktop/src-tauri/src/riot/session_manager.rs:88-123 | the two loops and the marker in between do the steps of the specification, stopping or undoing where a step fails |
| `SessionManager.Manager.Restore` | apps/desktop/src-tauri/src/riot/session_manager.rs:131-168 | originals are written or removed first, then backups, marker and owner note are removed |
| `SessionManager.Manager.Switch` | apps/desktop/src-tauri/src/commands/session.rs:381-404 | inject, note the owner, launch; undone if a later part fails |
| `SessionManager.GuardGuards` | apps/desktop/src-tauri/src/riot/session_manager.rs:91-115 | where a switch may run, backing up, cut off anywhere, leaves every file noted by a backup or the marker, or where it was; completed, every file is noted |
| `SessionManager.InjectGuards` | apps/desktop/src-tauri/src/riot/session_manager.rs:88-123 | from there an injection cut off or failing anywhere loses nothing; completed, both files hold the session and the user's are noted |
| `SessionManager.SwitchGuards` | apps/desktop/src-tauri/src/commands/session.rs:381-404 | the same for the whole switch, including its own undoing |
| `SessionManager.InjectIsSafeIff` | apps/desktop/src-tauri/src/riot/session_manager.rs:88-123 | with no sandbox left behind, an injection is safe, whatever the disk does to it, if and only if a marker, which makes it skip the backups, notes every file together with them, or, without a marker, no backup is of a file that is gone |
| `SessionManager.RestoreManagedGuards` | apps/desktop/src-tauri/src/riot/session_manager.rs:131-168 | a restore cut off anywhere can be repeated; completed, both files are the user's and nothing managed is left |
| `Provisioner.Sandbox.PrepareStaging` | apps/desktop/src-tauri/src/riot/provisioner.rs:37-72 | the staging directory is complete with its manifest or removed again |
| `Provisioner.Sandbox.PrepareForProvisioning` | apps/desktop/src-tauri/src/riot/provisioner.rs:31-80 | a second sandbox is refused; otherwise the settings files are staged away |
| `Provisioner.Sandbox.PollCapturedSession` | apps/desktop/src-tauri/src/riot/provisioner.rs:81-94 | a login is captured only from an open sandbox, and only a reusable one |
| `Provisioner.Sandbox.FinishAndRestore` | apps/desktop/src-tauri/src/riot/provisioner.rs:98-109 | the staged files come back, then the staging directory goes; on failure the sandbox stays owned |
| `Provisioner.Sandbox.RestoreFrom` | apps/desktop/src-tauri/src/riot/provisioner.rs:110-130 | the restore loop follows the manifest entry by entry |
| `Provisioner.Sandbox.RecoverOrphaned` | apps/desktop/src-tauri/src/riot/session_manager.rs:173-189 | recovery restores abandoned sandboxes first and the managed session second |
| `Provisioner.PrepareGuards` | apps/desktop/src-tauri/src/riot/provisioner.rs:31-80 | where a sign-in may run, opening a sandbox, cut off or failing anywhere, loses nothing, also on top of a managed session and beside other sandboxes |
| `Provisioner.FinishGuards` | apps/desktop/src-tauri/src/riot/provisioner.rs:98-130 | ending a sandbox, cut off anywhere, can be repeated and loses nothing, also beside others; completed, the settings files are those it found |
| `SessionRecovery.RecoverEnds` | apps/desktop/src-tauri/src/riot/session_manager.rs:173-189 | what a completed recovery makes of each settings file, from any disk: its backup, else nothing if the marker lists it, else what the sandbox listed last had found, else what was there |
| `SessionRecovery.RecoverCompletesIff` | apps/desktop/src-tauri/src/riot/provisioner.rs:131-162 | left alone, recovery completes if and only if every manifest is followed by its staged files and the marker can be read |
| `SessionRecovery.SafeIff` | apps/desktop/src-tauri/src/riot/session_manager.rs:173-189 | the user's files can be had back, by every recovery in every directory order after any recoveries cut off anywhere, if and only if the disk says so: readable manifests and marker, right backups and marker entries, and what neither speaks of staged as the user's in every sandbox or, without one, still there |
| `SessionRecovery.OwnIsDetermined` | apps/desktop/src-tauri/src/riot/session_manager.rs:173-189 | what the user's files are can be told from such a disk alone |
| `SessionSafety.SwitchIsSafeIff` | apps/desktop/src-tauri/src/commands/session.rs:381-404 | over all such disks, for a login other than what the user's files hold: after a switch, whatever the disk does to it, the user's files can still be had back if and only if the bookkeeping allows it: without a sandbox left behind, as for an injection; beside sandboxes, marker, backups and, without a marker, the settings files agree with each |
| `SessionSafety.CleanUpIsSafeIff` | apps/desktop/src-tauri/src/riot/session_manager.rs:124-168 | the same for a clean-up: if and only if marker and backups agree with every sandbox left behind |
| `SessionSafety.CleanUpLoses` | apps/desktop/src-tauri/src/riot/session_manager.rs:124-168 | where they disagree, an undisturbed clean-up followed by an undisturbed recovery that meets the disagreeing sandbox last does not give the user's files back |
| `SessionSafety.SignInIsSafeIff` | apps/desktop/src-tauri/src/commands/session.rs:186-217 | the same for a sign-in, a second one too: if and only if each settings file is noted by a backup or the marker, or is as every sandbox left behind found it |
| `SessionSafety.SignInLoses` | apps/desktop/src-tauri/src/commands/session.rs:186-217 | where one is not, an undisturbed sign-in followed by an undisturbed recovery that meets the new sandbox last ends with the file that was not the user's |
| `SessionSafety.RiotWriteIsSafeIff` | apps/desktop/src-tauri/src/riot/session_manager.rs:131-168 | whatever Riot writes to a settings file, the user's can be had back if and only if it is noted or a sandbox is left behind |
| `SessionSafety.UserWriteIsSafeIff` | apps/desktop/src-tauri/src/riot/session_manager.rs:131-168 | whatever the user writes to a settings file is what recovery keeps if and only if nothing is noted of it and no sandbox is left behind |
| `SessionRecovery.RecoverAbandonedGuards` | apps/desktop/src-tauri/src/riot/provisioner.rs:131-162 | recovering abandoned sandboxes in any directory order, cut off anywhere, leaves something recovery can go on with |
| `SessionRecovery.RecoverGuards` | apps/desktop/src-tauri/src/riot/session_manager.rs:173-189 | a completed recovery puts back exactly the user's files and leaves no marker, backup or staging; the owner note stays if and only if no session was left to restore |
| `SessionRuns.RunsAreRecoverable` | apps/desktop/src-tauri/src/riot/session_manager.rs:88-189 | every history of switches, sign-ins and clean-ups, tried again after they failed and beside what they left, of Riot's and the user's writes, crashes at any step and interrupted recoveries keeps the user's files safe |
| `SessionRuns.EveryRunRecovers` | apps/desktop/src-tauri/src/riot/session_manager.rs:173-189 | after any such history every recovery that is allowed to finish, also after others that were not, restores exactly the user's files, or their absence |
| `SessionRuns.RecoveryRestarts` | apps/desktop/src-tauri/src/riot/session_manager.rs:131-189 | recoveries cut off any number of times and then completed give the files of one uninterrupted recovery |
| `SessionRecovery.RestoredIsUnique` | apps/desktop/src-tauri/src/riot/session_manager.rs:131-168 | what a completed recovery leaves is determined by the user's files alone, the owner note aside |
| `SessionRuns.CompletedIsCalm` | apps/desktop/src-tauri/src/riot/session_manager.rs:88-189 | an operation that reports success leaves nothing in the way of the next, but what it found there |
| `SessionRuns.IncompleteSwitchIsForGood` | apps/desktop/src-tauri/src/riot/session_manager.rs:92 | for every disk without sandboxes on which an incomplete marker forbids a switch: running it loses a file that no recovery brings back |
| `SessionRuns.SwitchBeforeRecoveryLoses` | apps/desktop/src-tauri/src/riot/session_manager.rs:92 | an instance: a clean-up that fails, or is cut off, between two backups, then a switch |
| `SessionRuns.SecondSignInLoses` | apps/desktop/src-tauri/src/commands/session.rs:186-217 | an instance: a sign-in that fails at the second settings file and again while undoing itself, a second sign-in, a crash, and a recovery that meets the second sandbox last: the first file is gone, although before the second sign-in it could be had back |
| `SessionRuns.OwnerNoteCanStay` | apps/desktop/src-tauri/src/riot/session_manager.rs:160-166 | a crash between removing the marker and removing the owner note leaves a note that no recovery removes |
| `SessionUndo.FailedInjectionIsUndone` | apps/desktop/src-tauri/src/riot/session_manager.rs:116-121 | an injection that fails at one step, whichever it is, and is not cut off leaves the user's own files |
| `SessionUndo.FailedSwitchIsUndone` | apps/desktop/src-tauri/src/commands/session.rs:381-404 | a switch succeeds if and only if no step fails and Riot can be launched, and then both files hold the login and the note its owner; one that fails once, at a step or at the launch, leaves the user's own files |
| `SessionUndo.FailedSignInIsUndone` | apps/desktop/src-tauri/src/commands/session.rs:186-217 | a sign-in succeeds if and only if no step fails and Riot can be launched; one that could not be prepared or launched leaves the disk as it was, to the last file, and no sandbox owned, unless a step of the undoing fails too; only a failed launch whose undoing failed leaves one owned |
| `SignIn.Commands.Start` | apps/desktop/src-tauri/src/commands/session.rs:185-219 | one sandbox at a time; what could not be prepared or launched is finished at once, with the outcome `FailedSignInIsUndone` describes |
| `SignIn.Commands.EndSession` | apps/desktop/src-tauri/src/commands/session.rs:269-277 | ending needs the right ticket; another's ends nothing, and a failed restore keeps the sandbox |
| `SignIn.Commands.Complete` | apps/desktop/src-tauri/src/commands/session.rs:327-355 | the vault changes only after the user's files are back, and only by the captured login; called with neither a profile nor details, and a login to capture, it restores the files and keeps the finished sandbox reserved |
| `SignIn.StoredShows` | apps/desktop/src-tauri/src/commands/session.rs:327-355 | a capture that was stored is the login of the profile it was for, or of a new profile, and changes no other profile |
| `OperationLock.Locks.Acquire` | apps/desktop/src-tauri/src/riot/operation.rs:32-51 | one call ends holding the mutex and the operation file, or nothing, and says which |
| `OperationLock.Locks.OwnsProvisioning` | apps/desktop/src-tauri/src/commands/session.rs:16-25 | a contended provisioner reads as no sandbox |
| `OperationLock.Locks.ReserveSignin` | apps/desktop/src-tauri/src/riot/operation.rs:29-31 | the sign-in file is taken if and only if nobody holds it |
| `OperationLock.RunsStayConsistent` | apps/desktop/src-tauri/src/riot/operation.rs:32-51 | over any interleaving of threads of any number of processes, with panics and crashes, each lock is held exactly by the thread or sandbox whose position says so |
| `OperationLock.GuardIsExclusive` | apps/desktop/src-tauri/src/riot/operation.rs:32-51 | at most one thread of all processes holds the guard; while it does no other process owns a sandbox; there is at most one sandbox; after the idle check there is none |
| `OperationLock.AcquireIsAllOrNothing` | apps/desktop/src-tauri/src/riot/operation.rs:32-51 | the steps of an undisturbed `acquire` compose to the whole call, which succeeds exactly when the locks are free or the sandbox is the caller's own |
| `OperationLock.WhoIsRefused` | apps/desktop/src-tauri/src/riot/operation.rs:44-46 | with nobody operating Riot, exactly a foreign sandbox, or the caller's own while it is being polled, refuses `acquire` |
| `OperationLock.NoLockLeaks` | apps/desktop/src-tauri/src/riot/operation.rs:32-51 | with every thread at rest and no sandbox open, `acquire` succeeds, whatever happened before |
| `OperationLock.CrashFreesEverything` | apps/desktop/src-tauri/src/riot/operation.rs:24-27 | after the only busy process dies, any process can acquire |
| `OperationLock.GuardOpens` | apps/desktop/src-tauri/src/commands/session.rs:186-217 | under the guard, with no sandbox open, a sign-in can always open one, and leaves the locks as they were if it cannot be prepared or launched; another operation finds itself alone |
| `OperationLock.GuardEnds` | apps/desktop/src-tauri/src/commands/session.rs:269-277 | a sandbox of one's own can be ended under the guard, which frees the sign-in file; until then no second one opens and no other operation goes on |
| `OperationLock.GuardReturns` | apps/desktop/src-tauri/src/riot/operation.rs:6-9 | giving the guard back frees both locks and leaves the sandbox, which lets its own process in again unless a poll looks at it |
| `LeaseDb.LiveOn` | apps/api/src/db/database.ts:88-90 | the session the exclusive index lets an account have at most one of |
| `LeaseDb.Transact` | apps/api/src/db/database.ts:156-180 | a callback that throws leaves the tables as they were |
| `LeaseDb.EndEachIs` | apps/api/src/services/sqlite/lease.service.ts:22-31 | ending rows one by one touches exactly those rows and logs each of them once |
| `LeaseServices.EndEachShrinks` | apps/api/src/services/sqlite/lease.service.ts:22-31 | wherever such a loop stops, it only ended sessions and only added entries |
| `LeaseInvariants.ReapSound` | apps/api/src/services/sqlite/lease.service.ts:14-32 | reaping ends exactly the stale sessions and keeps the database sound |
| `LeaseInvariants.AcquireSucceedsIff` | apps/api/src/services/sqlite/lease.service.ts:34-101 | a lease is granted exactly when the caller may have it and the account is free, or held by the caller on the same device within four hours; every refusal leaves the tables as they were; the exclusive index never fires; a lease past four hours always fails on the CHECK |
| `LeaseInvariants.ReplacedIffReasonAllowed` | apps/api/src/services/sqlite/lease.service.ts:74-80 | a lease past four hours would be replaced if and only if its noted reason passed the CHECK |
| `LeaseInvariants.ReleaseSound` | apps/api/src/services/sqlite/lease.service.ts:103-123 | releasing keeps the database sound |
| `LeaseInvariants.HeartbeatSound` | apps/api/src/services/sqlite/lease.service.ts:125-165 | a heartbeat keeps the database sound |
| `LeaseInvariants.ForceReleaseSound` | apps/api/src/services/sqlite/lease.service.ts:167-184 | a forced release keeps the database sound |
| `LeaseInvariants.AddAssignmentSound` | apps/api/src/services/sqlite/admin.service.ts:86-116 | assigning keeps the database sound |
| `LeaseInvariants.RevokeAssignmentSound` | apps/api/src/services/sqlite/admin.service.ts:118-133 | revoking an assignment keeps the database sound |
| `LeaseInvariants.CreateAccountSound` | apps/api/src/services/sqlite/account.service.ts:58-80 | creating an account keeps the database sound |
| `LeaseInvariants.UpdateAccountSound` | apps/api/src/services/sqlite/account.service.ts:82-117 | editing an account keeps the database sound |
| `LeaseInvariants.DeleteAccountSound` | apps/api/src/services/sqlite/account.service.ts:119-135 | deleting an account, with the rows that cascade, keeps the database sound |
| `LeaseInvariants.RegisterDeviceSound` | apps/api/src/services/sqlite/device.service.ts:33-59 | registering a device keeps the database sound |
| `LeaseInvariants.RevokeDeviceSound` | apps/api/src/services/sqlite/device.service.ts:61-74 | revoking a device, whose leases are without it in between, keeps the database sound |
| `LeaseInvariants.ApproveDeviceSound` | apps/api/src/services/sqlite/device.service.ts:76-84 | approving a device keeps the database sound |
| `LeaseInvariants.CreateUserSound` | apps/api/src/services/sqlite/auth.service.ts:56-66 | creating a user keeps the database sound |
| `LeaseInvariants.UpdateUserSound` | apps/api/src/services/sqlite/auth.service.ts:75-112 | editing a user keeps the database sound, with an active admin left |
| `LeaseOutcomes.HeartbeatBuysTime` | apps/api/src/services/sqlite/lease.service.ts:125-165 | a heartbeat buys exactly two minutes, or five while Riot reconnects; without authorization, or when Riot exited, it ends the lease |
| `LeaseOutcomes.AssignmentAuthorizes` | apps/api/src/services/sqlite/admin.service.ts:86-116 | exactly when assigning succeeds, and that it authorizes exactly until it expires |
| `LeaseOutcomes.RevocationShutsOut` | apps/api/src/services/sqlite/admin.service.ts:118-133 | after revoking there is no valid assignment at any time and exactly that user's lease on the account is ended |
| `LeaseOutcomes.RevokedDeviceHoldsNothing` | apps/api/src/services/sqlite/device.service.ts:61-74 | exactly the leases on the device end |
| `LeaseOutcomes.DeactivationEndsLeases` | apps/api/src/services/sqlite/auth.service.ts:75-112 | exactly the user's leases end; neither oneself nor the only active admin can be taken out |
| `LeaseOutcomes.LeavingServiceWaits` | apps/api/src/services/sqlite/account.service.ts:82-117 | an account leaves service only while nobody is on it, and its identifier stays unique |
| `LeaseHistory.RequestsEndWhatTheyMean` | apps/api/src/services/sqlite/lease.service.ts:14-184 | every request of every service ends exactly the leases it is meant to end if it is accepted and none if it is refused, changes no other session row, and starts at most the one it asks for |
| `LeaseHistory.EndedRowsChangeOnlyByRelease` | apps/api/src/services/sqlite/lease.service.ts:103-123 | how an ended session ended changes only when it is released once more, to the new time and reason |
| `LeaseEffects.AcceptedRequestsFollow` | apps/api/src/services/sqlite/lease.service.ts:14-184 | every accepted request, of all fifteen, leaves every table and the log as it means to, column by column: new rows hold what was given, edits write the columns given and keep the others, ended sessions say who ended them why and when, and each change is logged once under its author |
| `LeaseEffects.RefusalsAreTrue` | apps/api/src/services/sqlite/lease.service.ts:34-184 | a refused request changes nothing, and the error it is refused with is borne out by the tables: each of its errors means one thing |
| `LeaseEffects.GrantedLeaseShows` | apps/api/src/services/sqlite/lease.service.ts:75-101 | a granted lease is the caller's, found again unchanged within four hours or new, active and launching; a new one goes stale exactly two minutes after it was granted unless it is heard from |
| `LeaseEffects.InactiveUsersHoldNothing` | apps/api/src/services/sqlite/auth.service.ts:88-108 | whoever an edit takes out of service holds no lease; an edit that does not ends none |
| `LeaseHistory.RightsFollowTheHistory` | apps/api/src/services/sqlite/admin.service.ts:86-133 | after any history a user may lease an account if and only if the last accepted request about the two was an assignment not yet expired; revoking it and deleting the account take the right away |
| `LeaseHistory.InstalledRightsFollowTheHistory` | apps/api/src/services/sqlite/admin.service.ts:86-133 | the same from installation on, where nobody has a right that was not given |
| `LeaseHistory.RunOutRightEndsTheLease` | apps/api/src/services/sqlite/lease.service.ts:14-32 | an operator whose assignment ran out and is not given again loses the lease to the first reaping, by the timer or by a lease granted to anyone, five minutes later, for good |
| `LeaseRuns.ReachableStatesAreSound` | apps/api/src/db/database.ts:9-92 | in every state reachable from installation the schema holds, each account has at most one live session, leases are on available accounts and on active devices of their holder, ended sessions say when and why, an active admin remains, and replaying the log gives the lease table |
| `LeaseRuns.RunsStayGood` | apps/api/src/services/sqlite/lease.service.ts:14-184 | the same from any sound state, for every history; the log only grows |
| `LeaseRuns.StepEvolves` | apps/api/src/services/sqlite/lease.service.ts:34-165 | one transaction may only end sessions, refresh one whose holder is authorized, or start one for an authorized caller |
| `LeaseRuns.EndedStaysEnded` | apps/api/src/services/sqlite/lease.service.ts:14-184 | a session that ended is never live again |
| `LeaseRuns.TenureIsPersonal` | apps/api/src/services/sqlite/lease.service.ts:69-98 | a session never changes hands and its start is never moved |
| `LeaseRuns.UnauthorizedIsNeverRefreshed` | apps/api/src/services/sqlite/lease.service.ts:133-146 | while its holder has no right to the account, no heartbeat refreshes a lease |
| `LeaseRuns.TenureIsBounded` | apps/api/src/services/sqlite/lease.service.ts:14-32 | a holder without authorization from time t on has no lease after any reaping, by the timer or by a lease granted to anyone, at t plus five minutes or later, nor ever again in that session |
| `LeaseRuns.ReapingLeavesTheRecent` | apps/api/src/services/sqlite/lease.service.ts:14-20 | after reaping every live session was heard from within five minutes |
| `LeaseMetrics.AccountsAreConserved` | apps/api/src/services/sqlite/admin.service.ts:154-164 | available accounts plus active leases are the accounts whose status is available |
| `LeaseMetrics.EveryAccountOnce` | apps/api/src/services/sqlite/account.service.ts:17-28 | the left join lists every account exactly once |
| `LeaseMetrics.LabelsMatchTheMetrics` | apps/api/src/services/sqlite/account.service.ts:32-40 | as many rows say Leased and Available as the counters count, and as many say Maintenance and Disabled as there are accounts of that status |
| `SqliteServices.AppDatabase.Select` | apps/api/src/services/sqlite/lease.service.ts:17-20 | a query returns each match once, in no promised order |
| `SqliteServices.AppDatabase.Log` | apps/api/src/services/sqlite/admin.service.ts:20-33 | an entry is appended, or the foreign key refuses it |
| `SqliteServices.AppDatabase.EndSessions` | apps/api/src/services/sqlite/lease.service.ts:22-28 | the loop over sessions does what the specification does |
| `SqliteServices.LeaseService.ReapStaleSessions` | apps/api/src/services/sqlite/lease.service.ts:14-32 | the method does what the transaction function says |
| `SqliteServices.LeaseService.Acquire` | apps/api/src/services/sqlite/lease.service.ts:34-101 | the same, with rollback |
| `SqliteServices.LeaseService.Release` | apps/api/src/services/sqlite/lease.service.ts:103-123 | the same |
| `SqliteServices.LeaseService.Heartbeat` | apps/api/src/services/sqlite/lease.service.ts:125-165 | the same |
| `SqliteServices.LeaseService.ForceRelease` | apps/api/src/services/sqlite/lease.service.ts:167-184 | the same |
| `SqliteServices.AdminService.Assign` | apps/api/src/services/sqlite/admin.service.ts:86-116 | the same |
| `SqliteServices.AdminService.Unassign` | apps/api/src/services/sqlite/admin.service.ts:118-133 | the same |
| `SqliteServices.AccountService.Create` | apps/api/src/services/sqlite/account.service.ts:58-80 | the same |
| `SqliteServices.AccountService.Update` | apps/api/src/services/sqlite/account.service.ts:82-117 | the same |
| `SqliteServices.AccountService.Delete` | apps/api/src/services/sqlite/account.service.ts:119-135 | the same |
| `SqliteServices.DeviceService.Register` | apps/api/src/services/sqlite/device.service.ts:33-59 | the same |
| `SqliteServices.DeviceService.Revoke` | apps/api/src/services/sqlite/device.service.ts:61-74 | the same |
| `SqliteServices.DeviceService.Approve` | apps/api/src/services/sqlite/device.service.ts:76-84 | the same |
| `SqliteServices.AuthService.Create` | apps/api/src/services/sqlite/auth.service.ts:56-66 | the same |
| `SqliteServices.AuthService.Update` | apps/api/src/services/sqlite/auth.service.ts:75-112 | the same |
| `LocalStoreObject.Find` | apps/desktop/src-tauri/src/local_store/manager.rs:151-154 | the first profile of that identifier |
| `LocalStoreObject.Retain` | apps/desktop/src-tauri/src/local_store/manager.rs:194 | all profiles but those of that identifier, in order |
| `LocalStoreObject.LocalStore.Save` | apps/desktop/src-tauri/src/local_store/storage.rs:164-176 | the vault is replaced completely or not at all |
| `LocalStoreObject.LocalStore.Load` | apps/desktop/src-tauri/src/local_store/storage.rs:106-163 | the record loop completes identities, sets unreadable records aside and writes the vault back if anything changed |
| `LocalStoreObject.LocalStore.CreateProfile` | apps/desktop/src-tauri/src/local_store/manager.rs:108-147 | the method does what the specification says, including its refusals |
| `LocalStoreObject.LocalStore.EditProfile` | apps/desktop/src-tauri/src/local_store/manager.rs:148-177 | the same; the field-by-field edit is the edit function |
| `LocalStoreObject.LocalStore.RefreshSession` | apps/desktop/src-tauri/src/local_store/manager.rs:178-190 | the same |
| `LocalStoreObject.LocalStore.DeleteAccount` | apps/desktop/src-tauri/src/local_store/manager.rs:191-200 | the same |
| `LocalStoreObject.LocalStore.ApplySync` | apps/desktop/src-tauri/src/local_store/manager.rs:202-235 | the same, with the reported change |
| `LocalStoreObject.LocalStore.MarkPlayed` | apps/desktop/src-tauri/src/local_store/manager.rs:248-257 | the same |
| `VaultRuns.LoadPreserves` | apps/desktop/src-tauri/src/local_store/storage.rs:106-163 | wherever its writes fail, a load changes no profile and loses no record; completed, nothing is left to repair |
| `VaultRuns.SettledLoadIsNoop` | apps/desktop/src-tauri/src/local_store/storage.rs:106-163 | a vault with nothing to repair is only read |
| `VaultRuns.SecondLoadIsNoop` | apps/desktop/src-tauri/src/local_store/storage.rs:106-163 | a load after a successful load does nothing |
| `VaultRuns.LoadIsIdempotentIff` | apps/desktop/src-tauri/src/local_store/storage.rs:106-163 | where writes succeed, loading twice is loading once if and only if not all of some records are unreadable |
| `VaultRuns.UnreadableVaultIsSetAsideAgain` | apps/desktop/src-tauri/src/local_store/storage.rs:156-158 | a vault with records of which none can be read is kept, and every load sets all of them aside once more |
| `VaultRuns.CallsAreAtomic` | apps/desktop/src-tauri/src/local_store/storage.rs:95-105 | a call that succeeds has exactly its effect on the profiles, one that fails has none, and repairs do not show |
| `VaultIdentities.RecordsAreNeverLost` | apps/desktop/src-tauri/src/local_store/storage.rs:141-158 | an unreadable record is in the vault or set aside, after any history |
| `VaultIdentities.RunsStayGood` | apps/desktop/src-tauri/src/local_store/manager.rs:108-257 | from any vault with distinct identities, every history keeps them distinct |
| `VaultIdentities.EmptyVaultStaysSound` | apps/desktop/src-tauri/src/local_store/manager.rs:108-257 | starting from no vault, identities stay distinct and loading is always a plain read |
| `VaultIdentities.BackfillIsDistinctIff` | apps/desktop/src-tauri/src/local_store/storage.rs:130-135 | backfill yields distinct identities if and only if no two records are of one account: both noting it, one noting what the other's login shows, or both logins showing it |
| `VaultIdentities.LegacyVaultCanHoldTwins` | apps/desktop/src-tauri/src/local_store/storage.rs:130-135 | two old records of one login become two profiles of one Riot account |
| `VaultIdentities.StepAt` | apps/desktop/src-tauri/src/local_store/manager.rs:148-257 | a profile changes only by successful calls that name it |
| `VaultEffects.CallsWriteWhatTheyMean` | apps/desktop/src-tauri/src/local_store/manager.rs:148-257 | a successful call writes the fields it is about to the profile it names and leaves its other fields and every other profile alone; a deleted profile is gone; a failed call changes no profile |
| `VaultEffects.OthersCat` | apps/desktop/src-tauri/src/local_store/manager.rs:194 | deleting keeps or drops each profile by itself, in order |
| `VaultEffects.SyncReportsChanges` | apps/desktop/src-tauri/src/local_store/manager.rs:202-235 | a sync reports a change if and only if it brings another rank, or an icon, for a profile that syncs it; otherwise the profiles stay as they are |
| `VaultEffects.RefusalsAreTrue` | apps/desktop/src-tauri/src/local_store/manager.rs:108-257 | a call is refused with an error only if what the error says is so |
| `VaultEffects.AcceptedIsUnobjectionable` | apps/desktop/src-tauri/src/local_store/manager.rs:108-257 | and a call that succeeds gave none of the reasons it could be refused for |
| `VaultIdentities.CreatedProfileShows` | apps/desktop/src-tauri/src/local_store/manager.rs:108-147 | a created profile holds, field by field, the details it was created with, its login and what that shows, and the time; no other goes by its identity |
| `VaultEffects.CreatedIsReturned` | apps/desktop/src-tauri/src/local_store/manager.rs:130-146 | the new profile stands at the end of the list and is returned as it was saved |
| `VaultIdentities.RefreshedProfileShows` | apps/desktop/src-tauri/src/local_store/manager.rs:178-190 | a profile signed in again holds the new login and keeps or gains its identity |
| `VaultIdentities.EditRespectsTheSwitches` | apps/desktop/src-tauri/src/local_store/manager.rs:148-177 | rank and icon follow an edit unless they were and stay synced |
| `VaultIdentities.KnownIdentityNeverChanges` | apps/desktop/src-tauri/src/local_store/manager.rs:183-188 | a known identity never changes and a deleted profile never returns |
| `VaultIdentities.EditsAndSyncsCommute` | apps/desktop/src-tauri/src/local_store/manager.rs:148-235 | with both switches kept on, any interleaving of edits and syncs ends with the fields of the last edit and the rank and icon last synced |
| `RateLimiter.FixedWindowRateLimiter.TryAllow` | apps/api/src/http/rate-limit.ts:8-18 | the method does what the specification says |
| `RateLimiter.FixedWindowRateLimiter.Reset` | apps/api/src/http/rate-limit.ts:20 | exactly the key's counter is dropped |
| `RateLimiter.FixedWindowRateLimiter.Sweep` | apps/api/src/http/rate-limit.ts:21 | the loop drops exactly the counters whose window ended |
| `RateLimiter.SweepsAreInvisible` | apps/api/src/http/rate-limit.ts:8-21 | sweeps inserted anywhere change no answer |
| `RateLimiter.SweptIsStale` | apps/api/src/http/rate-limit.ts:21 | a sweep keeps exactly the counters a call at that time would go on counting |
| `RateLimiter.WindowKeepsTheLimit` | apps/api/src/http/rate-limit.ts:11-16 | between resets a window grants at most the limit |
| `RateLimiter.FewerThanTwiceTheLimit` | apps/api/src/http/rate-limit.ts:8-18 | between resets any half-open interval as long as a window holds fewer than twice the limit of grants |
| `RateLimiter.TwiceTheLimitLessOne` | apps/api/src/http/rate-limit.ts:8-18 | the bound is exact: one less than twice the limit fits into one millisecond |
| `RateLimiter.AdvisedWaitIsExact` | apps/api/src/http/rate-limit.ts:15 | after a refusal the next call is granted if and only if the window has ended, and the advice is the least number of whole seconds that makes sure of it |

## Left out

- ChunkingDoesNotMatter: `&` is plain text and `<![CDATA[` never completes in the lexer, because the XML reader is not part of this repository; how it reports entity references and CDATA is not modelled.
- Frames.Next: closing tags are read with the same regard for quotes as other tags, and one without an opening tag is reported as unexpected; the XML reader compares end names itself and may report such a tag with its own error first.
- RewrittenPresence: the tree library is not part of this repository; the model keeps attribute text as written and compares local names, and leaves out namespace checks, escaping and the order in which that library writes attributes.
- FewerThanTwiceTheLimit: stated for at least one grant per window, since a limit below one still grants the call that opens a window.
- EveryRunRecovers: a history contains an operation or a write only where the disk allows it, by the conditions of `SwitchIsSafeIff`, `CleanUpIsSafeIff`, `SignInIsSafeIff`, `RiotWriteIsSafeIff` and `UserWriteIsSafeIff`, which are exact; elsewhere recovery has to come first, and the program does not see to that.
- RecoverCompletesIff: removing a staging directory is one step; removed in part, with its manifest still there, it would be a disk on which recovery does not complete.
- SafeIff: for disks on which a manifest that can be read names Riot's two files in the program's order, as every manifest the program writes does.
- RecoverGuards: the check that Riot is not running and the cool-down after a launch, which only postpone recovery, are not modelled, nor is the flag that says whether anything was restored.
- RecoverOrphaned: manifests that name files other than Riot's two are refused by the program and cannot be expressed here.
- Manager.Switch: stopping Riot and preparing the launch come before the first step and are left out, as is the refusal of a session without a reusable login; whether the launch succeeds is a flag.
- Manager.Restore: the clean-up command's test for an expected owner, which only skips the clean-up, is left out.
- SignIn.Commands.Complete: a vault that cannot be opened, and settings files that cannot be read during the poll, are not modelled.
- GuardIsExclusive: opening and creating the lock files is taken to succeed; two locks dropped by a panic or a crash are dropped in one step.
- SettlesOnTheMode: failed socket writes and the read timeout end the relay without a further write and are not events of the model; several connections that share one progress record are not modelled.
- AuthService.Create: the model, like `CreateUser`, is the transaction; the earlier look for the same address in any case, the password hash and the display name are left out.
- HeartbeatLease, AcquireLease: signatures and nonces, display names and the time stamps no decision reads are left out; times are integers, so comparing ISO strings is not modelled.
- RevokeAssignment: the device, assignment and account lists, their sorting and paging, and metrics scoped to one user are left out.
- TenureIsBounded: says nothing about when the timer fires; a user suspended between the route guard and the transaction is not rechecked by the service, so no claim is made that a lease implies an active user.
- AppDatabase.Rollback: writes back the tables its caller took at BEGIN; the engine's own journal is not modelled.
- Transact: saving the database file after a commit, and a commit that fails, are not modelled.
- ForeignKeys: foreign keys are taken to be enforced throughout, as the schema's PRAGMA asks; `save` exports the database through the SQLite library, which is not part of this repository, and whether the setting outlives an export is not modelled.
- RegisterDevice: refreshing the name, version and last-seen time of a known device is left out, as is `touchDevice`.
- CreateProfile: trimming and checking the details, and recognising a login and its identity in Riot's YAML, are parameters of the model; sealing is a constructor that says whether a record can be read.
- LocalStore.Load: text that is not JSON is one case, `Broken`; quarantine file names are left out.
- Supabase: the same services over Supabase call procedures that are not part of this repository.
- TLS, HTTP proxying, DNS, process handling, installation discovery, images, tray menus, React components and pages: input, output and presentation.
