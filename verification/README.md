# Verified models of the Hyrule DNS control service, pin promotion and BGP agent

Three programs of this repository keep state that must survive errors and crashes or stay in
agreement with itself. This project models them in Dafny and proves the properties they are for.
`dafny verify dfyconfig.toml` checks everything.

**The DNS zone store** (`ansible/roles/knot/files/hyrule_dns_control.py`) keeps a state file with a
journal of pending transitions, a generated Knot include with per-zone files, and Knot itself, which
cannot share a transaction. A request stages its transition in the journal, changes Knot, and
commits; a restart replays the journal.

- `Zones` gives a payload its meaning as zone content; `Journal` holds the state, the journal and
  the *effective* zones (committed zones with pending transitions carried out), which are the
  specification state; `Effects` is the world of the three stores and every effect on it.
- `Script` is what each call does when nothing goes wrong, as a list of effects. `Recovery` proves
  what holds after every single effect of every script, `Saves` where its state writes stand, and
  `Sequencing` what must have been done before each effect: files checked before they count, changes
  completed before they are committed, the include following the state.
  `Service` is the concurrent system (request threads, backup process, errors, crashes, power losses
  and restarts between any two effects), and `Runs` states what holds over its whole runs. `Losses`
  says what any power loss can take back, and `LostRequest` gives the run on which one does harm.
- `Hosts` and `ZoneStore` are the service in its own imperative form: methods that change memory,
  files and Knot, proved to carry out their script, or to stop inside it if and only if one of their
  accesses failed (`Execution`). `Refinement` proves that every call they carry out is a stretch of a
  run of `Service`.
- `AtomicFiles` justifies that a file write happens whole or not at all, in a file system that may
  lose whatever was not synced, over any number of writes, errors, crashes and restarts. `StateFile`
  (with `Json` and `Encoding`) is saving and loading state.
- `Validation` is the request validator. `Acceptance` states anew, field by field, which requests are
  accepted and what is stored of them, and `Refusals` what the others are answered; `CanonicalForm` is
  what the stored form guarantees. `Rdata` is the TXT quoting and the scan of other values, `ZonePrinter` the zone-file printer, and `MasterFile` an independent
  reader of the master-file format, section 5.1 of RFC 1035. `Loading` carries what the printer
  guarantees to the zone files written in whole runs.

**Pin promotion** (`scripts/ci/promote-app-pins.py`): `PinText` finds and replaces one pin in a YAML
text, `Pins` is the promotion of several pins and the ones slaved to them, and `PinStops` what one that
fails halfway has done.

**The BGP agent** (`ansible/generated/extmon/extmon-bgp-agent.py`): `BgpAgent` is the status of the
sources, and the prefixes and hit counters taken from the bgp.tools table; `TablePolls` says what they
show in terms of the lines of the last good download.

`Ordering`, `Text`, `Wrappers` and `Attempts` are shared vocabulary.

## Hypotheses

- Knot's side is a small machine (`Effects`). `zone-begin` starts from the served content and
  discards a transaction still open on the zone; a commit that fails may or may not have taken
  effect; a reload serves exactly the included zones, leaves loaded ones alone and takes new ones
  from their files; what a served zone leaves behind (journal, timers, keys) stays until the purge.
- A zone file counts by the content a reader would load from it. `Loading.WrittenFilesLoad` shows that
  every file written on any run is a text that loads as that content if the requests have plain
  address texts, as they have without IPv6 scopes; `CanonicalForm.AcceptedRoundTrip` is exact.
- `kzonecheck` changes nothing.
- After a power loss the state file and the include hold what the last write that ended well gave them,
  or what a later write gave them that was killed after its rename or failed, as `AtomicFiles` says;
  `Service.System` keeps the possible contents of both. Zone files are left as they happen to be on
  disk, removed ones included, because the directory is not synced after a removal. A process that is
  killed leaves the newest contents. A state write that raises has not replaced the file (see "Left
  out"). Knot's own storage is kept.
- A run is *lasting* if no power loss brings back the state file from before a staging write whose
  process was killed, with no state write that ended well after it (`Service.Undoes`). The properties
  of `Runs` are about lasting runs, or about a run as long as it has been one, where nothing else is
  said. That undoing a commit does no harm is part of them (`Service.RevertKeeps`); the condition is
  needed (`Losses.UndoneIsLost`); and `Losses.RequestsKeptOrLost` says what holds on all runs.
- An IPv6 address is canonicalised by a function whose results are fixed points, made of address
  characters, with a colon (`Validation.Lawful`); scopes are modelled around it.
- The service never starts on a state file written by something else: `Service.Initial` is an
  installation without state, and all later states are the service's own.

## Where the code falls short of the ideal

- `LostRequest.AcceptedIsLost`: the service is killed in the state write that accepts a new zone, after
  the rename and before the directory is synced; the restart replays the creation without writing the
  staged state once more, and if the power then fails the old state can come back: Knot serves a zone
  that the state does not know, and the next start does not repair that. `Runs.RunLinearizes` holds up
  to such a power loss, and `Losses.UndoneIsLost` says what it takes back.
- `CanonicalForm.ScopedAddressBreaks`: an accepted AAAA value `fe80::1%;x` prints as a line whose
  rest is a comment. `CanonicalForm.AcceptedRoundTrip` gives the exact condition.
- `CanonicalForm.LongTextOutgrows`: quoting can lengthen a TXT value beyond the limit of 4096
  characters. `CanonicalForm.CanonicalIsFixed` says exactly which stored payloads are accepted again.
- `Pins.PromotingBackFails`: running the promotion again with the driver's old SHA loses a slaved pin
  that differed. `Pins.PromotingBackRestoresIff` gives the exact condition.
- `Pins.UndoLosesCarriageReturn`: reading a file turns carriage returns into line feeds.
  `Pins.UndoIsExactIff` says exactly when undoing a promotion restores every file.
- `BgpAgent.HiddenRowIsLost`: the agent looks for a prefix in the text of a line before parsing it, and
  JSON may write a solidus with a backslash. `BgpAgent.RowsKept` says exactly which rows are kept,
  `BgpAgent.MentionsIff` what it takes, and `BgpAgent.OrdinaryRowShows` that ordinary lines are never lost.

## Model

| member | source | states |
|---|---|---|
| `Recovery.ScriptIsLinear` | ansible/roles/knot/files/hyrule_dns_control.py:250-384 | crash-atomic linearisation of every call: after each single effect the stores are durable, and the effective zones change at the staging write only, to exactly the requested map |
| `Recovery.ScriptConverges` | ansible/roles/knot/files/hyrule_dns_control.py:327-384 | from any durable world, whatever crash produced it, a call that completes leaves an empty journal and state, include and Knot agreeing on exactly the specified zones |
| `Recovery.RecoverIsSafe` | ansible/roles/knot/files/hyrule_dns_control.py:331-368 | replaying a transition from wherever an earlier attempt stopped is safe at every effect and commits it |
| `Recovery.RecoverAllIsSafe` | ansible/roles/knot/files/hyrule_dns_control.py:327-329 | the same for the whole journal, which ends empty with the effective zones committed |
| `Recovery.StagingKeeps` | ansible/roles/knot/files/hyrule_dns_control.py:272-278 | the staging write is the one effect that changes the effective zones, and leaves a durable world |
| `Recovery.UpdateMutates` | ansible/roles/knot/files/hyrule_dns_control.py:289-318 | the zone transaction can be cut and replayed at any command: Knot serves the previous or the desired content, at the end the desired one |
| `Recovery.DeleteMutates` | ansible/roles/knot/files/hyrule_dns_control.py:350-363 | reload, purge and unlink, cut and replayed anywhere, leave nothing of the zone |
| `Recovery.CreateMutates` | ansible/roles/knot/files/hyrule_dns_control.py:341-347 | a new zone is loaded from a file with its content even if an earlier attempt left another file |
| `Recovery.EndsQuiescent` | ansible/roles/knot/files/hyrule_dns_control.py:331-368 | a call that completes leaves no pending transition |
| `Recovery.LinearStep` | ansible/roles/knot/files/hyrule_dns_control.py:250-384 | what two neighbouring instants of a call have to do with each other |
| `Script.ReplayEffective` | ansible/roles/knot/files/hyrule_dns_control.py:327-368 | replaying pending transitions in any order keeps the effective zones and takes exactly those transitions out of the journal |
| `Script.ReplayAllRecovers` | ansible/roles/knot/files/hyrule_dns_control.py:327-329 | replaying the whole journal commits exactly the effective zones |
| `Script.StagesIff` | ansible/roles/knot/files/hyrule_dns_control.py:256-278 | a request stages a transition exactly if it is for a new zone or has a larger revision, a deletion exactly if the zone is there, and what is staged means the target |
| `Script.JudgeIs` | ansible/roles/knot/files/hyrule_dns_control.py:256-268 | stale exactly if the revision is smaller, reused exactly if it is equal and the payload differs, unchanged exactly if the payload is equal, and accepted in all other cases |
| `Sequencing.ScriptOrdered` | ansible/roles/knot/files/hyrule_dns_control.py:283-368 | in every script: Knot reloads only when the file of every new zone has been written and checked with nothing touching it since; a transition leaves the journal only when all its steps, signing and flushing included, are completed; every include lists the state of that moment |
| `Sequencing.StagedFileIsChecked` | ansible/roles/knot/files/hyrule_dns_control.py:270-278 | before the staging write of a request for a zone that is not intended, the same call has written the file of that payload and finished its check, and has not touched the file since |
| `Sequencing.IncludeFollowsState` | ansible/roles/knot/files/hyrule_dns_control.py:277-368 | every state write is followed at once by the include of that state |
| `Sequencing.StartRepairsInclude` | ansible/roles/knot/files/hyrule_dns_control.py:143-156 | whatever the include was, after a start it lists the effective zones |
| `Journal.StageUpsertEffective` | ansible/roles/knot/files/hyrule_dns_control.py:272-277 | staging an upsert changes the effective zones at one key |
| `Journal.StageDeleteEffective` | ansible/roles/knot/files/hyrule_dns_control.py:376-380 | staging a delete removes one key from the effective zones |
| `Journal.CommitEffective` | ansible/roles/knot/files/hyrule_dns_control.py:348-367 | committing a transition leaves the effective zones alone |
| `Journal.SoundCommit` | ansible/roles/knot/files/hyrule_dns_control.py:331-368 | from a sound state with one pending transition the commit leaves a sound state with none |
| `Journal.IncludeListsEffective` | ansible/roles/knot/files/hyrule_dns_control.py:230-248 | for any number of pending transitions Knot reads from the include exactly the effective zones, and staging and commit yield the same include |
| `Journal.IncludeIsComplete` | ansible/roles/knot/files/hyrule_dns_control.py:230-248 | read line by line, the include has each effective zone once, in order, each with the template of the members, and nothing else |
| `Zones.ContentIsExact` | ansible/roles/knot/files/hyrule_dns_control.py:598-614 | loading a payload's entries one by one gives the SOA, the nameserver set and one RRset per record, independent of order |
| `Zones.ServesUnique` | ansible/roles/knot/files/hyrule_dns_control.py:598-614 | that meaning determines the served content |
| `Zones.OrderIsNotServed` | ansible/roles/knot/files/hyrule_dns_control.py:598-614 | payloads that differ in the order of records or values stand for the same content |
| `Zones.UpdateEqualsRebuild` | ansible/roles/knot/files/hyrule_dns_control.py:295-312 | the unset and set commands, from previous or desired content or anything between, end in the content of a zone built from scratch |
| `Zones.EndsAreReconcilable` | ansible/roles/knot/files/hyrule_dns_control.py:296-298 | both ends of an update are content from which it can be replayed |
| `Service.StepKeepsInvariant` | ansible/roles/knot/files/hyrule_dns_control.py:158-168 | every step of any interleaving, with errors, crashes and power losses, keeps memory equal to disk and the stores durable, unless it is a power loss that undoes a staging write |
| `Service.PowerLossKeeps` | ansible/roles/knot/files/hyrule_dns_control.py:200-228 | a power loss that undoes no staging write leaves the effective zones alone and a world that recovery can start from, whatever it leaves of the include, of the zone files, and of a state write that was killed, even if it undoes a commit |
| `Service.RevertKeeps` | ansible/roles/knot/files/hyrule_dns_control.py:364-368 | a state file that comes back as it was before a commit keeps the stores durable and means the same zones |
| `Saves.ScriptListed` | ansible/roles/knot/files/hyrule_dns_control.py:335-337 | in every script the include is written before the state write that empties the journal, which is why its loss does no harm |
| `Saves.JournalGrowsAtStaging` | ansible/roles/knot/files/hyrule_dns_control.py:250-384 | only the staging write of a request puts a transition into the journal, and only one of its zone |
| `Saves.ScriptCommits` | ansible/roles/knot/files/hyrule_dns_control.py:331-368 | apart from the staging write, every state write of every script commits a transition of what the state file holds |
| `Saves.ScriptStates` | ansible/roles/knot/files/hyrule_dns_control.py:250-384 | the state file alone, whatever Knot and the include hold: sound after every effect, meaning the old zones up to the staging write and the target from there on |
| `Service.StepLinearizes` | ansible/roles/knot/files/hyrule_dns_control.py:250-281 | only the staging write of an accepted request changes the effective zones, and exactly as specified; errors, crashes, replays, backups and power losses do not, unless one undoes a staging write |
| `Service.RefusedCallKeepsZones` | ansible/roles/knot/files/hyrule_dns_control.py:256-268 | no step of a call that ends in a 409 answer changes the effective zones, though it may replay a pending transition |
| `Service.AcceptsOnlyWhenQuiescent` | ansible/roles/knot/files/hyrule_dns_control.py:253-278 | a request is staged only when nothing is pending |
| `Service.AcceptanceIsNew` | ansible/roles/knot/files/hyrule_dns_control.py:256-278 | a request is staged only if it creates the zone or has a larger revision than the effective one |
| `Service.AcceptanceChanges` | ansible/roles/knot/files/hyrule_dns_control.py:256-278 | so every acceptance changes the effective zones |
| `Service.ReturnConverges` | ansible/roles/knot/files/hyrule_dns_control.py:250-281 | a call that returns has reached its target |
| `Service.StepNeverMixes` | ansible/roles/knot/files/hyrule_dns_control.py:350-363 | a zone is taken up only with the intended content and without material of an earlier incarnation; a delete leaves the journal only when nothing is left, and a power loss that undoes a commit changes neither |
| `Runs.RunInvariant` | ansible/roles/knot/files/hyrule_dns_control.py:143-156 | the invariant holds at every instant of every run, as long as no power loss has undone a staging write |
| `Runs.RunLinearizes` | ansible/roles/knot/files/hyrule_dns_control.py:250-384 | at every instant of every run, as long as no power loss has undone a staging write, the effective zones are those of the requests accepted so far, carried out one after the other |
| `Runs.RunConverges` | ansible/roles/knot/files/hyrule_dns_control.py:143-156 | whenever a call returns in a lasting run, after any errors, crashes and power losses, the three stores agree on exactly those zones |
| `Runs.WheneverLockFree` | ansible/roles/knot/files/hyrule_dns_control.py:158-168 | in every lasting run with any number of threads and the backup, whenever the lock file is free memory is what is on disk, at most one transition is pending, and after a call that ended well the stores have converged |
| `Runs.BackupSeesStillStores` | ansible/roles/knot/templates/knot-online-backup.j2:9-23 | on any run at all, from taking the lock to giving it back the backup sees state, include, zone files and Knot stand still, and no call in progress |
| `Runs.RevisionsNeverDecrease` | ansible/roles/knot/files/hyrule_dns_control.py:253-268 | between two deletes a zone's effective revision never decreases and equal revisions mean equal payloads |
| `Runs.RefusalChangesNothing` | ansible/roles/knot/files/hyrule_dns_control.py:256-268 | every 409 answer leaves the stores converged on the effective zones that the call found |
| `Runs.NewRevisionTakesEffect` | ansible/roles/knot/files/hyrule_dns_control.py:256-281 | in every lasting run a request for a new zone or with a larger revision takes effect: when its call returns the stores have converged on the zones it found with its payload |
| `Sequencing.CreationIsChecked` | ansible/roles/knot/files/hyrule_dns_control.py:270-287 | on any run at all, before the state write that stages a creation its own call has written the file of the payload and had it checked, with no effect on the file in between or since |
| `Sequencing.ReloadIsChecked` | ansible/roles/knot/files/hyrule_dns_control.py:283-347 | on any run at all, before every reload with a creation pending, in the first attempt or in a replay, the same holds of the call that reloads |
| `Sequencing.ObjectionStagesNothing` | ansible/roles/knot/files/hyrule_dns_control.py:270-287 | on any run at all, an objection of the check, or any other error, while the zone is not intended leaves the effective zones as the call found them |
| `Runs.IncarnationsSeparated` | ansible/roles/knot/files/hyrule_dns_control.py:331-384 | after a staged delete the zone is intended again only after an instant when Knot and the zone directory kept nothing of it |
| `Runs.LoadsSeparated` | ansible/roles/knot/files/hyrule_dns_control.py:331-384 | and Knot takes the zone up again only after such an instant |
| `Runs.RepeatedRequest` | ansible/roles/knot/files/hyrule_dns_control.py:250-281 | while a request on a zone is repeated and others are accepted on other zones, the effective zones are those of the others, with or without its one entry |
| `Runs.RetriedExactlyOnce` | ansible/roles/knot/files/hyrule_dns_control.py:250-281 | a request cut by errors and crashes and repeated until it succeeds, with no other request accepted on its zone, leaves the stores converged on what the requests on other zones made of the zones, with its one entry |
| `Runs.AcceptedAtMostOnce` | ansible/roles/knot/files/hyrule_dns_control.py:256-268 | however often it is made, the same request is accepted at most once between two deletes of its zone |
| `Runs.RetryEqualsOnce` | ansible/roles/knot/files/hyrule_dns_control.py:250-281 | state, included zones and served content then equal those of one undisturbed application to any durable world in which the requests on other zones are carried out |
| `Runs.RepeatIsSilent` | ansible/roles/knot/files/hyrule_dns_control.py:253-263 | a repeat after success, with no other request accepted on the zone, only replays what is pending, and does nothing to the zone unless a power loss has since brought back the request's own transition |
| `Runs.RepeatIsNotAccepted` | ansible/roles/knot/files/hyrule_dns_control.py:261-263 | nor is it ever accepted |
| `Losses.StepKeepsStates` | ansible/roles/knot/files/hyrule_dns_control.py:200-228 | no event, not even a power loss that undoes a staging write, leaves a state file that is not sound, or memory that differs from it |
| `Losses.RequestsKeptOrLost` | ansible/roles/knot/files/hyrule_dns_control.py:200-281 | on any run at all: from an instant at which no power loss can change what the state file means, the effective zones are those of then with requests accepted since carried out in order, each of them whole or not at all |
| `Losses.SettledAfter` | ansible/roles/knot/files/hyrule_dns_control.py:210-214 | a power loss, and a state write that ended well, give such an instant |
| `Losses.UndoneIsLost` | ansible/roles/knot/files/hyrule_dns_control.py:200-228 | the condition is needed: the first power loss that undoes a staging write takes the effective zones back to before an accepted request, and if none has been accepted since they are not those of the accepted requests |
| `LostRequest.AcceptedIsLost` | ansible/roles/knot/files/hyrule_dns_control.py:143-156 | a run for every zone and payload on which that happens: after a start that runs to its end Knot serves an accepted zone that the state does not know, so that the stores have not converged on any zones |
| `Refinement.CallIsStretch` | ansible/roles/knot/files/hyrule_dns_control.py:250-384 | whatever a method does that runs a script, to its end or stopped in it, the concurrent system does too, by effects, a return, an error or a crash that lead to the same world |
| `Refinement.CallExtendsRun` | ansible/roles/knot/files/hyrule_dns_control.py:250-384 | so every call that the methods carry out continues the run so far, and if it was done leaves the stores converged on the accepted requests |
| `Refinement.MethodExtendsRun` | ansible/roles/knot/files/hyrule_dns_control.py:250-384 | the same from what the methods of the store ensure, with the memory they leave |
| `Execution.StoppedIsDurable` | ansible/roles/knot/files/hyrule_dns_control.py:289-325 | wherever a method stops, with or without the abort that answers an exception, the stores are durable and mean the old zones or the target |
| `Execution.RanOutcome` | ansible/roles/knot/files/hyrule_dns_control.py:250-384 | a method that ran its script, or stopped inside it, meets the specification of its request |
| `ZoneStore.ZoneStore.Start` | ansible/roles/knot/files/hyrule_dns_control.py:143-156 | in whatever world the last process left, the start converges or stops durably; it fails before any effect only if the state file cannot be read |
| `ZoneStore.ZoneStore.Apply` | ansible/roles/knot/files/hyrule_dns_control.py:250-281 | invalid requests are refused with the validator's error and no effect; others run their script; without errors the answer is 409 `stale_revision` exactly if the revision is smaller, 409 `revision_reused` exactly if it is equal with another payload, and success else, with the stores converged on the zones with this payload; an error is the first that one of its accesses raised; a refusal leaves them converged on the zones as they were; and if the zone is not intended afterwards, what is intended has not changed |
| `ZoneStore.ZoneStore.Delete` | ansible/roles/knot/files/hyrule_dns_control.py:370-384 | runs the script of the deletion and answers whether the zone was intended |
| `ZoneStore.ZoneStore.FindZone` | ansible/roles/knot/files/hyrule_dns_control.py:386-391 | replays the journal and refuses exactly the zones that are not intended |
| `ZoneStore.CompareRevision` | ansible/roles/knot/files/hyrule_dns_control.py:254-268 | has no answer exactly if the zone is new or the revision is larger; its answers are those that the revisions demand |
| `ZoneStore.ZoneStore.Establish` | ansible/roles/knot/files/hyrule_dns_control.py:269-281 | prepares a new zone's file, stages and replays: the rest of an accepted request's script, or part of it |
| `ZoneStore.ZoneStore.RecoverPending` | ansible/roles/knot/files/hyrule_dns_control.py:327-329 | replays the journal in sorted order; memory ends as the effective zones with nothing pending |
| `ZoneStore.ZoneStore.Replay` | ansible/roles/knot/files/hyrule_dns_control.py:328-329 | the loop over the journal, stopped at the first transition that fails |
| `ZoneStore.ZoneStore.RecoverOne` | ansible/roles/knot/files/hyrule_dns_control.py:331-368 | runs the replay script of one transition, and commits it in memory and on disk |
| `ZoneStore.ZoneStore.UpdateExisting` | ansible/roles/knot/files/hyrule_dns_control.py:289-325 | runs the zone transaction; a failure inside it is followed by an abort whose own failure is ignored: the error raised is the first one, so that an exception leaves no transaction open that was not tried to be aborted |
| `ZoneStore.ZoneStore.TryUpdate` | ansible/roles/knot/files/hyrule_dns_control.py:292-315 | tells exactly whether it stopped inside the zone transaction |
| `ZoneStore.ZoneStore.EditZone` | ansible/roles/knot/files/hyrule_dns_control.py:299-312 | unsets every touched RRset in sorted order and sets every desired value, in order |
| `ZoneStore.ZoneStore.SetAll` | ansible/roles/knot/files/hyrule_dns_control.py:303-312 | one command per record and value, stopped at any of them |
| `ZoneStore.ZoneStore.PrepareZonefile` | ansible/roles/knot/files/hyrule_dns_control.py:283-287 | writes the print of the payload and has it checked, or stops inside that; `Sequencing` says what the check comes before |
| `ZoneStore.ZoneStore.LoadNewZone` | ansible/roles/knot/files/hyrule_dns_control.py:341-347 | prepares, reloads and signs a new zone |
| `ZoneStore.ZoneStore.DropZone` | ansible/roles/knot/files/hyrule_dns_control.py:350-361 | reloads, purges and unlinks a deleted zone |
| `ZoneStore.ZoneStore.WriteGeneratedConfig` | ansible/roles/knot/files/hyrule_dns_control.py:230-248 | writes the include of the zones in memory |
| `ZoneStore.ZoneStore.IncludedNames` | ansible/roles/knot/files/hyrule_dns_control.py:232-238 | the loop over the journal lists the effective zones, sorted |
| `ZoneStore.ConfigLines` | ansible/roles/knot/files/hyrule_dns_control.py:231-248 | the lines of the include |
| `ZoneStore.ZoneStore.SaveState` | ansible/roles/knot/files/hyrule_dns_control.py:222-228 | writes the state and then takes it into memory |
| `Hosts.Host.WriteState` | ansible/roles/knot/files/hyrule_dns_control.py:222-228 | the state file gets the state, or keeps the old one |
| `AtomicFiles.Disk.AtomicWrite` | ansible/roles/knot/files/hyrule_dns_control.py:200-220 | begun on any file system, wherever it stops, a crash leaves what the path could hold before or the whole new content; after a normal return only the new content, with no temporary file |
| `AtomicFiles.StageFindsOldOrNew` | ansible/roles/knot/files/hyrule_dns_control.py:200-214 | what a crash after each system call can leave at the path |
| `AtomicFiles.ContentsAreWhole` | ansible/roles/knot/files/hyrule_dns_control.py:200-220 | over any number of writes that end well or stop anywhere, removals, crashes and restarts, a path holds one whole content that it held at the start or that was given to it |
| `AtomicFiles.NormalReturnLasts` | ansible/roles/knot/files/hyrule_dns_control.py:200-220 | after a normal return only the content written or what later events give is ever found |
| `AtomicFiles.RestartKeeps` | ansible/roles/knot/files/hyrule_dns_control.py:200-220 | a restart finds what a crash can leave |
| `AtomicFiles.OthersUntouched` | ansible/roles/knot/files/hyrule_dns_control.py:200-214 | files under other names keep what can be found of them |
| `AtomicFiles.NewContent` | ansible/roles/knot/files/hyrule_dns_control.py:210-214 | after the directory sync only the new content can be found |
| `AtomicFiles.StageWellFormed` | ansible/roles/knot/files/hyrule_dns_control.py:200-220 | wherever the write stops the file system stays well formed, which is all that the next write relies on |
| `StateFile.LoadState` | ansible/roles/knot/files/hyrule_dns_control.py:170-198 | accepts a file exactly if it has the shape of a state, and completes its journal and version |
| `StateFile.LoadsIff` | ansible/roles/knot/files/hyrule_dns_control.py:170-198 | a file is accepted exactly if it has an object of zones and, if it has a journal, an object whose entries are upserts or deletes with what these need; anything else raises |
| `StateFile.NoFileIsEmpty` | ansible/roles/knot/files/hyrule_dns_control.py:171-176 | without a file there are no zones and nothing is pending; a file that cannot be read is an error |
| `StateFile.WithoutJournal` | ansible/roles/knot/files/hyrule_dns_control.py:178-197 | a file without a journal, of whatever version, is read as its zones with nothing pending, and whatever else it holds is kept |
| `StateFile.OwnStateLoads` | ansible/roles/knot/files/hyrule_dns_control.py:170-228 | a restart never rejects the service's own state and reads back the very state that was saved |
| `Rdata.ReplacesAreEscape` | ansible/roles/knot/files/hyrule_dns_control.py:473 | the two successive replacements escape each quote and backslash once |
| `Rdata.TxtRoundTrip` | ansible/roles/knot/files/hyrule_dns_control.py:469-474 | text that is not in quoted form is read back, by section 5.1 of RFC 1035, as one string equal to it |
| `Rdata.TxtIdempotent` | ansible/roles/knot/files/hyrule_dns_control.py:466-474 | the result is always in quoted form and is a fixed point |
| `Rdata.QuotedFormIff` | ansible/roles/knot/files/hyrule_dns_control.py:466-472 | the recogniser of quoted form accepts exactly the language of the regular expression: quoted chunks, each followed by white space or the end |
| `Rdata.QuotedFormIsPlain` | ansible/roles/knot/files/hyrule_dns_control.py:466-474 | quoted form holds no comment, grouping or open quote |
| `Rdata.ValidateNonTxtRdata` | ansible/roles/knot/files/hyrule_dns_control.py:477-503 | accepts exactly the values that a master-file reader takes in without comment, grouping, open quote or dangling escape |
| `ZonePrinter.RenderZonefile` | ansible/roles/knot/files/hyrule_dns_control.py:598-614 | the loops print the text of the zone |
| `ZonePrinter.RoundTripIffPlain` | ansible/roles/knot/files/hyrule_dns_control.py:598-614 | an independent reader gets back exactly the SOA, the nameservers and one entry per value, in order, if and only if every value is plain |
| `ZonePrinter.SoaReads` | ansible/roles/knot/files/hyrule_dns_control.py:599-607 | the SOA of a managed zone field by field: the two names, the later of today's serial and the revision, and the four timers |
| `ZonePrinter.LoadPrinted` | ansible/roles/knot/files/hyrule_dns_control.py:283-287 | loading the printed file gives the content of the payload |
| `Validation.ValidatePayload` | ansible/roles/knot/files/hyrule_dns_control.py:506-595 | the validator's loops compute the specification, which `Acceptance.AcceptedIff` and `Refusals.RefusalIs` characterise |
| `Validation.ValidateRecords` | ansible/roles/knot/files/hyrule_dns_control.py:529-586 | the record loop with its set of keys |
| `Validation.ValidateValues` | ansible/roles/knot/files/hyrule_dns_control.py:553-583 | the value loop computes the specification that `Acceptance.ValuesIff` characterises |
| `Validation.ValidateIdentity` | ansible/roles/knot/files/hyrule_dns_control.py:515-525 | nameservers, SOA names and the DNSSEC switch, in order |
| `Acceptance.AcceptedIff` | ansible/roles/knot/files/hyrule_dns_control.py:506-595 | a request is accepted if and only if every field meets its own condition; then each requested record has exactly one stored record, with its owner, type and TTL and, in order and without repeats, its values as they are to be stored, and there are no others |
| `Acceptance.RecordListIff` | ansible/roles/knot/files/hyrule_dns_control.py:526-587 | a list of records is accepted if and only if it has at most 500 entries, each is good, and no owner and type repeats; the stored records are in order and correspond one to one |
| `Acceptance.RecordIff` | ansible/roles/knot/files/hyrule_dns_control.py:531-586 | one record: its owner, type, TTL and values, each with its own condition, and the record that is stored |
| `Json.IntTextReads` | ansible/roles/knot/files/hyrule_dns_control.py:510 | the decimal text of a number, signed or not and with white space around it, is read as that number |
| `Acceptance.ValuesIff` | ansible/roles/knot/files/hyrule_dns_control.py:553-583 | all values of a record: accepted if and only if each is good; stored in order, each at its first place |
| `Acceptance.ValueIff` | ansible/roles/knot/files/hyrule_dns_control.py:554-581 | one value: the stripped text for A and for the other plain types, the canonical address for AAAA, quoted text as it is, and any other TXT as one character-string that reads as the stripped input |
| `Acceptance.IPv4Iff` | ansible/roles/knot/files/hyrule_dns_control.py:566-574 | an IPv4 address is accepted if and only if it is four numbers up to 255 in decimal, joined by dots |
| `Acceptance.QuadIsKept` | ansible/roles/knot/files/hyrule_dns_control.py:557-574 | four numbers with any white space around them are stored for an A record as they are, without it |
| `Acceptance.AddressIff` | ansible/roles/knot/files/hyrule_dns_control.py:566-574 | an IPv6 address is stored in canonical form, with its scope as given |
| `Acceptance.IdentityIff` | ansible/roles/knot/files/hyrule_dns_control.py:515-525 | a request without exactly the managed nameservers and SOA names, or without DNSSEC switched on, is refused |
| `Acceptance.OwnerLabelsIff` | ansible/roles/knot/files/hyrule_dns_control.py:454-463 | an owner is accepted if and only if it is labels of the pattern joined by dots, with a wildcard at most in front |
| `Acceptance.ZoneAcceptedIff` | ansible/roles/knot/files/hyrule_dns_control.py:436-444 | a zone is accepted, in its trimmed form, if and only if that is two host labels joined by a dot, neither in punycode; any other is refused as `invalid_zone` |
| `Acceptance.TrimmedMeets` | ansible/roles/knot/files/hyrule_dns_control.py:437-448 | names lose the white space around them, their case, and the dots at their end, and nothing else |
| `Refusals.RefusalIs` | ansible/roles/knot/files/hyrule_dns_control.py:506-595 | a refused request is answered with the error for the first thing wrong with it, in the order of the service, and of the first record that is not good or repeats a key |
| `CanonicalForm.AcceptedIsCanonical` | ansible/roles/knot/files/hyrule_dns_control.py:506-595 | whatever is accepted is canonical: fixed identity, distinct sorted keys, canonical values |
| `CanonicalForm.CanonicalIsFixed` | ansible/roles/knot/files/hyrule_dns_control.py:506-595 | a canonical payload is accepted again unchanged if and only if its values still fit 4096 characters |
| `CanonicalForm.RevalidationAccepts` | ansible/roles/knot/files/hyrule_dns_control.py:506-595 | validation is idempotent on an accepted request exactly as far as its quoted values fit |
| `CanonicalForm.LongTextOutgrows` | ansible/roles/knot/files/hyrule_dns_control.py:557-579 | 4095 letters are an accepted TXT value whose stored form is not accepted again |
| `CanonicalForm.OrderIsIrrelevant` | ansible/roles/knot/files/hyrule_dns_control.py:531-587 | acceptance and result do not depend on the order of the records |
| `CanonicalForm.CanonicalIsManaged` | ansible/roles/knot/files/hyrule_dns_control.py:506-595 | canonical payloads are what the store relies on |
| `CanonicalForm.AcceptedRoundTrip` | ansible/roles/knot/files/hyrule_dns_control.py:506-614 | an accepted payload prints to a file that reads back exactly if and only if its address texts are plain, as they are without scopes |
| `CanonicalForm.AcceptedLoads` | ansible/roles/knot/files/hyrule_dns_control.py:283-287 | a server that loads the printed file of an accepted payload with plain address texts serves what the payload means |
| `Loading.ScriptLoads` | ansible/roles/knot/files/hyrule_dns_control.py:283-287 | if what the journal and the request print loads as its content, so does every file that the script writes, and every journal that it saves may be printed again |
| `Loading.WrittenFilesLoad` | ansible/roles/knot/files/hyrule_dns_control.py:283-287 | on any run at all, power losses included, every zone file that the service comes to write loads as the content it counts by, if the requests print to such files |
| `Loading.AcceptedTaskLoads` | ansible/roles/knot/files/hyrule_dns_control.py:506-614 | accepted requests with plain address texts do |
| `CanonicalForm.UpdateEqualsLoading` | ansible/roles/knot/files/hyrule_dns_control.py:289-318 | the incremental update between two accepted payloads ends in the content loaded from the printed file of the new one |
| `CanonicalForm.ScopedAddressBreaks` | ansible/roles/knot/files/hyrule_dns_control.py:566-574 | the condition is needed: an accepted scoped address that does not read back |
| `PinText.FindPinIsLeftmost` | scripts/ci/promote-app-pins.py:105-107 | finds the digits of the first match of the pattern, and nothing only if there is no match |
| `PinText.PutThenFind` | scripts/ci/promote-app-pins.py:136-144 | an updated pin reads its new digits |
| `PinText.PutThenFindOther` | scripts/ci/promote-app-pins.py:136-144 | a pin with another name reads as before |
| `PinText.PutChangesOnlyTheWindow` | scripts/ci/promote-app-pins.py:136-144 | only the 40 characters of the pin change |
| `PinText.PutThenPut` | scripts/ci/promote-app-pins.py:136-144 | a second update replaces the first |
| `PinText.PutThenUndo` | scripts/ci/promote-app-pins.py:136-144 | the returned digits undo an update |
| `PinText.PutsCommute` | scripts/ci/promote-app-pins.py:136-144 | updates of two pins can be done in either order |
| `Pins.WriteThenRead` | scripts/ci/promote-app-pins.py:136-144 | in a repository of files an update changes what its own pin reads and no other |
| `Pins.UniversalLine` | scripts/ci/promote-app-pins.py:137 | reading a file takes each carriage return, with or without a line feed, as one line break and keeps everything else |
| `Pins.PromotionReads` | scripts/ci/promote-app-pins.py:84-95 | after a promotion every requested pin and every pin slaved to it reads the request, every other pin what it read before |
| `Pins.RequestedIs` | scripts/ci/promote-app-pins.py:57-63 | every argument that is not empty is requested with its stripped SHA, once and in the order of the arguments, and nothing else is |
| `Pins.ArgumentsRead` | scripts/ci/promote-app-pins.py:57-95 | in terms of the arguments: after the updates every pin of an argument that is not empty, and every pin slaved to it, reads the stripped SHA, and every other pin what it read before |
| `PinStops.HalfwayStops` | scripts/ci/promote-app-pins.py:83-95 | a promotion that fails has stopped at a request with a pin that cannot be found: the requests before it are carried out, nothing of those after it is, and none of its own slaved pins has moved unless its target has |
| `PinStops.StepsInTurn` | scripts/ci/promote-app-pins.py:83-95 | the updates come in the order of the requests, and of each the target before the slaved pins |
| `Pins.RunSucceedsIff` | scripts/ci/promote-app-pins.py:83-95 | the updates of a promotion all succeed if and only if every pin can be found beforehand |
| `Pins.RecordIs` | scripts/ci/promote-app-pins.py:87-95 | what is recorded of each update is its pin, the digits that the pin read beforehand, and those it got |
| `Pins.SlaveFollowsDriver` | scripts/ci/promote-app-pins.py:90-95 | a slaved pin ends equal to its driver |
| `Pins.SecondReplacesFirst` | scripts/ci/promote-app-pins.py:136-144 | updates are forgotten if all their pins are updated again, in whatever order |
| `Pins.RunIsIdleIff` | scripts/ci/promote-app-pins.py:136-144 | updates change nothing but line breaks if and only if every pin gets the digits it has |
| `Pins.PromotingBackRestoresIff` | scripts/ci/promote-app-pins.py:83-95 | the tool run again with the old SHAs of the requested pins always succeeds, and gives the files back, up to line breaks, if and only if every pin that was moved along had been equal to its driver |
| `Pins.LayoutIsSound` | scripts/ci/promote-app-pins.py:14-37 | the tool's own pins are distinct keys |
| `Pins.UndoRestores` | scripts/ci/promote-app-pins.py:173-174 | the recorded digits, put back in reverse order, restore every file up to line breaks |
| `Pins.UndoIsExactIff` | scripts/ci/promote-app-pins.py:136-144 | and exactly if and only if no touched file holds a carriage return |
| `Pins.UndoLosesCarriageReturn` | scripts/ci/promote-app-pins.py:136-144 | a file with a carriage return that does not come back |
| `Pins.PromotingBackFails` | scripts/ci/promote-app-pins.py:14-37 | a repository with the tool's own two proxy pins, with different digits, that promoting the network proxy and then promoting it back does not restore |
| `Pins.Repository.UpdatePin` | scripts/ci/promote-app-pins.py:136-144 | writes the file and returns what the pin read, or changes nothing |
| `Pins.Repository.PromoteSlaves` | scripts/ci/promote-app-pins.py:90-95 | the inner loop over slaved pins |
| `Pins.Repository.Promote` | scripts/ci/promote-app-pins.py:83-95 | the loop does all updates in order and records each; if one fails those before it stay |
| `Pins.Repository.PromoteAll` | scripts/ci/promote-app-pins.py:57-95 | nothing is touched if every argument is empty or one that is not is malformed; success leaves every pin reading as the arguments ask, `Pins.ReadsAsAsked`; otherwise the updates before the failing one stay |
| `BgpAgent.RunAgrees` | ansible/generated/extmon/extmon-bgp-agent.py:131-147 | after every run the counters are exactly those of the wanted prefixes' origins, origins are listed once, and a prefix is visible exactly if it has one |
| `BgpAgent.PolledPrefix` | ansible/generated/extmon/extmon-bgp-agent.py:118-147 | a good download leaves each wanted prefix the origins of all its rows that pass the filter, and an absent one invisible without counters |
| `BgpAgent.RowsKept` | ansible/generated/extmon/extmon-bgp-agent.py:118-123 | a row of a wanted prefix passes if and only if the text of its line mentions a wanted prefix |
| `BgpAgent.MentionsIff` | ansible/generated/extmon/extmon-bgp-agent.py:120 | a text mentions a prefix if and only if it is something, the prefix, and something more |
| `BgpAgent.OrdinaryRowShows` | ansible/generated/extmon/extmon-bgp-agent.py:118-147 | after a good download a row of a wanted prefix whose text contains it anywhere leaves the prefix visible, with that origin and a counter for it |
| `BgpAgent.PlainRowShows` | ansible/generated/extmon/extmon-bgp-agent.py:118-147 | for example the one line of bgp.tools for the prefix: visible with origin 215932 and 100 hits |
| `BgpAgent.HiddenRowIsLost` | ansible/generated/extmon/extmon-bgp-agent.py:118-123 | a legal line with an escaped solidus whose row is lost |
| `BgpAgent.PolledHits` | ansible/generated/extmon/extmon-bgp-agent.py:126-147 | a counter is the number on the last row of its origin |
| `BgpAgent.FailedPollChangesNoMap` | ansible/generated/extmon/extmon-bgp-agent.py:107-130 | a poll that is gated, breaks off or meets a bad line changes no prefix, no counter and not the gate |
| `BgpAgent.TableGathers` | ansible/generated/extmon/extmon-bgp-agent.py:118-130 | the accumulated table has an entry for exactly the prefixes with rows, with every origin once |
| `BgpAgent.HistorySummary` | ansible/generated/extmon/extmon-bgp-agent.py:66-75 | after any outcomes, whatever the clock, a source's status gives the last outcome and the times of the latest success and failure |
| `BgpAgent.RunSummarises` | ansible/generated/extmon/extmon-bgp-agent.py:66-149 | the same for every run of polls and other sources |
| `BgpAgent.FetchesAreSpaced` | ansible/generated/extmon/extmon-bgp-agent.py:108-112 | successive good downloads are over at least the interval apart |
| `BgpAgent.FetchesIff` | ansible/generated/extmon/extmon-bgp-agent.py:108-112 | a poll is let through exactly when the interval has passed since the end of the last good download |
| `TablePolls.PollShows` | ansible/generated/extmon/extmon-bgp-agent.py:107-147 | a poll in terms of its lines: every wanted prefix is visible exactly if a line counts for it, with the origins of these lines, each once and in the order of their first lines, and with the number on its last line as the counter of each |
| `TablePolls.RunShows` | ansible/generated/extmon/extmon-bgp-agent.py:107-149 | the same after any run, of the lines of its last good download, whatever failed, was held back or came from other sources since |
| `TablePolls.PollReports` | ansible/generated/extmon/extmon-bgp-agent.py:107-149 | the source is reported up exactly if no line spoiled the download and it did not break off; a poll that is held back changes nothing |
| `TablePolls.SpoiltIff` | ansible/generated/extmon/extmon-bgp-agent.py:118-130 | a download fails exactly if a line that passes the filter is no object, has a list or an object as its CIDR, or has a wanted prefix with something that is no number |
| `TablePolls.RowsInOrder` | ansible/generated/extmon/extmon-bgp-agent.py:118-130 | the rows of a download are those of the lines that count, in their order |
| `BgpAgent.ReadTable` | ansible/generated/extmon/extmon-bgp-agent.py:116-130 | the loop over the stream gathers the rows that count |
| `BgpAgent.Agent.RecordOutcome` | ansible/generated/extmon/extmon-bgp-agent.py:66-75 | records one outcome of a source |
| `BgpAgent.Agent.DropStale` | ansible/generated/extmon/extmon-bgp-agent.py:143-144 | deletes the counters of one prefix and no other |
| `BgpAgent.Agent.UpdateAll` | ansible/generated/extmon/extmon-bgp-agent.py:135-147 | brings every wanted prefix up to date, found or not |
| `BgpAgent.Agent.PollBgpTools` | ansible/generated/extmon/extmon-bgp-agent.py:107-149 | one poll changes the four maps together as specified |

## Left out

- Hosts.Host.WriteState: a state write that raises has left the old file in place; an error raised after the rename and before the directory sync, after which memory lags the disk, is not modelled.
- ZoneStore.ZoneStore.FindZone: only the part of the DNSKEY read under the guard; the read of the keys and the health answer happen outside it and nothing is claimed of them.
- StateFile.OwnStateLoads: JSON text is taken as parsed; what is proved is about the value that is dumped and loaded.
- Validation.ValidatePayload: the Python forms of numbers with underscores or digits of other scripts, infinities, nameservers given as an object, and the text of lists and objects used as names are simplified in `Json`.
- ZonePrinter.RoundTripIffPlain: the range of three-digit escapes and the meaning of the values to Knot are not part of the reader; values are compared as text.
- BgpAgent.PolledPrefix: origins are integers; their decimal text, under which the counters are kept, is one to one.
- The classes do not model the guard; the concurrent use of it is the subject of `Service`.
- HTTP handling, signatures, settings and the calling of subprocesses: plumbing around the modelled code.
- Crashes of knotd, DNSSEC material, transfers and the serials that signing gives: not visible in the code.
- Progress when Knot keeps rejecting a staged change: later mutations stay blocked until a replay succeeds.
- The pull-request body and the comparison with a git reference in the promotion script; its text encoding errors.
- The other pollers of the BGP agent enter only through what they record.
- The other scripts of the repository: table formatting, network clients, threshold checks.
