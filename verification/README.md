# Verification of vault-plugin-manager's controller logic

vault-plugin-manager is a Kubernetes controller that drives Vault toward a spec in a ConfigMap: plugin binaries on the
Vault pods, catalog registrations, mounts, engine configs and roles. This project models the decisions of that
controller in Dafny and proves what they guarantee over every input, every outcome of a request and every run.

Vault, the state Secret, the pods and the clock are small state machines. A request may fail, and a failed request may
still have taken effect (`Requests.Fate`). The controller's own objects are classes with the fields the program updates;
each method is proved against a function of its inputs or of the old state, and the guarantees are lemmas about those
functions or postconditions of the method itself.

| file | models |
|---|---|
| `Reconcile.dfy` | a whole pass: order, what it may destroy, convergence, steady state |
| `Leftovers.dfy`, `Outcome.dfy` | what a prune leaves, and what each outcome of a pass means, said of the declarations and of Vault alone |
| `Phases.dfy`, `Pruning.dfy` | phases 1 to 5 of a pass, which build, and 6 to 7, which prune |
| `Cluster.dfy` | what a pass acts on: pods, catalog, mounts, roles, records |
| `EngineConfigs.dfy`, `EngineConfigRuns.dfy`, `EngineConfigStep.dfy` | the engine config step: its decisions, its crash-prone protocol as a state machine, and the method as a run of that machine |
| `Scrub.dfy` | masking Secret values in error text |
| `RoleValues.dfy`, `RoleWrites.dfy` | role comparison and the memory of written key sets |
| `Mounts.dfy`, `Ownership.dfy` | tuning one mount; who owns a mount over whole runs |
| `Health.dfy`, `Watchdog.dfy`, `Runner.dfy` | the health clocks, the loop's watchdog, the trigger protocol |
| `Specs.dfy`, `SpecValidate.dfy`, `SpecDiff.dfy` | the spec, its validation, its change log |
| `Accepted.dfy` | from an accepted spec to what a pass takes for granted |
| `ShellQuote.dfy` | quoting for the pod shell, against the POSIX.1-2017 Shell Command Language, sections 2.2.1 to 2.2.3 and 2.3 |
| `Strings.dfy`, `Requests.dfy` | sorting, splitting, joining and trimming; request outcomes |

`dafny verify dfyconfig.toml` checks everything.

## Hypotheses

`Reconcile.Proper` collects what a pass takes for granted. Validation enforces part of it: role names are single
segments, engine configs are unique by path and on declared secret mounts (`Accepted.AcceptedIsProperIff`). It does not
enforce the rest: catalog entries, mounts and roles are declared once; file names of different plugins differ; no two
declared role places spell one path (nested mounts); in full mode no role lies deeper below a declared rolesPath than
one segment; roles hold no NaN and the plugin reads back what it was given. The claims about a converged Vault need only
that everything is declared once and that roles read back (`Reconcile.Distinct`). No claim supposes that requests
succeed: the ghost `faults` of `Cluster.Vault` counts the failing ones, and where success is promised it is promised of
a pass in which none failed. Each gap has its exact condition below.

## Edges of the code

- A full prune is documented to remove the binary (`internal/config/types.go:60-64`). The file to remove is named with
  the version Vault reports, the placed one with the declared version, so under another spelling (a leading "v") the
  binary stays (`Reconcile.PlacedFileIsRemovedIff`).
- With an "@" in a plugin name, nvKey takes `a` at `b@1` for `a@b` at `1`: a version nothing declares stays registered if a
  declared one is taken for it (`Leftovers.KeysAlikeIff`).
- A plugin named `a-1` at version `2` and a plugin `a` at version `1-2` share one file (`Reconcile.FileNamesClashIff`).
- With nested mounts the role prune can delete a declared role (`Reconcile.DeclaredRolePrunableIff`), and a role and an
  engine config can be one Vault path (`SpecValidate.NestedMountsCanCollide`).
- A LIST entry that stands for deeper paths (`name/`) is no declared name: every full pass sends a delete for it, which
  removes nothing (`Pruning.PruneSpot`).
- A role whose read fails is written, also in steady state (`Reconcile.QuietPass`, in `Reconcile.Resync`).
- A role write that lands and is reported as failed is not remembered: if the spec goes back, its keys stay
  (`RoleWrites.RevertedKeyStays`; exactly when: `RoleWrites.SilenceLeavesNothingIff`).
- An engine config write that lands without a record, because it was reported as failed or its pass did not get to its
  save, is not undone if the spec goes back: the old record still matches (`EngineConfigRuns.RevertedEntryIsStale`;
  exactly when: `EngineConfigRuns.SkippedEntryIsHeldIff`).
- EnsureMount and the prune act on a place after looking at it. If somebody puts another mount there in between, a tune
  can mark it (`Ownership.ForeignMountCanBeMarked`) and the prune unmounts it (`Ownership.ForeignMountCanBePruned`).
- Validation accepts mounts of type database, with which no pass succeeds (`Accepted.AcceptedIsMountableIff`).
- A scrubbed error can still spell a Secret value, if the value fits over the marker
  (`Scrub.NeverSurvivesIffItCannotFit`).
- The role memory cannot tell the empty body from one whose only key is the empty name
  (`RoleWrites.RemovalCostsOneWriteIff`); a NaN in a role is rewritten on every pass (`RoleWrites.OneWriteThenSilence`)
  and reported as changed whenever the ConfigMap is parsed again (`SpecDiff.ReparsedSpecIsQuietIff`).
- An engine config whose mount is slashes alone, on a mount declared the same way, is accepted with an empty mount path
  and then rejected if validated again (`SpecValidate.NormalisedSpecIsStable`).
- The change log names mount changes the reconciler does not act on (`SpecDiff.ReportedMountChangeWorksIff`).

## Model

| member | source | states |
|---|---|---|
| `Reconcile.Reconcile` | internal/reconcile/reconcile.go:89-199 | however a pass ends and whatever fails: without a failing request it succeeds iff the spec is feasible; it went by phase and left a phase only when everything tried in it was acknowledged; everything it tried to destroy was undeclared and, for mounts, marked when the pass began, a version only after its mount and a file only after its version; foreign mounts are as they were, every mount keeps its plugin and a new one runs the plugin it is declared with; a success has removed exactly the marked mounts nothing declares and the registrations of the versions these ran that no catalog entry or mount has, and in full mode the files of those versions, every undeclared role of a declared place, and of the declared roles the shadowed ones; for a proper spec, if it tried to destroy anything everything declared stands at the end, and a success reloads each plugin that moved exactly once and converges, but for old records it could not read while none is declared; over a converged Vault, with everything declared once, it sends one write for each role whose read failed and nothing else, and Vault stays converged |
| `Reconcile.Resync` | internal/reconcile/runner.go:128-215 | steady state under any failures: with an unchanged spec that declares everything once and no outside edits, once a pass left Vault converged, all later passes together send one write for each role whose read failed and nothing else, Vault stays converged, and each later pass in which no request fails succeeds |
| `Reconcile.DeclaredIsSpared` | internal/reconcile/reconcile.go:253-324 | nothing a pass may destroy is declared: no declared mount, no registration of a declared catalog entry or of a version a mount runs (up to a leading "v"), no declared binary, no declared role; roles and files go in full mode only, nothing goes in never |
| `Reconcile.Build` | internal/reconcile/reconcile.go:89-195 | phases 1 to 5: without a failing request they succeed iff the spec is feasible; success means, with everything declared once, that every binary, registration, mount, engine config and role is as declared and the reloads were exactly those owed; what stands is left alone under any failures, but for one write per role whose read failed |
| `Reconcile.BuildVault` | internal/reconcile/reconcile.go:107-188 | binaries, registrations, mounts, reloads: after success, with everything declared once, none of them is undone by a later one, and the plugins reloaded are exactly the newly registered ones and those of mounts enabled or moved; what stands is left alone whatever fails |
| `Reconcile.BuildContents` | internal/reconcile/reconcile.go:184-245 | engine configs before roles; after success, with everything declared once, both stand, and records of undeclared engine configs are gone unless none is declared and they could not be read; what stands is left alone whatever fails, but for one write per role whose read failed |
| `Reconcile.Prune` | internal/reconcile/reconcile.go:245-324 | role prune, then mount prune: only what the scope of the pass allows is tried, foreign mounts stay, and whatever declared stood still stands if the spec is unambiguous; success has removed exactly the abandoned mounts, the registrations of dropped versions and, in full mode, their files and the undeclared roles; with nothing to prune it sends nothing, whatever fails |
| `Reconcile.PruningLeavesStanding` | internal/reconcile/reconcile.go:253-324 | with no ambiguous role place and no shared file name, no outcome of a prune, failed ones included, undoes a declared binary, registration, mount, engine config or role |
| `Reconcile.DeclaredRolePrunableIff` | internal/reconcile/reconcile.go:223-273 | the role prune may delete a declared role iff another declared place on a mount that carries the marker once the mounts are ensured spells the same path and does not declare the name; a successful full pass has then deleted it (`Reconcile.Reconcile`) |
| `Reconcile.DeclaredRoleStays` | internal/reconcile/reconcile.go:253-273 | where declared places and paths correspond, no declared role is prunable |
| `Reconcile.FileNamesClashIff` | internal/reconcile/reconcile.go:326-328 | two plugins share a file name iff one name extends the other by a dash and the start of the other's version |
| `Reconcile.PlainVersionsAreApart` | internal/reconcile/reconcile.go:326-328 | file names of versions without a dash are equal only for the same plugin and version |
| `Reconcile.PlacedFileIsRemovedIff` | internal/reconcile/reconcile.go:313-321 | after a successful full pass a placed binary is gone iff a marked, undeclared mount of that plugin ran it under exactly the version it was placed with, and no catalog entry or mount declares that plugin and version: "1.0.0" placed and "v1.0.0" on the mount leaves it on the pods; supposed is that no marked mount of another plugin has a file of that name |
| `Reconcile.PrunableIff` | internal/reconcile/reconcile.go:245-276 | the role prune may delete a path iff it is a name or a folder under a declared place on a mount the pass owns, and no declared role has this mount, rolesPath and name |
| `Reconcile.RolesAreGone` | internal/reconcile/reconcile.go:245-276 | after a successful role prune only such paths are gone, all in full mode, and none of them with a plain name is left |
| `Leftovers.KeysAlikeIff` | internal/reconcile/reconcile.go:330-334 | two plugin versions have one key iff the plugins are equal and the versions up to a leading "v", or one name extends the other by "@" and the other version begins with what is left |
| `Leftovers.PlainNamesAreTold` | internal/reconcile/reconcile.go:330-334 | plugin names without "@" are never taken for one another |
| `Leftovers.StaleIff` | internal/reconcile/reconcile.go:281-303 | a mount is stale iff it carries the marker and no declared mount has its type and path, and its version is deregistered iff, besides, it is not empty and no catalog entry or mount of the spec has this plugin and version, or one that is taken for it |
| `Leftovers.PruneEffectIff` | internal/reconcile/reconcile.go:281-328 | the prune may deregister exactly the registrations of dropped versions, under the type and plugin of the mount and the version without its "v", and in full mode remove exactly the file named by plugin and version as reported |
| `Leftovers.StaleAreGone` | internal/reconcile/reconcile.go:281-324 | a prune that reached all that is stale has removed exactly the abandoned mounts, the registrations of dropped versions and, in full mode, their files from the pods; in deregister mode no file and in never nothing |
| `Outcome.StandingIff` | internal/reconcile/reconcile.go:89-243 | everything declared stands iff there are pods, every binary is on all of them with the checksum of its artifact and registered under its type, name and version, every mount is at its place with the declared version and, if marked, description and options, every engine config is recorded with the digest of what it declares now and the UUID its mount has now, and every role reads back at its path |
| `Outcome.FeasibleIff` | internal/reconcile/reconcile.go:89-199 | nothing but a failing request stops a pass iff there are pods, every binary can be fetched and is of a known type, no mount is of type database, and every engine config can be built and is on a mount that has a UUID or will be enabled |
| `Outcome.StirredIff` | internal/reconcile/reconcile.go:107-185 | a reload is owed to exactly the plugins that were not registered with file, version and checksum as declared, and those of mounts that were missing or had a version or an option off |
| `Outcome.AllowedIff` | internal/reconcile/reconcile.go:245-324 | a pass may try to destroy exactly what no declaration names: a marked mount, the registration and the file of the version it ran, an entry of a declared place |
| `Outcome.NothingToPruneIff` | internal/reconcile/reconcile.go:245-303 | nothing is left to prune iff every marked mount is declared, unless in never, and in full mode every entry listed at a declared place on a marked mount is declared there |
| `Outcome.ListedIff` | internal/vault/roles.go:267-290 | a LIST answers a name iff a role is there, or one lies deeper below the folder of that name |
| `Outcome.NoStaleRecordsIff` | internal/reconcile/engineconfig.go:124-135 | no stale record is left iff every recorded path is mount and path of a declared engine config |
| `Outcome.DeclaredOnceIff` | internal/reconcile/reconcile.go:89-243 | what a pass supposes of a spec: no two catalog entries of one type, name and version or of one file name, no two mounts of one type and path, no two engine configs and no two roles of one Vault path |
| `Outcome.UnambiguousIff` | internal/reconcile/reconcile.go:245-324 | and of what a prune could confuse: engine configs are on declared secret mounts, role names are segments and places of one path are one place, and no marked mount runs a binary named like another plugin's |
| `Outcome.PlacesFlatIff` | internal/reconcile/reconcile.go:245-273 | and in full mode: no role, live or declared, lies more than one segment below a declared place |
| `Reconcile.ScopeFromStart` | internal/reconcile/reconcile.go:141-199 | what the prune lists after the mounts were ensured, as far as it may touch it, was marked and undeclared when the pass began |
| `Phases.EnsureCatalog` | internal/reconcile/reconcile.go:107-139 | without a failing request it succeeds iff every entry can be fetched and has a known type; success, with everything declared once: every declared binary is on every pod with the fetched checksum and every version is registered with its file and checksum; the reload set is the entries whose registration did not match at the start; a settled catalog is left alone whatever fails |
| `Phases.EnsureEntry` | internal/reconcile/reconcile.go:107-139 | one catalog entry is settled without touching another entry's files or registration; a settled one is left alone whatever fails |
| `Phases.EnsureMounts` | internal/reconcile/reconcile.go:141-174 | without a failing request it succeeds iff no declared mount is of type database; after success every mount, declared once, conforms, undeclared ones are untouched even when it fails, every mount keeps its plugin and a mount that was missing runs the plugin it is declared with, the marker is added to missing mounts only, the desired ids are exactly the declared ones, and exactly the plugins of enabled or moved mounts are added to the reload set; settled mounts are left alone whatever fails |
| `Phases.MissingMountRunsItsPlugin` | internal/vault/mounts.go:74-106 | with every mount declared once, a declared mount that was missing before the phase or the pass and is there after it runs its declared plugin |
| `Phases.EnsureOne` | internal/reconcile/reconcile.go:147-173 | one mount: it conforms, no other is touched, a missing one runs the declared plugin, and a reload is owed iff it was missing or its version or options moved |
| `Phases.ReloadAll` | internal/reconcile/reconcile.go:176-185 | on success every plugin of the set was reloaded, each exactly once, and nothing else |
| `Phases.ReconcileEngineConfigs` | internal/reconcile/engineconfig.go:55-143 | in the pass: without a failing request it succeeds iff every body can be built from the Secrets and every mount has a UUID; a missing state Secret is created before the first write; success leaves nothing pending and no record of an undeclared key; with nothing to do it writes and saves nothing, whatever fails; unreadable state is an error only if engine configs are declared |
| `Phases.SaveKept` | internal/reconcile/engineconfig.go:124-142 | the records are saved iff a write landed or an undeclared record was dropped, and without the undeclared ones |
| `Phases.WritePending` | internal/reconcile/engineconfig.go:106-122 | the write loop stops at the first failure and records exactly the writes before it |
| `Phases.UpsertRoles` | internal/reconcile/reconcile.go:217-243 | after success every role, declared once and without NaN, reads back as declared and its key set is remembered; the desired names are exactly the declared ones by mount and rolesPath; settled roles cost one write each whose read failed and no other, and stay settled |
| `Phases.UpsertRole` | internal/vault/roles.go:41-54 | one role is settled and no other path or remembered key set changes; a settled one is written iff its read failed, and stays settled |
| `Pruning.PruneRoles` | internal/reconcile/reconcile.go:245-276 | full mode only: only entries listed directly under a declared rolesPath on a managed mount and not declared there are deleted, no such role is left after success, and nothing is sent iff there is no such entry |
| `Pruning.PruneSpot` | internal/reconcile/reconcile.go:258-273 | one declared rolesPath: success leaves no role name that is not declared there; a request is sent iff the LIST has an entry that is not declared, which a folder of deeper paths always is |
| `Pruning.PruneMounts` | internal/reconcile/reconcile.go:281-324 | only managed mounts outside of the desired ids go, then their version if nothing declared refers to it, then in full mode its file, each only after the one before was acknowledged; success leaves no undeclared managed mount; never does nothing; which versions these are is `Leftovers.StaleIff` |
| `Pruning.PruneOne` | internal/reconcile/reconcile.go:290-322 | one stale mount: the attempts are exactly disable, deregister, then one removal per pod, in this order, up to the first that failed |
| `Pruning.TurnsAreEarned` | internal/reconcile/reconcile.go:290-322 | taking such turns one mount after the other keeps it true of the whole log that every deregistration follows an acknowledged unmount and every removal an acknowledged deregistration |
| `Cluster.Vault.EnsureFile` | internal/k8s/pods.go:74-96 | success means the file has the wanted checksum; no copy if it had |
| `Cluster.Vault.EnsurePlugin` | internal/vault/catalog.go:26-53 | success means the version is registered under its type and name with the wanted file and checksum, in either case of its letters; it reports a change iff it was not, and such a registration is left alone; no other is lost |
| `Cluster.RegisteredIff` | internal/vault/catalog.go:26-53 | the test that leaves a registration alone holds iff it is of this type, name and version up to a leading "v", runs the file named by name and version, and has the checksum up to the case of letters |
| `Cluster.Vault.EnsureMount` | internal/vault/mounts.go:57-125 | the read, compare and write of one mount against a Vault that may fail before or after the write took effect: every mount keeps its plugin, only this place is enabled, with the declared plugin, version, description and options and the marker, and after a result a mount is there |
| `Cluster.Vault.EnsureRole` | internal/vault/roles.go:41-54 | one EnsureRole call of the role client, with its write in the log iff it was not silent |
| `Cluster.Vault.ListManagedMounts` | internal/vault/mounts.go:247-280 | exactly the live mounts that carry the marker |
| `Cluster.Vault.DisableMount` | internal/vault/mounts.go:228-243 | at most the one mount goes, and after success it is gone |
| `Cluster.Vault.DeregisterPlugin` | internal/vault/catalog.go:57-70 | at most the one registration goes, and after success it is gone |
| `Cluster.Vault.DeleteRole` | internal/vault/roles.go:294-300 | at most the one role goes, and after success it is gone |
| `Cluster.Vault.ListRoles` | internal/vault/roles.go:267-290 | the names one segment below a path and a folder, ending in a slash, for each first segment of a deeper path |
| `Cluster.Vault.RemoveFile` | internal/k8s/pods.go:99-104 | at most the one file goes, and after success it is gone |
| `EngineConfigs.SavedDocumentLoads` | internal/reconcile/engineconfig.go:169-194 | a saved document loads back as exactly the saved records iff each has a digest and a UUID |
| `EngineConfigs.SavedPassLeavesTheRest` | internal/reconcile/engineconfig.go:85-142 | checkpointing: with unchanged inputs a saved pass with n accepted writes leaves exactly the other pending writes, in order |
| `EngineConfigs.SavedRecordsAreExact` | internal/reconcile/engineconfig.go:106-140 | what a saved pass stores per key: the new record of a written entry, the old one of any other declared entry, none for an undeclared key |
| `EngineConfigs.RecordingClearsOne` | internal/reconcile/engineconfig.go:91-122 | recording one accepted write takes exactly that entry off the pending list |
| `EngineConfigs.NothingPendingIffAllRecorded` | internal/reconcile/engineconfig.go:85-158 | nothing is pending iff every declared entry is recorded with its digest and its mount's current UUID |
| `EngineConfigRuns.RunKeepsInv` | internal/reconcile/engineconfig.go:63-143 | the invariant behind the claims below holds after any sequence of steps, crashes, lost acknowledgements, conflicting saves, mount recreations and deletions of the state Secret |
| `EngineConfigRuns.RecordSoundness` | internal/reconcile/engineconfig.go:63-143 | in every reachable state each stored record is backed by an acknowledged write of a body with its digest to its key, in a pass that had read its UUID for the mount, no pass that stored the state Secret has rewritten the key since, and the stored document is one the loader accepts |
| `EngineConfigRuns.WritesFollowStateAndUuids` | internal/reconcile/engineconfig.go:64-106 | every Vault write was sent by a pass that had already read or created the state Secret and read a UUID for the mount |
| `EngineConfigRuns.PrefixTouchesNothing` | internal/reconcile/engineconfig.go:64-106 | in every reachable state in which a pass has not come to its writes, nothing was sent since it started and the state Secret was moved by others only |
| `EngineConfigRuns.FailedPrefixTouchesNothing` | internal/reconcile/engineconfig.go:64-106 | a pass that ends before its writes, by an error or a crash, sent nothing from its start on and left the state Secret as others made it, but for an unacknowledged create of the empty document |
| `EngineConfigRuns.SkippedEntryWasWritten` | internal/reconcile/engineconfig.go:85-95 | an entry a pass decides to skip was acknowledged with exactly this body at some time, by a pass that read the UUID its mount has now; what the key holds is the next two rows |
| `EngineConfigRuns.SkippedEntryIsHeldIff` | internal/reconcile/engineconfig.go:85-122 | the last write that landed at a skipped entry's key carried its body iff every lost write of another body (landed but reported as failed, or acknowledged by a pass that did not store the state Secret after it) was followed by a landed one of this body |
| `EngineConfigRuns.SettledEntryIsHeldIff` | internal/reconcile/engineconfig.go:85-142 | the same for every entry of a settled state |
| `EngineConfigRuns.RevertedEntryIsStale` | internal/reconcile/engineconfig.go:85-122 | and such a run exists: body a recorded, body b landed and lost, the spec back at a: nothing is pending, the state is settled, and the key holds b |
| `EngineConfigRuns.SaveCheckpoints` | internal/reconcile/engineconfig.go:106-142 | a save that takes effect stores exactly this pass's acknowledged writes over the old records of the declared keys; a pass with nothing to save would store what it loaded; what is stored loads |
| `EngineConfigRuns.SteadyStateIsFlat` | internal/reconcile/engineconfig.go:63-143 | once nothing is pending, no number of later passes, failed, crashed and restarted ones included, sends a write or changes the state Secret while the inputs stay |
| `EngineConfigRuns.CompletePassSettles` | internal/reconcile/engineconfig.go:106-142 | a pass that ends without an error reaches that steady state |
| `EngineConfigRuns.Put` | internal/k8s/secrets.go:31-56 | the state Secret's optimistic concurrency: a put changes it only if the version named is the one there, or none for a missing Secret; then it stores the document under a fresh version, and returns that version iff it was acknowledged |
| `EngineConfigRuns.ResolvedAllIffBuilt` | internal/reconcile/engineconfig.go:199-245 | the bodies are built iff every referenced Secret key is there, not empty and UTF-8 and every digest can be taken; then body i has exactly the keys of entry i's data and of its secretRef, each secretRef field is the text of the Secret key it names, every other key is the declared value, and its key is mount and path |
| `EngineConfigRuns.EverySentIsDeclared` | internal/reconcile/engineconfig.go:63-143 | over every run: each body sent holds what an entry of the spec its pass started with declares, by the Secrets that pass read, and was sent to that entry's path |
| `EngineConfigRuns.PendingIsDeclared` | internal/reconcile/engineconfig.go:85-106 | what a pass has yet to write is, one for one, built from its spec |
| `EngineConfigStep.WriteEngineConfigs` | internal/reconcile/engineconfig.go:63-143 | the method is a run of the state machine over this spec only and reads each Secret at most once; every body it sends holds exactly what an entry declares by the Secrets it read, and goes to that entry's path; it fails iff some step of it went wrong, but for unreadable state with nothing declared; if it does not come to its save, a step went wrong, nothing was sent and the state Secret was moved by others only; else every body was built, its last step is the save, and an unfailed one wrote everything pending and stored the records; however it ends, the values handed to the scrubber are exactly the Secret values read into bodies, in order |
| `EngineConfigStep.ReconcileEngineConfigs` | internal/reconcile/engineconfig.go:55-59 | the error of the step, whatever its text, is returned with every form of every value so collected masked |
| `EngineConfigStep.ErrorsHideTheBodies` | internal/reconcile/engineconfig.go:55-59 | no form of a Secret value that got into any body can be read in that error, whatever failed, unless the form fits over the marker |
| `EngineConfigStep.EveryBodyValueIsRead` | internal/reconcile/engineconfig.go:217-243 | every Secret value in a body built so far, or whose digest failed, is among the collected values |
| `EngineConfigStep.LoadState` | internal/reconcile/engineconfig.go:169-194 | only a missing Secret is empty state; an existing one loads iff its document is decoded and every record has a digest and a UUID, and then to exactly these; any other one is an error |
| `EngineConfigStep.ResolveEntries` | internal/reconcile/engineconfig.go:199-245 | each Secret is asked for at most once; the result is all bodies built from the Secrets found, as `EngineConfigRuns.ResolvedAllIffBuilt` says, or none and the first entry that cannot be built, after its Secret was asked for; the values are exactly those read into bodies up to there |
| `EngineConfigStep.CollectFields` | internal/reconcile/engineconfig.go:221-235 | a secretRef is usable iff every referenced key holds non-empty UTF-8; the values are those of the fields by name up to the first unusable one |
| `EngineConfigStep.ReadMountUuids` | internal/reconcile/engineconfig.go:249-266 | success iff the mounts could be read and every entry's mount is live with a UUID, and then the live UUIDs; nothing is read for no entries |
| `EngineConfigStep.PrepareState` | internal/reconcile/engineconfig.go:97-104 | a missing state Secret is created before the first write, and only then; a failure sends nothing |
| `EngineConfigStep.WritePending` | internal/reconcile/engineconfig.go:106-122 | the loop keeps to the machine's writes: first failure stops it, and it is dirty iff a write landed |
| `EngineConfigStep.DropRecords` | internal/reconcile/engineconfig.go:124-135 | exactly the undeclared records go, and dropping one makes the records dirty |
| `EngineConfigStep.WriteAndSave` | internal/reconcile/engineconfig.go:78-142 | from built entries to the save: it fails iff a step went wrong; without an error everything pending was written and what changed was stored; it stops before the writes only by an error |
| `EngineConfigStep.ListPending` | internal/reconcile/engineconfig.go:85-95 | the listing loop is the pending list of the lemmas |
| `Scrub.ScrubSecrets` | internal/reconcile/engineconfig.go:302-333 | the masking and printing loops compute the text in which each maximal run of bytes covered by an occurrence of a pattern is one marker; no error stays none |
| `Scrub.MaskPattern` | internal/reconcile/engineconfig.go:308-320 | a byte gets masked iff some occurrence of the pattern, self-overlapping ones included, covers it |
| `Scrub.IndexFrom` | internal/reconcile/engineconfig.go:311-314 | the first occurrence at or after an offset, or none |
| `Scrub.PrintRuns` | internal/reconcile/engineconfig.go:322-332 | the byte-by-byte printer prints the unmasked runs in order and one marker per maximal masked run |
| `Scrub.OrderAndRepetitionDoNotMatter` | internal/reconcile/engineconfig.go:302-333 | the text does not depend on the order or the repetition of the values |
| `Scrub.MaskedBytesLeaveNoTrace` | internal/reconcile/engineconfig.go:322-332 | messages that agree outside of the masked bytes print the same |
| `Scrub.PrintedBytesComeFromOrigins` | internal/reconcile/engineconfig.go:322-332 | every printed byte is a marker's or the unmasked message byte it comes from |
| `Scrub.OriginsKeepOrder` | internal/reconcile/engineconfig.go:322-332 | printed message bytes keep their order |
| `Scrub.UnmaskedBytesArePrinted` | internal/reconcile/engineconfig.go:322-332 | every unmasked byte is printed |
| `Scrub.OriginsKeepNeighbours` | internal/reconcile/engineconfig.go:322-332 | message bytes printed side by side were side by side: every gap shows a marker |
| `Scrub.OneMarkerPerRun` | internal/reconcile/engineconfig.go:322-332 | the text is as long as its unmasked bytes and one marker for each maximal masked run |
| `Scrub.SurvivorsTouchAMarker` | internal/reconcile/engineconfig.go:297-333 | wherever the scrubbed text still reads as one of the patterns, a marker is part of it |
| `Scrub.NeverSurvivesIffItCannotFit` | internal/reconcile/engineconfig.go:297-333 | a pattern is absent from every scrubbed text iff it cannot be laid over the marker so that the two overlap and agree; one that shares no byte with the marker cannot |
| `RoleValues.SameRoleValue` | internal/vault/roles.go:131-202 | true iff both values have the same canonical form (numbers and durations by seconds, null as the empty list, lists as multisets, objects key for key) and neither holds a NaN; and iff they are alike by constructor |
| `RoleValues.SameIsAlike` | internal/vault/roles.go:131-244 | by constructor: a number is itself, a JSON number what Float64 reads in it, a text the seconds read in it; two values are equal iff both read as one number that is not a NaN, or neither reads as one and they are the same null, text, boolean or time, lists that pair up one to one in any order, or objects of the same keys with equal values |
| `RoleValues.ReadValuesSameIff` | internal/vault/roles.go:137-160 | two values that read as numbers are equal iff the floats are and are no NaN |
| `RoleValues.SameItems` | internal/vault/roles.go:163-183 | the greedy matching over used items decides multiset equality of canonical forms: it never misses a perfect matching |
| `RoleValues.FirstUnused` | internal/vault/roles.go:169-177 | an unused equal item if there is one |
| `RoleValues.NoMatchMeansDifferent` | internal/vault/roles.go:168-182 | an item without an unused partner proves the lists differ as multisets, whatever was matched before |
| `RoleValues.RoleUpToDate` | internal/vault/roles.go:117-125 | every declared key is present and holds the declared value; extra keys do not count |
| `RoleValues.UpToDateObjects` | internal/vault/roles.go:186-192 | for objects of one size the key-by-key check is equality of canonical forms |
| `RoleValues.SameIsAnEquivalence` | internal/vault/roles.go:131-202 | symmetric and transitive, and reflexive exactly on values without NaN |
| `RoleWrites.KeySetsAreToldApart` | internal/vault/roles.go:76-83 | two key sets without NUL render alike iff they are equal or both within the set of the empty name |
| `RoleWrites.SubsetRendersAlikeIff` | internal/vault/roles.go:76-83 | a proper subset of the key names, NULs and empty names included, renders the same iff the whole set is the one empty name |
| `RoleWrites.ComputeRoleKeySet` | internal/vault/roles.go:76-83 | the rendered key set does not depend on map order |
| `RoleWrites.Client.EnsureRole` | internal/vault/roles.go:41-54 | silent iff the remembered key set is the declared one and the role reads back as declared; else it writes, and remembers only an acknowledged write |
| `RoleWrites.Client.SameRoleKeysAsLastWrite` | internal/vault/roles.go:59-64 | true iff the path is remembered with this key set |
| `RoleWrites.Client.RecordRoleKeys` | internal/vault/roles.go:66-73 | the path's key set is remembered and no other changes |
| `RoleWrites.MemoryIsTheLastWrite` | internal/vault/roles.go:41-83 | in every run a remembered key set is that of the last acknowledged write to the path in this process; an unacknowledged one leaves no trace in the memory |
| `RoleWrites.SilenceIsSound` | internal/vault/roles.go:41-83 | a silent call follows an acknowledged write of the same key names in this process, and every declared key reads back as declared; undeclared keys are the next row |
| `RoleWrites.SilenceLeavesNothingIff` | internal/vault/roles.go:41-83 | when a call is silent, the role has no key name beyond those the last acknowledged write left in it iff no unacknowledged landed write that still stands, after it, brought one; on a replacing plugin only the last such write stands, on a merging one all |
| `RoleWrites.RevertedKeyStays` | internal/vault/roles.go:41-54 | and such a run exists: a settled role, a write with more keys that lands and is reported as failed, the spec reverted: the role counts as settled, every later call that can read it is silent, and the keys stay |
| `RoleWrites.OneWriteThenSilence` | internal/vault/roles.go:41-54 | with a merging or a replacing plugin, the call after an acknowledged write is silent iff the body holds no NaN |
| `RoleWrites.RemovalCostsOneWriteIff` | internal/vault/roles.go:41-83 | dropping keys from a settled role, whatever their names, costs exactly one write and then silence, unless the empty name was the only key: then, and only then, a readable role is left as it is |
| `Mounts.DesiredOptions` | internal/vault/mounts.go:211-224 | declared options, the marker, an empty value for each dropped key; differs iff some key does not already read so |
| `Mounts.MountTune` | internal/vault/mounts.go:166-201 | version, description and options are tuned iff they are not as declared, the last two on owned mounts only; a reload is owed unless only the description moved |
| `Mounts.TuneNamesWhatIsOff` | internal/vault/mounts.go:166-224 | the tune names the declared version iff the live one differs beyond a leading "v", and on marked mounts the declared description iff it differs, and all options iff one does not read as declared: the declared ones, the marker, and an empty value for what is live and no longer declared |
| `Mounts.ConformsIff` | internal/vault/mounts.go:166-224 | a mount needs nothing iff its version is the declared one up to a leading "v" and, if it carries the marker, its description is the declared one and every option reads as declared, an absent one as empty |
| `Mounts.DifferingOptions` | internal/vault/mounts.go:211-224 | the loop's test is inequality of the options in effect, an empty value being an absent one |
| `Mounts.OneTuneSettles` | internal/vault/mounts.go:166-201 | applying the tune, to a Vault that merges options and to one that replaces them, leaves a mount that conforms, for which the next pass computes nothing, with the same owner |
| `Mounts.ChangeIffNonconforming` | internal/vault/mounts.go:166-201 | a change is reported iff the mount does not conform, a reload iff more than the description is off |
| `Mounts.EnabledConforms` | internal/vault/mounts.go:74-86 | a mount just enabled conforms and carries the marker whatever was declared; that it runs the declared plugin is the row of `Mounts.ActRunsDeclared` |
| `Mounts.ActMarksIff` | internal/vault/mounts.go:68-125 | the request of an EnsureMount whose listing saw one thing and finds another: it touches no other mount and never takes a marker away; it marks an unmarked mount iff it lands with a tune computed from a marked one |
| `Mounts.ActRunsDeclared` | internal/vault/mounts.go:68-125 | whatever was seen and whatever is there by now, the request enables only a place seen empty and still empty, with the declared plugin, version, description and options and the marker; a mount that is there keeps its plugin and its UUID |
| `Mounts.EnsuredRunsDeclared` | internal/vault/mounts.go:57-125 | the same of the whole EnsureMount: a result for a missing place means that a mount with what is declared is there |
| `Mounts.EnsureMountConforms` | internal/vault/mounts.go:57-125 | without an error the mount conforms, and a conforming one was left as it was |
| `Ownership.MarkerIffEnabled` | internal/vault/mounts.go:68-125 | over every run of looks, acts, listings and disables interleaved with outside enables, tunes and disables, the marker is at all times on exactly the mounts EnsureMount enabled iff no act of the run was misdirected: a landing tune computed from a marked mount that meets an unmarked one |
| `Ownership.SameMountIff` | internal/vault/mounts.go:68-125 | between its look and its act, the mount the manager is about to act on has the UUID of the one it saw iff nobody disabled that one since |
| `Ownership.MisdirectedActsOnAnotherMount` | internal/vault/mounts.go:68-125 | a misdirected act needs an outside disable after the look, and hits a mount of another UUID |
| `Ownership.ForeignMountCanBeMarked` | internal/vault/mounts.go:68-94 | and such a run exists: the marker ends up on a mount the manager never enabled |
| `Ownership.PruneHitsItsOwnIff` | internal/reconcile/reconcile.go:281-324 | a live mount the prune is about to disable from its list is one this manager enabled iff nobody disabled the listed one since, and iff it has the listed one's UUID |
| `Ownership.ForeignMountCanBePruned` | internal/reconcile/reconcile.go:281-324 | and a foreign mount enabled in place of a listed one is unmounted |
| `Health.State.Snapshot` | internal/health/health.go:258-341 | after every history of reports: live iff the informer runs, now is not past the promise of the last heartbeat (or the startup grace), and the token has not been failing for longer than the fail window set last; ready iff the informer runs, some pass was clean, the token has not been failing for longer than the grace set last, and no watch episode that is still on began more than the grace ago |
| `Health.State.RecordWatchError` | internal/health/health.go:128-147 | a failure after more than the quiet window starts a new episode, any other one extends it |
| `Health.State.RecordWatchHealthy` | internal/health/health.go:151-157 | a delivery ends the episode |
| `Health.State.RecordTokenValid` | internal/health/health.go:179-185 | the token clock stops |
| `Health.State.RecordTokenInvalid` | internal/health/health.go:190-200 | the first failure starts the token clock, later ones leave it |
| `Health.State.RecordReconcile` | internal/health/health.go:216-226 | only a clean pass opens the startup gate |
| `Health.FieldsMean` | internal/health/health.go:258-341 | the tests the probes make on the fields, in terms of the reports alone |
| `Health.TokenWindowsAreTheLastSet` | internal/health/health.go:172-177 | after every history the token windows in force are the grace and the fail window set last, or those of the start |
| `Health.TokenDownIff` | internal/health/health.go:179-200 | the token has been failing since t iff t is the first failure after it was last valid, or the start if it never was |
| `Health.WatchGraceIsTheLastSet` | internal/health/health.go:120-124 | the watch grace in force is the one set last, or that of the start |
| `Health.WatchClockIsTheEpisode` | internal/health/health.go:128-169 | after every history the watch clock is the first failure of the last episode, and the last failure: an episode is a maximal chain of failures without a delivery in between, each no further from the one before than a minute and the grace in force then |
| `Health.WatchUnreadyIff` | internal/health/health.go:272-300 | the watch half of readiness fails iff the last failure is no older than a minute and the grace, and the episode it ends began more than the grace ago |
| `Health.EpisodeIsUnique` | internal/health/health.go:128-147 | there is one such episode at most |
| `Health.TokenClockIsTheFirstFailure` | internal/health/health.go:179-200 | after every history the token clock is the first failure since the token was last valid, or process start |
| `Health.ReadyIffSomeCleanPass` | internal/health/health.go:216-238 | the startup gate is open iff some pass was clean; skips do not open it |
| `Health.DeadlineIsTheLastHeartbeat` | internal/health/health.go:205-209 | the loop deadline is the one promised with the last heartbeat, or the startup grace |
| `Health.ClocksAreConsistent` | internal/health/health.go:96-200 | a token that is not valid has a clock and the two watch clocks run together, after every history |
| `Runner.NoLostUpdate` | internal/reconcile/runner.go:94-173 | in every interleaving a ConfigMap newer than the last read one has a handler about to notify, a buffered trigger or a loop about to read; only ConfigMaps that were present, with some text that is not white space, and valid are reconciled, and never an older one after a newer |
| `Runner.NewestIsReadWithoutTheTimer` | internal/reconcile/runner.go:145-173 | from every such state the loop's own steps bring it to a pass over the newest ConfigMap without the timer |
| `Runner.Shared.CurrentSpec` | internal/reconcile/runner.go:262-281 | the loop's read step: the text of the newest ConfigMap iff it is present, holds a character that is no Unicode white space, and is valid |
| `Runner.Shared.Notify` | internal/reconcile/runner.go:284-289 | the handler's second step: a trigger is buffered afterwards, and notifying never blocks |
| `Runner.Shared.Wake` | internal/reconcile/runner.go:145-173 | the loop's select: waking by the trigger takes it off the channel, waking by the timer leaves it |
| `Watchdog.LiveIffWithinTheAllowance` | internal/reconcile/runner.go:128-215 | over every history of passes, waits and live settings changes the loop is live iff its pass has lasted no longer than the stall timeout in force, or its wait no longer than that and the resync interval |
| `Watchdog.HistoryTells` | internal/reconcile/runner.go:128-215 | what the loop is doing since when, and by which settings, from its history alone: it passes since its last wake, waits since the end of its last pass or since the start, and the settings are those of the last usable ConfigMap it woke for, or five and ten minutes |
| `Watchdog.PunctualLoopIsLive` | internal/reconcile/runner.go:128-215 | a loop that keeps its times is never found dead |
| `Watchdog.StoppedLoopIsFound` | internal/reconcile/runner.go:128-215 | a loop that stops is found dead once its resync and stall have passed, whatever else reports meanwhile |
| `Watchdog.DeadlineIsTheAllowance` | internal/reconcile/runner.go:165-215 | the declared deadline is always the start of the current activity plus its allowance |
| `SpecValidate.Spec.Validate` | internal/config/parse.go:29-99 | accepts a spec iff none of the faults is in it: settings out of range, an entry without what it needs or of an unknown type, a mount of no declared plugin, a role on no declared mount, named config or with a slash, an engine config on no declared secret mount, a path with an empty or dotted segment, a body that is empty, badly named, set twice or not writable, two engine configs of one Vault path, one in the place of roles; and leaves an accepted one with every subpath normalised |
| `SpecValidate.RejectedIffFaulty` | internal/config/parse.go:29-303 | every reason to reject, each stated apart from the checks, and no other |
| `SpecValidate.NormalisedMeans` | internal/config/parse.go:72-123 | an accepted spec has roles for an omitted rolesPath, config for an omitted path, any other one and the mount of an engine config without outer slashes, and nothing else moved |
| `SpecValidate.EngineValueOkIff` | internal/config/parse.go:192-229 | a value can be written iff it is and holds, at any depth, no date and no number that is not finite |
| `Specs.DefaultedIsValidIff` | internal/config/parse.go:266-293 | with the defaults filled in settings are valid iff those given are, a fail timeout being compared with the grace given or the default one |
| `SpecValidate.Spec.ValidateCatalog` | internal/config/parse.go:34-48 | every catalog entry is checked, and the plugin names are collected |
| `SpecValidate.Spec.ValidateMounts` | internal/config/parse.go:50-70 | every mount is checked, and the types declared per normalised path are collected |
| `SpecValidate.Spec.ValidateRoles` | internal/config/parse.go:72-96 | every role is checked against the declared mounts and normalised in place |
| `SpecValidate.Spec.ValidateEngineConfigs` | internal/config/parse.go:103-169 | every engine config is on a declared secret mount, apart from the roles, unique by Vault path, and normalised in place |
| `SpecValidate.ComputeNormSubPath` | internal/config/parse.go:231-248 | the default for an omitted path, the trimmed path if it has only proper segments, else a rejection |
| `SpecValidate.NormSubPathIsNormal` | internal/config/parse.go:231-248 | normalisation is idempotent and yields only non-empty, non-dot segments |
| `SpecValidate.CheckBody` | internal/config/parse.go:137-190 | something to write, well named secret fields, no field set twice, no date and no number that is not finite at any depth |
| `SpecValidate.NormalisedSpecIsStable` | internal/config/parse.go:72-169 | an accepted spec normalised once is normalised; it is accepted again iff no engine config names its mount by slashes alone |
| `SpecValidate.EngineConfigsAndRolesAreApart` | internal/config/parse.go:103-135 | in an accepted spec no two engine configs share a path, and on their mount no declared role and nothing the role prune could delete has an engine config's path |
| `SpecValidate.CollisionNeedsNestedMounts` | internal/config/parse.go:103-135 | across mounts a role and an engine config share a Vault path only if one mount lies under the other |
| `SpecValidate.NestedMountsCanCollide` | internal/config/parse.go:103-135 | and it always can: a whole spec with mounts a and a/b, role d under b/c of the first and engine config c/d of the second is accepted, and the two are one Vault path |
| `Accepted.AcceptedIsProperIff` | internal/config/parse.go:29-169 | an accepted spec is what a pass takes for granted iff it passes what validation does not look at: catalog entries, mounts and roles declared once, roles a plugin reads back, places apart and flat, file names apart; validation ensures the rest |
| `Accepted.EnginesHaveMounts` | internal/config/parse.go:103-120 | an accepted engine config is on a declared secret mount, by the id the reconciler uses |
| `Accepted.AcceptedIsMountableIff` | internal/config/parse.go:50-70 | an accepted spec passes the mount phase iff it declares no mount of type database, which validation accepts and Vault's client rejects |
| `Accepted.DiffKeysAreTheReconcilers` | internal/config/diff.go:217-243 | the change log tells the entries of an accepted spec apart exactly as the reconciler does: catalog entries by release, mounts by type and place, engine configs and roles by the Vault path they are written to |
| `SpecDiff.Diff` | internal/config/diff.go:54-71 | settings, catalog, mounts, engine configs, roles, in that order; nothing without a new spec, everything against the defaults without an old one |
| `SpecDiff.DiffSection` | internal/config/diff.go:100-126 | the loop over the sorted union of keys is the section diff of the lemmas |
| `SpecDiff.SectionDiffIsExact` | internal/config/diff.go:100-215 | added and removed keys are the key differences, a shared key is reported iff a compared field differs and with what differs, each key once and in increasing order |
| `SpecDiff.DetailTells` | internal/config/diff.go:278-304 | what a change tells: of a catalog entry its type and its source, of a mount its plugin, its version beyond a leading "v", its description and the options that differ, each iff it differs |
| `SpecDiff.BodyDetailTells` | internal/config/diff.go:187-277 | of an engine config which data keys moved, whether the secretRef came or went, and else its name and which of its fields moved; of a role which data keys moved |
| `SpecDiff.LastOfItsKey` | internal/config/diff.go:100-108 | of entries with one key the last one is compared |
| `SpecDiff.ChangedKeys` | internal/config/diff.go:320-347 | exactly the differing keys, sorted, without duplicates |
| `SpecDiff.UnionKeys` | internal/config/diff.go:363-376 | the union of the keys, sorted, without duplicates |
| `SpecDiff.DiffSettings` | internal/config/diff.go:73-98 | one change per moved setting, in declaration order |
| `SpecDiff.SettingsQuietIff` | internal/config/diff.go:73-98 | no settings change is reported iff all settings are equal |
| `SpecDiff.SettingsTold` | internal/config/diff.go:73-98 | exactly the settings that moved are reported by name, each once and in the order they are declared |
| `SpecDiff.SectionQuietIff` | internal/config/diff.go:100-215 | a section is quiet iff the keys are the same and no shared entry differs in a compared field |
| `SpecDiff.ReparsedSpecIsQuietIff` | internal/config/diff.go:54-215 | a spec against the same text parsed again, which shares no map or slice with it, is quiet iff no engine config and no role that counts holds a NaN |
| `SpecDiff.UnreportedMountKeepsItsWork` | internal/config/diff.go:289-304 | a mount that is not reported needs exactly the work it needed before |
| `SpecDiff.ReportedMountChangeWorksIff` | internal/config/diff.go:289-304 | of the reported fields, a plugin move and options that differ only in empty values cause no work on a mount in its declared state; every other one does |
| `ShellQuote.QuoteReadsBack` | internal/k8s/pods.go:116-118 | from any state between tokens or inside a word, the shell's lexer adds exactly the text to the word |
| `ShellQuote.QuoteIsOneWord` | internal/k8s/pods.go:116-118 | a quoted text is exactly one word whose value is the text |
| `ShellQuote.QuoteIsOneWordInContext` | internal/k8s/pods.go:116-118 | and also between blanks or tabs in a larger command |
| `ShellQuote.QuoteIsInjective` | internal/k8s/pods.go:116-118 | different texts quote differently |
| `ShellQuote.CommandReads` | internal/k8s/pods.go:63-104 | a command of bare words, quoted texts and operators is read as those tokens in order, and no quote is left open |
| `ShellQuote.ScriptsReadAsMeant` | internal/k8s/pods.go:62-104 | whatever the path, the three script texts are read as the commands they are meant to be, if the unquoted file mode is a plain word |
| `Strings.SplitJoin` | internal/vault/roles.go:76-83 | splitting a join of separator-free parts gives the parts back, but for the one empty part |
| `Strings.JoinSplit` | internal/config/parse.go:231-248 | joining the split gives the text back |
| `Strings.SortStrings` | internal/config/diff.go:363-376 | a strictly increasing sequence of exactly the given strings |
| `Strings.SortKeys` | internal/config/diff.go:363-376 | the sorted keys of a map do not depend on the order the map gives them in |
| `Strings.IncreasingIsUnique` | internal/config/diff.go:363-376 | a set of strings has one strictly increasing sequence |
| `Strings.LessIff` | internal/config/diff.go:363-376 | the order of strings: a proper prefix first, else by the first character that differs |
| `Strings.Trim` | internal/vault/mounts.go:297-297 | the text without its leading and trailing slashes |
| `Strings.TrimSlashesIsTheTrim` | internal/vault/mounts.go:297-297 | a text is the trimmed path iff it is the path without leading and trailing slashes and has none itself |

## Left out

- HTTP, OCI images and archives (`internal/fetch`): a fetch succeeds with the checksum of its source's binary or fails.
- The Kubernetes and Vault clients' transport, the informer, exec streams, Vault login and token renewal: each request
  is a step with one of three outcomes.
- YAML, JSON bytes, UTF-8 validation, `strconv`, `time.ParseDuration` and SHA-256: function parameters, the digest
  assumed injective only where a member says so. Strings are sequences of characters; error text is bytes.
- Log lines, metrics, report strings, the probe server, flags and the Helm chart; of the change log the detail of an
  added or removed entry, which is only text.
- `secretPatterns`: the forms of a value that are looked for are any list of byte strings.
- `map[any]any` role values, and the location part of equal times.
- Three readings of the clock inside one health call are one reading, and declaring the deadline and resetting the timer
  take no time.
- The infinite `Run` loop, its informer and its handlers are step machines (`Runner`, `Watchdog`), not a method.
- A reload owed by a failed pass: the claims about reloads are per successful pass, as the code keeps none.
- Unmounting does not erase the roles below the mount.
- The pass in `Reconcile` reads the Secrets, the state and the mounts of its engine config phase from one state of the
  world; others at work in between, conflicting saves and crashes are the subject of `EngineConfigRuns` and
  `EngineConfigStep`, and others at work on mounts that of `Ownership`, whose look and act with nobody in between are
  `Cluster.Vault.EnsureMount` (`Mounts.EnsureIsLookThenAct`).
- The informer's part of liveness is a parameter of `Health.State.Snapshot`.
- Phases.ReloadAll: the order of the reloads is a Go map's and is left open.
- Cluster.Vault.EnsureMount: secret and auth mounts behave alike here, as the two Vault endpoints do.
