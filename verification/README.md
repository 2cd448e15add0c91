# mise: proofs about its state handling

A Dafny 4.11 model of the parts of mise that keep state correct between runs, with proofs of what they promise.
`dafny verify dfyconfig.toml` checks everything.

- **The lockfile** (`Records`, `RecordToml`, `ProvenanceHistory`, `Entries`, `EntryMergeLaws`, `RelockFixpoint`,
  `ToolLists`, `Lockfiles`, `Preserving`, `ProvenanceBaselines`, `Update`, `UpdateLookup`, `Comparison`, `LockedLookup`,
  `MergedView`, `Rulings`, `NearestFirst`, `History`, `Retaining`).
  A lockfile maps each tool to entries; an entry has a version, options, the requests bound to it and a record per
  platform. `Records` merges two records of one artifact, `Entries` merges a tool's fresh entries with those already
  locked, `Lockfiles` holds the class whose methods change entries in place, and `History` proves what every operation
  keeps over whole runs: distinct keys, and that an unconfirmed checksum never turns into a download pin.
- **Skill links** (`SkillSync`). A directory of links and a persisted record of those mise made, changed effect by
  effect with a crash possible between any two.
- **The prompt hook** (`PromptHook`, `DeactivatedPath`). The fast and the slow check, the flag between them, the
  session that a full run stores, and undoing PATH changes on deactivation.
- **Suggestions** (`EditDistance`), **release age** (`ReleaseAge`), **URL against version** (`UrlVersion`) and
  **resource selection** (`ResourceSelection`).

`Ordering` and `Wrappers` are the orders, options and lists the others share.

Code that changes things step by step is a class or a method with loops, proved against a function of the old state;
what mise promises about the result is then proved about that function. Code made of expressions is a function.

## What the proofs found

Each of these is a property one would expect, with the exact condition under which the code has it.

- *Pruning forgets links outside installs.* With pruning, a recorded link whose target is outside `installs` is
  neither removed nor kept in the record (`SkillSync.PruneForgetsOutsideLinks`), and for the same reason an
  interrupted sync run again converges exactly if it does not prune or only makes links inside `installs`
  (`SkillSync.RerunConverges`).
- *A crash can leave a temporary link.* A link is made under a temporary name and renamed. One left over there is in
  no record and no later sync removes it (`SkillSync.TemporaryStays`); the other laws hold around it.
- *A mark without a checksum can be lost.* Merging a record into its own merge changes nothing that is written,
  except exactly where a checksum source is set beside no checksum (`Records.Absorption`, `Records.MarkIsLost`). So
  locking again what was just locked is a fixpoint exactly if no such mark is in play
  (`RelockFixpoint.RelockIsFixpoint`, and `RelockFixpoint.RelockLosesMark` for entries where it is not), which one
  fresh entry per key ensures (`RelockFixpoint.OneFreshEntryPerKey`).
- *Provenance crosses checksum algorithms.* Two checksums of different algorithms are never seen to differ, so the
  stretch of installs whose provenance is merged can be longer than the stretch that agrees on URL and checksum
  (`ProvenanceHistory.ProvenanceCrossesAlgorithms`); `ProvenanceHistory.OnlyAgreeingCallsCount` says exactly when that
  shows.
- *A SLSA URL can be dropped.* Provenance compares equal by kind alone, so an unbound entry is dropped as superseded by
  a bound one with the same record but for the SLSA URL (`Retaining.SlsaUrlIsDropped`). All data of dropped entries
  stays exactly if each has a bound sibling that covers it with the same SLSA URLs (`Retaining.SupersededDataStays`).
- *A deferred comparison can be lost.* The update keeps the baseline that an unverified upgrade is to be compared with,
  but the later comparison looks only at the highest prior. So the upgrade is compared with nothing where the merge
  puts a prior there that is not below it (`Comparison.ComparisonSurvives`, `Comparison.ComparisonIsLost`), and the
  baseline is then free to be pruned (`Comparison.BaselineIsFreed`).
- *A request can be locked and then be ambiguous.* A lookup reads a request's options under each entry's recorded
  backend, while binding a request unbinds it only from entries of the same options. After an update the lookup finds
  the entry just locked exactly if it is read with the options it was locked for and no kept entry of other options
  still binds the request under a backend that asks for those (`UpdateLookup.LockedIsFound`,
  `UpdateLookup.RebackendedIsAmbiguous`).
- *The merged view can misread a binding.* Under each key it keeps the backend of the first lockfile that has it.
  It has the deciding entries of all lockfiles exactly if no bound key is misread that way
  (`NearestFirst.MergedRulingIsUnion`, `NearestFirst.MisreadHappens`).
- *An exact binding outvotes a nearer one without options.* With no key misread, the lookup over several lockfiles
  gives the version of the nearest one that decides, except exactly where that one has the request only without
  options and a single exact entry of another version exists elsewhere, or where it cannot be read while the others
  decide (`NearestFirst.MergedAgreesUnlessOutvoted`, `NearestFirst.OutvotedHappens`). What holds with misread keys
  is `NearestFirst.LookupAgreesByFirstReading`.
- *The last day is silent.* The search for a release's eligible instant probes from a day on, so an age that ends
  within the last representable day yields none (`ReleaseAge.FixedAgeEligibleAt`, `ReleaseAge.LastDayIsSilent`).
- *A session must settle.* The prompt after a full run exits early exactly if everything the session stores exists and
  every loaded config is covered by what is watched (`PromptHook.StableAfterFullRun`).
- *Edit distance here is no metric.* The triangle inequality fails (`EditDistance.NoTriangleInequality`).

## Model

| member | source | states |
|---|---|---|
| Records.MergeIsMax | src/lockfile.rs:541-559 | merged provenance is one of the two, of the greater priority, and loses no SLSA URL |
| Records.MergeIsAssociative | src/lockfile.rs:552-559 | merging provenance does not depend on grouping |
| Records.MergeArtifacts | src/lockfile.rs:778-794 | artifacts are paired by position and the longer tail is kept |
| Records.ArtifactAbsorbs | src/lockfile.rs:730-775 | an artifact record absorbs itself exactly if it is well marked or both are for one URL |
| Records.Absorption | src/lockfile.rs:957-1071 | re-merging a record into its own merge changes nothing that is written, if and only if no mark without a checksum is lost |
| Records.SelfMerge | src/lockfile.rs:957-1071 | a record merged with itself changes only where it loses such a mark, and then can lose none any more |
| Records.MarkIsLost | src/lockfile.rs:968-997 | two records for which the second merge does lose the mark |
| Records.UpdateIsMerge | src/lockfile.rs:2225-2334 | but for a rebuild from source, writing a new record over an old one is merging it, if and only if the merge prefers no old sha256 checksum, no old dependency list is kept and no mark lacks its checksum |
| Records.RebuildIsNoMerge | src/lockfile.rs:2225-2334 | where a record built from source is rebuilt, a merge takes nothing about the artifact from the old record and an update all that the new one lacks |
| Records.PinOrigin | src/lockfile.rs:942-1071 | a merge or an update never makes an unconfirmed checksum usable as a download pin, for the artifact or an additional one |
| Records.ConfirmedOnEitherSide | src/lockfile.rs:655-669 | a checksum both records hold is confirmed in the result exactly if it was on either side, or on the new side alone across a change of artifact |
| Records.ConfirmedArtifact | src/lockfile.rs:746-753 | the same for an additional artifact of one URL |
| Records.ProvenanceFollowsBytes | src/lockfile.rs:957-1071 | provenance does not carry over to another artifact or checksum, and is otherwise the stronger of the two |
| Records.MergeTakes | src/lockfile.rs:957-1071 | what the new record has it keeps, but for a checksum where the other has a sha256 one of the same artifact; what it lacks comes from the other, if that describes the same artifact |
| Records.SignerGoesTogether | src/lockfile.rs:957-1071 | the signer, its attester and the forge IDs come from one side together, whatever the artifact |
| Records.FlagGoesWithProvenance | src/lockfile.rs:957-1071 | the legacy flag stays with the provenance it was read with |
| ProvenanceHistory.StoredProvenance | src/lockfile.rs:2200-2342 | after any sequence of calls the URL and checksum are the last call's and the provenance is the merge over exactly the last stretch of linked calls |
| ProvenanceHistory.LinkedFromIsMaximal | src/lockfile.rs:2225-2260 | that stretch is the longest one of calls for one URL whose checksums do not show other bytes |
| ProvenanceHistory.MergedProvenanceIsStrongest | src/lockfile.rs:552-559 | the merged provenance is as strong as the strongest of the stretch |
| ProvenanceHistory.SlsaUrlIsLatest | src/lockfile.rs:552-559 | a merged SLSA provenance has the latest URL that a call of the stretch gave |
| ProvenanceHistory.AgreeingFromIsMaximal | src/lockfile.rs:676-703 | the longest last stretch of calls that agree on URL and, ignoring case, on the checksum |
| ProvenanceHistory.AgreeingCallsAreLinked | src/lockfile.rs:676-686 | agreeing calls are linked, so the merge covers at least them |
| ProvenanceHistory.OnlyAgreeingCallsCount | src/lockfile.rs:2200-2342 | the stored provenance is the merge over exactly the agreeing calls, if and only if what linked calls before them gave is outweighed |
| ProvenanceHistory.StretchesCoincide | src/lockfile.rs:676-703 | the linked stretch is the agreeing one, if and only if it does not reach further back |
| ProvenanceHistory.OneAlgorithm | src/lockfile.rs:676-686 | with one checksum algorithm it never does |
| ProvenanceHistory.ProvenanceCrossesAlgorithms | src/lockfile.rs:676-686 | calls of two algorithms whose provenance carries over to another checksum |
| RecordToml.RoundTrip | src/lockfile.rs:1074-1322 | parsing the printed table gives back all that is written, if and only if the record is well formed |
| RecordToml.ParsedIsWellFormed | src/lockfile.rs:1074-1247 | every accepted value parses to a well-formed record |
| RecordToml.ParsePrintParse | src/lockfile.rs:1074-1322 | parse, print, parse gives the first parse, and printing is stable from then on, old forms included |
| RecordToml.LegacyUrlIsKept | src/lockfile.rs:1074-1247 | a legacy `provenance_url` survives as the SLSA URL in today's form |
| RecordToml.ArtifactRoundTrip | src/lockfile.rs:1074-1322 | an additional artifact survives printing and parsing but for its size |
| RecordToml.LegacyChecksumIsKept | src/lockfile.rs:1074-1087 | a record that is a bare string is that checksum, without a mark and with nothing else, and survives printing |
| RecordToml.Refused | src/lockfile.rs:1074-1247 | values that are no record, forge IDs beside it, a negative size and words that are not allowed are refused |
| RecordToml.ReadButNotWritten | src/lockfile.rs:1074-1247 | a size and the unavailable attestations are read though never written, the latter only without provenance |
| RecordToml.EmptyPrintsNothing | src/lockfile.rs:868-882 | a record is empty if and only if nothing would be printed, an owner ID alone aside |
| Entries.KeysAreOrdered | src/lockfile.rs:5150-5156 | version, then options, orders entry keys totally |
| Entries.KeyOrderMeans | src/lockfile.rs:5150-5156 | a key comes first by the first difference of the versions as text, and at one version by that of the options, name before value |
| Entries.SortedValues | src/lockfile.rs:5148-5157 | the merged entries come out strictly ascending by key, all of them and nothing else |
| Entries.MergeEntries | src/lockfile.rs:4999-5025 | fresh entries are grouped by key, a key's first one merged with itself |
| Entries.MergeExisting | src/lockfile.rs:5042-5144 | one existing entry: shared fields joined, data of real options merged only under the same options, data without options moved |
| Entries.SpreadToAll | src/lockfile.rs:5043-5053 | an npm source repository reaches the entries of its version and backend that lack one, and changes nothing else |
| Entries.MovePlatforms | src/lockfile.rs:5100-5141 | each platform without options goes where the resolver says, under the fresh record; without an answer it stays and replaces what is there |
| Entries.MergeToolEntries | src/lockfile.rs:4991-5159 | the result is exactly what the merge gives under each key, strictly sorted, and the consumed keys are those whose data all moved |
| EntryMergeLaws.VersionsAreFresh | src/lockfile.rs:5026-5144 | the merged versions are exactly those of the fresh entries |
| EntryMergeLaws.PlatformSurvives | src/lockfile.rs:5026-5144 | every platform of an existing entry of a fresh version is still there under that version |
| EntryMergeLaws.Origin | src/lockfile.rs:5026-5144 | every merged record is built from fresh records of its key and existing ones of its options, or moved there by the resolver |
| EntryMergeLaws.ConsumedMeans | src/lockfile.rs:5091-5144 | an existing entry is consumed if and only if it has no options, its version was locked again but not without options, and the resolver sends all its platforms to some options |
| EntryMergeLaws.ProvenanceSpreads | src/lockfile.rs:5042-5063 | a freshly locked entry keeps its npm source repository, and without one gets that of the first existing entry of its version that shares its backend or options or moves data to it |
| RelockFixpoint.OwnKeyDecides | src/lockfile.rs:5042-5144 | with nothing to rekey, a key's outcome depends on the existing entry of that key alone |
| RelockFixpoint.StaleVariant | src/lockfile.rs:5072-5088 | an option variant that was not locked again while its version was keeps, unchanged, the records of exactly the platforms that the fresh entries of the version lack, and is dropped if and only if none is left |
| RelockFixpoint.FreshKeyTwice | src/lockfile.rs:4991-5159 | a key with a fresh entry settles after one merge, if and only if no mark is lost |
| RelockFixpoint.RelockIsFixpoint | src/lockfile.rs:4991-5159 | merging the same fresh entries again changes no entry, option, request or written platform field, if and only if no mark is lost |
| RelockFixpoint.RelockLosesMark | src/lockfile.rs:4991-5159 | fresh and existing entries for which locking again does change what is written |
| RelockFixpoint.OneFreshEntryPerKey | src/lockfile.rs:4999-5025 | with one fresh entry per key no mark is lost |
| Lockfiles.Lockfile.BindRequest | src/lockfile.rs:1542-1566 | the request is bound to the entry of the key and unbound from every other entry of its options, or nothing changes and false is returned |
| Lockfiles.Lockfile.SetPlatformInfo | src/lockfile.rs:2200-2358 | the exact variant's record is updated, or a new entry pushed, and no empty record is stored |
| Lockfiles.SetMeans | src/lockfile.rs:2200-2358 | an entry of the key is there, as it was or new and unbound under the given backend; its other platforms are as they were, and this one has the new record over the old unless that is empty |
| Lockfiles.Lockfile.SwitchBackend | src/lockfile.rs:1515-1540 | matching entries move with their version and options and lose artifact data and graphs; the moves are reported in order |
| Lockfiles.SwitchMeans | src/lockfile.rs:1515-1540 | an entry that moves has the new backend, no platform records and no graphs, and all else as before; its move says whether it had data; every other entry is unchanged |
| Lockfiles.SwitchSettles | src/lockfile.rs:1515-1540 | a second switch moves nothing, if and only if no new backend is the old one |
| Lockfiles.Lockfile.RetainToolVersions | src/lockfile.rs:2137-2147 | entries of other versions go, and the tool with its last entry |
| Lockfiles.Lockfile.RetainTools | src/lockfile.rs:2123-2133 | tools kept by name or, but for Python packages, by a recorded backend, unchanged |
| Retaining.GraphlessStay | src/lockfile.rs:2047-2052 | `retain_graph_entries` leaves the entries without a graph as they were, in order, drops only refused ones and adds none |
| Lockfiles.KindIsRank | src/lockfile.rs:520-530 | provenance compares equal exactly if it is of one kind, whatever its SLSA URL |
| Retaining.SupersededLeaveCover | src/lockfile.rs:2058-2086 | `retain_unsuperseded_unbound_entries` leaves the bound entries as they were, in order, drops exactly the superseded ones in scope, and each leaves a bound one whose records compare equal |
| Retaining.DataIsPersistedAndUrls | src/lockfile.rs:886-897 | records that compare equal hold the same data exactly if they have the same SLSA URLs |
| Retaining.SupersededDataStays | src/lockfile.rs:2058-2086 | all platform data of what is dropped stays in bound entries, if and only if each dropped entry has a bound sibling that covers it with the same SLSA URLs |
| Retaining.SlsaUrlIsDropped | src/lockfile.rs:2058-2086 | an entry that is dropped and whose SLSA URL is nowhere any more |
| Lockfiles.Lockfile.Absorb | src/lockfile.rs:3330-3369 | another lockfile's entries join by key, tool by tool |
| Preserving.PreserveAbsentToolEntries | src/lockfile.rs:5161-5188 | computes the merged entries with the absent ones added, sorted |
| Preserving.AbsentAreKept | src/lockfile.rs:5161-5188 | under each key is what was merged, else the existing entry unless it was consumed, and the list is strictly sorted |
| Preserving.PreserveSelectedPythonEntries | src/lockfile.rs:5198-5231 | adds existing entries narrowed to the selected requests the update did not lock |
| Preserving.SelectedStaysBound | src/lockfile.rs:5198-5231 | a selected request stays bound, if and only if the update locked it or an existing entry of an unlocked key binds it |
| Preserving.AddedIsNarrow | src/lockfile.rs:5198-5231 | an added entry is an existing one of an unlocked key, with exactly those of its requests that are selected and that no locked entry of its options has |
| Preserving.ReinsertDeferredBaselines | src/lockfile.rs:3999-4015 | baselines are pushed where their key is absent |
| ProvenanceBaselines.BaselineMeaning | src/lockfile.rs:3820-3854 | a baseline is found if and only if a github version without provenance is above every prior with it, and is a highest of those |
| ProvenanceBaselines.HighestIsLast | src/lockfile.rs:3828-3851 | of several highest priors it is the last |
| ProvenanceBaselines.BaselineShowsMore | src/lockfile.rs:3820-3854 | a fresh entry is compared if and only if it is of a github backend, without provenance on the platform, and above every other version of its backend that has it there |
| ProvenanceBaselines.CheckProvenanceRegression | src/lockfile.rs:4089-4134 | downloaded entries that lose provenance are errors; for the others exactly their baselines are deferred |
| ProvenanceBaselines.PruneVerifiedBaselines | src/lockfile.rs:4031-4073 | the loop ends, reports the versions it removed and only those, and none of them was requested |
| ProvenanceBaselines.PruningIsComplete | src/lockfile.rs:4031-4073 | afterwards nothing more is prunable, and nothing was added |
| ProvenanceBaselines.OnlyNeededIsLeft | src/lockfile.rs:4031-4073 | a highest prior left below a verified requested entry is requested itself, or some requested entry without provenance yet is to be compared with one of its key |
| ProvenanceBaselines.RequestedStay | src/lockfile.rs:4067 | no entry of a requested version is removed |
| ProvenanceBaselines.WaitingKeepTheirBaseline | src/lockfile.rs:4031-4073 | every unverified requested entry has the same baseline as before, or none as before |
| ProvenanceBaselines.RemovedWereSuperseded | src/lockfile.rs:4031-4073 | for everything removed a strictly higher requested version of its backend, with provenance, is still there |
| Update.UpdateTool | src/lockfile.rs:3718-3786 | the new entries are a merge with what is preserved, and then the fresh requests bound; other tools are untouched |
| Update.UpdateChecked | src/lockfile.rs:3702-3786 | a tool that loses provenance is reported and its lockfile left as it was, and otherwise the update keeps what the check deferred |
| Update.CheckMeaning | src/lockfile.rs:4110-4127 | the update is refused if and only if a fresh entry with a URL on the platform shows less than an existing one; each without a URL that does has a highest one deferred, and nothing else is |
| Update.RefusedOrDeferred | src/lockfile.rs:3702-3786 | if the entry that shows less has a URL the tool is left as it was, and otherwise a highest entry with provenance is still under its key |
| Update.UnlockedStays | src/lockfile.rs:3747-3779 | in a lockfile of its own an existing entry of a version not locked again stays if and only if it is a deferred baseline or another tool selects a request of it that nothing merged has |
| Update.SharedStays | src/lockfile.rs:5161-5188 | in a shared lockfile every such entry stays, with all but perhaps its requests |
| Update.UpdateIsDistinct | src/lockfile.rs:3747-3779 | an update leaves distinct keys, whatever was there |
| UpdateLookup.LastBindingWins | src/lockfile.rs:3781-3785 | a request of some options is bound afterwards by exactly the entry it was bound to last, or as before if no fresh entry binds it |
| UpdateLookup.LockedIsFound | src/lockfile.rs:3718-3786 | a freshly resolved request matches exactly one entry, of the version it was bound to last, and the lookup returns it, if and only if the request reads that entry with the options it was locked for and no fresh or preserved entry of other options rivals it |
| UpdateLookup.NamedBackendIsFound | src/lockfile.rs:5786-5816 | a request that reads its options alike for every backend is always found |
| UpdateLookup.RebackendedIsAmbiguous | src/lockfile.rs:5786-5816 | a shared lockfile and an update after which the lookup is ambiguous |
| Update.DeferredBaselineStays | src/lockfile.rs:3769-3779 | an update never drops a baseline it deferred, nor its data unless the merge put an entry under its key |
| Update.ComparedEntryStays | src/lockfile.rs:3702-3786 | every entry the check compared a fresh one with is still under its key after the update, with its data unless it was locked again |
| Comparison.ComparisonSurvives | src/lockfile.rs:3820-3854 | a deferred upgrade is still compared with something after the update, if and only if a prior is left and the merge puts none there that is not below it; one is left unless the baseline was locked again |
| Comparison.ComparisonIsLost | src/lockfile.rs:3828-3851 | updates after which a deferred upgrade is compared with nothing |
| Comparison.BaselineIsFreed | src/lockfile.rs:4031-4073 | and whose pruning frees the baseline it was deferred for |
| LockedLookup.MatchingRequestBindings | src/lockfile.rs:6098-6119 | collects exactly the entries bound to the specifier that match, and notes unreadable options |
| LockedLookup.LookUp | src/lockfile.rs:5827-5902 | exact bindings first, then those without options, then unbound entries, then a read error |
| LockedLookup.MatchMeans | src/lockfile.rs:5827-5880 | which entries match exactly, without options, unreadably or unbound, field by field |
| LockedLookup.BoundEntriesAnswer | src/lockfile.rs:5827-5861 | the one entry bound with the own options answers; where there is none, the one bound without options does as a bare pin; the lookup is ambiguous if and only if there are several |
| LockedLookup.UnboundEntriesAnswer | src/lockfile.rs:5862-5902 | only where no bound entry matches is an unbound one taken, of the own options first and then, if allowed, the bare pin of one without; only then do unreadable options fail the lookup |
| LockedLookup.BarePin | src/lockfile.rs:6246-6260 | a bare pin keeps version, backend and requests, and of its platform records nothing that describes an artifact |
| LockedLookup.LookupIsVerdict | src/lockfile.rs:5827-5902 | with distinct keys and all entries bound, the answer is the one deciding entry, ambiguous if there are several, and with none a failure if options could not be read and else nothing |
| MergedView.ReadInOrder | src/lockfile.rs:5277-5317 | in reading order a lockfile stands behind those of the outer roots and the earlier ones of its own, by precedence behind those of the inner roots and the earlier ones of its own, and legacy ones come last |
| MergedView.MergeForLookup | src/lockfile.rs:5319-5326 | folds the lockfiles into the first one |
| MergedView.AbsorbTwiceIsOnce | src/lockfile.rs:3330-3369 | a root's own entry keeps its backend and records, a missing key is taken whole, and absorbing again changes nothing |
| MergedView.MergedEntry | src/lockfile.rs:3330-3369 | under each key the merged view has the backend of the first lockfile that has it and the requests of all of them |
| MergedView.MergedData | src/lockfile.rs:3330-3369 | the platform records under a key are those of the first lockfile that has it, and a dependency graph or source repository comes from one that has it under the same recorded backend |
| MergedView.MergedVersionIsHighest | src/lockfile.rs:3326 | the merged view is of the highest version read |
| MergedView.BindingsIfAnyHasThem | src/lockfile.rs:3314-3328 | one lockfile with bindings makes all entries be looked up by them, and otherwise none is |
| MergedView.NearestLockfileDecision | src/lockfile.rs:6054-6069 | scans past lockfiles that decide nothing or are ambiguous themselves |
| MergedView.GetLockedVersion | src/lockfile.rs:5906-5921 | the merged answer; where that is ambiguous, the answer of the innermost root that has one, by its first lockfile that does |
| MergedView.InnermostAnswers | src/lockfile.rs:5306-5312 | the scan by precedence stops in the innermost root that has an answer, at its first lockfile that does |
| MergedView.LegacyAnswers | src/lockfile.rs:5306-5313 | where no root has an answer the legacy lockfiles are asked, in order |
| Rulings.NearestMeaning | src/lockfile.rs:6052-6069 | nearest-first: the pin or the failure of the first lockfile that has either, none if and only if none binds the request, unclear otherwise |
| Rulings.OverallIsNearest | src/lockfile.rs:5906-5921 | all bindings together, with the fallback, decide as nearest-first does, if and only if the nearest that settles is neither outvoted nor unreadable |
| NearestFirst.MergedRuling | src/lockfile.rs:3330-3369 | the merged view reads each bound key under the backend of the first lockfile that has it |
| NearestFirst.MergedRulingIsUnion | src/lockfile.rs:3330-3369 | so it has the deciding entries of all lockfiles together, if and only if no bound key is misread |
| NearestFirst.LookupAgreesByFirstReading | src/lockfile.rs:5749-5921 | for any bound lockfiles with distinct keys the lookup answers as the nearest that decides, if and only if: one key decides as first recorded and the first lockfile to settle pins its version; or several do and some lockfile binds the request; or none does and none binds it, or the first to settle cannot be read |
| NearestFirst.MergedAgreesUnlessOutvoted | src/lockfile.rs:5749-5921 | with no key misread it does, if and only if the nearest that settles is neither outvoted nor unreadable |
| NearestFirst.MergedAgreesUnlessOutread | src/lockfile.rs:5845-5868 | where no entry without options may stand in, only unreadable options can make a difference |
| NearestFirst.MergedAgreesWithNearest | src/lockfile.rs:5277-5326 | for a request that names its backend the answer is always the nearest one |
| NearestFirst.InnermostDecides | src/lockfile.rs:5277-5326 | for such a request on nested roots the answer is the pin of the first lockfile, in the innermost root that has one, that binds it to one key |
| NearestFirst.OutvotedHappens | src/lockfile.rs:5845-5868 | two lockfiles and a request whose nearest answer is outvoted |
| NearestFirst.MisreadHappens | src/lockfile.rs:5786-5816 | two lockfiles and a request that the nearest one answers and the merged view does not |
| History.Apply | src/lockfile.rs:1447-2358 | every operation on the class, the format upgrade included, is a step of the state machine |
| History.KeysStayDistinct | src/lockfile.rs:1515-5231 | each operation keeps a tool's keys distinct |
| History.AlwaysDistinct | src/lockfile.rs:1515-5231 | over any run keys stay distinct |
| History.PinStep | src/lockfile.rs:942-946 | a pin after a step was one before it or is brought by the step's data, for the same tool, version and platform |
| History.PinsHaveOrigins | src/lockfile.rs:942-946 | over any run a pin stems from the first state or the data of some step |
| History.CallsAreStored | src/lockfile.rs:2213-2345 | repeated calls on one entry store the fold of their updates over the record that is there |
| History.CallsTouchNoOther | src/lockfile.rs:2218-2223 | and leave every other key as it was |
| History.LockedProvenance | src/lockfile.rs:2200-2342 | what the lockfile vouches for after repeated installs, counting a record already there as the first, is the merge over the last linked stretch and as strong as its strongest |
| SkillSync.FirstWinsMeaning | src/packslip.rs:1429-1443 | of skills with one name the first is linked |
| SkillSync.RepeatsMeaning | src/packslip.rs:1429-1443 | a name is wanted if some skill has it, and skipped once for every further one |
| SkillSync.SkillDir.MakeSymlink | crates/mise-util/src/file.rs:1205-1233 | a link is made under a temporary name and renamed, two effects with a crash possible between them |
| SkillSync.SkillDir.LinkOne | src/packslip.rs:1479-1501 | one wanted link: left, recorded and then relinked, or skipped if something else is there; every disk on the way is a crash point |
| SkillSync.SkillDir.PruneOne | src/packslip.rs:1513-1522 | one name that is no longer wanted: removed before it is forgotten |
| SkillSync.SkillDir.SyncSkills | src/packslip.rs:1421-1547 | an unreadable record stops it before any effect; otherwise it completes, every disk it passes is a crash point, the report names exactly what was up to date, linked, passed over and pruned by what the disk held, and an entry that is already right or foreign is the same on every disk |
| SkillSync.FateMeaning | src/packslip.rs:1479-1522 | a wanted name is up to date if its entry is a link of mise's to the wanted place, linked if it has none or a link of mise's to another, and skipped otherwise; another is pruned if it is a link of mise's |
| SkillSync.LeftAloneStays | src/packslip.rs:1479-1522 | an entry that is right, foreign or not to be pruned is unchanged at every crash point, and the record of a right one too |
| SkillSync.SecondSyncChangesNothing | src/packslip.rs:1421-1547 | a sync repeated on its own result changes no entry and makes no link at any point |
| SkillSync.FinishedIsUnique | src/packslip.rs:1421-1547 | a completed sync leaves one possible disk |
| SkillSync.CrashSafe | src/packslip.rs:1421-1547 | at every crash point each link mise made under its name is recorded with its exact target, no foreign entry has changed, and at most one temporary link is left over |
| SkillSync.PruneForgetsOutsideLinks | src/packslip.rs:1502-1539 | a completed sync still covers every link mise made, if and only if it did not prune or they all pointed inside installs |
| SkillSync.RerunConverges | src/packslip.rs:1421-1547 | a sync stopped anywhere and run again ends as one never stopped but for a temporary link left over, if and only if it is restartable |
| SkillSync.TemporaryStays | crates/mise-util/src/file.rs:1205-1233 | any link a sync makes can be left over under its temporary name, and no later sync removes it |
| SkillSync.SyncDelivers | src/packslip.rs:1421-1547 | every wanted name is linked and recorded unless something foreign is there, and pruning leaves no other link of mise's |
| SkillSync.HistoryIsSafe | src/packslip.rs:1421-1547 | over any history of interrupted syncs mise loses track of no link under its name and changes no foreign entry, and each sync leaves at most one temporary link |
| ResourceSelection.ApplicableIsBest | src/packslip.rs:1587-1605 | one identity's scan keeps exactly the fitting resources that are as specific as any for it |
| ResourceSelection.BestTable | src/packslip.rs:1621-1633 | the table holds each identity's greatest specificity |
| ResourceSelection.TableChooses | src/packslip.rs:1613-1641 | being best in the table is being chosen by some identity's scan |
| ResourceSelection.SelectedResources | src/packslip.rs:1613-1641 | the one pass yields, in document order, exactly what the per-identity scans choose: the fitting resources that for some identity no fitting one outranks, naming the artifact counting more than all platform fields; without an artifact, those not scoped |
| ResourceSelection.ChosenAreNarrowest | src/packslip.rs:1573-1605 | a resource is chosen if and only if for something it describes no fitting one is scoped more narrowly |
| PromptHook.HookProcess.CheckExitEarlyFast | src/hook_env.rs:217-373 | exits exactly under the fast path's conditions, and otherwise raises the flag where it saw a change |
| PromptHook.FastExitMeans | src/hook_env.rs:217-373 | a prompt is skipped before loading the config if and only if it is an ordinary one in the session's directory and under its variables, and a shortcut applies or every stored path is there and nothing looked at was modified after the session's millisecond |
| PromptHook.SlowExitMeans | src/hook_env.rs:378-471 | and after it if and only if no run is forced, directory and variables are the session's, and everything watched is there and not modified since |
| PromptHook.HookProcess.ShouldExitEarly | src/hook_env.rs:378-418 | exits exactly if not forced, in the same place and with nothing modified |
| PromptHook.HookProcess.HaveFilesBeenModified | src/hook_env.rs:447-471 | any watched file newer than the session, or gone |
| PromptHook.BuildSession | src/hook_env.rs:662-713 | the stored time is the latest of everything covered, in milliseconds |
| PromptHook.FastRefinesSlow | src/hook_env.rs:217-418 | with the shortcuts off a fast exit implies a slow one on the same files |
| PromptHook.SlowAloneWouldSwallow | src/hook_env.rs:72-94 | the converse fails, so without the flag a run would be swallowed |
| PromptHook.NeverSwallowed | src/hook_env.rs:378-418 | a run that the fast path forces is made |
| PromptHook.StableAfterFullRun | src/hook_env.rs:217-373 | on unchanged files the prompt after a full run exits early, if and only if the session settles |
| PromptHook.WatchedConfigsSettle | src/hook_env.rs:670-713 | it settles where the stored paths exist and loaded configs are watched |
| PromptHook.NoLivelock | src/cli/hook_env.rs:79-109 | on unchanged files, from the second prompt on none runs in full, or all do because the session does not settle |
| DeactivatedPath.TargetCounts | src/hook_env.rs:852-894 | how many copies of each path are to be left |
| DeactivatedPath.KeepFirstCopies | src/hook_env.rs:896-907 | the first copies of the current PATH up to those counts |
| DeactivatedPath.AddMissing | src/hook_env.rs:909-916 | then each pristine path as often as it is still short |
| DeactivatedPath.ComputeDeactivatedPath | src/hook_env.rs:821-921 | the pristine PATH where there is no current one or none of mise's, and the restored one otherwise |
| DeactivatedPath.CountLaw | src/hook_env.rs:845-916 | each path ends up max(current - mise, pristine) times, and a shim directory as often as it was pristine |
| DeactivatedPath.PristineStays | src/hook_env.rs:840-916 | whatever mise did, no pristine path is left fewer times than it was there |
| DeactivatedPath.FirstCopiesStay | src/hook_env.rs:896-907 | for any first part of the current PATH the result starts with as many copies of each path as there are in it, up to those wanted |
| DeactivatedPath.MissingComeBack | src/hook_env.rs:909-916 | and what is missing follows in the order of the pristine PATH, all copies of a path together |
| DeactivatedPath.KeptThenPristine | src/hook_env.rs:845-916 | a subsequence of the current PATH and then the missing pristine copies |
| DeactivatedPath.ExactlyCleaned | src/hook_env.rs:845-916 | if mise's entries are in no other role, exactly the current PATH without them, and then each pristine path as often as that lacks it |
| DeactivatedPath.UndoesActivation | src/hook_env.rs:845-916 | deactivating what activation prepended gives back the PATH behind it, if and only if no copies of shim directories were added there |
| EditDistance.OsaDistance | src/fuzzy.rs:15-37 | the table's corner is the least cost of any restricted edit script |
| EditDistance.FillTable | src/fuzzy.rs:15-37 | the nested loops fill in any function that obeys the table's rule |
| EditDistance.TableStep | src/fuzzy.rs:25-35 | one cell from the cells before it |
| EditDistance.Symmetric | src/fuzzy.rs:15-37 | the distance is symmetric |
| EditDistance.ZeroIffEqual | src/fuzzy.rs:15-37 | zero if and only if the strings are equal |
| EditDistance.Bounds | src/fuzzy.rs:15-37 | between the difference of the lengths and the longer one |
| EditDistance.AdjacentSwap | src/fuzzy.rs:31-33 | any adjacent swap is at most one edit |
| EditDistance.NoTriangleInequality | src/fuzzy.rs:31-33 | strings for which the triangle inequality fails |
| EditDistance.Nearest | src/fuzzy.rs:5-13 | the first name of least distance among those within two edits, if any |
| ReleaseAge.ReleaseEligibleAt | src/install_before.rs:317-349 | the search ends, and the instant it finds is eligible while the nanosecond before is not or is before the release |
| ReleaseAge.Boundary | src/install_before.rs:334-347 | the binary search lands on such a boundary, with no monotonicity assumed |
| ReleaseAge.MonotoneBoundaryIsLeast | src/install_before.rs:317-349 | where eligibility is monotone that is the least eligible instant |
| ReleaseAge.FixedAgeEligibleAt | src/install_before.rs:317-355 | for a fixed age the answer is created + age + 1ns, if and only if a day past created + age is representable |
| ReleaseAge.LastDayIsSilent | src/install_before.rs:317-333 | a release in the last day has an eligible instant and no answer |
| UrlVersion.DottedNumberRuns | src/lockfile.rs:6294-6325 | the scan returns the texts of exactly the runs, in order |
| UrlVersion.RunsAreExactly | src/lockfile.rs:6286-6325 | a text is returned if and only if it is a maximal dotted number with a dot in it and none just before it |
| UrlVersion.DottedNumbersAgree | src/lockfile.rs:6335-6349 | numbers agree if and only if one component list is a prefix of the other |
| UrlVersion.TrimmedComparesValues | src/lockfile.rs:6335-6349 | comparing trimmed text is comparing numbers |
| UrlVersion.TagPositions | src/lockfile.rs:6364-6398 | where each forge layout puts the release tag |
| UrlVersion.UrlPathOfParts | src/lockfile.rs:6418-6424 | of a URL made of scheme, host, path and query or fragment, with or without a scheme, the path is what is looked at |
| UrlVersion.SegmentsOfParts | src/lockfile.rs:6364-6372 | the segments of a path are its parts, each decoded after the split |
| UrlVersion.ForgeUrlNames | src/lockfile.rs:6364-6424 | a forge's download URL names a release by the dotted numbers of its tag and its file name, and by nothing else in it |
| UrlVersion.ReleaseIdentifiers | src/lockfile.rs:6364-6398 | the dotted numbers of the tag and the file name, and no others |
| UrlVersion.UrlContradictsVersion | src/lockfile.rs:6411-6436 | a URL is reported if and only if both sides have dotted numbers and no pair agrees |

## Left out

- Network, downloads, archive unpacking, process execution, file locks, the temporary files of lockfile and record writes, and dependency-graph sidecars: I/O; `aube` and `uv` graphs are opaque values.
- Finding and trusting lockfiles, and `drop_what_needs_trust`: file system and configuration state outside the modelled files.
- Credential stripping of options and tool names, and URL query checks: tool names are taken as already in stored form.
- Conda package tables and tool stub references of a lockfile: easy members beside the entries.
- The text layout of lockfiles: tables are modelled as values in key order.
- An additional artifact written as a positional array, which only the derived deserializer would accept.
- Backend option resolution and `Platform::parse`: the resolver of legacy entries, the options a request has under a backend and the ordering of unbound candidates are arbitrary functions.
- Semantic version parsing, calendar arithmetic, age parsing and percent-decoding: arbitrary orders, predicates and functions; fixed-length ages are the concrete case.
- Lockfiles.Lockfile.Absorb: the set of keys that the source keeps beside the list adds nothing to the search of the list and is not a variable here.
- The lookup in a lockfile without request bindings, and the stub and single-file sources of a lookup: `Request.unversioned` stands for the former.
- LockedLookup.LookUp: which unreadable backend's error is reported is not modelled, only that there is one.
- RelockFixpoint.RelockIsFixpoint: an npm package's source repository is not part of the law, since which one wins depends on the order of entries when entries of one version disagree.
- Update.UpdateTool: one tool at a time, with the requests bound inside one entry in any order; collecting the requests from configs, stubs and command line is not modelled.
- ProvenanceBaselines.CheckProvenanceRegression: error messages are reduced to the versions they name.
- Sharing the TTL timestamp between shells, and prompts with the TTL or chpwd shortcuts on: the theorems are for one shell with them off.
- PromptHook.BuildSession: computing the environment, hooks and caches is outside; the watched paths come in as a parameter.
- Path normalisation, aliased link targets and other writers during a skill sync: paths are compared as they are.
- SkillSync.SkillDir.MakeSymlink: temporary names are taken to be no skill's, and no two alike; a name that an earlier process of the same number left over would be reused.
- SkillSync.SkillDir.SyncSkills: the order of names inside the report and the git exclude step are not modelled.
- ResourceSelection.SelectedResources: the identities of a resource and whether it fits an artifact are parameters.
- Shell stubs, completions, hooks, direnv and the documentation scripts: string templates and glue.
