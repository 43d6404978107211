# Jen's stateful protocols in Dafny

Jen is a web console for the Kea DHCP server.  The hard part of it is not in its pages but in a few protocols that must
survive crashes, concurrent callers and stale state.  This project models those protocols step by step and proves what
they promise.  `dafny verify dfyconfig.toml` checks everything.

**Crashes.**  Every file-system call and every SQL statement is one step of a class (`ReleaseTree.FileSystem`,
`Plugins.PluginDir`, `PluginRequests.RequestDir`, `Schema.Database`).  A step may be the last one before the process dies, a
recursive delete may die or refuse half-way, and each method says what is true however it ends.  Restarting is running the method
again on what is left, and theorems such as `MigrationRunner.StartRepeatedly`, `Updater.RunRepeatedly` and
`Plugins.PluginDir.KeepInstalling` and `PluginRequests.RequestDir.DrainRepeatedly` cover any number of interrupted runs.

**Interleavings.**  The settings cache and the config-file locks are state machines: one event per line of the source that
touches shared state, any number of actors, and theorems about every sequence of events.

**Going well.**  A step may also succeed.  `faults` counts what went wrong in a run of the updater or of the plugin drain, and
with none the run does what it is for: the picked release is live (`Updater.UpdateRun`), every request is carried out
(`PluginRequests.RequestDir.ProcessRequests`).  Of the two state machines the same is said of an actor's own steps:
`SettingsReads.AStaleCacheIsReloaded`, `ConfigLock.AWriteOfItsOwnCommits`.

**Unknowns.**  Builds, downloads, probes, network results and clocks are nondeterministic.  Guard callbacks, the
destination and identity views a guard is given, and the credential rule are function parameters of the config writers.

| file | protocol |
|---|---|
| `Schema`, `Migrations`, `DeviceMigrations`, `UserMigrations`, `ProblemsMigrations`, `MigrationRunner`, `Promotions`, `UserReferences`, `MigrationFacts`, `RecordedSchemas`, `RevisionMigration` | schema migrations 3, 4, 6, 22, 23, 24, 33 and 36 and the runner; migration 21 |
| `Versions`, `ReleaseTree`, `Prune`, `Updater` | the version order, the release picker, the root updater |
| `PluginNames`, `Plugins`, `PluginMarkers`, `PluginRemovals`, `PluginRuns`, `PluginRequests` | the plugin swap, its recovery sweep, the request drain |
| `SettingsCache`, `SettingsReads`, `SessionCache` | the two caches in front of Jen's database |
| `IniFile`, `ConfigStore`, `ConfigLock`, `Subnets`, `SubnetWriter`, `ConfigMerge`, `IdentityViews`, `IdentityReads` | the config writer, its locks, the subnet lines, the installer's merge and its identity check |

## What turned out false, and exactly when it holds

* `Prune.PruneOldReleases`: a delete that refuses is ignored and counted.  Exactly the survivors are left, and the count is the
  number removed, if and only if none refused; what is left of a refused release can be the next prune's spare
  (`Prune.HalfDeletedReleaseBecomesTheSpare`).
* `Updater.UpdateRun`: a run deletes the directory of an earlier attempt at its version.  That is the live release exactly when its
  tag is picked and inside it is neither that version nor a newer one (`Updater.MislabelledLiveIsLost`).  A run that
  completes with its link in place never makes such a release live; a death or a stuck link after the switch can.
* `Plugins.AsideIsRecoveredIff`: a copy moved aside is what a sweep restores exactly when its timestamp is past every leftover's, so a
  clock that went back can lose a plugin to a copy an earlier delete left.
* `Plugins.GoneForGoodIff`: a removed plugin comes back at the next sweep exactly when a copy moved aside was left behind by
  a delete that failed silently.
* `SettingsCache.FreshAndOlderIff`: comparing the version and storing the timestamp are two steps.  A fresh stamp hides a write exactly
  when the write's clearing of the stamp fell between the two of the reload that set it (`SettingsReads.ALateStoreHidesAWrite`); the
  next reload ends it.
* `SessionCache.Accounts.LoadUser`: a single sign-on changes role and subnets without moving the token version.  A session served on its
  version carries the row's values exactly when no single sign-on has written to that version since its cookie was made, or the
  last one that did wrote the role and subnets the cookie has (`SessionCache.AnOpenSessionKeepsItsOldRole`).
* `SessionCache.OtherPasswordServedIff`: a session opened under another password is served, and adopts the new one, exactly
  when the full row was read and the first query either went unanswered or matched a password that changed right after.
* `ConfigStore.AppConfig.WriteValues`: the file is replaced before it is re-read, so after a write that reloads the globals
  are the file's exactly when the file loads.
* `IdentityViews.AgreementIffCanonical`: the installer and Jen agree on every edit that keeps the section names exactly when those names
  are canonical; in a section such as `kea_server_02` the installer sees changes that Jen's guards are not asked about.
* The version grammar in the documentation asks for N of at least 1; the code accepts 0, and so does the model.  The one
  version this costs is 0.0.0-beta.0, whose key is the one unreadable strings get.

## Model

| member | source | states |
|---|---|---|
| Schema.Database.RunDdl | jen/models/migrations.py:20-23 | DDL commits what was open and then itself, may be cut short before, between or after, and fails exactly when the engine's precondition does not hold |
| Schema.Database.RunDml | jen/models/migrations.py:401-448 | DML stays in the open transaction and is gone after a crash |
| Schema.WhatAForeignKeyNeeds | jen/models/migrations.py:972-984 | the engine takes a reference exactly when every value of its column is NULL or a user's id |
| Schema.WhatAUniqueKeyNeeds | jen/models/migrations.py:1264-1312 | and a unique key exactly when no two rows have the same values, none NULL, in all its columns |
| Schema.WhatADefinitionNeeds | jen/models/migrations.py:401-448 | and a definition exactly when every value fits it |
| Schema.KeepDropsExactlyTheOrphans | jen/models/migrations.py:960-1025 | deleting orphans removes every row without a user and keeps the multiplicity of every other row |
| Migrations.Advance | jen/models/migrations.py:20-34 | around one DDL statement that the engine allows and that leaves the end state ahead unchanged, every crash leaves it unchanged too |
| Migrations.WideningKeepsDistinct | jen/models/migrations.py:360-371 | adding a column breaks no unique key |
| DeviceMigrations.M003DevicesManufacturer | jen/models/migrations.py:360-371 | crashed: same end state ahead; done: the end state; no engine error from any sound state |
| DeviceMigrations.M004DevicesOverrides | jen/models/migrations.py:374-387 | likewise, with the icon column's width judged on its own |
| DeviceMigrations.M024WebauthnTransportsAaguid | jen/models/migrations.py:1028-1046 | likewise for the two passkey columns |
| UserMigrations.M006SuperadminRole | jen/models/migrations.py:401-448 | likewise, and whatever is committed has promoted nobody or exactly the legacy admins, once, with the marker gone in the same commit |
| UserMigrations.M022UsersOidcColumns | jen/models/migrations.py:915-957 | likewise; the unique key never meets a duplicate |
| UserMigrations.M023UserForeignKeys | jen/models/migrations.py:960-1025 | likewise; no foreign key is added over an orphan, and in every committed state each table holds its rows or those whose user exists |
| ProblemsMigrations.M033ClientProblemsScopeKey | jen/models/migrations.py:1369-1409 | likewise for the scope column and the key swap |
| ProblemsMigrations.M036ClientProblemsGeneration | jen/models/migrations.py:1278-1312 | likewise, and in every committed state no row is lost and one of the two unique keys is in force |
| ProblemsMigrations.NarrowKeyImpliesWide | jen/models/migrations.py:1264-1312 | rows distinct on the old key are distinct on the wider one, so adding it cannot fail |
| ProblemsMigrations.RerunningScopeIsIdle | jen/models/migrations.py:1219-1244 | in every state 36 passes through, 33 run again changes nothing and a unique key is in force |
| MigrationRunner.RunNext | jen/models/migrations.py:1584-1594 | a version is recorded in the commit that finishes its migration |
| MigrationRunner.RunMigrations | jen/models/migrations.py:1570-1597 | a start ends in the uninterrupted upgrade's state, or crashes with that state still ahead; no role changes but by the promotion that was owed |
| MigrationRunner.StartRepeatedly | jen/models/migrations.py:20-51 | any number of starts that die anywhere, then one that completes, end where one uninterrupted start does; in every committed state the legacy admins have been promoted not at all or all of them once, exactly so when version 6 is recorded and it was owed, no role has changed when nothing was owed, and no row whose user exists has gone |
| Promotions.SixKeepsThePromotion | jen/models/migrations.py:422-442 | a crash anywhere in migration 6 leaves the promotion owed and unmade, or made once and no longer owed |
| Promotions.OthersKeepThePromotion | jen/models/migrations.py:43-51 | no state a crash leaves in another migration has other roles or another debt |
| Promotions.PromotionRowByRow | jen/models/migrations.py:401-448 | of every committed state, row by row: each role as it was, or every admin a superadmin and the rest as they were, once, when it was owed |
| MigrationFacts.PromotionHappensExactlyOnce | jen/models/migrations.py:43-51 | a completed upgrade that owes the promotion makes every admin a superadmin with one UPDATE, any other changes no role |
| MigrationFacts.EveryReferenceHolds | jen/models/migrations.py:960-1025 | 23 drops exactly the rows whose user_id is no user's id and clears exactly the creators that are none, every other row keeps its multiplicity, other tables are left alone; the keys it adds cascade or set NULL |
| MigrationFacts.ScopingClearsTheWatermarks | jen/models/migrations.py:1369-1409 | where the scope is in place 33 does nothing; elsewhere it empties the Problems table and drops exactly the watermarks from the settings |
| UserReferences.RefsKeptMeans | jen/models/migrations.py:984-1025 | over any steps of any migrations each row whose user exists stays as often as it was, and once 23 is recorded the others are gone and dead creators NULL |
| MigrationFacts.ReachesItsSchema | jen/models/migrations.py:24-34 | each migration ends with the columns, keys and references its version stands for |
| MigrationFacts.LaterOnesDoNotDisturb | jen/models/migrations.py:52-56 | a later migration keeps the schema of every earlier one |
| MigrationFacts.RecordedVersionsHold | jen/models/migrations.py:1582-1594 | after any run of whole migrations in order, the schema of every recorded version holds |
| RecordedSchemas.EarlierOnesWereThere | jen/models/migrations.py:52-56 | a later migration adds nothing to what an earlier version stands for |
| RecordedSchemas.RecordedVersionsHoldInEveryCommittedState | jen/models/migrations.py:20-34 | in every committed state a crash can leave, a recorded version's schema is there |
| RecordedSchemas.StartManyTimes | jen/models/migrations.py:1582-1594 | over any starts that die anywhere no version is in the table without its schema |
| RevisionMigration.RevisionTable.M021SealRevisions | jen/models/migrations.py:858-912 | done: the column, every body sealed and reading as before, a sealed one untouched; failed or crashed: the bodies as they were, or as when done |
| RevisionMigration.RevisionTable.StartRepeatedly | jen/models/migrations.py:885-893 | over any starts every revision reads as it always did, none is sealed twice, and a completed one leaves none unsealed |
| Versions.ParserAcceptsTheGrammar | jen/version.py:25-42 | the parser accepts exactly X.Y.Z, X.Y.Z-beta.N and X.Y.Z-rc.N, with their numbers |
| Versions.KeyOrderIsPrecedence | jen/version.py:7-10 | the tuple order is the precedence of section 11 of Semantic Versioning 2.0.0, and equal keys are equal versions |
| Versions.StringsCompareAsVersions | jen/version.py:25-52 | two strings that spell versions, white space aside, are ordered as those versions are, and have one key only for one version |
| Versions.LowestIff | jen/version.py:36-42 | a string has the lowest key exactly when it spells no version, or 0.0.0-beta.0 |
| Versions.PickRelease | jen/version.py:55-71 | of the releases the channel offers, the first one none of them is newer than; None exactly when it offers none |
| Versions.DowngradeIff | jen-update-root.py:999-1003 | a candidate is refused exactly when it spells no version, or one that precedes the installed one, and the installed string spells one |
| Versions.PickIgnoresTheOrder | jen/version.py:55-59 | two listings of the same releases give the same version |
| ReleaseTree.FileSystem.RemoveTree | jen-update-root.py:2301-2302 | a recursive delete removes the directory, refuses and leaves all or part of it, or dies; it touches nothing else and adds no marker |
| Prune.SortNewestFirst | jen-update-root.py:2315-2315 | the same directories, newest first |
| Prune.PruneStaging | jen-update-root.py:2292-2313 | staging directories over a day old go unless they refuse, nothing else does |
| Prune.PruneReleases | jen-update-root.py:2315-2328 | left are the live release, the marked ones, a newest unmarked one that did not fail, and what refused |
| Prune.PruneSnapshots | jen-update-root.py:2330-2341 | all snapshots but the newest, the marked ones and those that refused go |
| Prune.PruneOldReleases | jen-update-root.py:2264-2345 | the survivors, unchanged, and what refused; exactly the survivors if and only if nothing refused; the count is what went plus what refused, so the number removed if and only if nothing refused; the live release is left alone in every case |
| Prune.OneSpareWhenNoReleaseRefused | jen-update-root.py:2268-2272 | one other unmarked release is left, the spare, if and only if no release directory refused |
| Prune.HalfDeletedReleaseBecomesTheSpare | jen-update-root.py:2315-2328 | what a refused delete leaves is newest, so the next prune keeps that half as the spare and deletes the whole one |
| Updater.SwitchCurrent | jen-update-root.py:2375-2386 | the link is the old one or the new one, never absent |
| Updater.SnapshotInstall | jen-update-root.py:908-920 | every external and flat file is in the snapshot as it was |
| Updater.CopyBack | jen-update-root.py:942-948 | every saved file is back, no other is touched |
| Updater.Switch | jen-update-root.py:2715-2735 | unless the run deletes the live release as an earlier attempt, `current` leads to a whole release at every step and the previous directory is untouched; a switch that completes leaves a labelled release |
| Updater.Rollback | jen-update-root.py:2410-2457 | the previous pointer unless the flip itself fails, the saved files, the previous directory unchanged but for a recovery marker; the failed release is marked, and of an unhealthy end the snapshot and the previous release |
| Updater.SwitchOrRollBack | jen-update-root.py:2713-2739 | a failure anywhere in the switch restores what was there before it |
| Updater.MislabelledLiveIsLost | jen-update-root.py:2532-2542 | with 0.9.0 inside release 1.0.0, a run that picks 1.0.0 goes on to delete the live release, and a death leaves a link to part of one |
| Updater.UpdateRun | jen-update-root.py:2516-2753 | with nothing going wrong it ends well exactly when the channel offers a release; the run deletes the live directory exactly when its tag is picked and inside it is neither that version nor a newer one; otherwise `current` leads to a whole release at every exit; it moves only to the picked version, which precedes none that was installed, live or flat; a run that completes leaves a labelled release and, if no release directory refused, one spare; exit 1 leaves the run undone |
| Updater.RunRepeatedly | jen-update-root.py:2516-2753 | over any runs, listings, channels and crashes the link leads to a whole release unless a run hits the live one; when every release's JEN_VERSION is its tag none does and the live version does not go down |
| PluginNames.ValidIdIsThePattern | jen-update-root.py:414-414 | an id is one letter or digit and at most 63 letters, digits and hyphens |
| PluginNames.ClassifyIsThePattern | jen-update-root.py:1991-1991 | the sweep sees a leftover in exactly the names `<id>.staging-<ts>` and `<id>.old-<ts>` |
| PluginNames.SweepReadsNamesBack | jen-update-root.py:414-414 | no valid plugin id is taken for a leftover; every leftover the installer named is read back |
| Plugins.AsideIsRecoveredIff | jen-update-root.py:2028-2034 | the copy moved aside is the one restored, exactly when every older leftover has a smaller timestamp |
| Plugins.GoneForGoodIff | jen-update-root.py:2167-2173 | without its live copy a plugin stays gone exactly when no copy moved aside is left |
| Plugins.PluginDir.Sweep | jen-update-root.py:1994-2042 | at every crash point each plugin's recoverable copy is the same; completed, it is live; a live directory is never deleted; a staging copy is never restored |
| Plugins.PluginDir.InstallOne | jen-update-root.py:1913-1982 | whatever the clock says, at every crash point the recoverable copy is the old one or the new verified one, unless the live copy was moved aside under a timestamp not past every leftover's; no other plugin is touched |
| Plugins.PluginDir.Remove | jen-update-root.py:2167-2170 | only the live copy is touched: a death leaves it whole, cut or gone, a refused delete leaves it there; otherwise nothing is left for a sweep to bring back exactly when no copy moved aside is left |
| Plugins.PluginDir.KeepInstalling | jen-update-root.py:1916-2042 | any number of sweeps and installs that die anywhere keep a verified copy, live after the next completed sweep, unless one died in that case |
| PluginMarkers.RemovalComesLast | jen-update-root.py:2240-2240 | in a sorted listing a plugin's removal comes after its install |
| PluginMarkers.SortedListsOfTheSameAreEqual | jen-update-root.py:2245-2245 | two sorted listings of the same markers are equal, which is what stops the loop |
| PluginRemovals.OneIsOnward | jen-update-root.py:2158-2174 | a request dead anywhere leaves every removal asked for still asked for or made, unless an install of that plugin waits |
| PluginRuns.AloneListing | jen-update-root.py:2238-2251 | with nobody else writing, a listing that does not stop the loop is smaller than the one before |
| PluginRequests.RequestDir.ProcessOne | jen-update-root.py:2130-2176 | only a regular file with a valid id is acted on, its marker goes only after the action, and its result is written; directories stay |
| PluginRequests.RequestDir.Pass | jen-update-root.py:2252-2254 | however it ends, as long as no delete is refused, every removal it finished is final; one that completes in a run of its own acts on every request of the listing once |
| PluginRequests.RequestDir.ProcessRequests | jen-update-root.py:2236-2258 | with nothing going wrong it completes and every plugin asked for and not removed has a verified copy; however it ends, as long as no delete is refused: every finished removal that no later install undid is final, and no plugin without a remove request loses its copy; nobody else writing: at most three listings, only directories left, and every regular file whose name is an id of the pattern and an action is acted on once and has its result; nobody else writing and markers that may refuse to go: at most one listing more than there were markers, every request acted on |
| PluginRequests.RequestDir.DrainRepeatedly | jen-update-root.py:2130-2258 | any number of runs that die anywhere, while others add markers but no install of these plugins: once one run has completed every plugin whose removal was asked for is gone for good |
| SettingsCache.StepKeepsInv | jen/models/user.py:177-263 | every step of every reader and writer keeps the invariant |
| SettingsCache.FreshAndOlderIff | jen/models/user.py:161-182 | in every run, behind a fresh stamp the image is older than a write that has cleared the stamp if and only if that clearing fell between the compare and the store of that reload; a returned write is hidden only then, and with no writer half-way exactly then |
| SettingsCache.FreshReadsAnswerWithReturnedWrites | jen/models/user.py:227-263 | in every run, a reader whose check finds the cache fresh, and not stored late, answers, whatever happens in between, with an image no older than any write that had returned at that check |
| SettingsCache.OneReloadAtATime | jen/models/user.py:229-262 | at most one reload is in flight |
| SettingsCache.NoReloadWithinTheCooldown | jen/models/user.py:257-260 | in every run, between a failed reload and the cooldown counted from its end nobody attempts one, unless an invalidation completes |
| SettingsReads.AStaleCacheIsReloaded | jen/models/user.py:238-262 | from every reachable state with a stale cache, no reload in flight and no cooldown, a read reloads it and answers the last commit |
| SettingsReads.AReadAnswersTheWriteBeforeIt | jen/models/user.py:177-182 | a read begun after a set has returned answers its value, and of every other key what was committed before |
| SettingsReads.AReadAnswersTheUpdateBeforeIt | jen/models/user.py:290-340 | a read begun after an update has returned answers what its mutation asked for, or what was there, and the row is free again |
| SettingsReads.AnAbortedUpdateLeavesTheRowFree | jen/models/user.py:318-334 | an update that fails commits nothing and holds no row |
| SettingsReads.AFailedReloadAnswersWhatIsThere | jen/models/user.py:257-263 | a reload that fails at the connect, the fetch or the close leaves the image, frees the lock and answers |
| SettingsReads.AReloadAnswersWhatItRead | jen/models/user.py:247-263 | in every run a reload that does not fail answers with an image no older than the last commit when it read the table |
| SettingsCache.SetCommitsTheValue | jen/models/user.py:274-283 | a set commits its value under its key and nothing else |
| SettingsCache.UpdateSeesTheCommittedValue | jen/models/user.py:290-340 | an update applies to the value committed at that moment, and commits what it makes of it under that key, or nothing |
| SettingsReads.ALateStoreHidesAWrite | jen/models/user.py:254-254 | a run in which an invalidation falls between the compare and the store and a returned write stays hidden |
| SessionCache.Accounts.LoadUser | jen/__init__.py:265-368 | read from the full row the user and the new cookie are the row's; served on the token version the user is the row's exactly when no single sign-on wrote to that version since the cookie was made, or the last one wrote the cookie's role and subnets, and a cookie without a mark has adopted the row's; a session of another password than the first query's is ended and served nobody; who is gone loses the cookie |
| SessionCache.Accounts.RequestsAroundAPasswordChange | jen/__init__.py:309-316 | after a request on the version and a change of password, a request whose first query is answered is ended exactly when the cookie's mark, adopted if it had none, is not the new password's |
| SessionCache.Accounts.Serve | jen/__init__.py:348-365 | over any requests, sign-ins of both kinds and account changes every cookie ever issued describes its row as it was at its version |
| SessionCache.Accounts.OidcSignIn | jen/services/oidc.py:245-254 | a single sign-on writes role and subnets without moving the version, writes nothing when they are the same, and its session carries the row as it then is |
| SessionCache.ServedByVersion | jen/__init__.py:314-327 | for a cookie made at any point of its version's history the cached values are the row's exactly when nothing was written since, or the last write is what it holds |
| SessionCache.Accounts.RequestAfterAnotherSignOn | jen/services/oidc.py:245-254 | a session opened by a single sign-on and served on its version after another one carries the row's values exactly when the two brought the same |
| SessionCache.AnOpenSessionKeepsItsOldRole | jen/__init__.py:314-327 | after a sign-on elsewhere an open session is served its old role and subnets |
| SessionCache.DeletedIsNeverServed | jen/__init__.py:298-303 | whoever is served had a row when the deciding query asked |
| SessionCache.OtherPasswordServedIff | jen/__init__.py:286-365 | the exact cases in which such a session is served all the same |
| ConfigStore.RunGuards | jen/config.py:440-474 | accepted exactly when the view is unchanged or every guard accepts the pair; a raising guard refuses; the sentence is the first refuser's |
| ConfigStore.CheckChange | jen/config.py:752-772 | destination guards, then identity guards, then the credential rule; the refusal is the first one's |
| ConfigStore.ReadsBackWhatWasWritten | jen/config.py:815-826 | a written key reads back as its last value, every other key as before |
| ConfigStore.AppConfig.WriteValue | jen/config.py:803-813 | one value, under the same rules as several |
| ConfigStore.AppConfig.WriteValues | jen/config.py:815-826 | the file changes only to the edited one and only when every rule accepts that pair; a refusal writes nothing; allowed and written, the save succeeds and the globals are the file's exactly when what was asked for loads |
| ConfigStore.AppConfig.Mutate | jen/config.py:863-883 | likewise for an arbitrary edit; one that raises writes nothing |
| ConfigStore.AppConfig.PreflightThenMutate | jen/config.py:774-801 | a preflight and the write after it have the same verdict and the same sentence |
| ConfigLock.StepKeepsInv | jen/config.py:235-308 | every step of Jen's threads, the installer and either one's death keeps the invariant |
| ConfigLock.NoLostUpdate | jen/config.py:512-522 | in every run the file is complete and equals the committed edits applied in commit order |
| ConfigLock.TheLogIsTheCommits | tools/private_write.py:127-206 | one committed edit for each replace, and no other step adds or removes one |
| ConfigLock.GlobalsFollowTheFile | jen/config.py:477-490 | when a Jen write ends the globals are what the file derives |
| ConfigLock.OneWriterAtATime | tools/private_write.py:209-246 | from read to release nobody else holds the file, thread or installer |
| ConfigLock.AWriteOfItsOwnCommits | jen/config.py:484-490 | from every reachable state in which nobody holds its locks a write nothing stops commits its edit, leaves Jen's globals at it, and holds nothing |
| ConfigLock.WhoeverStopsHoldsNothing | jen/config.py:264-308 | giving up, being refused, failing or being killed leaves the file and the log as they are and drops the locks |
| ConfigLock.AKilledJenHoldsNothing | jen/config.py:235-243 | a killed Jen holds no lock, an installer keeps its own, and the next start reads the file |
| Subnets.DeriveSubnetMap | jen/config.py:983-1034 | the map of the readable lines, a later line of an id winning |
| Subnets.ValidUnlessUnfit | jen/config.py:119-142 | a name is refused when it is empty, over 64 characters, or has a comma, an equals sign, a bracket or a control character in it |
| Subnets.ReconcileSubnetNames | jen/config.py:159-214 | refused exactly when a new or changed name is one of those; otherwise the wanted entries and the first repair of every unreadable id |
| Subnets.DamagedNamesAreRepaired | jen/config.py:202-213 | of a line whose name has commas the name comes back with two spaces for each, the blanks around it gone, the network being the last field |
| Subnets.IdsAreSignedNumerals | jen/config.py:196-199 | a key is an id exactly when it is a numeral with or without a sign |
| Subnets.RewriteSection | jen/config.py:836-847 | the section holds one line for each of those entries and no other; a map whose invalid names are all stored ones is written |
| Subnets.LegacyNameSurvives | jen/config.py:159-170 | an entry nobody touched is read back as it was, whatever its name contains |
| SubnetWriter.WriteSubnets | jen/config.py:828-849 | through the guards and the file: only that section changes, to the rewritten lines in whatever order; refused names and refused changes write nothing |
| Subnets.PrintedSectionReadsBack | jen/config.py:983-1034 | a printed section reads back as its entries with a valid network, trimmed |
| Subnets.TrimmedEntriesRoundTrip | jen/config.py:828-849 | what was written is read back; a readable entry not asked for is gone; an unreadable one is back, repaired, when its last field is a network |
| Subnets.UnreadableMeansDamaged | jen/config.py:173-183 | such an entry is one a comma in its name had damaged |
| Subnets.SecondWriteIsAFixedPoint | jen/config.py:159-214 | writing back what was read is never refused and changes nothing that is read |
| ConfigMerge.Merge | tools/config_merge.py:174-189 | every value is the wizard's exactly when the wizard has it and the snapshot does not have the same, else the live one, removals included |
| ConfigMerge.OneMerge | tools/config_merge.py:174-189 | that determines the merged file |
| ConfigMerge.UntouchedWizardChangesNothing | tools/config_merge.py:17-24 | an untouched wizard returns every live file as it is |
| ConfigMerge.MergeIsIdempotent | tools/config_merge.py:174-189 | merging the same answers again changes nothing |
| ConfigMerge.SavesSurvive | tools/config_merge.py:19-24 | a live value is kept exactly when its key was not typed, or was typed to the same |
| ConfigMerge.SeededValueReadsBack | tools/config_merge.py:243-246 | an escaped value is one line and expands to the value without its carriage returns |
| ConfigMerge.SeededKeyIsUntyped | tools/config_merge.py:226-246 | a seeded key left alone is untyped exactly when its value has no carriage return |
| IdentityViews.IdentityView | tools/config_merge.py:75-96 | the view has exactly the labels and values of the mode, the primary and each numbered server |
| IdentityViews.IdentityDiff | tools/config_merge.py:99-115 | exactly the lines of the labels that differ; none exactly when the views are equal and, on canonical names, exactly when Jen's are |
| IdentityViews.NoLineIffSameView | tools/config_merge.py:99-115 | saying an added or removed server once hides no difference |
| IdentityViews.EmptyDiffIffSameJenView | jen/config.py:363-394 | on canonical names the installer's list is empty exactly when Jen's identity view is the same |
| IdentityViews.SpelledOtherwiseGoesUnread | jen/config.py:940-980 | an edit inside a section whose number is spelled otherwise never changes Jen's view |
| IdentityViews.PaddedNumber | jen/config.py:940-980 | `kea_server_02` is a section the installer takes for a server and Jen does not look up |
| IdentityViews.AnEditOnlyTheInstallerSees | jen/config.py:363-394 | for every file with such a section there is an edit of it that the installer reports and Jen's view does not show |
| IdentityViews.AgreementIffCanonical | jen/config.py:363-394 | the two agree on every edit that keeps the section names exactly when those are canonical |
| IdentityReads.ModeIsDirectIff | tools/config_merge.py:81-82 | both programs read the mode as direct exactly when connection_mode says so in any case between any blanks, else as ca |
| IdentityReads.AModeChangeIsSaid | tools/config_merge.py:99-115 | a change of mode gives a line, and is one Jen's guards are asked about |
| IdentityReads.TheInstallerReadsThePrimary | tools/config_merge.py:72-86 | the primary's URL, host, user and path are read from their sections and keys, a blank path being the default |
| IdentityReads.TheInstallerSeesAServer | tools/config_merge.py:87-92 | a section is a server's exactly when its name is the prefix and a number from 2 on |
| IdentityReads.TheInstallerReadsAServer | tools/config_merge.py:93-95 | and its four settings are in it |
| IdentityReads.JenReads | jen/config.py:363-394 | Jen's view has the primary and every such number, with the settings of the section the number spells |

## Left out

- Migrations other than those nine: the single-statement ones would be further instances of the same argument;
  `promotions` in the modelled state counts promotion UPDATEs and has no counterpart in the database.
- RevisionMigration: the sealing is any function that opens again and marks what it seals; migration 21 stands apart from the
  runner because a sealed body is different in every run.
- The advisory lock around the migrations: one start at a time is assumed.
- MigrationRunner.RunMigrations: the registry has eight entries.
- MigrationRunner.StartRepeatedly: starts, like every migration here, from a state in which the base tables and columns exist, rows
  have their table's columns and every user a role, the engine's own keys hold, and no single sign-on subject was stored
  before the key that forbids duplicates; each of these is kept by every step.
- Names under releases/ are a datatype and the timestamps of snapshots are compared as numbers, so a directory whose name
  only looks like a staging one is not modelled.
- Updater.UpdateRun: the running process is taken to report the JEN_VERSION inside the release the link leads to.
- Updater.RunRepeatedly: compares the live version between runs; within one run a failed update goes back to the release it
  started from.
- Plugins.PluginDir.InstallOne: the superseded copy in the writable directory is not modelled.
- File names with newlines: the patterns' `$` also matches before a final one.
- `\d` is taken as the ASCII digits and `strip` as removing ASCII white space; an integer key may have a sign but no
  underscores.
- PluginRequests.RequestDir.ProcessRequests: which requests were answered how is for runs in which nobody else writes markers and the
  markers deleted do go; others write before a listing or a request, not in the middle of one; what an install fetches and
  checks is nondeterministic.
- PluginRequests.RequestDir.DrainRepeatedly: takes the deleted markers to go, since an install whose marker stays is made again.
- SettingsCache.FreshAndOlderIff: `_settings_version += 1` is one step, since two of them overlapping could lose a bump.
- SettingsCache covers `get_global_setting` without `strict`, `set_global_setting` and `update_global_setting`; the retry
  after a deadlock is another call.
- SessionCache.Accounts.LoadUser: admin changes move an account's version, single sign-ons do not, ids are not reused, and the
  fingerprint is an arbitrary function of the stored hash.
- SessionCache.Accounts.OidcSignIn: its SELECT and its UPDATEs are one step.
- ConfigLock takes the lock file as one inode for everybody: no step of either program replaces it.  Owner and mode bits and
  the refusal of symlinks are not modelled.
- ConfigStore takes the views and the credential rule as functions; IdentityViews gives the identity view itself.
- ConfigParser's own format: the DEFAULT section, comments, case folding and continuation lines.
- SubnetWriter.WriteSubnets: the order of a section's keys in the file is a parameter.
- `[subnets6]` with its third field, and the order of the installer's difference lines.
- Routes, templates, authentication beyond the session cache, and everything Jen says to Kea.
