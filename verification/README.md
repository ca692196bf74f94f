# Supervisor configuration management: a verified model

The program keeps Supervisor config files on a set of hosts and a registry of them in a database. This project
models the three parts of it that belong together and proves what they are for.

* **The lifecycle of a service over two stores.** Create, update, archive, restore and hard delete change the
  files of a host (`cfg`, `cfg.bak`, `cfg.bak.<stamp>`, `cfg.<stamp>`) and the rows of the registry without a
  common transaction. `Site` holds the file maps and the tables; the services are methods on it, written step by
  step, and every remote call and every statement may fail. Each method is proved to be a step of the relation in
  `Lifecycle`, whatever fails, and to do its work exactly when its checks hold on a site where nothing fails
  (`Site.reliable`); `Runs`, `Ports` and `History` prove what holds over all runs of such steps: unique
  keys, unique ports, the bytes of archived files, the survival of every file content, exact compensation. `Guards` and
  `Outcomes` tell the checks and the results of a request column by column and file by file.
* **The two-phase import.** PRECHECK turns every file into a staging row, COMMIT upserts a batch all or nothing.
  `Commit` shows that the loop, which checks two keys against a table it is changing, refines a map override, and
  says exactly when it accepts; `ImportPlan` and `ImportRuns` show that a clean precheck is kept to, also when other
  requests run in between, `ImportAgain` that a precheck after the commit finds what was imported;
  `StagingRuns` is the protocol of the staging table.
* **Names and texts.** `PathNames` is the path and name normaliser; `Template`, `RoundTrip` and `ParseBack` print
  a service as INI text and read it back with the leftmost searches of the parser; `ParsePaths`, `ParseVerdicts`,
  `PortText` and `DuplicateDocs` say what the parser makes of texts from elsewhere. The lifecycle rests on both: on
  names that never collide, and on the port standing in the text the scan reads.

`SyncService` and `Paging` cover the detail sync and the list query.

## Assumptions

* Requests run one at a time.
* Rotation names have the granularity of one second, and stamps may collide in every run. Two theorems over runs ask
  for more: unique ports (`Ports.PortsUniqueOverRuns`) that no service has two backups of one second (`FreshBackup`),
  and the survival of every content (`History.RunConserves`) that none has two live files set aside in one second
  either (`FreshStamps`). `Files.BackupConservesIff` and `Files.RestoreConservesIff` state exactly when a clash loses
  content.
* Only these services change config and backup files, and two strings are equal only if they are the same.
* Reads are exact. This matters for content copied into the database and for the port scan; moves and
  copies do not need it.
* Batch ids are unique, and the clock does not run backwards during one precheck.
* The ids of the table are positive and never reused.

## What the code does that a reader might not expect

* `app/services/port_check_service.py:48` asks for a scan that misses no backup. The test of line 87 takes every
  file whose name begins with the updated path plus ".bak" for one of its own backups, so an archived service whose
  path happens to begin like that is missed and its port can be given away a second time. `PortsUniqueOverRuns`
  states the exact condition and `ShadowExample` a concrete run from the empty registry.
* The path normaliser is not idempotent: it removes outer blanks first, and outer slashes, "./" and what ".." cancels
  afterwards, so "./ a.ini" and "/ a.ini" become a path that begins with a blank and is rewritten when it is normalised
  again. `PathInput` states on the input when that happens; without white space it cannot.
* A file name such as ".ini.ini" is accepted for a service, but its backup name is not accepted by delete and sync:
  the cleanup after a hard delete of such a service is always PARTIAL, and its sync always FAILED
  (`PathNames.UnremovableBackup`, with `MutationService.CleanUp` and `SyncService.SyncService`).
* A batch in which one service gives up its name and another takes it is accepted or refused depending on the order
  of its rows (`Commit.OrderMatters`). A batch in which services exchange their names is refused in every order
  (`Commit.CycleIsRefused`).
* After the files of an update are written, a failing reread or update command is not compensated. (The parse between
  them and the database write cannot fail: `RenderParses`.)

## Model

The first 49 rows are the main results; the others are the operations and lemmas they rest on.

| member | source | states |
|---|---|---|
| `Ports.PortsUniqueOverRuns` | app/services/port_check_service.py:37-64 | in every run of create, update, archive, restore and delete with any call failing and no service backed up twice within one second, all rows of a host have different ports at every moment, archived ones included, exactly when no step is a completed update against a shadowed row |
| `History.RestoreReturnsArchivedBytes` | app/services/supervisor_archive_service.py:35-110 | a completed restore puts back at the same path the bytes the file had when it was archived, whatever ran or failed in between and whatever the rotation stamps |
| `Commit.AcceptedExactly` | app/services/supervisor_registry_service.py:859-867 | the loop accepts a batch of distinct names and paths exactly when every old holder of an entry's name stands at the path of that entry or an earlier one |
| `Commit.CommitIsOverride` | app/services/supervisor_registry_service.py:846-888 | the commit loop refines a plain override of the map from (host, configPath) to row |
| `ImportRuns.PlannedBatchSurvives` | app/services/supervisor_import_service.py:473-500 | in every run that mixes lifecycle and staging events, a batch whose items are all PLANNED is committable until the batch is touched or runs out of time, whatever is archived, restored, deleted or synced, fails, or happens to other names and hosts in between |
| `ImportRuns.AnnouncementSurvives` | app/services/supervisor_import_service.py:509-523 | in such a run COMMIT reports what PRECHECK announced for every entry at whose path no row comes, goes or changes its mode in between |
| `ImportPlan.PlannedBatchCommits` | app/services/supervisor_registry_service.py:831-888 | a batch whose items are all PLANNED is committable if the registry has not changed |
| `TableRuns.KeysUniqueOverRuns` | app/services/supervisor_registry_service.py:422-458 | over every run mixing create, update with rename, archive, restore, delete, sync and any COMMIT at all, (host, configPath) and (host, contentProgramName) stay unique |
| `Ports.RunKeepsInv` | app/database/models/supervisor.py:56 | over every run mixing create, update with rename, archive, restore, delete, sync and COMMIT of normal paths, both keys stay unique, registered paths normal, and every archived row has its archived bytes in `.bak`, whatever the rotation stamps |
| `History.RunConserves` | app/services/config_file_service.py:272-389 | over every run without hard deletes in which no service is backed up, or has its live file set aside, twice within one second, no file content is lost |
| `History.CompensationIsExact` | app/services/supervisor_mutation_service.py:113-125 | after a failed database write whose compensation completes, the registry is as before; for create so is everything else, for update so are the live `.ini` files, whatever the rotation stamps |
| `History.StepFlags` | app/services/supervisor_archive_service.py:44-46 | a row disappears exactly by its hard delete and only while archived; the flag rises exactly by a completed archive and falls exactly by a completed restore, so update and COMMIT never touch it |
| `History.ArchiveAlternates` | app/services/supervisor_archive_service.py:92-94 | over every run archives and restores of a row alternate |
| `ParseBack.ParseOfRender` | app/services/template_service.py:112-244 | rendering succeeds and parsing the rendered text gives back job, module, program, port, Java path, profile, jar, xms, xmx and user, complete and without warning, for names that pass the checks, a jar ending in ".jar" and free text without blanks, quotes or option marks |
| `RenderParses.RenderedParses` | app/services/supervisor_mutation_service.py:230 | whatever the free text, a text that rendering lets through is accepted by the parser under the program name of the request, so the parse of an update after its file steps cannot fail |
| `OnlyPort.OnlyRenderedPort` | app/services/port_check_service.py:52-63 | in a text rendered from readable free text without "=" the port scan finds the rendered port and no other |
| `PortText.MentionsIff` | app/services/port_check_service.py:52-63 | the port scan finds a port in a text exactly when "port=" stands somewhere with a number of that value right after it, at any position and whatever surrounds it |
| `ImportAgain.PrecheckAfterCommit` | app/services/supervisor_import_service.py:473-523 | after the commit of a batch whose items were all PLANNED, a precheck of the same files plans every one of them again and announces for each that its snapshot will be refreshed |
| `ImportAgain.RenderedIsPlanned` | app/services/supervisor_import_service.py:435-500 | a precheck of a file that the template rendered under its own name recovers every field of the request, and plans it unless another path of the host has the name |
| `Commit.EveryEntryIsStored` | app/services/supervisor_registry_service.py:846-888 | after an accepted batch of distinct paths the row at every staged key, new or replaced, holds the entry column by column |
| `Guards.RewritableIff` | app/services/supervisor_mutation_service.py:156-192 | the checks of an update likewise, the row itself and the files of its own path left out, and a port in use allowed if it is the row's own |
| `Guards.OrdinaryPasses` | app/database/repositories/supervisor.py:43-54 | an update that keeps name, file name and port passes every check, whatever ports listen, if its file is there, no other unarchived row of the host has the port and no file but its own mentions it |
| `Outcomes.UpdateShown` | app/services/supervisor_mutation_service.py:220-266 | a completed update leaves the row with every column of the request, in the old directory; the rendered text at its path, the old bytes in `.bak`, an older `.bak` under its stamped name; no other row, host or file changes, and with the file name kept the live files keep their names |
| `Outcomes.TargetKeepsDirectory` | app/services/supervisor_mutation_service.py:330-336 | the path an update renders to agrees with the registered path in every segment but the last, which is the rendered name; it is the registered path exactly when the name is kept |
| `ParsePaths.JarGivesModule` | app/services/template_service.py:299-332 | a directory with the job only takes the module from the jar: M for `/data/content/X/M.jar`, runs of slashes counting for one |
| `ParsePaths.JarWins` | app/services/template_service.py:299-332 | without a directory below the root, a jar `/data/content/J/M/x.jar` gives J and M, whatever the program name is |
| `MutationService.CreateService` | app/services/supervisor_mutation_service.py:71-125 | whatever call fails, the request is a create step: nothing changed, or the file written, or written and compensated, or file and row present; when no call fails it is carried out exactly if every check, told on rows and files, holds and the port is not in use; carried out, it leaves one new row with every column of the request and one new file, and nothing else |
| `MutationService.UpdateService` | app/services/supervisor_mutation_service.py:156-266 | whatever call fails, the request is an update step; when no call fails it is carried out exactly if every check holds, and always if it keeps name, file name and port; carried out, the row holds the request column by column, its path keeps the directory, and with the file name kept the live files have the same names |
| `MutationService.DeleteService` | app/services/supervisor_mutation_service.py:279-309 | the row goes, its two files as far as they can, everything else stays; a refusal changes nothing and comes from a failed call or a row that is not archived; the rest is told row by row and file by file |
| `ArchiveService.ArchiveService` | app/services/supervisor_archive_service.py:35-62 | whatever call fails, the request is an archive step; when none fails, an unarchived service is archived exactly if its config file exists; archived, the row and the files are told one by one, and all others stay |
| `ArchiveService.RestoreService` | app/services/supervisor_archive_service.py:82-110 | whatever call fails, the request is a restore step; when none fails, an archived service is restored exactly if its `.bak` exists; restored, the stored runtime is what the status reading says, and all other rows and files stay |
| `ImportCommit.CommitBatch` | app/services/supervisor_registry_service.py:806-896 | all or nothing: on success registry and staging table are exactly the committed ones, on any failure both are unchanged; when no statement fails it succeeds exactly if the batch is committable; both keys stay unique, whatever the shape of the paths, and every reported row holds what was staged, column by column, and keeps or starts its own state |
| `Precheck.Precheck` | app/services/supervisor_import_service.py:273-341 | every top-level or nested `.ini` file gives one item and one row; only the staging table changes, and only as the staging protocol allows, wherever it stops; a planned item shows the fields parsed from its file |
| `SyncService.SyncService` | app/services/supervisor_sync_service.py:37-137 | exactly one unarchived row changes, in descriptive columns only; FAILED is stored and answered exactly with a non-empty error text, that of the last read that went wrong; SUCCESS means a status entry, a current config and no failed backup read; what was found on the host is what row and answer show: runtime entry, content and backup; a missing one makes the runtime UNKNOWN, a failed read keeps the value before; when no call fails only the backup read can, exactly for a base name that begins with ".ini" |
| `StagingRuns.ReloadFindsBatch` | app/services/supervisor_import_service.py:232-271 | until its operator prechecks again or commits, and before its time is up, a reload finds exactly the rows of the precheck in order |
| `StagingRuns.CommitsOnce` | app/services/supervisor_registry_service.py:890-895 | a batch is committed at most once |
| `StagingRuns.RunKeepsOneBatch` | app/services/supervisor_import_service.py:290-323 | over every run the rows of one operator on one host carry one batch id |
| `StagingRuns.OthersOnlyExpire` | app/database/repositories/supervisor.py:128-132 | other operators, other hosts and reloads change nothing in what an operator has staged, except that rows past their time go |
| `PathNames.FileOfInjective` | app/services/config_file_service.py:65-86 | the live file, `.bak`, `.bak.<stamp>` and `.<stamp>` families of config paths are disjoint and injective: equal names mean equal path and equal kind |
| `PathNames.BackupNameAgrees` | app/services/supervisor_mutation_service.py:472-484 | the backup name that delete and sync send through the normaliser is the one archive writes exactly when the base name, leading blanks aside, does not begin with ".ini"; otherwise it is rejected, never rewritten |
| `PathNames.ContainedAndMapsBack` | app/core/security.py:110-119 | an accepted path joined below the absolute config directory always passes the containment check, and taken relative to the directory it is the same path exactly when the directory itself has no ".." |
| `PathInput.IdempotentIff` | app/core/security.py:72-107 | feeding an accepted path's output back gives it again exactly when the first segment that `normpath` keeps of the stripped input does not begin with a blank |
| `PathInput.IdempotentWithoutSpace` | app/core/security.py:72-107 | on input without white space the normaliser is idempotent |
| `ShadowExample.ShadowedRun` | app/services/port_check_service.py:84-87 | a run of four completed requests from the empty registry, create, create, archive, update, after which two rows of a host have the same port |
| `DuplicateKeys.WarningCount` | app/services/template_service.py:283-296 | a (section, key) with n occurrences gives exactly n - 1 warnings, same-named sections merged |
| `DuplicateKeys.NoWarningIffDistinct` | app/services/template_service.py:271-296 | no warning is emitted exactly when the keys are distinct in every section |
| `Commit.CycleIsRefused` | app/services/supervisor_registry_service.py:846-867 | entries that pass their names around among themselves are refused in every order |
| `Files.BackupConservesIff` | app/services/config_file_service.py:272-290 | a backup, followed by the removal of the live file or not, loses content exactly when it rotates `.bak` onto an existing file whose content is nowhere else |
| `Paging.PagesAreTheListing` | app/database/repositories/supervisor.py:86-89 | pages 1 to `pages`, each from its own query, together give every matching row exactly once in order; each of them has a row and no more than `size`, and later pages are empty |
| `PathInput.IdempotentWithoutUp` | app/core/security.py:74-84 | for input without ".." that segment is the first one that is neither empty nor "." |
| `PathInput.OutputIsKept` | app/core/security.py:74-84 | the output is the segments `normpath` keeps of the stripped input, joined |
| `PathNames.NormalizeIdempotent` | app/core/security.py:72-107 | an accepted path has no empty, "." or ".." segment and ends in ".ini" |
| `PathInput.NotIdempotent` | app/core/security.py:74-104 | two paths the normaliser accepts and does not leave fixed: "./ a.ini" and "/ a.ini" become " a.ini", which is rewritten again |
| `PathNames.AcceptedParts` | app/core/security.py:82-107 | every accepted path, backups allowed or not, splits into plain segments without backslash whose directories and file name pass the name checks |
| `PathNames.AcceptParts` | app/core/security.py:72-107 | conversely, plain segments that pass the name checks and do not begin or end in white space are accepted as they are |
| `PathNames.ConfigNameIsCanonical` | app/core/security.py:51-69 | what the name normaliser returns is left alone by both normalisers and is its own base name |
| `PathNames.TargetPathIsCanonical` | app/services/supervisor_mutation_service.py:330-336 | the path an update renders to is normal and its base name is the file name, whatever the registered path |
| `PathNames.UnremovableBackup` | app/core/security.py:51-69 | the file name ".ini.ini" is accepted for a service, and its backup name is rejected |
| `PortCheck.OwnFilesAreListed` | app/executor/local.py:31-41 | the scan globs cover the live file and all backups of every registered path |
| `PortCheck.SkipMeansExtends` | app/services/port_check_service.py:84-87 | leaving out the files of one path leaves out a file of another registered path only if that path extends the first one plus ".bak" |
| `DuplicateKeys.CollectDuplicateOptionWarnings` | app/services/template_service.py:271-296 | the loop over sections, keys and the seen table computes the repeated (section, key) entries of the document |
| `DuplicateKeys.WarningsInDocumentOrder` | app/services/template_service.py:288-296 | the warnings of a beginning of the document are the beginning of its warnings |
| `RoundTrip.RenderedMentionsPort` | app/services/port_check_service.py:52-63 | whatever free text a request carries, the port scan finds the requested port in the text rendered for it |
| `RoundTrip.ExtractFromWords` | app/services/template_service.py:247-252 | leftmost search over the whole command finds the marked word when no earlier word contains the mark |
| `ParseBack.ReadBack` | app/services/template_service.py:153-165 | the rendered text reads as an INI file of one section that holds exactly the option pairs of the template, strictly and tolerantly |
| `ParseBack.NoWarnings` | app/services/template_service.py:201-203 | a rendered text has no duplicate key |
| `ParseBack.PortComesFirst` | app/services/template_service.py:254-258 | the first port the parser finds in the whole text is the rendered one |
| `ParseBack.JavaPathIsFirstWord` | app/services/template_service.py:261-268 | the shell-style split of the rendered command begins with the Java path |
| `ConfigFileService.BackupByConfigPath` | app/services/config_file_service.py:272-295 | wherever it stops, the files are the old ones, those with `.bak` rotated, or those with the live file copied to `.bak` as well; success is the last; a rejected path changes nothing |
| `ConfigFileService.RestoreByConfigPath` | app/services/config_file_service.py:318-341 | wherever it stops, the files are the old ones, those with the live file set aside, or those with `.bak` copied back; success is the last |
| `ConfigFileService.WriteByConfigPath` | app/services/config_file_service.py:232-241 | success writes exactly the normalised path, failure nothing |
| `ConfigFileService.DeleteByConfigPath` | app/services/config_file_service.py:367-389 | success removes exactly the normalised path, which was there; failure removes nothing |
| `ConfigFileService.RemoveOptional` | app/services/config_file_service.py:391-414 | success says whether the file was there and leaves the files without it; failure changes nothing |
| `ConfigFileService.ReadByConfigPath` | app/services/config_file_service.py:184-189 | success returns the content at the normalised path; a refusal other than a failed call means that the file is missing or the path rejected |
| `ConfigFileService.ReadOptional` | app/services/config_file_service.py:196-207 | success returns the content, or nothing when there is no such file |
| `Files.BackupConserves` | app/services/config_file_service.py:272-290 | with a fresh stamp, backing up and then removing the live file loses no content, and `.bak` holds the live bytes |
| `Files.UpdateConserves` | app/services/supervisor_mutation_service.py:220-229 | wherever the file steps of an update stop, every content of before is still in some file |
| `Files.RestoreConserves` | app/services/config_file_service.py:318-335 | wherever a restore stops, every content of before is still in some file and `.bak` is untouched |
| `Files.UndoConserves` | app/services/supervisor_mutation_service.py:429-465 | the same for an update and its compensation together, wherever both stop |
| `Files.UndoIsExact` | app/services/supervisor_mutation_service.py:429-465 | a complete compensation restores the map of live `.ini` files, same path or renamed |
| `Files.BackupCount` | app/services/config_file_service.py:83-86 | a backup adds one file exactly when it does not rotate `.bak` onto a name that exists already |
| `Files.RestoreConservesIff` | app/services/config_file_service.py:318-335 | a restore loses content exactly when it sets the live file aside onto an existing file whose content is nowhere else |
| `Files.StampClashLoses` | app/services/config_file_service.py:83-86 | for instance, two backups of one file within one second lose the backup rotated first when its text is in no other file |
| `Registry.InsertKeeps` | app/services/supervisor_registry_service.py:183-195 | inserting a row whose name and path are free keeps both keys unique |
| `Registry.ReplaceKeeps` | app/services/supervisor_registry_service.py:515-536 | so does rewriting a row by id when no other row has the new name or path |
| `Registry.SetByNameTouchesOne` | app/services/supervisor_registry_service.py:233-282 | the by-name writes of archive and restore change exactly one row |
| `Registry.DescribeByNameTouchesOne` | app/services/supervisor_registry_service.py:346-404 | so does the by-name write of sync |
| `RegistryService.GetHost` | app/services/host_service.py:30-38 | accepts exactly the well formed names of enabled hosts, blanks around them aside |
| `RegistryService.EnsureNoConflict` | app/services/supervisor_registry_service.py:422-458 | passes only if name, path and port are free, and when it is not the database that fails it refuses only if one is taken; a port conflict is reported only after name and path were found free |
| `RegistryService.EnsureCanSave` | app/services/supervisor_registry_service.py:406-416 | the same after normalising the data, whose errors it passes on |
| `RegistryService.GetByName` | app/services/supervisor_registry_service.py:131-143 | finds the row with that name; a refusal that is not a database failure means that there is none or that the name is malformed |
| `RegistryService.Create` | app/services/supervisor_registry_service.py:183-195 | checks again and inserts one row under the next id, or changes nothing |
| `RegistryService.UpdateService` | app/services/supervisor_registry_service.py:496-536 | rewrites one row by id with the normalised data and the state of the host, or changes nothing |
| `RegistryService.Mark` | app/services/supervisor_registry_service.py:233-282 | sets archive flag and runtime state by host and name, or changes nothing |
| `PortCheckService.ListRawConfigs` | app/services/config_file_service.py:127-132 | returns every scanned file with its content, or fails as a whole |
| `PortCheckService.FindConflicts` | app/services/port_check_service.py:37-64 | the file conflicts are exactly the scanned, not skipped files that mention the port; the runtime conflict is there exactly if asked for and the port is in use |
| `PortCheckService.EnsureNoConflict` | app/services/port_check_service.py:66-82 | passes only without any conflict and reports a port conflict only if there is one |
| `MutationService.RequestIsNormal` | app/services/supervisor_registry_service.py:542-564 | the data of a create or update request is left unchanged by the normalisation of the registry, so path and file name never disagree there |
| `MutationService.CheckCreate` | app/services/supervisor_mutation_service.py:71-100 | passes only if every check holds; refuses, failed calls aside, only if one does not or the port is in use |
| `MutationService.RollbackCreate` | app/services/supervisor_mutation_service.py:411-427 | complete means that the new file is gone and nothing else changed |
| `MutationService.CheckUpdate` | app/services/supervisor_mutation_service.py:156-192 | the same for an update: archive flag, current file, conflicts with other rows, target file, port |
| `MutationService.RewriteFiles` | app/services/supervisor_mutation_service.py:220-229 | the files stop after a prefix of backup, write, delete-old; success is all three |
| `MutationService.RollbackUpdate` | app/services/supervisor_mutation_service.py:429-465 | the files stop after a prefix of remove-target, restore; complete means both |
| `MutationService.DeleteFileStep` | app/services/supervisor_mutation_service.py:522-549 | a file is gone and reported, or was not there, or a warning is left and nothing changed |
| `MutationService.CleanUp` | app/services/supervisor_mutation_service.py:467-520 | what is reported deleted is exactly what went away; success means no warning and then exactly `cfg` and `cfg.bak` are gone; when no call fails, success is reported exactly if the base name does not begin with ".ini" |
| `MutationService.LoadRecord` | app/services/supervisor_archive_service.py:128-130 | passes only for a row with the wanted archive flag; a refusal that is not a failed call means that there is none |
| `ArchiveService.TakeDown` | app/services/supervisor_archive_service.py:49-53 | the files stop after a prefix of backup, delete; success is both |
| `Runs.StepKeepsInv` | app/services/supervisor_mutation_service.py:71-309 | every request, wherever it stops, keeps ids, paths and names unique, paths normal and the bytes of every archived row in its `.bak` |
| `TableRuns.ByNameTouchesOne` | app/services/supervisor_registry_service.py:233-282 | hence the by-name write of archive and restore touches exactly one row at every moment of such a run |
| `Ports.EmptyRegistryStarts` | app/database/repositories/supervisor.py:91-97 | an empty registry meets every starting condition of the run theorems |
| `Ports.StepKeepsWitness` | app/services/port_check_service.py:37-64 | every row, archived or not, keeps a scanned file of its own that mentions its port, wherever a request stops, unless the service was backed up before in the same second |
| `Ports.CreatePortIsNew` | app/services/supervisor_mutation_service.py:92-100 | a create whose checks pass has a port that no row of the host has, although the database check ignores archived rows |
| `Ports.UpdateDuplicateIsShadowed` | app/services/supervisor_mutation_service.py:387-394 | an update whose checks pass has a port that no other row of the host has, except an archived row whose path extends the updated path plus ".bak" |
| `Ports.StepPorts` | app/database/repositories/supervisor.py:43-54 | one request on distinct ports leaves them distinct exactly when it is not a completed update against such a shadowed row |
| `Ports.ApartIsNeverShadowed` | app/services/port_check_service.py:84-87 | that is so in particular while no registered path extends another one plus ".bak" |
| `History.StepConserves` | app/services/supervisor_mutation_service.py:207-256 | wherever a request other than a hard delete stops, every file content of before is still in some file, unless the service was backed up or set aside before in the same second |
| `Commit.OverrideExactly` | app/services/supervisor_registry_service.py:846-888 | after it every staged key holds its staged entry, merged into the row that was there or new, and every other key is as before |
| `Commit.CommitKeepsRows` | app/services/supervisor_registry_service.py:614-641 | replaced rows keep id, host, path, archive flag and runtime state; the table grows by the number of new rows, which start unarchived |
| `Commit.UpsertsKeep` | app/services/supervisor_registry_service.py:846-888 | both keys are unique after every turn of the loop |
| `Commit.OrderMatters` | app/services/supervisor_registry_service.py:846-867 | a hand-over, where one entry gives up a name that another takes, is accepted in one order and refused in the other |
| `Commit.ExchangeIsRefused` | app/services/supervisor_registry_service.py:846-867 | in particular two services cannot exchange their names in one batch |
| `ImportCommit.CheckBatch` | app/services/supervisor_registry_service.py:828-844 | the duplicate check passes exactly when every entry has a name and names and paths are pairwise different |
| `ImportCommit.UpsertOne` | app/services/supervisor_registry_service.py:846-888 | one turn: refused exactly on a name held elsewhere, failed statements aside; otherwise the upsert and a report of what it replaced |
| `ImportCommit.UpsertAll` | app/services/supervisor_registry_service.py:845-888 | the loop computes the upserts of the normalised entries in order and reports every turn, or fails because an entry is malformed or clashes |
| `ImportService.ResultCounts` | app/services/supervisor_import_service.py:373-383 | imported is the number of rows the table grew by, and imported plus updated is the batch size |
| `ImportService.ExecuteCommit` | app/services/supervisor_import_service.py:343-383 | one report item per staged row with the counts above, and the table grows by the number reported as imported |
| `Precheck.PlanUpsert` | app/services/supervisor_registry_service.py:481-494 | refuses exactly a name held at another path or a path that does not normalise a second time, failed statements aside, and tells what stands at the path so normalised |
| `Precheck.PrecheckPath` | app/services/supervisor_import_service.py:418-500 | an item is PLANNED only if the file can be read, parsed, normalised and planned, and is skipped, failed calls aside, only if it cannot |
| `Precheck.PrecheckAll` | app/services/supervisor_import_service.py:299-309 | planned items have pairwise different names and say what stands at their paths; when no call fails an item is PLANNED exactly if its file can be planned after those before it |
| `Precheck.InsertBatch` | app/database/repositories/supervisor.py:134-168 | the table grows by a prefix of the rows of the items, by all of them on success |
| `ImportPlan.PlannedBatchCommitsLater` | app/services/supervisor_import_service.py:343-363 | the same after any run of staging events by others |
| `ImportPlan.AnnouncedIsReported` | app/services/supervisor_import_service.py:509-523 | COMMIT reports for every entry the outcome that PRECHECK announced, new row, overwritten template row or refreshed snapshot, if the same rows stand at the staged paths |
| `ImportRuns.StaysAccepted` | app/services/supervisor_registry_service.py:859-867 | an accepted batch stays acceptable while its names get no new holder |
| `ImportPlan.TurnFindsOriginal` | app/services/supervisor_registry_service.py:848-855 | in a batch of distinct paths every turn finds at its path what stood there before the batch |
| `Staging.Members` | app/database/repositories/supervisor.py:170-235 | a selection keeps exactly the matching rows and a deletion exactly the others |
| `StagingRuns.CommitFindsBatch` | app/database/repositories/supervisor.py:170-183 | and so does a commit |
| `StagingRuns.ReloadedItems` | app/services/supervisor_registry_service.py:752-772 | read back, the rows are the items of the report, empty text read as absent, with the same summary |
| `ImportService.LoadStaging` | app/services/supervisor_import_service.py:232-271 | drops exactly the rows past their time and returns the latest batch as a report |
| `SyncService.ReadColumns` | app/services/supervisor_sync_service.py:48-128 | the three reads with their status and error variables, and the merge, give the columns of the specified row; an error of the parser that is not a ParamError stops them |
| `SyncService.ResolveStatus` | app/services/supervisor_sync_service.py:168-188 | a found entry is the runtime, a missing one makes it UNKNOWN without pid and uptime, a failed read keeps the stored one, each with its error text |
| `SyncService.ReadCurrentConfig` | app/services/supervisor_sync_service.py:190-223 | text, parse, state and error text of the current config |
| `SyncService.ReadBackupConfig` | app/services/supervisor_sync_service.py:225-252 | text, state and error text of the backup; a missing backup is no error |
| `SyncService.SyncKeepsRequest` | app/services/supervisor_sync_service.py:254-293 | syncing a service whose file is still the rendered one gives back the columns of the request, command line, directory and log file included |
| `SyncService.SyncMirrors` | app/services/supervisor_sync_service.py:190-252 | content, backup and backup flag become the host's own, a missing file clears them, and a failed read keeps the old values |
| `SyncService.FailedIffError` | app/services/supervisor_sync_service.py:58-86 | in the specified row, FAILED and a non-empty error text go together |
| `SyncService.FieldsNeverLost` | app/services/supervisor_sync_service.py:254-300 | each of the eight structured fields, the port, the command, the directory and the log file is the parsed value, or the one before if the parse has none, and none is ever emptied |
| `SyncService.SyncTwice` | app/services/supervisor_sync_service.py:254-300 | a second sync with the same readings changes nothing |
| `Paging.OneListing` | app/database/repositories/supervisor.py:87 | ordering by update time and id admits one answer only |
| `Outcomes.CreateShown` | app/services/supervisor_mutation_service.py:103-125 | a completed create leaves one new row with every column of the request and one new file with the rendered text, and nothing else |
| `Outcomes.UpdatedOptions` | app/services/supervisor_mutation_service.py:230-256 | for readable fields the row also has the command line, the directory and the log file of the request |
| `Outcomes.UpdatedLiveFiles` | app/services/supervisor_mutation_service.py:220-229 | of the live `.ini` files an update replaces the old one by the written one, all others stay |
| `Outcomes.ArchiveShown` | app/services/supervisor_archive_service.py:35-62 | a completed archive changes the flag and the runtime of one row, and moves the live file to `.bak` and an older `.bak` to its stamped name |
| `Outcomes.RestoreShown` | app/services/supervisor_archive_service.py:82-110 | a completed restore changes the flag and the runtime of one row, puts the bytes of `.bak` at the path, and keeps a live file that stood there under its stamped name |
| `Outcomes.DeleteShown` | app/services/supervisor_mutation_service.py:279-309 | a completed hard delete removes one archived row and of the files at most the live one and its backup; every other row, file and host stays |
| `Guards.CreatableIff` | app/services/supervisor_mutation_service.py:71-100 | the checks of a create, told on rows and files: no row of the host with the name or path, none unarchived with the port, no such file, no scanned file that mentions the port |
| `Guards.ListedMeans` | app/executor/local.py:31-41 | a file is scanned exactly when its last segment matches `*.ini`, `*.ini.bak` or `*.ini.bak.*` |
| `Commit.UpsertColumns` | app/services/supervisor_registry_service.py:582-641 | one turn of the commit writes every column of the entry into the row at its key; a replaced row keeps flag, runtime and detail, a new one starts unarchived, UNKNOWN and without detail |
| `ImportCommit.AllColumns` | app/services/supervisor_registry_service.py:775-803 | the rows a commit reports hold what was staged, column by column, as read-only snapshots |
| `Precheck.PlannedShowsFile` | app/services/supervisor_import_service.py:473-500 | a planned item shows the fields parsed from its file |
| `ParsePaths.DirectoryWins` | app/services/template_service.py:299-320 | a directory `/data/content/J/M/` gives job J and module M, whatever jar and program name are |
| `ParsePaths.JarDirectoryGivesModule` | app/services/template_service.py:323-332 | and M for `/data/content/X/M/x.jar` |
| `ParsePaths.ShortJarWins` | app/services/template_service.py:330-331 | and `/data/content/J/M.jar` gives J and M |
| `ParsePaths.NameComesLast` | app/services/template_service.py:305-339 | with neither below the root, a program name J_M without "_" in M gives J and M |
| `ParsePaths.NameWithoutJar` | app/services/template_service.py:335-339 | also when the command names no jar at all |
| `ParsePaths.ParsedReads` | app/services/template_service.py:205-244 | a parsed config is what its options and its program name say |
| `ParseBack.DefaultJar` | app/services/template_service.py:130 | without a jar of its own a request gets its stripped module name plus ".jar" |
| `ParseVerdicts.WarningsAre` | app/services/template_service.py:201-243 | the warnings of a parse are one for every repeated key of a section and one if there is not exactly one section, none twice and no others |
| `ParseVerdicts.TwoProgramsRefused` | app/services/template_service.py:196-199 | a text with the headers of two programs is refused, whatever else it holds |
| `PortText.ExtractIsFirst` | app/services/template_service.py:254-258 | the parser takes the number after the first "port=" that a digit follows |
| `PortText.ExtractNothing` | app/services/template_service.py:254-258 | and finds no port when there is none |
| `PortText.NumberSpelled` | app/services/port_check_service.py:52-63 | the number after "port=" is the one its digits spell |
| `DuplicateDocs.EntriesOfDocument` | app/services/template_service.py:271-296 | on a document put together from sections, options, comments and blank lines the scan sees exactly its options, each under its section, in order |
| `DuplicateDocs.DocumentWarnings` | app/services/template_service.py:271-296 | so such a document warns for a key exactly as often as it repeats it in its section |
| `PathInput.SafeNameIff` | app/core/security.py:21-38 | a name is accepted exactly when, blanks around it aside, it is not empty and has letters, digits, "_", "." and "-" only |
| `PathInput.ConfigNameIff` | app/core/security.py:51-69 | which config names are accepted, and that the result is the stem plus ".ini" |
| `PathInput.AcceptedIff` | app/core/security.py:72-107 | a path is accepted exactly when some segment is left, none is "..", the directories are names and the last one is a config file name |
| `PathInput.UpCancels` | app/core/security.py:74-84 | a segment followed by ".." is as if both were absent |
| `PortCheck.OwnFilesAreSkipped` | app/services/port_check_service.py:84-87 | the live file and all backups of the updated path are left out of the scan |
| `PortCheck.SetAsideIsNotListed` | app/executor/local.py:31-41 | a live file that was set aside is never scanned |

## Left out

* FastAPI routing, request schemas, response objects, authentication, logging, CORS, settings and Docker files.
* The order in which a directory listing or a table scan returns its entries; the scan of PRECHECK is sorted by path
  in the source, here its order is arbitrary, and nothing stated depends on it.
* The scan of a config directory without its sub-directories (`recursive=False`).
* supervisorctl and `ss`: stop, reread, update and status are calls that succeed or fail and change nothing here; that
  they are made, and their results in the response, is not recorded.
* The line format of `ss -lnutp` (`app/services/port_check_service.py:96-136`): the set of ports in use is a parameter.
* Local and Ansible executors below the file map; that Ansible's `read_text` drops blank lines and the last newline.
* Concurrent requests; nothing locks the files between check and write.
* The texts of errors and warnings, reduced to the exception class; the texts of skipped items are arbitrary.
* Archive and restore times, operator columns, remarks and the other timestamps of a row.
* Reading the row back after an update for the response; a failure of that read reports an error after success.
* `upsert_imported`, `update` and `delete` of the registry and the config-name variants of backup, restore and delete,
  which no request uses; `batch_update_status`, which is covered as a change of runtime columns only.
* The JSON text in which parse warnings are stored, and values of it that are not lists.
* Decimal digits other than 0-9 in port numbers, upper and lower case beyond ASCII, MySQL collation and column lengths.
* Ids skipped by the auto-increment counter after a rolled-back transaction.
* The filter conditions of the list query; the pages are those of any set of matching rows.
- Ports.PortsUniqueOverRuns: runs with COMMIT or with a sync that changes a port are left out, because neither checks ports.
- MutationService.UpdateService: an unsuccessful outcome does not say which call failed.
- Ports.RunKeepsInv: takes in commits of batches whose paths the normaliser leaves alone, because a staged path such as "./ a.ini" registers a path that is not normal and whose files the services then look for elsewhere; key uniqueness alone needs no such condition (`TableRuns.KeysUniqueOverRuns`).
- ImportPlan.PlannedBatchCommits: assumes scanned paths that the normaliser leaves alone, because a planned path with a leading blank is stored and read as two different paths.
- ParseBack.ParseOfRender: the conditions on free text are sufficient, not necessary.
- StagingRuns.ReloadFindsBatch: the rows of a batch expire one by one, so nothing is stated for a batch that is partly past its time.
- SyncService.SyncService: an error text is its fixed beginning and an arbitrary message of the executor; the lists of synced fields and warnings and the command results of the response are not modelled.
