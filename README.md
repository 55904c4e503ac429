# C14 archive backup — a Dafny model

This project models the core of a PHP tool that backs up local folders to
Online.net's C14 cold-storage service. It covers three classes:

- `BackupHandler`: configuration checks, one backup run and the
  retention rotation.
- `C14API`: choosing the archive to write to, the safe and ssh-key
  lookups, and waiting for a new archive to become active.
- `EchoLogger`: the level filter and the default line format.

A backup run goes like this. It picks or creates a C14 archive. It mounts
the archive's buffer over sshfs, with up to 20 attempts. It creates the
backup and temporary folders. It optionally sets up an encfs encrypted view
and translates the include and exclude lists. It optionally hard-links from
the latest dated backup. It runs rsync, with 20 attempts, where exit codes
0 and 23 mean success. It mounts again, renames the temporary folder to the
current date, and appends that date to the archive's description. The
rotation pass keeps these archives and deletes every other archive in the
listing:

- each recorded archive that has no creation date;
- each recorded archive inside the whole-month window;
- the earliest archive of each enabled 3-, 6- and 12-month bucket.

**Oracles.** Commands, HTTP requests and the clock are outside the model,
so their results are parameters:

- A run of an external command is an `ExecResult`: its exit code and its
  output lines.
- A retry loop reads a function from the attempt number to that attempt's
  result.
- The C14 answers (safes, listings, archive details, polls) are sequences
  and functions in a `SelectionEnv` or `RunEnv`.
- Dates are given as integers, and ages in days.

`escapeshellarg`, `json_encode` and date formatting are function
parameters.

**Form.**

- Classes: the handler (`BackupHandler.Handler`) and the logger
  (`EchoLog.Logger`), because the PHP objects update their fields in place.
- Methods with loops: the loops of the source (option array building,
  classification, per-bucket keeping, deletion, the rsync command
  construction, both retry loops, the archive search and the polling loop,
  the latest-backup scan). Each is proved against a specification function.
- Functions: the purely computing parts.

**PHP version.** The model follows PHP 7. The code calls `fgetss`, which
PHP 8 removed, so it runs only on PHP 7 or earlier. Where PHP 7 and PHP 8
differ in a way the model depends on, "## Left out" says so.

**Where the description of the system and the code disagree, the model
follows the code.**

- An archive older than every enabled threshold falls into no bucket and is
  deleted (`RotationProps.UnclassifiedDeleted`).
- The rotation option array holds the configured booleans before the
  enabled names. So whenever a rotation option is configured, even a false
  one, the pass runs (`RotationProps.RotationRunsUnlessUnconfigured`).
- The mount retry (src/BackupHandler.php:263) accepts any attempt whose
  first accumulated output line is truthy. This is because the
  `substr(..., strlen(...) === ...)` test reduces to `substr($output[0], 0)`
  (`BackupSteps.MountAcceptsAnyMessage`).
- When the encfs config is created, the "mountpoint is not empty" tolerance
  is unreachable. `fgetss` returns a string, so the `is_array` test always
  fails and every non-zero exit code is an error
  (`BackupSteps.CreateToleratesNothing`).
- A logger whose threshold is not one of the eight levels emits only
  emergency messages and messages of unknown level. PHP compares an integer
  with `null` as booleans.

**Files.**

| file | module | contents |
|---|---|---|
| util.dfy | `Util` | Option/Result, the command result, PHP truthiness and `empty`, substring search, first-match searches |
| echo_logger.dfy | `EchoLog` | rankings, the emission filter, the default format, class `Logger` |
| c14_api.dfy | `C14Api` | safe, archive-list and ssh-key lookups; archive selection and activation polling |
| rotation.dfy | `Rotation` | the rotation option array; `BackupRotate` proved against `RotateSpec` |
| rotation_props.dfy | `RotationProps` | what rotation keeps and deletes; a second pass deletes nothing |
| backup_steps.dfy | `BackupSteps` | paths, description update, latest-backup scan, rsync command and retry, mount retry, encfs setup decisions, name conversion |
| backup_handler.dfy | `BackupHandler` | configuration check, step order, list translation, class `Handler` and `DoBackup` |

## Model

| member | source | states |
|---|---|---|
| Util.FirstIndex | src/C14API.php:173-180 | the index returned is the first element satisfying the test; none is returned exactly when no element does (the early-return `foreach` searches) |
| Util.FirstTrueFrom | src/BackupHandler.php:452-460 | a retry loop stopping at the first successful attempt finds the earliest success, and finds none only when every attempt fails |
| Util.FirstTrueAt | src/C14API.php:219-229 | an index where the verdict holds and no earlier one does is the first success |
| Util.ContainsAt | src/BackupHandler.php:263 | a needle found at any position makes the `in_array`/`strpos` style containment test true |
| EchoLog.RankingsFollowLevels | src/EchoLogger.php:32-41 | the eight levels rank debug 7 down to emergency 0 and nothing else is ranked |
| EchoLog.UnrankedAlwaysEmitted | src/EchoLogger.php:140-142 | a message whose level has no ranking is emitted whatever the threshold |
| EchoLog.RankedEmission | src/EchoLogger.php:142 | between ranked levels, a message is emitted exactly when its rank is at most the threshold's |
| EchoLog.EmitsMonotone | src/EchoLogger.php:142 | raising the threshold to a ranked level at least as verbose never suppresses a message that was emitted |
| EchoLog.DebugEmitsEverything | src/EchoLogger.php:46 | the default threshold `debug` emits every message |
| EchoLog.EmergencyEmitsOnlyEmergency | src/EchoLogger.php:142 | with threshold `emergency`, of the ranked levels only `emergency` is emitted |
| EchoLog.UnrankedThresholdIsEmergency | src/EchoLogger.php:142 | an unranked threshold behaves exactly as `emergency` |
| EchoLog.Upper | src/EchoLogger.php:157 | `strtoupper`: same length, ASCII lower-case letters shifted to upper case, every other character kept |
| EchoLog.DefaultFormatLayout | src/EchoLogger.php:155-162 | the default line is `[date] LEVEL message`, then one space and the JSON of the context exactly when the context is non-empty, then the newline |
| EchoLog.Logger.constructor | src/EchoLogger.php:46-50 | the threshold is the given level, the formatter the default one, nothing emitted yet |
| EchoLog.Logger.Log | src/EchoLogger.php:138-147 | appends exactly the formatted line when the filter passes, and leaves the output unchanged otherwise |
| EchoLog.Logger.SetLevel | src/EchoLogger.php:177-180 | the threshold becomes the given level; formatter and output are unchanged |
| EchoLog.Logger.SetMessageFormatter | src/EchoLogger.php:168-171 | the formatter becomes the given one; threshold and output are unchanged |
| C14Api.GetOrCreateSafeUuid | src/C14API.php:170-181 | the uuid of the first safe with that exact name; a new safe is created exactly when no safe has that name |
| C14Api.ArchiveListSafe | src/C14API.php:78-88 | the first safe matching the name or the uuid gives its uuid when that uuid is truthy, and nothing otherwise; a uuid returned always comes from that first match; no match means no listing |
| C14Api.GetArchive | src/C14API.php:76-93 | the listing of the first safe matching the name or the uuid is returned when its uuid is truthy; otherwise, and when no safe matches, none |
| C14Api.FingerprintRun | src/C14API.php:140 | the captured fingerprint is the longest prefix of `[a-z0-9:]` characters |
| C14Api.Fingerprint | src/C14API.php:140-141 | a fingerprint is found exactly when the line contains `MD5:`, and the line contains `MD5:` followed by it |
| C14Api.FingerprintLeftmost | src/C14API.php:140-141 | the fingerprint is the whole `[a-z0-9:]` run after the leftmost `MD5:` of the line |
| C14Api.SshKeyId | src/C14API.php:132-154 | no `ssh-keygen` output is an error; otherwise the first registered key with the same fingerprint is used, and a new key is registered only when none matches |
| C14Api.GetArchiveForBackupByUuid | src/C14API.php:197-232 | the search loop and the polling loop compute exactly `SelectFor`, whose rule `SelectForMeans` proves |
| C14Api.GetArchiveForBackupBySafeName | src/C14API.php:250-257 | looks the safe up by name, creating it when absent, and selects exactly as `SelectFor` does for that safe's uuid |
| C14Api.SelectForMeans | src/C14API.php:197-232 | the selection follows the whole rule: its reuse, creation and error parts |
| C14Api.SelectForReuses | src/C14API.php:200-215 | an archive is reused exactly when a listed one has the prefix in its name and is active with an archival-date difference whose days component (`->d`) is positive; the one reused is the first such |
| C14Api.SelectForCreates | src/C14API.php:217-231 | a created archive's request carries the safe, the prefix, a space and the timestamp, and the ssh key; the archive returned is the first of at most 120 status fetches that is active, and every earlier fetch was not |
| C14Api.SelectForErrs | src/C14API.php:197-232 | with no archive qualifying, the fingerprint error occurs exactly when `ssh-keygen` printed nothing, and the timeout exactly when none of the 120 fetches is active |
| C14Api.SelectedIsUsable | src/C14API.php:205-231 | a reused archive is writable and a created one active |
| C14Api.MaxFetchesValue | src/C14API.php:218-229 | with a 5-second interval and a 600-second limit the polling loop fetches the archive details at most 120 times |
| Rotation.ConfiguredValues | src/BackupHandler.php:177 | the option array starts with the configured values, one per configured key, in order |
| Rotation.EnabledNames | src/BackupHandler.php:184-187 | the appended names are exactly the keys configured `true` |
| Rotation.RotationOptionsFor | src/BackupHandler.php:177-188 | an error exactly when some key is not one of the four intervals, naming the first such key; otherwise the array is empty only for an empty configuration, starts with a boolean, and names exactly the enabled options |
| Rotation.BuildRotationOptions | src/BackupHandler.php:177-188 | the constructor's loop builds exactly the array (or the first unknown key) that `RotationOptionsFor` specifies |
| Rotation.Put | src/BackupHandler.php:529-537 | assigning a bucket entry appends it when the uuid is new; the result holds the new entry and otherwise only entries of the old bucket |
| Rotation.PutReplacesFirst | src/BackupHandler.php:529-537 | assigning an existing uuid replaces the value of its first entry in place, keeping the position and the rest of the bucket |
| Rotation.Earliest | src/BackupHandler.php:548-550 | after the stable `asort`, the first key is that of an entry with the least date, the first such in insertion order; an empty bucket yields none |
| Rotation.InitBuckets | src/BackupHandler.php:506-510 | one empty bucket per distinct option-array value, in first-occurrence order |
| Rotation.BucketsExtend | src/BackupHandler.php:516-539 | classifying one more archive adds it to the bucket its age selects, and changes no bucket otherwise |
| Rotation.ClassifyArchives | src/BackupHandler.php:513-545 | the classification loop fills each bucket with its members and keeps outright exactly the recorded undated and within-month archives |
| Rotation.RepresentativesStep | src/BackupHandler.php:546-551 | each pass of the per-bucket loop adds that bucket's earliest uuid (null for an empty bucket) |
| Rotation.AddRepresentatives | src/BackupHandler.php:546-551 | the keep list becomes the outright keeps followed by one representative per bucket, in bucket order |
| Rotation.DeleteUnkept | src/BackupHandler.php:552-559 | deletes, in listing order, exactly the uuids not loosely in the keep list |
| Rotation.BackupRotate | src/BackupHandler.php:497-560 | the method computes the specification `RotateSpec`: nothing for an empty option array, otherwise exactly the deletions the three loops define |
| RotationProps.BucketMembers | src/BackupHandler.php:529-537 | every bucket entry is a listed archive that falls into that bucket, with its creation date |
| RotationProps.BucketSnoc | src/BackupHandler.php:513-545 | with distinct uuids, one more archive extends its bucket by exactly its entry, and leaves the others unchanged |
| RotationProps.RepresentativeKept | src/BackupHandler.php:548-550 | an archive stays its bucket's representative when a later one is no earlier |
| RotationProps.RepresentativeNew | src/BackupHandler.php:548-550 | a new archive strictly earlier than every earlier member becomes the representative |
| RotationProps.BucketEmptyIff | src/BackupHandler.php:529-537 | a bucket is empty exactly when no listed archive falls into it |
| RotationProps.EarliestRepresentative | src/BackupHandler.php:546-551 | the earliest bucket entry is always the bucket's representative: earliest date, ties going to the first listed |
| RotationProps.EarliestIsRepresentative | src/BackupHandler.php:546-551 | the per-bucket pick is none exactly for an empty bucket, and is otherwise the uuid and date of the bucket's representative |
| RotationProps.RepresentativeUnique | src/BackupHandler.php:548-550 | a bucket has at most one representative |
| RotationProps.RepresentativeExists | src/BackupHandler.php:548-550 | a bucket with any member has a representative |
| RotationProps.DistinctKeysMembers | src/BackupHandler.php:507-510 | the bucket keys are exactly the keys of the option-array values, each once |
| RotationProps.NamedKeyPresent | src/BackupHandler.php:507-510 | an enabled option name has a bucket |
| RotationProps.RepresentativesIndex | src/BackupHandler.php:546-551 | the per-bucket loop adds one entry per bucket key, in key order, each the representative of that key's bucket |
| RotationProps.DirectKeepsMembers | src/BackupHandler.php:523-543 | the outright keep list holds exactly the uuids of the recorded archives that are undated or within the month |
| RotationProps.DeleteListMembers | src/BackupHandler.php:552-559 | a uuid is deleted exactly when it is listed and not loosely in the keep list |
| RotationProps.KeptByBucketIsRepresentative | src/BackupHandler.php:546-551 | a uuid the per-bucket loop keeps belongs to some bucket's representative |
| RotationProps.RepresentativeIsKept | src/BackupHandler.php:546-551 | every bucket's representative is kept by the per-bucket loop |
| RotationProps.RepresentativeInKeepList | src/BackupHandler.php:546-551 | the per-bucket loop keeps an archive exactly when it represents some bucket |
| RotationProps.DeletedIff | src/BackupHandler.php:497-560 | with a non-empty option array, an archive is deleted exactly when it is neither kept outright nor the earliest of its bucket |
| RotationProps.RotationRunsUnlessUnconfigured | src/BackupHandler.php:177-188 | the pass keeps everything exactly when no rotation option is configured, even if every configured value is false |
| RotationProps.UndatedRecordedNeverDeleted | src/BackupHandler.php:540-543 | a recorded archive without a creation date is never deleted |
| RotationProps.UnclassifiedDeleted | src/BackupHandler.php:516-539 | an archive whose description records no backup, or a dated one that falls into no bucket of the enabled thresholds (in particular one older than the longest), is deleted |
| RotationProps.AllDisabledKeepsOnlyUndated | src/BackupHandler.php:177-188 | with every configured option false, the pass keeps only the recorded undated archives |
| RotationProps.EmptyUuidNeverDeleted | src/BackupHandler.php:546-554 | whenever the pass runs, an empty boolean bucket puts null in the keep list, so a uuid `""` is never deleted |
| RotationProps.SurvivorsMembers | src/BackupHandler.php:552-559 | the archives left are exactly the listed ones whose uuid is kept |
| RotationProps.SurvivorsDistinct | src/BackupHandler.php:552-559 | the archives left keep distinct uuids |
| RotationProps.SurvivingBucketMember | src/BackupHandler.php:546-559 | a surviving archive in a bucket is that bucket's representative |
| RotationProps.SurvivorKeptAgain | src/BackupHandler.php:497-560 | every survivor is kept again by a pass over the survivors |
| RotationProps.SurvivorsKeptAgain | src/BackupHandler.php:497-560 | a pass over the survivors keeps every survivor's uuid |
| RotationProps.AllKeptDeletesNothing | src/BackupHandler.php:552-559 | a deletion loop in which every uuid is kept deletes nothing |
| RotationProps.SecondPassDeletesNothing | src/BackupHandler.php:497-560 | rotation is idempotent: a second pass over the survivors, at unchanged ages, deletes nothing |
| RotationProps.ExampleClasses | src/BackupHandler.php:523-538 | ages 10, 40, 100, 200 and 400 fall into: kept outright, 3-month, 6-month, yearly, no bucket |
| RotationProps.ExampleOptionsEnableAll | src/BackupHandler.php:177-188 | a configuration enabling all four intervals yields an array naming all four |
| RotationProps.ExampleDeletions | src/BackupHandler.php:497-560 | of the five example archives only the 400-day-old one is deleted |
| RotationProps.AllEnabledExample | src/BackupHandler.php:177-188 | the full configuration example, from the options array to the deletion of only the oldest archive |
| BackupSteps.Layout | src/BackupHandler.php:158-161 | the safe's mount-points folder lies in the all-mount-points folder, and the c14 and encrypted folders are distinct and lie inside the safe's folder |
| BackupSteps.EncfsConfigFiles | src/BackupHandler.php:296-298 | the local config sits in the safe's mount-points folder, the remote one in the c14 mount, both named after the safe |
| BackupSteps.DescriptionKeepsHistory | src/BackupHandler.php:490 | a description of fewer than 5 characters is replaced by the date; one of 5 or more characters is kept whole, followed by a newline and the date |
| BackupSteps.DescriptionRecordsBackup | src/BackupHandler.php:490 | the new description ends in the new date, and with a date longer than 5 characters it counts as recording a backup for rotation |
| BackupSteps.FirstRecordIsTheDate | src/C14API.php:104-112 | a freshly created archive's one-space description is replaced by the first date |
| BackupSteps.RecordRequest | src/BackupHandler.php:487-492 | the modify request addresses the archive in the safe found by name and carries the description rule's result |
| BackupSteps.LatestParsed | src/BackupHandler.php:416-425 | the latest date is the largest positive date among the folder names that parse, and there is none exactly when no name parses to a date after the epoch |
| BackupSteps.LatestBackupDate | src/BackupHandler.php:416-425 | the scanning loop finds exactly `LatestParsed` |
| BackupSteps.RenamedFolderIsNextSource | src/BackupHandler.php:413-480 | after a rename to a date later than every existing folder, the next incremental run links from that folder |
| BackupSteps.TransferArgsLayout | src/BackupHandler.php:442-451 | the rsync words are `-e`, the ssh port, the options, one escaped `--exclude=` per exclude, one escaped word per include, the destination and the redirect |
| BackupSteps.AppendExcludes | src/BackupHandler.php:443-446 | the exclude loop appends exactly the exclude words, space separated |
| BackupSteps.AppendIncludes | src/BackupHandler.php:447-450 | the include loop appends exactly the include words, space separated |
| BackupSteps.TransferCommand | src/BackupHandler.php:442-451 | the command built is `rsync` followed by the argument words of `TransferArgs`, space separated |
| BackupSteps.AccumulatedPrefix | src/BackupHandler.php:454 | output piles up across attempts: earlier attempts' lines are a prefix of later ones' |
| BackupSteps.TransferOutcomeMeans | src/BackupHandler.php:452-461 | the transfer succeeds at the first attempt with exit code 0 or 23; it fails exactly when all 20 attempts fail, reporting all their output |
| BackupSteps.RunTransfer | src/BackupHandler.php:452-461 | the retry loop computes exactly `TransferOutcome` |
| BackupSteps.MountOutcomeMeans | src/BackupHandler.php:259-268 | the mount succeeds at the first attempt accepted; it fails exactly when none of the 20 is, reporting all their output |
| BackupSteps.MountStorage | src/BackupHandler.php:259-268 | the retry loop computes exactly `MountOutcome` |
| BackupSteps.MountAcceptsAnyMessage | src/BackupHandler.php:263 | a truthy first output line on the first attempt is accepted as mounted, whatever the exit code |
| BackupSteps.MountFirstLineSticky | src/BackupHandler.php:261-263 | once output exists, later attempts see the same first line |
| BackupSteps.MountFailureMeans | src/BackupHandler.php:259-268 | a failed mount means every attempt had a non-zero code, no "mountpoint is not empty" line and a falsy first line |
| BackupSteps.RenameOutcome | src/BackupHandler.php:474-479 | the rename succeeds exactly on exit code 0, and reports the command's output otherwise |
| BackupSteps.ViewMountTolerance | src/BackupHandler.php:352-365 | once a config is in place, the view mount succeeds exactly on code 0, code 139, or a first line "fuse: mountpoint is not empty" |
| BackupSteps.LocalConfigNeverReprovisioned | src/BackupHandler.php:299 | with a local config present, only the view mount decides the outcome |
| BackupSteps.RemoteConfigRecovered | src/BackupHandler.php:301-308 | with only a remote config, no new config is created, and a failed copy is an error |
| BackupSteps.CreateToleratesNothing | src/BackupHandler.php:309-336 | creating a config with a non-zero exit code is always an error |
| BackupSteps.ConvertName | src/BackupHandler.php:397-406 | an encoding fails exactly on a non-zero exit code, and otherwise yields the encrypted folder, a slash and the first output line |
| BackupHandler.ConfigCheck | src/BackupHandler.php:166-188 | rejects exactly a missing password with encryption on, or an unknown interval; otherwise yields the rotation option array |
| BackupHandler.ValidConfigAccepted | src/BackupHandler.php:166-188 | a configuration with a password (or no encryption) and known intervals is accepted, naming exactly the enabled options |
| BackupHandler.PasswordIgnoredWithoutEncryption | src/BackupHandler.php:168 | without encryption the password does not affect acceptance |
| BackupHandler.Plan | src/BackupHandler.php:222-238 | the run has 8 steps plus one for encryption and one for incremental mode, beginning with select, mount, folders and ending with transfer, remount, rename, record, report |
| BackupHandler.PlanSchedules | src/BackupHandler.php:227-234 | a step is in the run exactly when it is unconditional or its option is on |
| BackupHandler.Position | src/BackupHandler.php:222-238 | each scheduled step has a place in the run |
| BackupHandler.TraceUpTo | src/BackupHandler.php:222-238 | the steps performed up to a step are a prefix of the run ending in that step |
| BackupHandler.PlanPositions | src/BackupHandler.php:222-238 | every step of the run is scheduled and sits at its own place |
| BackupHandler.PrefixReaches | src/BackupHandler.php:222-238 | a prefix of the run contains a step exactly when it reaches that step's place |
| BackupHandler.PlanPrefixOrder | src/BackupHandler.php:222-238 | recording needs rename, transfer and remount first; rename needs transfer and mount; transfer needs mount, folders, and the view and hard links when enabled |
| BackupHandler.FailureAt | src/BackupHandler.php:379-388 | the first item whose encoding exits non-zero; none exactly when every encoding succeeds |
| BackupHandler.TranslatedUpTo | src/BackupHandler.php:379-388 | the list with the first items replaced by their encrypted names and the rest untouched |
| BackupHandler.TranslationPreservesOrder | src/BackupHandler.php:379-388 | when every encoding succeeds, each item is replaced in place by its encrypted name |
| BackupHandler.TranslationStopsAtFailure | src/BackupHandler.php:379-388 | a failing encoding stops the loop: the earlier items were converted, the failing one and the rest are unchanged |
| BackupHandler.ViewExcludedLast | src/BackupHandler.php:378-388 | the encrypted folder is appended to the excludes and translated last, after each existing exclude |
| BackupHandler.StepFailure | src/BackupHandler.php:218-243 | each step raises only the failures attributed to it |
| BackupHandler.FirstFailureIsFirstFailingStep | src/BackupHandler.php:218-243 | the failure a run ends with is that of a scheduled step whose own call failed, after every earlier scheduled step's call succeeded; there is none exactly when no scheduled step's call fails |
| BackupHandler.RunTrace | src/BackupHandler.php:218-243 | the steps entered, read off the result, are a prefix of the plan: all of it on success, up to the failing step otherwise; every entered step's call succeeded but the last one's of a failed run, which raised the failure; the record is never written before the transfer and the rename |
| BackupHandler.Handler.constructor | src/BackupHandler.php:150-177 | the fields hold the configuration's values, the temporary folder name and the derived mount layout |
| BackupHandler.Handler.Create | src/BackupHandler.php:150-193 | fails exactly when the configuration check fails, with its error, and creates no folder; otherwise a fresh handler with the checked rotation options, every configured field (safe name, flags, password, private key, rsync options, lists), the temporary folder name, the mount layout derived from the install directory and the safe name, and the mount folders of `createDirsForMountPoints` created outermost first, the encrypted one exactly when encryption is on |
| BackupHandler.Handler.CreateDirsForMountPoints | src/BackupHandler.php:195-213 | creates the three mount folders outermost first, and the encrypted folder exactly when encryption is on |
| BackupHandler.Handler.CreateBackupFolders | src/BackupHandler.php:274-280 | creates the backup folder and the temporary folder inside the c14 mount |
| BackupHandler.Handler.EncryptDirNames | src/BackupHandler.php:376-389 | includes, then excludes plus the encrypted folder, are replaced by their encrypted names; a failing include leaves the excludes untranslated; the error is the answer of the first failing encoding, includes first |
| BackupHandler.Handler.EnableEncryption | src/BackupHandler.php:288-371 | sets the two config paths; a setup failure leaves the lists unchanged and is the error; otherwise the lists are translated, and the error, if any, is the first failing encoding's answer |
| BackupHandler.Handler.CreateHardLinksFromLastBackup | src/BackupHandler.php:413-432 | hard-links from the latest dated backup folder exactly when a folder name parses to a date after the epoch, and returns the latest date formatted again, `format(LatestParsed(..))` |
| BackupHandler.Handler.RenameTempFolder | src/BackupHandler.php:468-480 | the temporary folder is renamed to the formatted current date, or the failure carries the command's output |
| BackupHandler.Handler.Prepare | src/BackupHandler.php:222-234 | the steps before the transfer compute exactly `Preparation` and leave exactly the lists and config paths `ListsAfter` and `ConfigFilesAfter` give; the archive handed on is active |
| BackupHandler.Handler.Commit | src/BackupHandler.php:235-237 | the rsync command is built from the current lists; the failure is exactly the first of the transfer, remount and rename failures; with none, the folder gets the formatted rename date |
| BackupHandler.Handler.RecordAndReport | src/BackupHandler.php:238-240 | writes the description request for the archive in the safe found by name; the final look-up selects exactly as `SelectFor` does on its own answers, and an archive it returns is active |
| BackupHandler.Handler.Finish | src/BackupHandler.php:235-240 | the steps from the transfer on compute exactly `Completion` over the current lists |
| BackupHandler.Handler.DoBackup | src/BackupHandler.php:218-243 | the run computes exactly `Outcome` from the lists it starts with, and leaves the lists and config paths `ListsAfter` and `ConfigFilesAfter` give |
| BackupHandler.Handler.PreparationAnswers | src/BackupHandler.php:222-234 | the steps before the transfer fail exactly when the selection, the first mount or, with encryption, the encryption step fails, with the first such failure |
| BackupHandler.Handler.CompletionAnswers | src/BackupHandler.php:235-240 | the steps from the transfer on fail exactly when the transfer, the second mount, the rename or the final look-up fails, with the first such failure |
| BackupHandler.Handler.OutcomeAnswers | src/BackupHandler.php:218-243 | a run fails exactly when one of its calls does, with the first failure in call order |
| BackupHandler.Handler.RunFailsAtFirstFailingStep | src/BackupHandler.php:218-243 | a failed run fails in a scheduled step with exactly the failure that step's call answers, every earlier scheduled step's call having succeeded; a run succeeds exactly when no scheduled step's call fails |
| BackupHandler.Handler.RunSucceeds | src/BackupHandler.php:218-243 | a successful run used the archive the look-up by safe name selected, which is active; it records the new date in that archive's description, links from the re-formatted latest backup date exactly when incremental and one exists, names the folder after the rename date, and reports an active archive |
| BackupHandler.Handler.TraceFollowsPlan | src/BackupHandler.php:218-243 | `doBackup` enters a prefix of the plan, all of it on success and up to the failing step otherwise; every entered step's call succeeded, except that of the last step of a failed run, which raised the failure the run ends with |

## Left out

- Shell commands, HTTP requests, the filesystem and the clock are not executed. Each result is an input. This covers: `exec`/`proc_open` results, the C14 JSON answers, `file_exists`, `copy` and `scandir` results, the current time and archive ages.
- `escapeshellarg`, `json_encode`, `DateTime` parsing and formatting are function parameters with no properties assumed, and `mt_rand` is the `tempSuffix` parameter.
- `sleep` calls are not modelled. Time spent waiting only appears as the 120-fetch bound of the activation poll.
- The logger calls inside the handler and the API client are not modelled, and neither are the eight per-level shortcut methods of `EchoLogger`. Each shortcut only calls `log` with a fixed level, which `EchoLog.Logger.Log` covers.
- The destructor and its `fusermount -u` unmount are not modelled; they are cleanup with no result.
- Inside the create-config branch, the temporary mount folder, the `unlink` of the generated config and the unmount of the temporary folder are not modelled. Their results are ignored by the code.
- The ignored results are not modelled: the final copy of the local config to the remote folder, the `cp -al` hard-link run and the `modifyArchive` call.
- `SSHInfo` URI parsing, `RequestHandler` (curl) and `HelperTrait` are not part of this model. The archive's ssh credentials arrive already parsed.
- Rotation.BackupRotate: the delete call is modelled as a request that succeeds. As shipped, `RequestHandler::sendQuery` (src/RequestHandler.php:43-44) has no `DELETE` branch and raises `Unknown method`, so the real `deleteArchive` always fails: `backupRotate` raises at its first deletion and deletes nothing. The model states what the pass is meant to delete.
- Rotation.BackupRotate: the archive listing and the safe uuid are inputs. The look-ups that produce them (src/BackupHandler.php:504-505) are not modelled: `getArchive` by name or uuid for the listing, and `getOrCreateSafeUUID` by name, which may create a safe, for the details requests and the deletions.
- `main.php` and the configuration file are not part of this model.
- Rotation option values are modelled as booleans only. A configured non-boolean value is not modelled.
- Rotation option keys are taken to be strings. Under PHP 7 the loose `in_array($key, ROTATION_OPTIONS)` test (src/BackupHandler.php:180) lets an integer key 0 through, since `0 == 'onePerYear'` holds, so a list-style option array such as `[true]` passes the check there; the model cannot express such a key.
- Archive uuids are taken to be non-numeric strings, so the loose `in_array` test matters only for `""` against `null`.
- RotationProps.DeletedIff: it requires distinct uuids in the listing, which C14 guarantees; duplicate uuids are not covered.
- RotationProps.SecondPassDeletesNothing: it requires distinct, non-empty uuids and ages unchanged between the two passes.
- RotationProps.SurvivorKeptAgain, RotationProps.SurvivorsKeptAgain, RotationProps.UnclassifiedDeleted and RotationProps.AllDisabledKeepsOnlyUndated: these also assume distinct uuids.
- The final archive look-up (src/BackupHandler.php:240) answers from its own `SelectionEnv`. The model does not tie that listing to the archive the first look-up reused or created. Like the first look-up, it may create a safe or an archive, poll, and fail with a fingerprint error or a timeout, which ends the run.
- The sshfs mount command and the `mv` rename command are not built as text. Only their results are modelled.
- BackupSteps.NewDescription, Rotation.Recorded: lengths count characters, while PHP's `strlen` counts bytes. Descriptions and dates are taken to be single-byte (ASCII) text, where the two agree.
- Rotation.Earliest: equal dates go to the first inserted entry. PHP 8's `asort` guarantees this order, but PHP 7 leaves the order of equal elements unspecified. Under PHP 7, another of the tied archives may be the one kept.
- Util.Contains: an empty needle counts as found, as in PHP 8; PHP 7's `strpos` returns false for it. The code only searches for the non-empty needles `C14ABT` and `MD5:`, so the difference does not arise.
- `mkdirOrDie` is taken never to fail. It raises only when `mkdir` succeeded and the folder still does not exist.
- C14Api.GetArchiveForBackupByUuid: the age of an archive's archival date is an input, `archivalDays`, because date arithmetic is not modelled. What the code compares is the day component of the `DateInterval`, and the input stands for that value.
