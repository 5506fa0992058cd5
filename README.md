# SManager in Dafny

SManager is a console for a Minecraft server running under GNU `screen`. The
operator types commands such as `sa` (start all), `backup`, `load -m` or
`s hello`. Any command can be deferred with `-s <minutes>`. The console runs
helper scripts, sends messages into the server's screen sessions, keeps world
backups under a retention limit, restores the newest backup, and keeps a table
of scheduled jobs: one-shot deferred commands and stops, plus three recurring
jobs (autobackup, milestone backup and the daily auto-shutdown). Settings live
in an INI file read through `configparser`.

The model is organised like the program:

| file | module | models |
|---|---|---|
| `wrappers.dfy` | `Wrappers` | `Option` and `Result` |
| `text.dfy` | `Text` | `str.split`/`" ".join`, ASCII `isdigit`/`lower`, `startswith`, `posixpath.join`, string order and `sorted(...)[0]`/`[-1]` |
| `timestamp.dfy` | `Timestamp` | `strftime("%Y%m%d_%H%M%S")` and why name order is time order |
| `config.dfy` | `Config` | `configparser` (case-folded options, DEFAULT section, typed getters, fallbacks) and the `ConfigManager` class |
| `backups.dfy` | `Backups` | `create_minecraft_backup`, `load_latest_backup`, `milestone_backup` over a model of the disk, and the `ServerFiles` class updating it in place |
| `messaging.dfy` | `ScreenMessage` | both `send_server_message` functions: session-id scanning, the `/say` rule, the send loop, and `message.py`'s entry point |
| `commands.dfy` | `Commands` | `command_map` and the branch structure of `handle_command`, as a parse into a `Command` |
| `jobs.dfy` | `Jobs` | every handler, the job table and the jobs firing, as transitions of a `State` value |
| `manager.dfy` | `Manager` | the `MinecraftServerManager` object, whose methods update its fields and are proved to follow `Jobs` |

The outside world enters as parameters:
- The outcome of each helper script (`_run_script`) is a `Script -> bool` oracle, except `backup.py`, whose outcome follows from the config it reads.
- Whether `send_server_message` reached a session is a `string -> bool` oracle. Its inside is modelled separately in `ScreenMessage`.
- Whether a copy succeeds is a `copyOk` flag.
- The clock is a `Stamp`.
- The config file that manager.py's own `load_latest_backup` opens, one directory above the manager, is a second store in the state, `None` while that file does not exist.
- The output of `screen -ls` is a string, or `None` when the call fails.
- The outcome of each per-session `screen -X stuff` is an `attempt` function.

## Model

| member | source | states |
|---|---|---|
| Text.Split | manager.py:479 | `split()` yields non-empty words without whitespace |
| Text.SplitJoin | manager.py:479-490 | splitting the single-space join of words gives the words back |
| Text.Lower | manager.py:491 | lowercasing keeps the length and lowers each ASCII letter |
| Text.Decimal | manager.py:441 | the decimal text of a delay is all digits, and starts with `0` only for zero |
| Text.DecimalValue | manager.py:485 | `int` of the decimal text of n is n |
| Text.PathJoin | scripts/backup.py:29 | joining an absolute path returns it; otherwise the result ends with the joined part |
| Text.LexTotal | scripts/backup.py:45 | string order is total |
| Text.LexTransitive | scripts/backup.py:45 | string order is transitive |
| Text.LexConcat | scripts/backup.py:45 | comparing two concatenations with equal-length heads compares the heads, then the tails |
| Text.Greatest | scripts/load_backup.py:31-38 | `sorted(...)[-1]` is an element that no other element exceeds |
| Text.Smallest | scripts/backup.py:45-47 | `sorted(...)[0]` is an element that no other element precedes |
| Text.ExtremesUnique | scripts/load_backup.py:38 | the greatest and the smallest element are unique |
| Timestamp.Format | scripts/backup.py:33 | the stamp is 15 characters with `_` at index 8 |
| Timestamp.PadOrder | scripts/backup.py:33 | zero-padded fields are equal, or ordered, exactly when the numbers are |
| Timestamp.FormatOrder | scripts/backup.py:33 | two valid stamps are equal iff their texts are, and one is earlier iff its text sorts first |
| Timestamp.NamedOrder | scripts/backup.py:33-34 | the same holds after a common prefix such as `world_backup_` |
| Config.Find | utils/config_manager.py:51-53 | a missing section is an error; the option name is lowercased; the section's own value wins, and an option the section lacks takes DEFAULT's value |
| Config.FindIgnoresCase | utils/config_manager.py:19 | spellings with the same lowercase form find the same value (`autobackupinterval` finds `AutoBackupInterval`) |
| Config.Set | utils/config_manager.py:42-45 | the write succeeds iff the section exists, and the option then reads back the value |
| Config.SetChangesOnlyItsOption | utils/config_manager.py:44 | a write changes no other option of any section |
| Config.Get | utils/config_manager.py:72-81 | a missing option gives the fallback; a present one gives its value |
| Config.GetInt | utils/config_manager.py:47-57 | the fallback applies only when the option is missing; text that is not an integer is an error |
| Config.GetBool | utils/config_manager.py:38-40 | `configparser`'s boolean words; anything else is an error |
| Config.ParseInt | manager.py:343 | digit strings parse to their value |
| Config.BoolTextParses | utils/config_manager.py:44 | `str(b)` reads back as b |
| Config.SetFlagThenRead | utils/config_manager.py:38-45 | writing `str(b)` and reading the flag gives b |
| Config.DefaultStore | utils/config_manager.py:17-26 | the SERVER section that is written when the file is missing |
| Config.DefaultAutobackup | utils/config_manager.py:19-20 | defaults: interval 10 in either spelling, autobackup off |
| Config.DefaultMilestoneBackup | utils/config_manager.py:23-25 | defaults: milestone interval 120, milestone backup off |
| Config.DefaultMaxWorldBackups | utils/config_manager.py:22 | default maximum of 10 backups |
| Config.DefaultServerRoot | utils/config_manager.py:21 | default server root `/home/miro/Desktop/Fabric` |
| Config.ConfigManager.constructor | utils/config_manager.py:7-27 | the config is the parsed file, or the defaults when the file is absent |
| Config.ConfigManager.AutobackupInterval | utils/config_manager.py:34-36 | there is no fallback: a missing option is an error |
| Config.ConfigManager.IsAutobackupEnabled | utils/config_manager.py:38-40 | succeeds iff the option exists and holds a boolean word |
| Config.ConfigManager.SetAutobackup | utils/config_manager.py:42-45 | the config becomes the written store, or stays as it was when SERVER is missing; read-back gives the value |
| Config.ConfigManager.MaxWorldBackups | utils/config_manager.py:47-49 | is 10 when the option is missing |
| Config.ConfigManager.ServerRoot | utils/config_manager.py:51-53 | the stored root, with no fallback |
| Config.ConfigManager.MilestoneBackupInterval | utils/config_manager.py:55-57 | is 1440 when the option is missing |
| Config.ConfigManager.MilestoneBackupDir | utils/config_manager.py:59-61 | the stored directory, or the fixed default |
| Config.ConfigManager.IsMilestoneBackupEnabled | utils/config_manager.py:63-65 | succeeds iff the option exists and holds a boolean word |
| Config.ConfigManager.SetMilestoneBackup | utils/config_manager.py:67-70 | like SetAutobackup, for the milestone flag |
| Config.ConfigManager.Lookup | utils/config_manager.py:72-81 | a missing option gives the fallback |
| Backups.Names | scripts/backup.py:45 | the listing's names, one per entry and in order |
| Backups.FolderNames | scripts/load_backup.py:31 | exactly the names of the sub-directories |
| Backups.Makedirs | scripts/backup.py:30 | creates the directory only when it is missing |
| Backups.Without | scripts/backup.py:48 | removes exactly the entries with that name |
| Backups.World | scripts/backup.py:37 | the world folder at a path, if there is one |
| Backups.CanCopy | scripts/backup.py:41 | `copytree` needs an existing folder as source and a fresh destination name |
| Backups.Backup | scripts/backup.py:24-54 | the world is never touched; a failed copy prunes nothing and gives False; with at most max entries nothing is pruned; otherwise it removes the smallest name, or gives False when that entry is a file; no other directory changes |
| Backups.BackupKeepsLimit | scripts/backup.py:44-49 | from at most max distinct entries, a successful run ends with at most max distinct entries |
| Backups.BackupPrunesSmallest | scripts/backup.py:45-54 | pruning happens only above max; at most one entry is removed and it is the smallest; files count too; above max the run gives False exactly when that smallest entry is a plain file |
| Backups.SmallestIsOldest | scripts/backup.py:33-34 | among stamped names, the smallest has the earliest stamp |
| Backups.Load | scripts/load_backup.py:24-56 | no backup directory changes, and no world but the server's; with no sub-directory nothing is stopped or touched; otherwise the stop is launched whatever its outcome, the world is deleted if present and replaced by the greatest folder; any failure gives False, even after the delete |
| Backups.RestoresNewest | scripts/load_backup.py:38 | the restored backup has the latest stamp |
| Backups.BackupThenLoad | scripts/backup.py:24-54 | a successful backup whose name sorts last, restored from the same directory, gives back the world as it was backed up, whatever became of the world in between (unless a file took its place) |
| Backups.NewBackupKept | scripts/backup.py:44-49 | a successful backup keeps its new entry (the pruned one sorts earlier), and keeps nothing but the old entries and the new one |
| Backups.LatestIsNew | scripts/load_backup.py:31-38 | when the new folder sorts after all the others, `sorted(...)[-1]` picks it |
| Backups.MilestoneCopy | manager.py:393-401 | the directory is created first; the copy needs a valid root and a fresh name; nothing is pruned |
| Backups.ServerFiles.constructor | scripts/backup.py:29-37 | the worlds and the directories are the given disk |
| Backups.ServerFiles.CopyAndPrune | scripts/backup.py:26-54 | the directory, the copy and the pruning change the files exactly as Backup says |
| Backups.ServerFiles.CreateBackup | scripts/backup.py:13-54 | a config error escapes before any change; otherwise the files change exactly as Backup says |
| Backups.ServerFiles.LoadLatestBackup | scripts/load_backup.py:13-56 | a config error escapes before any change; otherwise the files change exactly as Load says |
| Backups.ServerFiles.MilestoneBackup | manager.py:393-401 | the files change exactly as MilestoneCopy says |
| ScreenMessage.DigitCount | utils/send_message.py:26 | the length of the leading run of digits |
| ScreenMessage.MatchAt | utils/send_message.py:26 | a match is a tab, then digits, a dot and one or more non-space characters, ending at whitespace or the end |
| ScreenMessage.FindSessions | utils/send_message.py:26 | every id found has the shape digits, dot, non-space characters |
| ScreenMessage.FindSkipsNoTab | utils/send_message.py:26 | text without a tab contributes no id |
| ScreenMessage.MatchedId | utils/send_message.py:26 | the text a match spans is a session id followed by whitespace or the end |
| ScreenMessage.MatchAtSpans | utils/send_message.py:26 | a tab, a digit run, a dot and a word make a match ending after the word |
| ScreenMessage.FindLine | utils/send_message.py:26 | a tab and an id followed by whitespace yield exactly that id |
| ScreenMessage.ListingSessions | utils/message.py:21 | a `screen -ls` listing yields exactly its session ids, in order, whatever `(field)` columns each session line carries |
| ScreenMessage.SessionLine | utils/send_message.py:26 | one session line yields its id, and the search resumes after the line |
| ScreenMessage.SkipFields | utils/send_message.py:26 | the `\t(...)` columns after an id yield nothing, since `(` is not a digit |
| ScreenMessage.CommandFor | utils/send_message.py:37 | a message starting with `/` is sent unchanged; otherwise `/say ` is prepended |
| ScreenMessage.Payload | utils/send_message.py:40-47 | each session receives a newline, the command, and a newline |
| ScreenMessage.FirstCrash | utils/send_message.py:53-58 | the first send that fails with an uncaught error |
| ScreenMessage.FanOut | utils/send_message.py:33-58 | every session is tried in order, and a failure or timeout does not stop the loop; the result is true iff some send succeeded; an uncaught error ends the loop |
| ScreenMessage.SendServerMessage | utils/send_message.py:11-83 | no listing or no sessions: False with nothing sent; otherwise True iff a send succeeded and the root and log steps raised nothing; a missing log does not matter |
| ScreenMessage.SendFromScript | utils/message.py:8-70 | the same rule, with the log path relative to the working directory |
| ScreenMessage.RunAsScript | utils/message.py:73-80 | exit status 1 unless there is exactly one argument and the send succeeded |
| ScreenMessage.OneDeliveryIsEnough | utils/send_message.py:49 | one delivered send makes the call succeed |
| ScreenMessage.MissingLogIsHarmless | utils/send_message.py:74-76 | a missing log file does not change the result |
| Commands.CommandMap | manager.py:86-105 | the eighteen keys; a found action's key is the looked-up string |
| Commands.KeyLookup | manager.py:86-105 | looking an action's key up finds that action, and only its key finds it |
| Commands.Accepts | manager.py:229-302 | which argument counts each handler's signature takes |
| Commands.ParseImmediate | manager.py:488-526 | the branch for a line that is not deferred: whole-line key, first-token key, then the built-in commands |
| Commands.Parse | manager.py:479-526 | corrected deferred arguments (see Findings); blank means no command; the deferred form is recognised iff there are at least 3 tokens with `-s` and digits at the end; it carries the joined prefix and the delay |
| Commands.WholeLineFirst | manager.py:493-494 | a whole-line key wins and its handler is called with no arguments |
| Commands.OnlyFirstTokenFolded | manager.py:490-496 | only the first token is lowercased: `LOAD -m` runs the regular load with argument `-m` |
| Commands.FirstTokenGetsRest | manager.py:495-496 | a first-token key receives the remaining tokens as arguments |
| Commands.SasTasAreKeys | manager.py:86-105 | `sas` and `tas` are keys of the map |
| Commands.FlagKeys | manager.py:86-105 | `backup -m`, `load -m` and `auto -m` are keys, reached by joining their two tokens |
| Commands.SasIsKey | manager.py:497-498 | `sas` is a key, so its built-in branch is never reached |
| Commands.TasIsKey | manager.py:499-500 | `tas` is a key, so its built-in branch is never reached |
| Commands.RemoveTaskParses | manager.py:505-506 | `rs <id>` in any capitalisation of `rs` reaches the cancellation branch |
| Commands.BlankLine | manager.py:479-481 | a line of whitespace is no command |
| Commands.ParseAsWritten | manager.py:484-487 | the deferred arguments are `tokens[1:-2]`; otherwise it is the same as Parse |
| Commands.DeferredFlagBecomesArgument | manager.py:484-487 | as written, `backup -m -s 5` and `auto -m -s 5` hand `-m` to handlers that take no argument |
| Commands.DeferredRunsLikeImmediate | manager.py:484-496 | corrected: a deferred key runs as the key typed alone would |
| Jobs.AutobackupMinutes | manager.py:343 | the stored interval must parse; a missing option gives 60 |
| Jobs.One | manager.py:107-111 | a script run adds exactly one effect, its outcome |
| Jobs.Both | manager.py:229-243 | the second script runs only when the first succeeded, and only the effects change |
| Jobs.Message | manager.py:113-117 | a send adds exactly one effect, the text and whether it was delivered |
| Jobs.StartAllShortCircuits | manager.py:229-235 | `start_all` runs `start_mc` only when `start_tunnel` succeeded, and changes nothing else |
| Jobs.StopAllShortCircuits | manager.py:237-243 | `stop_all` runs `stop_tunnel` only when `stop_mc` succeeded, and changes nothing else |
| Jobs.Milestone | manager.py:393-401 | changes only the disk; raises when the copy cannot be made |
| Jobs.BackupRun | manager.py:283-289 | `backup.py` fails iff the manager's config has no readable root or maximum, and then nothing changes; otherwise it succeeds whatever the copy did, the world is untouched and only the root's `backups` directory changes |
| Jobs.LoaderStore | manager.py:23-28 | the config file above the manager's directory, or the defaults when it is missing |
| Jobs.RestoreFrom | manager.py:21-65 | only the disk and the effects change; raises iff the root is unreadable, and then nothing changes; otherwise the disk changes as Load says and the stop is recorded iff it was launched |
| Jobs.LoadBackup | manager.py:291-302 | as written: raises iff the loader's config has no readable root; the loader's file exists afterwards; the table and the manager's config are untouched |
| Jobs.LoadBackupIntended | manager.py:291-302 | corrected: raises iff the manager's own root is unreadable; the table and both configs are untouched |
| Jobs.StartThread | manager.py:450-453 | the flag ends up on, and a second start changes nothing |
| Jobs.StartAutobackup | manager.py:339-349 | adds `autobackup` only when absent, with the interval read from the config; a bad interval raises with nothing changed |
| Jobs.StopAutobackup | manager.py:351-356 | removes `autobackup` and nothing else |
| Jobs.StartMilestone | manager.py:374-384 | adds `milestonebackup` only when absent, with `get_milestone_backup_interval`; a bad interval raises |
| Jobs.StopMilestone | manager.py:386-391 | removes `milestonebackup` and nothing else |
| Jobs.Toggle | manager.py:323-337 | an unreadable flag or a missing SERVER section raises with nothing changed; otherwise the negated flag is written, then the job is started or stopped |
| Jobs.ToggleAutobackupJob | manager.py:323-337 | an unreadable flag raises with nothing changed |
| Jobs.ToggleMilestoneJob | manager.py:358-372 | an unreadable flag raises with nothing changed |
| Jobs.ScheduleAutoShutdown | manager.py:119-148 | `auto_shutdown` is dropped first and is present afterwards iff the setting is on; no other entry changes |
| Jobs.ToggleAutoShutdownJob | manager.py:150-165 | flips the setting, and the daily job follows it |
| Jobs.SetShutdownTimeJob | manager.py:167-177 | a rejected time changes nothing; an accepted one is stored, and the job is rescheduled when the setting is on |
| Jobs.Perform | manager.py:493-496 | a call that does not fit the handler's signature raises before anything changes; `backup` runs the backup script (BackupRun), `backup -m` and `load` change the disk as their functions say |
| Jobs.Schedulable | manager.py:189 | a key of the map, an `s ` message or `sqa` |
| Jobs.TaskId | manager.py:210-211 | the id starts with the command and an underscore |
| Jobs.ScheduleCommand | manager.py:179-227 | refuses anything that is not a key, an `s ` message or `sqa`, changing nothing; otherwise files exactly one entry under `<command>_<stamp>` and starts the thread |
| Jobs.StopId | manager.py:440 | the id starts with `sqa_` |
| Jobs.ScheduleStopAll | manager.py:424-448 | files the stop under `sqa_<minutes>` and starts the thread |
| Jobs.WarnAndScheduleStopAll | manager.py:405-422 | exactly one warning is sent, whatever its outcome, and the stop is filed under `sqa_<minutes>` with the thread started |
| Jobs.Dispatch | manager.py:479-533 | only `exit` ends the loop, lowering the flag; empty or unknown lines change nothing; only handler calls touch the config or the disk; a deferred line returns True iff it is schedulable |
| Jobs.Handle | manager.py:474-533 | as written: a blank line returns False with nothing changed; a line that is not deferred is handled as HandleIntended handles it |
| Jobs.HandleIntended | manager.py:474-533 | corrected deferred arguments: a blank line returns False with nothing changed; `exit` lowers the flag |
| Jobs.ScheduledExecution | manager.py:193-202 | a command that is not a key (an `s ` message, `sqa`, or anything else) never raises and never touches the table |
| Jobs.Fire | manager.py:193-207 | a job's work when it fires (its contract is in FireScope, FireKeepsTable and OneShotRemovesItself) |
| Jobs.FireScope | manager.py:193-207 | recurring jobs never remove themselves; a stop job removes exactly itself and cannot raise; only command jobs and milestone jobs can raise |
| Jobs.Startup | manager.py:571-582 | an unreadable autobackup flag ends the program before anything happens |
| Jobs.OneShotIdsAreNotFixed | manager.py:210-211 | one-shot ids never collide with the three fixed ids |
| Jobs.PerformKeepsOneShots | manager.py:86-105 | no handler touches an entry outside the fixed ids, and every handler keeps the table well formed |
| Jobs.AgreeKeepsTable | manager.py:323-356 | a change confined to one fixed id, leaving there the old entry or that id's own recurring job, keeps every one-shot entry and a well-formed table |
| Jobs.DispatchKeepsTable | manager.py:474-533 | every command keeps the table well formed: recurring jobs only under their ids, one-shot jobs everywhere else |
| Jobs.ScheduledKeepsTable | manager.py:193-202 | the work of a deferred command keeps the table well formed |
| Jobs.FireKeepsTable | manager.py:193-207 | every job firing keeps the table well formed |
| Jobs.OneShotRemovesItself | manager.py:204-207 | for a one-shot job whose work is not one of the four table-changing handlers (`auto`, `auto -m`, `sas`, `tas`): completing deletes its own key and no other, and raising leaves the table as it was |
| Jobs.OneShotRemovesOnlyItself | manager.py:204-207 | for every one-shot job: completing deletes its own key, and whether it completes or raises every other one-shot entry is unchanged; only the fixed ids can change |
| Jobs.BlankOrUnknownChangesNothing | manager.py:524-526 | blank or unmatched input returns False and changes nothing |
| Jobs.RemoveTaskEffect | manager.py:505-512 | `rs` removes a present id, shrinking the table by one, and changes nothing for an absent one |
| Jobs.ToggleAutobackupInStep | manager.py:323-337 | toggling flips the read-back flag and keeps the `autobackup` job in step with it |
| Jobs.ToggleAutobackupTwice | manager.py:323-356 | two toggles give back the table and the flag's reading |
| Jobs.ToggleMilestoneInStep | manager.py:358-372 | toggling flips the read-back flag and keeps the `milestonebackup` job in step with it |
| Jobs.MilestoneIntervalUnchanged | manager.py:360 | writing the flag leaves the milestone interval as it was |
| Jobs.ToggleMilestoneTwice | manager.py:358-391 | two toggles give back the table and the flag's reading |
| Jobs.ShutdownJobFollowsSetting | manager.py:119-177 | the daily job is present exactly when auto-shutdown is on, after a toggle or a time change |
| Jobs.ExitStopsThread | manager.py:520-523 | `exit` lowers the flag and leaves the table alone |
| Jobs.DeferredFiresLikeTyped | manager.py:193-197 | a fired deferred key does what typing it does, then deletes its own entry |
| Jobs.FlagArgumentJobNeverCompletes | manager.py:193-207 | as written, the job for `backup -m -s <n>` raises when it fires, before its clean-up, so its entry stays |
| Jobs.LoadIgnoresManagerRoot | manager.py:21-28 | as written, with no config file above the manager's directory, a restore leaves the configured server's world as it is |
| Jobs.BackupThenLoadRestores | manager.py:283-302 | corrected: `backup`, any change to the world, then the corrected `load` gives back the world as it was backed up |
| Jobs.Session | manager.py:586-591 | the loop over lines, which stops at the first line that exits |
| Jobs.Console | manager.py:586-591 | that loop over the as-written handler |
| Jobs.ConsoleIntended | manager.py:586-591 | that loop over the corrected handler |
| Jobs.ConsoleStep | manager.py:586-591 | one turn of the loop: `exit` ends the session in the handled state, any other line continues from it |
| Jobs.ConsoleStopsAtExit | manager.py:586-591 | lines after `exit` are never looked at |
| Jobs.ExitLowersFlag | manager.py:520-523 | a session that reaches `exit` ends with the thread flag down |
| Manager.ServerManager.constructor | manager.py:70-105 | an empty table, no thread, the loaded config, and the loader's config file as found |
| Manager.ServerManager.RunScript | manager.py:107-111 | follows Jobs.One and returns the script's outcome |
| Manager.ServerManager.SendServerMessage | manager.py:113-117 | follows Jobs.Message and returns whether the send got through |
| Manager.ServerManager.RunBoth | manager.py:229-243 | follows Jobs.Both: the second script only after the first succeeded |
| Manager.ServerManager.RunBackupScript | manager.py:283-289 | follows Jobs.BackupRun, through ServerFiles.CreateBackup |
| Manager.ServerManager.LoadBackup | manager.py:21-65 | follows Jobs.LoadBackup: opens a ConfigManager on the loader's file, then ServerFiles.LoadLatestBackup |
| Manager.ServerManager.StartScheduleThread | manager.py:450-453 | follows Jobs.StartThread |
| Manager.ServerManager.StartAutobackup | manager.py:339-349 | follows Jobs.StartAutobackup |
| Manager.ServerManager.StopAutobackup | manager.py:351-356 | follows Jobs.StopAutobackup |
| Manager.ServerManager.ToggleAutobackup | manager.py:323-337 | follows Jobs.ToggleAutobackupJob, through ConfigManager.SetAutobackup |
| Manager.ServerManager.StartMilestoneBackup | manager.py:374-384 | follows Jobs.StartMilestone |
| Manager.ServerManager.StopMilestoneBackup | manager.py:386-391 | follows Jobs.StopMilestone |
| Manager.ServerManager.ToggleMilestoneBackup | manager.py:358-372 | follows Jobs.ToggleMilestoneJob |
| Manager.ServerManager.MilestoneBackup | manager.py:393-401 | follows Jobs.Milestone, through ServerFiles.MilestoneBackup |
| Manager.ServerManager.ScheduleAutoShutdown | manager.py:119-148 | follows Jobs.ScheduleAutoShutdown |
| Manager.ServerManager.ToggleAutoShutdown | manager.py:150-165 | follows Jobs.ToggleAutoShutdownJob |
| Manager.ServerManager.SetShutdownTime | manager.py:167-177 | follows Jobs.SetShutdownTimeJob |
| Manager.ServerManager.Perform | manager.py:229-302 | follows Jobs.Perform for every handler |
| Manager.ServerManager.RunScripts | manager.py:229-281 | follows Jobs.Perform for the handlers that only run scripts |
| Manager.ServerManager.ScheduleCommand | manager.py:179-227 | follows Jobs.ScheduleCommand |
| Manager.ServerManager.ScheduleStopAll | manager.py:424-448 | follows Jobs.ScheduleStopAll |
| Manager.ServerManager.WarnAndScheduleStopAll | manager.py:405-422 | sends the warning, whatever its outcome, then schedules the stop |
| Manager.ServerManager.HandleCommand | manager.py:474-533 | follows Jobs.Handle, as written |
| Manager.ServerManager.DispatchCommand | manager.py:484-533 | follows Jobs.Dispatch for every command |
| Manager.ServerManager.DispatchConsoleCommand | manager.py:497-533 | follows Jobs.Dispatch for the commands that neither run nor schedule a handler |
| Manager.ServerManager.ScheduledExecution | manager.py:193-202 | follows Jobs.ScheduledExecution |
| Manager.ServerManager.FireOneShot | manager.py:193-207 | follows Jobs.Fire for a deferred command: its work, then the deletion of its own entry unless the work raised |
| Manager.ServerManager.FireRecurring | manager.py:339-384 | follows Jobs.Fire for the recurring jobs (the `backup` and `milestone_backup` jobs, and the daily shutdown), which stay in the table |
| Manager.ServerManager.FireJob | manager.py:193-207 | follows Jobs.Fire for every kind of job |
| Manager.ServerManager.Startup | manager.py:571-582 | follows Jobs.Startup |
| Manager.ServerManager.ConsoleTurn | manager.py:586-591 | one turn reads one line, handles it as written, and leaves the session where Jobs.ConsoleStep says |
| Manager.ServerManager.RunConsole | manager.py:586-594 | ends in the state and with the exit flag that Jobs.Console gives for the whole input |

## Left out

- The scheduling thread, `run_schedule` and `stop_schedule_thread`'s join, because they are concurrency. Only the `schedule_running` flag is kept. A job fires only when `FireJob` is called, never concurrently with a command.
- The `schedule` library is not part of this model:
  - after `del scheduled_tasks[id]` of an entry that was overwritten in the map, the old library job keeps running; the model has only the map;
  - an exception inside a job escapes `schedule.run_pending()` and ends the scheduling thread, while `schedule_running` stays true, so no later start brings it back. The model keeps the table as it was and returns `raised`, but does not model the thread dying: later `FireJob` calls still go through;
  - the validation of intervals and times, and `next_run`.
- The auto-shutdown settings: `is_auto_shutdown_enabled`, `get_auto_shutdown_time`, `set_auto_shutdown` and `set_auto_shutdown_time` are called by manager.py but are not defined in utils/config_manager.py.
  - They are modelled as the fields `shutdownEnabled` and `shutdownTime`, with a `validTime` oracle standing for the setter's check.
  - As written, each of those calls raises AttributeError; this includes `main` at manager.py:579, which would end the program at start-up.
- Subprocesses are oracles: the scripts under scripts/ other than the two backup scripts, utils/run_script.py, `screen`, and `sudo shutdown now`. The exceptions `run_script` lets through other than a non-zero exit are left out.
- Sleeps, logging and printing, including utils/logger.py, the screen output of `show_log`, `show_scheduled_tasks` and `help`, and the contents of the log lines read after a send.
- `_save_config`'s file write.
- The real `copytree` and `rmtree`: a copy either happens whole or fails (`copyOk`). Partial copies are not modelled.
- A backup directory path that exists as a file.
- Jobs.Perform: `show_log` raises only when the server root cannot be read. Other errors from `open`, such as a permission error, are not modelled.
- Python's Unicode-aware `str.isdigit` and `str.lower` are modelled for ASCII only.
- Config.ParseInt: accepts ASCII digits after an optional sign. `int()` also accepts surrounding whitespace, non-ASCII digits and `_` between digits (`"1_0"` is 10); those texts are errors in the model.
- Config.Find: `configparser`'s default interpolation is not modelled. A stored value holding `%(name)s` comes back expanded in Python and verbatim here, and a lone `%` is an InterpolationSyntaxError in Python and an ordinary character here.
- ScreenMessage.DigitCount: `\d` in a Python `str` pattern matches every Unicode decimal digit; the model matches ASCII digits only.
- Timestamp.Format: the year is always padded to four digits. glibc writes years before 1000 without padding; that case is not modelled.
- Manager.ServerManager.LoadBackup: the stop that `load_latest_backup` launches is `<parent>/scripts/stop_mc.py`, one directory above the manager's. It is recorded as an effect, and its outcome is not looked at (`StopRequested`).
- World folders and backup directories are kept in two separate maps of the disk, so a world path that is also a backup directory, or lies inside one, is not modelled.
- ScreenMessage.SendServerMessage: any exception other than a failed or timed-out send is one outcome (`Crashed`); which exception it was is not kept.

## Findings

| source | as written | input that shows it | evidently intended | confidence | as-written member | corrected member |
|---|---|---|---|---|---|---|
| manager.py:484-487 | the deferred form passes `tokens[1:-2]` as arguments, even when the prefix is a two-word key such as `backup -m` | `backup -m -s 5` schedules `milestone_backup("-m")`, which raises TypeError when it fires. The exception escapes `schedule.run_pending()` at manager.py:457 and ends the scheduling thread. `schedule_running` stays true, so `_start_schedule_thread` (manager.py:452) never restarts it, and no scheduled job fires again (`auto -m -s 5` likewise) | a two-word key is the whole command, so it takes no arguments, exactly as `backup -m` typed alone | not executed | Commands.DeferredFlagBecomesArgument | Commands.DeferredRunsLikeImmediate |
| manager.py:23 | the module-level `load_latest_backup` takes `base_dir` as the parent of the manager's directory, so it opens `<parent>/config.ini`, creating it with the defaults when it is absent | with no config.ini above the manager and `ServerRootLocation = /srv/mc` in the manager's config, `load` restores under `/home/miro/Desktop/Fabric` and leaves `/srv/mc/world` as it was | the manager's own directory, as in `__init__` (manager.py:72) and scripts/backup.py, so that `load` restores what `backup` wrote | not executed | Jobs.LoadIgnoresManagerRoot | Jobs.BackupThenLoadRestores |
