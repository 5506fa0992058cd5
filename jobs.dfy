/**
 * What the console's commands and scheduled jobs do (manager.py
 * `MinecraftServerManager`), as transitions of a state value: the table of
 * scheduled jobs, the config, the config file the module-level
 * `load_latest_backup` opens (None while that file does not exist), the
 * auto-shutdown settings, the part of the
 * disk the backup routines touch, the scheduling-thread flag, and the list
 * of outside effects (scripts run, messages sent).
 *
 * The helper scripts and the screen messenger are oracles in `Env`: `run`
 * says whether a script exits with status 0, `send` whether a message reached
 * a session, `validTime` whether the config accepts an auto-shutdown time,
 * `copyOk` whether the disk lets a copy through, `now` is the clock.
 */
module Jobs {
  import opened Wrappers
  import opened Text
  import opened Timestamp
  import opened Commands
  import Config
  import Backups

  /** The helper scripts under scripts/. */
  datatype Script = StartTunnelScript | StartMcScript | StopMcScript | StopTunnelScript | BackupScript

  /** What a scheduled job does when it fires. */
  datatype Work =
    | RunCommand(command: string, args: seq<string>)   // `scheduled_execution` of schedule_command
    | StopAllLater                                     // `scheduled_stop` of schedule_stop_all
    | PeriodicBackup                                   // `self.backup` every N minutes
    | PeriodicMilestone                                // `self.milestone_backup` every N minutes
    | DailyShutdown                                    // `shutdown_task` every day

  datatype Timing = EveryMinutes(minutes: int) | DailyAt(time: string)

  datatype Job = Job(timing: Timing, work: Work)

  /** What the outside world sees happen. */
  datatype Effect =
    | RanScript(script: Script, succeeded: bool)
    | Messaged(text: string, delivered: bool)
    | StopRequested                                    // load_latest_backup launching <parent>/scripts/stop_mc.py
    | PoweredOff                                       // `sudo shutdown now`

  datatype Env = Env(now: Stamp, run: Script -> bool, send: string -> bool,
                     validTime: string -> bool, copyOk: bool)

  datatype State = State(
    tasks: map<string, Job>,
    config: Config.Store,
    loaderConfig: Option<Config.Store>,
    shutdownEnabled: bool,
    shutdownTime: string,
    disk: Backups.Disk,
    running: bool,
    effects: seq<Effect>)

  /** A handler's run: the state afterwards and whether it raised. */
  datatype Outcome = Outcome(state: State, raised: bool)

  const AUTOBACKUP_ID := "autobackup"
  const MILESTONE_ID := "milestonebackup"
  const SHUTDOWN_ID := "auto_shutdown"

  // ---------------------------------------------------------------- config reads

  function ServerRoot(s: State): Result<string, Config.ConfigError> {
    Config.Find(s.config, Config.SERVER, "ServerRootLocation")
  }

  /** `int(get('SERVER', 'autobackupinterval', fallback=60))`: the stored text
      must parse; a missing option gives 60. */
  function AutobackupMinutes(cfg: Config.Store): (r: Option<int>)
    ensures Config.Find(cfg, Config.SERVER, "autobackupinterval").Err? ==> r == Some(60)
  {
    match Config.Find(cfg, Config.SERVER, "autobackupinterval")
    case Ok(text) => Config.ParseInt(text)
    case Err(_) => Some(60)
  }

  function MaxBackups(cfg: Config.Store): Result<int, Config.ConfigError> {
    Config.GetInt(cfg, Config.SERVER, "MaxWorldBackups", Some(10))
  }

  function MilestoneDir(cfg: Config.Store): string {
    Config.Get(cfg, Config.SERVER, "milestonebackupdir", Some("/home/miro/Desktop/Fabric/milestone_backups")).value
  }

  // ---------------------------------------------------------------- scripts

  /** `_run_script(script)`, with its outcome recorded. */
  function One(s: State, env: Env, script: Script): (r: State)
    ensures r == s.(effects := s.effects + [RanScript(script, env.run(script))])
  {
    s.(effects := s.effects + [RanScript(script, env.run(script))])
  }

  /** `run(first) and run(second)`: the second runs only if the first succeeded. */
  function Both(s: State, env: Env, first: Script, second: Script): (r: State)
    ensures r == s.(effects := r.effects)
    ensures r.effects == s.effects + [RanScript(first, env.run(first))]
                         + (if env.run(first) then [RanScript(second, env.run(second))] else [])
  {
    var s1 := One(s, env, first);
    if env.run(first) then One(s1, env, second) else s1
  }

  function StartAllScripts(s: State, env: Env): State {
    Both(s, env, StartTunnelScript, StartMcScript)
  }

  function StopAllScripts(s: State, env: Env): State {
    Both(s, env, StopMcScript, StopTunnelScript)
  }

  /** `send_server_message(text)`, with its outcome recorded. */
  function Message(s: State, env: Env, text: string): (r: State)
    ensures r == s.(effects := r.effects)
    ensures |r.effects| == |s.effects| + 1 && r.effects[..|s.effects|] == s.effects
    ensures r.effects[|s.effects|] == Messaged(text, env.send(text))
  {
    s.(effects := s.effects + [Messaged(text, env.send(text))])
  }

  // ---------------------------------------------------------------- backups

  /** `milestone_backup`: a failure is an exception. */
  function Milestone(s: State, env: Env): (o: Outcome)
    ensures o.state == s.(disk := o.state.disk)
  {
    var root := if ServerRoot(s).Ok? then Some(ServerRoot(s).value) else None;
    var step := Backups.MilestoneCopy(s.disk, MilestoneDir(s.config), root,
                                      Backups.MILESTONE_PREFIX + Format(env.now), env.copyOk);
    Outcome(s.(disk := step.disk), !step.ok)
  }

  /** `backup()`: scripts/backup.py, which sits one directory below the
      manager and so opens the manager's own config.ini. It reads the root
      and the maximum before its `try`, so a bad config is an uncaught
      exception and a failed run; past that the script exits 0 whatever the
      copy did, since its `__main__` drops the returned boolean. */
  function BackupRun(s: State, env: Env): (r: State)
    ensures var ok := ServerRoot(s).Ok? && MaxBackups(s.config).Ok?;
            && r == s.(disk := r.disk, effects := s.effects + [RanScript(BackupScript, ok)])
            && (!ok ==> r.disk == s.disk)
            && (ok ==> var root := ServerRoot(s).value;
                       && r.disk.worlds == s.disk.worlds
                       && PathJoin(root, "backups") in r.disk.dirs
                       && r.disk.dirs - {PathJoin(root, "backups")} == s.disk.dirs - {PathJoin(root, "backups")})
  {
    if ServerRoot(s).Err? || MaxBackups(s.config).Err? then
      s.(effects := s.effects + [RanScript(BackupScript, false)])
    else
      var root := ServerRoot(s).value;
      var step := Backups.Backup(s.disk, PathJoin(root, "world"), PathJoin(root, "backups"), MaxBackups(s.config).value,
                                 Backups.BACKUP_PREFIX + Format(env.now), env.copyOk);
      s.(disk := step.disk, effects := s.effects + [RanScript(BackupScript, true)])
  }

  /** The config the module-level `load_latest_backup` opens: its
      `base_dir` is the parent of the manager's directory, and a missing
      file is created with the defaults. */
  function LoaderStore(s: State): (cfg: Config.Store)
    ensures s.loaderConfig.None? ==> cfg == Config.DefaultStore()
  {
    if s.loaderConfig.Some? then s.loaderConfig.value else Config.DefaultStore()
  }

  /** `load_latest_backup` with the config `cfg`: the server root is read
      before the `try`, so only a bad config escapes; every other failure is
      caught inside and merely reported. */
  function RestoreFrom(s: State, env: Env, cfg: Config.Store, subdir: string): (o: Outcome)
    ensures o.state == s.(disk := o.state.disk, effects := o.state.effects)
    ensures o.raised <==> Config.Find(cfg, Config.SERVER, "ServerRootLocation").Err?
    ensures o.raised ==> o.state == s
    ensures !o.raised ==>
              var root := Config.Find(cfg, Config.SERVER, "ServerRootLocation").value;
              var r := Backups.Load(s.disk, PathJoin(root, "world"), PathJoin(root, subdir), env.copyOk);
              o.state.disk == r.disk && o.state.effects == s.effects + (if r.stopped then [StopRequested] else [])
  {
    match Config.Find(cfg, Config.SERVER, "ServerRootLocation")
    case Err(_) => Outcome(s, true)
    case Ok(root) =>
      var r := Backups.Load(s.disk, PathJoin(root, "world"), PathJoin(root, subdir), env.copyOk);
      Outcome(s.(disk := r.disk, effects := s.effects + (if r.stopped then [StopRequested] else [])), false)
  }

  /** `load_backup(milestone)` as written: it restores through the
      loader's config file (creating it first when absent), not through the
      manager's. */
  function LoadBackup(s: State, env: Env, subdir: string): (o: Outcome)
    ensures o.raised <==> Config.Find(LoaderStore(s), Config.SERVER, "ServerRootLocation").Err?
    ensures o.state.tasks == s.tasks && o.state.config == s.config
    ensures o.state.loaderConfig == Some(LoaderStore(s))
  {
    RestoreFrom(s.(loaderConfig := Some(LoaderStore(s))), env, LoaderStore(s), subdir)
  }

  /** `load_backup(milestone)` as evidently intended: through the manager's
      own config, the one `backup` and `milestone_backup` write with. */
  function LoadBackupIntended(s: State, env: Env, subdir: string): (o: Outcome)
    ensures o.raised <==> ServerRoot(s).Err?
    ensures o.state.tasks == s.tasks && o.state.config == s.config && o.state.loaderConfig == s.loaderConfig
  {
    RestoreFrom(s, env, s.config, subdir)
  }

  // ---------------------------------------------------------------- the recurring jobs

  /** `_start_schedule_thread`: a second start does nothing. */
  function StartThread(s: State): (r: State)
    ensures r.running && r == s.(running := true)
  {
    if s.running then s else s.(running := true)
  }

  /** `_start_autobackup`: adds the job only when its key is absent. */
  function StartAutobackup(s: State): (o: Outcome)
    ensures AUTOBACKUP_ID in s.tasks ==> o == Outcome(s, false)
    ensures AUTOBACKUP_ID !in s.tasks && AutobackupMinutes(s.config).None? ==> o == Outcome(s, true)
    ensures AUTOBACKUP_ID !in s.tasks && AutobackupMinutes(s.config).Some? ==>
              o == Outcome(s.(tasks := s.tasks[AUTOBACKUP_ID := Job(EveryMinutes(AutobackupMinutes(s.config).value), PeriodicBackup)],
                              running := true), false)
  {
    if AUTOBACKUP_ID in s.tasks then Outcome(s, false)
    else
      match AutobackupMinutes(s.config)
      case None => Outcome(s, true)
      case Some(n) => Outcome(StartThread(s.(tasks := s.tasks[AUTOBACKUP_ID := Job(EveryMinutes(n), PeriodicBackup)])), false)
  }

  /** `_stop_autobackup`: removes that key and no other. */
  function StopAutobackup(s: State): (r: State)
    ensures r.tasks == s.tasks - {AUTOBACKUP_ID}
    ensures r == s.(tasks := r.tasks)
  {
    s.(tasks := s.tasks - {AUTOBACKUP_ID})
  }

  /** `_start_milestonebackup`: adds the job only when its key is absent. */
  function StartMilestone(s: State): (o: Outcome)
    ensures MILESTONE_ID in s.tasks ==> o == Outcome(s, false)
    ensures var n := Config.GetInt(s.config, Config.SERVER, "milestonebackupinterval", Some(1440));
            MILESTONE_ID !in s.tasks ==>
              o == if n.Err? then Outcome(s, true)
                   else Outcome(s.(tasks := s.tasks[MILESTONE_ID := Job(EveryMinutes(n.value), PeriodicMilestone)],
                                   running := true), false)
  {
    if MILESTONE_ID in s.tasks then Outcome(s, false)
    else
      match Config.GetInt(s.config, Config.SERVER, "milestonebackupinterval", Some(1440))
      case Err(_) => Outcome(s, true)
      case Ok(n) => Outcome(StartThread(s.(tasks := s.tasks[MILESTONE_ID := Job(EveryMinutes(n), PeriodicMilestone)])), false)
  }

  /** `_stop_milestonebackup`. */
  function StopMilestone(s: State): (r: State)
    ensures r.tasks == s.tasks - {MILESTONE_ID}
    ensures r == s.(tasks := r.tasks)
  {
    s.(tasks := s.tasks - {MILESTONE_ID})
  }

  /** A toggle: read the flag, write its negation, then start or stop the job. */
  function Toggle(s: State, option: string, start: State -> Outcome, stop: State -> State): (o: Outcome)
    ensures Config.GetBool(s.config, Config.SERVER, option).Err? ==> o == Outcome(s, true)
    ensures Config.SERVER !in s.config.sections ==> o == Outcome(s, true)
    ensures Config.GetBool(s.config, Config.SERVER, option).Ok? ==>
              var cfg := Config.Set(s.config, Config.SERVER, option,
                                    Config.BoolText(!Config.GetBool(s.config, Config.SERVER, option).value)).value;
              o == if Config.GetBool(s.config, Config.SERVER, option).value then Outcome(stop(s.(config := cfg)), false)
                   else start(s.(config := cfg))
  {
    match Config.GetBool(s.config, Config.SERVER, option)
    case Err(_) => Outcome(s, true)
    case Ok(current) =>
      match Config.Set(s.config, Config.SERVER, option, Config.BoolText(!current))
      case Err(_) => Outcome(s, true)
      case Ok(cfg) =>
        var s1 := s.(config := cfg);
        if !current then start(s1) else Outcome(stop(s1), false)
  }

  /** `toggle_autobackup`. */
  function ToggleAutobackupJob(s: State): (o: Outcome)
    ensures Config.GetBool(s.config, Config.SERVER, "IsAutoBackupEnabled").Err? ==> o == Outcome(s, true)
  {
    Toggle(s, "IsAutoBackupEnabled", StartAutobackup, StopAutobackup)
  }

  /** `toggle_milestonebackup`. */
  function ToggleMilestoneJob(s: State): (o: Outcome)
    ensures Config.GetBool(s.config, Config.SERVER, "IsMilestoneBackupEnabled").Err? ==> o == Outcome(s, true)
  {
    Toggle(s, "IsMilestoneBackupEnabled", StartMilestone, StopMilestone)
  }

  /** `_schedule_auto_shutdown`: always drop the daily job first, and put it
      back only when auto-shutdown is enabled. */
  function ScheduleAutoShutdown(s: State): (r: State)
    ensures SHUTDOWN_ID in r.tasks <==> s.shutdownEnabled
    ensures r.tasks - {SHUTDOWN_ID} == s.tasks - {SHUTDOWN_ID}
    ensures s.shutdownEnabled ==> r.tasks[SHUTDOWN_ID] == Job(DailyAt(s.shutdownTime), DailyShutdown) && r.running
    ensures !s.shutdownEnabled ==> r.running == s.running
    ensures r == s.(tasks := r.tasks, running := r.running)
  {
    var s1 := s.(tasks := s.tasks - {SHUTDOWN_ID});
    if !s.shutdownEnabled then s1
    else StartThread(s1.(tasks := s1.tasks[SHUTDOWN_ID := Job(DailyAt(s.shutdownTime), DailyShutdown)]))
  }

  /** `toggle_auto_shutdown`. */
  function ToggleAutoShutdownJob(s: State): (r: State)
    ensures r.shutdownEnabled == !s.shutdownEnabled
    ensures SHUTDOWN_ID in r.tasks <==> r.shutdownEnabled
    ensures r.tasks - {SHUTDOWN_ID} == s.tasks - {SHUTDOWN_ID}
  {
    var s1 := s.(shutdownEnabled := !s.shutdownEnabled);
    if s1.shutdownEnabled then ScheduleAutoShutdown(s1) else s1.(tasks := s1.tasks - {SHUTDOWN_ID})
  }

  /** `set_shutdown_time`: a time the config accepts is stored, and the daily
      job is rescheduled when auto-shutdown is on. */
  function SetShutdownTimeJob(s: State, env: Env, time: string): (r: State)
    ensures !env.validTime(time) ==> r == s
    ensures env.validTime(time) ==> r.shutdownTime == time && r.shutdownEnabled == s.shutdownEnabled
    ensures env.validTime(time) && s.shutdownEnabled ==>
              SHUTDOWN_ID in r.tasks && r.tasks[SHUTDOWN_ID] == Job(DailyAt(time), DailyShutdown)
    ensures r.tasks - {SHUTDOWN_ID} == s.tasks - {SHUTDOWN_ID}
  {
    if !env.validTime(time) then s
    else
      var s1 := s.(shutdownTime := time);
      if s1.shutdownEnabled then ScheduleAutoShutdown(s1) else s1
  }

  // ---------------------------------------------------------------- the handlers

  /** Calling `command_map[a](*args)`. A call that does not fit the handler's
      signature raises TypeError before anything happens. */
  function Perform(s: State, a: Action, args: seq<string>, env: Env): (o: Outcome)
    ensures !Accepts(a, |args|) ==> o == Outcome(s, true)
  {
    if !Accepts(a, |args|) then Outcome(s, true)
    else
      match a
      case StartAll => Outcome(StartAllScripts(s, env), false)
      case StopAll => Outcome(StopAllScripts(s, env), false)
      case RestartAll => Outcome(StartAllScripts(StopAllScripts(s, env), env), false)
      case StartMc => Outcome(One(s, env, StartMcScript), false)
      case StopMc => Outcome(One(s, env, StopMcScript), false)
      case RestartMc => Outcome(One(One(s, env, StopMcScript), env, StartMcScript), false)
      case StartTunnel => Outcome(One(s, env, StartTunnelScript), false)
      case StopTunnel => Outcome(One(s, env, StopTunnelScript), false)
      case RestartTunnel => Outcome(One(One(s, env, StopTunnelScript), env, StartTunnelScript), false)
      case Backup => if |args| == 0 then Outcome(BackupRun(s, env), false) else Milestone(s, env)
      case MilestoneBackup => Milestone(s, env)
      case LoadRegular => LoadBackup(s, env, "backups")
      case LoadMilestone => LoadBackup(s, env, "milestone_backups")
      case ShowLog => Outcome(s, ServerRoot(s).Err?)
      case ToggleAutobackup => ToggleAutobackupJob(s)
      case ToggleMilestone => ToggleMilestoneJob(s)
      case SetShutdownTime => Outcome(SetShutdownTimeJob(s, env, args[0]), false)
      case ToggleAutoShutdown => Outcome(ToggleAutoShutdownJob(s), false)
  }

  /** `schedule_command`'s acceptance test. */
  predicate Schedulable(command: string) {
    CommandMap(command).Some? || StartsWith(command, "s ") || command == "sqa"
  }

  /** The id `schedule_command` files a job under. */
  function TaskId(command: string, now: Stamp): (id: string)
    ensures |id| > |command| && id[..|command| + 1] == command + "_"
  {
    command + "_" + Format(now)
  }

  /** The result of `schedule_command`: the state and the boolean it returns. */
  datatype Scheduled = Scheduled(state: State, accepted: bool)

  /** `schedule_command`: a command it cannot run later is refused and nothing
      changes; otherwise exactly one entry is filed, under `command_<stamp>`
      (replacing one filed in the same second), and the thread is started. */
  function ScheduleCommand(s: State, command: string, delay: int, args: seq<string>, now: Stamp): (r: Scheduled)
    ensures r.accepted <==> Schedulable(command)
    ensures !r.accepted ==> r.state == s
    ensures r.accepted ==> r.state == s.(tasks := s.tasks[TaskId(command, now) := Job(EveryMinutes(delay), RunCommand(command, args))],
                                         running := true)
  {
    if !Schedulable(command) then Scheduled(s, false)
    else
      var s1 := s.(tasks := s.tasks[TaskId(command, now) := Job(EveryMinutes(delay), RunCommand(command, args))]);
      Scheduled(StartThread(s1), true)
  }

  /** The id `schedule_stop_all` files its job under. */
  function StopId(minutes: nat): (id: string)
    ensures |id| > 4 && id[..4] == "sqa_"
  {
    "sqa_" + Decimal(minutes)
  }

  /** `schedule_stop_all`. */
  function ScheduleStopAll(s: State, minutes: nat): (r: State)
    ensures r == s.(tasks := s.tasks[StopId(minutes) := Job(EveryMinutes(minutes), StopAllLater)], running := true)
  {
    StartThread(s.(tasks := s.tasks[StopId(minutes) := Job(EveryMinutes(minutes), StopAllLater)]))
  }

  function WarningText(minutes: nat): string {
    "Server will shutdown in " + Decimal(minutes) + " minutes. Please prepare to log out."
  }

  /** `warn_and_schedule_stop_all`: the warning's outcome does not matter. */
  function WarnAndScheduleStopAll(s: State, env: Env, minutes: nat): (r: State)
    ensures r.tasks == s.tasks[StopId(minutes) := Job(EveryMinutes(minutes), StopAllLater)] && r.running
    ensures r.effects == s.effects + [Messaged(WarningText(minutes), env.send(WarningText(minutes)))]
    ensures r == s.(tasks := r.tasks, running := true, effects := r.effects)
  {
    ScheduleStopAll(Message(s, env, WarningText(minutes)), minutes)
  }

  /** What `handle_command` returns: a boolean, or SystemExit from `exit`,
      which its `except Exception` does not catch. */
  datatype Reply = Returned(value: bool) | Exited

  datatype Handled = Handled(state: State, reply: Reply)

  /** `handle_command` after the parse. Every handler that raises is caught
      and turned into False; the state keeps whatever happened before the
      exception. */
  function Dispatch(s: State, c: Command, env: Env): (h: Handled)
    ensures h.reply == Exited <==> c == Exit
    ensures h.reply == Exited ==> !h.state.running && h.state.tasks == s.tasks
    ensures c == Empty || c == Unknown ==> h == Handled(s, Returned(false))
    ensures !c.Run? ==> h.state.config == s.config && h.state.disk == s.disk
    ensures c.Defer? ==> (h.reply == Returned(true) <==> Schedulable(c.command))
  {
    match c
    case Empty => Handled(s, Returned(false))
    case Defer(command, delay, args) =>
      var r := ScheduleCommand(s, command, delay, args, env.now);
      Handled(r.state, Returned(r.accepted))
    case Run(a, args) =>
      var o := Perform(s, a, args, env);
      Handled(o.state, Returned(!o.raised))
    case ScheduleStop(minutes) => Handled(ScheduleStopAll(s, minutes), Returned(true))
    case WarnAndStop(minutes) => Handled(WarnAndScheduleStopAll(s, env, minutes), Returned(true))
    case RemoveTask(id) => Handled(s.(tasks := s.tasks - {id}), Returned(true))
    case Say(message) => Handled(Message(s, env, message), Returned(true))
    case ShowTasks => Handled(s, Returned(true))
    case Help => Handled(s, Returned(true))
    case Exit => Handled(s.(running := false), Exited)
    case Unknown => Handled(s, Returned(false))
  }

  /** `handle_command(line)`, deferred arguments as the code has them. */
  function Handle(s: State, line: string, env: Env): (h: Handled)
    ensures Split(line) == [] ==> h == Handled(s, Returned(false))
    ensures h.reply == Exited ==> !h.state.running
    ensures !IsDeferred(Split(line)) ==> h == HandleIntended(s, line, env)
  {
    Dispatch(s, ParseAsWritten(Split(line)), env)
  }

  /** `handle_command(line)` with the deferred arguments corrected. */
  function HandleIntended(s: State, line: string, env: Env): (h: Handled)
    ensures Split(line) == [] ==> h == Handled(s, Returned(false))
    ensures h.reply == Exited ==> !h.state.running
  {
    Dispatch(s, Parse(Split(line)), env)
  }

  /** The body of `scheduled_execution` before its clean-up: the handler of
      a key, a message for `s <text>`, `stop_all` for `sqa`. */
  function ScheduledExecution(s: State, command: string, args: seq<string>, env: Env): (o: Outcome)
    ensures CommandMap(command).None? ==> !o.raised && o.state.tasks == s.tasks
  {
    if CommandMap(command).Some? then Perform(s, CommandMap(command).value, args, env)
    else if StartsWith(command, "s ") then Outcome(Message(s, env, Join(args)), false)
    else if command == "sqa" then Outcome(StopAllScripts(s, env), false)
    else Outcome(s, false)
  }

  /** A job firing. The one-shot jobs remove their own entry after their work
      runs; when the work raises, the exception leaves the job before that,
      and the entry stays. */
  function Fire(s: State, id: string, env: Env): (o: Outcome)
    requires id in s.tasks
  {
    match s.tasks[id].work
    case RunCommand(command, args) =>
      var o := ScheduledExecution(s, command, args, env);
      if o.raised then o else Outcome(o.state.(tasks := o.state.tasks - {id}), false)
    case StopAllLater =>
      var s1 := StopAllScripts(s, env);
      Outcome(s1.(tasks := s1.tasks - {id}), false)
    case PeriodicBackup => Outcome(BackupRun(s, env), false)
    case PeriodicMilestone => Milestone(s, env)
    case DailyShutdown =>
      var s1 := One(Message(s, env, "Server will automatically shut down in 5 minutes!"), env, StopMcScript);
      Outcome(s1.(effects := s1.effects + [PoweredOff]), false)
  }

  /** `main` before its loop: the recurring jobs the config asks for. A bad
      flag or interval escapes and ends the program. */
  function Startup(s: State): (o: Outcome)
    ensures Config.GetBool(s.config, Config.SERVER, "IsAutoBackupEnabled").Err? ==> o == Outcome(s, true)
  {
    match Config.GetBool(s.config, Config.SERVER, "IsAutoBackupEnabled")
    case Err(_) => Outcome(s, true)
    case Ok(enabled) =>
      var o := if enabled then StartAutobackup(s) else Outcome(s, false);
      if o.raised then o
      else if o.state.shutdownEnabled then Outcome(ScheduleAutoShutdown(o.state), false)
      else o
  }

  /** Where a loop over console lines ends: the last state, and whether a
      line ended it. */
  datatype Ending = Ending(state: State, exited: bool)

  /** A loop over console lines taking turns with `step`; a turn that
      exits ends it. */
  function Session(s: State, lines: seq<string>, envs: seq<Env>, step: (State, string, Env) -> Handled): Ending
    requires |envs| == |lines|
    decreases |lines|
  {
    if lines == [] then Ending(s, false)
    else
      var h := step(s, lines[0], envs[0]);
      if h.reply == Exited then Ending(h.state, true) else Session(h.state, lines[1..], envs[1..], step)
  }

  /** `main`'s loop over the lines typed, each with the environment it meets. */
  function Console(s: State, lines: seq<string>, envs: seq<Env>): Ending
    requires |envs| == |lines|
  {
    Session(s, lines, envs, Handle)
  }

  /** The same loop over the corrected handler. */
  function ConsoleIntended(s: State, lines: seq<string>, envs: seq<Env>): Ending
    requires |envs| == |lines|
  {
    Session(s, lines, envs, HandleIntended)
  }

  /** One turn of the loop. */
  lemma ConsoleStep(s: State, lines: seq<string>, envs: seq<Env>, h: Handled)
    requires |envs| == |lines| > 0 && h == Handle(s, lines[0], envs[0])
    ensures Console(s, lines, envs) == if h.reply == Exited then Ending(h.state, true) else Console(h.state, lines[1..], envs[1..])
  {
  }

  // ---------------------------------------------------------------- properties

  /** The recurring jobs live under their fixed ids and nowhere else; every
      other entry is a one-shot job. */
  predicate IsFixedId(id: string) {
    id == AUTOBACKUP_ID || id == MILESTONE_ID || id == SHUTDOWN_ID
  }

  predicate IsOneShot(w: Work) {
    w.RunCommand? || w.StopAllLater?
  }

  predicate WellFormedTable(tasks: map<string, Job>) {
    && (AUTOBACKUP_ID in tasks ==> tasks[AUTOBACKUP_ID].work == PeriodicBackup)
    && (MILESTONE_ID in tasks ==> tasks[MILESTONE_ID].work == PeriodicMilestone)
    && (SHUTDOWN_ID in tasks ==> tasks[SHUTDOWN_ID].work == DailyShutdown)
    && (forall id :: id in tasks && !IsFixedId(id) ==> IsOneShot(tasks[id].work))
  }

  /** The ids of one-shot jobs never collide with the fixed ids. */
  lemma OneShotIdsAreNotFixed(command: string, now: Stamp, minutes: nat)
    requires Schedulable(command)
    ensures !IsFixedId(TaskId(command, now))
    ensures !IsFixedId(StopId(minutes))
  {
    assert |command| >= 2 by {
      if |command| < 2 {
        assert false;
      }
    }
    assert |TaskId(command, now)| >= 18;
    assert StopId(minutes)[0] == 's';
  }

  /** Two tables agree on every entry outside the fixed ids. */
  ghost predicate SameOneShots(t: map<string, Job>, u: map<string, Job>) {
    forall id :: !IsFixedId(id) ==> (id in t <==> id in u) && (id in t ==> t[id] == u[id])
  }

  /** Tables equal once `k` is dropped agree everywhere else. */
  lemma SameOutsideKey(t: map<string, Job>, u: map<string, Job>, k: string)
    requires t - {k} == u - {k}
    ensures AgreeExcept(t, u, k)
  {
    forall id | id != k
      ensures (id in t <==> id in u) && (id in t ==> t[id] == u[id])
    {
      assert id in t <==> id in t - {k};
      assert id in u <==> id in u - {k};
      if id in t {
        assert t[id] == (t - {k})[id];
      }
      if id in u {
        assert u[id] == (u - {k})[id];
      }
    }
  }

  /** A change at one fixed id that leaves there the old entry or the job
      that belongs there keeps the one-shot jobs and a well-formed table. */
  lemma AgreeKeepsTable(t: map<string, Job>, u: map<string, Job>, k: string, w: Work)
    requires AgreeExcept(t, u, k)
    requires || (k == AUTOBACKUP_ID && w == PeriodicBackup)
             || (k == MILESTONE_ID && w == PeriodicMilestone)
             || (k == SHUTDOWN_ID && w == DailyShutdown)
    requires k in u ==> u[k].work == w || (k in t && u[k] == t[k])
    ensures SameOneShots(t, u)
    ensures WellFormedTable(t) ==> WellFormedTable(u)
  {
  }

  /** Two tables agree on every id but `k`. */
  ghost predicate AgreeExcept(t: map<string, Job>, u: map<string, Job>, k: string) {
    forall id :: id != k ==> (id in t <==> id in u) && (id in t ==> t[id] == u[id])
  }

  lemma AddAgrees(t: map<string, Job>, k: string, j: Job)
    ensures AgreeExcept(t, t[k := j], k)
  {
  }

  lemma DropAgrees(t: map<string, Job>, k: string)
    ensures AgreeExcept(t, t - {k}, k)
  {
  }

  /** Toggling autobackup touches the table only at its own id, and what it
      leaves there is the old entry or a periodic backup. */
  lemma ToggleAutobackupTable(s: State)
    ensures var t := ToggleAutobackupJob(s).state.tasks;
            && AgreeExcept(s.tasks, t, AUTOBACKUP_ID)
            && (AUTOBACKUP_ID in t ==> t[AUTOBACKUP_ID].work == PeriodicBackup
                                       || (AUTOBACKUP_ID in s.tasks && t[AUTOBACKUP_ID] == s.tasks[AUTOBACKUP_ID]))
  {
    match Config.GetBool(s.config, Config.SERVER, "IsAutoBackupEnabled")
    case Err(_) =>
    case Ok(current) =>
      match Config.Set(s.config, Config.SERVER, "IsAutoBackupEnabled", Config.BoolText(!current))
      case Err(_) =>
      case Ok(cfg) =>
        var s1 := s.(config := cfg);
        if !current {
          if AUTOBACKUP_ID !in s1.tasks && AutobackupMinutes(s1.config).Some? {
            AddAgrees(s.tasks, AUTOBACKUP_ID, Job(EveryMinutes(AutobackupMinutes(s1.config).value), PeriodicBackup));
          }
        } else {
          DropAgrees(s.tasks, AUTOBACKUP_ID);
        }
  }

  /** Toggling milestone backups touches the table only at its own id. */
  lemma ToggleMilestoneTable(s: State)
    ensures var t := ToggleMilestoneJob(s).state.tasks;
            && AgreeExcept(s.tasks, t, MILESTONE_ID)
            && (MILESTONE_ID in t ==> t[MILESTONE_ID].work == PeriodicMilestone
                                      || (MILESTONE_ID in s.tasks && t[MILESTONE_ID] == s.tasks[MILESTONE_ID]))
  {
    match Config.GetBool(s.config, Config.SERVER, "IsMilestoneBackupEnabled")
    case Err(_) =>
    case Ok(current) =>
      match Config.Set(s.config, Config.SERVER, "IsMilestoneBackupEnabled", Config.BoolText(!current))
      case Err(_) =>
      case Ok(cfg) =>
        var s1 := s.(config := cfg);
        if !current {
          var n := Config.GetInt(s1.config, Config.SERVER, "milestonebackupinterval", Some(1440));
          if MILESTONE_ID !in s1.tasks && n.Ok? {
            AddAgrees(s.tasks, MILESTONE_ID, Job(EveryMinutes(n.value), PeriodicMilestone));
          }
        } else {
          DropAgrees(s.tasks, MILESTONE_ID);
        }
  }

  /** A handler touches the table only at the fixed ids, and keeps it well formed. */
  lemma PerformKeepsOneShots(s: State, a: Action, args: seq<string>, env: Env)
    ensures SameOneShots(s.tasks, Perform(s, a, args, env).state.tasks)
    ensures WellFormedTable(s.tasks) ==> WellFormedTable(Perform(s, a, args, env).state.tasks)
  {
    var t := Perform(s, a, args, env).state.tasks;
    if Accepts(a, |args|) {
      match a
      case ToggleAutobackup =>
        ToggleAutobackupTable(s);
        AgreeKeepsTable(s.tasks, t, AUTOBACKUP_ID, PeriodicBackup);
      case ToggleMilestone =>
        ToggleMilestoneTable(s);
        AgreeKeepsTable(s.tasks, t, MILESTONE_ID, PeriodicMilestone);
      case SetShutdownTime =>
        SameOutsideKey(s.tasks, t, SHUTDOWN_ID);
        AgreeKeepsTable(s.tasks, t, SHUTDOWN_ID, DailyShutdown);
      case ToggleAutoShutdown =>
        SameOutsideKey(s.tasks, t, SHUTDOWN_ID);
        AgreeKeepsTable(s.tasks, t, SHUTDOWN_ID, DailyShutdown);
      case _ =>
        PerformLeavesTable(s, a, args, env);
    }
  }

  /** Every handler but the four settings handlers leaves the table alone. */
  lemma PerformLeavesTable(s: State, a: Action, args: seq<string>, env: Env)
    requires a !in {ToggleAutobackup, ToggleMilestone, SetShutdownTime, ToggleAutoShutdown}
    ensures Perform(s, a, args, env).state.tasks == s.tasks
  {
    if Accepts(a, |args|) {
      match a
      case LoadRegular =>
      case LoadMilestone =>
      case Backup =>
      case MilestoneBackup =>
      case _ =>
    }
  }

  /** Filing a one-shot job under an id of its own keeps a table well formed. */
  lemma FileKeepsTable(t: map<string, Job>, id: string, j: Job)
    requires WellFormedTable(t) && !IsFixedId(id) && IsOneShot(j.work)
    ensures WellFormedTable(t[id := j])
  {
  }

  /** Every command keeps the table well formed. */
  lemma DispatchKeepsTable(s: State, c: Command, env: Env)
    requires WellFormedTable(s.tasks)
    ensures WellFormedTable(Dispatch(s, c, env).state.tasks)
  {
    match c
    case Defer(command, delay, args) =>
      if Schedulable(command) {
        OneShotIdsAreNotFixed(command, env.now, 0);
        FileKeepsTable(s.tasks, TaskId(command, env.now), Job(EveryMinutes(delay), RunCommand(command, args)));
      }
    case Run(a, args) =>
      PerformKeepsOneShots(s, a, args, env);
    case ScheduleStop(minutes) =>
      OneShotIdsAreNotFixed("sqa", env.now, minutes);
      FileKeepsTable(s.tasks, StopId(minutes), Job(EveryMinutes(minutes), StopAllLater));
    case WarnAndStop(minutes) =>
      OneShotIdsAreNotFixed("sqa", env.now, minutes);
      FileKeepsTable(s.tasks, StopId(minutes), Job(EveryMinutes(minutes), StopAllLater));
    case RemoveTask(id) =>
      RemoveKeepsTable(s.tasks, id);
    case _ =>
  }

  /** The work of a one-shot job keeps the table well formed. */
  lemma ScheduledKeepsTable(s: State, command: string, args: seq<string>, env: Env)
    requires WellFormedTable(s.tasks)
    ensures WellFormedTable(ScheduledExecution(s, command, args, env).state.tasks)
  {
    if CommandMap(command).Some? {
      PerformKeepsOneShots(s, CommandMap(command).value, args, env);
    }
  }

  /** Dropping an entry keeps a table well formed. */
  lemma RemoveKeepsTable(t: map<string, Job>, id: string)
    requires WellFormedTable(t)
    ensures WellFormedTable(t - {id})
  {
  }

  /** What a job firing may touch: the recurring jobs leave the table alone,
      `sqa` later removes its own entry, and only a command or a milestone
      backup can raise. */
  lemma FireScope(s: State, id: string, env: Env)
    requires id in s.tasks
    ensures !IsOneShot(s.tasks[id].work) ==> Fire(s, id, env).state.tasks == s.tasks
    ensures s.tasks[id].work.StopAllLater? ==> !Fire(s, id, env).raised && Fire(s, id, env).state.tasks == s.tasks - {id}
    ensures Fire(s, id, env).raised ==> s.tasks[id].work.RunCommand? || s.tasks[id].work.PeriodicMilestone?
  {
    match s.tasks[id].work
    case RunCommand(_, _) =>
    case StopAllLater =>
    case PeriodicBackup =>
    case PeriodicMilestone =>
    case DailyShutdown =>
  }

  /** Every job firing keeps the table well formed. */
  lemma FireKeepsTable(s: State, id: string, env: Env)
    requires id in s.tasks && WellFormedTable(s.tasks)
    ensures WellFormedTable(Fire(s, id, env).state.tasks)
  {
    match s.tasks[id].work
    case RunCommand(command, args) =>
      var o := ScheduledExecution(s, command, args, env);
      ScheduledKeepsTable(s, command, args, env);
      RemoveKeepsTable(o.state.tasks, id);
    case StopAllLater =>
      RemoveKeepsTable(StopAllScripts(s, env).tasks, id);
    case PeriodicBackup =>
    case PeriodicMilestone =>
    case DailyShutdown =>
  }

  /** A one-shot job that does not raise removes its own entry and no other,
      provided its work is not one of the table-changing handlers. */
  lemma OneShotRemovesItself(s: State, id: string, env: Env)
    requires id in s.tasks && IsOneShot(s.tasks[id].work)
    requires s.tasks[id].work.RunCommand? && CommandMap(s.tasks[id].work.command).Some? ==>
               CommandMap(s.tasks[id].work.command).value !in {ToggleAutobackup, ToggleMilestone, SetShutdownTime, ToggleAutoShutdown}
    ensures !Fire(s, id, env).raised ==> Fire(s, id, env).state.tasks == s.tasks - {id}
    ensures Fire(s, id, env).raised ==> Fire(s, id, env).state.tasks == s.tasks
  {
    match s.tasks[id].work
    case RunCommand(command, args) =>
      if CommandMap(command).Some? {
        PerformLeavesTable(s, CommandMap(command).value, args, env);
      }
    case StopAllLater =>
  }

  /** Any one-shot job, the table-changing handlers included: when it
      completes its own entry is gone, and whether or not it raises every
      other one-shot entry is as it was. Only the fixed ids can change. */
  lemma OneShotRemovesOnlyItself(s: State, id: string, env: Env)
    requires id in s.tasks && IsOneShot(s.tasks[id].work)
    ensures !Fire(s, id, env).raised ==>
              id !in Fire(s, id, env).state.tasks && SameOneShots(s.tasks - {id}, Fire(s, id, env).state.tasks)
    ensures Fire(s, id, env).raised ==> SameOneShots(s.tasks, Fire(s, id, env).state.tasks)
  {
    match s.tasks[id].work
    case RunCommand(command, args) =>
      if CommandMap(command).Some? {
        PerformKeepsOneShots(s, CommandMap(command).value, args, env);
      }
    case StopAllLater =>
  }

  /** A blank line, or one that matches nothing, returns False and changes nothing. */
  lemma BlankOrUnknownChangesNothing(s: State, line: string, env: Env)
    requires Parse(Split(line)) == Empty || Parse(Split(line)) == Unknown
    ensures Handle(s, line, env) == Handled(s, Returned(false))
  {
  }

  /** `start_all` and `stop_all` run their second script only when the first succeeded. */
  lemma StartAllShortCircuits(s: State, env: Env)
    ensures var r := Perform(s, StartAll, [], env);
            && !r.raised
            && r.state == s.(effects := r.state.effects)
            && r.state.effects == s.effects + [RanScript(StartTunnelScript, env.run(StartTunnelScript))]
                                  + (if env.run(StartTunnelScript) then [RanScript(StartMcScript, env.run(StartMcScript))] else [])
  {
  }

  lemma StopAllShortCircuits(s: State, env: Env)
    ensures var r := Perform(s, StopAll, [], env);
            && !r.raised
            && r.state == s.(effects := r.state.effects)
            && r.state.effects == s.effects + [RanScript(StopMcScript, env.run(StopMcScript))]
                                  + (if env.run(StopMcScript) then [RanScript(StopTunnelScript, env.run(StopTunnelScript))] else [])
  {
  }

  /** `rs <id>` removes the entry when present and changes nothing when absent. */
  lemma RemoveTaskEffect(s: State, id: string, env: Env)
    ensures var h := Dispatch(s, RemoveTask(id), env);
            && h.reply == Returned(true)
            && (id in s.tasks ==> h.state.tasks == s.tasks - {id} && |h.state.tasks| == |s.tasks| - 1)
            && (id !in s.tasks ==> h.state == s)
  {
    if id !in s.tasks {
      assert s.tasks - {id} == s.tasks;
    }
  }

  /** The autobackup flag and the autobackup job agree. */
  predicate AutobackupInStep(s: State) {
    && Config.SERVER in s.config.sections
    && Config.GetBool(s.config, Config.SERVER, "IsAutoBackupEnabled").Ok?
    && (AUTOBACKUP_ID in s.tasks <==> Config.GetBool(s.config, Config.SERVER, "IsAutoBackupEnabled").value)
  }

  /** Toggling autobackup flips the flag and keeps the job in step with it. */
  lemma ToggleAutobackupInStep(s: State)
    requires AutobackupInStep(s)
    requires AutobackupMinutes(s.config).Some?
    ensures var o := ToggleAutobackupJob(s);
            && !o.raised && AutobackupInStep(o.state)
            && Config.GetBool(o.state.config, Config.SERVER, "IsAutoBackupEnabled")
               == Ok(!Config.GetBool(s.config, Config.SERVER, "IsAutoBackupEnabled").value)
            && o.state.tasks - {AUTOBACKUP_ID} == s.tasks - {AUTOBACKUP_ID}
  {
    var b := Config.GetBool(s.config, Config.SERVER, "IsAutoBackupEnabled").value;
    var cfg := Config.Set(s.config, Config.SERVER, "IsAutoBackupEnabled", Config.BoolText(!b)).value;
    Config.SetFlagThenRead(s.config, "IsAutoBackupEnabled", !b);
    IntervalUnchanged(s.config, "IsAutoBackupEnabled", Config.BoolText(!b));
  }

  /** Writing a flag leaves the interval option where it was. */
  lemma IntervalUnchanged(cfg: Config.Store, option: string, value: string)
    requires Config.SERVER in cfg.sections
    requires Lower(option) != Lower("autobackupinterval")
    ensures AutobackupMinutes(Config.Set(cfg, Config.SERVER, option, value).value) == AutobackupMinutes(cfg)
  {
    Config.SetChangesOnlyItsOption(cfg, option, value, Config.SERVER, "autobackupinterval");
  }

  /** Toggling autobackup twice gives back the table and the flag's reading. */
  lemma ToggleAutobackupTwice(s: State)
    requires AutobackupInStep(s)
    requires AutobackupMinutes(s.config).Some?
    ensures var o1 := ToggleAutobackupJob(s);
            var o2 := ToggleAutobackupJob(o1.state);
            && !o1.raised && !o2.raised
            && o2.state.tasks - {AUTOBACKUP_ID} == s.tasks - {AUTOBACKUP_ID}
            && (AUTOBACKUP_ID in o2.state.tasks <==> AUTOBACKUP_ID in s.tasks)
            && Config.GetBool(o2.state.config, Config.SERVER, "IsAutoBackupEnabled")
               == Config.GetBool(s.config, Config.SERVER, "IsAutoBackupEnabled")
  {
    ToggleAutobackupInStep(s);
    var o1 := ToggleAutobackupJob(s);
    var b := Config.GetBool(s.config, Config.SERVER, "IsAutoBackupEnabled").value;
    IntervalUnchanged(s.config, "IsAutoBackupEnabled", Config.BoolText(!b));
    ToggleAutobackupInStep(o1.state);
  }

  /** The milestone flag and the milestone job agree. */
  predicate MilestoneInStep(s: State) {
    && Config.SERVER in s.config.sections
    && Config.GetBool(s.config, Config.SERVER, "IsMilestoneBackupEnabled").Ok?
    && (MILESTONE_ID in s.tasks <==> Config.GetBool(s.config, Config.SERVER, "IsMilestoneBackupEnabled").value)
  }

  /** Toggling milestone backups flips the flag and keeps the job in step with it. */
  lemma ToggleMilestoneInStep(s: State)
    requires MilestoneInStep(s)
    requires Config.GetInt(s.config, Config.SERVER, "milestonebackupinterval", Some(1440)).Ok?
    ensures var o := ToggleMilestoneJob(s);
            && !o.raised && MilestoneInStep(o.state)
            && Config.GetBool(o.state.config, Config.SERVER, "IsMilestoneBackupEnabled")
               == Ok(!Config.GetBool(s.config, Config.SERVER, "IsMilestoneBackupEnabled").value)
            && o.state.tasks - {MILESTONE_ID} == s.tasks - {MILESTONE_ID}
  {
    var b := Config.GetBool(s.config, Config.SERVER, "IsMilestoneBackupEnabled").value;
    Config.SetFlagThenRead(s.config, "IsMilestoneBackupEnabled", !b);
    MilestoneIntervalUnchanged(s.config, "IsMilestoneBackupEnabled", Config.BoolText(!b));
  }

  /** Writing a flag leaves the milestone interval where it was. */
  lemma MilestoneIntervalUnchanged(cfg: Config.Store, option: string, value: string)
    requires Config.SERVER in cfg.sections
    requires Lower(option) != Lower("milestonebackupinterval")
    ensures Config.GetInt(Config.Set(cfg, Config.SERVER, option, value).value, Config.SERVER, "milestonebackupinterval", Some(1440))
            == Config.GetInt(cfg, Config.SERVER, "milestonebackupinterval", Some(1440))
  {
    Config.SetChangesOnlyItsOption(cfg, option, value, Config.SERVER, "milestonebackupinterval");
  }

  /** Toggling milestone backups twice gives back the table and the flag's reading. */
  lemma ToggleMilestoneTwice(s: State)
    requires MilestoneInStep(s)
    requires Config.GetInt(s.config, Config.SERVER, "milestonebackupinterval", Some(1440)).Ok?
    ensures var o1 := ToggleMilestoneJob(s);
            var o2 := ToggleMilestoneJob(o1.state);
            && !o1.raised && !o2.raised
            && o2.state.tasks - {MILESTONE_ID} == s.tasks - {MILESTONE_ID}
            && (MILESTONE_ID in o2.state.tasks <==> MILESTONE_ID in s.tasks)
            && Config.GetBool(o2.state.config, Config.SERVER, "IsMilestoneBackupEnabled")
               == Config.GetBool(s.config, Config.SERVER, "IsMilestoneBackupEnabled")
  {
    ToggleMilestoneInStep(s);
    var o1 := ToggleMilestoneJob(s);
    var b := Config.GetBool(s.config, Config.SERVER, "IsMilestoneBackupEnabled").value;
    MilestoneIntervalUnchanged(s.config, "IsMilestoneBackupEnabled", Config.BoolText(!b));
    ToggleMilestoneInStep(o1.state);
  }

  /** Auto-shutdown: the daily job is there exactly when the setting is on,
      before and after any toggle or time change. */
  lemma ShutdownJobFollowsSetting(s: State, env: Env, time: string)
    requires SHUTDOWN_ID in s.tasks <==> s.shutdownEnabled
    ensures var r := ToggleAutoShutdownJob(s); SHUTDOWN_ID in r.tasks <==> r.shutdownEnabled
    ensures var r := SetShutdownTimeJob(s, env, time); SHUTDOWN_ID in r.tasks <==> r.shutdownEnabled
  {
  }

  /** `exit` stops the thread flag and leaves the table alone. */
  lemma ExitStopsThread(s: State, env: Env)
    ensures Dispatch(s, Exit, env) == Handled(s.(running := false), Exited)
  {
  }

  /** The deferred form of a key, once fired, does what typing the key does,
      and then removes its entry. */
  lemma DeferredFiresLikeTyped(s: State, parts: seq<string>, a: Action, env: Env, id: string)
    requires IsWords(parts) && IsDeferred(parts)
    requires CommandMap(Join(Prefix(parts))) == Some(a)
    requires id in s.tasks && s.tasks[id].work == RunCommand(Join(Prefix(parts)), DeferredArgs(parts))
    ensures var typed := Dispatch(s, Parse(Prefix(parts)), env);
            var fired := Fire(s, id, env);
            && (typed.reply == Returned(false) <==> fired.raised)
            && (fired.raised ==> fired.state == typed.state)
            && (!fired.raised ==> fired.state == typed.state.(tasks := typed.state.tasks - {id}))
  {
    DeferredRunsLikeImmediate(parts, a);
  }

  /** As written, the deferred `backup -m -s <n>` files a job whose firing
      raises TypeError before its clean-up, so the entry is never removed
      and the exception leaves the job. */
  lemma FlagArgumentJobNeverCompletes(s: State, id: string, env: Env)
    requires id in s.tasks && s.tasks[id].work == RunCommand("backup -m", ["-m"])
    ensures Fire(s, id, env) == Outcome(s, true)
  {
    assert CommandMap("backup -m") == Some(MilestoneBackup);
  }

  /** As written, `load_backup` with no config.ini above the manager's
      directory restores under /home/miro/Desktop/Fabric, whatever root the
      manager's config names: the configured server's world is left as it
      is. */
  lemma LoadIgnoresManagerRoot(s: State, env: Env, subdir: string)
    requires s.loaderConfig.None?
    requires ServerRoot(s).Ok?
    requires PathJoin(ServerRoot(s).value, "world") != PathJoin("/home/miro/Desktop/Fabric", "world")
    ensures !LoadBackup(s, env, subdir).raised
    ensures var world := PathJoin(ServerRoot(s).value, "world");
            Backups.World(LoadBackup(s, env, subdir).state.disk, world) == Backups.World(s.disk, world)
  {
    Config.DefaultServerRoot();
  }

  /** Corrected: a backup taken through the manager's config and restored
      through the same config brings back the world as it was backed up,
      whatever happened to the world in between, given that the backup went
      through and its name sorts after the older entries (as timestamps
      taken later do). */
  lemma BackupThenLoadRestores(s: State, env: Env, later: Env, played: Backups.Node)
    requires ServerRoot(s).Ok? && MaxBackups(s.config).Ok? && MaxBackups(s.config).value >= 1
    requires env.copyOk && later.copyOk && played.Folder?
    requires var root := ServerRoot(s).value;
             var dir := PathJoin(root, "backups");
             var name := Backups.BACKUP_PREFIX + Format(env.now);
             && (dir in s.disk.dirs ==> Backups.DistinctNames(s.disk.dirs[dir]))
             && (forall n :: n in Backups.Names(Backups.Makedirs(s.disk, dir).dirs[dir]) ==> LexLess(n, name))
             && Backups.Backup(s.disk, PathJoin(root, "world"), dir, MaxBackups(s.config).value, name, true).ok
    ensures var world := PathJoin(ServerRoot(s).value, "world");
            var b := BackupRun(s, env);
            var t := b.(disk := b.disk.(worlds := b.disk.worlds[world := played]));
            var o := LoadBackupIntended(t, later, "backups");
            && !o.raised
            && Backups.World(o.state.disk, world) == Backups.World(s.disk, world)
  {
    var root := ServerRoot(s).value;
    var world := PathJoin(root, "world");
    var b := BackupRun(s, env);
    var e := b.disk.(worlds := b.disk.worlds[world := played]);
    assert Backups.World(e, world) == Some(played);
    Backups.BackupThenLoad(s.disk, world, PathJoin(root, "backups"), MaxBackups(s.config).value,
                           Backups.BACKUP_PREFIX + Format(env.now), e);
  }

  /** Nothing typed after an exiting line is looked at. */
  lemma {:induction false} SessionStopsAtExit(s: State, lines: seq<string>, envs: seq<Env>,
                                              more: seq<string>, moreEnvs: seq<Env>,
                                              step: (State, string, Env) -> Handled)
    requires |envs| == |lines| && |moreEnvs| == |more|
    requires Session(s, lines, envs, step).exited
    ensures Session(s, lines + more, envs + moreEnvs, step) == Session(s, lines, envs, step)
    decreases |lines|
  {
    assert (lines + more)[0] == lines[0] && (envs + moreEnvs)[0] == envs[0];
    var h := step(s, lines[0], envs[0]);
    if h.reply != Exited {
      assert (lines + more)[1..] == lines[1..] + more;
      assert (envs + moreEnvs)[1..] == envs[1..] + moreEnvs;
      SessionStopsAtExit(h.state, lines[1..], envs[1..], more, moreEnvs, step);
    }
  }

  /** Lines typed after `exit` are never read. */
  lemma ConsoleStopsAtExit(s: State, lines: seq<string>, envs: seq<Env>, more: seq<string>, moreEnvs: seq<Env>)
    requires |envs| == |lines| && |moreEnvs| == |more|
    requires Console(s, lines, envs).exited
    ensures Console(s, lines + more, envs + moreEnvs) == Console(s, lines, envs)
  {
    SessionStopsAtExit(s, lines, envs, more, moreEnvs, Handle);
  }

  /** A session that ends at `exit` leaves the running flag down. */
  lemma {:induction false} ExitLowersFlag(s: State, lines: seq<string>, envs: seq<Env>)
    requires |envs| == |lines|
    requires Console(s, lines, envs).exited
    ensures !Console(s, lines, envs).state.running
    decreases |lines|
  {
    var h := Handle(s, lines[0], envs[0]);
    ConsoleStep(s, lines, envs, h);
    if h.reply != Exited {
      ExitLowersFlag(h.state, lines[1..], envs[1..]);
    }
  }

}
