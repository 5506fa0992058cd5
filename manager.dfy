/**
 * manager.py `MinecraftServerManager`: the console object. Its fields are the
 * job table, the auto-shutdown settings, the thread flag and the effects seen
 * so far, and what the config file above its directory holds (the one the
 * module-level `load_latest_backup` opens); it owns a `ConfigManager` and
 * the server's files. Every method is
 * proved to move `Snapshot()` exactly as the matching transition of `Jobs`
 * does, so the properties proved there hold of the object.
 */
module Manager {
  import opened Wrappers
  import opened Text
  import opened Commands
  import opened Jobs
  import Config
  import Backups

  class ServerManager {
    var tasks: map<string, Job>
    var shutdownEnabled: bool
    var shutdownTime: string
    var running: bool
    var effects: seq<Effect>
    var loaderConfig: Option<Config.Store>
    const config: Config.ConfigManager
    const files: Backups.ServerFiles

    function Snapshot(): State
      reads this, config, files
    {
      State(tasks, config.config, loaderConfig, shutdownEnabled, shutdownTime, files.Contents(), running, effects)
    }

    /** `__init__`: an empty table and no thread. `stored` is the parsed
        config file, if there is one; `loaderStored` the one above the
        manager's directory. */
    constructor (stored: Option<Config.Store>, loaderStored: Option<Config.Store>, disk: Backups.Disk,
                 autoShutdown: bool, autoShutdownTime: string)
      ensures fresh(config) && fresh(files)
      ensures Snapshot() == State(map[], if stored.Some? then stored.value else Config.DefaultStore(), loaderStored,
                                  autoShutdown, autoShutdownTime, disk, false, [])
    {
      tasks := map[];
      shutdownEnabled := autoShutdown;
      shutdownTime := autoShutdownTime;
      running := false;
      effects := [];
      loaderConfig := loaderStored;
      config := new Config.ConfigManager(stored);
      files := new Backups.ServerFiles(disk);
    }

    method RunScript(script: Script, env: Env) returns (ok: bool)
      modifies this
      ensures ok == env.run(script)
      ensures Snapshot() == One(old(Snapshot()), env, script)
    {
      ok := env.run(script);
      effects := effects + [RanScript(script, ok)];
    }

    method RunBoth(first: Script, second: Script, env: Env)
      modifies this
      ensures Snapshot() == Both(old(Snapshot()), env, first, second)
    {
      var ok := RunScript(first, env);
      if ok {
        ok := RunScript(second, env);
      }
    }

    method SendServerMessage(text: string, env: Env) returns (ok: bool)
      modifies this
      ensures ok == env.send(text)
      ensures Snapshot() == Message(old(Snapshot()), env, text)
    {
      ok := env.send(text);
      effects := effects + [Messaged(text, ok)];
    }

    method MilestoneBackup(env: Env) returns (raised: bool)
      modifies files
      ensures Outcome(Snapshot(), raised) == Milestone(old(Snapshot()), env)
    {
      var ok := files.MilestoneBackup(config, env.now, env.copyOk);
      raised := !ok;
    }

    /** `backup()`: runs scripts/backup.py against the manager's config. */
    method RunBackupScript(env: Env)
      modifies this, files
      ensures Snapshot() == BackupRun(old(Snapshot()), env)
    {
      var r := files.CreateBackup(config, env.now, env.copyOk);
      effects := effects + [RanScript(BackupScript, r.Ok?)];
    }

    /** `load_backup`, through manager.py's own `load_latest_backup`, which
        opens the config file above the manager's directory. */
    method LoadBackup(subdir: string, env: Env) returns (raised: bool)
      modifies this, files
      ensures Outcome(Snapshot(), raised) == Jobs.LoadBackup(old(Snapshot()), env, subdir)
    {
      var cm := new Config.ConfigManager(loaderConfig);
      loaderConfig := Some(cm.config);
      var r, stopped := files.LoadLatestBackup(cm, subdir, env.copyOk);
      if stopped {
        effects := effects + [StopRequested];
      }
      raised := r.Err?;
    }

    method StartScheduleThread()
      modifies this
      ensures Snapshot() == StartThread(old(Snapshot()))
    {
      if !running {
        running := true;
      }
    }

    method StartAutobackup() returns (raised: bool)
      modifies this
      ensures Outcome(Snapshot(), raised) == Jobs.StartAutobackup(old(Snapshot()))
    {
      if AUTOBACKUP_ID in tasks {
        return false;
      }
      var text := config.Lookup(Config.SERVER, "autobackupinterval", None);
      var minutes := if text.Some? then Config.ParseInt(text.value) else Some(60);
      if minutes.None? {
        return true;
      }
      tasks := tasks[AUTOBACKUP_ID := Job(EveryMinutes(minutes.value), PeriodicBackup)];
      StartScheduleThread();
      raised := false;
    }

    method StopAutobackup()
      modifies this
      ensures Snapshot() == Jobs.StopAutobackup(old(Snapshot()))
    {
      if AUTOBACKUP_ID in tasks {
        tasks := tasks - {AUTOBACKUP_ID};
      }
    }

    method ToggleAutobackup() returns (raised: bool)
      modifies this, config
      ensures Outcome(Snapshot(), raised) == ToggleAutobackupJob(old(Snapshot()))
    {
      var current := config.IsAutobackupEnabled();
      if current.Err? {
        return true;
      }
      var ok := config.SetAutobackup(!current.value);
      if !ok {
        return true;
      }
      if !current.value {
        raised := StartAutobackup();
      } else {
        StopAutobackup();
        raised := false;
      }
    }

    method StartMilestoneBackup() returns (raised: bool)
      modifies this
      ensures Outcome(Snapshot(), raised) == StartMilestone(old(Snapshot()))
    {
      if MILESTONE_ID in tasks {
        return false;
      }
      var minutes := config.MilestoneBackupInterval();
      if minutes.Err? {
        return true;
      }
      tasks := tasks[MILESTONE_ID := Job(EveryMinutes(minutes.value), PeriodicMilestone)];
      StartScheduleThread();
      raised := false;
    }

    method StopMilestoneBackup()
      modifies this
      ensures Snapshot() == StopMilestone(old(Snapshot()))
    {
      if MILESTONE_ID in tasks {
        tasks := tasks - {MILESTONE_ID};
      }
    }

    method ToggleMilestoneBackup() returns (raised: bool)
      modifies this, config
      ensures Outcome(Snapshot(), raised) == ToggleMilestoneJob(old(Snapshot()))
    {
      var current := config.IsMilestoneBackupEnabled();
      if current.Err? {
        return true;
      }
      var ok := config.SetMilestoneBackup(!current.value);
      if !ok {
        return true;
      }
      if !current.value {
        raised := StartMilestoneBackup();
      } else {
        StopMilestoneBackup();
        raised := false;
      }
    }

    method ScheduleAutoShutdown()
      modifies this
      ensures Snapshot() == Jobs.ScheduleAutoShutdown(old(Snapshot()))
    {
      if SHUTDOWN_ID in tasks {
        tasks := tasks - {SHUTDOWN_ID};
      }
      if !shutdownEnabled {
        return;
      }
      tasks := tasks[SHUTDOWN_ID := Job(DailyAt(shutdownTime), DailyShutdown)];
      StartScheduleThread();
    }

    method ToggleAutoShutdown()
      modifies this
      ensures Snapshot() == ToggleAutoShutdownJob(old(Snapshot()))
    {
      shutdownEnabled := !shutdownEnabled;
      if shutdownEnabled {
        ScheduleAutoShutdown();
      } else if SHUTDOWN_ID in tasks {
        tasks := tasks - {SHUTDOWN_ID};
      }
    }

    method SetShutdownTime(time: string, env: Env) returns (ok: bool)
      modifies this
      ensures ok == env.validTime(time)
      ensures Snapshot() == SetShutdownTimeJob(old(Snapshot()), env, time)
    {
      ok := env.validTime(time);
      if ok {
        shutdownTime := time;
        if shutdownEnabled {
          ScheduleAutoShutdown();
        }
      }
    }

    /** Calling a `command_map` handler with `args`. */
    method Perform(a: Action, args: seq<string>, env: Env) returns (raised: bool)
      modifies this, config, files
      ensures Outcome(Snapshot(), raised) == Jobs.Perform(old(Snapshot()), a, args, env)
    {
      if !Accepts(a, |args|) {
        return true;
      }
      raised := false;
      match a
      case Backup =>
        if |args| == 0 {
          RunBackupScript(env);
        } else {
          raised := MilestoneBackup(env);
        }
      case MilestoneBackup => raised := MilestoneBackup(env);
      case LoadRegular => raised := LoadBackup("backups", env);
      case LoadMilestone => raised := LoadBackup("milestone_backups", env);
      case ShowLog => raised := config.ServerRoot().Err?;
      case ToggleAutobackup => raised := ToggleAutobackup();
      case ToggleMilestone => raised := ToggleMilestoneBackup();
      case SetShutdownTime => var _ := SetShutdownTime(args[0], env);
      case ToggleAutoShutdown => ToggleAutoShutdown();
      case _ => RunScripts(a, args, env);
    }

    /** The handlers that only run helper scripts. */
    method RunScripts(a: Action, args: seq<string>, env: Env)
      requires Accepts(a, |args|)
      requires a in {StartAll, StopAll, RestartAll, StartMc, StopMc, RestartMc, StartTunnel, StopTunnel, RestartTunnel}
      modifies this
      ensures Outcome(Snapshot(), false) == Jobs.Perform(old(Snapshot()), a, args, env)
    {
      match a
      case StartAll => RunBoth(StartTunnelScript, StartMcScript, env);
      case StopAll => RunBoth(StopMcScript, StopTunnelScript, env);
      case RestartAll =>
        RunBoth(StopMcScript, StopTunnelScript, env);
        RunBoth(StartTunnelScript, StartMcScript, env);
      case StartMc => var _ := RunScript(StartMcScript, env);
      case StopMc => var _ := RunScript(StopMcScript, env);
      case RestartMc =>
        var _ := RunScript(StopMcScript, env);
        var _ := RunScript(StartMcScript, env);
      case StartTunnel => var _ := RunScript(StartTunnelScript, env);
      case StopTunnel => var _ := RunScript(StopTunnelScript, env);
      case RestartTunnel =>
        var _ := RunScript(StopTunnelScript, env);
        var _ := RunScript(StartTunnelScript, env);
    }

    method ScheduleCommand(command: string, delay: int, args: seq<string>, env: Env) returns (accepted: bool)
      modifies this
      ensures Scheduled(Snapshot(), accepted) == Jobs.ScheduleCommand(old(Snapshot()), command, delay, args, env.now)
    {
      if !Schedulable(command) {
        return false;
      }
      tasks := tasks[TaskId(command, env.now) := Job(EveryMinutes(delay), RunCommand(command, args))];
      StartScheduleThread();
      accepted := true;
    }

    method ScheduleStopAll(minutes: nat)
      modifies this
      ensures Snapshot() == Jobs.ScheduleStopAll(old(Snapshot()), minutes)
    {
      tasks := tasks[StopId(minutes) := Job(EveryMinutes(minutes), StopAllLater)];
      StartScheduleThread();
    }

    method WarnAndScheduleStopAll(minutes: nat, env: Env)
      modifies this
      ensures Snapshot() == Jobs.WarnAndScheduleStopAll(old(Snapshot()), env, minutes)
    {
      var _ := SendServerMessage(WarningText(minutes), env);
      ScheduleStopAll(minutes);
    }

    /** `handle_command`. */
    method HandleCommand(line: string, env: Env) returns (reply: Reply)
      modifies this, config, files
      ensures Handled(Snapshot(), reply) == Handle(old(Snapshot()), line, env)
    {
      reply := DispatchCommand(ParseAsWritten(Split(line)), env);
    }

    /** `handle_command` after the parse. */
    method DispatchCommand(c: Command, env: Env) returns (reply: Reply)
      modifies this, config, files
      ensures Handled(Snapshot(), reply) == Dispatch(old(Snapshot()), c, env)
    {
      match c
      case Defer(command, delay, args) =>
        var ok := ScheduleCommand(command, delay, args, env);
        reply := Returned(ok);
      case Run(a, args) =>
        var raised := Perform(a, args, env);
        reply := Returned(!raised);
      case _ =>
        reply := DispatchConsoleCommand(c, env);
    }

    /** The branches of `handle_command` that neither run a handler nor
        schedule one. */
    method DispatchConsoleCommand(c: Command, env: Env) returns (reply: Reply)
      requires !c.Defer? && !c.Run?
      modifies this
      ensures Handled(Snapshot(), reply) == Dispatch(old(Snapshot()), c, env)
    {
      match c
      case Empty => reply := Returned(false);
      case ScheduleStop(minutes) =>
        ScheduleStopAll(minutes);
        reply := Returned(true);
      case WarnAndStop(minutes) =>
        WarnAndScheduleStopAll(minutes, env);
        reply := Returned(true);
      case RemoveTask(id) =>
        if id in tasks {
          tasks := tasks - {id};
        }
        reply := Returned(true);
      case Say(message) =>
        var _ := SendServerMessage(message, env);
        reply := Returned(true);
      case ShowTasks => reply := Returned(true);
      case Help => reply := Returned(true);
      case Exit =>
        running := false;
        reply := Exited;
      case Unknown => reply := Returned(false);
    }

    /** `scheduled_execution` up to its clean-up. */
    method ScheduledExecution(command: string, args: seq<string>, env: Env) returns (raised: bool)
      modifies this, config, files
      ensures Outcome(Snapshot(), raised) == Jobs.ScheduledExecution(old(Snapshot()), command, args, env)
    {
      raised := false;
      if CommandMap(command).Some? {
        raised := Perform(CommandMap(command).value, args, env);
      } else if StartsWith(command, "s ") {
        var _ := SendServerMessage(Join(args), env);
      } else if command == "sqa" {
        RunBoth(StopMcScript, StopTunnelScript, env);
      }
    }

    /** `scheduled_execution` with its clean-up. */
    method FireOneShot(id: string, command: string, args: seq<string>, env: Env) returns (raised: bool)
      requires id in tasks && tasks[id].work == RunCommand(command, args)
      modifies this, config, files
      ensures Outcome(Snapshot(), raised) == Fire(old(Snapshot()), id, env)
    {
      raised := ScheduledExecution(command, args, env);
      if !raised {
        // `del` behind its `in` guard: dropping an absent id changes nothing
        tasks := tasks - {id};
      }
    }

    /** The scheduling thread running the job filed under `id`. */
    method FireJob(id: string, env: Env) returns (raised: bool)
      requires id in tasks
      modifies this, config, files
      ensures Outcome(Snapshot(), raised) == Fire(old(Snapshot()), id, env)
    {
      match tasks[id].work
      case RunCommand(command, args) =>
        raised := FireOneShot(id, command, args, env);
      case StopAllLater =>
        RunBoth(StopMcScript, StopTunnelScript, env);
        tasks := tasks - {id};
        raised := false;
      case _ =>
        raised := FireRecurring(id, env);
    }

    /** The three recurring jobs, which stay in the table. */
    method FireRecurring(id: string, env: Env) returns (raised: bool)
      requires id in tasks && !IsOneShot(tasks[id].work)
      modifies this, config, files
      ensures Outcome(Snapshot(), raised) == Fire(old(Snapshot()), id, env)
    {
      match tasks[id].work
      case PeriodicBackup =>
        RunBackupScript(env);
        raised := false;
      case PeriodicMilestone =>
        raised := MilestoneBackup(env);
      case DailyShutdown =>
        var _ := SendServerMessage("Server will automatically shut down in 5 minutes!", env);
        var _ := RunScript(StopMcScript, env);
        effects := effects + [PoweredOff];
        raised := false;
    }

    /** `main` before its loop. */
    method Startup() returns (raised: bool)
      modifies this
      ensures Outcome(Snapshot(), raised) == Jobs.Startup(old(Snapshot()))
    {
      var enabled := config.IsAutobackupEnabled();
      if enabled.Err? {
        return true;
      }
      raised := false;
      if enabled.value {
        raised := StartAutobackup();
      }
      if !raised && shutdownEnabled {
        ScheduleAutoShutdown();
      }
    }

    /** One turn of the console loop: `line`, the first of `rest`, is
        handled and the rest of the session continues from the new state. */
    method ConsoleTurn(line: string, env: Env, ghost rest: seq<string>, ghost restEnvs: seq<Env>) returns (reply: Reply)
      requires |restEnvs| == |rest| > 0 && rest[0] == line && restEnvs[0] == env
      modifies this, config, files
      ensures Console(old(Snapshot()), rest, restEnvs)
              == if reply == Exited then Ending(Snapshot(), true) else Console(Snapshot(), rest[1..], restEnvs[1..])
    {
      ghost var before := Snapshot();
      reply := HandleCommand(line, env);
      ConsoleStep(before, rest, restEnvs, Handled(Snapshot(), reply));
    }

    /** `main`'s loop: one console line after another until `exit`, over
        the lines typed and the environment each command meets. */
    method RunConsole(lines: seq<string>, envs: seq<Env>) returns (exited: bool)
      requires |envs| == |lines|
      modifies this, config, files
      ensures Ending(Snapshot(), exited) == Console(old(Snapshot()), lines, envs)
    {
      var i := 0;
      exited := false;
      while i < |lines|
        invariant 0 <= i <= |lines|
        invariant Console(old(Snapshot()), lines, envs) == Console(Snapshot(), lines[i..], envs[i..])
      {
        assert lines[i..][1..] == lines[i + 1..] && envs[i..][1..] == envs[i + 1..];
        var reply := ConsoleTurn(lines[i], envs[i], lines[i..], envs[i..]);
        if reply == Exited {
          return true;
        }
        i := i + 1;
      }
    }
  }
}
