/**
 * The console's command language (manager.py `handle_command` and
 * `command_map`): how a line typed at the prompt is cut into tokens and
 * which handler it reaches. The effect of each handler is in Jobs.
 */
module Commands {
  import opened Wrappers
  import opened Text

  /** The handlers of `command_map`, one per key. */
  datatype Action =
    | StartAll | StopAll | RestartAll
    | StartMc | StopMc | RestartMc
    | StartTunnel | StopTunnel | RestartTunnel
    | Backup | MilestoneBackup
    | LoadRegular | LoadMilestone
    | ShowLog
    | ToggleAutobackup | ToggleMilestone
    | SetShutdownTime | ToggleAutoShutdown

  /** The key each handler is registered under. */
  function Key(a: Action): string {
    match a
    case StartAll => "sa"
    case StopAll => "qa"
    case RestartAll => "ra"
    case StartMc => "smc"
    case StopMc => "qmc"
    case RestartMc => "rmc"
    case StartTunnel => "st"
    case StopTunnel => "qt"
    case RestartTunnel => "rt"
    case Backup => "backup"
    case MilestoneBackup => "backup -m"
    case LoadRegular => "load"
    case LoadMilestone => "load -m"
    case ShowLog => "log"
    case ToggleAutobackup => "auto"
    case ToggleMilestone => "auto -m"
    case SetShutdownTime => "sas"
    case ToggleAutoShutdown => "tas"
  }

  /** `command_map.get(key)`: an exact, case-sensitive lookup. */
  function CommandMap(key: string): (r: Option<Action>)
    ensures r.Some? ==> Key(r.value) == key
  {
    if key == "sa" then Some(StartAll)
    else if key == "qa" then Some(StopAll)
    else if key == "ra" then Some(RestartAll)
    else if key == "smc" then Some(StartMc)
    else if key == "qmc" then Some(StopMc)
    else if key == "rmc" then Some(RestartMc)
    else if key == "st" then Some(StartTunnel)
    else if key == "qt" then Some(StopTunnel)
    else if key == "rt" then Some(RestartTunnel)
    else if key == "backup" then Some(Backup)
    else if key == "backup -m" then Some(MilestoneBackup)
    else if key == "load" then Some(LoadRegular)
    else if key == "load -m" then Some(LoadMilestone)
    else if key == "log" then Some(ShowLog)
    else if key == "auto" then Some(ToggleAutobackup)
    else if key == "auto -m" then Some(ToggleMilestone)
    else if key == "sas" then Some(SetShutdownTime)
    else if key == "tas" then Some(ToggleAutoShutdown)
    else None
  }

  /** Every handler is reachable under its key, and under no other. */
  lemma KeyLookup(a: Action, key: string)
    ensures CommandMap(Key(a)) == Some(a)
    ensures CommandMap(key) == Some(a) <==> key == Key(a)
  {
  }

  /** Whether calling the handler with `n` extra positional arguments fits its
      signature: `backup(milestone=False)` takes one optional argument, the two
      `load_*_backup(*args)` take any number, `set_shutdown_time(time_str)`
      exactly one, and every other handler none. */
  predicate Accepts(a: Action, n: nat) {
    match a
    case Backup => n <= 1
    case LoadRegular => true
    case LoadMilestone => true
    case SetShutdownTime => n == 1
    case _ => n == 0
  }

  /** What a line asks for. */
  datatype Command =
    | Empty
    | Defer(command: string, delay: nat, args: seq<string>)
    | Run(action: Action, args: seq<string>)
    | ScheduleStop(minutes: nat)
    | WarnAndStop(minutes: nat)
    | RemoveTask(id: string)
    | Say(message: string)
    | ShowTasks
    | Help
    | Exit
    | Unknown

  /** The suffix `-s <minutes>` on a line of at least three tokens. */
  predicate IsDeferred(parts: seq<string>) {
    |parts| >= 3 && parts[|parts| - 2] == "-s" && IsDigits(parts[|parts| - 1])
  }

  /** The tokens before the suffix. */
  function Prefix(parts: seq<string>): seq<string>
    requires IsDeferred(parts)
  {
    parts[..|parts| - 2]
  }

  /** The lines without the suffix, in the order `handle_command` tries them:
      the whole line as a key, then the lower-cased first token as a key with
      the remaining tokens as arguments, then the built-ins. The branches for
      `sas` and `tas` after the lookups never fire (SasIsKey, TasIsKey). */
  function ParseImmediate(parts: seq<string>): Command
    requires |parts| > 0
  {
    var base := Lower(parts[0]);
    if CommandMap(Join(parts)).Some? then Run(CommandMap(Join(parts)).value, [])
    else if CommandMap(base).Some? then Run(CommandMap(base).value, parts[1..])
    else if base == "sqa" && |parts| == 2 && IsDigits(parts[1]) then ScheduleStop(DigitsValue(parts[1]))
    else if base == "wsqa" && |parts| == 2 && IsDigits(parts[1]) then WarnAndStop(DigitsValue(parts[1]))
    else if base == "rs" && |parts| == 2 then RemoveTask(parts[1])
    else if base == "s" && |parts| >= 2 then Say(Join(parts[1..]))
    else if base == "ss" then ShowTasks
    else if base == "help" then Help
    else if base == "exit" then Exit
    else Unknown
  }

  /** The arguments the deferred form hands to `schedule_command`, as written:
      every token between the first and the suffix. */
  function DeferredArgsAsWritten(parts: seq<string>): seq<string>
    requires IsDeferred(parts)
  {
    parts[1..|parts| - 2]
  }

  /** The arguments the deferred form should hand over: none when the prefix
      is a key of the map (a key names the whole command, flag included), and
      the tokens after the first otherwise (the words of `s <text>`). */
  function DeferredArgs(parts: seq<string>): seq<string>
    requires IsDeferred(parts)
  {
    if CommandMap(Join(Prefix(parts))).Some? then [] else DeferredArgsAsWritten(parts)
  }

  /** `handle_command`'s branch on the tokens of a line, with the deferred
      arguments corrected (see DeferredFlagBecomesArgument). */
  function Parse(parts: seq<string>): (c: Command)
    ensures c == Empty <==> parts == []
    ensures c.Defer? <==> IsDeferred(parts)
    ensures c.Defer? ==> c.command == Join(Prefix(parts)) && c.delay == DigitsValue(parts[|parts| - 1])
  {
    if parts == [] then Empty
    else if IsDeferred(parts) then Defer(Join(Prefix(parts)), DigitsValue(parts[|parts| - 1]), DeferredArgs(parts))
    else ParseImmediate(parts)
  }

  /** `handle_command`'s branch as the code has it. */
  function ParseAsWritten(parts: seq<string>): (c: Command)
    ensures !IsDeferred(parts) ==> c == Parse(parts)
    ensures IsDeferred(parts) ==> c == Defer(Parse(parts).command, Parse(parts).delay, DeferredArgsAsWritten(parts))
  {
    if IsDeferred(parts) then Defer(Join(Prefix(parts)), DigitsValue(parts[|parts| - 1]), DeferredArgsAsWritten(parts))
    else Parse(parts)
  }

  // ---------------------------------------------------------------- precedence

  /** A whole-line key wins over its first token: `backup -m` is a milestone
      backup, not `backup` given the argument `-m`. */
  lemma WholeLineFirst()
    ensures Parse(["backup", "-m"]) == Run(MilestoneBackup, [])
    ensures Parse(["load", "-m"]) == Run(LoadMilestone, [])
    ensures Parse(["auto", "-m"]) == Run(ToggleMilestone, [])
  {
    FlagKeys();
  }

  /** The three keys that carry a flag, as lines of two tokens. */
  lemma FlagKeys()
    ensures Join(["backup", "-m"]) == "backup -m" && CommandMap("backup -m") == Some(MilestoneBackup)
    ensures Join(["load", "-m"]) == "load -m" && CommandMap("load -m") == Some(LoadMilestone)
    ensures Join(["auto", "-m"]) == "auto -m" && CommandMap("auto -m") == Some(ToggleMilestone)
  {
    assert Join(["backup", "-m"]) == "backup -m";
    assert Join(["load", "-m"]) == "load -m";
    assert Join(["auto", "-m"]) == "auto -m";
  }

  /** Only the first token is folded to lower case, and only for the
      first-token lookup: `LOAD -m` reaches `load` with the argument `-m`,
      which restores the regular backups. */
  lemma OnlyFirstTokenFolded()
    ensures Parse(["LOAD", "-m"]) == Run(LoadRegular, ["-m"])
    ensures Parse(["SA"]) == Run(StartAll, [])
  {
    UpperLines();
    FirstTokenGetsRest(["LOAD", "-m"], LoadRegular);
    FirstTokenGetsRest(["SA"], StartAll);
  }

  /** The lookups behind OnlyFirstTokenFolded. */
  lemma UpperLines()
    ensures CommandMap(Join(["LOAD", "-m"])).None? && CommandMap(Lower("LOAD")) == Some(LoadRegular)
    ensures CommandMap(Join(["SA"])).None? && CommandMap(Lower("SA")) == Some(StartAll)
  {
    assert Join(["LOAD", "-m"]) == "LOAD -m";
    assert Lower("LOAD") == "load";
    assert Join(["SA"]) == "SA";
    assert Lower("SA") == "sa";
  }

  /** A line that is not deferred and whose whole text is no key reaches the
      handler of its folded first token, with the rest as arguments. */
  lemma FirstTokenGetsRest(parts: seq<string>, a: Action)
    requires |parts| > 0 && !IsDeferred(parts)
    requires CommandMap(Join(parts)).None? && CommandMap(Lower(parts[0])) == Some(a)
    ensures Parse(parts) == Run(a, parts[1..])
  {
  }

  /** `sas` and `tas` are keys of the map. */
  lemma SasTasAreKeys()
    ensures CommandMap("sas") == Some(SetShutdownTime)
    ensures CommandMap("tas") == Some(ToggleAutoShutdown)
  {
  }

  /** So lines starting with `sas` or `tas` never reach the built-in
      branches for them. */
  lemma SasIsKey(parts: seq<string>)
    requires |parts| > 0 && !IsDeferred(parts)
    requires Lower(parts[0]) == "sas"
    ensures CommandMap(Join(parts)).None? ==> Parse(parts) == Run(SetShutdownTime, parts[1..])
  {
    SasTasAreKeys();
    if CommandMap(Join(parts)).None? {
      FirstTokenGetsRest(parts, SetShutdownTime);
    }
  }

  lemma TasIsKey(parts: seq<string>)
    requires |parts| > 0 && !IsDeferred(parts)
    requires Lower(parts[0]) == "tas"
    ensures CommandMap(Join(parts)).None? ==> Parse(parts) == Run(ToggleAutoShutdown, parts[1..])
  {
    SasTasAreKeys();
    if CommandMap(Join(parts)).None? {
      FirstTokenGetsRest(parts, ToggleAutoShutdown);
    }
  }

  // ---------------------------------------------------------------- the deferred suffix

  /** `" ".join` of words ends with the last character of the last word. */
  lemma {:induction false} JoinEnds(ws: seq<string>)
    requires IsWords(ws) && |ws| > 0
    ensures |Join(ws)| > 0
    ensures Join(ws)[|Join(ws)| - 1] == ws[|ws| - 1][|ws[|ws| - 1]| - 1]
  {
    if |ws| > 1 {
      JoinEnds(ws[1..]);
      assert ws[1..][|ws[1..]| - 1] == ws[|ws| - 1];
    }
  }

  /** Every key ends in a letter, so no key is a line that ends in digits. */
  lemma KeyEndsInLetter(a: Action)
    ensures |Key(a)| > 0 && !IsDigit(Key(a)[|Key(a)| - 1])
  {
  }

  /** Typing a command followed by `-s <n>` defers exactly that command by n
      minutes: the words typed come back as the command, and `str(n)` as the
      delay. */
  lemma {:induction false} DeferredSuffix(ws: seq<string>, n: nat)
    requires IsWords(ws) && |ws| > 0
    ensures IsDeferred(ws + ["-s", Decimal(n)])
    ensures Parse(ws + ["-s", Decimal(n)]) == Defer(Join(ws), n, DeferredArgs(ws + ["-s", Decimal(n)]))
    ensures CommandMap(Join(ws)).None? ==> DeferredArgs(ws + ["-s", Decimal(n)]) == ws[1..]
  {
    var parts := ws + ["-s", Decimal(n)];
    assert Prefix(parts) == ws;
    assert parts[|parts| - 1] == Decimal(n);
    DecimalValue(n);
    if |ws| == 1 {
      assert IsWords(ws);
    }
    assert parts[1..|parts| - 2] == ws[1..];
  }

  /** With the correction, deferring a key of the map runs it the way typing
      the key alone does: the prefix parses to that handler with no arguments,
      and those are the arguments the deferred job gets. */
  lemma DeferredRunsLikeImmediate(parts: seq<string>, a: Action)
    requires IsWords(parts) && IsDeferred(parts)
    requires CommandMap(Join(Prefix(parts))) == Some(a)
    ensures Parse(Prefix(parts)) == Run(a, DeferredArgs(parts))
  {
    var p := Prefix(parts);
    assert IsWords(p) by {
      forall i | 0 <= i < |p| ensures |p[i]| > 0 && NoSpace(p[i]) {
        assert p[i] == parts[i];
      }
    }
    if IsDeferred(p) {
      JoinEnds(p);
      KeyEndsInLetter(a);
      assert false;
    }
  }

  /** As written, a deferred key that holds a flag hands the flag on as an
      argument: `backup -m -s 5` schedules the milestone backup with the
      argument `-m`, which its handler does not accept, where typing
      `backup -m` alone calls it with none. The same holds for `auto -m`. */
  lemma DeferredFlagBecomesArgument()
    ensures ParseAsWritten(["backup", "-m", "-s", "5"]) == Defer("backup -m", 5, ["-m"])
    ensures CommandMap("backup -m") == Some(MilestoneBackup) && !Accepts(MilestoneBackup, |["-m"]|)
    ensures Parse(["backup", "-m", "-s", "5"]) == Defer("backup -m", 5, [])
    ensures Accepts(MilestoneBackup, 0)
    ensures ParseAsWritten(["auto", "-m", "-s", "5"]) == Defer("auto -m", 5, ["-m"])
    ensures !Accepts(ToggleMilestone, 1)
  {
    var p := ["backup", "-m", "-s", "5"];
    assert Prefix(p) == ["backup", "-m"];
    assert Join(["backup", "-m"]) == "backup -m";
    assert DigitsValue("5") == 5 by { assert "5"[..0] == []; }
    assert p[1..|p| - 2] == ["-m"];
    var q := ["auto", "-m", "-s", "5"];
    assert Prefix(q) == ["auto", "-m"];
    assert Join(["auto", "-m"]) == "auto -m";
    assert q[1..|q| - 2] == ["-m"];
  }

  /** No key has a space after its second character. */
  lemma KeyThirdChar(a: Action)
    ensures |Key(a)| > 2 ==> Key(a)[2] != ' '
  {
  }

  /** `rs <id>` reaches the cancellation branch, in any capitalisation of `rs`. */
  lemma RemoveTaskParses(parts: seq<string>)
    requires IsWords(parts) && |parts| == 2 && Lower(parts[0]) == "rs"
    ensures Parse(parts) == RemoveTask(parts[1])
  {
    var line := Join(parts);
    assert |parts[0]| == 2;
    assert Join(parts[1..]) == parts[1];
    assert line == parts[0] + " " + parts[1];
    assert line[2] == ' ' && |line| > 2;
    if CommandMap(line).Some? {
      KeyThirdChar(CommandMap(line).value);
      assert false;
    }
    assert CommandMap(Lower(parts[0])).None?;
  }

  /** A line of nothing but whitespace is blank. */
  lemma BlankLine(line: string)
    requires forall i :: 0 <= i < |line| ==> IsSpace(line[i])
    ensures Parse(Split(line)) == Empty
  {
    BlankSplit(line);
  }

  lemma {:induction false} BlankSplit(line: string)
    requires forall i :: 0 <= i < |line| ==> IsSpace(line[i])
    ensures Split(line) == []
  {
    if line != [] {
      BlankSplit(line[1..]);
    }
  }
}
