/**
 * The settings store (utils/config_manager.py): a `configparser` object
 * holding the file's sections. Option names are folded to lower case both
 * when they are stored and when they are looked up, and a lookup that misses
 * in its section falls through to the parser's DEFAULT section. Writing the
 * file back (`_save_config`) is I/O and is not part of this model.
 */
module Config {
  import opened Wrappers
  import opened Text

  /** `configparser`'s state: the DEFAULT section and the named sections, each
      a map from lower-cased option name to its raw text. */
  datatype Store = Store(defaults: map<string, string>, sections: map<string, map<string, string>>)

  const SERVER := "SERVER"
  const DEFAULT_SECTION := "DEFAULT"

  datatype ConfigError =
    | NoSection(section: string)
    | NoOption(section: string, option: string)
    | NotAnInteger(text: string)
    | NotABoolean(text: string)

  /** `configparser.get` without a fallback: NoSectionError for an unknown
      section, then the section's own option, then DEFAULT's, then NoOptionError. */
  function Find(cfg: Store, section: string, option: string): (r: Result<string, ConfigError>)
    ensures r.Ok? <==> (section == DEFAULT_SECTION || section in cfg.sections)
                       && ((section != DEFAULT_SECTION && section in cfg.sections && Lower(option) in cfg.sections[section])
                           || Lower(option) in cfg.defaults)
    ensures section != DEFAULT_SECTION && section in cfg.sections && Lower(option) in cfg.sections[section]
            ==> r == Ok(cfg.sections[section][Lower(option)])
    ensures (section == DEFAULT_SECTION || section in cfg.sections)
            && !(section != DEFAULT_SECTION && Lower(option) in cfg.sections[section])
            && Lower(option) in cfg.defaults
            ==> r == Ok(cfg.defaults[Lower(option)])
  {
    var key := Lower(option);
    if section != DEFAULT_SECTION && section !in cfg.sections then Err(NoSection(section))
    else if section != DEFAULT_SECTION && key in cfg.sections[section] then Ok(cfg.sections[section][key])
    else if key in cfg.defaults then Ok(cfg.defaults[key])
    else Err(NoOption(section, key))
  }

  /** `configparser.set`: an empty section name or DEFAULT writes into DEFAULT,
      an unknown section raises NoSectionError. */
  function Set(cfg: Store, section: string, option: string, value: string): (r: Result<Store, ConfigError>)
    ensures r.Ok? <==> (section == "" || section == DEFAULT_SECTION || section in cfg.sections)
    ensures r.Ok? && section != "" ==> Find(r.value, section, option) == Ok(value)
  {
    var key := Lower(option);
    if section == "" || section == DEFAULT_SECTION then Ok(cfg.(defaults := cfg.defaults[key := value]))
    else if section in cfg.sections then
      Ok(cfg.(sections := cfg.sections[section := cfg.sections[section][key := value]]))
    else Err(NoSection(section))
  }

  /** `int(text)` for an optional sign followed by ASCII digits. */
  function ParseInt(text: string): (r: Option<int>)
    ensures IsDigits(text) ==> r == Some(DigitsValue(text))
  {
    if IsDigits(text) then Some(DigitsValue(text))
    else if |text| > 1 && text[0] == '-' && IsDigits(text[1..]) then Some(-(DigitsValue(text[1..]) as int))
    else if |text| > 1 && text[0] == '+' && IsDigits(text[1..]) then Some(DigitsValue(text[1..]))
    else None
  }

  /** `configparser.BOOLEAN_STATES`, matched after lower-casing. */
  function ParseBool(text: string): Option<bool> {
    var t := Lower(text);
    if t == "1" || t == "yes" || t == "true" || t == "on" then Some(true)
    else if t == "0" || t == "no" || t == "false" || t == "off" then Some(false)
    else None
  }

  /** `str(b)` for a bool. */
  function BoolText(b: bool): string {
    if b then "True" else "False"
  }

  lemma BoolTextParses(b: bool)
    ensures ParseBool(BoolText(b)) == Some(b)
  {
  }

  /** `get(section, option, fallback)`: the stored text, or the fallback when
      the section or the option is missing. */
  function Get(cfg: Store, section: string, option: string, fallback: Option<string>): (r: Option<string>)
    ensures Find(cfg, section, option).Err? ==> r == fallback
    ensures Find(cfg, section, option).Ok? ==> r == Some(Find(cfg, section, option).value)
  {
    match Find(cfg, section, option)
    case Ok(text) => Some(text)
    case Err(_) => fallback
  }

  /** `getint(section, option[, fallback])`: a missing option gives the fallback
      (or the lookup error when there is none); a present one must parse. */
  function GetInt(cfg: Store, section: string, option: string, fallback: Option<int>): (r: Result<int, ConfigError>)
    ensures Find(cfg, section, option).Err? && fallback.Some? ==> r == Ok(fallback.value)
    ensures Find(cfg, section, option).Err? && fallback.None? ==> r == Err(Find(cfg, section, option).error)
    ensures Find(cfg, section, option).Ok? ==>
              var text := Find(cfg, section, option).value;
              r == if ParseInt(text).Some? then Ok(ParseInt(text).value) else Err(NotAnInteger(text))
  {
    match Find(cfg, section, option)
    case Err(e) => if fallback.Some? then Ok(fallback.value) else Err(e)
    case Ok(text) =>
      match ParseInt(text)
      case Some(n) => Ok(n)
      case None => Err(NotAnInteger(text))
  }

  /** `getboolean(section, option)`, with no fallback. */
  function GetBool(cfg: Store, section: string, option: string): (r: Result<bool, ConfigError>)
    ensures Find(cfg, section, option).Err? ==> r == Err(Find(cfg, section, option).error)
    ensures Find(cfg, section, option).Ok? ==>
              var text := Find(cfg, section, option).value;
              r == if ParseBool(text).Some? then Ok(ParseBool(text).value) else Err(NotABoolean(text))
  {
    match Find(cfg, section, option)
    case Err(e) => Err(e)
    case Ok(text) =>
      match ParseBool(text)
      case Some(b) => Ok(b)
      case None => Err(NotABoolean(text))
  }

  /** The SERVER section written when there is no config file. Assigning a
      dict to a section stores each option name folded to lower case, so the
      keys are the folded forms of `AutoBackupInterval`, `IsAutoBackupEnabled`,
      `ServerRootLocation`, `MaxWorldBackups`, `milestonebackupinterval`,
      `milestonebackupdir` and `IsMilestoneBackupEnabled` (the `Folded` lemmas below). */
  function DefaultStore(): Store {
    Store(map[], map[SERVER := map[
      "autobackupinterval" := "10",
      "isautobackupenabled" := "False",
      "serverrootlocation" := "/home/miro/Desktop/Fabric",
      "maxworldbackups" := "10",
      "milestonebackupinterval" := "120",
      "milestonebackupdir" := "/home/miro/Desktop/Fabric/milestone_backups",
      "ismilestonebackupenabled" := "False"]])
  }

  /** The literal option names the console uses, folded as `optionxform` folds them. */
  lemma FoldedAutoBackupInterval()
    ensures Lower("AutoBackupInterval") == "autobackupinterval"
  {
  }

  lemma FoldedIsAutoBackupEnabled()
    ensures Lower("IsAutoBackupEnabled") == "isautobackupenabled"
  {
  }

  lemma FoldedServerRootLocation()
    ensures Lower("ServerRootLocation") == "serverrootlocation"
  {
  }

  lemma FoldedMaxWorldBackups()
    ensures Lower("MaxWorldBackups") == "maxworldbackups"
  {
  }

  lemma FoldedIsMilestoneBackupEnabled()
    ensures Lower("IsMilestoneBackupEnabled") == "ismilestonebackupenabled"
  {
  }

  /** Option names differ only in case find the same value. */
  lemma {:induction false} FindIgnoresCase(cfg: Store, section: string, a: string, b: string)
    requires Lower(a) == Lower(b)
    ensures Find(cfg, section, a) == Find(cfg, section, b)
  {
  }

  /** Names already in lower case fold to themselves. */
  lemma FoldedLowerCaseNames()
    ensures Lower("autobackupinterval") == "autobackupinterval"
    ensures Lower("milestonebackupinterval") == "milestonebackupinterval"
    ensures Lower("milestonebackupdir") == "milestonebackupdir"
  {
    LowerKeeps("autobackupinterval");
    LowerKeeps("milestonebackupinterval");
    LowerKeeps("milestonebackupdir");
  }

  /** With no config file, SERVER holds the documented defaults: autobackup
      every 10 minutes, switched off ... */
  lemma DefaultAutobackup()
    ensures GetInt(DefaultStore(), SERVER, "AutoBackupInterval", None) == Ok(10)
    ensures GetInt(DefaultStore(), SERVER, "autobackupinterval", None) == Ok(10)
    ensures GetBool(DefaultStore(), SERVER, "IsAutoBackupEnabled") == Ok(false)
  {
    DefaultAutobackupTexts();
    TenParses();
    BoolTextParses(false);
  }

  lemma DefaultAutobackupTexts()
    ensures Find(DefaultStore(), SERVER, "AutoBackupInterval") == Ok("10")
    ensures Find(DefaultStore(), SERVER, "autobackupinterval") == Ok("10")
    ensures Find(DefaultStore(), SERVER, "IsAutoBackupEnabled") == Ok("False")
  {
    FoldedAutoBackupInterval();
    FoldedLowerCaseNames();
    FoldedIsAutoBackupEnabled();
  }

  lemma TenParses()
    ensures ParseInt("10") == Some(10)
  {
    assert DigitsValue("10") == 10 by {
      assert "10"[..1] == "1" && "1"[..0] == "";
    }
  }

  /** ... milestone backups every 120 minutes, switched off ... */
  lemma DefaultMilestoneBackup()
    ensures GetInt(DefaultStore(), SERVER, "milestonebackupinterval", None) == Ok(120)
    ensures GetBool(DefaultStore(), SERVER, "IsMilestoneBackupEnabled") == Ok(false)
  {
    DefaultMilestoneTexts();
    assert DigitsValue("120") == 120 by {
      assert "120"[..2] == "12" && "12"[..1] == "1" && "1"[..0] == "";
    }
    BoolTextParses(false);
  }

  lemma DefaultMilestoneTexts()
    ensures Find(DefaultStore(), SERVER, "milestonebackupinterval") == Ok("120")
    ensures Find(DefaultStore(), SERVER, "IsMilestoneBackupEnabled") == Ok("False")
  {
    FoldedLowerCaseNames();
    FoldedIsMilestoneBackupEnabled();
  }

  /** ... and at most 10 regular backups kept. */
  lemma DefaultMaxWorldBackups()
    ensures GetInt(DefaultStore(), SERVER, "MaxWorldBackups", None) == Ok(10)
  {
    FoldedMaxWorldBackups();
    TenParses();
  }

  /** ... and the server lives under /home/miro/Desktop/Fabric. */
  lemma DefaultServerRoot()
    ensures Find(DefaultStore(), SERVER, "ServerRootLocation") == Ok("/home/miro/Desktop/Fabric")
  {
    FoldedServerRootLocation();
  }

  /** Writing an option changes what that option reads and nothing else. */
  lemma {:induction false} SetChangesOnlyItsOption(cfg: Store, option: string, value: string, section: string, other: string)
    requires SERVER in cfg.sections
    requires section != SERVER || Lower(other) != Lower(option)
    requires section != DEFAULT_SECTION && section != ""
    ensures Set(cfg, SERVER, option, value).Ok?
    ensures Find(Set(cfg, SERVER, option, value).value, section, other) == Find(cfg, section, other)
  {
  }

  /** Reading back a flag just written gives the flag. */
  lemma {:induction false} SetFlagThenRead(cfg: Store, option: string, b: bool)
    requires SERVER in cfg.sections
    ensures Set(cfg, SERVER, option, BoolText(b)).Ok?
    ensures GetBool(Set(cfg, SERVER, option, BoolText(b)).value, SERVER, option) == Ok(b)
  {
    BoolTextParses(b);
  }

  /** The settings object of utils/config_manager.py. */
  class ConfigManager {
    var config: Store

    /** `stored` is what `config.read` parsed from the file, or None when the
        file does not exist and the defaults are created. */
    constructor (stored: Option<Store>)
      ensures config == if stored.Some? then stored.value else DefaultStore()
    {
      config := if stored.Some? then stored.value else DefaultStore();
    }

    function AutobackupInterval(): (r: Result<int, ConfigError>)
      reads this
      ensures Find(config, SERVER, "AutoBackupInterval").Err? ==> r.Err?
    {
      GetInt(config, SERVER, "AutoBackupInterval", None)
    }

    function IsAutobackupEnabled(): (r: Result<bool, ConfigError>)
      reads this
      ensures r.Ok? <==> Find(config, SERVER, "IsAutoBackupEnabled").Ok?
                         && ParseBool(Find(config, SERVER, "IsAutoBackupEnabled").value).Some?
    {
      GetBool(config, SERVER, "IsAutoBackupEnabled")
    }

    method SetAutobackup(enabled: bool) returns (ok: bool)
      modifies this
      ensures ok <==> SERVER in old(config).sections
      ensures ok ==> config == Set(old(config), SERVER, "IsAutoBackupEnabled", BoolText(enabled)).value
      ensures ok ==> IsAutobackupEnabled() == Ok(enabled)
      ensures !ok ==> config == old(config)
    {
      var r := Set(config, SERVER, "IsAutoBackupEnabled", BoolText(enabled));
      ok := r.Ok?;
      if ok {
        SetFlagThenRead(config, "IsAutoBackupEnabled", enabled);
        config := r.value;
      }
    }

    function MaxWorldBackups(): (r: Result<int, ConfigError>)
      reads this
      ensures Find(config, SERVER, "MaxWorldBackups").Err? ==> r == Ok(10)
    {
      GetInt(config, SERVER, "MaxWorldBackups", Some(10))
    }

    function ServerRoot(): (r: Result<string, ConfigError>)
      reads this
      ensures r == Find(config, SERVER, "ServerRootLocation")
    {
      Find(config, SERVER, "ServerRootLocation")
    }

    function MilestoneBackupInterval(): (r: Result<int, ConfigError>)
      reads this
      ensures Find(config, SERVER, "milestonebackupinterval").Err? ==> r == Ok(1440)
    {
      GetInt(config, SERVER, "milestonebackupinterval", Some(1440))
    }

    function MilestoneBackupDir(): (r: string)
      reads this
      ensures Find(config, SERVER, "milestonebackupdir").Err? ==> r == "/home/miro/Desktop/Fabric/milestone_backups"
      ensures Find(config, SERVER, "milestonebackupdir").Ok? ==> r == Find(config, SERVER, "milestonebackupdir").value
    {
      Get(config, SERVER, "milestonebackupdir", Some("/home/miro/Desktop/Fabric/milestone_backups")).value
    }

    function IsMilestoneBackupEnabled(): (r: Result<bool, ConfigError>)
      reads this
      ensures r.Ok? <==> Find(config, SERVER, "IsMilestoneBackupEnabled").Ok?
                         && ParseBool(Find(config, SERVER, "IsMilestoneBackupEnabled").value).Some?
    {
      GetBool(config, SERVER, "IsMilestoneBackupEnabled")
    }

    method SetMilestoneBackup(enabled: bool) returns (ok: bool)
      modifies this
      ensures ok <==> SERVER in old(config).sections
      ensures ok ==> config == Set(old(config), SERVER, "IsMilestoneBackupEnabled", BoolText(enabled)).value
      ensures ok ==> IsMilestoneBackupEnabled() == Ok(enabled)
      ensures !ok ==> config == old(config)
    {
      var r := Set(config, SERVER, "IsMilestoneBackupEnabled", BoolText(enabled));
      ok := r.Ok?;
      if ok {
        SetFlagThenRead(config, "IsMilestoneBackupEnabled", enabled);
        config := r.value;
      }
    }

    function Lookup(section: string, option: string, fallback: Option<string>): (r: Option<string>)
      reads this
      ensures Find(config, section, option).Err? ==> r == fallback
      ensures Find(config, section, option).Ok? ==> r == Some(Find(config, section, option).value)
    {
      Get(config, section, option, fallback)
    }
  }
}
