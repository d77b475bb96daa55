/** `main.py`'s file-changing operations over the state they touch: the `.env` file,
    the paths that exist, the example autoexec, the written autoexecs, both logs and
    the settings file. */
module Tool {
  import opened Wrappers
  import Env
  import Autoexec
  import opened Logs
  import opened Commands

  /** The `.env` key naming the game's config folder. */
  const LocationKey := "AUTOEXEC_LOCATION"

  /** The folder the autoexec goes to: the `.env` value for the location key, when it
      is set, not empty, and an existing path; otherwise nothing is written. */
  function Target(envFile: Option<seq<string>>, existing: set<string>): Option<string> {
    var env := Env.EnvFile(envFile);
    if LocationKey in env && env[LocationKey] != "" && env[LocationKey] in existing then
      Some(env[LocationKey])
    else None
  }

  /** The folder, read off the dictionary `load_env` returned. */
  lemma TargetOfEnv(envFile: Option<seq<string>>, existing: set<string>, env: map<string, string>)
    requires env == Env.EnvFile(envFile)
    ensures Target(envFile, existing) ==
              if LocationKey in env && env[LocationKey] != "" && env[LocationKey] in existing
              then Some(env[LocationKey]) else None
  {
  }

  /** Without a `.env` file nothing is ever written. */
  lemma NoEnvNoTarget(existing: set<string>)
    ensures Target(None, existing) == None
  {
  }

  /** The folder written to is the value on the last `.env` line that sets the location key. */
  lemma TargetFromLastLine(lines: seq<string>, existing: set<string>)
    requires Target(Some(lines), existing).Some?
    ensures exists i :: 0 <= i < |lines| && Env.Defines(lines[i], LocationKey) &&
                        Env.ParseLine(lines[i]).value.1 == Target(Some(lines), existing).value &&
                        forall j :: i < j < |lines| ==> !Env.Defines(lines[j], LocationKey)
  {
    Env.EnvLookup(lines, LocationKey);
  }

  /** The files and folders the tool reads and writes. */
  class Workspace {
    /** The lines of `.env`, if it exists. */
    var envFile: Option<seq<string>>
    /** The paths that exist. */
    var existing: set<string>
    /** The text of `example_autoexec.cfg`. */
    var template: string
    /** The `autoexec.cfg` written into each config folder. */
    var autoexecs: map<string, string>
    /** `logs/sensitivity_log.csv`, if it exists. */
    var csvLog: Option<seq<Row>>
    /** `logs/sensitivity_log.json`, if it exists. */
    var jsonLog: Option<seq<Entry>>
    /** `config/settings.json`, if it exists. */
    var settingsFile: Option<Settings>

    /** A workspace with nothing written yet. */
    constructor (envFile: Option<seq<string>>, existing: set<string>, template: string,
                 settingsFile: Option<Settings>)
      ensures this.envFile == envFile && this.existing == existing && this.template == template
      ensures this.settingsFile == settingsFile
      ensures autoexecs == map[] && csvLog == None && jsonLog == None
    {
      this.envFile := envFile;
      this.existing := existing;
      this.template := template;
      this.settingsFile := settingsFile;
      autoexecs := map[];
      csvLog := None;
      jsonLog := None;
    }

    /** The two logs hold the same changes in the same order. */
    predicate LogsInSync()
      reads this
    {
      InSync(csvLog, jsonLog)
    }

    /** What `apply_sensitivity` leaves behind: with no usable location, nothing at all;
        otherwise the patched example in the config folder and one matching entry at
        the end of each log. The settings, `.env` and example are never touched. */
    twostate predicate Applied(sensitivity: real, render: real -> string, timestamp: string)
      reads this
    {
      var loc := Target(old(envFile), old(existing));
      var content := Autoexec.PatchText(old(template), render(sensitivity));
      var e := Entry(timestamp, sensitivity, content);
      envFile == old(envFile) && existing == old(existing) && template == old(template) &&
      settingsFile == old(settingsFile) &&
      if loc.None? then
        autoexecs == old(autoexecs) && csvLog == old(csvLog) && jsonLog == old(jsonLog)
      else
        autoexecs == old(autoexecs)[loc.value := content] &&
        csvLog == Some(CsvAppend(old(csvLog), e)) && jsonLog == Some(JsonAppend(old(jsonLog), e))
    }

    /** `write_autoexec`: replaces `autoexec.cfg` in the given folder. */
    method WriteAutoexec(content: string, location: string)
      modifies this`autoexecs
      ensures autoexecs == old(autoexecs)[location := content]
    {
      autoexecs := autoexecs[location := content];
    }

    /** `log_to_csv`: appends one row, after the header if the file is new. */
    method LogToCsv(timestamp: string, sensitivity: real, autoexecContent: string)
      modifies this`csvLog
      ensures csvLog == Some(CsvAppend(old(csvLog), Entry(timestamp, sensitivity, autoexecContent)))
    {
      var rows: seq<Row>;
      if csvLog.Some? {
        rows := csvLog.value;
      } else {
        rows := [HeaderRow];
      }
      rows := rows + [DataRow(Entry(timestamp, sensitivity, autoexecContent))];
      csvLog := Some(rows);
    }

    /** `log_to_json`: loads the list, or starts an empty one, appends the entry and writes it back. */
    method LogToJson(timestamp: string, sensitivity: real, autoexecContent: string)
      modifies this`jsonLog
      ensures jsonLog == Some(JsonAppend(old(jsonLog), Entry(timestamp, sensitivity, autoexecContent)))
    {
      var data: seq<Entry>;
      if jsonLog.Some? {
        data := jsonLog.value;
      } else {
        data := [];
      }
      data := data + [Entry(timestamp, sensitivity, autoexecContent)];
      jsonLog := Some(data);
    }

    /** The steps after the location checks, shared by `apply_sensitivity` and the
        randomizer script: patch the example, write it to `location`, log it to both files. */
    method PatchWriteAndLog(location: string, sensitivity: real, render: real -> string, timestamp: string)
      modifies this`autoexecs, this`csvLog, this`jsonLog
      ensures var content := Autoexec.PatchText(template, render(sensitivity));
              var e := Entry(timestamp, sensitivity, content);
              autoexecs == old(autoexecs)[location := content] &&
              csvLog == Some(CsvAppend(old(csvLog), e)) && jsonLog == Some(JsonAppend(old(jsonLog), e))
      ensures old(LogsInSync()) ==> LogsInSync()
    {
      var newAutoexec := Autoexec.CreateAutoexecWithSensitivity(template, render(sensitivity));
      WriteAutoexec(newAutoexec, location);
      LogToCsv(timestamp, sensitivity, newAutoexec);
      LogToJson(timestamp, sensitivity, newAutoexec);
      if InSync(old(csvLog), old(jsonLog)) {
        InSyncAppend(old(csvLog), old(jsonLog), Entry(timestamp, sensitivity, newAutoexec));
      }
    }

    /** `apply_sensitivity`: succeeds exactly when the location is usable, and then
        writes the patched autoexec and logs it to both files, which stay in agreement. */
    method ApplySensitivity(sensitivity: real, render: real -> string, timestamp: string)
      returns (ok: bool)
      modifies this`autoexecs, this`csvLog, this`jsonLog
      ensures ok <==> Target(envFile, existing).Some?
      ensures Applied(sensitivity, render, timestamp)
      ensures old(LogsInSync()) ==> LogsInSync()
    {
      var env := Env.LoadEnv(envFile);
      TargetOfEnv(envFile, existing, env);
      if LocationKey !in env || env[LocationKey] == "" {
        return false;
      }
      var location := env[LocationKey];
      if location !in existing {
        return false;
      }
      PatchWriteAndLog(location, sensitivity, render, timestamp);
      ok := true;
    }

    /** The load, assign and save shared by the three setting commands. */
    method SaveSetting(key: string, value: real)
      modifies this`settingsFile
      ensures settingsFile == Some(SetKey(old(settingsFile), key, value))
    {
      var settings := Loaded(settingsFile);
      settings := settings[key := value];
      settingsFile := Some(settings);
    }

    /** `cmd_set_main_sens`: stores the favourite value. */
    method CmdSetMainSens(value: real)
      modifies this`settingsFile
      ensures settingsFile == Some(SetKey(old(settingsFile), MainKey, value))
    {
      SaveSetting(MainKey, value);
    }

    /** `cmd_set_lower`: stores the lower bound of the random range. */
    method CmdSetLower(value: real)
      modifies this`settingsFile
      ensures settingsFile == Some(SetKey(old(settingsFile), LowerKey, value))
    {
      SaveSetting(LowerKey, value);
    }

    /** `cmd_set_upper`: stores the upper bound of the random range. */
    method CmdSetUpper(value: real)
      modifies this`settingsFile
      ensures settingsFile == Some(SetKey(old(settingsFile), UpperKey, value))
    {
      SaveSetting(UpperKey, value);
    }

    /** `cmd_main`: applies the stored favourite; a settings file without it stops the
        run before anything is written. */
    method CmdMain(render: real -> string, timestamp: string)
      modifies this`autoexecs, this`csvLog, this`jsonLog
      ensures MainKey !in Loaded(old(settingsFile)) ==> unchanged(this)
      ensures MainKey in Loaded(old(settingsFile)) ==>
                Applied(Loaded(old(settingsFile))[MainKey], render, timestamp)
      ensures old(LogsInSync()) ==> LogsInSync()
    {
      var settings := Loaded(settingsFile);
      if MainKey !in settings {
        return;
      }
      var sensitivity := settings[MainKey];
      var _ := ApplySensitivity(sensitivity, render, timestamp);
    }

    /** `cmd_show_random`: reports the stored range and changes nothing. */
    method CmdShowRandom() returns (range: Option<(real, real)>)
      ensures range == Bounds(Loaded(settingsFile))
    {
      var settings := Loaded(settingsFile);
      if LowerKey !in settings || UpperKey !in settings {
        return None;
      }
      range := Some((settings[LowerKey], settings[UpperKey]));
    }

    /** `cmd_random`: draws from the stored range with `pick` and applies the result;
        a settings file without both bounds stops the run before anything is written. */
    method CmdRandom(pick: (real, real) -> real, render: real -> string, timestamp: string)
      modifies this`autoexecs, this`csvLog, this`jsonLog
      ensures Bounds(Loaded(old(settingsFile))).None? ==> unchanged(this)
      ensures Bounds(Loaded(old(settingsFile))).Some? ==>
                var (lo, hi) := Bounds(Loaded(old(settingsFile))).value;
                Applied(pick(lo, hi), render, timestamp)
      ensures old(LogsInSync()) ==> LogsInSync()
    {
      var settings := Loaded(settingsFile);
      if LowerKey !in settings || UpperKey !in settings {
        return;
      }
      var sensitivity := pick(settings[LowerKey], settings[UpperKey]);
      var _ := ApplySensitivity(sensitivity, render, timestamp);
    }

    /** `main`: runs the one command the options select. */
    method Run(args: Args, pick: (real, real) -> real, render: real -> string, timestamp: string)
      modifies this`autoexecs, this`csvLog, this`jsonLog, this`settingsFile
      ensures match Dispatch(args)
              case SetMainSens(v) =>
                settingsFile == Some(SetKey(old(settingsFile), MainKey, v)) &&
                autoexecs == old(autoexecs) && csvLog == old(csvLog) && jsonLog == old(jsonLog)
              case SetLower(v) =>
                settingsFile == Some(SetKey(old(settingsFile), LowerKey, v)) &&
                autoexecs == old(autoexecs) && csvLog == old(csvLog) && jsonLog == old(jsonLog)
              case SetUpper(v) =>
                settingsFile == Some(SetKey(old(settingsFile), UpperKey, v)) &&
                autoexecs == old(autoexecs) && csvLog == old(csvLog) && jsonLog == old(jsonLog)
              case ShowRandom => unchanged(this)
              case UseMain =>
                if MainKey in Loaded(old(settingsFile))
                then Applied(Loaded(old(settingsFile))[MainKey], render, timestamp)
                else unchanged(this)
              case Randomize =>
                if Bounds(Loaded(old(settingsFile))).Some?
                then Applied(pick(Bounds(Loaded(old(settingsFile))).value.0,
                                  Bounds(Loaded(old(settingsFile))).value.1), render, timestamp)
                else unchanged(this)
      ensures old(LogsInSync()) ==> LogsInSync()
    {
      match Dispatch(args)
      case SetMainSens(v) => CmdSetMainSens(v);
      case UseMain => CmdMain(render, timestamp);
      case ShowRandom => var _ := CmdShowRandom();
      case SetLower(v) => CmdSetLower(v);
      case SetUpper(v) => CmdSetUpper(v);
      case Randomize => CmdRandom(pick, render, timestamp);
    }
  }
}
