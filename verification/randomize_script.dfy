/** `randomize_sensitivity.py`'s `main`: the older single-purpose script. It checks the
    location before drawing, draws from the fixed range 0.7 to 2.1 rather than the
    stored settings, then patches, writes and logs like `apply_sensitivity`. */
module RandomizeScript {
  import Env
  import opened Tool

  /** The script's fixed draw range. */
  const ScriptLower: real := 0.7
  const ScriptUpper: real := 2.1

  /** One run: with no usable location it stops before drawing and changes nothing;
      otherwise the drawn value is applied exactly as `apply_sensitivity` would apply it.
      The logs stay in agreement either way. */
  method Run(w: Workspace, pick: (real, real) -> real, render: real -> string, timestamp: string)
    returns (drawn: bool)
    modifies w`autoexecs, w`csvLog, w`jsonLog
    ensures drawn <==> Target(old(w.envFile), old(w.existing)).Some?
    ensures !drawn ==> unchanged(w)
    ensures w.Applied(pick(ScriptLower, ScriptUpper), render, timestamp)
    ensures old(w.LogsInSync()) ==> w.LogsInSync()
  {
    var env := Env.LoadEnv(w.envFile);
    TargetOfEnv(w.envFile, w.existing, env);
    if LocationKey !in env || env[LocationKey] == "" {
      return false;
    }
    var location := env[LocationKey];
    if location !in w.existing {
      return false;
    }
    var sensitivity := pick(ScriptLower, ScriptUpper);
    w.PatchWriteAndLog(location, sensitivity, render, timestamp);
    drawn := true;
  }
}
