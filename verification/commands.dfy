/** The settings file and the command-line choice of `main.py`, as values. */
module Commands {
  import opened Wrappers

  /** The settings dictionary: names to numbers. */
  type Settings = map<string, real>

  const MainKey := "main_sensitivity"
  const LowerKey := "lower_bound"
  const UpperKey := "upper_bound"

  /** The settings used while no settings file exists. */
  const DefaultSettings: Settings := map[MainKey := 1.0, LowerKey := 0.7, UpperKey := 2.1]

  /** `load_settings`: the stored dictionary, or a copy of the defaults when there is no file. */
  function Loaded(stored: Option<Settings>): Settings {
    stored.GetOr(DefaultSettings)
  }

  /** The dictionary saved by `cmd_set_main_sens`, `cmd_set_lower` or `cmd_set_upper`:
      the loaded settings with `key` now holding `value` and every other key as it was. */
  function SetKey(stored: Option<Settings>, key: string, value: real): (r: Settings)
    ensures key in r && r[key] == value
    ensures forall k :: k != key ==> (k in r <==> k in Loaded(stored))
    ensures forall k :: k != key && k in r ==> r[k] == Loaded(stored)[k]
  {
    Loaded(stored)[key := value]
  }

  /** The range the random draw uses, or nothing when either bound is missing
      (the lookup that would raise). */
  function Bounds(s: Settings): Option<(real, real)> {
    if LowerKey in s && UpperKey in s then Some((s[LowerKey], s[UpperKey])) else None
  }

  /** Without a settings file the defaults are used: main 1.0, range 0.7 to 2.1. */
  lemma DefaultsLoaded()
    ensures MainKey in Loaded(None) && Loaded(None)[MainKey] == 1.0
    ensures Bounds(Loaded(None)) == Some((0.7, 2.1))
  {
  }

  /** Saving one key never removes the range, once both bounds are there. */
  lemma SetKeyKeepsBounds(stored: Option<Settings>, key: string, value: real)
    requires Bounds(Loaded(stored)).Some?
    ensures Bounds(SetKey(stored, key, value)).Some?
  {
  }

  /** After `cmd_set_lower`, the range opens at the new value and keeps the stored
      upper bound; without a stored upper bound there is still no range. */
  lemma BoundsAfterSetLower(stored: Option<Settings>, x: real)
    ensures Bounds(SetKey(stored, LowerKey, x))
         == if UpperKey in Loaded(stored) then Some((x, Loaded(stored)[UpperKey])) else None
  {
  }

  /** After `cmd_set_upper`, the range keeps the stored lower bound and closes at the
      new value; without a stored lower bound there is still no range. */
  lemma BoundsAfterSetUpper(stored: Option<Settings>, x: real)
    ensures Bounds(SetKey(stored, UpperKey, x))
         == if LowerKey in Loaded(stored) then Some((Loaded(stored)[LowerKey], x)) else None
  {
  }

  /** `cmd_set_main_sens` leaves the range exactly as it was. */
  lemma BoundsAfterSetMain(stored: Option<Settings>, x: real)
    ensures Bounds(SetKey(stored, MainKey, x)) == Bounds(Loaded(stored))
  {
  }

  /** The options given on the command line. */
  datatype Args = Args(setMainSens: Option<real>, useMain: bool, showRandom: bool,
                       setLower: Option<real>, setUpper: Option<real>)

  /** What one run of `main.py` does. */
  datatype Command =
    | SetMainSens(value: real)
    | UseMain
    | ShowRandom
    | SetLower(value: real)
    | SetUpper(value: real)
    | Randomize

  /** A command's place in the order `main` tests the options, the default last. */
  function Rank(c: Command): nat {
    match c
    case SetMainSens(_) => 0
    case UseMain => 1
    case ShowRandom => 2
    case SetLower(_) => 3
    case SetUpper(_) => 4
    case Randomize => 5
  }

  /** The ranks of the options that were given. */
  function Requested(a: Args): set<nat> {
    (if a.setMainSens.Some? then {0} else {}) +
    (if a.useMain then {1} else {}) +
    (if a.showRandom then {2} else {}) +
    (if a.setLower.Some? then {3} else {}) +
    (if a.setUpper.Some? then {4} else {})
  }

  /** `main`'s choice: of the options given, the first in the order above wins and
      the others are ignored; with none given, the random draw runs. A value option
      passes on its value. */
  function Dispatch(a: Args): (c: Command)
    ensures Rank(c) in Requested(a) || (c == Randomize && Requested(a) == {})
    ensures forall r :: r in Requested(a) ==> Rank(c) <= r
    ensures c.SetMainSens? ==> a.setMainSens == Some(c.value)
    ensures c.SetLower? ==> a.setLower == Some(c.value)
    ensures c.SetUpper? ==> a.setUpper == Some(c.value)
  {
    if a.setMainSens.Some? then SetMainSens(a.setMainSens.value)
    else if a.useMain then UseMain
    else if a.showRandom then ShowRandom
    else if a.setLower.Some? then SetLower(a.setLower.value)
    else if a.setUpper.Some? then SetUpper(a.setUpper.value)
    else Randomize
  }
}
