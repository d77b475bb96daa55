# CS2 sensitivity randomizer, modelled in Dafny

The tool picks a mouse-sensitivity value for Counter-Strike 2, either drawn at random
from a stored range or taken from a stored favourite. It patches that value into a
copy of an example `autoexec.cfg` and writes the copy into the game's config folder,
which the `.env` file names. Each change is then appended to two logs: a CSV file and
a JSON list.

The model covers:

- **The autoexec patcher** `create_autoexec_with_sensitivity` (`autoexec.dfy`). It is a
  loop over the template's lines with a one-bit state, `header_found`. The loop is
  specified by the functions `Step`, `Insertions`, `Weave` and `PatchText`. The method
  `CreateAutoexecWithSensitivity` keeps the source's loop and is proved equal to
  `PatchText`. The lemmas prove:
  - deleting the inserted blocks gives back the template (`Restore`);
  - a block follows only a marker line, and each block needs its own earlier title line;
  - a template with a single header gets exactly one block, right after the closing marker.
    The header is one title line without a marker, closed by the first marker line after it,
    with any lines between them;
  - a template without a title line or without a marker line comes back unchanged.
- **The `.env` reader** `load_env` (`env.dfy`). The method `LoadEnv` keeps the source's
  loop and is proved equal to the function `EnvFile`. Lemmas give:
  - the shape of a parsed line;
  - the round trip from a written `key=value` line back to the pair;
  - which line a key's value comes from (the last line that defines it).
- **The two logs** `log_to_csv` and `log_to_json` (`logs.dfy`). They are modelled as
  the sequence of rows and of entries that each file holds. A file that does not exist
  is `None`. The lemmas prove:
  - N appends give one header and N rows in call order;
  - the JSON list only grows at its end;
  - appending the same change to both logs keeps them in agreement.
- **Settings and command-line dispatch** of `main.py` (`commands.dfy`). The module
  holds the default settings, the key update that the three `--set-*` commands save,
  and the order in which `main` picks a command.
- **The file-changing operations** (`tool.dfy`). The class `Workspace` holds, as
  fields, every file the tool reads or writes. Its methods cover:
  - `apply_sensitivity` and `write_autoexec`;
  - the two log writers;
  - every `cmd_*` command;
  - `main`.
- **The older script** `randomize_sensitivity.py`, whose `main` is in
  `randomize_script.dfy`. Its copies of `load_env`, `create_autoexec_with_sensitivity`,
  `write_autoexec`, `log_to_csv` and `log_to_json` are the same text as in `main.py`:
  - `randomize_sensitivity.py:15-25` is `main.py:41-51`;
  - `randomize_sensitivity.py:42-65` is `main.py:73-96`;
  - `randomize_sensitivity.py:67-106` is `main.py:98-137`.

  So the same members model both copies. The script differs in its `main`: it checks
  the location before it draws a value, and it draws from the fixed range 0.7 to 2.1
  rather than from the settings.

`text.dfy` holds the parts of Python's `str` that the code relies on: `in` on strings,
`split('\n')`, `'\n'.join` and `strip()`.

Inputs that are not computed by the code are parameters:
- `pick(lo, hi)` stands for `round(random.uniform(lo, hi), 3)`;
- `render(x)` stands for the text that `f'{x}'` gives for a float;
- `timestamp` stands for `get_pst_timestamp()`.

### How the code recognises the header

- The header's marker and title are found by substring tests (`'// =...=' in line`,
  `'CS2 AUTOEXEC' in line`), not by comparing whole lines. The marker is `//`, a space
  and exactly 25 `=` signs. A line holding a shorter run of `=` is not a marker, so
  `Autoexec.ExampleShortMarkers` shows a header delimited by shorter `=` runs getting
  no block.
- The title sets the flag whether or not a marker came before it. A line holding both
  the marker and the title is skipped while the flag is down.
- The flag is cleared after each insertion, but a later title line sets it again. A
  template with several headers therefore gets several blocks. `PatchCountBound` bounds
  their number by the number of title lines.

## Model

| member | source | states |
|---|---|---|
| Text.Split | main.py:78 | `split('\n')` gives at least one piece, and no piece holds a newline |
| Text.JoinSplit | main.py:78-96 | joining the pieces of a split with newlines gives back the text |
| Text.SplitJoin | main.py:78-96 | splitting a newline-joined list of newline-free lines gives back the list |
| Text.LeadingSpacesSpec | main.py:47 | `lstrip()` drops exactly the leading whitespace: all of it, and not the first character that is not whitespace |
| Text.TrimmedLengthSpec | main.py:47 | `rstrip()` drops exactly the trailing whitespace: all of it, and not the last character that is not whitespace |
| Text.StripStrips | main.py:47 | `strip()` leaves no whitespace at either end |
| Text.StripDropsOnlySpaces | main.py:47 | `strip()` removes only whitespace: everything before and after the kept part is whitespace |
| Text.StripStripped | main.py:50 | stripping a text without surrounding whitespace leaves it unchanged |
| Autoexec.PatchLine | main.py:83-94 | one turn of the loop appends the line, and then the block exactly when `Step` inserts; the new flag is `Step`'s |
| Autoexec.CreateAutoexecWithSensitivity | main.py:73-96 | the loop's output is exactly `PatchText(template, value)` |
| Autoexec.RestorePatch | main.py:82-94 | from any starting flag, dropping the blocks the state machine inserted gives back the lines |
| Autoexec.PatchRestores | main.py:78-96 | the patched lines with the blocks dropped are the template lines: only whole blocks are added, and every template line is kept in order |
| Autoexec.InsertionFollowsMarker | main.py:90-94 | a block is inserted only after a line containing the 25-`=` marker |
| Autoexec.WeaveLength | main.py:82-94 | the output has three more lines per inserted block |
| Autoexec.PatchLayout | main.py:82-94 | template line `i` sits at position `i + 3 × (blocks before it)`; when it gets a block, it holds the marker and the next three lines are the blank line, the comment and `sensitivity "v"` |
| Autoexec.InsertionsBound | main.py:85-94 | there are at most as many blocks as title lines, plus one if the flag starts up |
| Autoexec.PatchCountBound | main.py:80-94 | a patched template has at most as many blocks as it has title lines |
| Autoexec.InsertionNeedsTitle | main.py:85-94 | every block is preceded by a title line without a marker that raised the flag, with no other block between them, unless the flag started up |
| Autoexec.PatchInsertionNeedsTitle | main.py:80-94 | from the initial state, every block has its own title line before it |
| Autoexec.WeaveNoFlags | main.py:82-83 | with no block flagged, the output is the template lines |
| Autoexec.NoTitleNoInsertion | main.py:88-90 | with the flag down and no title line, no block is inserted |
| Autoexec.NoMarkerNoInsertion | main.py:85-90 | with no marker line, no block is inserted, whatever the flag |
| Autoexec.PatchTextIdentity | main.py:73-96 | a template with no title line, or with no marker line, comes back unchanged as text |
| Autoexec.InsertionsFrom | main.py:82-94 | from any line on, the loop continues with the flag it has reached there |
| Autoexec.UpUntilMarker | main.py:85-94 | with the flag up, lines without a marker keep it up and get no block, and the first marker line gets the block |
| Autoexec.TitleThenFirstMarker | main.py:85-94 | a title line without a marker raises the flag whatever it was before, and the first marker line after it gets a block; no line from the title up to that marker gets one |
| Autoexec.BlockWithinHeader | main.py:80-94 | from the initial state, with a single title line and a block after line `m`, every block lies after the title line and no later than `m` |
| Autoexec.SingleHeader | main.py:73-96 | a template whose only title line holds no marker gets exactly one block, right after the first marker line that follows the title, whatever lines lie between them |
| Autoexec.ExampleHeaderSteps | main.py:85-94 | on marker, title, marker: the first marker is skipped, the title raises the flag, the second marker inserts and lowers it |
| Autoexec.ExampleHeader | main.py:73-96 | the header marker, `// CS2 AUTOEXEC`, marker with value `1.234` gets the blank line, the comment and `sensitivity "1.234"` after the closing marker |
| Autoexec.ExampleShortMarkers | main.py:85 | a header delimited by `// ====` lines is left unchanged |
| Env.IndexOf | main.py:49 | the position of the first `=`, so the key never holds one (`split("=", 1)`) |
| Env.LoadEnv | main.py:41-51 | the loop's dictionary is exactly `EnvFile(file)`, and it is empty when there is no `.env` file |
| Env.EnvOfSnoc | main.py:46-50 | each further line either leaves the dictionary alone or writes its key over the earlier value |
| Env.ParseLineShape | main.py:47-50 | a parsed key holds no `=`, and key and value carry no surrounding whitespace |
| Env.FirstEquals | main.py:49 | in a line made of a key without `=` and then `=`, the split happens right after the key |
| Env.ParseStripped | main.py:47-50 | a line that is already stripped, is not a comment and holds `=` is split at its first `=`, with both sides stripped |
| Env.ParseSides | main.py:47-50 | a line that is a key, `=` and a value parses back to that key and value, when the key has no `=` and does not start with `#`, and neither side has surrounding whitespace |
| Env.ParseFormatted | main.py:47-50 | parsing `key=value` gives back `(key, value)` for a key without `=` that does not start with `#`, when neither side has surrounding whitespace |
| Env.CollectLookup | main.py:45-50 | a key is in the dictionary iff some entry sets it, and its value is that of the last such entry |
| Env.EnvLookup | main.py:41-51 | a key is in the `.env` dictionary iff some line defines it, and its value comes from the last line that defines it |
| Env.SkippedLine | main.py:48 | a blank line, a `#` comment or a line without `=` leaves the dictionary unchanged |
| Logs.DataRowsAppend | main.py:114 | the data rows of two runs of changes follow each other in order |
| Logs.CsvAppendAllExisting | main.py:105-114 | appending N changes to an existing CSV file adds N rows in call order, and no header |
| Logs.CsvFromNothing | main.py:105-114 | N appends starting from no CSV file give one header row, then N data rows in call order |
| Logs.JsonAppendAllSpec | main.py:116-137 | N appends to the JSON log add exactly those N entries at the end, and earlier entries are unchanged |
| Logs.InSyncAppend | main.py:164-167 | logging one change to both files keeps them in agreement: the CSV data rows are the JSON entries, in order |
| Logs.TwoAppendsExample | main.py:116-137 | two appends to a missing JSON log give the two entries in call order |
| Commands.SetKey | main.py:175-180 | the saved settings hold the new value under the key, and every other key is as loaded |
| Commands.BoundsAfterSetLower | main.py:201-206 | after a new lower bound is saved, the range runs from that value to the stored upper bound; with no stored upper bound there is still no range |
| Commands.BoundsAfterSetUpper | main.py:208-213 | after a new upper bound is saved, the range runs from the stored lower bound to that value; with no stored lower bound there is still no range |
| Commands.BoundsAfterSetMain | main.py:175-180 | saving a new favourite leaves the range exactly as it was |
| Commands.DefaultsLoaded | main.py:20-32 | without a settings file the favourite is 1.0 and the range is 0.7 to 2.1 |
| Commands.SetKeyKeepsBounds | main.py:201-213 | saving any one key keeps a complete range complete |
| Commands.Dispatch | main.py:254-266 | of the options given, the one tested first wins; with none given, the random draw runs; a value option passes on its own value |
| Tool.NoEnvNoTarget | main.py:41-51 | without a `.env` file there is no folder, so nothing is ever written |
| Tool.TargetFromLastLine | main.py:141-150 | the folder written to is the value on the last `.env` line that sets `AUTOEXEC_LOCATION` |
| Tool.Workspace.WriteAutoexec | main.py:98-103 | the config folder's `autoexec.cfg` is replaced by the content, and nothing else changes |
| Tool.Workspace.LogToCsv | main.py:105-114 | the CSV file gains one row, after a new header only when the file did not exist |
| Tool.Workspace.LogToJson | main.py:116-137 | the JSON list, or an empty one, gains the entry at its end |
| Tool.Workspace.PatchWriteAndLog | main.py:152-168 | the patched template is written to the folder, and one matching entry is appended to each log; logs in agreement stay so |
| Tool.Workspace.ApplySensitivity | main.py:139-173 | succeeds iff the location is set, not empty and exists. On failure nothing changes; on success the patched template is written and logged once to each file. Logs stay in agreement |
| Tool.Workspace.SaveSetting | main.py:26-38 | the settings file holds the loaded settings, or the defaults, with the key now set |
| Tool.Workspace.CmdSetMainSens | main.py:175-180 | the settings file holds the new favourite, and the other settings are as loaded |
| Tool.Workspace.CmdSetLower | main.py:201-206 | the settings file holds the new lower bound, and the other settings are as loaded |
| Tool.Workspace.CmdSetUpper | main.py:208-213 | the settings file holds the new upper bound, and the other settings are as loaded |
| Tool.Workspace.CmdMain | main.py:182-190 | the stored favourite is applied; without one the run stops with nothing changed |
| Tool.Workspace.CmdShowRandom | main.py:192-199 | reports the range `Bounds` of the loaded settings (the defaults' 0.7 to 2.1 without a file; after a set-lower, set-upper or set-main as `BoundsAfterSetLower`, `BoundsAfterSetUpper` and `BoundsAfterSetMain` give it) and changes nothing |
| Tool.Workspace.CmdRandom | main.py:215-223 | the value drawn from the stored range is applied; without both bounds the run stops with nothing changed |
| Tool.Workspace.Run | main.py:225-266 | runs exactly the chosen command, with that command's effect on the files |
| RandomizeScript.Run | randomize_sensitivity.py:108-150 | stops with nothing changed when the location is not set, empty or missing (before drawing); otherwise applies a value drawn from 0.7 to 2.1 exactly as `apply_sensitivity` does |

## Left out

- Random numbers and rounding: `random.uniform` and `round(..., 3)` are the parameter `pick`. The model does not state that the value lies in the range or has three decimals.
- Float formatting: `render` gives the text of a value. Floats are `real`, with no binary rounding.
- The clock: `get_pst_timestamp` is the parameter `timestamp`.
- File I/O:
  - files are fields of `Workspace`, and `Path(...).exists()` is membership in `existing`;
  - `.env` is given as its lines, with Python's universal-newline handling left out;
  - `read_example_autoexec` is the field `template`;
  - a missing template, a missing `logs` directory and other I/O errors, all of which raise in the source, are not modelled.
- CSV quoting and JSON encoding: each log is modelled as its rows or entries, not as text. A JSON log whose content is not a list, and settings holding values that are not numbers, are not modelled.
- Printing, `argparse`'s own parsing and help text, and the `label` argument, which is only printed.
- The `config` directory that `load_settings` and `save_settings` create with `CONFIG_DIR.mkdir(exist_ok=True)` (main.py:28, main.py:36). The settings file's JSON text (`json.dump` with `indent=2`) is also left out: `settingsFile` holds the dictionary itself.
- Running two processes at once, and their race on the read-modify-write of the logs and settings.
- Tool.Workspace.CmdMain: a missing `main_sensitivity` key raises `KeyError` in the source. The model states it as a stop with nothing changed.
- Tool.Workspace.CmdRandom: likewise for a missing bound.
- Tool.Workspace.CmdShowRandom: it returns the range instead of printing it. It does not model the lower bound being printed before a missing upper bound raises.
