/** `load_env`: the `.env` file read as `KEY=value` lines into a dictionary. */
module Env {
  import opened Wrappers
  import opened Text

  /** The position of the first `c` in `s`. */
  function IndexOf(s: string, c: char): (i: nat)
    requires c in s
    ensures i < |s| && s[i] == c && c !in s[..i]
    decreases |s|
  {
    if s[0] == c then 0
    else
      assert c in s[1..] by {
        var j :| 0 <= j < |s| && s[j] == c;
        assert s[1..][j - 1] == c;
      }
      var j := IndexOf(s[1..], c);
      assert s[..j + 1] == [s[0]] + s[1..][..j];
      j + 1
  }

  /** One line of the file: after stripping, a blank line, a `#` comment or a line
      without `=` gives nothing; otherwise the stripped text before the first `=`
      is the key and the stripped rest, which may itself hold `=`, the value. */
  function ParseLine(line: string): Option<(string, string)> {
    var t := Strip(line);
    if |t| > 0 && t[0] != '#' && '=' in t then
      var i := IndexOf(t, '=');
      Some((Strip(t[..i]), Strip(t[i + 1..])))
    else None
  }

  /** The dictionary built from parsed lines in order: each entry is written over
      what is there, so a later entry for a key wins. */
  function Collect(entries: seq<Option<(string, string)>>): map<string, string>
    decreases |entries|
  {
    if |entries| == 0 then map[]
    else
      var env := Collect(entries[..|entries| - 1]);
      match entries[|entries| - 1]
      case None => env
      case Some((k, v)) => env[k := v]
  }

  /** Every line parsed on its own. */
  function ParseAll(lines: seq<string>): (r: seq<Option<(string, string)>>)
    ensures |r| == |lines|
    decreases |lines|
  {
    if |lines| == 0 then [] else ParseAll(lines[..|lines| - 1]) + [ParseLine(lines[|lines| - 1])]
  }

  /** Entry `i` is line `i` parsed. */
  lemma {:induction false} ParseAllAt(lines: seq<string>, i: nat)
    requires i < |lines|
    ensures ParseAll(lines)[i] == ParseLine(lines[i])
    decreases |lines|
  {
    if i < |lines| - 1 {
      ParseAllAt(lines[..|lines| - 1], i);
    }
  }

  /** The dictionary `load_env` builds from the lines of an existing file. */
  function EnvOf(lines: seq<string>): map<string, string> {
    Collect(ParseAll(lines))
  }

  /** The dictionary `load_env` returns: empty when there is no `.env` file. */
  function EnvFile(file: Option<seq<string>>): map<string, string> {
    match file
    case None => map[]
    case Some(lines) => EnvOf(lines)
  }

  /** The parsed entry sets `key`. */
  predicate Sets(entry: Option<(string, string)>, key: string) {
    entry.Some? && entry.value.0 == key
  }

  /** `line` gives an entry for `key`. */
  predicate Defines(line: string, key: string) {
    Sets(ParseLine(line), key)
  }

  /** Adding an entry at the end: it goes over the others. */
  lemma CollectSnoc(entries: seq<Option<(string, string)>>, e: Option<(string, string)>)
    ensures Collect(entries + [e]) == match e
                                      case None => Collect(entries)
                                      case Some((k, v)) => Collect(entries)[k := v]
  {
    assert (entries + [e])[..|entries|] == entries;
  }

  /** Adding a line at the end of the file: its entry, if any, goes over the others. */
  lemma EnvOfSnoc(lines: seq<string>, line: string)
    ensures EnvOf(lines + [line]) == match ParseLine(line)
                                     case None => EnvOf(lines)
                                     case Some((k, v)) => EnvOf(lines)[k := v]
  {
    assert (lines + [line])[..|lines|] == lines;
    CollectSnoc(ParseAll(lines), ParseLine(line));
  }

  /** `load_env` as the source writes it: a loop over the file's lines filling `envVars`. */
  method LoadEnv(file: Option<seq<string>>) returns (envVars: map<string, string>)
    ensures envVars == EnvFile(file)
  {
    envVars := map[];
    if file.Some? {
      var lines := file.value;
      for n := 0 to |lines|
        invariant envVars == EnvOf(lines[..n])
      {
        assert lines[..n + 1] == lines[..n] + [lines[n]];
        EnvOfSnoc(lines[..n], lines[n]);
        var t := Strip(lines[n]);
        if |t| > 0 && t[0] != '#' && '=' in t {
          var i := IndexOf(t, '=');
          var key, value := t[..i], t[i + 1..];
          assert ParseLine(lines[n]) == Some((Strip(key), Strip(value)));
          envVars := envVars[Strip(key) := Strip(value)];
        } else {
          assert ParseLine(lines[n]) == None;
        }
      }
      assert lines[..|lines|] == lines;
    }
  }

  /** A parsed key holds no `=`, and key and value carry no surrounding whitespace. */
  lemma ParseLineShape(line: string)
    requires ParseLine(line).Some?
    ensures '=' !in ParseLine(line).value.0
    ensures IsStripped(ParseLine(line).value.0) && IsStripped(ParseLine(line).value.1)
  {
    var t := Strip(line);
    var i := IndexOf(t, '=');
    StripStrips(t[..i]);
    StripStrips(t[i + 1..]);
  }

  /** The first `=` of a line whose first `|key|` characters are `key`, with no `=`
      among them, followed by `=`, is the one right after the key. */
  lemma FirstEquals(key: string, line: string)
    requires '=' !in key && |key| < |line| && line[..|key|] == key && line[|key|] == '='
    ensures '=' in line && IndexOf(line, '=') == |key|
  {
    var i := IndexOf(line, '=');
    assert forall j :: 0 <= j < |key| ==> line[j] == key[j];
  }

  /** A line made of a key, `=` and a value parses back to that key and value, as long
      as the key has no `=`, does not start with `#`, and neither side has surrounding
      whitespace. */
  lemma ParseSides(key: string, value: string, line: string)
    requires '=' !in key && IsStripped(key) && IsStripped(value)
    requires |key| == 0 || key[0] != '#'
    requires |key| < |line| && line[..|key|] == key && line[|key|] == '=' && line[|key| + 1..] == value
    ensures ParseLine(line) == Some((key, value))
  {
    FirstEquals(key, line);
    assert line[0] != '#' && !IsSpace(line[0]) by {
      if |key| > 0 {
        assert line[0] == key[0];
      }
    }
    assert !IsSpace(line[|line| - 1]) by {
      if |value| > 0 {
        assert line[|line| - 1] == value[|value| - 1];
      }
    }
    ParseStripped(line);
    StripStripped(key);
    StripStripped(value);
  }

  /** A line that is already stripped, is not a comment and holds `=` splits at its first `=`. */
  lemma ParseStripped(t: string)
    requires IsStripped(t) && |t| > 0 && t[0] != '#' && '=' in t
    ensures ParseLine(t) == Some((Strip(t[..IndexOf(t, '=')]), Strip(t[IndexOf(t, '=') + 1..])))
  {
    StripStripped(t);
  }

  /** Writing `key=value` and parsing it gives the pair back, as long as the key has
      no `=`, does not start with `#`, and neither side has surrounding whitespace. */
  lemma ParseFormatted(key: string, value: string)
    requires '=' !in key && IsStripped(key) && IsStripped(value)
    requires |key| == 0 || key[0] != '#'
    ensures ParseLine(key + "=" + value) == Some((key, value))
  {
    var line := key + "=" + value;
    assert line[..|key|] == key && line[|key|] == '=' && line[|key| + 1..] == value;
    ParseSides(key, value, line);
  }

  /** A key is in the collected dictionary exactly when some entry sets it, and then
      its value is the one from the last entry that sets it. */
  lemma {:induction false} CollectLookup(entries: seq<Option<(string, string)>>, key: string)
    ensures key in Collect(entries) <==> exists i :: 0 <= i < |entries| && Sets(entries[i], key)
    ensures key in Collect(entries) ==>
      exists i :: 0 <= i < |entries| && Sets(entries[i], key) &&
                  Collect(entries)[key] == entries[i].value.1 &&
                  forall j :: i < j < |entries| ==> !Sets(entries[j], key)
    decreases |entries|
  {
    if |entries| > 0 {
      var n := |entries| - 1;
      var init, last := entries[..n], entries[n];
      assert entries == init + [last];
      CollectSnoc(init, last);
      CollectLookup(init, key);
      if Sets(last, key) {
        assert Collect(entries)[key] == entries[n].value.1;
        assert Sets(entries[n], key);
      } else {
        assert key in Collect(entries) <==> key in Collect(init);
        if key in Collect(init) {
          assert Collect(entries)[key] == Collect(init)[key];
          var i :| 0 <= i < n && Sets(init[i], key) &&
                   Collect(init)[key] == init[i].value.1 &&
                   forall j :: i < j < n ==> !Sets(init[j], key);
          assert init[i] == entries[i];
          assert forall j :: i < j < |entries| ==> !Sets(entries[j], key) by {
            forall j | i < j < |entries| ensures !Sets(entries[j], key) {
              if j < n {
                assert init[j] == entries[j];
              }
            }
          }
        }
        if exists i :: 0 <= i < |entries| && Sets(entries[i], key) {
          var i :| 0 <= i < |entries| && Sets(entries[i], key);
          assert i < n && init[i] == entries[i];
        }
      }
    }
  }

  /** A key is in the `.env` dictionary exactly when some line defines it, and then its
      value is the one from the last line that defines it. */
  lemma EnvLookup(lines: seq<string>, key: string)
    ensures key in EnvOf(lines) <==> exists i :: 0 <= i < |lines| && Defines(lines[i], key)
    ensures key in EnvOf(lines) ==>
      exists i :: 0 <= i < |lines| && Defines(lines[i], key) &&
                  EnvOf(lines)[key] == ParseLine(lines[i]).value.1 &&
                  forall j :: i < j < |lines| ==> !Defines(lines[j], key)
  {
    var entries := ParseAll(lines);
    CollectLookup(entries, key);
    forall i | 0 <= i < |lines| ensures entries[i] == ParseLine(lines[i]) {
      ParseAllAt(lines, i);
    }
  }

  /** A blank line, a `#` comment or a line without `=` leaves the dictionary as it was. */
  lemma SkippedLine(lines: seq<string>, line: string)
    requires |Strip(line)| == 0 || Strip(line)[0] == '#' || '=' !in Strip(line)
    ensures EnvOf(lines + [line]) == EnvOf(lines)
  {
    EnvOfSnoc(lines, line);
  }
}
