/** The autoexec patcher `create_autoexec_with_sensitivity`: it copies every line of
    the template and, driven by a one-bit state (`header_found`), inserts a
    three-line sensitivity block after a header's closing marker line.
    Marker and title are recognised by substring containment, not by whole lines. */
module Autoexec {
  import opened Text

  /** The header's delimiter: `//`, a space and 25 `=` signs. */
  const Marker: string := "// ========================="
  /** The header's title. */
  const Title: string := "CS2 AUTOEXEC"
  /** The comment line of the inserted block. */
  const BlockComment: string := "// Sensitivity (randomized)"

  /** The console command that sets the value `v` (already rendered as text). */
  function SensitivityLine(v: string): string {
    "sensitivity \"" + v + "\""
  }

  /** The block inserted after a closing marker: an empty line, a comment, the command. */
  function Block(v: string): seq<string> {
    ["", BlockComment, SensitivityLine(v)]
  }

  /** One turn of the loop: given `header_found` before `line`, the flag after it and
      whether a block is inserted after it. A marker line seen while the flag is down
      is skipped outright (`continue`), even when it also holds the title. */
  function Step(found: bool, line: string): (bool, bool) {
    if Contains(line, Marker) && !found then (false, false)
    else
      var f := found || Contains(line, Title);
      if f && Contains(line, Marker) then (false, true) else (f, false)
  }

  /** For each line, whether a block is inserted right after it, starting with the flag `found`. */
  function Insertions(lines: seq<string>, found: bool): (r: seq<bool>)
    ensures |r| == |lines|
    decreases |lines|
  {
    if |lines| == 0 then []
    else
      var (f, ins) := Step(found, lines[0]);
      [ins] + Insertions(lines[1..], f)
  }

  /** Each line in turn, followed by `Block(v)` where its flag is set. */
  function Weave(lines: seq<string>, flags: seq<bool>, v: string): seq<string>
    requires |flags| == |lines|
    decreases |lines|
  {
    if |lines| == 0 then []
    else [lines[0]] + (if flags[0] then Block(v) else []) + Weave(lines[1..], flags[1..], v)
  }

  /** The patched line list for template lines `lines` and value `v`. */
  function PatchLines(lines: seq<string>, v: string): seq<string> {
    Weave(lines, Insertions(lines, false), v)
  }

  /** The patched text: split on newlines, patch, join with newlines. */
  function PatchText(baseContent: string, v: string): string {
    Join(PatchLines(Split(baseContent), v))
  }

  /** Removes the inserted blocks from patched output again: it re-runs the state
      machine over the lines it keeps and drops the three lines after every line
      where the machine inserts. It does not need to know the value. */
  function Restore(out: seq<string>, found: bool): seq<string>
    decreases |out|
  {
    if |out| == 0 then []
    else
      var (f, ins) := Step(found, out[0]);
      var next := if ins && |out| >= 4 then 4 else 1;
      [out[0]] + Restore(out[next..], f)
  }

  /** The number of set flags. */
  function CountTrue(flags: seq<bool>): nat
    decreases |flags|
  {
    if |flags| == 0 then 0 else (if flags[0] then 1 else 0) + CountTrue(flags[1..])
  }

  /** The number of lines containing the title. */
  function CountTitles(lines: seq<string>): nat
    decreases |lines|
  {
    if |lines| == 0 then 0
    else (if Contains(lines[0], Title) then 1 else 0) + CountTitles(lines[1..])
  }

  /** One turn of the loop keeps the loop's invariant: the output so far followed by
      the patched rest of the lines is the whole patched template. */
  lemma PatchSuffixStep(lines: seq<string>, i: nat, found: bool, v: string, acc: seq<string>)
    requires i < |lines|
    requires acc + Weave(lines[i..], Insertions(lines[i..], found), v) == PatchLines(lines, v)
    ensures var (f, ins) := Step(found, lines[i]);
      (acc + [lines[i]] + (if ins then Block(v) else [])) +
      Weave(lines[i + 1..], Insertions(lines[i + 1..], f), v) == PatchLines(lines, v)
  {
    var rest := lines[i..];
    assert rest[1..] == lines[i + 1..];
    assert rest[0] == lines[i];
  }

  /** No line contains `p`. */
  predicate NoLineContains(lines: seq<string>, p: string) {
    forall k :: 0 <= k < |lines| ==> !Contains(lines[k], p)
  }

  /** One turn of the source's loop on `line`: append it, then, as `Step` decides,
      skip on a marker seen with the flag down, raise the flag on the title, and on a
      marker with the flag up append the block and lower the flag. */
  method PatchLine(newLines: seq<string>, headerFound: bool, line: string, sensitivity: string)
    returns (out: seq<string>, found: bool)
    ensures found == Step(headerFound, line).0
    ensures out == newLines + [line] + (if Step(headerFound, line).1 then Block(sensitivity) else [])
  {
    out := newLines + [line];
    found := headerFound;
    if Contains(line, Marker) && !found {
      return;
    }
    if Contains(line, Title) {
      found := true;
    }
    if found && Contains(line, Marker) {
      out := out + [""];
      out := out + [BlockComment];
      out := out + [SensitivityLine(sensitivity)];
      found := false;
    }
  }

  /** The patcher as the source writes it: a loop that appends every line to
      `newLines` and, when the flag and a marker meet, the block after it. */
  method CreateAutoexecWithSensitivity(baseContent: string, sensitivity: string)
    returns (content: string)
    ensures content == PatchText(baseContent, sensitivity)
  {
    var lines := Split(baseContent);
    var newLines: seq<string> := [];
    var headerFound := false;
    for i := 0 to |lines|
      invariant newLines + Weave(lines[i..], Insertions(lines[i..], headerFound), sensitivity)
                == PatchLines(lines, sensitivity)
    {
      PatchSuffixStep(lines, i, headerFound, sensitivity, newLines);
      newLines, headerFound := PatchLine(newLines, headerFound, lines[i], sensitivity);
    }
    assert lines[|lines|..] == [];
    assert Weave(lines[|lines|..], Insertions(lines[|lines|..], headerFound), sensitivity) == [];
    assert newLines == PatchLines(lines, sensitivity);
    content := Join(newLines);
  }

  /** Deleting the inserted blocks gives back exactly the template lines. */
  lemma {:induction false} RestorePatch(lines: seq<string>, found: bool, v: string)
    ensures Restore(Weave(lines, Insertions(lines, found), v), found) == lines
    decreases |lines|
  {
    if |lines| > 0 {
      assert [lines[0]] + lines[1..] == lines;
      var (f, ins) := Step(found, lines[0]);
      var tail := Weave(lines[1..], Insertions(lines[1..], f), v);
      WeaveHead(lines, found, v);
      RestoreHead(lines[0], found, if ins then Block(v) else [], tail);
      RestorePatch(lines[1..], f, v);
    }
  }

  /** The patched lines open with the first line and its block, then the patched rest. */
  lemma WeaveHead(lines: seq<string>, found: bool, v: string)
    requires |lines| > 0
    ensures var (f, ins) := Step(found, lines[0]);
      Weave(lines, Insertions(lines, found), v)
      == [lines[0]] + (if ins then Block(v) else []) + Weave(lines[1..], Insertions(lines[1..], f), v)
  {
    var (f, ins) := Step(found, lines[0]);
    var flags := Insertions(lines, found);
    assert flags[0] == ins;
    assert flags[1..] == Insertions(lines[1..], f);
  }

  /** `Restore` keeps the first line, skips the three lines after it where the state
      machine inserts, and goes on with the rest. */
  lemma RestoreHead(line: string, found: bool, block: seq<string>, tail: seq<string>)
    requires |block| == (if Step(found, line).1 then 3 else 0)
    ensures Restore([line] + block + tail, found) == [line] + Restore(tail, Step(found, line).0)
  {
    var out := [line] + block + tail;
    assert out[0] == line;
    assert out[1 + |block|..] == tail;
  }

  /** The patched template is the template again once the blocks are deleted. */
  lemma PatchRestores(lines: seq<string>, v: string)
    ensures Restore(PatchLines(lines, v), false) == lines
  {
    RestorePatch(lines, false, v);
  }

  /** A block is only ever inserted after a line containing the marker. */
  lemma {:induction false} InsertionFollowsMarker(lines: seq<string>, found: bool, i: nat)
    requires i < |lines| && Insertions(lines, found)[i]
    ensures Contains(lines[i], Marker)
    decreases |lines|
  {
    var (f, ins) := Step(found, lines[0]);
    if i > 0 {
      assert Insertions(lines, found)[i] == Insertions(lines[1..], f)[i - 1];
      InsertionFollowsMarker(lines[1..], f, i - 1);
    }
  }

  /** The patched output has three more lines per insertion. */
  lemma {:induction false} WeaveLength(lines: seq<string>, flags: seq<bool>, v: string)
    requires |flags| == |lines|
    ensures |Weave(lines, flags, v)| == |lines| + 3 * CountTrue(flags)
    decreases |lines|
  {
    if |lines| > 0 {
      WeaveLength(lines[1..], flags[1..], v);
    }
  }

  /** Counting the flags of a prefix: its first flag, then the rest of the prefix. */
  lemma CountPrefix(flags: seq<bool>, i: nat)
    requires 0 < i <= |flags|
    ensures CountTrue(flags[..i]) == (if flags[0] then 1 else 0) + CountTrue(flags[1..][..i - 1])
  {
    assert flags[..i][1..] == flags[1..][..i - 1];
    assert flags[..i][0] == flags[0];
  }

  /** What the output holds for line `i`: the line, then its block if it is flagged. */
  function Chunk(lines: seq<string>, flags: seq<bool>, v: string, i: nat): seq<string>
    requires |flags| == |lines| && i < |lines|
  {
    [lines[i]] + (if flags[i] then Block(v) else [])
  }

  /** Line `i`'s chunk sits in the output after the `i` earlier lines and the blocks
      inserted after them: the output is the chunks in the order of the lines. */
  lemma {:induction false} WeaveChunkAt(lines: seq<string>, flags: seq<bool>, v: string, i: nat, d: nat)
    requires |flags| == |lines| && i < |lines| && d < |Chunk(lines, flags, v, i)|
    ensures i + 3 * CountTrue(flags[..i]) + d < |Weave(lines, flags, v)|
    ensures Weave(lines, flags, v)[i + 3 * CountTrue(flags[..i]) + d] == Chunk(lines, flags, v, i)[d]
    decreases |lines|
  {
    var head := Chunk(lines, flags, v, 0);
    var tail := Weave(lines[1..], flags[1..], v);
    assert Weave(lines, flags, v) == head + tail;
    if i > 0 {
      assert Chunk(lines, flags, v, i) == Chunk(lines[1..], flags[1..], v, i - 1);
      WeaveChunkAt(lines[1..], flags[1..], v, i - 1, d);
      CountPrefix(flags, i);
    }
  }

  /** Where template line `i` and its block, if any, sit in the patched output. */
  lemma PatchLayout(lines: seq<string>, v: string, i: nat)
    requires i < |lines|
    ensures var flags := Insertions(lines, false);
      var out := PatchLines(lines, v);
      var p := i + 3 * CountTrue(flags[..i]);
      |out| == |lines| + 3 * CountTrue(flags) &&
      p < |out| && out[p] == lines[i] &&
      (flags[i] ==> Contains(lines[i], Marker) && p + 4 <= |out| && out[p + 1..p + 4] == Block(v))
  {
    var flags := Insertions(lines, false);
    WeaveLength(lines, flags, v);
    var out := PatchLines(lines, v);
    var p := i + 3 * CountTrue(flags[..i]);
    WeaveChunkAt(lines, flags, v, i, 0);
    if flags[i] {
      WeaveChunkAt(lines, flags, v, i, 1);
      WeaveChunkAt(lines, flags, v, i, 2);
      WeaveChunkAt(lines, flags, v, i, 3);
      assert out[p + 1..p + 4] == Block(v);
      InsertionFollowsMarker(lines, false, i);
    }
  }

  /** Each insertion needs a title line: there are at most as many insertions as
      title lines, plus one if the flag was already up. */
  lemma {:induction false} InsertionsBound(lines: seq<string>, found: bool)
    ensures CountTrue(Insertions(lines, found)) <= CountTitles(lines) + (if found then 1 else 0)
    decreases |lines|
  {
    if |lines| > 0 {
      var (f, ins) := Step(found, lines[0]);
      assert Insertions(lines, found) == [ins] + Insertions(lines[1..], f);
      assert ([ins] + Insertions(lines[1..], f))[1..] == Insertions(lines[1..], f);
      InsertionsBound(lines[1..], f);
    }
  }

  /** The number of blocks in a patched template is at most the number of title lines. */
  lemma PatchCountBound(lines: seq<string>, v: string)
    ensures CountTrue(Insertions(lines, false)) <= CountTitles(lines)
  {
    InsertionsBound(lines, false);
  }

  /** Every insertion is preceded by a line that holds the title and no marker and
      that raised the flag, with no insertion between it and the insertion's line;
      only with the flag already up can the first insertion go without one. */
  lemma {:induction false} InsertionNeedsTitle(lines: seq<string>, found: bool, j: nat)
    requires j < |lines| && Insertions(lines, found)[j]
    ensures
      (found && forall k :: 0 <= k < j ==> !Insertions(lines, found)[k]) ||
      (exists i :: 0 <= i < j && Contains(lines[i], Title) && !Contains(lines[i], Marker) &&
         forall k :: i <= k < j ==> !Insertions(lines, found)[k])
    decreases |lines|
  {
    var flags := Insertions(lines, found);
    var (f, ins) := Step(found, lines[0]);
    var rest := Insertions(lines[1..], f);
    assert flags == [ins] + rest;
    if j == 0 {
      assert found;
    } else {
      assert rest[j - 1];
      InsertionNeedsTitle(lines[1..], f, j - 1);
      if exists i :: 0 <= i < j - 1 && Contains(lines[1..][i], Title) && !Contains(lines[1..][i], Marker) &&
           forall k :: i <= k < j - 1 ==> !rest[k] {
        var i :| 0 <= i < j - 1 && Contains(lines[1..][i], Title) && !Contains(lines[1..][i], Marker) &&
           forall k :: i <= k < j - 1 ==> !rest[k];
        assert lines[1..][i] == lines[i + 1];
        assert forall k :: i + 1 <= k < j ==> !flags[k] by {
          forall k | i + 1 <= k < j ensures !flags[k] {
            assert flags[k] == rest[k - 1];
          }
        }
      } else {
        assert f && forall k :: 0 <= k < j - 1 ==> !rest[k];
        assert !ins;
        assert forall k :: 1 <= k < j ==> !flags[k] by {
          forall k | 1 <= k < j ensures !flags[k] {
            assert flags[k] == rest[k - 1];
          }
        }
        if !found {
          assert Contains(lines[0], Title) && !Contains(lines[0], Marker);
        }
      }
    }
  }

  /** In a template patched from the start, every block's line has a title line
      before it, after the previous block. */
  lemma PatchInsertionNeedsTitle(lines: seq<string>, j: nat)
    requires j < |lines| && Insertions(lines, false)[j]
    ensures exists i :: 0 <= i < j && Contains(lines[i], Title) && !Contains(lines[i], Marker) &&
                        forall k :: i <= k < j ==> !Insertions(lines, false)[k]
  {
    InsertionNeedsTitle(lines, false, j);
  }

  /** The title line that a block needs, as `PatchInsertionNeedsTitle` finds it. */
  lemma TitleBeforeBlock(lines: seq<string>, j: nat) returns (i: nat)
    requires j < |lines| && Insertions(lines, false)[j]
    ensures i < j && Contains(lines[i], Title)
    ensures forall k :: i <= k < j ==> !Insertions(lines, false)[k]
  {
    PatchInsertionNeedsTitle(lines, j);
    i :| 0 <= i < j && Contains(lines[i], Title) && !Contains(lines[i], Marker) &&
         forall k :: i <= k < j ==> !Insertions(lines, false)[k];
  }

  /** Without set flags the output is the template lines themselves. */
  lemma {:induction false} WeaveNoFlags(lines: seq<string>, flags: seq<bool>, v: string)
    requires |flags| == |lines| && forall k :: 0 <= k < |flags| ==> !flags[k]
    ensures Weave(lines, flags, v) == lines
    decreases |lines|
  {
    if |lines| > 0 {
      assert !flags[0];
      WeaveNoFlags(lines[1..], flags[1..], v);
      assert [lines[0]] + lines[1..] == lines;
    }
  }

  /** With the flag down and no title line, the flag never rises and nothing is inserted. */
  lemma {:induction false} NoTitleNoInsertion(lines: seq<string>)
    requires NoLineContains(lines, Title)
    ensures forall k :: 0 <= k < |lines| ==> !Insertions(lines, false)[k]
    decreases |lines|
  {
    if |lines| > 0 {
      var flags := Insertions(lines, false);
      assert !Contains(lines[0], Title);
      assert Step(false, lines[0]) == (false, false);
      assert flags == [false] + Insertions(lines[1..], false);
      NoTitleNoInsertion(lines[1..]);
      forall k | 0 <= k < |lines| ensures !flags[k] {
        if k > 0 {
          assert flags[k] == Insertions(lines[1..], false)[k - 1];
        }
      }
    }
  }

  /** Without a marker line nothing is inserted, whatever the flag. */
  lemma {:induction false} NoMarkerNoInsertion(lines: seq<string>, found: bool)
    requires NoLineContains(lines, Marker)
    ensures forall k :: 0 <= k < |lines| ==> !Insertions(lines, found)[k]
    decreases |lines|
  {
    forall k | 0 <= k < |lines|
      ensures !Insertions(lines, found)[k]
    {
      if Insertions(lines, found)[k] {
        InsertionFollowsMarker(lines, found, k);
      }
    }
  }

  /** A template without a title line, or without a marker line, comes back
      unchanged, as text. */
  lemma PatchTextIdentity(baseContent: string, v: string)
    requires NoLineContains(Split(baseContent), Title) || NoLineContains(Split(baseContent), Marker)
    ensures PatchText(baseContent, v) == baseContent
  {
    var lines := Split(baseContent);
    if NoLineContains(lines, Title) {
      NoTitleNoInsertion(lines);
    } else {
      NoMarkerNoInsertion(lines, false);
    }
    WeaveNoFlags(lines, Insertions(lines, false), v);
    JoinSplit(baseContent);
  }

  /** The value of `header_found` just before line `k`, starting from `found`. */
  function FlagBefore(lines: seq<string>, found: bool, k: nat): bool
    requires k <= |lines|
    decreases k
  {
    if k == 0 then found else FlagBefore(lines[1..], Step(found, lines[0]).0, k - 1)
  }

  /** From line `k` on, the loop goes on with the flag it has reached there. */
  lemma {:induction false} InsertionsFrom(lines: seq<string>, found: bool, k: nat)
    requires k <= |lines|
    ensures Insertions(lines, found)[k..] == Insertions(lines[k..], FlagBefore(lines, found, k))
    decreases k
  {
    if k > 0 {
      var (f, ins) := Step(found, lines[0]);
      InsertionsFrom(lines[1..], f, k - 1);
      assert Insertions(lines, found)[k..] == Insertions(lines[1..], f)[k - 1..];
      assert lines[1..][k - 1..] == lines[k..];
    }
  }

  /** With the flag up, lines without a marker keep it up and get no block, and the
      first marker line gets the block. */
  lemma {:induction false} UpUntilMarker(lines: seq<string>, d: nat)
    requires d < |lines| && Contains(lines[d], Marker)
    requires forall k :: 0 <= k < d ==> !Contains(lines[k], Marker)
    ensures Insertions(lines, true)[d]
    ensures forall k :: 0 <= k < d ==> !Insertions(lines, true)[k]
    decreases d
  {
    var flags := Insertions(lines, true);
    if d > 0 {
      assert Step(true, lines[0]) == (true, false);
      assert flags == [false] + Insertions(lines[1..], true);
      UpUntilMarker(lines[1..], d - 1);
      assert forall k :: 1 <= k < d ==> flags[k] == Insertions(lines[1..], true)[k - 1];
    }
  }

  /** A title line `t` without a marker raises the flag, whatever it was, and the
      first marker line `m` after it gets a block; the lines from `t` up to `m` get none. */
  lemma TitleThenFirstMarker(lines: seq<string>, found: bool, t: nat, m: nat)
    requires t < m < |lines|
    requires Contains(lines[t], Title) && !Contains(lines[t], Marker) && Contains(lines[m], Marker)
    requires forall k :: t < k < m ==> !Contains(lines[k], Marker)
    ensures Insertions(lines, found)[m]
    ensures forall k :: t <= k < m ==> !Insertions(lines, found)[k]
  {
    InsertionsFrom(lines, found, t);
    var g := FlagBefore(lines, found, t);
    var rest := lines[t..];
    var after := rest[1..];
    assert rest[0] == lines[t];
    assert Step(g, rest[0]) == (true, false);
    assert Insertions(rest, g) == [false] + Insertions(after, true);
    assert forall k :: 0 <= k < |after| ==> after[k] == lines[t + 1 + k];
    UpUntilMarker(after, m - t - 1);
  }

  /** No set flag means a count of zero. */
  lemma {:induction false} CountNone(flags: seq<bool>)
    requires forall k :: 0 <= k < |flags| ==> !flags[k]
    ensures CountTrue(flags) == 0
    decreases |flags|
  {
    if |flags| > 0 {
      CountNone(flags[1..]);
    }
  }

  /** Exactly one set flag means a count of one. */
  lemma {:induction false} CountSingle(flags: seq<bool>, j: nat)
    requires j < |flags| && flags[j]
    requires forall k :: 0 <= k < |flags| && k != j ==> !flags[k]
    ensures CountTrue(flags) == 1
    decreases |flags|
  {
    if j == 0 {
      CountNone(flags[1..]);
    } else {
      CountSingle(flags[1..], j - 1);
    }
  }

  /** With `t` the only title line and a block after line `m >= t`, any block lies
      after `t` and no later than `m`: it needs its own title line after the previous block. */
  lemma BlockWithinHeader(lines: seq<string>, t: nat, m: nat, j: nat)
    requires t <= m < |lines| && j < |lines|
    requires Insertions(lines, false)[m] && Insertions(lines, false)[j]
    requires forall k :: 0 <= k < |lines| && k != t ==> !Contains(lines[k], Title)
    ensures t < j <= m
  {
    var i := TitleBeforeBlock(lines, j);
    assert i == t;
  }

  /** With `t` the only title line, a block after line `m` and none from `t` up to `m`,
      `m` is the only line with a block. */
  lemma OnlyBlockAt(lines: seq<string>, t: nat, m: nat)
    requires t < m < |lines|
    requires Insertions(lines, false)[m]
    requires forall k :: t <= k < m ==> !Insertions(lines, false)[k]
    requires forall k :: 0 <= k < |lines| && k != t ==> !Contains(lines[k], Title)
    ensures forall k :: 0 <= k < |lines| && k != m ==> !Insertions(lines, false)[k]
  {
    forall j: nat | j < |lines| && (j < t || m < j)
      ensures !Insertions(lines, false)[j]
    {
      if Insertions(lines, false)[j] {
        BlockWithinHeader(lines, t, m, j);
      }
    }
  }

  /** A template with a single header gets exactly one block, right after the header's
      closing marker: the only title line `t` holds no marker, and `m` is the first
      marker line after it, with any number of other lines between them. */
  lemma SingleHeader(lines: seq<string>, v: string, t: nat, m: nat)
    requires t < m < |lines|
    requires Contains(lines[t], Title) && !Contains(lines[t], Marker) && Contains(lines[m], Marker)
    requires forall k :: t < k < m ==> !Contains(lines[k], Marker)
    requires forall k :: 0 <= k < |lines| && k != t ==> !Contains(lines[k], Title)
    ensures var flags := Insertions(lines, false);
      flags[m] && (forall k :: 0 <= k < |lines| && k != m ==> !flags[k]) &&
      CountTrue(flags) == 1
    ensures var out := PatchLines(lines, v);
      |out| == |lines| + 3 && out[m] == lines[m] && out[m + 1..m + 4] == Block(v)
  {
    var flags := Insertions(lines, false);
    TitleThenFirstMarker(lines, false, t, m);
    OnlyBlockAt(lines, t, m);
    CountSingle(flags, m);
    CountNone(flags[..m]);
    PatchLayout(lines, v, m);
  }

  /** The marker line contains the marker. */
  lemma MarkerHasMarker()
    ensures Contains(Marker, Marker)
  {
    assert OccursAt(Marker, Marker, 0);
  }

  /** The shipped template's title line holds the title and no marker. */
  lemma TitleLineFacts()
    ensures Contains("// CS2 AUTOEXEC", Title)
    ensures !Contains("// CS2 AUTOEXEC", Marker)
  {
    var t := "// CS2 AUTOEXEC";
    NotContainsLonger(t, Marker);
    assert OccursAt(t, Title, 3);
  }

  /** The three lines of the shipped template's header, one transition each. */
  lemma ExampleHeaderSteps()
    ensures Step(false, Marker) == (false, false)
    ensures Step(false, "// CS2 AUTOEXEC") == (true, false)
    ensures Step(true, Marker) == (false, true)
  {
    MarkerHasMarker();
    TitleLineFacts();
  }

  /** Where the shipped template's header gets its block: after the closing marker only. */
  lemma ExampleHeaderInsertions()
    ensures Insertions([Marker, "// CS2 AUTOEXEC", Marker], false) == [false, false, true]
  {
    var t := "// CS2 AUTOEXEC";
    var lines := [Marker, t, Marker];
    ExampleHeaderSteps();
    assert lines[1..] == [t, Marker];
    assert lines[1..][1..] == [Marker];
    assert Insertions([Marker], true) == [true];
    assert Insertions([t, Marker], false) == [false, true];
  }

  /** The header of the shipped template: marker, title, marker; value 1.234. */
  lemma ExampleHeader()
    ensures PatchLines([Marker, "// CS2 AUTOEXEC", Marker], "1.234")
         == [Marker, "// CS2 AUTOEXEC", Marker, "", "// Sensitivity (randomized)", "sensitivity \"1.234\""]
  {
    var t := "// CS2 AUTOEXEC";
    var lines := [Marker, t, Marker];
    var flags := [false, false, true];
    ExampleHeaderInsertions();
    assert lines[1..] == [t, Marker];
    assert lines[1..][1..] == [Marker];
    assert flags[1..] == [false, true];
    assert flags[1..][1..] == [true];
    assert Weave([Marker], [true], "1.234") == [Marker] + Block("1.234");
    assert Weave([t, Marker], [false, true], "1.234") == [t, Marker] + Block("1.234");
    assert Weave(lines, flags, "1.234") == [Marker, t, Marker] + Block("1.234");
    assert SensitivityLine("1.234") == "sensitivity \"1.234\"";
  }

  /** Markers shorter than the 25 `=` signs do not count as markers: this
      template comes back unchanged. */
  lemma ExampleShortMarkers()
    ensures PatchLines(["// ====", "CS2 AUTOEXEC", "// ===="], "1.234")
         == ["// ====", "CS2 AUTOEXEC", "// ===="]
  {
    var lines := ["// ====", "CS2 AUTOEXEC", "// ===="];
    NotContainsLonger("// ====", Marker);
    NotContainsLonger("CS2 AUTOEXEC", Marker);
    NoMarkerNoInsertion(lines, false);
    WeaveNoFlags(lines, Insertions(lines, false), "1.234");
  }
}
