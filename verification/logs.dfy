/** `log_to_csv` and `log_to_json` as values: what each log file holds after an
    append. A file that does not exist is `None`; rows and records are kept as
    data, not as their CSV or JSON text. */
module Logs {
  import opened Wrappers

  /** One change: when, which value, and the full patched autoexec text. */
  datatype Entry = Entry(timestamp: string, sensitivity: real, autoexecContent: string)

  /** A CSV row: the header `timestamp,sensitivity,autoexec_content`, or a change. */
  datatype Row = HeaderRow | DataRow(entry: Entry)

  /** The CSV file after one append: the header is written first only when the file
      did not exist. */
  function CsvAppend(file: Option<seq<Row>>, e: Entry): seq<Row> {
    (match file
     case None => [HeaderRow]
     case Some(rows) => rows) + [DataRow(e)]
  }

  /** The JSON list after one append: the existing list, or an empty one, with the entry at its end. */
  function JsonAppend(file: Option<seq<Entry>>, e: Entry): seq<Entry> {
    file.GetOr([]) + [e]
  }

  /** The CSV file after appending `es` one call at a time. */
  function CsvAppendAll(file: Option<seq<Row>>, es: seq<Entry>): Option<seq<Row>>
    decreases |es|
  {
    if |es| == 0 then file else CsvAppendAll(Some(CsvAppend(file, es[0])), es[1..])
  }

  /** The JSON file after appending `es` one call at a time. */
  function JsonAppendAll(file: Option<seq<Entry>>, es: seq<Entry>): Option<seq<Entry>>
    decreases |es|
  {
    if |es| == 0 then file else JsonAppendAll(Some(JsonAppend(file, es[0])), es[1..])
  }

  /** One data row per entry, in order. */
  function DataRows(es: seq<Entry>): (r: seq<Row>)
    ensures |r| == |es|
  {
    seq(|es|, i requires 0 <= i < |es| => DataRow(es[i]))
  }

  /** Data rows of two runs of entries follow each other. */
  lemma DataRowsAppend(a: seq<Entry>, b: seq<Entry>)
    ensures DataRows(a + b) == DataRows(a) + DataRows(b)
  {
    assert forall i :: 0 <= i < |a| + |b| ==> DataRows(a + b)[i] == (DataRows(a) + DataRows(b))[i];
  }

  /** Appending to an existing CSV file adds one data row per call, in call order,
      and no header. */
  lemma {:induction false} CsvAppendAllExisting(rows: seq<Row>, es: seq<Entry>)
    ensures CsvAppendAll(Some(rows), es) == Some(rows + DataRows(es))
    decreases |es|
  {
    if |es| > 0 {
      assert CsvAppend(Some(rows), es[0]) == rows + [DataRow(es[0])];
      CsvAppendAllExisting(rows + [DataRow(es[0])], es[1..]);
      assert es == [es[0]] + es[1..];
      DataRowsAppend([es[0]], es[1..]);
      assert DataRows([es[0]]) == [DataRow(es[0])];
      assert rows + [DataRow(es[0])] + DataRows(es[1..]) == rows + DataRows(es);
    } else {
      assert rows + DataRows(es) == rows;
    }
  }

  /** N appends starting from no file give one header row, then N data rows in call order. */
  lemma CsvFromNothing(es: seq<Entry>)
    requires |es| > 0
    ensures CsvAppendAll(None, es) == Some([HeaderRow] + DataRows(es))
    ensures forall i :: 0 < i <= |es| ==> CsvAppendAll(None, es).value[i] == DataRow(es[i - 1])
  {
    assert CsvAppend(None, es[0]) == [HeaderRow, DataRow(es[0])];
    CsvAppendAllExisting([HeaderRow, DataRow(es[0])], es[1..]);
    assert es == [es[0]] + es[1..];
    DataRowsAppend([es[0]], es[1..]);
    assert DataRows([es[0]]) == [DataRow(es[0])];
    assert [HeaderRow, DataRow(es[0])] + DataRows(es[1..]) == [HeaderRow] + DataRows(es);
  }

  /** N appends to the JSON list add exactly those N entries at its end, earlier entries unchanged. */
  lemma {:induction false} JsonAppendAllSpec(file: Option<seq<Entry>>, es: seq<Entry>)
    requires |es| > 0
    ensures JsonAppendAll(file, es) == Some(file.GetOr([]) + es)
    decreases |es|
  {
    if |es| > 1 {
      JsonAppendAllSpec(Some(file.GetOr([]) + [es[0]]), es[1..]);
      assert file.GetOr([]) + [es[0]] + es[1..] == file.GetOr([]) + es;
    } else {
      assert es == [es[0]];
    }
  }

  /** The two logs agree: both absent, or the CSV rows are the header followed by
      one row per JSON entry, in the same order. */
  predicate InSync(csv: Option<seq<Row>>, json: Option<seq<Entry>>) {
    (csv.None? && json.None?) ||
    (csv.Some? && json.Some? && csv.value == [HeaderRow] + DataRows(json.value))
  }

  /** Logging one change to both files keeps them in agreement. */
  lemma InSyncAppend(csv: Option<seq<Row>>, json: Option<seq<Entry>>, e: Entry)
    requires InSync(csv, json)
    ensures InSync(Some(CsvAppend(csv, e)), Some(JsonAppend(json, e)))
  {
    if json.Some? {
      DataRowsAppend(json.value, [e]);
    }
  }

  /** Two appends to a missing JSON log give the two entries in call order. */
  lemma TwoAppendsExample(t1: string, t2: string)
    ensures JsonAppendAll(None, [Entry(t1, 1.0, "a"), Entry(t2, 2.0, "b")])
         == Some([Entry(t1, 1.0, "a"), Entry(t2, 2.0, "b")])
  {
    var es := [Entry(t1, 1.0, "a"), Entry(t2, 2.0, "b")];
    JsonAppendAllSpec(None, es);
    assert None.GetOr([]) + es == es;
  }
}
