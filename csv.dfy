/** The CSV export of the temperature log: a fixed header of eleven columns,
    then one line per reading in log order. Fields are joined by "," and
    lines by "\n", with no quoting and no final newline. */
module Csv {
  import opened Readings
  import opened Text

  /** The decimal digit of `i`, as a template literal renders 0..9. */
  function Digit(i: nat): char
    requires i <= 9
  {
    "0123456789"[i]
  }

  /** The name of the `i`-th `tempDS` column, `tempDS${i}`. */
  function DsName(i: nat): string
    requires 1 <= i <= 9
  {
    "tempDS" + [Digit(i)]
  }

  /** The `tempDS` names pushed by the loop `for (i = from; i <= upto; i++)`. */
  function DsNames(from: nat, upto: nat): (names: seq<string>)
    requires 1 <= from && upto <= 9
    ensures |names| == if from <= upto then upto - from + 1 else 0
    ensures forall k :: 0 <= k < |names| ==> names[k] == DsName(from + k)
    decreases upto + 1 - from
  {
    if from > upto then [] else [DsName(from)] + DsNames(from + 1, upto)
  }

  /** The sensor columns: tempC1, tempF1, tempC2, tempF2, then tempDS1..6. */
  function SensorNames(): seq<string>
  {
    ["tempC1", "tempF1", "tempC2", "tempF2"] + DsNames(1, 6)
  }

  /** Every column of the export, the timestamp first. */
  function Columns(): seq<string>
  {
    [TimestampKey] + SensorNames()
  }

  /** The header line. */
  function Header(): string
  {
    Join(Columns(), ",")
  }

  /** The fields of one reading's line: its timestamp, then its value for
      each sensor column, each rendered as `join` renders it. */
  function Fields(r: Reading): (f: seq<string>)
    ensures |f| == |Columns()|
    ensures forall i :: 0 <= i < |f| ==> f[i] == Cell(r, Columns()[i])
  {
    [Cell(r, TimestampKey)] + seq(|SensorNames()|, i requires 0 <= i < |SensorNames()| => Cell(r, SensorNames()[i]))
  }

  /** One reading's line. */
  function Row(r: Reading): string
  {
    Join(Fields(r), ",")
  }

  /** The lines of all readings, in log order. */
  function Rows(data: seq<Reading>): (rows: seq<string>)
    ensures |rows| == |data|
    ensures forall k :: 0 <= k < |data| ==> rows[k] == Row(data[k])
  {
    seq(|data|, k requires 0 <= k < |data| => Row(data[k]))
  }

  /** The whole CSV text: the header and the rows, one per line. */
  function Document(data: seq<Reading>): string
  {
    Join([Header()] + Rows(data), "\n")
  }

  /** A reading is plain when none of its exported fields contains a field
      or line separator; only then can the CSV be read back unambiguously. */
  predicate Plain(r: Reading)
  {
    forall i :: 0 <= i < |Columns()| ==> ',' !in Cell(r, Columns()[i]) && '\n' !in Cell(r, Columns()[i])
  }

  /** The loop builds exactly the ten sensor names, in this order. */
  lemma SensorNamesAre()
    ensures SensorNames() == ["tempC1", "tempF1", "tempC2", "tempF2",
                              "tempDS1", "tempDS2", "tempDS3", "tempDS4", "tempDS5", "tempDS6"]
  {
    var ds := DsNames(1, 6);
    assert ds == [DsName(1), DsName(2), DsName(3), DsName(4), DsName(5), DsName(6)];
    assert DsName(1) == "tempDS1";
    assert DsName(2) == "tempDS2";
    assert DsName(3) == "tempDS3";
    assert DsName(4) == "tempDS4";
    assert DsName(5) == "tempDS5";
    assert DsName(6) == "tempDS6";
  }

  /** The eleven columns, in this fixed order. */
  lemma ColumnsAre()
    ensures Columns() == ["timestamp", "tempC1", "tempF1", "tempC2", "tempF2",
                          "tempDS1", "tempDS2", "tempDS3", "tempDS4", "tempDS5", "tempDS6"]
  {
    SensorNamesAre();
  }

  /** No column name holds a separator, and the timestamp is not a sensor. */
  lemma ColumnNamesPlain()
    ensures forall i :: 0 <= i < |Columns()| ==> ',' !in Columns()[i] && '\n' !in Columns()[i]
    ensures TimestampKey !in SensorNames()
  {
  }

  /** The header is the column names joined by ","; it has no newline and
      splits on "," into exactly the eleven columns. */
  lemma HeaderIs()
    ensures |Columns()| == 11
    ensures '\n' !in Header()
    ensures Split(Header(), ',') == Columns()
  {
    ColumnNamesPlain();
    SplitJoin(Columns(), ',');
    JoinAvoids(Columns(), ",", '\n');
  }

  /** A line of at least two fields is not empty. */
  lemma JoinedNonEmpty(parts: seq<string>, sep: string)
    requires |parts| >= 2 && |sep| >= 1
    ensures |Join(parts, sep)| >= 1
  {
  }

  /** A plain reading's line has no newline, and splitting it on "," gives
      back its eleven fields. */
  lemma {:induction false} RowFields(r: Reading)
    requires Plain(r)
    ensures '\n' !in Row(r)
    ensures |Row(r)| >= 1
    ensures Split(Row(r), ',') == Fields(r)
  {
    var f := Fields(r);
    assert forall i :: 0 <= i < |f| ==> ',' !in f[i] && '\n' !in f[i];
    SplitJoin(f, ',');
    JoinAvoids(f, ",", '\n');
    JoinedNonEmpty(f, ",");
  }

  /** Fields outside the eleven columns never reach a line: adding, changing
      or dropping one leaves the line as it was. */
  lemma RowIgnoresOtherKeys(r: Reading, key: string, v: Value)
    requires key !in Columns()
    ensures Row(r[key := v]) == Row(r)
    ensures Row(r - {key}) == Row(r)
  {
    assert Fields(r[key := v]) == Fields(r);
    assert Fields(r - {key}) == Fields(r);
  }

  /** Every line of a log of plain readings is non-empty, has no newline
      and splits on "," into its reading's fields. */
  lemma RowsPlain(data: seq<Reading>)
    requires forall k :: 0 <= k < |data| ==> Plain(data[k])
    ensures forall k :: 0 <= k < |data| ==>
              && '\n' !in Rows(data)[k]
              && |Rows(data)[k]| >= 1
              && Split(Rows(data)[k], ',') == Fields(data[k])
  {
    forall k | 0 <= k < |data|
      ensures '\n' !in Row(data[k]) && |Row(data[k])| >= 1 && Split(Row(data[k]), ',') == Fields(data[k])
    {
      RowFields(data[k]);
    }
  }

  /** Reading the export back: when every reading is plain, splitting the
      document on "\n" gives the header and then exactly one line per
      reading, in log order, and each line splits on "," into that
      reading's fields. */
  lemma {:induction false} DocumentLines(data: seq<Reading>)
    requires forall k :: 0 <= k < |data| ==> Plain(data[k])
    ensures var lines := Split(Document(data), '\n');
            && |lines| == |data| + 1
            && lines[0] == Header()
            && (forall k :: 0 <= k < |data| ==> lines[k + 1] == Row(data[k]))
            && (forall k :: 0 <= k < |data| ==> Split(lines[k + 1], ',') == Fields(data[k]))
  {
    var rows := Rows(data);
    var parts := [Header()] + rows;
    HeaderIs();
    RowsPlain(data);
    forall i | 0 <= i < |parts|
      ensures '\n' !in parts[i]
    {
      if i > 0 { assert parts[i] == rows[i - 1]; }
    }
    SplitJoin(parts, '\n');
    var lines := Split(Document(data), '\n');
    assert lines == parts;
    forall k | 0 <= k < |data|
      ensures lines[k + 1] == Row(data[k]) && Split(lines[k + 1], ',') == Fields(data[k])
    {
      assert lines[k + 1] == rows[k];
    }
  }

  /** When every reading is plain, the document is not empty and does not
      end with a newline. */
  lemma {:induction false} NoTrailingNewline(data: seq<Reading>)
    requires forall k :: 0 <= k < |data| ==> Plain(data[k])
    ensures |Document(data)| >= 1
    ensures Document(data)[|Document(data)| - 1] != '\n'
  {
    var rows := Rows(data);
    var parts := [Header()] + rows;
    var last := parts[|parts| - 1];
    HeaderIs();
    JoinedNonEmpty(Columns(), ",");
    RowsPlain(data);
    assert '\n' !in last && |last| >= 1;
    JoinLastChar(parts, "\n");
  }

  /** The line of a freshly posted reading: its first field is the body's
      own timestamp when it sent one and the posting time otherwise; every
      sensor field is the body's. */
  lemma PostedFields(body: Reading, now: string)
    ensures Fields(Stamp(body, now))[0] == if TimestampKey in body then Cell(body, TimestampKey) else now
    ensures Fields(Stamp(body, now))[1..] == Fields(body)[1..]
  {
    ColumnNamesPlain();
    forall i | 1 <= i < |Columns()|
      ensures Fields(Stamp(body, now))[i] == Fields(body)[i]
    {
      StampedCell(body, now, Columns()[i]);
    }
  }
}
