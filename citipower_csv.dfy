/** The narrow CitiPower export decoder (src/model/citipower-csv.ts): a first-line
    field count as the validity check, and a row step that keeps only consumption
    ("E1") rows and turns their `HH:MM` time into a decimal half-hour key. */
module CitiPowerCsv {
  import opened Wrappers
  import opened Records

  /** A data row as the CSV reader delivers it without a header: the cells in order.
      `row[i]` for `i >= |row|` is `undefined` in the source. */
  type Row = seq<string>

  /** How many leading characters of the file `validateCsv` reads. */
  const HeadSliceLength: nat := 825

  /** The number of fields the first line must have. */
  const ExpectedColumns: nat := 12

  // ---------------------------------------------------------------------------
  // String helpers with JavaScript's meaning

  /** `s.split(sep)` for a one-character separator: the pieces between separators,
      including empty ones; a string without `sep` gives one piece, itself. */
  function Split(s: string, sep: char): (pieces: seq<string>)
    ensures |pieces| >= 1
    decreases |s|
  {
    if |s| == 0 then [""]
    else
      var rest := Split(s[1..], sep);
      if s[0] == sep then [""] + rest else [[s[0]] + rest[0]] + rest[1..]
  }

  /** The pieces joined back with `sep` between them. */
  function Join(pieces: seq<string>, sep: char): string
    requires |pieces| >= 1
    decreases |pieces|
  {
    if |pieces| == 1 then pieces[0] else pieces[0] + [sep] + Join(pieces[1..], sep)
  }

  /** How many times `c` occurs in `s`. */
  function Occurrences(s: string, c: char): nat
    decreases |s|
  {
    if |s| == 0 then 0 else (if s[0] == c then 1 else 0) + Occurrences(s[1..], c)
  }

  /** Splitting loses nothing: joining the pieces with the separator gives back the
      text, and no piece contains the separator. */
  lemma {:induction false} SplitJoin(s: string, sep: char)
    ensures Join(Split(s, sep), sep) == s
    ensures forall i :: 0 <= i < |Split(s, sep)| ==> sep !in Split(s, sep)[i]
    decreases |s|
  {
    if |s| > 0 {
      var rest := Split(s[1..], sep);
      SplitJoin(s[1..], sep);
      if s[0] == sep {
        assert Split(s, sep) == [""] + rest;
        assert Split(s, sep)[1..] == rest;
        assert Join(Split(s, sep), sep) == "" + [sep] + s[1..];
        assert s == [s[0]] + s[1..];
      } else {
        var pieces := Split(s, sep);
        assert pieces == [[s[0]] + rest[0]] + rest[1..];
        if |rest| == 1 {
          assert Join(pieces, sep) == [s[0]] + rest[0];
        } else {
          assert pieces[1..] == rest[1..];
          assert Join(rest, sep) == rest[0] + [sep] + Join(rest[1..], sep);
          assert Join(pieces, sep) == [s[0]] + rest[0] + [sep] + Join(rest[1..], sep);
        }
        assert s == [s[0]] + s[1..];
        forall i | 0 <= i < |pieces| ensures sep !in pieces[i] {
          if i == 0 {
            assert pieces[0] == [s[0]] + rest[0];
          } else {
            assert pieces[i] == rest[i];
          }
        }
      }
    }
  }

  /** There is one more piece than there are separators. */
  lemma {:induction false} SplitCount(s: string, sep: char)
    ensures |Split(s, sep)| == Occurrences(s, sep) + 1
    decreases |s|
  {
    if |s| > 0 {
      SplitCount(s[1..], sep);
    }
  }

  /** `text.split("\n")[0]`: the text up to the first line feed. */
  function FirstLine(text: string): string
  {
    Split(text, '\n')[0]
  }

  /** The first line is a prefix of the text without a line feed, and it ends the
      text or is followed by one. */
  lemma {:induction false} FirstLineIsPrefix(text: string)
    ensures |FirstLine(text)| <= |text|
    ensures FirstLine(text) == text[..|FirstLine(text)|]
    ensures '\n' !in FirstLine(text)
    ensures |FirstLine(text)| < |text| ==> text[|FirstLine(text)|] == '\n'
    decreases |text|
  {
    if |text| > 0 && text[0] != '\n' {
      FirstLineIsPrefix(text[1..]);
      assert FirstLine(text) == [text[0]] + FirstLine(text[1..]);
    }
  }


  /** `validateCsv`: the first line, within the first 825 characters, splits on
      commas into exactly 12 fields. So a file is valid exactly when that line holds
      eleven commas; nothing else in the file is looked at. */
  function ValidateCsv(file: string): (ok: bool)
    ensures ok <==> Occurrences(FirstLine(file[..Min(HeadSliceLength, |file|)]), ',') == 11
  {
    SplitCount(FirstLine(file[..Min(HeadSliceLength, |file|)]), ',');
    |Split(FirstLine(file[..Min(HeadSliceLength, |file|)]), ',')| == ExpectedColumns
  }

  /** `s.substring(start, end)` for `start <= end`: both bounds are clamped to the
      length. */
  function Substring(s: string, start: nat, end: nat): (sub: string)
    requires start <= end
    ensures |sub| == Min(end, |s|) - Min(start, |s|)
    ensures sub == s[Min(start, |s|)..Min(end, |s|)]
  {
    s[Min(start, |s|)..Min(end, |s|)]
  }

  /** Adjacent substrings join up: cutting a substring at `mid` loses nothing and
      adds nothing. */
  lemma SubstringSplit(s: string, start: nat, mid: nat, end: nat)
    requires start <= mid <= end
    ensures Substring(s, start, mid) + Substring(s, mid, end) == Substring(s, start, end)
  {
    var a, b, c := Min(start, |s|), Min(mid, |s|), Min(end, |s|);
    assert s[a..b] + s[b..c] == s[a..c];
  }

  // ---------------------------------------------------------------------------
  // Rows and readings

  /** The object the row step pushes: `{date, hour, consumption}` (not the wide
      export's record shape). NaN and an Invalid Date are `None`. */
  datatype Reading = Reading(date: Option<EpochDay>, hour: Option<real>, consumption: Option<real>)

  /** `parseInt(h.substring(0, 2)) + (h.substring(3, 5) === "30" ? 0.5 : 0)`;
      NaN plus anything is NaN. */
  function HourKey(hourString: string, parseInt: string -> Option<int>): (key: Option<real>)
    ensures parseInt(Substring(hourString, 0, 2)).None? <==> key.None?
  {
    match parseInt(Substring(hourString, 0, 2))
    case None => None
    case Some(hours) => Some(hours as real + (if Substring(hourString, 3, 5) == "30" then 0.5 else 0.0))
  }

  /** A time `HH:30` is half an hour past `HH`; any other minutes count as `HH`
      itself. */
  lemma HourKeyHalves(hourString: string, parseInt: string -> Option<int>)
    requires |hourString| >= 5
    requires parseInt(hourString[..2]).Some?
    ensures hourString[3..5] == "30" ==> HourKey(hourString, parseInt) == Some(parseInt(hourString[..2]).value as real + 0.5)
    ensures hourString[3..5] != "30" ==> HourKey(hourString, parseInt) == Some(parseInt(hourString[..2]).value as real)
  {
    assert Substring(hourString, 0, 2) == hourString[..2];
    assert Substring(hourString, 3, 5) == hourString[3..5];
  }

  /** A cell, or `None` past the end of the row (`undefined`). */
  function CellAt(row: Row, i: nat): (cell: Option<string>)
    ensures cell.Some? <==> i < |row|
    ensures cell.Some? ==> cell.value == row[i]
  {
    if i < |row| then Some(row[i]) else None
  }

  /** The row is a consumption row: `data[4] === "E1"`. */
  predicate IsConsumption(row: Row)
  {
    CellAt(row, 4) == Some("E1")
  }

  /** The reading the row step pushes, or `None` when it ignores the row. The date is
      field 1 read as dd/MM/yyyy, the time field 2, the consumption field 7 (which
      may be missing). */
  function DecodeReading(row: Row, p: Parsers): (r: Option<Reading>)
    ensures r.Some? <==> |row| > 4 && row[4] == "E1"
    ensures r.Some? ==> r.value.date == p.parseDayMonthYear(row[1])
    ensures r.Some? ==> r.value.hour == HourKey(row[2], p.parseInt)
    ensures r.Some? && |row| <= 7 ==> r.value.consumption.None?
    ensures r.Some? && |row| > 7 ==> r.value.consumption == p.parseFloat(row[7])
  {
    if !IsConsumption(row) then None
    else
      var consumption := match CellAt(row, 7) case None => None case Some(text) => p.parseFloat(text);
      Some(Reading(p.parseDayMonthYear(row[1]), HourKey(row[2], p.parseInt), consumption))
  }

  /** The example row the source documents: a consumption reading of 0.023 for the
      half hour starting at 00:30 on 14 July 2020. */
  lemma SampleRow(p: Parsers)
    requires p.parseInt("00") == Some(0)
    requires p.parseFloat("0.023") == Some(0.023)
    ensures var row := ["6102583120", "14/07/2020", "00:30", "A4369789", "E1", "", "", "0.023", "", "VIC", "", "N"];
      DecodeReading(row, p) == Some(Reading(p.parseDayMonthYear("14/07/2020"), Some(0.5), Some(0.023)))
  {
    var row := ["6102583120", "14/07/2020", "00:30", "A4369789", "E1", "", "", "0.023", "", "VIC", "", "N"];
    assert row[2][..2] == "00" && row[2][3..5] == "30";
    HourKeyHalves(row[2], p.parseInt);
  }

  /** The readings kept from `rows`, in order. */
  function Readings(rows: seq<Row>, p: Parsers): (readings: seq<Reading>)
    ensures forall r :: r in readings ==> exists row :: row in rows && DecodeReading(row, p) == Some(r)
    decreases |rows|
  {
    if rows == [] then []
    else
      var last := rows[|rows| - 1];
      Readings(rows[..|rows| - 1], p) + (match DecodeReading(last, p) case None => [] case Some(r) => [r])
  }

  /** Reading two batches of rows one after the other gives the readings of each,
      concatenated. */
  lemma {:induction false} ReadingsAppend(a: seq<Row>, b: seq<Row>, p: Parsers)
    ensures Readings(a + b, p) == Readings(a, p) + Readings(b, p)
    decreases |b|
  {
    if b == [] {
      assert a + b == a;
    } else {
      var init := b[..|b| - 1];
      ReadingsAppend(a, init, p);
      assert (a + b)[..|a + b| - 1] == a + init;
      assert (a + b)[|a + b| - 1] == b[|b| - 1];
    }
  }

  /** The number of consumption rows. */
  function ConsumptionRows(rows: seq<Row>): nat
    decreases |rows|
  {
    if rows == [] then 0 else ConsumptionRows(rows[..|rows| - 1]) + (if IsConsumption(rows[|rows| - 1]) then 1 else 0)
  }

  /** One reading per consumption row and none for any other row. */
  lemma {:induction false} ReadingsCount(rows: seq<Row>, p: Parsers)
    ensures |Readings(rows, p)| == ConsumptionRows(rows)
    ensures |Readings(rows, p)| <= |rows|
    decreases |rows|
  {
    if rows != [] {
      ReadingsCount(rows[..|rows| - 1], p);
    }
  }

  /** The list of readings the reader's step callback appends to. */
  class ReadingList {
    var readings: seq<Reading>

    constructor ()
      ensures readings == []
    {
      readings := [];
    }

    /** `onParseStep`: a row other than a consumption row leaves the list as it is;
        a consumption row appends its reading. */
    method OnParseStep(row: Row, p: Parsers)
      modifies this
      ensures !(|row| > 4 && row[4] == "E1") ==> readings == old(readings)
      ensures |row| > 4 && row[4] == "E1" ==> readings == old(readings) + [DecodeReading(row, p).value]
    {
      var isConsumption := |row| > 4 && row[4] == "E1";
      if !isConsumption {
        return;
      }
      var hourString := row[2];
      var consumption := if |row| > 7 then p.parseFloat(row[7]) else None;
      readings := readings + [Reading(p.parseDayMonthYear(row[1]), HourKey(hourString, p.parseInt), consumption)];
    }
  }

  /** The reader's pass over the data rows: one `onParseStep` per row, in order. */
  method ReadRows(rows: seq<Row>, p: Parsers) returns (readings: seq<Reading>)
    ensures readings == Readings(rows, p)
  {
    var list := new ReadingList();
    for k := 0 to |rows|
      invariant list.readings == Readings(rows[..k], p)
    {
      list.OnParseStep(rows[k], p);
      assert rows[..k + 1][..k] == rows[..k];
    }
    assert rows[..|rows|] == rows;
    readings := list.readings;
  }

  /** `parseCsv`: reject a file whose first line does not have 12 fields; otherwise
      keep the reading of every consumption row the reader delivers, in order.
      `rows` is what the CSV reader produces, `None` when it reports an error. */
  method ParseCsv(file: string, rows: Option<seq<Row>>, p: Parsers) returns (result: Option<seq<Reading>>)
    ensures result.Some? <==> ValidateCsv(file) && rows.Some?
    ensures result.Some? ==> result.value == Readings(rows.value, p)
  {
    if !ValidateCsv(file) || rows.None? {
      return None;
    }
    var readings := ReadRows(rows.value, p);
    return Some(readings);
  }
}
