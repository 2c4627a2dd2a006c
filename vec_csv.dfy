/** The wide "VEC" export decoder (src/model/vec-csv.ts): the header check, the
    per-row decoder and the 48 half-hour columns it expands into a usage map. */
module VecCsv {
  import opened Wrappers
  import opened Records

  /** A data row as the CSV reader delivers it when the first line is taken as
      column names: each cell's text keyed by its column name. */
  type Row = map<string, string>

  /** How many leading characters of the file `validateCsv` reads. */
  const HeaderSliceLength: nat := 825

  /** The five leading columns of the expected header. */
  const LeadingColumns: string := "\"NMI\",\"METER SERIAL NUMBER\",\"CON/GEN\",\"DATE\",\"ESTIMATED?\""

  /** The expected header text: the leading columns, then every half-hour column
      label, in loop order, quoted and preceded by a comma. The source writes the
      same 825 characters out as one literal. */
  const Header: string := LeadingColumns + QuotedColumns(TimeRangeColumns())

  /** Each name as `,"name"`, concatenated. */
  function QuotedColumns(names: seq<string>): string
  {
    if names == [] then "" else ",\"" + names[0] + "\"" + QuotedColumns(names[1..])
  }


  /** `validateCsv`: the first 825 characters of the file must equal the expected
      header exactly (case- and quote-sensitive). */
  function ValidateCsv(file: string): (ok: bool)
    ensures ok <==> |file| >= |Header| && file[..|Header|] == Header
  {
    HeaderLength();
    file[..Min(HeaderSliceLength, |file|)] == Header
  }

  // ---------------------------------------------------------------------------
  // Column labels

  /** `d.toString()` for one decimal digit. */
  function DigitChar(d: nat): char
    requires d < 10
  {
    ('0' as int + d) as char
  }

  /** `n.toString()` for a non-negative integer. */
  function DecimalString(n: nat): string
    decreases n
  {
    if n < 10 then [DigitChar(n)] else DecimalString(n / 10) + [DigitChar(n % 10)]
  }

  /** `s.padStart(width, c)` for a one-character pad. */
  function PadStart(s: string, width: nat, c: char): string
  {
    if |s| >= width then s else seq(width - |s|, _ => c) + s
  }

  /** `s.padEnd(width, c)` for a one-character pad. */
  function PadEnd(s: string, width: nat, c: char): string
  {
    if |s| >= width then s else s + seq(width - |s|, _ => c)
  }

  /** `n.toString().padStart(2, "0")`. */
  function Pad2(n: nat): string
  {
    PadStart(DecimalString(n), 2, '0')
  }

  /** `${hour padded to 2}:${minutes.toString().padEnd(2, "0")}`. */
  function TimeOfDay(hour: nat, minutes: nat): string
  {
    Pad2(hour) + ":" + PadEnd(DecimalString(minutes), 2, '0')
  }

  /** The column label `buildUsageByHalfHour` looks up for half-hour `halfHour`
      (0 or 1) of `hour`; an end of "24:00" is rewritten to "00:00". */
  function TimeRange(hour: nat, halfHour: nat): string
    requires halfHour < 2
  {
    var timeStart := TimeOfDay(hour, halfHour * 30);
    var timeEnd :=
      if halfHour == 0 then TimeOfDay(hour, (halfHour + 1) * 30)
      else TimeOfDay(hour + 1, (halfHour - 1) * 30);
    timeStart + " - " + (if timeEnd == "24:00" then "00:00" else timeEnd)
  }

  lemma {:induction false} Pad2Digits(n: nat)
    requires n < 100
    ensures Pad2(n) == [DigitChar(n / 10), DigitChar(n % 10)]
  {
    if n >= 10 {
      assert DecimalString(n / 10) == [DigitChar(n / 10)];
    }
  }

  /** A time of day on the half hour is the five characters `HH:M0`. */
  lemma TimeOfDayChars(hour: nat, halfHour: nat)
    requires hour < 100 && halfHour < 2
    ensures TimeOfDay(hour, halfHour * 30)
         == [DigitChar(hour / 10), DigitChar(hour % 10), ':', if halfHour == 0 then '0' else '3', '0']
  {
    Pad2Digits(hour);
    if halfHour == 0 {
      assert DecimalString(0) == "0";
      assert PadEnd("0", 2, '0') == "00";
    } else {
      assert DecimalString(30) == "30";
    }
  }

  /** Two five-character times joined by " - ", character by character. */
  lemma JoinTimes(a: string, b: string)
    requires |a| == 5 && |b| == 5
    ensures a + " - " + b == [a[0], a[1], a[2], a[3], a[4], ' ', '-', ' ', b[0], b[1], b[2], b[3], b[4]]
  {
  }

  /** The first half of an hour runs from `HH:00` to `HH:30`; that end is never
      "24:00". */
  lemma FirstHalfChars(hour: nat)
    requires hour < 24
    ensures TimeRange(hour, 0) == LabelChars(hour, 0)
  {
    TimeOfDayChars(hour, 0);
    TimeOfDayChars(hour, 1);
    var timeEnd := TimeOfDay(hour, 30);
    assert timeEnd[3] != "24:00"[3];
    JoinTimes(TimeOfDay(hour, 0), timeEnd);
  }

  /** The second half of an hour runs from `HH:30` to the next hour's `HH:00`; the
      end is "24:00" exactly for the last hour, and is then rewritten to "00:00". */
  lemma SecondHalfChars(hour: nat)
    requires hour < 24
    ensures TimeRange(hour, 1) == LabelChars(hour, 1)
  {
    TimeOfDayChars(hour, 1);
    TimeOfDayChars(hour + 1, 0);
    var timeEnd := TimeOfDay(hour + 1, 0);
    var shown := if timeEnd == "24:00" then "00:00" else timeEnd;
    var next := (hour + 1) % 24;
    if hour == 23 {
      assert timeEnd == "24:00";
      assert shown == [DigitChar(next / 10), DigitChar(next % 10), ':', '0', '0'];
    } else {
      assert next == hour + 1;
      assert timeEnd[0] != '2' || timeEnd[1] != '4';
      assert shown == timeEnd;
    }
    JoinTimes(TimeOfDay(hour, 30), shown);
  }

  /** The label of half `half` (0 or 1) of `hour`: the thirteen characters
      `HH:MM - HH:MM`, the end being the start of the next half hour, with 24
      wrapping to 00. */
  function LabelChars(hour: nat, half: nat): (name: string)
    requires hour < 24
  {
    var next := if half == 0 then hour else (hour + 1) % 24;
    [DigitChar(hour / 10), DigitChar(hour % 10), ':', if half == 0 then '0' else '3', '0', ' ', '-', ' ',
     DigitChar(next / 10), DigitChar(next % 10), ':', if half == 0 then '3' else '0', '0']
  }

  /** The label of the `i`-th half-hour column in loop order: half `i % 2` of hour
      `i / 2`. */
  function ColumnLabel(i: nat): (name: string)
    requires i < 48
  {
    LabelChars(i / 2, i % 2)
  }

  /** The label of the first half of an hour is `HH:00 - HH:30`; that of the second
      half is `HH:30 - HH:00` with the next hour, 24 wrapping to 00. */
  lemma TimeRangeShape(hour: nat)
    requires hour < 24
    ensures TimeRange(hour, 0) == Pad2(hour) + ":00 - " + Pad2(hour) + ":30"
    ensures TimeRange(hour, 1) == Pad2(hour) + ":30 - " + Pad2((hour + 1) % 24) + ":00"
  {
    FirstHalfChars(hour);
    SecondHalfChars(hour);
    Pad2Digits(hour);
    Pad2Digits((hour + 1) % 24);
    JoinTimes(Pad2(hour) + ":00", Pad2(hour) + ":30");
    JoinTimes(Pad2(hour) + ":30", Pad2((hour + 1) % 24) + ":00");
    assert Pad2(hour) + ":00 - " + Pad2(hour) + ":30" == (Pad2(hour) + ":00") + " - " + (Pad2(hour) + ":30");
    assert Pad2(hour) + ":30 - " + Pad2((hour + 1) % 24) + ":00"
        == (Pad2(hour) + ":30") + " - " + (Pad2((hour + 1) % 24) + ":00");
  }

  /** The label the loop builds for half `halfHour` of `hour` is the label of column
      `2 * hour + halfHour`. */
  lemma TimeRangeIsColumnLabel(hour: nat, halfHour: nat)
    requires hour < 24 && halfHour < 2
    ensures TimeRange(hour, halfHour) == ColumnLabel(2 * hour + halfHour)
  {
    var i := 2 * hour + halfHour;
    assert i / 2 == hour && i % 2 == halfHour;
    assert ColumnLabel(i) == LabelChars(hour, halfHour);
    if halfHour == 0 {
      FirstHalfChars(hour);
      assert TimeRange(hour, halfHour) == TimeRange(hour, 0);
    } else {
      assert halfHour == 1;
      SecondHalfChars(hour);
      assert TimeRange(hour, halfHour) == TimeRange(hour, 1);
      assert LabelChars(hour, halfHour) == LabelChars(hour, 1);
    }
  }

  /** The 48 half-hour labels in the order the two nested loops of
      `buildUsageByHalfHour` produce them. */
  function TimeRangeColumns(): (cols: seq<string>)
    ensures |cols| == 48
    ensures forall i :: 0 <= i < 48 ==> |cols[i]| == 13
  {
    seq(48, i requires 0 <= i < 48 => ColumnLabel(i))
  }

  /** Every column of the expected header is the label the loop builds for its
      half hour, so every half hour of a valid file is found. */
  lemma HeaderColumnsAreLoopLabels()
    ensures forall hour: nat, halfHour: nat | hour < 24 && halfHour < 2 ::
      TimeRangeColumns()[2 * hour + halfHour] == TimeRange(hour, halfHour)
  {
    forall hour: nat, halfHour: nat | hour < 24 && halfHour < 2
      ensures TimeRangeColumns()[2 * hour + halfHour] == TimeRange(hour, halfHour)
    {
      TimeRangeIsColumnLabel(hour, halfHour);
    }
  }

  // Each half-hour column of the header, as the label the model builds and as
  // the text of the literal header in src/model/vec-csv.ts.

  lemma Column00() ensures TimeRangeColumns()[0] == "00:00 - 00:30" {}
  lemma Column01() ensures TimeRangeColumns()[1] == "00:30 - 01:00" {}
  lemma Column02() ensures TimeRangeColumns()[2] == "01:00 - 01:30" {}
  lemma Column03() ensures TimeRangeColumns()[3] == "01:30 - 02:00" {}
  lemma Column04() ensures TimeRangeColumns()[4] == "02:00 - 02:30" {}
  lemma Column05() ensures TimeRangeColumns()[5] == "02:30 - 03:00" {}
  lemma Column06() ensures TimeRangeColumns()[6] == "03:00 - 03:30" {}
  lemma Column07() ensures TimeRangeColumns()[7] == "03:30 - 04:00" {}
  lemma Column08() ensures TimeRangeColumns()[8] == "04:00 - 04:30" {}
  lemma Column09() ensures TimeRangeColumns()[9] == "04:30 - 05:00" {}
  lemma Column10() ensures TimeRangeColumns()[10] == "05:00 - 05:30" {}
  lemma Column11() ensures TimeRangeColumns()[11] == "05:30 - 06:00" {}
  lemma Column12() ensures TimeRangeColumns()[12] == "06:00 - 06:30" {}
  lemma Column13() ensures TimeRangeColumns()[13] == "06:30 - 07:00" {}
  lemma Column14() ensures TimeRangeColumns()[14] == "07:00 - 07:30" {}
  lemma Column15() ensures TimeRangeColumns()[15] == "07:30 - 08:00" {}
  lemma Column16() ensures TimeRangeColumns()[16] == "08:00 - 08:30" {}
  lemma Column17() ensures TimeRangeColumns()[17] == "08:30 - 09:00" {}
  lemma Column18() ensures TimeRangeColumns()[18] == "09:00 - 09:30" {}
  lemma Column19() ensures TimeRangeColumns()[19] == "09:30 - 10:00" {}
  lemma Column20() ensures TimeRangeColumns()[20] == "10:00 - 10:30" {}
  lemma Column21() ensures TimeRangeColumns()[21] == "10:30 - 11:00" {}
  lemma Column22() ensures TimeRangeColumns()[22] == "11:00 - 11:30" {}
  lemma Column23() ensures TimeRangeColumns()[23] == "11:30 - 12:00" {}
  lemma Column24() ensures TimeRangeColumns()[24] == "12:00 - 12:30" {}
  lemma Column25() ensures TimeRangeColumns()[25] == "12:30 - 13:00" {}
  lemma Column26() ensures TimeRangeColumns()[26] == "13:00 - 13:30" {}
  lemma Column27() ensures TimeRangeColumns()[27] == "13:30 - 14:00" {}
  lemma Column28() ensures TimeRangeColumns()[28] == "14:00 - 14:30" {}
  lemma Column29() ensures TimeRangeColumns()[29] == "14:30 - 15:00" {}
  lemma Column30() ensures TimeRangeColumns()[30] == "15:00 - 15:30" {}
  lemma Column31() ensures TimeRangeColumns()[31] == "15:30 - 16:00" {}
  lemma Column32() ensures TimeRangeColumns()[32] == "16:00 - 16:30" {}
  lemma Column33() ensures TimeRangeColumns()[33] == "16:30 - 17:00" {}
  lemma Column34() ensures TimeRangeColumns()[34] == "17:00 - 17:30" {}
  lemma Column35() ensures TimeRangeColumns()[35] == "17:30 - 18:00" {}
  lemma Column36() ensures TimeRangeColumns()[36] == "18:00 - 18:30" {}
  lemma Column37() ensures TimeRangeColumns()[37] == "18:30 - 19:00" {}
  lemma Column38() ensures TimeRangeColumns()[38] == "19:00 - 19:30" {}
  lemma Column39() ensures TimeRangeColumns()[39] == "19:30 - 20:00" {}
  lemma Column40() ensures TimeRangeColumns()[40] == "20:00 - 20:30" {}
  lemma Column41() ensures TimeRangeColumns()[41] == "20:30 - 21:00" {}
  lemma Column42() ensures TimeRangeColumns()[42] == "21:00 - 21:30" {}
  lemma Column43() ensures TimeRangeColumns()[43] == "21:30 - 22:00" {}
  lemma Column44() ensures TimeRangeColumns()[44] == "22:00 - 22:30" {}
  lemma Column45() ensures TimeRangeColumns()[45] == "22:30 - 23:00" {}
  lemma Column46() ensures TimeRangeColumns()[46] == "23:00 - 23:30" {}
  lemma Column47() ensures TimeRangeColumns()[47] == "23:30 - 00:00" {}

  /** The 48 half-hour columns of the expected header are, in order, the 48
      column names of the literal header the source compares against; the last
      one shows the end time wrapping from 24:00 to 00:00. */
  lemma HeaderColumnsAreSourceText()
    ensures TimeRangeColumns()[0] == "00:00 - 00:30"
    ensures TimeRangeColumns()[1] == "00:30 - 01:00"
    ensures TimeRangeColumns()[2] == "01:00 - 01:30"
    ensures TimeRangeColumns()[3] == "01:30 - 02:00"
    ensures TimeRangeColumns()[4] == "02:00 - 02:30"
    ensures TimeRangeColumns()[5] == "02:30 - 03:00"
    ensures TimeRangeColumns()[6] == "03:00 - 03:30"
    ensures TimeRangeColumns()[7] == "03:30 - 04:00"
    ensures TimeRangeColumns()[8] == "04:00 - 04:30"
    ensures TimeRangeColumns()[9] == "04:30 - 05:00"
    ensures TimeRangeColumns()[10] == "05:00 - 05:30"
    ensures TimeRangeColumns()[11] == "05:30 - 06:00"
    ensures TimeRangeColumns()[12] == "06:00 - 06:30"
    ensures TimeRangeColumns()[13] == "06:30 - 07:00"
    ensures TimeRangeColumns()[14] == "07:00 - 07:30"
    ensures TimeRangeColumns()[15] == "07:30 - 08:00"
    ensures TimeRangeColumns()[16] == "08:00 - 08:30"
    ensures TimeRangeColumns()[17] == "08:30 - 09:00"
    ensures TimeRangeColumns()[18] == "09:00 - 09:30"
    ensures TimeRangeColumns()[19] == "09:30 - 10:00"
    ensures TimeRangeColumns()[20] == "10:00 - 10:30"
    ensures TimeRangeColumns()[21] == "10:30 - 11:00"
    ensures TimeRangeColumns()[22] == "11:00 - 11:30"
    ensures TimeRangeColumns()[23] == "11:30 - 12:00"
    ensures TimeRangeColumns()[24] == "12:00 - 12:30"
    ensures TimeRangeColumns()[25] == "12:30 - 13:00"
    ensures TimeRangeColumns()[26] == "13:00 - 13:30"
    ensures TimeRangeColumns()[27] == "13:30 - 14:00"
    ensures TimeRangeColumns()[28] == "14:00 - 14:30"
    ensures TimeRangeColumns()[29] == "14:30 - 15:00"
    ensures TimeRangeColumns()[30] == "15:00 - 15:30"
    ensures TimeRangeColumns()[31] == "15:30 - 16:00"
    ensures TimeRangeColumns()[32] == "16:00 - 16:30"
    ensures TimeRangeColumns()[33] == "16:30 - 17:00"
    ensures TimeRangeColumns()[34] == "17:00 - 17:30"
    ensures TimeRangeColumns()[35] == "17:30 - 18:00"
    ensures TimeRangeColumns()[36] == "18:00 - 18:30"
    ensures TimeRangeColumns()[37] == "18:30 - 19:00"
    ensures TimeRangeColumns()[38] == "19:00 - 19:30"
    ensures TimeRangeColumns()[39] == "19:30 - 20:00"
    ensures TimeRangeColumns()[40] == "20:00 - 20:30"
    ensures TimeRangeColumns()[41] == "20:30 - 21:00"
    ensures TimeRangeColumns()[42] == "21:00 - 21:30"
    ensures TimeRangeColumns()[43] == "21:30 - 22:00"
    ensures TimeRangeColumns()[44] == "22:00 - 22:30"
    ensures TimeRangeColumns()[45] == "22:30 - 23:00"
    ensures TimeRangeColumns()[46] == "23:00 - 23:30"
    ensures TimeRangeColumns()[47] == "23:30 - 00:00"
  {
    Column00(); Column01();
    Column02(); Column03();
    Column04(); Column05();
    Column06(); Column07();
    Column08(); Column09();
    Column10(); Column11();
    Column12(); Column13();
    Column14(); Column15();
    Column16(); Column17();
    Column18(); Column19();
    Column20(); Column21();
    Column22(); Column23();
    Column24(); Column25();
    Column26(); Column27();
    Column28(); Column29();
    Column30(); Column31();
    Column32(); Column33();
    Column34(); Column35();
    Column36(); Column37();
    Column38(); Column39();
    Column40(); Column41();
    Column42(); Column43();
    Column44(); Column45();
    Column46(); Column47();
  }

  lemma {:induction false} QuotedColumnsLength(names: seq<string>, width: nat)
    requires forall i :: 0 <= i < |names| ==> |names[i]| == width
    ensures |QuotedColumns(names)| == (width + 3) * |names|
  {
    if names != [] {
      QuotedColumnsLength(names[1..], width);
    }
  }

  /** The expected header is exactly as long as the slice `validateCsv` reads. */
  lemma HeaderLength()
    ensures |Header| == HeaderSliceLength
  {
    QuotedColumnsLength(TimeRangeColumns(), 13);
    assert |LeadingColumns| == 57;
  }

  // ---------------------------------------------------------------------------
  // Half-hour usage map

  /** The map key `hour + (halfHour ? 0.5 : 0)` under which a half hour's usage is
      stored. */
  function SlotKey(hour: nat, halfHour: nat): real
  {
    hour as real + (if halfHour != 0 then 0.5 else 0.0)
  }

  /** The key of the `i`-th column in loop order: the start of its half hour, in
      hours. */
  function KeyOfSlot(i: nat): real
  {
    i as real / 2.0
  }

  /** The key the loop computes for half `halfHour` of `hour` is that of column
      `2 * hour + halfHour`. */
  lemma SlotKeyInLoopOrder(hour: nat, halfHour: nat)
    requires halfHour < 2
    ensures SlotKey(hour, halfHour) == KeyOfSlot(2 * hour + halfHour)
  {
  }

  /** A cell's text, or `None` where the row has no such column (`undefined`). */
  function Cell(row: Row, name: string): (text: Option<string>)
    ensures text.Some? <==> name in row
    ensures text.Some? ==> text.value == row[name]
  {
    if name in row then Some(row[name]) else None
  }

  /** `parseFloat(data[name])`, with NaN replaced by 0. A missing column reads as
      `undefined`, which parses to NaN. */
  function CellOrZero(row: Row, name: string, p: Parsers): (kwh: real)
    ensures Cell(row, name).None? ==> kwh == 0.0
    ensures Cell(row, name).Some? && p.parseFloat(row[name]).None? ==> kwh == 0.0
    ensures Cell(row, name).Some? && p.parseFloat(row[name]).Some? ==> kwh == p.parseFloat(row[name]).value
  {
    match Cell(row, name)
    case None => 0.0
    case Some(text) => match p.parseFloat(text) case None => 0.0 case Some(v) => v
  }

  /** The parsed value of each of the 48 time-range columns, in loop order. */
  function ColumnValues(row: Row, p: Parsers): (values: seq<real>)
    ensures |values| == 48
  {
    seq(48, i requires 0 <= i < 48 => CellOrZero(row, ColumnLabel(i), p))
  }

  /** The usage map after the first `n` half hours of the loop: each column in turn
      writes its value under its key. */
  function SlotsUsage(values: seq<real>, n: nat): map<real, real>
    requires n <= |values|
  {
    if n == 0 then map[]
    else SlotsUsage(values, n - 1)[KeyOfSlot(n - 1) := values[n - 1]]
  }

  /** The complete half-hourly usage of a row. */
  function HalfHourlyUsage(row: Row, p: Parsers): map<real, real>
  {
    SlotsUsage(ColumnValues(row, p), 48)
  }

  /** The keys of the first `n` columns. */
  function KeysBelow(n: nat): set<real>
  {
    set i: nat | i < n :: KeyOfSlot(i)
  }

  /** The keys 0, 0.5, 1, ..., 23.5. */
  function HalfHourKeys(): set<real>
  {
    KeysBelow(48)
  }

  /** After `n` steps the map holds exactly the first `n` keys, each with its own
      column's value: no later column overwrites an earlier one. */
  lemma {:induction false} SlotsUsageContents(values: seq<real>, n: nat)
    requires n <= |values|
    ensures SlotsUsage(values, n).Keys == KeysBelow(n)
    ensures forall i: nat | i < n :: SlotsUsage(values, n)[KeyOfSlot(i)] == values[i]
  {
    if n > 0 {
      SlotsUsageContents(values, n - 1);
      assert KeysBelow(n) == KeysBelow(n - 1) + {KeyOfSlot(n - 1)};
    }
  }

  /** The first `n` columns have `n` distinct keys. */
  lemma {:induction false} KeysBelowCount(n: nat)
    ensures |KeysBelow(n)| == n
  {
    if n > 0 {
      KeysBelowCount(n - 1);
      assert KeysBelow(n) == KeysBelow(n - 1) + {KeyOfSlot(n - 1)};
    }
  }

  /** The value of column `2 * hour + halfHour` is that of the label the loop
      builds for half `halfHour` of `hour`. */
  lemma ColumnValueInLoopOrder(row: Row, p: Parsers, hour: nat, halfHour: nat)
    requires hour < 24 && halfHour < 2
    ensures ColumnValues(row, p)[2 * hour + halfHour] == CellOrZero(row, TimeRange(hour, halfHour), p)
  {
    TimeRangeIsColumnLabel(hour, halfHour);
  }

  /** One step of `buildUsageByHalfHour`'s inner loop before the write: build the
      time-range label of half `halfHour` of `hour`, parse that column and turn NaN
      into 0. The result is the value of that column in loop order. */
  method BlockKwh(row: Row, p: Parsers, hour: nat, halfHour: nat) returns (blockKwh: real)
    requires hour < 24 && halfHour < 2
    ensures blockKwh == ColumnValues(row, p)[2 * hour + halfHour]
  {
    var timeRange := TimeRange(hour, halfHour);
    var parsed := if timeRange in row then p.parseFloat(row[timeRange]) else None;
    blockKwh := if parsed.None? then 0.0 else parsed.value;
    ColumnValueInLoopOrder(row, p, hour, halfHour);
  }

  /** Writing the value of half `halfHour` of `hour` under the key the loop computes
      extends the map by one column. */
  lemma StoreHalfHour(values: seq<real>, hour: nat, halfHour: nat, usage: map<real, real>, v: real)
    requires halfHour < 2 && 2 * hour + halfHour < |values|
    requires usage == SlotsUsage(values, 2 * hour + halfHour)
    requires v == values[2 * hour + halfHour]
    ensures usage[SlotKey(hour, halfHour) := v] == SlotsUsage(values, 2 * hour + halfHour + 1)
  {
    SlotKeyInLoopOrder(hour, halfHour);
  }

  /** `buildUsageByHalfHour`: for every hour and each of its halves, look up the
      column labelled with that half hour's time range and store its parsed value
      (0 when missing or not a number) under the half hour's key. */
  method BuildUsageByHalfHour(row: Row, p: Parsers) returns (halfHourlyUsage: map<real, real>)
    ensures halfHourlyUsage == HalfHourlyUsage(row, p)
  {
    halfHourlyUsage := map[];
    ghost var values := ColumnValues(row, p);
    for hour := 0 to 24
      invariant halfHourlyUsage == SlotsUsage(values, 2 * hour)
    {
      for halfHour := 0 to 2
        invariant halfHourlyUsage == SlotsUsage(values, 2 * hour + halfHour)
      {
        var blockKwh := BlockKwh(row, p, hour, halfHour);
        StoreHalfHour(values, hour, halfHour, halfHourlyUsage, blockKwh);
        halfHourlyUsage := halfHourlyUsage[SlotKey(hour, halfHour) := blockKwh];
      }
      assert 2 * hour + 2 == 2 * (hour + 1);
    }
  }

  /** The usage map of every row has exactly the 48 half-hour keys 0, 0.5, ..., 23.5,
      and the value under key `i / 2` is the parsed `i`-th time-range column, or 0. */
  lemma HalfHourlyUsageShape(row: Row, p: Parsers)
    ensures HalfHourlyUsage(row, p).Keys == HalfHourKeys()
    ensures |HalfHourlyUsage(row, p)| == 48
    ensures forall i: nat | i < 48 ::
      KeyOfSlot(i) in HalfHourlyUsage(row, p)
      && HalfHourlyUsage(row, p)[KeyOfSlot(i)] == CellOrZero(row, ColumnLabel(i), p)
  {
    var values := ColumnValues(row, p);
    SlotsUsageContents(values, 48);
    KeysBelowCount(48);
    forall i: nat | i < 48
      ensures KeyOfSlot(i) in HalfHourlyUsage(row, p)
      ensures HalfHourlyUsage(row, p)[KeyOfSlot(i)] == CellOrZero(row, ColumnLabel(i), p)
    {
      assert KeyOfSlot(i) in KeysBelow(48);
      assert values[i] == CellOrZero(row, ColumnLabel(i), p);
    }
  }

  /** What the map holds for one half hour of the loop: 0 where the row has no
      column of that label or its text does not parse as a number, the parsed
      number otherwise. */
  lemma UsageOfHalfHour(row: Row, p: Parsers, hour: nat, halfHour: nat)
    requires hour < 24 && halfHour < 2
    ensures SlotKey(hour, halfHour) in HalfHourlyUsage(row, p)
    ensures ParseCell(row, TimeRange(hour, halfHour), p.parseFloat).None? ==>
      HalfHourlyUsage(row, p)[SlotKey(hour, halfHour)] == 0.0
    ensures ParseCell(row, TimeRange(hour, halfHour), p.parseFloat).Some? ==>
      HalfHourlyUsage(row, p)[SlotKey(hour, halfHour)] == ParseCell(row, TimeRange(hour, halfHour), p.parseFloat).value
  {
    HalfHourlyUsageShape(row, p);
    SlotKeyInLoopOrder(hour, halfHour);
    TimeRangeIsColumnLabel(hour, halfHour);
    assert HalfHourlyUsage(row, p)[KeyOfSlot(2 * hour + halfHour)]
      == CellOrZero(row, ColumnLabel(2 * hour + halfHour), p);
  }

  // ---------------------------------------------------------------------------
  // Rows and records

  /** A cell's text passed to one of the library parsers; a missing cell is
      `undefined`, which every one of them turns into NaN or an Invalid Date. */
  function ParseCell<T>(row: Row, name: string, parse: string -> Option<T>): (v: Option<T>)
    ensures name !in row ==> v.None?
    ensures name in row ==> v == parse(row[name])
  {
    match Cell(row, name)
    case None => None
    case Some(text) => parse(text)
  }

  /** The record `onParseStep` pushes for one data row. */
  function DecodeRow(row: Row, p: Parsers): (r: VecRecord)
    ensures r.nmi == ParseCell(row, "NMI", p.parseInt)
    ensures r.meterSerialNumber == ParseCell(row, "METER SERIAL NUMBER", p.parseInt)
    ensures r.date == ParseCell(row, "DATE", p.parseDate)
    ensures r.recordType == Consumption <==> Cell(row, "CON/GEN") == Some("Consumption")
    ensures r.estimated <==> Cell(row, "ESTIMATED?") == Some("Yes")
    ensures r.usageByHalfHour.Keys == HalfHourKeys()
    ensures |r.usageByHalfHour| == 48
  {
    HalfHourlyUsageShape(row, p);
    VecRecord(
      nmi := ParseCell(row, "NMI", p.parseInt),
      meterSerialNumber := ParseCell(row, "METER SERIAL NUMBER", p.parseInt),
      recordType := if Cell(row, "CON/GEN") == Some("Consumption") then Consumption else Generation,
      date := ParseCell(row, "DATE", p.parseDate),
      estimated := Cell(row, "ESTIMATED?") == Some("Yes"),
      usageByHalfHour := HalfHourlyUsage(row, p))
  }

  /** Anything in the CON/GEN column other than exactly "Consumption" (a different
      case, surrounding spaces, a missing column) decodes as generation. */
  lemma OnlyExactConsumption(row: Row, p: Parsers)
    requires Cell(row, "CON/GEN") != Some("Consumption")
    ensures DecodeRow(row, p).recordType == Generation
  {
  }

  /** The list of records the reader's step callback appends to. */
  class RecordList {
    var records: seq<VecRecord>

    constructor ()
      ensures records == []
    {
      records := [];
    }

    /** `onParseStep`: decode one row and push the record. */
    method OnParseStep(row: Row, p: Parsers)
      modifies this
      ensures records == old(records) + [DecodeRow(row, p)]
    {
      var usage := BuildUsageByHalfHour(row, p);
      var nmi := ParseCell(row, "NMI", p.parseInt);
      var meterSerialNumber := ParseCell(row, "METER SERIAL NUMBER", p.parseInt);
      var recordType := if "CON/GEN" in row && row["CON/GEN"] == "Consumption" then Consumption else Generation;
      var date := ParseCell(row, "DATE", p.parseDate);
      var estimated := "ESTIMATED?" in row && row["ESTIMATED?"] == "Yes";
      records := records + [VecRecord(nmi, meterSerialNumber, recordType, date, estimated, usage)];
    }
  }

  /** The records decoded from `rows`, in order. */
  function DecodeAll(rows: seq<Row>, p: Parsers): (records: seq<VecRecord>)
    ensures |records| == |rows|
    ensures forall i :: 0 <= i < |rows| ==> records[i] == DecodeRow(rows[i], p)
  {
    if rows == [] then [] else DecodeAll(rows[..|rows| - 1], p) + [DecodeRow(rows[|rows| - 1], p)]
  }

  /** The reader's pass over the data rows: one `onParseStep` per row, in order. */
  method DecodeRows(rows: seq<Row>, p: Parsers) returns (records: seq<VecRecord>)
    ensures records == DecodeAll(rows, p)
  {
    var list := new RecordList();
    for k := 0 to |rows|
      invariant list.records == DecodeAll(rows[..k], p)
    {
      list.OnParseStep(rows[k], p);
      assert rows[..k + 1][..k] == rows[..k];
    }
    assert rows[..|rows|] == rows;
    records := list.records;
  }

  /** `parseCsv`: reject a file whose header is not the expected one; otherwise
      decode every data row the reader delivers, in order. `rows` is what the CSV
      reader produces from the rest of the file, `None` when it reports an error. */
  method ParseCsv(file: string, rows: Option<seq<Row>>, p: Parsers) returns (result: Option<seq<VecRecord>>)
    ensures result.Some? <==> ValidateCsv(file) && rows.Some?
    ensures result.Some? ==> |result.value| == |rows.value|
    ensures result.Some? ==> forall i :: 0 <= i < |rows.value| ==> result.value[i] == DecodeRow(rows.value[i], p)
  {
    var valid := ValidateCsv(file);
    if !valid || rows.None? {
      return None;
    }
    var records := DecodeRows(rows.value, p);
    return Some(records);
  }
}
