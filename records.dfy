/** The record shapes shared by the decoders and the calculator, and the library
    parsers they call (src/model/vec-csv.ts:3-10, src/model/vecRecord.ts:1-8). */
module Records {
  import opened Wrappers

  /** A calendar day in local time, counted in days from 1 January 1970. */
  type EpochDay = int

  /** `Date.getDay()`: 0 is Sunday, 1 Monday, ..., 6 Saturday.
      Day 0 (1 January 1970) was a Thursday. */
  function Weekday(d: EpochDay): (w: int)
    ensures 0 <= w < 7
    ensures w == 4 <==> d % 7 == 0
  {
    (d + 4) % 7
  }

  /** The smaller of two lengths: how much of a file `file.slice(0, n)` keeps. */
  function Min(a: nat, b: nat): nat { if a <= b then a else b }

  /** The `type` field: "consumption" | "generation". */
  datatype RecordType = Consumption | Generation

  /** One meter-day decoded from a row of the wide export. A field that JavaScript
      would hold as NaN or an Invalid Date is `None`. */
  datatype VecRecord = VecRecord(
    nmi: Option<int>,
    meterSerialNumber: Option<int>,
    recordType: RecordType,
    date: Option<EpochDay>,
    estimated: bool,
    usageByHalfHour: map<real, real>)

  /** The JavaScript library functions the decoders call, which this model does not
      define: `parseInt`, `parseFloat`, `new Date(text)` and date-fns
      `parse(text, "dd/MM/yyyy", now)`. `None` stands for NaN or an Invalid Date. */
  datatype Parsers = Parsers(
    parseInt: string -> Option<int>,
    parseFloat: string -> Option<real>,
    parseDate: string -> Option<EpochDay>,
    parseDayMonthYear: string -> Option<EpochDay>)
}
