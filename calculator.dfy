/** The usage aggregator of the calculator page (src/components/Calculator.tsx): the
    weekday and time-of-day predicates, the record filter and the loop that adds
    up in-window half-hour usage and counts working-from-home days. */
module Calculator {
  import opened Wrappers
  import opened Records
  import VecCsv

  // ---------------------------------------------------------------------------
  // Weekdays

  /** The seven weekday check boxes. */
  datatype DaysOfWeek = DaysOfWeek(
    monday: bool, tuesday: bool, wednesday: bool, thursday: bool,
    friday: bool, saturday: bool, sunday: bool)

  /** The boxes ticked when the page opens: Monday to Friday. */
  const DefaultDays: DaysOfWeek := DaysOfWeek(true, true, true, true, true, false, false)

  /** The ticked days as `getDay()` numbers (0 is Sunday, ..., 6 Saturday). */
  function SelectedDays(days: DaysOfWeek): (s: set<int>)
    ensures forall d :: d in s ==> 0 <= d < 7
  {
    (if days.sunday then {0} else {}) + (if days.monday then {1} else {}) +
    (if days.tuesday then {2} else {}) + (if days.wednesday then {3} else {}) +
    (if days.thursday then {4} else {}) + (if days.friday then {5} else {}) +
    (if days.saturday then {6} else {})
  }

  /** The check boxes that tick exactly the days of `s` that are weekdays. */
  function FromSelectedDays(s: set<int>): DaysOfWeek
  {
    DaysOfWeek(1 in s, 2 in s, 3 in s, 4 in s, 5 in s, 6 in s, 0 in s)
  }

  /** Reading the ticked days off the check boxes and ticking them again gives the
      same check boxes. */
  lemma CheckBoxesRoundTrip(days: DaysOfWeek)
    ensures FromSelectedDays(SelectedDays(days)) == days
  {
    var s := SelectedDays(days);
    assert 0 in s <==> days.sunday;
    assert 1 in s <==> days.monday;
    assert 2 in s <==> days.tuesday;
    assert 3 in s <==> days.wednesday;
    assert 4 in s <==> days.thursday;
    assert 5 in s <==> days.friday;
    assert 6 in s <==> days.saturday;
  }

  /** Ticking the days of a set and reading them back gives the set's weekday
      numbers. */
  lemma DaySetRoundTrip(s: set<int>)
    ensures SelectedDays(FromSelectedDays(s)) == set d | d in s && 0 <= d < 7
  {
    var t := SelectedDays(FromSelectedDays(s));
    forall d | d in s && 0 <= d < 7 ensures d in t {
      if d == 0 {} else if d == 1 {} else if d == 2 {} else if d == 3 {} else if d == 4 {} else if d == 5 {} else {}
    }
  }

  /** `isDayOfWeekMatch`: the box of the given `getDay()` number; any other number
      throws, which is `None`. */
  function IsDayOfWeekMatch(days: DaysOfWeek, dateDayOfWeek: int): (m: Option<bool>)
    ensures m.Some? <==> 0 <= dateDayOfWeek < 7
    ensures m.Some? ==> (m.value <==> dateDayOfWeek in SelectedDays(days))
  {
    match dateDayOfWeek
    case 0 => Some(days.sunday)
    case 1 => Some(days.monday)
    case 2 => Some(days.tuesday)
    case 3 => Some(days.wednesday)
    case 4 => Some(days.thursday)
    case 5 => Some(days.friday)
    case 6 => Some(days.saturday)
    case _ => None
  }

  // ---------------------------------------------------------------------------
  // Time of day

  /** A time picker's value: `getHours()` and `getMinutes()`. */
  datatype Clock = Clock(hours: int, minutes: int)

  /** Start or end time in decimal hours: the hour or half past it and, for a
      real clock reading, the time rounded down to the half hour (at most the
      exact time, and less than half an hour before it). */
  function DecimalHours(c: Clock): (hours: real)
    ensures hours == c.hours as real || hours == c.hours as real + 0.5
    ensures 0 <= c.minutes < 60 ==> hours <= c.hours as real + c.minutes as real / 60.0 < hours + 0.5
  {
    c.hours as real + (if c.minutes >= 30 then 0.5 else 0.0)
  }

  /** `isHourScheduleMatch`: the start time is inclusive, the end time exclusive,
      so a window that does not end after it starts matches no hour. */
  function IsHourScheduleMatch(hour: real, startTime: Clock, endTime: Clock): (m: bool)
    ensures m ==> DecimalHours(startTime) < DecimalHours(endTime)
  {
    hour >= DecimalHours(startTime) && hour < DecimalHours(endTime)
  }

  /** The half hour starting at key `i / 2` is in the window exactly when it starts
      neither before the start time nor at or after the end time. */
  lemma SlotInWindow(i: nat, startTime: Clock, endTime: Clock)
    ensures IsHourScheduleMatch(VecCsv.KeyOfSlot(i), startTime, endTime)
        <==> 2.0 * DecimalHours(startTime) <= i as real < 2.0 * DecimalHours(endTime)
  {
  }

  // ---------------------------------------------------------------------------
  // The filter

  /** The page's inputs the aggregation depends on. */
  datatype Query = Query(
    startDate: EpochDay, endDate: EpochDay, days: DaysOfWeek,
    startTime: Clock, endTime: Clock)

  /** The filter's predicate: on or after the start date, on or before the end date,
      on a ticked weekday, and consumption. A record with an Invalid Date fails the
      first comparison, so `isDayOfWeekMatch` is never asked about it. */
  function Survives(r: VecRecord, q: Query): (keep: bool)
    ensures keep <==>
      r.date.Some? && q.startDate <= r.date.value <= q.endDate
      && Weekday(r.date.value) in SelectedDays(q.days)
      && r.recordType == Consumption
  {
    match r.date
    case None => false
    case Some(date) =>
      date >= q.startDate && date <= q.endDate
      && IsDayOfWeekMatch(q.days, Weekday(date)).value
      && r.recordType == Consumption
  }

  /** `usageData.filter(...)`: the surviving records, in their original order. */
  function FilterRecords(records: seq<VecRecord>, q: Query): (kept: seq<VecRecord>)
    ensures |kept| <= |records|
    ensures forall r :: r in kept ==> r in records && Survives(r, q)
    decreases |records|
  {
    if records == [] then []
    else (if Survives(records[0], q) then [records[0]] else []) + FilterRecords(records[1..], q)
  }

  /** Every surviving record is kept. */
  lemma {:induction false} FilterKeepsSurvivors(records: seq<VecRecord>, q: Query, r: VecRecord)
    requires r in records && Survives(r, q)
    ensures r in FilterRecords(records, q)
    decreases |records|
  {
    if records[0] != r {
      FilterKeepsSurvivors(records[1..], q, r);
    }
  }

  /** Filtering two batches one after the other is filtering their concatenation. */
  lemma {:induction false} FilterAppend(a: seq<VecRecord>, b: seq<VecRecord>, q: Query)
    ensures FilterRecords(a + b, q) == FilterRecords(a, q) + FilterRecords(b, q)
    decreases |a|
  {
    if a == [] {
      assert a + b == b;
    } else {
      var head := if Survives(a[0], q) then [a[0]] else [];
      assert (a + b)[0] == a[0] && (a + b)[1..] == a[1..] + b;
      assert FilterRecords(a + b, q) == head + FilterRecords(a[1..] + b, q);
      assert FilterRecords(a, q) == head + FilterRecords(a[1..], q);
      FilterAppend(a[1..], b, q);
      assert head + (FilterRecords(a[1..], q) + FilterRecords(b, q))
          == (head + FilterRecords(a[1..], q)) + FilterRecords(b, q);
    }
  }

  /** Adding generation records anywhere changes nothing the filter keeps. */
  lemma GenerationIgnored(a: seq<VecRecord>, g: VecRecord, b: seq<VecRecord>, q: Query)
    requires g.recordType == Generation
    ensures FilterRecords(a + [g] + b, q) == FilterRecords(a + b, q)
  {
    FilterAppend(a + [g], b, q);
    FilterAppend(a, [g], q);
    FilterAppend(a, b, q);
    assert FilterRecords([g], q) == [] by {
      assert [g][1..] == [];
    }
  }

  // ---------------------------------------------------------------------------
  // Sums over a usage map

  /** A non-empty set of keys has a member to take. */
  lemma HasMember(keys: set<real>)
    requires keys != {}
    ensures exists k :: k in keys
  {
    if forall k :: k !in keys {
      assert false;
    }
  }

  /** The sum of `usage` over `keys`, in no particular order. */
  ghost function SumOver(usage: map<real, real>, keys: set<real>): real
    requires keys <= usage.Keys
    decreases keys
  {
    if keys == {} then 0.0
    else
      HasMember(keys);
      var k :| k in keys;
      usage[k] + SumOver(usage, keys - {k})
  }

  /** The order in which the keys are taken does not matter: any key can be taken
      first. */
  lemma {:induction false} SumOverRemove(usage: map<real, real>, keys: set<real>, k: real)
    requires keys <= usage.Keys && k in keys
    ensures SumOver(usage, keys) == usage[k] + SumOver(usage, keys - {k})
    decreases keys
  {
    var j :| j in keys && SumOver(usage, keys) == usage[j] + SumOver(usage, keys - {j});
    if j != k {
      SumOverRemove(usage, keys - {j}, k);
      SumOverRemove(usage, keys - {k}, j);
      assert keys - {j} - {k} == keys - {k} - {j};
    }
  }

  /** A map whose every value is `c` sums to `c` times the number of keys. */
  lemma {:induction false} SumOverConstant(usage: map<real, real>, keys: set<real>, c: real)
    requires keys <= usage.Keys
    requires forall k :: k in keys ==> usage[k] == c
    ensures SumOver(usage, keys) == c * |keys| as real
    decreases keys
  {
    if keys != {} {
      HasMember(keys);
      var k :| k in keys;
      SumOverRemove(usage, keys, k);
      SumOverConstant(usage, keys - {k}, c);
    }
  }

  /** The keys of `usage` inside the time window. */
  function WindowKeys(usage: map<real, real>, startTime: Clock, endTime: Clock): (keys: set<real>)
    ensures keys <= usage.Keys
    ensures forall k :: k in keys <==> k in usage && IsHourScheduleMatch(k, startTime, endTime)
  {
    set k | k in usage && IsHourScheduleMatch(k, startTime, endTime)
  }

  /** One record's usage inside the time window. */
  ghost function WindowUsage(usage: map<real, real>, startTime: Clock, endTime: Clock): real
  {
    SumOver(usage, WindowKeys(usage, startTime, endTime))
  }

  /** The in-window usage of all the records, summed. */
  ghost function TotalWindowUsage(records: seq<VecRecord>, q: Query): real
    decreases |records|
  {
    if records == [] then 0.0
    else
      TotalWindowUsage(records[..|records| - 1], q)
      + WindowUsage(records[|records| - 1].usageByHalfHour, q.startTime, q.endTime)
  }

  // ---------------------------------------------------------------------------
  // The aggregation

  /** One record's contribution: every entry whose key is inside the window is added
      to `usage`. The entries are taken in an arbitrary order. */
  method AddRecordUsage(usageByHalfHour: map<real, real>, startTime: Clock, endTime: Clock, usage: real)
    returns (total: real)
    ensures total == usage + WindowUsage(usageByHalfHour, startTime, endTime)
  {
    total := usage;
    var remaining := usageByHalfHour.Keys;
    ghost var window := WindowKeys(usageByHalfHour, startTime, endTime);
    ghost var matched: set<real> := {};
    while remaining != {}
      invariant remaining <= usageByHalfHour.Keys
      invariant matched <= window
      invariant forall k :: k in window ==> (k in matched <==> k !in remaining)
      invariant total == usage + SumOver(usageByHalfHour, matched)
      decreases remaining
    {
      HasMember(remaining);
      var key :| key in remaining;
      var value := usageByHalfHour[key];
      if IsHourScheduleMatch(key, startTime, endTime) {
        SumOverRemove(usageByHalfHour, matched + {key}, key);
        assert matched + {key} - {key} == matched;
        total := total + value;
        matched := matched + {key};
      }
      remaining := remaining - {key};
    }
    assert matched == window;
  }

  /** The aggregation block: filter the records, then for each survivor add its
      in-window usage and count one day, whether or not any of its half hours was in
      the window. */
  method Aggregate(usageData: seq<VecRecord>, q: Query) returns (wfhUsage: real, wfhDays: nat)
    ensures wfhDays == |FilterRecords(usageData, q)|
    ensures wfhUsage == TotalWindowUsage(FilterRecords(usageData, q), q)
  {
    var consumptionData := FilterRecords(usageData, q);
    wfhUsage := 0.0;
    wfhDays := 0;
    for i := 0 to |consumptionData|
      invariant wfhDays == i
      invariant wfhUsage == TotalWindowUsage(consumptionData[..i], q)
    {
      var record := consumptionData[i];
      wfhUsage := AddRecordUsage(record.usageByHalfHour, q.startTime, q.endTime, wfhUsage);
      wfhDays := wfhDays + 1;
      assert consumptionData[..i + 1][..i] == consumptionData[..i];
    }
    assert consumptionData[..|consumptionData|] == consumptionData;
  }

  /** With an empty time window nothing is added, but every surviving record still
      counts as a day. */
  lemma {:induction false} EmptyWindowNoUsage(records: seq<VecRecord>, q: Query)
    requires DecimalHours(q.startTime) >= DecimalHours(q.endTime)
    ensures TotalWindowUsage(records, q) == 0.0
    decreases |records|
  {
    if records != [] {
      EmptyWindowNoUsage(records[..|records| - 1], q);
      var usage := records[|records| - 1].usageByHalfHour;
      assert WindowKeys(usage, q.startTime, q.endTime) == {};
    }
  }

  /** Generation records never contribute to either result. */
  lemma GenerationNeverCounted(a: seq<VecRecord>, g: VecRecord, b: seq<VecRecord>, q: Query)
    requires g.recordType == Generation
    ensures |FilterRecords(a + [g] + b, q)| == |FilterRecords(a + b, q)|
    ensures TotalWindowUsage(FilterRecords(a + [g] + b, q), q) == TotalWindowUsage(FilterRecords(a + b, q), q)
  {
    GenerationIgnored(a, g, b, q);
  }

  /** A usage map holding `value` for every half hour of the day, as the wide
      export's decoder builds it. */
  function FlatDay(value: real): map<real, real>
  {
    VecCsv.SlotsUsage(seq(48, _ => value), 48)
  }

  /** The half-hour keys from `2 * lo / 2` up to but excluding `hi / 2`. */
  lemma {:induction false} KeysBetweenCount(lo: nat, hi: nat)
    requires lo <= hi
    ensures |set i: nat | lo <= i < hi :: VecCsv.KeyOfSlot(i)| == hi - lo
    decreases hi - lo
  {
    if lo < hi {
      KeysBetweenCount(lo, hi - 1);
      var smaller := set i: nat | lo <= i < hi - 1 :: VecCsv.KeyOfSlot(i);
      assert (set i: nat | lo <= i < hi :: VecCsv.KeyOfSlot(i)) == smaller + {VecCsv.KeyOfSlot(hi - 1)};
    } else {
      assert (set i: nat | lo <= i < hi :: VecCsv.KeyOfSlot(i)) == {};
    }
  }

  /** Between 8:00 and 17:00 lie the eighteen half hours 16 to 33 of a full day. */
  lemma FlatDayWorkingHours(value: real)
    ensures WindowKeys(FlatDay(value), Clock(8, 0), Clock(17, 0)) == set i: nat | 16 <= i < 34 :: VecCsv.KeyOfSlot(i)
    ensures |WindowKeys(FlatDay(value), Clock(8, 0), Clock(17, 0))| == 18
  {
    var usage := FlatDay(value);
    VecCsv.SlotsUsageContents(seq(48, _ => value), 48);
    var window := WindowKeys(usage, Clock(8, 0), Clock(17, 0));
    var expected := set i: nat | 16 <= i < 34 :: VecCsv.KeyOfSlot(i);
    forall k | k in window ensures k in expected {
      assert k in VecCsv.KeysBelow(48);
      var i: nat :| i < 48 && VecCsv.KeyOfSlot(i) == k;
      SlotInWindow(i, Clock(8, 0), Clock(17, 0));
    }
    forall i: nat | 16 <= i < 34 ensures VecCsv.KeyOfSlot(i) in window {
      assert VecCsv.KeyOfSlot(i) in VecCsv.KeysBelow(48);
      SlotInWindow(i, Clock(8, 0), Clock(17, 0));
    }
    KeysBetweenCount(16, 34);
  }

  /** The page's default query (Monday to Friday, 1 March to 30 June 2020, 8:00 to
      17:00) on Monday 2 March 2020 with the same usage in every half hour: the
      eighteen half hours of the working day are added up and the day is counted
      once. */
  lemma DefaultQueryOnFlatMonday(value: real)
    ensures var q := Query(18322, 18443, DefaultDays, Clock(8, 0), Clock(17, 0));
      var monday := VecRecord(Some(1), Some(1), Consumption, Some(18323), false, FlatDay(value));
      FilterRecords([monday], q) == [monday]
      && TotalWindowUsage([monday], q) == 18.0 * value
  {
    var q := Query(18322, 18443, DefaultDays, Clock(8, 0), Clock(17, 0));
    var monday := VecRecord(Some(1), Some(1), Consumption, Some(18323), false, FlatDay(value));
    assert Weekday(18323) == 1;
    assert [monday][1..] == [];
    var usage := FlatDay(value);
    VecCsv.SlotsUsageContents(seq(48, _ => value), 48);
    var window := WindowKeys(usage, q.startTime, q.endTime);
    FlatDayWorkingHours(value);
    forall k | k in window ensures usage[k] == value {
      var i: nat :| i < 48 && VecCsv.KeyOfSlot(i) == k;
    }
    SumOverConstant(usage, window, value);
    assert [monday][..0] == [];
  }
}
