// The schedule parser (src/utils/schedule_parser.py): weekday ranges with
// "HH:MM-HH:MM" intervals become (day, opens_at, closes_at) rows, one per
// interval and day. Python's ValueError (a malformed interval or time) is
// the None result: the parser has no handler, so one bad interval loses the
// whole list.

module ScheduleParser {
  import opened Common

  /** One provider schedule entry: the English start-day name, the English end-day name when the
      entry has an `end`, and the interval strings. */
  datatype ScheduleEntry = ScheduleEntry(start: string, end: Option<string>, intervals: seq<string>)

  /** One parsed row: day 0..6 (Monday first), opening and closing minute of the day. */
  datatype ScheduleRow = ScheduleRow(day: int, opensAt: int, closesAt: int)

  // ----- Python int() on a string -----

  /** The characters `str.strip()` removes that int() tolerates around a number (ASCII whitespace). */
  predicate IsSpace(c: char)
  {
    c == ' ' || '\t' <= c <= '\r' || 0x1c <= c as int <= 0x1f
  }

  predicate IsDigit(c: char)
  {
    '0' <= c <= '9'
  }

  /** A non-empty run of ASCII digits. */
  predicate IsDigits(s: string)
  {
    |s| > 0 && forall i :: 0 <= i < |s| ==> IsDigit(s[i])
  }

  /** The decimal value of a digit string. */
  function DigitsValue(s: string): (n: nat)
    requires forall i :: 0 <= i < |s| ==> IsDigit(s[i])
    decreases |s|
  {
    if s == [] then 0
    else
      assert IsDigit(s[|s| - 1]);
      DigitsValue(s[..|s| - 1]) * 10 + (s[|s| - 1] as int - '0' as int)
  }

  /** `s` without leading and trailing whitespace. */
  function TrimSpaces(s: string): (r: string)
    ensures |r| <= |s|
    ensures r == [] || (!IsSpace(r[0]) && !IsSpace(r[|r| - 1]))
    decreases |s|
  {
    if |s| > 0 && IsSpace(s[0]) then TrimSpaces(s[1..])
    else if |s| > 0 && IsSpace(s[|s| - 1]) then TrimSpaces(s[..|s| - 1])
    else s
  }

  /** Python `int(s)` for a decimal string: surrounding whitespace, an optional sign, then one or more
      digits; anything else is a ValueError (None). */
  function ParseInt(s: string): Option<int>
  {
    var t := TrimSpaces(s);
    if |t| > 0 && (t[0] == '+' || t[0] == '-') then
      if IsDigits(t[1..]) then Some(if t[0] == '-' then -(DigitsValue(t[1..]) as int) else DigitsValue(t[1..])) else None
    else if IsDigits(t) then Some(DigitsValue(t))
    else None
  }

  // ----- parse_time_to_minutes and parse_day_to_int -----

  /** `parse_time_to_minutes`: "H:M" with exactly one ':' and two integers gives 60*H + M; anything
      else raises (None). */
  function ParseTimeToMinutes(time: string): (r: Option<int>)
    ensures r.Some? ==> |Split(time, ':')| == 2
  {
    var parts := Split(time, ':');
    if |parts| != 2 then None
    else
      var hour, minute := ParseInt(parts[0]), ParseInt(parts[1]);
      if hour.None? || minute.None? then None else Some(hour.value * 60 + minute.value)
  }

  const DayNames: seq<string> := ["Monday", "Tuesday", "Wednesday", "Thursday", "Friday", "Saturday", "Sunday"]

  /** `parse_day_to_int`: the position of an English weekday name, 0 for any other string. */
  function ParseDayToInt(name: string): (d: int)
    ensures 0 <= d <= 6
    ensures d > 0 ==> DayNames[d] == name
    ensures name !in DayNames ==> d == 0
  {
    if name == "Monday" then 0
    else if name == "Tuesday" then 1
    else if name == "Wednesday" then 2
    else if name == "Thursday" then 3
    else if name == "Friday" then 4
    else if name == "Saturday" then 5
    else if name == "Sunday" then 6
    else 0
  }

  // ----- parse_schedule, as a specification -----

  function StartDay(e: ScheduleEntry): int
  {
    ParseDayToInt(e.start)
  }

  /** The end day: the parsed `end` name when there is one and it is non-empty, else the start day. */
  function EndDay(e: ScheduleEntry): int
  {
    if e.end.Some? && e.end.value != "" then ParseDayToInt(e.end.value) else StartDay(e)
  }

  /** One interval "A-B": exactly one '-', both sides times; "00:00-00:00" means the whole day. */
  function IntervalTimes(interval: string): Option<(int, int)>
  {
    var parts := Split(interval, '-');
    if |parts| != 2 then None
    else
      var opensAt, closesAt := ParseTimeToMinutes(parts[0]), ParseTimeToMinutes(parts[1]);
      if opensAt.None? || closesAt.None? then None
      else if opensAt.value == 0 && closesAt.value == 0 then Some((0, 24 * 60))
      else Some((opensAt.value, closesAt.value))
  }

  /** The rows of one interval: days lo, lo+1, .., hi in ascending order (none when hi < lo). */
  function DayRange(lo: int, hi: int, opensAt: int, closesAt: int): seq<ScheduleRow>
  {
    seq(if lo <= hi then hi - lo + 1 else 0, k => ScheduleRow(lo + k, opensAt, closesAt))
  }

  /** The rows of the intervals of one entry, interval by interval. */
  function IntervalsRows(startDay: int, endDay: int, intervals: seq<string>): Option<seq<ScheduleRow>>
    decreases |intervals|
  {
    if intervals == [] then Some([])
    else match IntervalsRows(startDay, endDay, intervals[..|intervals| - 1])
      case None => None
      case Some(rows) =>
        match IntervalTimes(intervals[|intervals| - 1])
        case None => None
        case Some(times) => Some(rows + DayRange(startDay, endDay, times.0, times.1))
  }

  function EntryRows(e: ScheduleEntry): Option<seq<ScheduleRow>>
  {
    IntervalsRows(StartDay(e), EndDay(e), e.intervals)
  }

  /** The rows of a whole schedule, entry by entry. */
  function ScheduleRows(entries: seq<ScheduleEntry>): Option<seq<ScheduleRow>>
    decreases |entries|
  {
    if entries == [] then Some([])
    else match ScheduleRows(entries[..|entries| - 1])
      case None => None
      case Some(rows) =>
        match EntryRows(entries[|entries| - 1])
        case None => None
        case Some(more) => Some(rows + more)
  }

  lemma {:induction false} IntervalsErrorSticks(startDay: int, endDay: int, intervals: seq<string>, j: nat)
    requires j <= |intervals| && IntervalsRows(startDay, endDay, intervals[..j]).None?
    ensures IntervalsRows(startDay, endDay, intervals).None?
    decreases |intervals|
  {
    if j < |intervals| {
      var front := intervals[..|intervals| - 1];
      assert front[..j] == intervals[..j];
      IntervalsErrorSticks(startDay, endDay, front, j);
    } else {
      assert intervals[..j] == intervals;
    }
  }

  lemma {:induction false} ScheduleErrorSticks(entries: seq<ScheduleEntry>, i: nat)
    requires i <= |entries| && ScheduleRows(entries[..i]).None?
    ensures ScheduleRows(entries).None?
    decreases |entries|
  {
    if i < |entries| {
      var front := entries[..|entries| - 1];
      assert front[..i] == entries[..i];
      ScheduleErrorSticks(front, i);
    } else {
      assert entries[..i] == entries;
    }
  }

  lemma ScheduleRowsStep(entries: seq<ScheduleEntry>, i: nat)
    requires i < |entries|
    ensures ScheduleRows(entries[..i + 1])
         == if ScheduleRows(entries[..i]).None? || EntryRows(entries[i]).None? then None
            else Some(ScheduleRows(entries[..i]).value + EntryRows(entries[i]).value)
  {
    assert entries[..i + 1][..i] == entries[..i];
  }

  lemma IntervalsRowsStep(startDay: int, endDay: int, intervals: seq<string>, j: nat)
    requires j < |intervals|
    ensures IntervalsRows(startDay, endDay, intervals[..j + 1])
         == if IntervalsRows(startDay, endDay, intervals[..j]).None? || IntervalTimes(intervals[j]).None? then None
            else Some(IntervalsRows(startDay, endDay, intervals[..j]).value
                      + DayRange(startDay, endDay, IntervalTimes(intervals[j]).value.0, IntervalTimes(intervals[j]).value.1))
  {
    assert intervals[..j + 1][..j] == intervals[..j];
  }

  /** The `while current_day <= end_day` loop: one row per day from `startDay` to `endDay`. */
  method AppendDays(parsed: seq<ScheduleRow>, startDay: int, endDay: int, opensAt: int, closesAt: int)
    returns (out: seq<ScheduleRow>)
    ensures out == parsed + DayRange(startDay, endDay, opensAt, closesAt)
  {
    out := parsed;
    var day := startDay;
    while day <= endDay
      invariant startDay <= day && (day <= endDay + 1 || day == startDay)
      invariant out == parsed + DayRange(startDay, day - 1, opensAt, closesAt)
    {
      out := out + [ScheduleRow(day, opensAt, closesAt)];
      day := day + 1;
    }
    assert DayRange(startDay, day - 1, opensAt, closesAt) == DayRange(startDay, endDay, opensAt, closesAt);
  }

  lemma ConcatAssoc<T>(a: seq<T>, b: seq<T>, c: seq<T>)
    ensures (a + b) + c == a + (b + c)
  {
  }

  /** One interval of the entry loop: split at '-', both times parsed, the 24/7 case widened. */
  method ParseInterval(interval: string) returns (times: Option<(int, int)>)
    ensures times == IntervalTimes(interval)
  {
    var parts := Split(interval, '-');
    if |parts| != 2 {
      return None;
    }
    var opensAt := ParseTimeToMinutes(parts[0]);
    var closesAt := ParseTimeToMinutes(parts[1]);
    if opensAt.None? || closesAt.None? {
      return None;
    }
    var o, c := opensAt.value, closesAt.value;
    if o == 0 && c == 0 {
      o := 0;
      c := 24 * 60;
    }
    return Some((o, c));
  }

  /** The body of the entry loop: every interval, split at '-' and parsed, then expanded over the days. */
  method ParseEntry(parsed: seq<ScheduleRow>, entry: ScheduleEntry) returns (out: Option<seq<ScheduleRow>>)
    ensures EntryRows(entry).None? ==> out.None?
    ensures EntryRows(entry).Some? ==> out == Some(parsed + EntryRows(entry).value)
  {
    var startDay, endDay := StartDay(entry), EndDay(entry);
    var rows := parsed;
    var j := 0;
    while j < |entry.intervals|
      invariant 0 <= j <= |entry.intervals|
      invariant IntervalsRows(startDay, endDay, entry.intervals[..j]).Some?
      invariant rows == parsed + IntervalsRows(startDay, endDay, entry.intervals[..j]).value
    {
      var interval := entry.intervals[j];
      IntervalsRowsStep(startDay, endDay, entry.intervals, j);
      var times := ParseInterval(interval);
      if times.None? {
        IntervalsErrorSticks(startDay, endDay, entry.intervals, j + 1);
        return None;
      }
      var (o, c) := times.value;
      ghost var done := IntervalsRows(startDay, endDay, entry.intervals[..j]).value;
      rows := AppendDays(rows, startDay, endDay, o, c);
      ConcatAssoc(parsed, done, DayRange(startDay, endDay, o, c));
      j := j + 1;
    }
    assert entry.intervals[..j] == entry.intervals;
    return Some(rows);
  }

  /** `parse_schedule`: the rows of every entry in input order, for each entry its intervals in input
      order, and for each interval its days in ascending order; None when an interval or time is
      malformed. */
  method ParseSchedule(entries: seq<ScheduleEntry>) returns (r: Option<seq<ScheduleRow>>)
    ensures r == ScheduleRows(entries)
  {
    var parsed: seq<ScheduleRow> := [];
    var i := 0;
    while i < |entries|
      invariant 0 <= i <= |entries|
      invariant ScheduleRows(entries[..i]) == Some(parsed)
    {
      ScheduleRowsStep(entries, i);
      var next := ParseEntry(parsed, entries[i]);
      if next.None? {
        ScheduleErrorSticks(entries, i + 1);
        return None;
      }
      parsed := next.value;
      i := i + 1;
    }
    assert entries[..i] == entries;
    return Some(parsed);
  }

  // ----- properties -----

  /** int() of a digit string is its decimal value. */
  lemma ParseIntDigits(s: string)
    requires IsDigits(s)
    ensures ParseInt(s) == Some(DigitsValue(s))
  {
    assert IsDigit(s[0]) && IsDigit(s[|s| - 1]);
    assert TrimSpaces(s) == s;
  }

  /** Whatever int() accepts is the value of a digit string, or its negation. */
  lemma ParseIntValue(s: string)
    ensures ParseInt(s).Some? ==>
              exists d :: IsDigits(d) && (ParseInt(s).value == DigitsValue(d) || ParseInt(s).value == -(DigitsValue(d) as int))
  {
    var t := TrimSpaces(s);
    if |t| > 0 && (t[0] == '+' || t[0] == '-') {
      if IsDigits(t[1..]) {
        assert IsDigits(t[1..]);
      }
    } else if IsDigits(t) {
      assert IsDigits(t);
    }
  }

  /** "HH:MM" with digit strings on both sides, of values h and m, is 60*h + m minutes. */
  lemma ClockTime(time: string, hh: string, mm: string, h: nat, m: nat)
    requires time == hh + ":" + mm
    requires IsDigits(hh) && IsDigits(mm) && DigitsValue(hh) == h && DigitsValue(mm) == m
    ensures ParseTimeToMinutes(time) == Some(60 * h + m)
  {
    SplitTime(hh, mm);
    ParseIntDigits(hh);
    ParseIntDigits(mm);
    TimeFromParts(time, hh, mm, h, m);
  }

  lemma SplitTime(hh: string, mm: string)
    requires IsDigits(hh) && IsDigits(mm)
    ensures Split(hh + ":" + mm, ':') == [hh, mm]
  {
    assert ':' !in hh by { forall i | 0 <= i < |hh| ensures hh[i] != ':' { assert IsDigit(hh[i]); } }
    assert ':' !in mm by { forall i | 0 <= i < |mm| ensures mm[i] != ':' { assert IsDigit(mm[i]); } }
    SplitConcat(hh, ':', mm);
    SplitNoSep(mm, ':');
  }

  lemma TimeFromParts(time: string, a: string, b: string, hour: int, minute: int)
    requires Split(time, ':') == [a, b] && ParseInt(a) == Some(hour) && ParseInt(b) == Some(minute)
    ensures ParseTimeToMinutes(time) == Some(60 * hour + minute)
  {
  }

  /** A time without exactly one ':' raises. */
  lemma ParseTimeNeedsOneColon(time: string)
    requires ':' !in time
    ensures ParseTimeToMinutes(time).None?
  {
    SplitNoSep(time, ':');
  }

  /** Every weekday name maps to its position. */
  lemma DayNamesRoundTrip(d: nat)
    requires d < 7
    ensures ParseDayToInt(DayNames[d]) == d
  {
  }

  /** Both sides of "A-B" parsed: the times are kept as they are, except "00:00-00:00" (0, 0), which
      becomes the whole day (0, 1440); a closing time at or before the opening time is not rejected. */
  lemma IntervalKeepsTimes(interval: string, a: string, b: string, opensAt: int, closesAt: int)
    requires interval == a + "-" + b && '-' !in a && '-' !in b
    requires ParseTimeToMinutes(a) == Some(opensAt) && ParseTimeToMinutes(b) == Some(closesAt)
    ensures IntervalTimes(interval) == if opensAt == 0 && closesAt == 0 then Some((0, 1440)) else Some((opensAt, closesAt))
  {
    SplitConcat(a, '-', b);
    SplitNoSep(b, '-');
  }

  /** An entry with no end, or an end whose name is empty, covers its start day only. */
  lemma SingleDayEntry(e: ScheduleEntry)
    requires e.end.None? || e.end.value == ""
    ensures StartDay(e) == EndDay(e)
    ensures forall o, c :: DayRange(StartDay(e), EndDay(e), o, c) == [ScheduleRow(StartDay(e), o, c)]
  {
  }

  /** Each interval contributes one row per day of the range: |intervals| * (end - start + 1) rows, and
      none when the end day precedes the start day. */
  lemma {:induction false} IntervalsRowCount(startDay: int, endDay: int, intervals: seq<string>)
    requires IntervalsRows(startDay, endDay, intervals).Some?
    ensures |IntervalsRows(startDay, endDay, intervals).value|
            == |intervals| * (if startDay <= endDay then endDay - startDay + 1 else 0)
    decreases |intervals|
  {
    if intervals != [] {
      var front := intervals[..|intervals| - 1];
      var times := IntervalTimes(intervals[|intervals| - 1]).value;
      var rows := IntervalsRows(startDay, endDay, front).value;
      assert IntervalsRows(startDay, endDay, intervals).value == rows + DayRange(startDay, endDay, times.0, times.1);
      IntervalsRowCount(startDay, endDay, front);
      var w := if startDay <= endDay then endDay - startDay + 1 else 0;
      MulSucc(|front|, w);
    }
  }

  lemma MulSucc(a: nat, w: int)
    ensures (a + 1) * w == a * w + w
  {
  }

  /** Every produced row has a day in 0..6 that lies between its entry's start and end days. */
  lemma {:induction false} IntervalsRowDays(startDay: int, endDay: int, intervals: seq<string>)
    requires IntervalsRows(startDay, endDay, intervals).Some?
    ensures forall row :: row in IntervalsRows(startDay, endDay, intervals).value ==> startDay <= row.day <= endDay
    decreases |intervals|
  {
    if intervals != [] {
      IntervalsRowDays(startDay, endDay, intervals[..|intervals| - 1]);
    }
  }

  lemma {:induction false} ScheduleRowDays(entries: seq<ScheduleEntry>)
    requires ScheduleRows(entries).Some?
    ensures forall row :: row in ScheduleRows(entries).value ==> 0 <= row.day <= 6
    decreases |entries|
  {
    if entries != [] {
      ScheduleRowDays(entries[..|entries| - 1]);
      var e := entries[|entries| - 1];
      IntervalsRowDays(StartDay(e), EndDay(e), e.intervals);
    }
  }



  /** "09:00-18:00" is open from minute 540 to minute 1080. */
  lemma OfficeHoursInterval(interval: string)
    requires interval == ("09" + ":" + "00") + "-" + ("18" + ":" + "00")
    ensures IntervalTimes(interval) == Some((540, 1080))
  {
    TwoDigits("09");
    TwoDigits("18");
    TwoDigits("00");
    ClockTime("09" + ":" + "00", "09", "00", 9, 0);
    ClockTime("18" + ":" + "00", "18", "00", 18, 0);
    IntervalKeepsTimes(interval, "09" + ":" + "00", "18" + ":" + "00", 540, 1080);
  }

  /** The value of a two-digit string. */
  lemma TwoDigits(s: string)
    requires |s| == 2 && IsDigit(s[0]) && IsDigit(s[1])
    ensures IsDigits(s) && DigitsValue(s) == 10 * (s[0] as int - '0' as int) + (s[1] as int - '0' as int)
  {
    assert s[..1][..0] == [];
    assert DigitsValue(s[..1]) == s[0] as int - '0' as int;
  }

  lemma WeekdaysEntry(e: ScheduleEntry)
    requires e == ScheduleEntry("Monday", Some("Friday"), ["09:00-18:00"])
    ensures EntryRows(e) == Some(DayRange(0, 4, 540, 1080))
  {
    OfficeHoursInterval(e.intervals[0]);
    assert StartDay(e) == 0 && EndDay(e) == 4;
    IntervalsRowsStep(0, 4, e.intervals, 0);
    assert e.intervals[..0] == [] && e.intervals[..1] == e.intervals;
    assert [] + DayRange(0, 4, 540, 1080) == DayRange(0, 4, 540, 1080);
  }

  /** "Monday" to "Friday" with "09:00-18:00" gives five rows, Monday to Friday, 540 to 1080. */
  lemma WeekdaysExample(entries: seq<ScheduleEntry>)
    requires entries == [ScheduleEntry("Monday", Some("Friday"), ["09:00-18:00"])]
    ensures ScheduleRows(entries)
         == Some([ScheduleRow(0, 540, 1080), ScheduleRow(1, 540, 1080), ScheduleRow(2, 540, 1080),
                  ScheduleRow(3, 540, 1080), ScheduleRow(4, 540, 1080)])
  {
    WeekdaysEntry(entries[0]);
    ScheduleRowsStep(entries, 0);
    assert entries[..0] == [] && entries[..1] == entries;
    var rows := DayRange(0, 4, 540, 1080);
    assert [] + rows == rows;
    WeekdayRows(rows);
  }

  lemma WeekdayRows(rows: seq<ScheduleRow>)
    requires rows == DayRange(0, 4, 540, 1080)
    ensures rows == [ScheduleRow(0, 540, 1080), ScheduleRow(1, 540, 1080), ScheduleRow(2, 540, 1080),
                     ScheduleRow(3, 540, 1080), ScheduleRow(4, 540, 1080)]
  {
  }

  /** The whole-day interval. */
  lemma AllDayExample()
    ensures IntervalTimes("00:00-00:00") == Some((0, 1440))
  {
    assert DigitsValue("00") == 0;
    ClockTime("00:00", "00", "00", 0, 0);
    IntervalKeepsTimes("00:00-00:00", "00:00", "00:00", 0, 0);
  }
}
