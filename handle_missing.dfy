/**
 * `handle_missing_dates_command`: lists the days of a year that have no
 * release tag yet and dispatches one parse event per day. The clock
 * (`datetime.now()`), the tag list and the outcome of each dispatch are
 * parameters.
 */
module HandleMissing {
  import opened Common

  /** A calendar day of the proleptic Gregorian calendar, as `datetime` holds it. */
  datatype Date = Date(year: int, month: int, day: int)

  predicate IsLeapYear(y: int) {
    y % 4 == 0 && (y % 100 != 0 || y % 400 == 0)
  }

  function DaysInMonth(y: int, m: int): int {
    if m == 2 then (if IsLeapYear(y) then 29 else 28)
    else if m == 4 || m == 6 || m == 9 || m == 11 then 30
    else 31
  }

  predicate ValidDate(d: Date) {
    1 <= d.year && 1 <= d.month <= 12 && 1 <= d.day <= DaysInMonth(d.year, d.month)
  }

  /** `datetime.MAXYEAR`. */
  const MaxYear: int := 9999

  /** The last day a `datetime` can hold; stepping past it raises `OverflowError`. */
  const LastDay: Date := Date(MaxYear, 12, 31)

  /** A day `datetime` can represent. */
  predicate Representable(d: Date) {
    ValidDate(d) && d.year <= MaxYear
  }

  /** `d + timedelta(days=1)`. */
  function NextDay(d: Date): Date {
    if d.day < DaysInMonth(d.year, d.month) then Date(d.year, d.month, d.day + 1)
    else if d.month < 12 then Date(d.year, d.month + 1, 1)
    else Date(d.year + 1, 1, 1)
  }

  /** `a <= b` on `datetime`s at midnight: chronological order. */
  predicate NotAfter(a: Date, b: Date) {
    a.year < b.year || (a.year == b.year && (a.month < b.month || (a.month == b.month && a.day <= b.day)))
  }

  /** `NextDay(d)` is a valid day after `d`, and no valid day lies strictly between them. */
  lemma NextDayIsSuccessor(d: Date, x: Date)
    requires ValidDate(d) && ValidDate(x)
    ensures ValidDate(NextDay(d)) && NotAfter(d, NextDay(d)) && d != NextDay(d)
    ensures NotAfter(d, x) && d != x ==> NotAfter(NextDay(d), x)
  {
  }

  /** Every representable day is on or before 9999-12-31. */
  lemma LastDayIsLast(d: Date)
    requires Representable(d)
    ensures NotAfter(d, LastDay)
  {
  }

  /** The days in strictly increasing order. */
  ghost predicate Ascending(days: seq<Date>) {
    forall i, j | 0 <= i < j < |days| :: NotAfter(days[i], days[j]) && days[i] != days[j]
  }

  lemma BeforeThenNotAfter(a: Date, b: Date, c: Date)
    requires NotAfter(a, b) && a != b && NotAfter(b, c)
    ensures NotAfter(a, c) && a != c
  {
  }

  // ---------------------------------------------------------------------------
  // strftime("%Y-%m-%d")

  function Digit(n: int): char
    requires 0 <= n <= 9
  {
    ('0' as int + n) as char
  }

  function DigitValue(c: char): int {
    c as int - '0' as int
  }

  function Pow10(k: nat): nat {
    if k == 0 then 1 else 10 * Pow10(k - 1)
  }

  /** The last `width` decimal digits of `n`, zero padded. */
  function Decimal(n: nat, width: nat): (s: string)
    ensures |s| == width
  {
    if width == 0 then [] else Decimal(n / 10, width - 1) + [Digit(n % 10)]
  }

  /** The number a string of decimal digits spells. */
  function ReadDecimal(s: string): int {
    if s == [] then 0 else 10 * ReadDecimal(s[..|s| - 1]) + DigitValue(s[|s| - 1])
  }

  /** A number that fits in `width` digits reads back from its zero-padded digits. */
  lemma {:induction false} ReadDecimalOfDecimal(n: nat, width: nat)
    requires n < Pow10(width)
    ensures ReadDecimal(Decimal(n, width)) == n
  {
    if width > 0 {
      var s := Decimal(n, width);
      assert s[..|s| - 1] == Decimal(n / 10, width - 1);
      ReadDecimalOfDecimal(n / 10, width - 1);
    }
  }

  /** `%Y-%m-%d`: a four-digit year, two-digit month and day, zero padded. */
  function Tag(d: Date): string
    requires Representable(d)
  {
    Decimal(d.year, 4) + "-" + Decimal(d.month, 2) + "-" + Decimal(d.day, 2)
  }

  /** Reads a `YYYY-MM-DD` tag back. */
  function ParseTag(t: string): Option<Date> {
    if |t| != 10 || t[4] != '-' || t[7] != '-' then None
    else Some(Date(ReadDecimal(t[..4]), ReadDecimal(t[5..7]), ReadDecimal(t[8..])))
  }

  /** Every representable day has its own tag: the tag reads back to the day. */
  lemma TagRoundTrip(d: Date)
    requires Representable(d)
    ensures ParseTag(Tag(d)) == Some(d)
  {
    var t := Tag(d);
    assert t[..4] == Decimal(d.year, 4);
    assert t[5..7] == Decimal(d.month, 2);
    assert t[8..] == Decimal(d.day, 2);
    assert Pow10(2) == 100 && Pow10(4) == 10000;
    ReadDecimalOfDecimal(d.year, 4);
    ReadDecimalOfDecimal(d.month, 2);
    ReadDecimalOfDecimal(d.day, 2);
  }

  lemma TagInjective(a: Date, b: Date)
    requires Representable(a) && Representable(b)
    ensures Tag(a) == Tag(b) ==> a == b
  {
    TagRoundTrip(a);
    TagRoundTrip(b);
  }

  // ---------------------------------------------------------------------------
  // The day loop

  /** The days from `d` to `end`, both included, whose tag is not among `existing`, in calendar order. */
  function MissingDays(d: Date, end: Date, existing: seq<string>): (days: seq<Date>)
    requires Representable(d) && Representable(end)
    ensures forall x | x in days :: Representable(x)
    decreases end.year - d.year, 12 - d.month, 31 - d.day
  {
    if !NotAfter(d, end) then []
    else
      var here := if Tag(d) in existing then [] else [d];
      if d == LastDay then here
      else here + MissingDays(NextDay(d), end, existing)
  }

  /** The tags of `days`, in order. */
  function Tags(days: seq<Date>): (tags: seq<string>)
    requires forall x | x in days :: Representable(x)
    ensures |tags| == |days|
  {
    if days == [] then [] else [Tag(days[0])] + Tags(days[1..])
  }

  /**
   * Exactly the days from `d` to `end` whose tag is not in `existing` are
   * listed: every missing day of the range, and nothing else.
   */
  lemma {:induction false} MissingDaysExact(d: Date, end: Date, existing: seq<string>, x: Date)
    requires Representable(d) && Representable(end)
    ensures x in MissingDays(d, end, existing) <==>
      ValidDate(x) && NotAfter(d, x) && NotAfter(x, end) && Tag(x) !in existing
    decreases end.year - d.year, 12 - d.month, 31 - d.day
  {
    if NotAfter(d, end) && d != LastDay {
      var next := NextDay(d);
      MissingDaysExact(next, end, existing, x);
      if ValidDate(x) {
        NextDayIsSuccessor(d, x);
      }
    }
  }

  /** The list is in strictly increasing calendar order, so no day appears twice. */
  lemma {:induction false} MissingDaysAscending(d: Date, end: Date, existing: seq<string>)
    requires Representable(d) && Representable(end)
    ensures Ascending(MissingDays(d, end, existing))
    decreases end.year - d.year, 12 - d.month, 31 - d.day
  {
    if NotAfter(d, end) && d != LastDay {
      var next := NextDay(d);
      MissingDaysAscending(next, end, existing);
      var rest := MissingDays(next, end, existing);
      NextDayIsSuccessor(d, d);
      forall x | x in rest ensures NotAfter(d, x) && d != x {
        MissingDaysExact(next, end, existing, x);
        BeforeThenNotAfter(d, next, x);
      }
      if Tag(d) !in existing {
        AscendingPrepend(d, rest);
      }
    }
  }

  /** A day before every day of an ascending list can be put in front of it. */
  lemma AscendingPrepend(d: Date, rest: seq<Date>)
    requires Ascending(rest)
    requires forall x | x in rest :: NotAfter(d, x) && d != x
    ensures Ascending([d] + rest)
  {
    var days := [d] + rest;
    forall i, j | 0 <= i < j < |days| ensures NotAfter(days[i], days[j]) && days[i] != days[j] {
      assert days[j] == rest[j - 1];
      if i > 0 {
        assert days[i] == rest[i - 1];
      }
    }
  }

  /** The missing tags are distinct: one per missing day. */
  lemma {:induction false} TagsDistinct(days: seq<Date>)
    requires forall x | x in days :: Representable(x)
    requires forall i, j | 0 <= i < j < |days| :: days[i] != days[j]
    ensures forall i, j | 0 <= i < j < |days| :: Tags(days)[i] != Tags(days)[j]
    decreases |days|
  {
    if days != [] {
      TagsDistinct(days[1..]);
      forall i, j | 0 <= i < j < |days| ensures Tags(days)[i] != Tags(days)[j] {
        TagsAt(days, i);
        TagsAt(days, j);
        TagInjective(days[i], days[j]);
      }
    }
  }

  lemma {:induction false} TagsAt(days: seq<Date>, i: nat)
    requires forall x | x in days :: Representable(x)
    requires i < |days|
    ensures Tags(days)[i] == Tag(days[i])
    decreases |days|
  {
    if i > 0 {
      TagsAt(days[1..], i - 1);
    }
  }

  lemma {:induction false} TagsConcat(a: seq<Date>, b: seq<Date>)
    requires forall x | x in a + b :: Representable(x)
    ensures Tags(a + b) == Tags(a) + Tags(b)
    decreases |a|
  {
    if a != [] {
      assert (a + b)[0] == a[0];
      assert (a + b)[1..] == a[1..] + b;
      TagsConcat(a[1..], b);
    } else {
      assert a + b == b;
    }
  }

  // ---------------------------------------------------------------------------
  // The command

  /** `arguments.year`, or the current year when it is not given. */
  function RangeYear(yearArg: Option<int>, now: Date): int {
    match yearArg
    case None => now.year
    case Some(y) => y
  }

  /** Today when the year is the current one or later, otherwise the year's 31 December. */
  function RangeEnd(year: int, now: Date): (end: Date)
    ensures Representable(now) && 1 <= year <= MaxYear ==> Representable(end)
  {
    if year >= now.year then now else Date(year, 12, 31)
  }

  /** A year after the current one has no missing day: its range is empty. */
  lemma FutureYearHasNoMissingDays(year: int, now: Date, existing: seq<string>)
    requires Representable(now) && now.year < year <= MaxYear
    ensures MissingDays(Date(year, 1, 1), RangeEnd(year, now), existing) == []
  {
  }

  function Min(a: int, b: int): int { if a <= b then a else b }
  function Max(a: int, b: int): int { if a >= b then a else b }

  /** `s[:limit]` when a limit is set, with Python's slice rules: a negative limit drops from the end. */
  function Head<T>(s: seq<T>, limit: Option<int>): (r: seq<T>)
    ensures r <= s
    ensures |r| == match limit
      case None => |s|
      case Some(k) => if k >= 0 then Min(k, |s|) else Max(0, |s| + k)
  {
    match limit
    case None => s
    case Some(k) => if k >= 0 then s[..Min(k, |s|)] else s[..Max(0, |s| + k)]
  }

  const EventType: string := "trigger-parse-globe-history-date"

  /** One `dispatch_event` call: the event type and the payload's `date`. */
  datatype Dispatch = Dispatch(eventType: string, date: string)

  /** The dates whose dispatch raised, in order. */
  function FailedOf(dates: seq<string>, fails: string -> bool): seq<string>
    decreases |dates|
  {
    if dates == [] then []
    else FailedOf(dates[..|dates| - 1], fails) + (if fails(dates[|dates| - 1]) then [dates[|dates| - 1]] else [])
  }

  /** What the command did: the missing tags found, those kept after the limit, the dispatches made and those that failed. */
  datatype Report = Report(missing: seq<string>, kept: seq<string>, dispatched: seq<Dispatch>, failed: seq<string>)

  /** What the command raises. */
  datatype CommandError =
    | YearOutOfRange(year: int)   // `datetime(year, 1, 1)` raises `ValueError`
    | DateOverflow                // stepping past 9999-12-31 raises `OverflowError`

  /** Proof helper on sequences: concatenation is associative. */
  lemma AppendAssociative<T>(a: seq<T>, b: seq<T>, c: seq<T>)
    ensures (a + b) + c == a + (b + c)
  {
  }

  /** One turn of the day loop: the tag of `d` if it is missing, then the rest of the range. */
  lemma MissingDaysStep(d: Date, end: Date, existing: seq<string>)
    requires Representable(d) && Representable(end) && NotAfter(d, end)
    ensures d != LastDay ==> Representable(NextDay(d))
    ensures Tags(MissingDays(d, end, existing))
      == (if Tag(d) in existing then [] else [Tag(d)])
       + (if d == LastDay then [] else Tags(MissingDays(NextDay(d), end, existing)))
  {
    NextDayIsSuccessor(d, d);
    var rest := if d == LastDay then [] else MissingDays(NextDay(d), end, existing);
    var here := if Tag(d) in existing then [] else [d];
    assert MissingDays(d, end, existing) == here + rest;
    TagsConcat(here, rest);
  }

  /**
   * The `while start_date <= end_date` loop: the tags of the days from
   * `first` to `end` that are not in `existingTags`, or `DateOverflow` when
   * the loop would step past the last representable day.
   */
  method ListMissingDates(first: Date, end: Date, existingTags: seq<string>)
    returns (r: Result<seq<string>, CommandError>)
    requires Representable(first) && Representable(end)
    ensures r.Err? <==> NotAfter(first, end) && end == LastDay
    ensures r.Err? ==> r.error == DateOverflow
    ensures r.Ok? ==> r.value == Tags(MissingDays(first, end, existingTags))
  {
    var startDate := first;
    var missingDates: seq<string> := [];
    while NotAfter(startDate, end)
      invariant Representable(startDate)
      invariant missingDates + Tags(MissingDays(startDate, end, existingTags))
                == Tags(MissingDays(first, end, existingTags))
      decreases end.year - startDate.year, 12 - startDate.month, 31 - startDate.day
    {
      var tagName := Tag(startDate);
      MissingDaysStep(startDate, end, existingTags);
      ghost var before := missingDates;
      ghost var head := if tagName in existingTags then [] else [tagName];
      ghost var tail := if startDate == LastDay then [] else Tags(MissingDays(NextDay(startDate), end, existingTags));
      assert Tags(MissingDays(startDate, end, existingTags)) == head + tail;
      if tagName !in existingTags {
        missingDates := missingDates + [tagName];
      }
      assert missingDates == before + head;
      AppendAssociative(before, head, tail);
      if startDate == LastDay {
        assert end == LastDay;
        LastDayIsLast(first);
        return Err(DateOverflow);
      }
      NextDayIsSuccessor(startDate, startDate);
      startDate := NextDay(startDate);
    }
    LastDayIsLast(startDate);
    assert end != LastDay;
    return Ok(missingDates);
  }

  /**
   * The dispatch loop: one event per date, in order; a dispatch that raises
   * is caught and recorded, and the loop goes on.
   */
  method DispatchAll(dates: seq<string>, dispatchFails: string -> bool)
    returns (dispatched: seq<Dispatch>, failed: seq<string>)
    ensures |dispatched| == |dates|
    ensures forall i | 0 <= i < |dates| :: dispatched[i] == Dispatch(EventType, dates[i])
    ensures failed == FailedOf(dates, dispatchFails)
  {
    dispatched := [];
    failed := [];
    for i := 0 to |dates|
      invariant |dispatched| == i
      invariant forall j | 0 <= j < i :: dispatched[j] == Dispatch(EventType, dates[j])
      invariant failed == FailedOf(dates[..i], dispatchFails)
    {
      var date := dates[i];
      assert dates[..i + 1][..i] == dates[..i];
      dispatched := dispatched + [Dispatch(EventType, date)];
      if dispatchFails(date) {
        failed := failed + [date];
      }
    }
    assert dates[..|dates|] == dates;
  }

  /**
   * `handle_missing_dates_command(arguments)`: `now` is `datetime.now()`,
   * `existingTags` the repository's tags, and `dispatchFails(date)` whether
   * `dispatch_event` raises for that date.
   */
  method HandleMissingDatesCommand(yearArg: Option<int>, limit: Option<int>, now: Date,
                                   existingTags: seq<string>, dispatchFails: string -> bool)
    returns (r: Result<Report, CommandError>)
    requires Representable(now)
    ensures var year := RangeYear(yearArg, now);
      && (r == Err(YearOutOfRange(year)) <==> !(1 <= year <= MaxYear))
      && (1 <= year <= MaxYear ==>
            var first, end := Date(year, 1, 1), RangeEnd(year, now);
            && (r == Err(DateOverflow) <==> end == LastDay)
            && (end != LastDay ==> r.Ok?)
            && (r.Ok? ==> r.value.missing == Tags(MissingDays(first, end, existingTags))))
      && (r.Err? ==> r.error == YearOutOfRange(year) || r.error == DateOverflow)
    ensures r.Ok? ==>
      && r.value.kept == Head(r.value.missing, limit)
      && |r.value.dispatched| == |r.value.kept|
      && (forall i | 0 <= i < |r.value.kept| :: r.value.dispatched[i] == Dispatch(EventType, r.value.kept[i]))
      && r.value.failed == FailedOf(r.value.kept, dispatchFails)
  {
    var year := RangeYear(yearArg, now);
    if !(1 <= year <= MaxYear) {
      return Err(YearOutOfRange(year));
    }
    var first := Date(year, 1, 1);
    var end := RangeEnd(year, now);
    var found := ListMissingDates(first, end, existingTags);
    if found.Err? {
      return Err(found.error);
    }
    var kept := Head(found.value, limit);
    var dispatched, failed := DispatchAll(kept, dispatchFails);
    return Ok(Report(found.value, kept, dispatched, failed));
  }
}
