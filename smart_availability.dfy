// The availability engine: from a resource's schedule (weekly shifts,
// dated exceptions, recurring breaks, a timezone), the bookings that
// already occupy the resource and a service's duration, the slots that can
// still be booked inside a query window.
//
// Each stage (opening hours per day, break subtraction, busy-time
// subtraction, slot generation) is a function on sequences of ranges,
// characterised instant by instant; the service's loops are methods proved
// equal to those functions.  The clock (`now`), the zone table
// (`zoneOffset`) and the bookings the repository returned (`busy`) are
// parameters.
module SmartAvailability {
  import opened Wrappers
  import opened Errors
  import opened Json
  import opened Text
  import opened TimeRanges
  import opened ZonedTime
  import opened TimeSlots
  import ConfigService

  // ---------------------------------------------------------------- schedule

  /** A weekday as configured: a number (0 = Sunday) or a three-letter name. */
  datatype DaySpec = DayNumber(n: int) | DayName(name: string)

  datatype WeeklyShift = WeeklyShift(days: seq<DaySpec>, start: string, end: string)

  datatype GlobalBreak = GlobalBreak(name: string, start: string, end: string, days: seq<DaySpec>)

  /** A dated exception; `kind` is CLOSED, MODIFIED or BLACKOUT; an empty start or end is an absent one. */
  datatype ScheduleException = ScheduleException(date: string, kind: string, start: string, end: string)

  datatype ScheduleConfig = ScheduleConfig(
    timezone: string, weeklyShifts: seq<WeeklyShift>, globalBreaks: seq<GlobalBreak>,
    exceptions: seq<ScheduleException>)

  datatype ServiceConfig = ServiceConfig(durationMinutes: int, granularityMinutes: int, bufferAfterMinutes: Option<int>)

  const WORKDAYS: seq<DaySpec> := [DayNumber(1), DayNumber(2), DayNumber(3), DayNumber(4), DayNumber(5)]

  /** The development fallback: UTC, Monday to Friday 09:00-18:00, lunch 13:00-14:00. */
  const DEFAULT_SCHEDULE := ScheduleConfig(
    "UTC", [WeeklyShift(WORKDAYS, "09:00", "18:00")], [GlobalBreak("Lunch", "13:00", "14:00", WORKDAYS)], [])

  const SCHEDULE_KEY := "SCHEDULE_DEFAULT"
  const CRITICAL := "[SmartAvailability] CRITICAL: Missing SCHEDULE configuration in PRODUCTION. System cannot assume defaults."

  function StrMember(j: Json, key: string): string
  {
    match Member(j, key)
    case Some(JStr(s)) => s
    case _ => ""
  }

  function ListMember<T>(j: Json, key: string, read: Json -> T): seq<T>
  {
    match Member(j, key)
    case Some(JArr(items)) => seq(|items|, i requires 0 <= i < |items| => read(items[i]))
    case _ => []
  }

  function ReadDay(j: Json): DaySpec
  {
    match j
    case JNum(n) => DayNumber(n)
    case JStr(s) => DayName(s)
    case _ => DayNumber(-1)
  }

  function ReadShift(j: Json): WeeklyShift
  {
    WeeklyShift(ListMember(j, "days", ReadDay), StrMember(j, "start"), StrMember(j, "end"))
  }

  function ReadBreak(j: Json): GlobalBreak
  {
    GlobalBreak(StrMember(j, "name"), StrMember(j, "start"), StrMember(j, "end"), ListMember(j, "days", ReadDay))
  }

  function ReadException(j: Json): ScheduleException
  {
    ScheduleException(StrMember(j, "date"), StrMember(j, "type"), StrMember(j, "start"), StrMember(j, "end"))
  }

  /** `{ ...defaults, ...config }`: each top-level key the document holds replaces the default's. */
  function Spread(d: ScheduleConfig, c: Json): (s: ScheduleConfig)
    ensures Member(c, "timezone").None? ==> s.timezone == d.timezone
    ensures Member(c, "weeklyShifts").None? ==> s.weeklyShifts == d.weeklyShifts
    ensures Member(c, "globalBreaks").None? ==> s.globalBreaks == d.globalBreaks
    ensures Member(c, "exceptions").None? ==> s.exceptions == d.exceptions
    ensures Member(c, "timezone").Some? ==> s.timezone == StrMember(c, "timezone")
    ensures Member(c, "weeklyShifts").Some? ==> s.weeklyShifts == ListMember(c, "weeklyShifts", ReadShift)
    ensures Member(c, "globalBreaks").Some? ==> s.globalBreaks == ListMember(c, "globalBreaks", ReadBreak)
    ensures Member(c, "exceptions").Some? ==> s.exceptions == ListMember(c, "exceptions", ReadException)
  {
    ScheduleConfig(
      if Member(c, "timezone").Some? then StrMember(c, "timezone") else d.timezone,
      if Member(c, "weeklyShifts").Some? then ListMember(c, "weeklyShifts", ReadShift) else d.weeklyShifts,
      if Member(c, "globalBreaks").Some? then ListMember(c, "globalBreaks", ReadBreak) else d.globalBreaks,
      if Member(c, "exceptions").Some? then ListMember(c, "exceptions", ReadException) else d.exceptions)
  }

  /**
   * `loadSchedule`, given what the configuration lookup returned: in
   * production a falsy document is fatal; elsewhere it means the defaults.
   */
  function LoadSchedule(config: Json, production: bool): (r: Result<ScheduleConfig, Error>)
    ensures r.Err? <==> production && !Truthy(config)
    ensures r.Err? ==> r.error == PlainError(CRITICAL)
    ensures !Truthy(config) && !production ==> r == Ok(DEFAULT_SCHEDULE)
    ensures Truthy(config) ==> r == Ok(Spread(DEFAULT_SCHEDULE, config))
    ensures Truthy(config) && !config.JObj? ==> r == Ok(DEFAULT_SCHEDULE)
  {
    if production && !Truthy(config) then Err(PlainError(CRITICAL))
    else if Truthy(config) then Ok(Spread(DEFAULT_SCHEDULE, config))
    else Ok(DEFAULT_SCHEDULE)
  }

  /**
   * The schedule document as the service reads it: through `getPolicyParams`,
   * which substitutes an empty object for a missing entry.
   */
  function ScheduleDocumentAsWritten(appConfig: Json): Json
  {
    ConfigService.PolicyParams(appConfig, SCHEDULE_KEY)
  }

  /** Read that way, the production guard can never fire. */
  lemma ProductionGuardUnreachable(appConfig: Json)
    ensures LoadSchedule(ScheduleDocumentAsWritten(appConfig), true).Ok?
    ensures Member(Member(appConfig, "policies").GetOr(JNull), SCHEDULE_KEY).None? ==>
              LoadSchedule(ScheduleDocumentAsWritten(appConfig), true) == Ok(DEFAULT_SCHEDULE)
  {
  }

  /** The schedule document read without a default, so that a missing one is visible. */
  function ScheduleDocument(appConfig: Json): Json
  {
    ConfigService.PolicyEntry(appConfig, SCHEDULE_KEY)
  }

  /** Read this way, production refuses to start without a schedule and otherwise uses the stored one. */
  lemma ProductionGuardFires(appConfig: Json, production: bool)
    ensures !TruthyOpt(Member(Member(appConfig, "policies").GetOr(JNull), SCHEDULE_KEY)) ==>
              LoadSchedule(ScheduleDocument(appConfig), production)
              == (if production then Err(PlainError(CRITICAL)) else Ok(DEFAULT_SCHEDULE))
    ensures TruthyOpt(Member(Member(appConfig, "policies").GetOr(JNull), SCHEDULE_KEY)) ==>
              LoadSchedule(ScheduleDocument(appConfig), production)
              == LoadSchedule(ScheduleDocumentAsWritten(appConfig), production)
  {
  }

  const DAY_NAMES := ["SUN", "MON", "TUE", "WED", "THU", "FRI", "SAT"]

  /** `mapDay`: numbers pass through, names are matched case-insensitively, anything else is -1. */
  function MapDay(d: DaySpec): (n: int)
    ensures d.DayNumber? ==> n == d.n
    ensures d.DayName? ==> -1 <= n < 7
    ensures d.DayName? && 0 <= n ==> ToUpper(d.name) == DAY_NAMES[n]
    ensures d.DayName? && n == -1 ==> ToUpper(d.name) !in DAY_NAMES
  {
    match d
    case DayNumber(k) => k
    case DayName(name) =>
      var u := ToUpper(name);
      if u == "SUN" then 0 else if u == "MON" then 1 else if u == "TUE" then 2
      else if u == "WED" then 3 else if u == "THU" then 4 else if u == "FRI" then 5
      else if u == "SAT" then 6 else -1
  }

  /** Monday to Friday by name, as the tests configure them. */
  lemma WorkdayNames()
    ensures MapDay(DayName("MON")) == 1 && MapDay(DayName("TUE")) == 2 && MapDay(DayName("WED")) == 3
    ensures MapDay(DayName("THU")) == 4 && MapDay(DayName("FRI")) == 5 && MapDay(DayName("mon")) == 1
  {
    assert ToUpper("MON") == "MON";
    assert ToUpper("TUE") == "TUE";
    assert ToUpper("WED") == "WED";
    assert ToUpper("THU") == "THU";
    assert ToUpper("FRI") == "FRI";
    assert ToUpper("mon") == "MON";
  }

  /** `days.some(d => mapDay(d) === weekday)`. */
  predicate AppliesTo(days: seq<DaySpec>, weekday: int)
  {
    exists i :: 0 <= i < |days| && MapDay(days[i]) == weekday
  }

  /** `exceptions.find(e => e.date === ymd)`: the first exception with that date. */
  function FindException(exs: seq<ScheduleException>, ymd: string): (r: Option<ScheduleException>)
    ensures r.None? <==> forall i :: 0 <= i < |exs| ==> exs[i].date != ymd
    ensures r.Some? ==> exists i :: 0 <= i < |exs| && exs[i] == r.value && exs[i].date == ymd
                          && forall j :: 0 <= j < i ==> exs[j].date != ymd
  {
    if exs == [] then None
    else if exs[0].date == ymd then Some(exs[0])
    else
      var r := FindException(exs[1..], ymd);
      assert forall i :: 1 <= i < |exs| ==> exs[i] == exs[1..][i - 1];
      r
  }

  /** `weeklyShifts.find(...)`: the first shift that names the weekday. */
  function FindShift(shifts: seq<WeeklyShift>, weekday: int): (r: Option<WeeklyShift>)
    ensures r.None? <==> forall i :: 0 <= i < |shifts| ==> !AppliesTo(shifts[i].days, weekday)
    ensures r.Some? ==> exists i :: 0 <= i < |shifts| && shifts[i] == r.value && AppliesTo(shifts[i].days, weekday)
                          && forall j :: 0 <= j < i ==> !AppliesTo(shifts[j].days, weekday)
  {
    if shifts == [] then None
    else if AppliesTo(shifts[0].days, weekday) then Some(shifts[0])
    else
      var r := FindShift(shifts[1..], weekday);
      assert forall i :: 1 <= i < |shifts| ==> shifts[i] == shifts[1..][i - 1];
      r
  }

  /**
   * The opening hours of a zone-local day, as clock strings: a CLOSED or
   * BLACKOUT exception closes it, a MODIFIED one with both hours replaces
   * the weekly rule, and otherwise the first shift naming the weekday
   * applies (a MODIFIED exception without hours also falls back to it).
   */
  function DayHours(s: ScheduleConfig, day: int): (h: Option<(string, string)>)
    ensures var ex := FindException(s.exceptions, FormatYMD(day));
      ex.Some? && (ex.value.kind == "CLOSED" || ex.value.kind == "BLACKOUT") ==> h.None?
    ensures var ex := FindException(s.exceptions, FormatYMD(day));
      ex.Some? && ex.value.kind == "MODIFIED" && ex.value.start != "" && ex.value.end != "" ==>
        h == Some((ex.value.start, ex.value.end))
    ensures var ex := FindException(s.exceptions, FormatYMD(day));
      !(ex.Some? && (ex.value.kind == "CLOSED" || ex.value.kind == "BLACKOUT")) &&
      !(ex.Some? && ex.value.kind == "MODIFIED" && ex.value.start != "" && ex.value.end != "") ==>
      h == (match FindShift(s.weeklyShifts, Weekday(day))
            case None => None
            case Some(sh) => Some((sh.start, sh.end)))
  {
    var ex := FindException(s.exceptions, FormatYMD(day));
    if ex.Some? && (ex.value.kind == "CLOSED" || ex.value.kind == "BLACKOUT") then None
    else if ex.Some? && ex.value.kind == "MODIFIED" && ex.value.start != "" && ex.value.end != "" then
      Some((ex.value.start, ex.value.end))
    else
      match FindShift(s.weeklyShifts, Weekday(day))
      case None => None
      case Some(sh) => Some((sh.start, sh.end))
  }

  /** A range that starts and ends on one zone-local day. */
  predicate DayBounded(r: Range, offset: int)
  {
    LocalDay(r.start, offset) == LocalDay(r.end - 1, offset)
  }

  /** Every instant of a one-day range falls on that day. */
  lemma DayBoundedInstant(r: Range, offset: int, t: int)
    requires DayBounded(r, offset) && r.Contains(t)
    ensures LocalDay(t, offset) == LocalDay(r.start, offset)
  {
    LocalDayMonotone(r.start, t, offset);
    LocalDayMonotone(t, r.end - 1, offset);
  }

  /** A sub-range of a one-day range is a one-day range. */
  lemma WithinDayBounded(p: Range, r: Range, offset: int)
    requires DayBounded(r, offset) && p.Within(r)
    ensures DayBounded(p, offset) && LocalDay(p.start, offset) == LocalDay(r.start, offset)
  {
    DayBoundedInstant(r, offset, p.start);
    DayBoundedInstant(r, offset, p.end - 1);
  }

  /**
   * The day's opening interval: both ends must parse and the start must
   * come first (an Invalid Date fails the comparison and skips the day).
   */
  function OpenInterval(s: ScheduleConfig, day: int, offset: int): (r: Option<Range>)
    ensures r.Some? ==> DayBounded(r.value, offset) && LocalDay(r.value.start, offset) == day
    ensures r.Some? ==> DayHours(s, day).Some?
  {
    match DayHours(s, day)
    case None => None
    case Some((a, b)) =>
      var st := ParseTimeInZone(day, a, offset);
      var en := ParseTimeInZone(day, b, offset);
      if st.None? || en.None? || st.value >= en.value then None
      else
        var r: Range := TimeRange(st.value, en.value);
        var m := ParseClock(b).value;
        assert r.end - 1 == ZonedInstant(day, m - 1, offset) + MS_PER_MINUTE - 1;
        LocalDayIff(r.end - 1, day, offset);
        Some(r)
  }

  /** The zone's clock shows opening hours of its own day at instant `t`. */
  predicate OpenAt(s: ScheduleConfig, offset: int, t: int)
  {
    var r := OpenInterval(s, LocalDay(t, offset), offset);
    r.Some? && r.value.Contains(t)
  }

  /** The opening interval of a day clipped to the query window; empty intersections vanish. */
  function DayRange(s: ScheduleConfig, dayStart: int, qs: int, qe: int, offset: int): (r: Option<Range>)
    ensures r.Some? ==> DayBounded(r.value, offset) && qs <= r.value.start && r.value.end <= qe
    ensures forall t :: (r.Some? && r.value.Contains(t)) <==>
      (qs <= t < qe && OpenInterval(s, LocalDay(dayStart, offset), offset).Some?
       && OpenInterval(s, LocalDay(dayStart, offset), offset).value.Contains(t))
  {
    match OpenInterval(s, LocalDay(dayStart, offset), offset)
    case None => None
    case Some(o) =>
      if o.start < qe && o.end > qs then
        var cs := if o.start < qs then qs else o.start;
        var ce := if o.end > qe then qe else o.end;
        if cs < ce then
          var c: Range := TimeRange(cs, ce);
          WithinDayBounded(c, o, offset);
          Some(c)
        else None
      else None
  }

  function OptionToSeq(r: Option<Range>): seq<Range>
  {
    if r.Some? then [r.value] else []
  }

  /** `generateEffectiveRanges` over the enumerated days. */
  function EffectiveRanges(days: seq<int>, qs: int, qe: int, s: ScheduleConfig, offset: int): (rs: seq<Range>)
    ensures |rs| <= |days|
    ensures forall k :: 0 <= k < |rs| ==> DayBounded(rs[k], offset) && qs <= rs[k].start && rs[k].end <= qe
    decreases |days|
  {
    if days == [] then []
    else EffectiveRanges(days[..|days| - 1], qs, qe, s, offset) + OptionToSeq(DayRange(s, days[|days| - 1], qs, qe, offset))
  }

  /** A day's clipped range starts on that local day. */
  lemma DayRangeOnItsDay(s: ScheduleConfig, dayStart: int, qs: int, qe: int, offset: int)
    ensures var r := DayRange(s, dayStart, qs, qe, offset);
      r.Some? ==> LocalDay(r.value.start, offset) == LocalDay(dayStart, offset)
  {
    var r := DayRange(s, dayStart, qs, qe, offset);
    if r.Some? {
      var o := OpenInterval(s, LocalDay(dayStart, offset), offset);
      assert r.value.Contains(r.value.start);
      DayBoundedInstant(o.value, offset, r.value.start);
    }
  }

  /** Every range of the list starts on local day `d` or earlier. */
  predicate StartNoLaterThan(rs: seq<Range>, d: int, offset: int)
  {
    forall k :: 0 <= k < |rs| ==> LocalDay(rs[k].start, offset) <= d
  }

  lemma EarlierDaysEndBefore(front: seq<Range>, d: int, last: int, offset: int)
    requires forall k :: 0 <= k < |front| ==> DayBounded(front[k], offset)
    requires StartNoLaterThan(front, d, offset)
    requires d < LocalDay(last, offset)
    ensures forall k :: 0 <= k < |front| ==> LocalDay(front[k].end - 1, offset) < LocalDay(last, offset)
  {
  }

  /** Ranges each ending on a day before the one where `r` starts all end by `r`'s start. */
  lemma EarlierRangesPrecede(front: seq<Range>, r: Range, offset: int)
    requires forall k :: 0 <= k < |front| ==> LocalDay(front[k].end - 1, offset) < LocalDay(r.start, offset)
    ensures forall k :: 0 <= k < |front| ==> front[k].end <= r.start
  {
    forall k | 0 <= k < |front| ensures front[k].end <= r.start {
      if front[k].end - 1 >= r.start {
        LocalDayMonotone(r.start, front[k].end - 1, offset);
      }
    }
  }

  /** The days are listed in strictly increasing local order. */
  predicate IncreasingDays(days: seq<int>, offset: int)
  {
    forall i, j :: 0 <= i < j < |days| ==> LocalDay(days[i], offset) < LocalDay(days[j], offset)
  }

  /**
   * Over days in increasing order the effective ranges come out in time
   * order and pairwise disjoint, each on a day no later than the last one.
   */
  lemma {:induction false} EffectiveRangesOrdered(days: seq<int>, qs: int, qe: int, s: ScheduleConfig, offset: int)
    requires IncreasingDays(days, offset)
    ensures InTimeOrder(EffectiveRanges(days, qs, qe, s, offset))
    ensures days != [] ==> StartNoLaterThan(EffectiveRanges(days, qs, qe, s, offset), LocalDay(days[|days| - 1], offset), offset)
    decreases |days|
  {
    if days != [] {
      var init := days[..|days| - 1];
      var last := days[|days| - 1];
      assert IncreasingDays(init, offset) by {
        forall i, j | 0 <= i < j < |init| ensures LocalDay(init[i], offset) < LocalDay(init[j], offset) {
          assert init[i] == days[i] && init[j] == days[j];
        }
      }
      EffectiveRangesOrdered(init, qs, qe, s, offset);
      var front := EffectiveRanges(init, qs, qe, s, offset);
      var r := DayRange(s, last, qs, qe, offset);
      DayRangeOnItsDay(s, last, qs, qe, offset);
      assert EffectiveRanges(days, qs, qe, s, offset) == front + OptionToSeq(r);
      if init != [] {
        var prev := init[|init| - 1];
        assert prev == days[|days| - 2];
        assert LocalDay(prev, offset) < LocalDay(last, offset);
        EarlierDaysEndBefore(front, LocalDay(prev, offset), last, offset);
      }
      AppendOrdered(front, r, LocalDay(last, offset), offset);
    }
  }

  /** In time order, pairwise: each range ends by the start of every later one. */
  predicate InTimeOrder(rs: seq<Range>)
  {
    forall i, j :: 0 <= i < j < |rs| ==> rs[i].end <= rs[j].start
  }

  lemma AppendOrdered(front: seq<Range>, r: Option<Range>, d: int, offset: int)
    requires InTimeOrder(front)
    requires forall k :: 0 <= k < |front| ==> LocalDay(front[k].end - 1, offset) < d
    requires StartNoLaterThan(front, d, offset)
    requires r.Some? ==> LocalDay(r.value.start, offset) == d
    ensures InTimeOrder(front + OptionToSeq(r))
    ensures StartNoLaterThan(front + OptionToSeq(r), d, offset)
  {
    if r.Some? {
      EarlierRangesPrecede(front, r.value, offset);
      var rs := front + [r.value];
      forall i, j | 0 <= i < j < |rs| ensures rs[i].end <= rs[j].start {
        assert rs[i] == front[i];
        if j < |front| { assert rs[j] == front[j]; }
      }
    } else {
      assert front + OptionToSeq(r) == front;
    }
  }

  // ------------------------------------------------------------ range algebra

  /** Some range of the list holds the instant. */
  predicate Covered(rs: seq<Range>, t: int)
  {
    exists i :: 0 <= i < |rs| && rs[i].Contains(t)
  }

  lemma CoveredOne(x: Range)
    ensures forall t :: Covered([x], t) <==> x.Contains(t)
  {
    forall t | x.Contains(t) ensures Covered([x], t) {
      assert [x][0] == x;
    }
  }

  lemma CoveredConcat(a: seq<Range>, b: seq<Range>, t: int)
    ensures Covered(a + b, t) <==> Covered(a, t) || Covered(b, t)
  {
    if Covered(a + b, t) {
      var i :| 0 <= i < |a + b| && (a + b)[i].Contains(t);
      if i >= |a| {
        assert b[i - |a|].Contains(t);
      }
    }
    if Covered(b, t) {
      var i :| 0 <= i < |b| && b[i].Contains(t);
      assert (a + b)[|a| + i] == b[i];
    }
    if Covered(a, t) {
      var i :| 0 <= i < |a| && a[i].Contains(t);
      assert (a + b)[i] == a[i];
    }
  }

  /** Every range of the list lies within some range of `outer`. */
  predicate AllWithin(rs: seq<Range>, outer: seq<Range>)
  {
    forall i :: 0 <= i < |rs| ==> WithinSome(rs[i], outer)
  }

  predicate WithinSome(x: Range, outer: seq<Range>)
  {
    exists j :: 0 <= j < |outer| && x.Within(outer[j])
  }

  lemma AllWithinSnoc(done: seq<Range>, init: seq<Range>, parts: seq<Range>, last: Range)
    requires AllWithin(done, init)
    requires forall k :: 0 <= k < |parts| ==> parts[k].Within(last)
    ensures AllWithin(done + parts, init + [last])
  {
    var rs := init + [last];
    forall i | 0 <= i < |done + parts| ensures WithinSome((done + parts)[i], rs) {
      if i < |done| {
        assert WithinSome(done[i], init);
        var j :| 0 <= j < |init| && done[i].Within(init[j]);
        assert rs[j] == init[j];
        assert (done + parts)[i] == done[i];
        assert (done + parts)[i].Within(rs[j]);
      } else {
        assert (done + parts)[i] == parts[i - |done|];
        assert rs[|init|] == last;
        assert (done + parts)[i].Within(rs[|init|]);
      }
    }
  }

  predicate AllDayBounded(rs: seq<Range>, offset: int)
  {
    forall i :: 0 <= i < |rs| ==> DayBounded(rs[i], offset)
  }

  /** `diffRange(a, b)`: what is left of `a` once `b` is taken out, in at most two pieces, earlier piece first. */
  function DiffRange(a: Range, b: Range): (parts: seq<Range>)
    ensures |parts| <= 2
    ensures !a.Overlaps(b) ==> parts == [a]
    ensures forall k :: 0 <= k < |parts| ==> parts[k].Within(a) && !parts[k].Overlaps(b)
    ensures forall t :: Covered(parts, t) <==> a.Contains(t) && !b.Contains(t)
    ensures |parts| == 2 ==> parts[0].end < parts[1].start
  {
    if !a.Overlaps(b) then
      CoveredOne(a);
      [a]
    else
      var before: seq<Range> := if a.start < b.start then [TimeRange(a.start, b.start)] else [];
      var after: seq<Range> := if a.end > b.end then [TimeRange(b.end, a.end)] else [];
      forall t ensures Covered(before + after, t) <==> a.Contains(t) && !b.Contains(t) {
        CoveredConcat(before, after, t);
        if a.start < b.start {
          CoveredOne(before[0]);
        }
        if a.end > b.end {
          CoveredOne(after[0]);
        }
      }
      before + after
  }

  // ----------------------------------------------------------------- breaks

  /** One range less one break, judged on the range's own local day; a break that does not parse is ignored. */
  function RangeMinusBreak(r: Range, brk: GlobalBreak, offset: int): (res: Result<seq<Range>, Error>)
    ensures res.Err? ==> res.error == InvalidTimeRange(END_AFTER_START)
    ensures res.Ok? ==> forall k :: 0 <= k < |res.value| ==> res.value[k].Within(r)
  {
    var day := LocalDay(r.start, offset);
    if !AppliesTo(brk.days, Weekday(day)) then Ok([r])
    else
      var bs := ParseTimeInZone(day, brk.start, offset);
      var be := ParseTimeInZone(day, brk.end, offset);
      if bs.None? || be.None? then Ok([r])
      else match FromDates(bs.value, be.value)
        case Err(e) => Err(e)
        case Ok(b) => Ok(DiffRange(r, b))
  }

  /** A break takes out instant `t` when it applies to `t`'s local weekday and the clock there is inside it. */
  predicate BreakBlocks(brk: GlobalBreak, offset: int, t: int)
  {
    var day := LocalDay(t, offset);
    && AppliesTo(brk.days, Weekday(day))
    && ParseTimeInZone(day, brk.start, offset).Some? && ParseTimeInZone(day, brk.end, offset).Some?
    && ParseTimeInZone(day, brk.start, offset).value <= t < ParseTimeInZone(day, brk.end, offset).value
  }

  /** No break of the list takes out instant `t`. */
  predicate Unbroken(breaks: seq<GlobalBreak>, offset: int, t: int)
    decreases |breaks|
  {
    breaks == [] || (Unbroken(breaks[..|breaks| - 1], offset, t) && !BreakBlocks(breaks[|breaks| - 1], offset, t))
  }

  lemma {:induction false} UnbrokenIff(breaks: seq<GlobalBreak>, offset: int, t: int)
    ensures Unbroken(breaks, offset, t) <==> forall j :: 0 <= j < |breaks| ==> !BreakBlocks(breaks[j], offset, t)
    decreases |breaks|
  {
    if breaks != [] {
      var init := breaks[..|breaks| - 1];
      UnbrokenIff(init, offset, t);
      assert forall j :: 0 <= j < |init| ==> init[j] == breaks[j];
    }
  }

  lemma RangeMinusBreakCovers(r: Range, brk: GlobalBreak, offset: int)
    requires DayBounded(r, offset) && RangeMinusBreak(r, brk, offset).Ok?
    ensures forall t :: Covered(RangeMinusBreak(r, brk, offset).value, t) <==> r.Contains(t) && !BreakBlocks(brk, offset, t)
  {
    var parts := RangeMinusBreak(r, brk, offset).value;
    CoveredOne(r);
    forall t ensures Covered(parts, t) <==> r.Contains(t) && !BreakBlocks(brk, offset, t) {
      if r.Contains(t) {
        DayBoundedInstant(r, offset, t);
      }
    }
  }

  /** The inner loop of `subtractBreaks`: one break over every range, in order. */
  function BreakPass(rs: seq<Range>, brk: GlobalBreak, offset: int): (res: Result<seq<Range>, Error>)
    ensures res.Err? ==> res.error == InvalidTimeRange(END_AFTER_START)
    ensures res.Ok? ==> AllWithin(res.value, rs)
    decreases |rs|
  {
    if rs == [] then Ok([])
    else
      var init, last := rs[..|rs| - 1], rs[|rs| - 1];
      match BreakPass(init, brk, offset)
      case Err(e) => Err(e)
      case Ok(done) =>
        match RangeMinusBreak(last, brk, offset)
        case Err(e) => Err(e)
        case Ok(parts) =>
          AllWithinSnoc(done, init, parts, last);
          assert init + [last] == rs;
          Ok(done + parts)
  }

  /** All of `subtractBreaks`: the breaks one after the other. */
  function AfterBreaks(rs: seq<Range>, breaks: seq<GlobalBreak>, offset: int): (res: Result<seq<Range>, Error>)
    ensures res.Err? ==> res.error == InvalidTimeRange(END_AFTER_START)
    decreases |breaks|
  {
    if breaks == [] then Ok(rs)
    else match AfterBreaks(rs, breaks[..|breaks| - 1], offset)
      case Err(e) => Err(e)
      case Ok(cur) => BreakPass(cur, breaks[|breaks| - 1], offset)
  }

  lemma AllWithinDayBounded(out: seq<Range>, rs: seq<Range>, offset: int)
    requires AllWithin(out, rs) && AllDayBounded(rs, offset)
    ensures AllDayBounded(out, offset)
  {
    forall i | 0 <= i < |out| ensures DayBounded(out[i], offset) {
      assert WithinSome(out[i], rs);
      var j :| 0 <= j < |rs| && out[i].Within(rs[j]);
      WithinDayBounded(out[i], rs[j], offset);
    }
  }

  lemma {:induction false} BreakPassCovers(rs: seq<Range>, brk: GlobalBreak, offset: int)
    requires AllDayBounded(rs, offset) && BreakPass(rs, brk, offset).Ok?
    ensures AllDayBounded(BreakPass(rs, brk, offset).value, offset)
    ensures forall t :: Covered(BreakPass(rs, brk, offset).value, t) <==> Covered(rs, t) && !BreakBlocks(brk, offset, t)
    decreases |rs|
  {
    var out := BreakPass(rs, brk, offset).value;
    AllWithinDayBounded(out, rs, offset);
    if rs != [] {
      var init, last := rs[..|rs| - 1], rs[|rs| - 1];
      assert rs == init + [last];
      BreakPassCovers(init, brk, offset);
      RangeMinusBreakCovers(last, brk, offset);
      CoveredOne(last);
      var done := BreakPass(init, brk, offset).value;
      var parts := RangeMinusBreak(last, brk, offset).value;
      assert out == done + parts;
      forall t ensures Covered(out, t) <==> Covered(rs, t) && !BreakBlocks(brk, offset, t) {
        CoveredConcat(done, parts, t);
        CoveredConcat(init, [last], t);
      }
    }
  }

  /**
   * After every break has been taken out of ranges that each lie on one
   * local day, an instant is still covered exactly when it was covered
   * before and no break takes it out; the pieces still lie on one day.
   */
  lemma {:induction false} AfterBreaksCovers(rs: seq<Range>, breaks: seq<GlobalBreak>, offset: int)
    requires AllDayBounded(rs, offset) && AfterBreaks(rs, breaks, offset).Ok?
    ensures AllDayBounded(AfterBreaks(rs, breaks, offset).value, offset)
    ensures forall t :: Covered(AfterBreaks(rs, breaks, offset).value, t) <==> Covered(rs, t) && Unbroken(breaks, offset, t)
    decreases |breaks|
  {
    if breaks != [] {
      var init := breaks[..|breaks| - 1];
      AfterBreaksCovers(rs, init, offset);
      BreakPassCovers(AfterBreaks(rs, init, offset).value, breaks[|breaks| - 1], offset);
    }
  }

  // ------------------------------------------------------------------- busy

  /** The inner loop of `subtractBusyRanges`: one busy range out of every free range. */
  function DiffAll(rs: seq<Range>, b: Range): (out: seq<Range>)
    ensures AllWithin(out, rs)
    decreases |rs|
  {
    if rs == [] then []
    else
      var init, last := rs[..|rs| - 1], rs[|rs| - 1];
      var done := DiffAll(init, b);
      AllWithinSnoc(done, init, DiffRange(last, b), last);
      assert init + [last] == rs;
      done + DiffRange(last, b)
  }

  lemma {:induction false} DiffAllCovers(rs: seq<Range>, b: Range)
    ensures forall t :: Covered(DiffAll(rs, b), t) <==> Covered(rs, t) && !b.Contains(t)
    decreases |rs|
  {
    if rs != [] {
      var init, last := rs[..|rs| - 1], rs[|rs| - 1];
      assert rs == init + [last];
      DiffAllCovers(init, b);
      CoveredOne(last);
      forall t ensures Covered(DiffAll(rs, b), t) <==> Covered(rs, t) && !b.Contains(t) {
        CoveredConcat(DiffAll(init, b), DiffRange(last, b), t);
        CoveredConcat(init, [last], t);
      }
    }
  }

  lemma AllWithinTrans(a: seq<Range>, b: seq<Range>, c: seq<Range>)
    requires AllWithin(a, b) && AllWithin(b, c)
    ensures AllWithin(a, c)
  {
    forall i | 0 <= i < |a| ensures WithinSome(a[i], c) {
      assert WithinSome(a[i], b);
      var j :| 0 <= j < |b| && a[i].Within(b[j]);
      assert WithinSome(b[j], c);
      var k :| 0 <= k < |c| && b[j].Within(c[k]);
      assert a[i].Within(c[k]);
    }
  }

  /** `subtractBusyRanges`: the busy ranges one after the other. */
  function SubtractBusy(rs: seq<Range>, busy: seq<Range>): seq<Range>
    decreases |busy|
  {
    if busy == [] then rs else DiffAll(SubtractBusy(rs, busy[..|busy| - 1]), busy[|busy| - 1])
  }

  /** No busy range of the list holds instant `t`. */
  predicate Idle(busy: seq<Range>, t: int)
    decreases |busy|
  {
    busy == [] || (Idle(busy[..|busy| - 1], t) && !busy[|busy| - 1].Contains(t))
  }

  lemma {:induction false} IdleIff(busy: seq<Range>, t: int)
    ensures Idle(busy, t) <==> forall j :: 0 <= j < |busy| ==> !busy[j].Contains(t)
    decreases |busy|
  {
    if busy != [] {
      var init := busy[..|busy| - 1];
      IdleIff(init, t);
      assert forall j :: 0 <= j < |init| ==> init[j] == busy[j];
    }
  }

  /** No range of `rs` overlaps a range of `busy`. */
  predicate Apart(rs: seq<Range>, busy: seq<Range>)
  {
    forall i, j :: 0 <= i < |rs| && 0 <= j < |busy| ==> !rs[i].Overlaps(busy[j])
  }

  /** Every range left after `subtractBusyRanges` lies within an input range and overlaps no busy range. */
  lemma {:induction false} SubtractBusyShape(rs: seq<Range>, busy: seq<Range>)
    ensures AllWithin(SubtractBusy(rs, busy), rs)
    ensures Apart(SubtractBusy(rs, busy), busy)
    decreases |busy|
  {
    if busy == [] {
      forall i | 0 <= i < |rs| ensures WithinSome(rs[i], rs) {
        assert rs[i].Within(rs[i]);
      }
    } else {
      var init, b := busy[..|busy| - 1], busy[|busy| - 1];
      SubtractBusyShape(rs, init);
      var cur := SubtractBusy(rs, init);
      DiffAllApart(cur, b);
      AllWithinTrans(DiffAll(cur, b), cur, rs);
      ApartStep(DiffAll(cur, b), cur, init, b);
      assert init + [b] == busy;
    }
  }

  lemma ApartStep(out: seq<Range>, cur: seq<Range>, init: seq<Range>, b: Range)
    requires AllWithin(out, cur) && Apart(cur, init)
    requires forall i :: 0 <= i < |out| ==> !out[i].Overlaps(b)
    ensures Apart(out, init + [b])
  {
    var busy := init + [b];
    forall i, j | 0 <= i < |out| && 0 <= j < |busy| ensures !out[i].Overlaps(busy[j]) {
      if j < |init| {
        assert WithinSome(out[i], cur);
        var k :| 0 <= k < |cur| && out[i].Within(cur[k]);
        assert busy[j] == init[j];
        if out[i].Overlaps(busy[j]) {
          WithinOverlaps(out[i], cur[k], busy[j]);
        }
      }
    }
  }

  lemma {:induction false} DiffAllApart(rs: seq<Range>, b: Range)
    ensures forall i :: 0 <= i < |DiffAll(rs, b)| ==> !DiffAll(rs, b)[i].Overlaps(b)
    decreases |rs|
  {
    if rs != [] {
      DiffAllApart(rs[..|rs| - 1], b);
      var done: seq<Range>, parts: seq<Range> := DiffAll(rs[..|rs| - 1], b), DiffRange(rs[|rs| - 1], b);
      var all := done + parts;
      assert DiffAll(rs, b) == all;
      forall i | 0 <= i < |all| ensures !all[i].Overlaps(b) {
        if i >= |done| {
          assert all[i] == parts[i - |done|];
        }
      }
    }
  }

  /** After the busy ranges are taken out, an instant is free exactly when it was free before and no busy range holds it. */
  lemma {:induction false} SubtractBusyCovers(rs: seq<Range>, busy: seq<Range>)
    ensures forall t :: Covered(SubtractBusy(rs, busy), t) <==> Covered(rs, t) && Idle(busy, t)
    decreases |busy|
  {
    if busy != [] {
      SubtractBusyCovers(rs, busy[..|busy| - 1]);
      DiffAllCovers(SubtractBusy(rs, busy[..|busy| - 1]), busy[|busy| - 1]);
    }
  }

  // ------------------------------------------------------------------ slots

  /** `durationMinutes + (bufferAfterMinutes || 0)`. */
  function TotalMinutes(c: ServiceConfig): int
  {
    c.durationMinutes + c.bufferAfterMinutes.GetOr(0)
  }

  /**
   * The slot loop from `current`: stop at the first start whose duration
   * plus buffer overruns the range; skip starts before `now`; step by the
   * granularity.
   */
  function SlotsFrom(current: int, endLimit: int, c: ServiceConfig, now: int): seq<TimeSlot>
    requires c.granularityMinutes > 0
    decreases endLimit - current - TotalMinutes(c) * MS_PER_MINUTE
  {
    if current + TotalMinutes(c) * MS_PER_MINUTE > endLimit then []
    else
      var rest := SlotsFrom(current + c.granularityMinutes * MS_PER_MINUTE, endLimit, c, now);
      if current < now then rest else [TimeSlot(current, current + c.durationMinutes * MS_PER_MINUTE, AVAILABLE)] + rest
  }

  function SlotsIn(r: Range, c: ServiceConfig, now: int): seq<TimeSlot>
    requires c.granularityMinutes > 0
  {
    SlotsFrom(r.start, r.end, c, now)
  }

  /** `generateSlotsFromRanges`: the slots of each range, range after range. */
  function AllSlots(rs: seq<Range>, c: ServiceConfig, now: int): seq<TimeSlot>
    requires c.granularityMinutes > 0
    decreases |rs|
  {
    if rs == [] then [] else AllSlots(rs[..|rs| - 1], c, now) + SlotsIn(rs[|rs| - 1], c, now)
  }

  /** A start on the grid of the range beginning at `origin`. */
  ghost predicate OnGrid(t: int, origin: int, c: ServiceConfig)
  {
    exists k: nat :: t == origin + k * (c.granularityMinutes * MS_PER_MINUTE)
  }

  /** A slot the loop may offer from `current` on: on the grid, not in the past, fitting with its buffer. */
  ghost predicate Offerable(sl: TimeSlot, current: int, endLimit: int, c: ServiceConfig, now: int)
  {
    && sl.status == AVAILABLE
    && sl.end == sl.start + c.durationMinutes * MS_PER_MINUTE
    && current <= sl.start && now <= sl.start
    && sl.start + TotalMinutes(c) * MS_PER_MINUTE <= endLimit
    && OnGrid(sl.start, current, c)
  }

  lemma GridStep(t: int, origin: int, c: ServiceConfig)
    requires c.granularityMinutes > 0 && OnGrid(t, origin + c.granularityMinutes * MS_PER_MINUTE, c)
    ensures OnGrid(t, origin, c)
  {
    var g := c.granularityMinutes * MS_PER_MINUTE;
    var k: nat :| t == origin + g + k * g;
    assert t == origin + (k + 1) * g;
  }

  ghost predicate AllOfferable(sl: seq<TimeSlot>, current: int, endLimit: int, c: ServiceConfig, now: int)
  {
    forall i :: 0 <= i < |sl| ==> Offerable(sl[i], current, endLimit, c, now)
  }

  predicate Increasing(sl: seq<TimeSlot>)
  {
    forall i, j :: 0 <= i < j < |sl| ==> sl[i].start < sl[j].start
  }

  /** Every slot the loop yields is offerable, and the starts strictly increase. */
  lemma {:induction false} SlotsFromSound(current: int, endLimit: int, c: ServiceConfig, now: int)
    requires c.granularityMinutes > 0
    ensures AllOfferable(SlotsFrom(current, endLimit, c, now), current, endLimit, c, now)
    ensures Increasing(SlotsFrom(current, endLimit, c, now))
    decreases endLimit - current - TotalMinutes(c) * MS_PER_MINUTE
  {
    var g := c.granularityMinutes * MS_PER_MINUTE;
    if current + TotalMinutes(c) * MS_PER_MINUTE <= endLimit {
      var next := current + g;
      SlotsFromSound(next, endLimit, c, now);
      var rest := SlotsFrom(next, endLimit, c, now);
      assert AllOfferable(rest, next, endLimit, c, now);
      forall i | 0 <= i < |rest| ensures Offerable(rest[i], current, endLimit, c, now) {
        GridStep(rest[i].start, current, c);
      }
      assert OnGrid(current, current, c) by {
        assert current == current + 0 * g;
      }
    }
  }

  /** Every grid start that is not in the past and fits is offered. */
  lemma {:induction false} SlotsFromComplete(current: int, endLimit: int, c: ServiceConfig, now: int, k: nat)
    requires c.granularityMinutes > 0
    requires var t := current + k * (c.granularityMinutes * MS_PER_MINUTE);
      now <= t && t + TotalMinutes(c) * MS_PER_MINUTE <= endLimit
    ensures var t := current + k * (c.granularityMinutes * MS_PER_MINUTE);
      TimeSlot(t, t + c.durationMinutes * MS_PER_MINUTE, AVAILABLE) in SlotsFrom(current, endLimit, c, now)
    decreases k
  {
    var g := c.granularityMinutes * MS_PER_MINUTE;
    assert current + TotalMinutes(c) * MS_PER_MINUTE <= endLimit by {
      assert current <= current + k * g;
    }
    if k > 0 {
      assert current + k * g == (current + g) + (k - 1) * g;
      SlotsFromComplete(current + g, endLimit, c, now, k - 1);
    }
  }

  /** The slot comes from one of the ranges and is offerable there. */
  ghost predicate OfferedBy(sl: TimeSlot, rs: seq<Range>, c: ServiceConfig, now: int)
  {
    exists j :: 0 <= j < |rs| && Offerable(sl, rs[j].start, rs[j].end, c, now)
  }

  ghost predicate AllOfferedBy(sl: seq<TimeSlot>, rs: seq<Range>, c: ServiceConfig, now: int)
  {
    forall i :: 0 <= i < |sl| ==> OfferedBy(sl[i], rs, c, now)
  }

  /** Each slot over a list of ranges comes from one of them and is offerable there. */
  lemma {:induction false} AllSlotsSound(rs: seq<Range>, c: ServiceConfig, now: int)
    requires c.granularityMinutes > 0
    ensures AllOfferedBy(AllSlots(rs, c, now), rs, c, now)
    decreases |rs|
  {
    if rs != [] {
      var init, last := rs[..|rs| - 1], rs[|rs| - 1];
      AllSlotsSound(init, c, now);
      SlotsFromSound(last.start, last.end, c, now);
      var a, b := AllSlots(init, c, now), SlotsIn(last, c, now);
      assert AllSlots(rs, c, now) == a + b;
      assert AllOfferedBy(a, init, c, now);
      assert AllOfferable(b, last.start, last.end, c, now);
      forall i | 0 <= i < |a + b| ensures OfferedBy((a + b)[i], rs, c, now) {
        if i < |a| {
          assert OfferedBy(a[i], init, c, now);
          var j :| 0 <= j < |init| && Offerable(a[i], init[j].start, init[j].end, c, now);
          assert rs[j] == init[j];
          assert (a + b)[i] == a[i];
        } else {
          assert (a + b)[i] == b[i - |a|];
          assert Offerable(b[i - |a|], last.start, last.end, c, now);
          assert rs[|rs| - 1] == last;
        }
      }
    }
  }

  /** Every offerable grid start of every range appears among the slots. */
  lemma {:induction false} AllSlotsComplete(rs: seq<Range>, c: ServiceConfig, now: int, j: int, k: nat)
    requires c.granularityMinutes > 0 && 0 <= j < |rs|
    requires var t := rs[j].start + k * (c.granularityMinutes * MS_PER_MINUTE);
      now <= t && t + TotalMinutes(c) * MS_PER_MINUTE <= rs[j].end
    ensures var t := rs[j].start + k * (c.granularityMinutes * MS_PER_MINUTE);
      TimeSlot(t, t + c.durationMinutes * MS_PER_MINUTE, AVAILABLE) in AllSlots(rs, c, now)
    decreases |rs|
  {
    var init := rs[..|rs| - 1];
    if j == |rs| - 1 {
      SlotsFromComplete(rs[j].start, rs[j].end, c, now, k);
    } else {
      assert rs[j] == init[j];
      AllSlotsComplete(init, c, now, j, k);
    }
  }

  // --------------------------------------------------------------- pipeline

  /** The stages after loading, over a given list of days: hours, breaks, busy time. */
  function NetRanges(days: seq<int>, s: ScheduleConfig, offset: int, qs: int, qe: int, busy: seq<Range>): Result<seq<Range>, Error>
  {
    match AfterBreaks(EffectiveRanges(days, qs, qe, s, offset), s.globalBreaks, offset)
    case Err(e) => Err(e)
    case Ok(open) => Ok(SubtractBusy(open, busy))
  }

  function SlotsOverDays(days: seq<int>, s: ScheduleConfig, offset: int, qs: int, qe: int,
                         c: ServiceConfig, busy: seq<Range>, now: int): Result<seq<TimeSlot>, Error>
    requires c.granularityMinutes > 0
  {
    match NetRanges(days, s, offset, qs, qe, busy)
    case Err(e) => Err(e)
    case Ok(net) => Ok(AllSlots(net, c, now))
  }

  /** Some listed day start falls, in the zone, on day `d`. */
  predicate DayListed(days: seq<int>, offset: int, d: int)
  {
    exists k :: 0 <= k < |days| && LocalDay(days[k], offset) == d
  }

  lemma DayListedSnoc(init: seq<int>, last: int, offset: int, d: int)
    ensures DayListed(init + [last], offset, d) <==> DayListed(init, offset, d) || LocalDay(last, offset) == d
  {
    var days := init + [last];
    if DayListed(init, offset, d) {
      var k :| 0 <= k < |init| && LocalDay(init[k], offset) == d;
      assert days[k] == init[k];
    }
    if LocalDay(last, offset) == d {
      assert days[|init|] == last;
    }
    if DayListed(days, offset, d) {
      var k :| 0 <= k < |days| && LocalDay(days[k], offset) == d;
      if k < |init| {
        assert days[k] == init[k];
      }
    }
  }

  /**
   * The days the service walks, as written: the window's days in the
   * server's own zone (`eachDayOfInterval`), each then read as a date in
   * the resource's zone.
   */
  function ServerDays(qs: int, qe: int, serverOffset: int): seq<int>
  {
    DayStarts(qs, qe, serverOffset)
  }

  /** The days the service should walk: the window's days in the resource's zone. */
  function ZoneDays(qs: int, qe: int, offset: int): (days: seq<int>)
    ensures forall t :: qs <= t <= qe ==> DayListed(days, offset, LocalDay(t, offset))
    ensures forall k :: 0 <= k < |days| ==> LocalDay(days[k], offset) == LocalDay(qs, offset) + k
  {
    var days := DayStarts(qs, qe, offset);
    forall t | qs <= t <= qe ensures DayListed(days, offset, LocalDay(t, offset)) {
      LocalDayMonotone(qs, t, offset);
      LocalDayMonotone(t, qe, offset);
      var k := LocalDay(t, offset) - LocalDay(qs, offset);
      assert LocalDay(days[k], offset) == LocalDay(t, offset);
    }
    days
  }

  /** A day's opening interval holds `t` exactly when `t` falls on that day and the zone is open then. */
  lemma OpenOnDay(s: ScheduleConfig, day: int, offset: int, t: int)
    ensures (OpenInterval(s, day, offset).Some? && OpenInterval(s, day, offset).value.Contains(t))
            <==> LocalDay(t, offset) == day && OpenAt(s, offset, t)
  {
    var o := OpenInterval(s, day, offset);
    if o.Some? && o.value.Contains(t) {
      DayBoundedInstant(o.value, offset, t);
    }
  }

  /** The effective ranges cover exactly the opening hours inside the window, on the days walked. */
  lemma {:induction false} EffectiveCovers(days: seq<int>, qs: int, qe: int, s: ScheduleConfig, offset: int, t: int)
    ensures Covered(EffectiveRanges(days, qs, qe, s, offset), t) <==>
      qs <= t < qe && OpenAt(s, offset, t) && DayListed(days, offset, LocalDay(t, offset))
    decreases |days|
  {
    if days != [] {
      var init, last := days[..|days| - 1], days[|days| - 1];
      assert days == init + [last];
      EffectiveCovers(init, qs, qe, s, offset, t);
      var dr := DayRange(s, last, qs, qe, offset);
      CoveredConcat(EffectiveRanges(init, qs, qe, s, offset), OptionToSeq(dr), t);
      if dr.Some? {
        CoveredOne(dr.value);
      }
      OpenOnDay(s, LocalDay(last, offset), offset, t);
      DayListedSnoc(init, last, offset, LocalDay(t, offset));
    }
  }

  /** With the zone's own days, the effective ranges are the window intersected with the opening hours. */
  lemma ZoneDaysCover(qs: int, qe: int, s: ScheduleConfig, offset: int, t: int)
    ensures Covered(EffectiveRanges(ZoneDays(qs, qe, offset), qs, qe, s, offset), t) <==> qs <= t < qe && OpenAt(s, offset, t)
  {
    EffectiveCovers(ZoneDays(qs, qe, offset), qs, qe, s, offset, t);
  }

  /** Walking the zone's own days, the effective ranges are in time order and pairwise disjoint. */
  lemma ZoneRangesOrdered(qs: int, qe: int, s: ScheduleConfig, offset: int)
    ensures InTimeOrder(EffectiveRanges(ZoneDays(qs, qe, offset), qs, qe, s, offset))
  {
    EffectiveRangesOrdered(ZoneDays(qs, qe, offset), qs, qe, s, offset);
  }

  /** Instant `t` may be booked: inside the window, in opening hours, outside every break and every busy range. */
  predicate Free(s: ScheduleConfig, offset: int, qs: int, qe: int, busy: seq<Range>, t: int)
  {
    && qs <= t < qe
    && OpenAt(s, offset, t)
    && (forall j :: 0 <= j < |s.globalBreaks| ==> !BreakBlocks(s.globalBreaks[j], offset, t))
    && (forall j :: 0 <= j < |busy| ==> !busy[j].Contains(t))
  }

  /** The net ranges of the zone's days cover exactly the free instants. */
  lemma NetRangesCover(qs: int, qe: int, s: ScheduleConfig, offset: int, busy: seq<Range>, t: int)
    requires NetRanges(ZoneDays(qs, qe, offset), s, offset, qs, qe, busy).Ok?
    ensures Covered(NetRanges(ZoneDays(qs, qe, offset), s, offset, qs, qe, busy).value, t) <==> Free(s, offset, qs, qe, busy, t)
  {
    var eff := EffectiveRanges(ZoneDays(qs, qe, offset), qs, qe, s, offset);
    AfterBreaksCovers(eff, s.globalBreaks, offset);
    SubtractBusyCovers(AfterBreaks(eff, s.globalBreaks, offset).value, busy);
    ZoneDaysCover(qs, qe, s, offset, t);
    UnbrokenIff(s.globalBreaks, offset, t);
    IdleIff(busy, t);
  }

  /** A slot whose whole span, buffer included, is free. */
  ghost predicate SlotFree(sl: TimeSlot, c: ServiceConfig, s: ScheduleConfig, offset: int, qs: int, qe: int, busy: seq<Range>)
  {
    forall t :: sl.start <= t < sl.start + TotalMinutes(c) * MS_PER_MINUTE ==> Free(s, offset, qs, qe, busy, t)
  }

  /**
   * What `getSlots` promises: every slot is AVAILABLE, as long as the
   * service, not in the past, and its whole span with the buffer is free.
   */
  lemma SlotsAreFree(qs: int, qe: int, c: ServiceConfig, s: ScheduleConfig, offset: int, busy: seq<Range>, now: int)
    requires c.granularityMinutes > 0
    requires NetRanges(ZoneDays(qs, qe, offset), s, offset, qs, qe, busy).Ok?
    ensures var sl := SlotsOverDays(ZoneDays(qs, qe, offset), s, offset, qs, qe, c, busy, now).value;
      forall i :: 0 <= i < |sl| ==>
        && sl[i].status == AVAILABLE && now <= sl[i].start
        && sl[i].end == sl[i].start + c.durationMinutes * MS_PER_MINUTE
        && SlotFree(sl[i], c, s, offset, qs, qe, busy)
  {
    var net := NetRanges(ZoneDays(qs, qe, offset), s, offset, qs, qe, busy).value;
    AllSlotsSound(net, c, now);
    var sl := AllSlots(net, c, now);
    assert AllOfferedBy(sl, net, c, now);
    forall i | 0 <= i < |sl| ensures SlotFree(sl[i], c, s, offset, qs, qe, busy) {
      assert OfferedBy(sl[i], net, c, now);
      var j :| 0 <= j < |net| && Offerable(sl[i], net[j].start, net[j].end, c, now);
      forall t | sl[i].start <= t < sl[i].start + TotalMinutes(c) * MS_PER_MINUTE
        ensures Free(s, offset, qs, qe, busy, t)
      {
        assert net[j].Contains(t);
        NetRangesCover(qs, qe, s, offset, busy, t);
      }
    }
  }

  /** Conversely, every grid start of a net range that is not in the past and fits is offered. */
  lemma SlotsAreComplete(qs: int, qe: int, c: ServiceConfig, s: ScheduleConfig, offset: int, busy: seq<Range>, now: int,
                         j: int, k: nat)
    requires c.granularityMinutes > 0
    requires NetRanges(ZoneDays(qs, qe, offset), s, offset, qs, qe, busy).Ok?
    requires var net := NetRanges(ZoneDays(qs, qe, offset), s, offset, qs, qe, busy).value;
      0 <= j < |net|
      && now <= net[j].start + k * (c.granularityMinutes * MS_PER_MINUTE)
      && net[j].start + k * (c.granularityMinutes * MS_PER_MINUTE) + TotalMinutes(c) * MS_PER_MINUTE <= net[j].end
    ensures var net := NetRanges(ZoneDays(qs, qe, offset), s, offset, qs, qe, busy).value;
      var t := net[j].start + k * (c.granularityMinutes * MS_PER_MINUTE);
      TimeSlot(t, t + c.durationMinutes * MS_PER_MINUTE, AVAILABLE)
        in SlotsOverDays(ZoneDays(qs, qe, offset), s, offset, qs, qe, c, busy, now).value
  {
    AllSlotsComplete(NetRanges(ZoneDays(qs, qe, offset), s, offset, qs, qe, busy).value, c, now, j, k);
  }

  /** `schedule.timezone || 'UTC'`. */
  function ZoneName(s: ScheduleConfig): string
  {
    if s.timezone == "" then "UTC" else s.timezone
  }

  /**
   * `getSlots` as written: the schedule document is read through
   * `getPolicyParams` and the days walked are the server's.  The only
   * failures left are an inverted window and a break that ends before it
   * starts; the production guard never fires.
   */
  function AvailabilityAsWritten(qs: int, qe: int, c: ServiceConfig, appConfig: Json, production: bool,
                                 busy: seq<Range>, zoneOffset: string -> int, now: int, serverOffset: int)
    : (r: Result<seq<TimeSlot>, Error>)
    requires c.granularityMinutes > 0
    ensures qe <= qs ==> r == Err(InvalidTimeRange(END_AFTER_START))
    ensures r.Err? ==> r.error == InvalidTimeRange(END_AFTER_START)
  {
    if qe <= qs then Err(InvalidTimeRange(END_AFTER_START))
    else
      ProductionGuardUnreachable(appConfig);
      match LoadSchedule(ScheduleDocumentAsWritten(appConfig), production)
      case Err(e) => Err(e)
      case Ok(s) =>
        var offset := zoneOffset(ZoneName(s));
        SlotsOverDays(ServerDays(qs, qe, serverOffset), s, offset, qs, qe, c, busy, now)
  }

  /**
   * `getSlots`.  An empty or inverted window is refused by the busy-range
   * fetch; then the schedule is loaded and the stages run in order.
   */
  function Availability(qs: int, qe: int, c: ServiceConfig, appConfig: Json, production: bool,
                        busy: seq<Range>, zoneOffset: string -> int, now: int): (r: Result<seq<TimeSlot>, Error>)
    requires c.granularityMinutes > 0
    ensures qe <= qs ==> r == Err(InvalidTimeRange(END_AFTER_START))
    ensures r.Err? ==> r.error == InvalidTimeRange(END_AFTER_START) || r.error == PlainError(CRITICAL)
  {
    if qe <= qs then Err(InvalidTimeRange(END_AFTER_START))
    else
      match LoadSchedule(ScheduleDocument(appConfig), production)
      case Err(e) => Err(e)
      case Ok(s) =>
        var offset := zoneOffset(ZoneName(s));
        SlotsOverDays(ZoneDays(qs, qe, offset), s, offset, qs, qe, c, busy, now)
  }

  /**
   * What `getSlots` returns, read through the schedule it loads: every slot
   * is available, not in the past, of the service's duration, and free with
   * its buffer in the resource's zone.
   */
  lemma AvailabilityIsFree(qs: int, qe: int, c: ServiceConfig, appConfig: Json, production: bool,
                           busy: seq<Range>, zoneOffset: string -> int, now: int)
    requires c.granularityMinutes > 0
    requires Availability(qs, qe, c, appConfig, production, busy, zoneOffset, now).Ok?
    ensures var s := LoadSchedule(ScheduleDocument(appConfig), production).value;
      var offset := zoneOffset(ZoneName(s));
      var sl := Availability(qs, qe, c, appConfig, production, busy, zoneOffset, now).value;
      forall i :: 0 <= i < |sl| ==>
        && sl[i].status == AVAILABLE && now <= sl[i].start
        && sl[i].end == sl[i].start + c.durationMinutes * MS_PER_MINUTE
        && SlotFree(sl[i], c, s, offset, qs, qe, busy)
  {
    var s := LoadSchedule(ScheduleDocument(appConfig), production).value;
    SlotsAreFree(qs, qe, c, s, zoneOffset(ZoneName(s)), busy, now);
  }

  /** Every fitting, not-past grid start of a free range is among the slots `getSlots` returns. */
  lemma AvailabilityIsComplete(qs: int, qe: int, c: ServiceConfig, appConfig: Json, production: bool,
                               busy: seq<Range>, zoneOffset: string -> int, now: int,
                               s: ScheduleConfig, net: seq<Range>, j: int, k: nat)
    requires c.granularityMinutes > 0 && qs < qe
    requires LoadSchedule(ScheduleDocument(appConfig), production) == Ok(s)
    requires NetRanges(ZoneDays(qs, qe, zoneOffset(ZoneName(s))), s, zoneOffset(ZoneName(s)), qs, qe, busy) == Ok(net)
    requires 0 <= j < |net|
    requires now <= net[j].start + k * (c.granularityMinutes * MS_PER_MINUTE)
    requires net[j].start + k * (c.granularityMinutes * MS_PER_MINUTE) + TotalMinutes(c) * MS_PER_MINUTE <= net[j].end
    ensures var t := net[j].start + k * (c.granularityMinutes * MS_PER_MINUTE);
      Availability(qs, qe, c, appConfig, production, busy, zoneOffset, now).Ok? &&
      TimeSlot(t, t + c.durationMinutes * MS_PER_MINUTE, AVAILABLE)
        in Availability(qs, qe, c, appConfig, production, busy, zoneOffset, now).value
  {
    var offset := zoneOffset(ZoneName(s));
    AvailabilityStages(qs, qe, c, appConfig, production, busy, zoneOffset, now, s);
    AllSlotsComplete(net, c, now, j, k);
    assert SlotsOverDays(ZoneDays(qs, qe, offset), s, offset, qs, qe, c, busy, now) == Ok(AllSlots(net, c, now));
  }

  lemma AvailabilityStages(qs: int, qe: int, c: ServiceConfig, appConfig: Json, production: bool,
                           busy: seq<Range>, zoneOffset: string -> int, now: int, s: ScheduleConfig)
    requires c.granularityMinutes > 0 && qs < qe
    requires LoadSchedule(ScheduleDocument(appConfig), production) == Ok(s)
    ensures Availability(qs, qe, c, appConfig, production, busy, zoneOffset, now)
         == SlotsOverDays(ZoneDays(qs, qe, zoneOffset(ZoneName(s))), s, zoneOffset(ZoneName(s)), qs, qe, c, busy, now)
  {
  }

  // ---------------------------------------------------------------- methods

  /** The first half of a pass of the day loop: the day's hours, exception first, parsed in the zone. */
  method OpeningHours(day: int, s: ScheduleConfig, offset: int) returns (open: Option<Range>)
    ensures open == OpenInterval(s, day, offset)
  {
    var ex := FindException(s.exceptions, FormatYMD(day));
    if ex.Some? && (ex.value.kind == "CLOSED" || ex.value.kind == "BLACKOUT") {
      assert DayHours(s, day).None?;
      return None;
    }
    var startStr, endStr;
    if ex.Some? && ex.value.kind == "MODIFIED" && ex.value.start != "" && ex.value.end != "" {
      startStr, endStr := ex.value.start, ex.value.end;
    } else {
      var shift := FindShift(s.weeklyShifts, Weekday(day));
      if shift.None? {
        assert DayHours(s, day).None?;
        return None;
      }
      startStr, endStr := shift.value.start, shift.value.end;
    }
    assert DayHours(s, day) == Some((startStr, endStr));
    var shiftStart := ParseTimeInZone(day, startStr, offset);
    var shiftEnd := ParseTimeInZone(day, endStr, offset);
    if shiftStart.Some? && shiftEnd.Some? && shiftStart.value < shiftEnd.value {
      var r: Range := TimeRange(shiftStart.value, shiftEnd.value);
      open := Some(r);
    } else {
      open := None;
    }
  }

  /** One pass of the day loop of `generateEffectiveRanges`: the day's hours clipped to the window. */
  method DayEffectiveRange(qs: int, qe: int, dayStart: int, s: ScheduleConfig, offset: int) returns (r: Option<Range>)
    ensures r == DayRange(s, dayStart, qs, qe, offset)
  {
    var open := OpeningHours(LocalDay(dayStart, offset), s, offset);
    r := None;
    if open.Some? && open.value.start < qe && open.value.end > qs {
      var clippedStart := if open.value.start < qs then qs else open.value.start;
      var clippedEnd := if open.value.end > qe then qe else open.value.end;
      if clippedStart < clippedEnd {
        r := Some(TimeRange(clippedStart, clippedEnd));
      }
    }
  }

  /** The day loop of `generateEffectiveRanges`. */
  method GenerateEffectiveRanges(qs: int, qe: int, days: seq<int>, s: ScheduleConfig, offset: int)
    returns (ranges: seq<Range>)
    ensures ranges == EffectiveRanges(days, qs, qe, s, offset)
  {
    ranges := [];
    for i := 0 to |days|
      invariant ranges == EffectiveRanges(days[..i], qs, qe, s, offset)
    {
      assert days[..i + 1][..i] == days[..i];
      var r := DayEffectiveRange(qs, qe, days[i], s, offset);
      if r.Some? {
        ranges := ranges + [r.value];
      }
    }
    assert days[..|days|] == days;
  }

  lemma {:induction false} BreakPassFailsOnward(rs: seq<Range>, brk: GlobalBreak, offset: int, i: int)
    requires 0 < i <= |rs| && BreakPass(rs[..i], brk, offset).Err?
    ensures BreakPass(rs, brk, offset).Err?
    decreases |rs| - i
  {
    if i < |rs| {
      assert rs[..i + 1][..i] == rs[..i];
      BreakPassFailsOnward(rs, brk, offset, i + 1);
    } else {
      assert rs[..i] == rs;
    }
  }

  lemma {:induction false} AfterBreaksFailsOnward(rs: seq<Range>, breaks: seq<GlobalBreak>, offset: int, b: int)
    requires 0 < b <= |breaks| && AfterBreaks(rs, breaks[..b], offset).Err?
    ensures AfterBreaks(rs, breaks, offset).Err?
    decreases |breaks| - b
  {
    if b < |breaks| {
      assert breaks[..b + 1][..b] == breaks[..b];
      AfterBreaksFailsOnward(rs, breaks, offset, b + 1);
    } else {
      assert breaks[..b] == breaks;
    }
  }

  /** One range of a break pass: kept when the break does not apply or does not parse, split otherwise. */
  method RemoveBreak(range: Range, brk: GlobalBreak, offset: int) returns (res: Result<seq<Range>, Error>)
    ensures res == RangeMinusBreak(range, brk, offset)
  {
    var day := LocalDay(range.start, offset);
    if !AppliesTo(brk.days, Weekday(day)) {
      return Ok([range]);
    }
    var breakStart := ParseTimeInZone(day, brk.start, offset);
    var breakEnd := ParseTimeInZone(day, brk.end, offset);
    if breakStart.None? || breakEnd.None? {
      return Ok([range]);
    }
    var breakRange := FromDates(breakStart.value, breakEnd.value);
    if breakRange.Err? {
      return Err(breakRange.error);
    }
    return Ok(DiffRange(range, breakRange.value));
  }

  /** The inner loop of `subtractBreaks`: one break over every current range. */
  method SubtractBreak(current: seq<Range>, brk: GlobalBreak, offset: int) returns (res: Result<seq<Range>, Error>)
    ensures res == BreakPass(current, brk, offset)
  {
    var newRanges := [];
    for i := 0 to |current|
      invariant BreakPass(current[..i], brk, offset) == Ok(newRanges)
    {
      assert current[..i + 1][..i] == current[..i];
      var pieces := RemoveBreak(current[i], brk, offset);
      if pieces.Err? {
        BreakPassFailsOnward(current, brk, offset, i + 1);
        return Err(pieces.error);
      }
      newRanges := newRanges + pieces.value;
    }
    assert current[..|current|] == current;
    return Ok(newRanges);
  }

  /** `subtractBreaks`: for each break, every current range is kept or split; a break ending before it starts fails. */
  method SubtractBreaks(ranges: seq<Range>, s: ScheduleConfig, offset: int) returns (r: Result<seq<Range>, Error>)
    ensures r == AfterBreaks(ranges, s.globalBreaks, offset)
  {
    var breaks := s.globalBreaks;
    var current := ranges;
    for b := 0 to |breaks|
      invariant AfterBreaks(ranges, breaks[..b], offset) == Ok(current)
    {
      assert breaks[..b + 1][..b] == breaks[..b];
      var next := SubtractBreak(current, breaks[b], offset);
      if next.Err? {
        AfterBreaksFailsOnward(ranges, breaks, offset, b + 1);
        return Err(next.error);
      }
      current := next.value;
    }
    assert breaks[..|breaks|] == breaks;
    return Ok(current);
  }

  /** `subtractBusyRanges`. */
  method SubtractBusyRanges(available: seq<Range>, busy: seq<Range>) returns (current: seq<Range>)
    ensures current == SubtractBusy(available, busy)
  {
    current := available;
    for b := 0 to |busy|
      invariant current == SubtractBusy(available, busy[..b])
    {
      assert busy[..b + 1][..b] == busy[..b];
      var newRanges := [];
      for i := 0 to |current|
        invariant newRanges == DiffAll(current[..i], busy[b])
      {
        assert current[..i + 1][..i] == current[..i];
        newRanges := newRanges + DiffRange(current[i], busy[b]);
      }
      assert current[..|current|] == current;
      current := newRanges;
    }
    assert busy[..|busy|] == busy;
  }

  /** `generateSlotsFromRanges`; the clock reading is the parameter `now`. */
  method GenerateSlotsFromRanges(ranges: seq<Range>, c: ServiceConfig, now: int) returns (slots: seq<TimeSlot>)
    requires c.granularityMinutes > 0
    ensures slots == AllSlots(ranges, c, now)
  {
    slots := [];
    var totalDuration := TotalMinutes(c);
    for i := 0 to |ranges|
      invariant slots == AllSlots(ranges[..i], c, now)
    {
      assert ranges[..i + 1][..i] == ranges[..i];
      var current := ranges[i].start;
      var endLimit := ranges[i].end;
      while current + totalDuration * MS_PER_MINUTE <= endLimit
        invariant slots + SlotsFrom(current, endLimit, c, now) == AllSlots(ranges[..i + 1], c, now)
        decreases endLimit - current - totalDuration * MS_PER_MINUTE
      {
        if current < now {
          current := current + c.granularityMinutes * MS_PER_MINUTE;
          continue;
        }
        slots := slots + [TimeSlot(current, current + c.durationMinutes * MS_PER_MINUTE, AVAILABLE)];
        current := current + c.granularityMinutes * MS_PER_MINUTE;
      }
    }
    assert ranges[..|ranges|] == ranges;
  }

  /** `getSlots`, stage by stage. */
  method GetSlots(qs: int, qe: int, c: ServiceConfig, appConfig: Json, production: bool,
                  busy: seq<Range>, zoneOffset: string -> int, now: int) returns (r: Result<seq<TimeSlot>, Error>)
    requires c.granularityMinutes > 0
    ensures r == Availability(qs, qe, c, appConfig, production, busy, zoneOffset, now)
  {
    var window := FromDates(qs, qe);
    if window.Err? {
      return Err(window.error);
    }
    var schedule := LoadSchedule(ScheduleDocument(appConfig), production);
    if schedule.Err? {
      return Err(schedule.error);
    }
    var s := schedule.value;
    var timeZone := if s.timezone == "" then "UTC" else s.timezone;
    var offset := zoneOffset(timeZone);
    var effective := GenerateEffectiveRanges(qs, qe, ZoneDays(qs, qe, offset), s, offset);
    var afterBreaks := SubtractBreaks(effective, s, offset);
    if afterBreaks.Err? {
      return Err(afterBreaks.error);
    }
    var net := SubtractBusyRanges(afterBreaks.value, busy);
    var slots := GenerateSlotsFromRanges(net, c, now);
    return Ok(slots);
  }
}
