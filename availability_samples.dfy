// Worked cases of the availability engine for a resource open Monday to
// Friday 09:00-18:00 with a 13:00-14:00 lunch break, in a zone five hours
// behind UTC (America/Panama), offering a one-hour service on an hourly
// grid, with the clock reading before every window.  Instants are
// milliseconds since the epoch; day 19891 is Monday 2024-06-17.
module AvailabilitySamples {
  import opened Wrappers
  import opened TimeRanges
  import opened ZonedTime
  import opened TimeSlots
  import opened SmartAvailability

  const PANAMA := -300
  const HOUR := 3600000
  const DAY := 86400000
  const NAMED_WORKDAYS: seq<DaySpec> := [DayName("MON"), DayName("TUE"), DayName("WED"), DayName("THU"), DayName("FRI")]
  const LUNCH_BREAK := GlobalBreak("Lunch", "13:00", "14:00", NAMED_WORKDAYS)
  const PANAMA_SCHEDULE := ScheduleConfig(
    "America/Panama", [WeeklyShift(NAMED_WORKDAYS, "09:00", "18:00")], [LUNCH_BREAK], [])
  const ONE_HOUR := ServiceConfig(60, 60, Some(0))

  /** 2024-06-17T00:00:00.000Z and 2024-06-17T23:59:59.999Z. */
  const WINDOW_START := 1718582400000
  const WINDOW_END := 1718668799999
  /** 09:00, 13:00, 14:00 and 18:00 in the zone on that Monday. */
  const OPEN := WINDOW_START + 14 * HOUR
  const LUNCH := WINDOW_START + 18 * HOUR
  const AFTER_LUNCH := WINDOW_START + 19 * HOUR
  const CLOSE := WINDOW_START + 23 * HOUR
  const MONDAY: Range := TimeRange(OPEN, CLOSE)
  const MORNING: Range := TimeRange(OPEN, LUNCH)
  const AFTERNOON: Range := TimeRange(AFTER_LUNCH, CLOSE)

  lemma SampleClocks()
    ensures ParseClock("09:00") == Some(540) && ParseClock("18:00") == Some(1080)
    ensures ParseClock("13:00") == Some(780) && ParseClock("14:00") == Some(840)
  {
  }

  lemma SampleWeekdays()
    ensures LocalDay(WINDOW_START, 0) == 19891 && LocalDay(WINDOW_END, 0) == 19891
    ensures LocalDay(WINDOW_START, PANAMA) == 19890 && LocalDay(WINDOW_END, PANAMA) == 19891
    ensures Weekday(19888) == 5 && Weekday(19889) == 6 && Weekday(19890) == 0 && Weekday(19891) == 1
  {
  }

  lemma NamedWorkdays()
    ensures forall i :: 0 <= i < |NAMED_WORKDAYS| ==> MapDay(NAMED_WORKDAYS[i]) == i + 1
  {
    WorkdayNames();
  }

  lemma NoWeekendShift(weekday: int)
    requires weekday == 0 || weekday == 6
    ensures FindShift(PANAMA_SCHEDULE.weeklyShifts, weekday).None?
  {
    NamedWorkdays();
    assert !AppliesTo(NAMED_WORKDAYS, weekday);
  }

  lemma SampleWeekendHours(day: int)
    requires Weekday(day) == 0 || Weekday(day) == 6
    ensures DayHours(PANAMA_SCHEDULE, day).None?
  {
    NoWeekendShift(Weekday(day));
  }

  lemma SampleWeekdayHours(day: int)
    requires day == 19888 || day == 19891
    ensures DayHours(PANAMA_SCHEDULE, day) == Some(("09:00", "18:00"))
  {
    NamedWorkdays();
    assert AppliesTo(NAMED_WORKDAYS, Weekday(day)) by {
      assert MapDay(NAMED_WORKDAYS[Weekday(day) - 1]) == Weekday(day);
    }
  }

  /** Sunday is not a working day; Monday opens 09:00-18:00 zone time. */
  lemma SampleOpening()
    ensures OpenInterval(PANAMA_SCHEDULE, 19890, PANAMA).None?
    ensures OpenInterval(PANAMA_SCHEDULE, 19891, PANAMA) == Some(MONDAY)
  {
    SampleClocks();
    SampleWeekdays();
    SampleWeekendHours(19890);
    SampleWeekdayHours(19891);
  }

  lemma SampleLunch()
    ensures RangeMinusBreak(MONDAY, LUNCH_BREAK, PANAMA) == Ok([MORNING, AFTERNOON])
  {
    SampleClocks();
    SampleWeekdays();
    NamedWorkdays();
    assert LocalDay(OPEN, PANAMA) == 19891;
    assert AppliesTo(LUNCH_BREAK.days, Weekday(19891)) by {
      assert MapDay(NAMED_WORKDAYS[0]) == 1;
    }
    assert ParseTimeInZone(19891, LUNCH_BREAK.start, PANAMA) == Some(LUNCH);
    assert ParseTimeInZone(19891, LUNCH_BREAK.end, PANAMA) == Some(AFTER_LUNCH);
    var b: Range := TimeRange(LUNCH, AFTER_LUNCH);
    assert FromDates(LUNCH, AFTER_LUNCH) == Ok(b);
    assert DiffRange(MONDAY, b) == [MORNING, AFTERNOON];
  }

  /** An hour holds one slot. */
  lemma SampleOneHour(start: int)
    requires 0 <= start
    ensures SlotsFrom(start, start + HOUR, ONE_HOUR, 0) == [TimeSlot(start, start + HOUR, AVAILABLE)]
  {
    assert SlotsFrom(start + HOUR, start + HOUR, ONE_HOUR, 0) == [];
  }

  /** Four consecutive hours hold four one-hour slots. */
  lemma SampleFourHours(start: int)
    requires 0 <= start
    ensures SlotsFrom(start, start + 4 * HOUR, ONE_HOUR, 0) ==
      [TimeSlot(start, start + HOUR, AVAILABLE), TimeSlot(start + HOUR, start + 2 * HOUR, AVAILABLE),
       TimeSlot(start + 2 * HOUR, start + 3 * HOUR, AVAILABLE), TimeSlot(start + 3 * HOUR, start + 4 * HOUR, AVAILABLE)]
  {
    var e := start + 4 * HOUR;
    assert SlotsFrom(start + 4 * HOUR, e, ONE_HOUR, 0) == [];
    assert SlotsFrom(start + 3 * HOUR, e, ONE_HOUR, 0) == [TimeSlot(start + 3 * HOUR, start + 4 * HOUR, AVAILABLE)];
    assert SlotsFrom(start + 2 * HOUR, e, ONE_HOUR, 0)[0] == TimeSlot(start + 2 * HOUR, start + 3 * HOUR, AVAILABLE);
  }

  lemma SampleDayRanges(sunday: int, monday: int)
    requires LocalDay(sunday, PANAMA) == 19890 && LocalDay(monday, PANAMA) == 19891
    ensures DayRange(PANAMA_SCHEDULE, sunday, WINDOW_START, WINDOW_END, PANAMA).None?
    ensures DayRange(PANAMA_SCHEDULE, monday, WINDOW_START, WINDOW_END, PANAMA) == Some(MONDAY)
  {
    SampleOpening();
  }

  lemma SampleTwoDays(days: seq<int>)
    requires |days| == 2 && LocalDay(days[0], PANAMA) == 19890 && LocalDay(days[1], PANAMA) == 19891
    ensures EffectiveRanges(days, WINDOW_START, WINDOW_END, PANAMA_SCHEDULE, PANAMA) == [MONDAY]
  {
    SampleDayRanges(days[0], days[1]);
    assert days[..1][..0] == [];
    assert EffectiveRanges(days[..1], WINDOW_START, WINDOW_END, PANAMA_SCHEDULE, PANAMA) == [];
  }

  /** Walking the zone's days, the window holds the end of Sunday and all of Monday; only Monday is open. */
  lemma SampleZoneRanges()
    ensures EffectiveRanges(ZoneDays(WINDOW_START, WINDOW_END, PANAMA), WINDOW_START, WINDOW_END, PANAMA_SCHEDULE, PANAMA)
            == [MONDAY]
  {
    SampleWeekdays();
    var days := ZoneDays(WINDOW_START, WINDOW_END, PANAMA);
    assert |days| == 2 && LocalDay(days[0], PANAMA) == 19890 && LocalDay(days[1], PANAMA) == 19891;
    SampleTwoDays(days);
  }

  lemma SampleMondayBreaks()
    ensures AfterBreaks([MONDAY], PANAMA_SCHEDULE.globalBreaks, PANAMA) == Ok([MORNING, AFTERNOON])
  {
    SampleLunch();
    assert [LUNCH_BREAK][..0] == [];
    assert [MONDAY][..0] == [];
    assert BreakPass([], LUNCH_BREAK, PANAMA) == Ok([]);
    var parts: seq<Range> := [MORNING, AFTERNOON];
    assert [] + parts == parts;
    assert BreakPass([MONDAY], LUNCH_BREAK, PANAMA) == Ok(parts);
  }

  lemma SampleTwoRangeSlots(x: Range, y: Range)
    requires ONE_HOUR.granularityMinutes > 0
    ensures AllSlots([x, y], ONE_HOUR, 0) == SlotsIn(x, ONE_HOUR, 0) + SlotsIn(y, ONE_HOUR, 0)
  {
    assert [x, y][..1] == [x];
    assert [x][..0] == [];
    assert AllSlots([x], ONE_HOUR, 0) == SlotsIn(x, ONE_HOUR, 0);
  }

  /** Hours less breaks: Monday morning and Monday afternoon. */
  lemma SampleZoneNet(busy: seq<Range>)
    ensures NetRanges(ZoneDays(WINDOW_START, WINDOW_END, PANAMA), PANAMA_SCHEDULE, PANAMA, WINDOW_START, WINDOW_END, busy)
            == Ok(SubtractBusy([MORNING, AFTERNOON], busy))
  {
    SampleZoneRanges();
    SampleMondayBreaks();
  }

  lemma SampleZoneSlots(busy: seq<Range>)
    ensures SlotsOverDays(ZoneDays(WINDOW_START, WINDOW_END, PANAMA), PANAMA_SCHEDULE, PANAMA,
                          WINDOW_START, WINDOW_END, ONE_HOUR, busy, 0)
            == Ok(AllSlots(SubtractBusy([MORNING, AFTERNOON], busy), ONE_HOUR, 0))
  {
    SampleZoneNet(busy);
  }

  lemma SampleMondayList()
    ensures var r := AllSlots([MORNING, AFTERNOON], ONE_HOUR, 0);
      && |r| == 8
      && r[0] == TimeSlot(OPEN, OPEN + HOUR, AVAILABLE)
      && r[4] == TimeSlot(AFTER_LUNCH, AFTER_LUNCH + HOUR, AVAILABLE)
      && forall i :: 0 <= i < |r| ==> r[i].start != LUNCH
  {
    SampleTwoRangeSlots(MORNING, AFTERNOON);
    SampleFourHours(OPEN);
    SampleFourHours(AFTER_LUNCH);
  }

  /**
   * The zone's Monday, as the service's test expects it: eight slots, the
   * first at 14:00 UTC, none at 18:00 UTC (lunch) and one at 19:00 UTC.
   */
  lemma SampleZoneWalk()
    ensures var r := SlotsOverDays(ZoneDays(WINDOW_START, WINDOW_END, PANAMA), PANAMA_SCHEDULE, PANAMA,
                                   WINDOW_START, WINDOW_END, ONE_HOUR, [], 0);
      && r.Ok? && |r.value| == 8
      && r.value[0] == TimeSlot(OPEN, OPEN + HOUR, AVAILABLE)
      && r.value[4] == TimeSlot(AFTER_LUNCH, AFTER_LUNCH + HOUR, AVAILABLE)
      && forall i :: 0 <= i < |r.value| ==> r.value[i].start != LUNCH
  {
    SampleZoneSlots([]);
    assert SubtractBusy([MORNING, AFTERNOON], []) == [MORNING, AFTERNOON];
    SampleMondayList();
  }

  lemma SampleBusyNet(busy: Range)
    requires busy == TimeRange(OPEN + HOUR, OPEN + 2 * HOUR)
    ensures SubtractBusy([MORNING, AFTERNOON], [busy])
            == [TimeRange(OPEN, OPEN + HOUR), TimeRange(OPEN + 2 * HOUR, LUNCH), AFTERNOON]
  {
    var first: Range := TimeRange(OPEN, OPEN + HOUR);
    var rest: Range := TimeRange(OPEN + 2 * HOUR, LUNCH);
    assert DiffRange(MORNING, busy) == [first, rest];
    assert DiffRange(AFTERNOON, busy) == [AFTERNOON];
    assert [MORNING, AFTERNOON][..1] == [MORNING];
    assert [MORNING][..0] == [];
    assert DiffAll([MORNING], busy) == [first, rest];
    assert DiffAll([MORNING, AFTERNOON], busy) == [first, rest, AFTERNOON];
    assert [busy][..0] == [];
  }

  lemma SampleThreeRangeSlots(x: Range, y: Range, z: Range)
    ensures AllSlots([x, y, z], ONE_HOUR, 0) == SlotsIn(x, ONE_HOUR, 0) + SlotsIn(y, ONE_HOUR, 0) + SlotsIn(z, ONE_HOUR, 0)
  {
    assert [x, y, z][..2] == [x, y];
    SampleTwoRangeSlots(x, y);
  }

  lemma SampleThreeHours(start: int)
    requires 0 <= start
    ensures |SlotsFrom(start, start + 3 * HOUR, ONE_HOUR, 0)| == 3
    ensures forall i :: 0 <= i < 3 ==> SlotsFrom(start, start + 3 * HOUR, ONE_HOUR, 0)[i].start == start + i * HOUR
  {
    var e := start + 3 * HOUR;
    assert SlotsFrom(start + 3 * HOUR, e, ONE_HOUR, 0) == [];
    assert SlotsFrom(start + 2 * HOUR, e, ONE_HOUR, 0) == [TimeSlot(start + 2 * HOUR, start + 3 * HOUR, AVAILABLE)];
  }

  lemma SampleBusyList()
    ensures var r := AllSlots([TimeRange(OPEN, OPEN + HOUR), TimeRange(OPEN + 2 * HOUR, LUNCH), AFTERNOON], ONE_HOUR, 0);
      && |r| == 7
      && forall i :: 0 <= i < |r| ==> r[i].start != OPEN + HOUR
  {
    var first: Range := TimeRange(OPEN, OPEN + HOUR);
    var rest: Range := TimeRange(OPEN + 2 * HOUR, LUNCH);
    SampleThreeRangeSlots(first, rest, AFTERNOON);
    SampleOneHour(OPEN);
    SampleThreeHours(OPEN + HOUR);
    SampleFourHours(AFTER_LUNCH);
    var y := SlotsIn(rest, ONE_HOUR, 0);
    assert LUNCH == OPEN + HOUR + 3 * HOUR;
    assert forall i :: 0 <= i < |y| ==> y[i].start >= OPEN + 2 * HOUR;
  }

  /** A booking from 15:00 to 16:00 UTC takes one slot away: seven remain, none at 15:00 UTC. */
  lemma SampleBusyHour()
    ensures var r := SlotsOverDays(ZoneDays(WINDOW_START, WINDOW_END, PANAMA), PANAMA_SCHEDULE, PANAMA,
                                   WINDOW_START, WINDOW_END, ONE_HOUR, [TimeRange(OPEN + HOUR, OPEN + 2 * HOUR)], 0);
      && r.Ok? && |r.value| == 7
      && forall i :: 0 <= i < |r.value| ==> r.value[i].start != OPEN + HOUR
  {
    var busy: Range := TimeRange(OPEN + HOUR, OPEN + 2 * HOUR);
    SampleZoneSlots([busy]);
    SampleBusyNet(busy);
    SampleBusyList();
  }

  /** Saturday 2024-06-15: the window's zone days are the end of Friday, past closing time, and Saturday. */
  lemma SampleSaturday()
    ensures SlotsOverDays(ZoneDays(WINDOW_START - 2 * DAY, WINDOW_END - 2 * DAY, PANAMA), PANAMA_SCHEDULE, PANAMA,
                          WINDOW_START - 2 * DAY, WINDOW_END - 2 * DAY, ONE_HOUR, [], 0) == Ok([])
  {
    var qs, qe := WINDOW_START - 2 * DAY, WINDOW_END - 2 * DAY;
    SampleSaturdayRanges(qs, qe);
    assert [LUNCH_BREAK][..0] == [];
    assert AfterBreaks([], PANAMA_SCHEDULE.globalBreaks, PANAMA) == Ok([]);
  }

  lemma SampleSaturdayRanges(qs: int, qe: int)
    requires qs == WINDOW_START - 2 * DAY && qe == WINDOW_END - 2 * DAY
    ensures EffectiveRanges(ZoneDays(qs, qe, PANAMA), qs, qe, PANAMA_SCHEDULE, PANAMA) == []
  {
    assert LocalDay(qs, PANAMA) == 19888 && LocalDay(qe, PANAMA) == 19889;
    var days := ZoneDays(qs, qe, PANAMA);
    assert |days| == 2 && LocalDay(days[0], PANAMA) == 19888 && LocalDay(days[1], PANAMA) == 19889;
    SampleFridayEvening(days[0], qs, qe);
    SampleSaturdayClosed(days[1], qs, qe);
    assert days[..1][..0] == [];
    assert EffectiveRanges(days[..1], qs, qe, PANAMA_SCHEDULE, PANAMA) == [];
  }

  lemma SampleFridayEvening(friday: int, qs: int, qe: int)
    requires LocalDay(friday, PANAMA) == 19888 && qs == WINDOW_START - 2 * DAY
    ensures DayRange(PANAMA_SCHEDULE, friday, qs, qe, PANAMA).None?
  {
    SampleClocks();
    SampleWeekdays();
    SampleWeekdayHours(19888);
    var o := OpenInterval(PANAMA_SCHEDULE, 19888, PANAMA);
    assert o.Some? && o.value.end == qs - HOUR;
  }

  lemma SampleSaturdayClosed(saturday: int, qs: int, qe: int)
    requires LocalDay(saturday, PANAMA) == 19889
    ensures DayRange(PANAMA_SCHEDULE, saturday, qs, qe, PANAMA).None?
  {
    SampleWeekdays();
    SampleWeekendHours(19889);
  }

  /** A CLOSED exception for 2024-06-17 empties that Monday. */
  lemma SampleClosedMonday()
    ensures var closed := PANAMA_SCHEDULE.(exceptions := [ScheduleException("2024-06-17", "CLOSED", "", "")]);
      SlotsOverDays(ZoneDays(WINDOW_START, WINDOW_END, PANAMA), closed, PANAMA,
                    WINDOW_START, WINDOW_END, ONE_HOUR, [], 0) == Ok([])
  {
    var closed := PANAMA_SCHEDULE.(exceptions := [ScheduleException("2024-06-17", "CLOSED", "", "")]);
    SampleWeekdays();
    var days := ZoneDays(WINDOW_START, WINDOW_END, PANAMA);
    assert |days| == 2 && LocalDay(days[0], PANAMA) == 19890 && LocalDay(days[1], PANAMA) == 19891;
    ClosedDays(closed, days[0], days[1]);
    assert days[..1][..0] == [];
    assert EffectiveRanges(days[..1], WINDOW_START, WINDOW_END, closed, PANAMA) == [];
    assert EffectiveRanges(days, WINDOW_START, WINDOW_END, closed, PANAMA) == [];
    assert [LUNCH_BREAK][..0] == [];
    assert AfterBreaks([], closed.globalBreaks, PANAMA) == Ok([]);
  }

  lemma ClosedDays(closed: ScheduleConfig, sunday: int, monday: int)
    requires closed == PANAMA_SCHEDULE.(exceptions := [ScheduleException("2024-06-17", "CLOSED", "", "")])
    requires LocalDay(sunday, PANAMA) == 19890 && LocalDay(monday, PANAMA) == 19891
    ensures DayRange(closed, sunday, WINDOW_START, WINDOW_END, PANAMA).None?
    ensures DayRange(closed, monday, WINDOW_START, WINDOW_END, PANAMA).None?
  {
    FormatSample();
    SampleWeekdays();
    NoWeekendShift(0);
    assert DayHours(closed, 19891).None?;
    assert DayHours(closed, 19890).None?;
  }

  lemma SampleServerDays()
    ensures ServerDays(WINDOW_START, WINDOW_END, 0) == [WINDOW_START]
  {
    SampleWeekdays();
    var days := ServerDays(WINDOW_START, WINDOW_END, 0);
    assert |days| == 1;
    assert days[0] == DayStart(19891, 0);
  }

  /**
   * The walk as written, on a server running on UTC: the window's only
   * server day starts at Sunday 19:00 zone time, so the resource's Monday
   * is never looked at and nothing is offered.
   */
  lemma SampleServerWalk()
    ensures SlotsOverDays(ServerDays(WINDOW_START, WINDOW_END, 0), PANAMA_SCHEDULE, PANAMA,
                          WINDOW_START, WINDOW_END, ONE_HOUR, [], 0) == Ok([])
  {
    SampleServerDays();
    SampleWeekdays();
    SampleOpening();
    assert [WINDOW_START][..0] == [];
    assert EffectiveRanges([WINDOW_START], WINDOW_START, WINDOW_END, PANAMA_SCHEDULE, PANAMA) == [];
    assert [LUNCH_BREAK][..0] == [];
    assert AfterBreaks([], PANAMA_SCHEDULE.globalBreaks, PANAMA) == Ok([]);
  }
}
