// Calendar arithmetic the availability engine gets from its date library:
// the zone-local day of an instant, its weekday, the instant a zone's clock
// shows a given time on a given day, "HH:mm" clock strings and the
// 'yyyy-MM-dd' rendering of a day.  A zone is a fixed offset from UTC in
// minutes (positive east of Greenwich); days are counted from 1970-01-01.
module ZonedTime {
  import opened Wrappers
  import opened Text
  import opened TimeRanges

  const MINUTES_PER_DAY := 1440
  const MS_PER_DAY := 86400000

  /** The calendar day on which instant `t` falls in a zone `offset` minutes from UTC. */
  function LocalDay(t: int, offset: int): int
  {
    (t + offset * MS_PER_MINUTE) / MS_PER_DAY
  }

  /** `parseInt(format(.., 'i')) % 7`: 0 is Sunday, 6 is Saturday (1970-01-01 was a Thursday). */
  function Weekday(day: int): (w: int)
    ensures 0 <= w < 7
  {
    (day + 4) % 7
  }

  /** `fromZonedTime`: the instant at which the zone's clock shows `minute` past midnight of `day`. */
  function ZonedInstant(day: int, minute: int, offset: int): int
  {
    day * MS_PER_DAY + (minute - offset) * MS_PER_MINUTE
  }

  /** The instant the zone's `day` begins. */
  function DayStart(day: int, offset: int): int
  {
    ZonedInstant(day, 0, offset)
  }

  /** An instant lies on `day` exactly when it lies between that day's midnight and the next one. */
  lemma LocalDayIff(t: int, day: int, offset: int)
    ensures LocalDay(t, offset) == day <==> DayStart(day, offset) <= t < DayStart(day + 1, offset)
  {
    var u := t + offset * MS_PER_MINUTE;
    assert DayStart(day, offset) <= t < DayStart(day + 1, offset) <==> day * MS_PER_DAY <= u < day * MS_PER_DAY + MS_PER_DAY;
    if day * MS_PER_DAY <= u < day * MS_PER_DAY + MS_PER_DAY {
      DivBetween(u, day);
    }
  }

  lemma DivBetween(u: int, day: int)
    requires day * MS_PER_DAY <= u < day * MS_PER_DAY + MS_PER_DAY
    ensures u / MS_PER_DAY == day
  {
    var q, r := u / MS_PER_DAY, u % MS_PER_DAY;
    assert u == q * MS_PER_DAY + r && 0 <= r < MS_PER_DAY;
  }

  /** A time of day inside the day maps back to that day. */
  lemma LocalDayOfZonedInstant(day: int, minute: int, offset: int)
    requires 0 <= minute < MINUTES_PER_DAY
    ensures LocalDay(ZonedInstant(day, minute, offset), offset) == day
  {
    LocalDayIff(ZonedInstant(day, minute, offset), day, offset);
  }

  /** Later instants never fall on earlier days. */
  lemma LocalDayMonotone(t1: int, t2: int, offset: int)
    requires t1 <= t2
    ensures LocalDay(t1, offset) <= LocalDay(t2, offset)
  {
    var d1, d2 := LocalDay(t1, offset), LocalDay(t2, offset);
    LocalDayIff(t1, d1, offset);
    LocalDayIff(t2, d2, offset);
  }

  function DigitValue(c: char): int
  {
    c as int - '0' as int
  }

  predicate IsDigit(c: char)
  {
    '0' <= c <= '9'
  }

  /**
   * "HH:mm" on the 24-hour clock, as minutes past midnight.  Anything else
   * is unparseable (the library then yields an Invalid Date).
   */
  function ParseClock(s: string): (m: Option<int>)
    ensures m.Some? ==> 0 <= m.value < MINUTES_PER_DAY
  {
    if |s| == 5 && s[2] == ':' && IsDigit(s[0]) && IsDigit(s[1]) && IsDigit(s[3]) && IsDigit(s[4]) then
      var h := 10 * DigitValue(s[0]) + DigitValue(s[1]);
      var mm := 10 * DigitValue(s[3]) + DigitValue(s[4]);
      if h < 24 && mm < 60 then Some(60 * h + mm) else None
    else None
  }

  /** The canonical "HH:mm" text of a time of day. */
  function FormatClock(m: int): (s: string)
    requires 0 <= m < MINUTES_PER_DAY
    ensures |s| == 5
  {
    var h, mm := m / 60, m % 60;
    [DigitChar(h / 10), DigitChar(h % 10), ':', DigitChar(mm / 10), DigitChar(mm % 10)]
  }

  /** Every time of day is read back from its canonical text, and that text is the only one read as it. */
  lemma ClockRoundTrip(m: int, s: string)
    requires 0 <= m < MINUTES_PER_DAY
    ensures ParseClock(FormatClock(m)) == Some(m)
    ensures ParseClock(s) == Some(m) ==> s == FormatClock(m)
  {
    var f := FormatClock(m);
    var h, mm := m / 60, m % 60;
    assert DigitValue(f[0]) == h / 10 && DigitValue(f[1]) == h % 10;
    assert DigitValue(f[3]) == mm / 10 && DigitValue(f[4]) == mm % 10;
    if ParseClock(s) == Some(m) {
      var h', mm' := 10 * DigitValue(s[0]) + DigitValue(s[1]), 10 * DigitValue(s[3]) + DigitValue(s[4]);
      assert 60 * h' + mm' == m;
      assert h' == h && mm' == mm;
      assert DigitValue(s[0]) == h / 10 && DigitValue(s[1]) == h % 10;
      assert DigitValue(s[3]) == mm / 10 && DigitValue(s[4]) == mm % 10;
      assert s[0] == f[0] && s[1] == f[1] && s[3] == f[3] && s[4] == f[4];
    }
  }

  /** `fromZonedTime('<day> <HH:mm>')`; None stands for the Invalid Date of an unparseable time. */
  function ParseTimeInZone(day: int, hhmm: string, offset: int): (t: Option<int>)
    ensures t.Some? ==> LocalDay(t.value, offset) == day
    ensures t.Some? <==> ParseClock(hhmm).Some?
  {
    match ParseClock(hhmm)
    case None => None
    case Some(m) => LocalDayOfZonedInstant(day, m, offset); Some(ZonedInstant(day, m, offset))
  }

  /** Year, month and day of a day number (proleptic Gregorian calendar). */
  function CivilFromDays(z0: int): (int, int, int)
  {
    var z := z0 + 719468;
    var era := z / 146097;
    var doe := z - era * 146097;
    var yoe := (doe - doe / 1460 + doe / 36524 - doe / 146096) / 365;
    var doy := doe - (365 * yoe + yoe / 4 - yoe / 100);
    var mp := (5 * doy + 2) / 153;
    var d := doy - (153 * mp + 2) / 5 + 1;
    var m := if mp < 10 then mp + 3 else mp - 9;
    (yoe + era * 400 + (if m <= 2 then 1 else 0), m, d)
  }

  /** Left-pads with zeros to `width` characters. */
  function Pad(s: string, width: nat): (r: string)
    ensures |r| >= width && |r| >= |s|
    decreases width - |s|
  {
    if |s| >= width then s else Pad("0" + s, width)
  }

  /** Padding puts exactly the missing number of zeros in front of the text. */
  lemma {:induction false} PadZeros(s: string, width: nat)
    ensures Pad(s, width) == seq(if width > |s| then width - |s| else 0, _ => '0') + s
    decreases width - |s|
  {
    if |s| >= width {
      assert seq(0, _ => '0') + s == s;
    } else {
      var n := width - |s|;
      PadZeros("0" + s, width);
      assert seq(n - 1, _ => '0') + ("0" + s) == seq(n, _ => '0') + s;
    }
  }

  /** 'yyyy-MM-dd' of a day number. */
  function FormatYMD(day: int): string
  {
    var (y, m, d) := CivilFromDays(day);
    (if y < 0 then "-" + Pad(NatToString(-y), 4) else Pad(NatToString(y), 4))
      + "-" + Pad(IntToString(m), 2) + "-" + Pad(IntToString(d), 2)
  }

  /** The days the window [start, end] touches in a zone, each given by the instant it begins. */
  function DayStarts(start: int, end: int, offset: int): (days: seq<int>)
    ensures forall k :: 0 <= k < |days| ==> LocalDay(days[k], offset) == LocalDay(start, offset) + k
    ensures forall k :: 0 <= k < |days| ==> days[k] == DayStart(LocalDay(start, offset) + k, offset)
    ensures |days| == if LocalDay(end, offset) < LocalDay(start, offset) then 0
                      else LocalDay(end, offset) - LocalDay(start, offset) + 1
  {
    var first, last := LocalDay(start, offset), LocalDay(end, offset);
    if last < first then []
    else
      var days := seq(last - first + 1, k => DayStart(first + k, offset));
      assert forall k :: 0 <= k < |days| ==> LocalDay(days[k], offset) == first + k by {
        forall k | 0 <= k < |days| ensures LocalDay(days[k], offset) == first + k {
          assert days[k] == DayStart(first + k, offset);
          LocalDayOfZonedInstant(first + k, 0, offset);
        }
      }
      days
  }

  /** 2024-06-17, a Monday, begins at 1718582400000 ms in UTC. */
  lemma CalendarSample()
    ensures CivilFromDays(19891) == (2024, 6, 17)
    ensures Weekday(19891) == 1
    ensures DayStart(19891, 0) == 1718582400000
  {
    var z := 19891 + 719468;
    assert z / 146097 == 5;
    var doe := z - 5 * 146097;
    assert doe == 8874;
    assert (doe - doe / 1460 + doe / 36524 - doe / 146096) / 365 == 24;
    assert doe - (365 * 24 + 24 / 4 - 24 / 100) == 108;
    assert (5 * 108 + 2) / 153 == 3;
    assert 108 - (153 * 3 + 2) / 5 + 1 == 17;
  }

  lemma FormatSample()
    ensures FormatYMD(19891) == "2024-06-17"
  {
    CalendarSample();
    assert NatToString(2024) == "2024" by {
      assert NatToString(2) == "2";
      assert NatToString(20) == "20";
      assert NatToString(202) == "202";
    }
    assert Pad("6", 2) == "06";
    assert Pad(NatToString(17), 2) == "17";
  }
}
