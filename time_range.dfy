// The half-open time interval [start, end) of the domain, over instants
// counted in milliseconds since the epoch.
module TimeRanges {
  import opened Wrappers
  import opened Errors

  datatype TimeRange = TimeRange(start: int, end: int)
  {
    predicate Contains(t: int)
    {
      start <= t < end
    }

    /** The source's overlap test on half-open intervals. */
    predicate Overlaps(other: TimeRange)
    {
      start < other.end && end > other.start
    }

    /** This interval lies inside `outer`. */
    predicate Within(outer: TimeRange)
    {
      outer.start <= start && end <= outer.end
    }
  }

  /** A TimeRange object can only exist with its end strictly after its start. */
  type Range = r: TimeRange | r.start < r.end witness TimeRange(0, 1)

  const MS_PER_MINUTE := 60000

  const END_AFTER_START := "End time must be strictly greater than start time"
  const BAD_ISO := "Invalid ISO date string"

  /** `TimeRange.fromDates`: the constructor's check is the only way to fail. */
  function FromDates(start: int, end: int): (r: Result<Range, Error>)
    ensures r.Ok? <==> start < end
    ensures r.Ok? ==> r.value.start == start && r.value.end == end
    ensures r.Err? ==> r.error == InvalidTimeRange(END_AFTER_START)
  {
    if end <= start then Err(InvalidTimeRange(END_AFTER_START))
    else var r: Range := TimeRange(start, end); Ok(r)
  }

  /**
   * `TimeRange.fromISO`.  `parse` is the runtime's date parser (None for an
   * Invalid Date); an unparseable bound is reported before the ordering.
   */
  function FromISO(startIso: string, endIso: string, parse: string -> Option<int>): (r: Result<Range, Error>)
    ensures (parse(startIso).None? || parse(endIso).None?) ==> r == Err(InvalidTimeRange(BAD_ISO))
    ensures r.Ok? <==> parse(startIso).Some? && parse(endIso).Some? && parse(startIso).value < parse(endIso).value
    ensures r.Ok? ==> r.value == TimeRange(parse(startIso).value, parse(endIso).value)
  {
    var s := parse(startIso);
    var e := parse(endIso);
    if s.None? || e.None? then Err(InvalidTimeRange(BAD_ISO)) else FromDates(s.value, e.value)
  }

  /** `durationMinutes`: a real quotient, always positive for a Range. */
  function DurationMinutes(r: Range): (m: real)
    ensures m > 0.0
    ensures m * (MS_PER_MINUTE as real) == (r.end - r.start) as real
  {
    (r.end - r.start) as real / (MS_PER_MINUTE as real)
  }

  /** `toString`: `[start, end)` with both bounds in ISO form (`iso` is the formatter). */
  function ToText(r: Range, iso: int -> string): (s: string)
    ensures |s| == |iso(r.start)| + |iso(r.end)| + 4
    ensures s[0] == '[' && s[|s| - 1] == ')'
    ensures s[1..1 + |iso(r.start)|] == iso(r.start)
    ensures s[1 + |iso(r.start)|..3 + |iso(r.start)|] == ", "
    ensures s[3 + |iso(r.start)|..|s| - 1] == iso(r.end)
  {
    "[" + iso(r.start) + ", " + iso(r.end) + ")"
  }

  /** Two non-empty intervals overlap exactly when some instant lies in both. */
  lemma OverlapsIffSharedInstant(a: Range, b: Range)
    ensures a.Overlaps(b) <==> exists t :: a.Contains(t) && b.Contains(t)
  {
    if a.Overlaps(b) {
      var t := if a.start < b.start then b.start else a.start;
      assert a.Contains(t) && b.Contains(t);
    }
  }

  /** Overlap does not depend on the order of the operands, every range overlaps itself, and touching ranges do not overlap. */
  lemma OverlapsBasics(a: Range, b: Range)
    ensures a.Overlaps(b) == b.Overlaps(a)
    ensures a.Overlaps(a)
    ensures a.end == b.start ==> !a.Overlaps(b)
  {
  }

  /** An interval inside `outer` that overlaps `b` makes `outer` overlap `b`. */
  lemma WithinOverlaps(r: Range, outer: Range, b: TimeRange)
    requires r.Within(outer) && r.Overlaps(b)
    ensures outer.Overlaps(b)
  {
  }
}
