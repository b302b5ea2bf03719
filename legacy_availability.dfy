// The first availability service: hourly slots from 09:00 to 18:00 of the
// server's day, each marked by asking the reservation store whether the hour
// is taken at the instant `now`.
module LegacyAvailability {
  import opened TimeRanges
  import opened ZonedTime
  import opened TimeSlots
  import opened BookingRepository

  const HOUR_MS := 60 * MS_PER_MINUTE
  const OPENING_HOUR := 9
  const CLOSING_HOUR := 18

  /**
   * `getSlots(resourceId, date)`: the day is the server's (`startOfDay` in a
   * zone `serverOffset` minutes from UTC).  Nine back-to-back hours, in
   * order, each UNAVAILABLE exactly when the store reports a conflict on the
   * resource for it.
   */
  method GetSlots(repo: BookingTable, resourceId: string, date: int, serverOffset: int, now: int)
    returns (slots: seq<TimeSlot>)
    ensures |slots| == CLOSING_HOUR - OPENING_HOUR
    ensures forall k :: 0 <= k < |slots| ==>
      slots[k].start == DayStart(LocalDay(date, serverOffset), serverOffset) + (OPENING_HOUR + k) * HOUR_MS
    ensures forall k :: 0 <= k < |slots| ==> slots[k].end == slots[k].start + HOUR_MS
    ensures forall k :: 0 <= k < |slots| ==>
      (slots[k].status == UNAVAILABLE <==> repo.HasConflicts(resourceId, TimeRange(slots[k].start, slots[k].end), now))
    ensures forall k :: 0 <= k < |slots| - 1 ==> slots[k].end == slots[k + 1].start
    ensures forall i, j :: 0 <= i < j < |slots| ==> slots[i].start < slots[j].start
  {
    var dayStart := DayStart(LocalDay(date, serverOffset), serverOffset);
    slots := [];
    var current := dayStart + OPENING_HOUR * HOUR_MS;
    var endOfDay := dayStart + CLOSING_HOUR * HOUR_MS;
    while current < endOfDay
      invariant current == dayStart + (OPENING_HOUR + |slots|) * HOUR_MS
      invariant |slots| <= CLOSING_HOUR - OPENING_HOUR
      invariant forall k :: 0 <= k < |slots| ==> slots[k].start == dayStart + (OPENING_HOUR + k) * HOUR_MS
      invariant forall k :: 0 <= k < |slots| ==> slots[k].end == slots[k].start + HOUR_MS
      invariant forall k :: 0 <= k < |slots| ==>
        (slots[k].status == UNAVAILABLE <==> repo.HasConflicts(resourceId, TimeRange(slots[k].start, slots[k].end), now))
      decreases endOfDay - current
    {
      var end := current + HOUR_MS;
      var range: Range := TimeRange(current, end);
      var hasConflict := repo.HasConflicts(resourceId, range, now);
      slots := slots + [TimeSlot(current, end, if hasConflict then UNAVAILABLE else AVAILABLE)];
      current := end;
    }
  }
}
