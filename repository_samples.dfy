// The reservation store on the scenarios of its integration tests: one
// resource, hour-long requests, holds expiring a minute after `now`.
module RepositorySamples {
  import opened Wrappers
  import opened Errors
  import opened Json
  import opened TimeRanges
  import opened BookingStatuses
  import opened BookingActors
  import opened TimeSlotRequests
  import opened BookingRepository

  const HOUR := 3600000
  const RESOURCE := "resource-1"
  const RESOURCES: set<string> := {RESOURCE}
  const RUNNER := Actor(SYSTEM, "test-runner", EmptyObject)

  function HourRequest(start: int, end: int): TimeSlotRequest
    requires start < end
  {
    var period: Range := TimeRange(start, end);
    TimeSlotRequest(RESOURCE, period, CUSTOMER_BOOKING, None)
  }

  /** The table after a first hold on [start, end). */
  function FirstHold(start: int, end: int, now: int): (t: Table)
    requires start < end
    ensures TableInvariant(t, RESOURCES) && t.Keys == {"b1"} && t["b1"].status == HELD
    ensures t["b1"].period == TimeRange(start, end) && t["b1"].holdExpiresAt == Some(now + 60000)
  {
    var r := CreateHoldResult(map[], RESOURCES, "b1", HourRequest(start, end), RUNNER, now + 60000, now);
    assert ActiveIds(map[], RESOURCE, TimeRange(start, end), now) == {};
    CreateHoldKeepsInvariant(map[], RESOURCES, "b1", HourRequest(start, end), RUNNER, now + 60000, now);
    r.value
  }

  /** The same slot twice: the second hold is an overlap and only the first is held. */
  lemma SameSlotTwice(start: int, now: int)
    ensures var t := FirstHold(start, start + HOUR, now);
      var second := CreateHoldResult(t, RESOURCES, "b2", HourRequest(start, start + HOUR), RUNNER, now + 60000, now);
      && second == Err(Overlap(Some("Slot overlap detected for resource " + RESOURCE)))
      && (set k | k in t && t[k].resourceId == RESOURCE && t[k].status == HELD) == {"b1"}
  {
    var t := FirstHold(start, start + HOUR, now);
    assert "b1" in ActiveIds(t, RESOURCE, TimeRange(start, start + HOUR), now);
  }

  /** A confirmed booking blocks a hold that overlaps half of it. */
  lemma ConfirmedBlocks(start: int, now: int)
    ensures var t := FirstHold(start, start + HOUR, now);
      var c := ConfirmRows(t, "b1", now);
      && c.Ok?
      && CreateHoldResult(c.value, RESOURCES, "b2", HourRequest(start + HOUR / 2, start + 3 * HOUR / 2), RUNNER, now + 60000, now).Err?
  {
    var t := FirstHold(start, start + HOUR, now);
    var c := ConfirmRows(t, "b1", now);
    ConfirmKeepsInvariant(t, RESOURCES, "b1", now);
    assert "b1" in ActiveIds(c.value, RESOURCE, TimeRange(start + HOUR / 2, start + 3 * HOUR / 2), now);
  }

  /** Touching slots [s, s+1h) and [s+1h, s+2h) do not conflict. */
  lemma ContiguousHolds(start: int, now: int)
    ensures var t := FirstHold(start, start + HOUR, now);
      CreateHoldResult(t, RESOURCES, "b2", HourRequest(start + HOUR, start + 2 * HOUR), RUNNER, now + 60000, now).Ok?
  {
    var t := FirstHold(start, start + HOUR, now);
    assert ActiveIds(t, RESOURCE, TimeRange(start + HOUR, start + 2 * HOUR), now) == {};
  }

  /** A hold that expired ten seconds ago does not block its slot, and the new hold cancels it. */
  lemma ExpiredHoldHeals(start: int, now: int)
    ensures var stale: Range := TimeRange(start, start + HOUR);
      var t := map["old" := Stored("old", RESOURCE, stale, HELD, Some(now - 10000), ToJson(RUNNER), None, None, now - 20000, now - 20000)];
      var r := CreateHoldResult(t, RESOURCES, "new", HourRequest(start, start + HOUR), RUNNER, now + 60000, now);
      r.Ok? && r.value["old"].status == CANCELLED && r.value["new"].status == HELD
  {
    var stale: Range := TimeRange(start, start + HOUR);
    var t := map["old" := Stored("old", RESOURCE, stale, HELD, Some(now - 10000), ToJson(RUNNER), None, None, now - 20000, now - 20000)];
    assert TableInvariant(t, RESOURCES);
    assert ActiveIds(t, RESOURCE, stale, now) == {};
  }
}
