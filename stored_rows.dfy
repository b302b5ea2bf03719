// What the store hands back: a stored row travels to the client with its
// interval as Postgres range text and is turned into a Booking by the mapper.
module StoredRows {
  import opened Wrappers
  import opened Json
  import opened TimeRanges
  import opened BookingStatuses
  import opened BookingActors
  import opened TimeSlotRequests
  import opened Bookings
  import opened BookingMapper
  import opened BookingRepository

  /** A stored row as the database client returns it; `render` is the database's timestamp text. */
  function Wire(s: Stored, render: int -> string): (row: Row)
    ensures row.id == s.id && row.status == s.status && row.holdExpiresAt == s.holdExpiresAt
    ensures row.period == RangeText(s.period, render)
  {
    Row(s.id, s.resourceId, RangeText(s.period, render), s.status, s.holdExpiresAt, s.bookedBy,
        s.serviceRef, s.metadata, s.createdAt, s.updatedAt)
  }

  /**
   * The row a hold inserts maps back to a HELD booking of the request's
   * interval, the given actor and expiry, and the request type in its
   * metadata, provided the bound texts are read back as the bounds.
   */
  lemma NewHoldMapsBack(id: string, request: TimeSlotRequest, actor: Actor, holdExpiresAt: int, now: int,
                        render: int -> string, parse: string -> Option<int>)
    requires BareBound(render(request.timeRange.start)) && BareBound(render(request.timeRange.end))
    requires parse(render(request.timeRange.start)) == Some(request.timeRange.start)
    requires parse(render(request.timeRange.end)) == Some(request.timeRange.end)
    requires actor.kind != "" && actor.id != "" && Truthy(actor.details)
    ensures ToDomain(Wire(NewHold(id, request, actor, holdExpiresAt, now), render), parse)
         == Ok(BookingData(id, request.resourceId, request.timeRange, HELD, Some(holdExpiresAt), actor, None,
                           map["request_type" := JStr(KindName(request.kind))], now, now))
  {
    RangeTextRoundTrip(request.timeRange, render, parse);
    JsonRoundTrip(actor);
  }
}
