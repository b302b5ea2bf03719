// An incoming request for a time slot, as built from a client payload.
module TimeSlotRequests {
  import opened Wrappers
  import opened Errors
  import opened Json
  import opened TimeRanges

  datatype RequestType = CUSTOMER_BOOKING | ADMIN_BLOCK

  datatype Props = Props(resourceId: string, start: string, end: string, kind: RequestType,
                         metadata: Option<map<string, Json>>)

  datatype TimeSlotRequest = TimeSlotRequest(resourceId: string, timeRange: Range, kind: RequestType,
                                             metadata: Option<map<string, Json>>)

  /** The constructor: copies the fields and validates the interval through `fromISO`. */
  function New(p: Props, parse: string -> Option<int>): (r: Result<TimeSlotRequest, Error>)
    ensures r.Ok? <==> FromISO(p.start, p.end, parse).Ok?
    ensures r.Err? ==> r.error == FromISO(p.start, p.end, parse).error
    ensures r.Ok? ==>
              && r.value.resourceId == p.resourceId && r.value.kind == p.kind
              && r.value.metadata == p.metadata
              && r.value.timeRange.start == parse(p.start).value
              && r.value.timeRange.end == parse(p.end).value
  {
    match FromISO(p.start, p.end, parse)
    case Err(e) => Err(e)
    case Ok(tr) => Ok(TimeSlotRequest(p.resourceId, tr, p.kind, p.metadata))
  }
}
