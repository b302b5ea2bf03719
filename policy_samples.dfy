// The time rules on the two calendars of their unit tests: evaluation at
// 2024-01-01T10:00Z of one-hour requests starting later that day or the next.
module PolicySamples {
  import opened Wrappers
  import opened Json
  import opened TimeRanges
  import opened BookingActors
  import opened TimeSlotRequests
  import opened PolicyTypes
  import LeadTime
  import MaxAdvance

  const MINUTE := MS_PER_MINUTE
  const JAN_1_10AM := 1704103200000

  const CUSTOMER_U1 := Actor(CUSTOMER, "u1", EmptyObject)

  /** A hold request for the hour starting `minutes` after 10:00. */
  function HoldIn(minutes: nat): PolicyContext
  {
    var start := JAN_1_10AM + minutes * MINUTE;
    var hour: Range := TimeRange(start, start + 60 * MINUTE);
    PolicyContext(CREATE_HOLD, CUSTOMER_U1, JAN_1_10AM, Some(TimeSlotRequest("r1", hour, CUSTOMER_BOOKING, None)))
  }

  /** With a 60-minute minimum: two hours ahead and exactly one hour ahead pass, half an hour is too soon. */
  lemma LeadTimeSamples()
    ensures LeadTime.Evaluate(LeadTime.LeadTimePolicy(60), HoldIn(120)).status == ALLOW
    ensures LeadTime.Evaluate(LeadTime.LeadTimePolicy(60), HoldIn(60)).status == ALLOW
    ensures var r := LeadTime.Evaluate(LeadTime.LeadTimePolicy(60), HoldIn(30));
      r.status == DENY && r.reasonCode == Some(LeadTime.TOO_SOON)
      && r.actionDetails.Some? && r.actionDetails.value["actualLeadMinutes"] == JNum(30)
  {
    assert LeadTime.LeadMinutes(HoldIn(30)) == 30;
  }

  /** With a one-day horizon: ten hours ahead passes, twenty-five hours is too far. */
  lemma MaxAdvanceSamples()
    ensures MaxAdvance.Evaluate(MaxAdvance.MaxAdvancePolicy(24 * 60), HoldIn(10 * 60)).status == ALLOW
    ensures var r := MaxAdvance.Evaluate(MaxAdvance.MaxAdvancePolicy(24 * 60), HoldIn(25 * 60));
      r.status == DENY && r.reasonCode == Some(MaxAdvance.EXCEEDED)
  {
  }
}
