// The minimum-notice rule: a booking must start at least a configured number
// of minutes after the evaluation instant.
module LeadTime {
  import opened Wrappers
  import opened Errors
  import opened Json
  import opened Text
  import opened TimeRanges
  import opened PolicyTypes

  const ID := "LeadTimePolicy@v1"
  const ORDER := 200
  const TOO_SOON := "booking.lead_time.too_soon"
  const NEGATIVE := "minLeadMinutes cannot be negative"

  datatype LeadTimePolicy = LeadTimePolicy(minLeadMinutes: nat)

  /** The constructor refuses a negative minimum. */
  function New(minLeadMinutes: int): (r: Result<LeadTimePolicy, Error>)
    ensures r.Ok? <==> minLeadMinutes >= 0
    ensures r.Ok? ==> r.value.minLeadMinutes == minLeadMinutes
    ensures r.Err? ==> r.error == PlainError(NEGATIVE)
  {
    if minLeadMinutes < 0 then Err(PlainError(NEGATIVE)) else Ok(LeadTimePolicy(minLeadMinutes))
  }

  /** `shouldApply`: creating a hold or rescheduling, with a request attached. */
  predicate ShouldApply(command: CommandType, ctx: PolicyContext)
  {
    TimedCommand(command, ctx)
  }

  /** Whole minutes from the evaluation instant to the requested start, rounded down. */
  function LeadMinutes(ctx: PolicyContext): (m: int)
    requires ctx.request.Some?
    ensures m * MS_PER_MINUTE <= ctx.request.value.timeRange.start - ctx.timeNow < (m + 1) * MS_PER_MINUTE
  {
    (ctx.request.value.timeRange.start - ctx.timeNow) / MS_PER_MINUTE
  }

  function TooSoonMessage(minLeadMinutes: nat): string
  {
    "Booking must be made at least " + NatToString(minLeadMinutes) + " minutes in advance."
  }

  /** `evaluate`: DENY with both numbers exactly when the lead is short of the minimum, otherwise a bare ALLOW. */
  function Evaluate(p: LeadTimePolicy, ctx: PolicyContext): (r: PolicyResult)
    requires ctx.request.Some?
    ensures r.policyId == ID && r.status != REQUIRE_ACTION
    ensures r.status == DENY <==> LeadMinutes(ctx) < p.minLeadMinutes
    ensures r.status == DENY ==>
      && r.reasonCode == Some(TOO_SOON)
      && r.message == Some(TooSoonMessage(p.minLeadMinutes))
      && r.actionDetails == Some(map["minLeadMinutes" := JNum(p.minLeadMinutes),
                                     "actualLeadMinutes" := JNum(LeadMinutes(ctx))])
    ensures r.status == ALLOW ==> r.reasonCode.None? && r.message.None? && r.actionDetails.None?
  {
    var lead := LeadMinutes(ctx);
    if lead < p.minLeadMinutes then
      PolicyResult(DENY, ID, Some(TOO_SOON), Some(TooSoonMessage(p.minLeadMinutes)),
                   Some(map["minLeadMinutes" := JNum(p.minLeadMinutes), "actualLeadMinutes" := JNum(lead)]))
    else PolicyResult(ALLOW, ID, None, None, None)
  }

  /** Raising the minimum can only turn an ALLOW into a DENY, never the reverse. */
  lemma StricterMinimum(p: LeadTimePolicy, q: LeadTimePolicy, ctx: PolicyContext)
    requires ctx.request.Some? && p.minLeadMinutes <= q.minLeadMinutes
    ensures Evaluate(p, ctx).status == DENY ==> Evaluate(q, ctx).status == DENY
  {
  }

  /** Any start at least a minute's worth of the minimum after now passes, partial minutes being dropped. */
  lemma LeadInWholeMinutes(p: LeadTimePolicy, ctx: PolicyContext)
    requires ctx.request.Some?
    ensures Evaluate(p, ctx).status == ALLOW <==>
              ctx.request.value.timeRange.start - ctx.timeNow >= p.minLeadMinutes * MS_PER_MINUTE
  {
  }
}
