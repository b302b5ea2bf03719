// The booking-horizon rule: a booking may not start more than a configured
// number of minutes after the evaluation instant.
module MaxAdvance {
  import opened Wrappers
  import opened Errors
  import opened Json
  import opened Text
  import opened TimeRanges
  import opened PolicyTypes

  const ID := "MaxAdvanceBookingPolicy@v1"
  const ORDER := 210
  const EXCEEDED := "booking.max_advance.exceeded"
  const NEGATIVE := "maxAdvanceMinutes cannot be negative"

  datatype MaxAdvancePolicy = MaxAdvancePolicy(maxAdvanceMinutes: nat)

  /** The constructor refuses a negative maximum. */
  function New(maxAdvanceMinutes: int): (r: Result<MaxAdvancePolicy, Error>)
    ensures r.Ok? <==> maxAdvanceMinutes >= 0
    ensures r.Ok? ==> r.value.maxAdvanceMinutes == maxAdvanceMinutes
    ensures r.Err? ==> r.error == PlainError(NEGATIVE)
  {
    if maxAdvanceMinutes < 0 then Err(PlainError(NEGATIVE)) else Ok(MaxAdvancePolicy(maxAdvanceMinutes))
  }

  /** `shouldApply`: the same commands as the lead-time rule. */
  predicate ShouldApply(command: CommandType, ctx: PolicyContext)
  {
    TimedCommand(command, ctx)
  }

  /** Whole minutes from the evaluation instant to the requested start, rounded down (negative for the past). */
  function AdvanceMinutes(ctx: PolicyContext): (m: int)
    requires ctx.request.Some?
    ensures m * MS_PER_MINUTE <= ctx.request.value.timeRange.start - ctx.timeNow < (m + 1) * MS_PER_MINUTE
  {
    (ctx.request.value.timeRange.start - ctx.timeNow) / MS_PER_MINUTE
  }

  function ExceededMessage(maxAdvanceMinutes: nat): string
  {
    "Cannot book more than " + NatToString(maxAdvanceMinutes) + " minutes in advance."
  }

  /** `evaluate`: DENY with both numbers exactly when the start lies past the horizon, otherwise a bare ALLOW. */
  function Evaluate(p: MaxAdvancePolicy, ctx: PolicyContext): (r: PolicyResult)
    requires ctx.request.Some?
    ensures r.policyId == ID && r.status != REQUIRE_ACTION
    ensures r.status == DENY <==> AdvanceMinutes(ctx) > p.maxAdvanceMinutes
    ensures r.status == DENY ==>
      && r.reasonCode == Some(EXCEEDED)
      && r.message == Some(ExceededMessage(p.maxAdvanceMinutes))
      && r.actionDetails == Some(map["maxAdvanceMinutes" := JNum(p.maxAdvanceMinutes),
                                     "actualAdvanceMinutes" := JNum(AdvanceMinutes(ctx))])
    ensures r.status == ALLOW ==> r.reasonCode.None? && r.message.None? && r.actionDetails.None?
  {
    var advance := AdvanceMinutes(ctx);
    if advance > p.maxAdvanceMinutes then
      PolicyResult(DENY, ID, Some(EXCEEDED), Some(ExceededMessage(p.maxAdvanceMinutes)),
                   Some(map["maxAdvanceMinutes" := JNum(p.maxAdvanceMinutes), "actualAdvanceMinutes" := JNum(advance)]))
    else PolicyResult(ALLOW, ID, None, None, None)
  }

  /** A start in the past is never refused by this rule. */
  lemma PastStartAllowed(p: MaxAdvancePolicy, ctx: PolicyContext)
    requires ctx.request.Some? && ctx.request.value.timeRange.start <= ctx.timeNow
    ensures Evaluate(p, ctx).status == ALLOW
  {
  }

  /** The horizon is exclusive of partial minutes: ALLOW exactly when the start is less than max + 1 minutes ahead. */
  lemma HorizonInWholeMinutes(p: MaxAdvancePolicy, ctx: PolicyContext)
    requires ctx.request.Some?
    ensures Evaluate(p, ctx).status == ALLOW <==>
              ctx.request.value.timeRange.start - ctx.timeNow < (p.maxAdvanceMinutes + 1) * MS_PER_MINUTE
  {
  }
}
