// Builds the active rules from configuration: each time rule is present
// exactly when its feature flag is on, with its threshold taken from the
// rule's parameters or a built-in default.
module PolicyRegistry {
  import opened Wrappers
  import opened Errors
  import opened Json
  import opened FeatureFlags
  import opened ConfigService
  import opened Policies
  import LeadTime
  import MaxAdvance

  const LEAD_TIME_PARAMS := "LeadTimePolicy"
  const MAX_ADVANCE_PARAMS := "MaxAdvanceBookingPolicy"
  const DEFAULT_MIN_MINUTES := 60
  const DEFAULT_MAX_MINUTES := 30 * 24 * 60

  /** `params?.[key] ?? fallback` for a numeric parameter: a missing or null entry gives the fallback. */
  function NumberParam(params: Json, key: string, fallback: int): (n: int)
    ensures (Member(params, key).None? || Member(params, key) == Some(JNull)) ==> n == fallback
    ensures Member(params, key).Some? && Member(params, key).value.JNum? ==> n == Member(params, key).value.n
  {
    match Member(params, key)
    case Some(JNum(v)) => v
    case _ => fallback
  }

  /** The lead-time minimum the configuration asks for. */
  function MinMinutes(config: Json): int
  {
    NumberParam(PolicyParams(config, LEAD_TIME_PARAMS), "minMinutes", DEFAULT_MIN_MINUTES)
  }

  /** The booking horizon the configuration asks for. */
  function MaxMinutes(config: Json): int
  {
    NumberParam(PolicyParams(config, MAX_ADVANCE_PARAMS), "maxMinutes", DEFAULT_MAX_MINUTES)
  }

  /**
   * `getActivePolicies`.  Lead time comes first, then the horizon, each only
   * when its flag is on; a negative threshold makes that rule's constructor
   * throw, the lead-time one being built first.
   */
  method GetActivePolicies(cs: ConfigService) returns (r: Result<seq<Policy>, Error>)
    ensures var leadOn, maxOn := FlagValue(cs.currentConfig, LEAD_TIME_ENABLED), FlagValue(cs.currentConfig, MAX_ADVANCE_ENABLED);
      var min, max := MinMinutes(cs.currentConfig), MaxMinutes(cs.currentConfig);
      && (r.Err? <==> (leadOn && min < 0) || (maxOn && max < 0))
      && (leadOn && min < 0 ==> r == Err(PlainError(LeadTime.NEGATIVE)))
      && (!(leadOn && min < 0) && maxOn && max < 0 ==> r == Err(PlainError(MaxAdvance.NEGATIVE)))
      && (r.Ok? ==> |r.value| == (if leadOn then 1 else 0) + (if maxOn then 1 else 0))
      && (r.Ok? && leadOn ==> r.value[0] == Lead(LeadTime.LeadTimePolicy(min)))
      && (r.Ok? && maxOn ==> r.value[|r.value| - 1] == Max(MaxAdvance.MaxAdvancePolicy(max)))
  {
    var policies: seq<Policy> := [];
    if cs.IsEnabled(LEAD_TIME_ENABLED) {
      var params := cs.GetPolicyParams(LEAD_TIME_PARAMS);
      var minMinutes := NumberParam(params, "minMinutes", DEFAULT_MIN_MINUTES);
      var lead := LeadTime.New(minMinutes);
      if lead.Err? {
        return Err(lead.error);
      }
      policies := policies + [Lead(lead.value)];
    }
    if cs.IsEnabled(MAX_ADVANCE_ENABLED) {
      var params := cs.GetPolicyParams(MAX_ADVANCE_PARAMS);
      var maxMinutes := NumberParam(params, "maxMinutes", DEFAULT_MAX_MINUTES);
      var max := MaxAdvance.New(maxMinutes);
      if max.Err? {
        return Err(max.error);
      }
      policies := policies + [Max(max.value)];
    }
    return Ok(policies);
  }

  /** A configured minimum is taken as given; without parameters the lead default of one hour applies. */
  lemma ThresholdSamples()
    ensures MinMinutes(JObj(map["policies" := JObj(map[LEAD_TIME_PARAMS := JObj(map["minMinutes" := JNum(120)])])])) == 120
    ensures MinMinutes(JObj(map["policies" := JObj(map[])])) == 60
    ensures MaxMinutes(JObj(map["policies" := JObj(map[MAX_ADVANCE_PARAMS := JObj(map["maxMinutes" := JNum(20160)])])])) == 20160
    ensures MaxMinutes(JObj(map["policies" := JObj(map[])])) == 43200
  {
  }
}
