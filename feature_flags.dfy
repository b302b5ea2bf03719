// The feature flag names the booking module knows and their code defaults.
module FeatureFlags {
  const LEAD_TIME_ENABLED := "booking.policies.lead_time.enabled"
  const MAX_ADVANCE_ENABLED := "booking.policies.max_advance.enabled"
  const MANUAL_CONFIRMATION_ENABLED := "booking.confirmation.manual.enabled"
  const ADMIN_BLOCK_ENABLED := "booking.admin.block.enabled"

  /** When in doubt the restrictive rules apply: both time policies default to on. */
  const DEFAULT_FLAG_VALUES: map<string, bool> := map[
    LEAD_TIME_ENABLED := true,
    MAX_ADVANCE_ENABLED := true,
    MANUAL_CONFIRMATION_ENABLED := false,
    ADMIN_BLOCK_ENABLED := true]

  /** `DEFAULT_FLAG_VALUES[flag] ?? false`. */
  function DefaultFlag(flag: string): (on: bool)
    ensures on ==> flag in DEFAULT_FLAG_VALUES
    ensures on <==> flag == LEAD_TIME_ENABLED || flag == MAX_ADVANCE_ENABLED || flag == ADMIN_BLOCK_ENABLED
  {
    if flag in DEFAULT_FLAG_VALUES then DEFAULT_FLAG_VALUES[flag] else false
  }
}
