// What a policy sees and what it answers: the command being attempted, the
// evaluation context, a rule's result, and the audit trace the engine keeps.
module PolicyTypes {
  import opened Wrappers
  import opened Json
  import opened BookingActors
  import opened TimeSlotRequests

  datatype PolicyStatus = ALLOW | DENY | REQUIRE_ACTION

  datatype CommandType = CREATE_HOLD | CONFIRM | CANCEL | RESCHEDULE | ADMIN_BLOCK

  /** `reasonCode`, `message` and `actionDetails` are optional in the source. */
  datatype PolicyResult = PolicyResult(status: PolicyStatus, policyId: string, reasonCode: Option<string>,
                                       message: Option<string>, actionDetails: Option<map<string, Json>>)

  /** `timeNow` is an instant in milliseconds; `request` is absent for commands on an existing booking. */
  datatype PolicyContext = PolicyContext(command: CommandType, actor: Actor, timeNow: int,
                                         request: Option<TimeSlotRequest>)

  /** One rule's entry in the trace (its evaluation timestamp is not modelled). */
  datatype EvaluationRecord = EvaluationRecord(policyId: string, order: int, result: PolicyResult)

  datatype PolicyTrace = PolicyTrace(command: CommandType, overallStatus: PolicyStatus,
                                     records: seq<EvaluationRecord>)

  /** Both time rules look only at new or moved bookings, and only when a request is attached. */
  predicate TimedCommand(command: CommandType, ctx: PolicyContext)
  {
    (command == CREATE_HOLD || command == RESCHEDULE) && ctx.request.Some?
  }
}
