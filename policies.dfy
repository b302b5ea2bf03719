// The rules the engine runs.  The two time rules are the ones the module
// ships; `Custom` stands for any other rule a caller injects, given by its
// identifier, its order and its two operations.
module Policies {
  import opened PolicyTypes
  import LeadTime
  import MaxAdvance

  datatype Policy =
    | Lead(lead: LeadTime.LeadTimePolicy)
    | Max(max: MaxAdvance.MaxAdvancePolicy)
    | Custom(id: string, order: int, applies: (CommandType, PolicyContext) -> bool,
             eval: PolicyContext -> PolicyResult)
  {
    function Id(): string
    {
      match this
      case Lead(_) => LeadTime.ID
      case Max(_) => MaxAdvance.ID
      case Custom(id, _, _, _) => id
    }

    function Order(): int
    {
      match this
      case Lead(_) => LeadTime.ORDER
      case Max(_) => MaxAdvance.ORDER
      case Custom(_, order, _, _) => order
    }

    predicate ShouldApply(command: CommandType, ctx: PolicyContext)
    {
      match this
      case Lead(_) => LeadTime.ShouldApply(command, ctx)
      case Max(_) => MaxAdvance.ShouldApply(command, ctx)
      case Custom(_, _, applies, _) => applies(command, ctx)
    }

    /** The shipped rules dereference the request, so they may only run where they apply. */
    function Evaluate(command: CommandType, ctx: PolicyContext): PolicyResult
      requires ShouldApply(command, ctx)
    {
      match this
      case Lead(p) => LeadTime.Evaluate(p, ctx)
      case Max(p) => MaxAdvance.Evaluate(p, ctx)
      case Custom(_, _, _, eval) => eval(ctx)
    }
  }
}
