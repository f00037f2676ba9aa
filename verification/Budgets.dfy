/** Run budgets (backend/agent/budgets.py): clamped limits, usage, preflight and accounting. */
module Budgets {
  import opened Common

  /** An untrusted configuration value, as far as integer conversion can tell. */
  datatype RawValue = Unusable | Boolean(b: bool) | Whole(n: int)

  datatype RawBudget = RawBudget(
    maxAgentSteps: RawValue, maxToolCalls: RawValue, maxTotalTokens: RawValue, modelTimeoutSeconds: RawValue)

  datatype Limits = Limits(steps: nat, tools: nat, tokens: nat, timeout: nat)

  datatype Usage = Usage(steps: int, tools: int, input: int, output: int, total: int, unmetered: int)

  /** What the provider reported with a response. */
  datatype TokenReport = Metered(input: int, output: int, total: int) | Unmetered

  datatype BudgetReason = StepLimit | ToolLimit | TokenLimit | UnclosedToolCall

  function Min(a: int, b: int): int { if a <= b then a else b }

  function Max(a: int, b: int): int { if a >= b then a else b }

  function BoundedInt(value: RawValue, default: int, minimum: int, maximum: int): int {
    match value
    case Whole(n) => Min(Max(n, minimum), maximum)
    case _ => default
  }

  /** A number within the range stands, one outside is replaced by the nearer bound, anything else by the default. */
  predicate Effective(value: RawValue, default: int, minimum: int, maximum: int, effective: int) {
    && (value.Whole? && minimum <= value.n <= maximum ==> effective == value.n)
    && (value.Whole? && value.n < minimum ==> effective == minimum)
    && (value.Whole? && value.n > maximum ==> effective == maximum)
    && (!value.Whole? ==> effective == default)
  }

  /** Whatever the configuration holds, each effective limit comes from its own field and stays within its range. */
  function GetRunBudgetLimits(raw: RawBudget): (limits: Limits)
    ensures 3 <= limits.steps <= 100 && 1 <= limits.tools <= 200
    ensures 1000 <= limits.tokens <= 2000000 && 5 <= limits.timeout <= 300
    ensures Effective(raw.maxAgentSteps, 24, 3, 100, limits.steps)
    ensures Effective(raw.maxToolCalls, 32, 1, 200, limits.tools)
    ensures Effective(raw.maxTotalTokens, 120000, 1000, 2000000, limits.tokens)
    ensures Effective(raw.modelTimeoutSeconds, 60, 5, 300, limits.timeout)
  {
    Limits(
      BoundedInt(raw.maxAgentSteps, 24, 3, 100),
      BoundedInt(raw.maxToolCalls, 32, 1, 200),
      BoundedInt(raw.maxTotalTokens, 120000, 1000, 2000000),
      BoundedInt(raw.modelTimeoutSeconds, 60, 5, 300))
  }

  const EMPTY_USAGE := Usage(0, 0, 0, 0, 0, 0)

  /** Counters read back from the state are trusted only within wide bounds. */
  function GetRunUsage(u: Usage): (usage: Usage)
    ensures Effective(Whole(u.steps), 0, 0, 10000, usage.steps)
    ensures Effective(Whole(u.tools), 0, 0, 10000, usage.tools)
    ensures Effective(Whole(u.input), 0, 0, 100000000, usage.input)
    ensures Effective(Whole(u.output), 0, 0, 100000000, usage.output)
    ensures Effective(Whole(u.total), 0, 0, 100000000, usage.total)
    ensures Effective(Whole(u.unmetered), 0, 0, 10000, usage.unmetered)
  {
    Usage(
      BoundedInt(Whole(u.steps), 0, 0, 10000),
      BoundedInt(Whole(u.tools), 0, 0, 10000),
      BoundedInt(Whole(u.input), 0, 0, 100000000),
      BoundedInt(Whole(u.output), 0, 0, 100000000),
      BoundedInt(Whole(u.total), 0, 0, 100000000),
      BoundedInt(Whole(u.unmetered), 0, 0, 10000))
  }

  function BudgetPreflightReason(u: Usage, limits: Limits): Option<BudgetReason> {
    var usage := GetRunUsage(u);
    if usage.steps >= limits.steps then Some(StepLimit)
    else if usage.total >= limits.tokens then Some(TokenLimit)
    else None
  }

  function ReportedInput(t: TokenReport): int { if t.Metered? then Max(t.input, 0) else 0 }

  function ReportedOutput(t: TokenReport): int { if t.Metered? then Max(t.output, 0) else 0 }

  function ReportedTotal(t: TokenReport): int {
    if t.Metered? then Max(Max(t.total, 0), ReportedInput(t) + ReportedOutput(t)) else 0
  }

  function UsageAfter(u: Usage, toolCalls: nat, tokens: TokenReport): Usage {
    var current := GetRunUsage(u);
    Usage(
      current.steps + 1, current.tools + toolCalls,
      current.input + ReportedInput(tokens), current.output + ReportedOutput(tokens),
      current.total + ReportedTotal(tokens),
      current.unmetered + if tokens.Metered? then 0 else 1)
  }

  /** Why the response must not be acted on, judged after it was accounted for. */
  function AccountingReason(usage: Usage, limits: Limits, toolCalls: nat): Option<BudgetReason> {
    if usage.tools > limits.tools then Some(ToolLimit)
    else if usage.total > limits.tokens then Some(TokenLimit)
    else if usage.steps >= limits.steps && toolCalls > 0 then Some(UnclosedToolCall)
    else None
  }

  /** The tokens billed are the least that the report allows: never negative, never less than both parts together. */
  lemma {:induction false} ReportsAreBilled(t: TokenReport)
    ensures 0 <= ReportedInput(t) && 0 <= ReportedOutput(t) && ReportedInput(t) + ReportedOutput(t) <= ReportedTotal(t)
    ensures t.Unmetered? ==> ReportedTotal(t) == 0
    ensures t.Metered? ==>
              && t.input <= ReportedInput(t) && (ReportedInput(t) > 0 ==> ReportedInput(t) == t.input)
              && t.output <= ReportedOutput(t) && (ReportedOutput(t) > 0 ==> ReportedOutput(t) == t.output)
              && t.total <= ReportedTotal(t)
              && (ReportedTotal(t) == t.total || ReportedTotal(t) == ReportedInput(t) + ReportedOutput(t))
  {
  }

  /** The reason given names a limit that is really reached; a response is accepted only below all of them. */
  lemma {:induction false} ReasonNamesItsLimit(u: Usage, limits: Limits, toolCalls: nat)
    requires GetRunUsage(u) == u
    ensures match BudgetPreflightReason(u, limits)
            case Some(StepLimit) => u.steps >= limits.steps
            case Some(TokenLimit) => u.steps < limits.steps && u.total >= limits.tokens
            case Some(_) => false
            case None => u.steps < limits.steps && u.total < limits.tokens
    ensures match AccountingReason(u, limits, toolCalls)
            case Some(ToolLimit) => u.tools > limits.tools
            case Some(TokenLimit) => u.tools <= limits.tools && u.total > limits.tokens
            case Some(UnclosedToolCall) =>
              u.tools <= limits.tools && u.total <= limits.tokens && u.steps >= limits.steps && toolCalls > 0
            case Some(_) => false
            case None =>
              u.tools <= limits.tools && u.total <= limits.tokens && (u.steps < limits.steps || toolCalls == 0)
  {
  }
}
