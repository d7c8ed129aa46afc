/** Budget policies and the tracker that reconciles every live call against them. */
module Budget {
  import opened Wrappers

  datatype Mode = Metered | Subscription | Local | Unsupported

  /** A missing cap is not enforced. */
  datatype Policy = Policy(
    mode: Mode, capUsd: Option<real>, maxInvocations: Option<int>, maxTokens: Option<int>, maxWall: Option<real>)

  datatype Usage = Usage(input: int, output: int, tokens: int, wall: real, cost: Option<real>, contextBytes: Option<int>)

  datatype Totals = Totals(invocations: int, cost: real, tokens: int, wall: real)

  datatype Counter = Invocations | Usd | Tokens | Wall

  datatype Blocker =
    | LiveNotAllowed | UnsupportedMode | UsdCapMissing | InvocationCapMissing | InvocationCapTooLow | ResourceCapMissing
    | CapReached(counter: Counter)      // before starting the next call
    | CapExceeded(counter: Counter)     // after reconciling the last one
    | ProcessReceiptFailed | WorktreeMutated | InvocationFailed | UsageMissing | CostMissing | ContextMissing
    | OperationMissing
    | Preflight(code: string)

  /** `require_authorized`. */
  function Authorise(p: Policy, allowLive: bool, required: int): Option<Blocker> {
    if !allowLive then Some(LiveNotAllowed)
    else if p.mode.Unsupported? then Some(UnsupportedMode)
    else if p.mode.Metered? && !(p.capUsd.Some? && p.capUsd.value > 0.0) then Some(UsdCapMissing)
    else if p.mode.Subscription? || p.mode.Local? then
      if !(p.maxInvocations.Some? && p.maxInvocations.value > 0) then Some(InvocationCapMissing)
      else if p.maxInvocations.value < required then Some(InvocationCapTooLow)
      else if !((p.maxTokens.Some? && p.maxTokens.value > 0) || (p.maxWall.Some? && p.maxWall.value > 0.0))
        then Some(ResourceCapMissing)
      else None
    else None
  }

  /** Every configured counter is strictly below its cap. */
  predicate StrictlyBelow(p: Policy, t: Totals) {
    && (p.maxInvocations.Some? ==> t.invocations < p.maxInvocations.value)
    && (p.capUsd.Some? ==> t.cost < p.capUsd.value)
    && (p.maxTokens.Some? ==> t.tokens < p.maxTokens.value)
    && (p.maxWall.Some? ==> t.wall < p.maxWall.value)
  }

  /** Every configured counter is at or below its cap. */
  predicate Within(p: Policy, t: Totals) {
    && (p.maxInvocations.Some? ==> t.invocations <= p.maxInvocations.value)
    && (p.capUsd.Some? ==> t.cost <= p.capUsd.value)
    && (p.maxTokens.Some? ==> t.tokens <= p.maxTokens.value)
    && (p.maxWall.Some? ==> t.wall <= p.maxWall.value)
  }

  /** `require_before_invocation`. */
  function Before(p: Policy, t: Totals): (b: Option<Blocker>)
    ensures b.None? <==> StrictlyBelow(p, t)
    ensures b.Some? ==> b.value.CapReached?
  {
    if p.maxInvocations.Some? && t.invocations >= p.maxInvocations.value then Some(CapReached(Invocations))
    else if p.capUsd.Some? && t.cost >= p.capUsd.value then Some(CapReached(Usd))
    else if p.maxTokens.Some? && t.tokens >= p.maxTokens.value then Some(CapReached(Tokens))
    else if p.maxWall.Some? && t.wall >= p.maxWall.value then Some(CapReached(Wall))
    else None
  }

  /** The checks of `record`, on the totals after they were updated. */
  function Reconcile(p: Policy, t: Totals): (b: Option<Blocker>)
    ensures b.None? <==> Within(p, t)
    ensures b.Some? ==> b.value.CapExceeded?
  {
    if p.capUsd.Some? && t.cost > p.capUsd.value then Some(CapExceeded(Usd))
    else if p.maxInvocations.Some? && t.invocations > p.maxInvocations.value then Some(CapExceeded(Invocations))
    else if p.maxTokens.Some? && t.tokens > p.maxTokens.value then Some(CapExceeded(Tokens))
    else if p.maxWall.Some? && t.wall > p.maxWall.value then Some(CapExceeded(Wall))
    else None
  }

  const ZERO := Totals(0, 0.0, 0, 0.0)

  function CostOf(u: Usage): real {
    if u.cost.Some? then u.cost.value else 0.0
  }

  function Plus(t: Totals, u: Usage): Totals {
    Totals(t.invocations + 1, t.cost + CostOf(u), t.tokens + u.tokens, t.wall + u.wall)
  }

  function Sum(us: seq<Usage>): Totals {
    if us == [] then ZERO else Plus(Sum(us[..|us| - 1]), us[|us| - 1])
  }

  /** How far a counter is above its cap; none when no cap is configured. */
  function Excess(p: Policy, t: Totals, c: Counter): Option<real> {
    match c
    case Invocations => if p.maxInvocations.Some? then Some((t.invocations - p.maxInvocations.value) as real) else None
    case Usd => if p.capUsd.Some? then Some(t.cost - p.capUsd.value) else None
    case Tokens => if p.maxTokens.Some? then Some((t.tokens - p.maxTokens.value) as real) else None
    case Wall => if p.maxWall.Some? then Some(t.wall - p.maxWall.value) else None
  }

  /** How much one usage adds to a counter. */
  function Adds(u: Usage, c: Counter): real {
    match c
    case Invocations => 1.0
    case Usd => CostOf(u)
    case Tokens => u.tokens as real
    case Wall => u.wall
  }

  /** A call started strictly below every cap exceeds none of them by as much as it used. */
  lemma ExcessIsPartial(p: Policy, t: Totals, u: Usage, c: Counter)
    requires StrictlyBelow(p, t)
    ensures Excess(p, Plus(t, u), c).Some? ==> Excess(p, Plus(t, u), c).value < Adds(u, c)
  {
    match c
    case Invocations =>
    case Usd =>
    case Tokens =>
    case Wall =>
  }

  class BudgetTracker {
    var invocations: int
    var costUsd: real
    var tokens: int
    var wallSeconds: real

    function Current(): Totals
      reads this
    {
      Totals(invocations, costUsd, tokens, wallSeconds)
    }

    constructor ()
      ensures Current() == ZERO
    {
      invocations, costUsd, tokens, wallSeconds := 0, 0.0, 0, 0.0;
    }

    /** The call is accounted for first; only then are the caps checked, so the totals include a
        call that breaks the budget. */
    method Record(u: Usage, p: Policy) returns (b: Option<Blocker>)
      modifies this
      ensures Current() == Plus(old(Current()), u)
      ensures b == Reconcile(p, Current())
    {
      invocations := invocations + 1;
      tokens := tokens + u.tokens;
      wallSeconds := wallSeconds + u.wall;
      if u.cost.Some? {
        costUsd := costUsd + u.cost.value;
      }
      b := Reconcile(p, Current());
    }
  }
}
