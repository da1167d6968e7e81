/** The shared attempt and repair policy (app/visualization/policy.py). */
module Policy {
  import opened Outcomes

  datatype FailureCategory =
    | InvalidSpec | UnsupportedTemplate | Syntax | RenderError | InvalidOutput
    | Timeout | ResourceLimit | StorageFailure | WorkerUnavailable
    | Cancelled | Expired | Disabled | Unauthorized | BudgetExhausted

  predicate Repairable(c: FailureCategory) {
    match c
    case InvalidSpec | UnsupportedTemplate | Syntax | RenderError | InvalidOutput => true
    case _ => false
  }

  predicate Transient(c: FailureCategory) {
    match c
    case StorageFailure | WorkerUnavailable | Timeout => true
    case _ => false
  }

  predicate Permanent(c: FailureCategory) {
    match c
    case Disabled | Unauthorized | BudgetExhausted | Cancelled | Expired | ResourceLimit => true
    case _ => false
  }

  datatype NextStep = Repair | Retry | GiveUp

  /** The three sets partition the categories, so an attempt that fails is given up exactly when the budget
      is spent or the failure is permanent. */
  function StepAfter(remaining: int, c: FailureCategory): (s: NextStep)
    ensures s == GiveUp <==> remaining <= 0 || Permanent(c)
    ensures s == Repair ==> !Transient(c)
    ensures s == Retry ==> !Repairable(c)
  {
    if remaining <= 0 || Permanent(c) then GiveUp
    else if Repairable(c) then Repair
    else if Transient(c) then Retry
    else GiveUp
  }

  /** Which step follows which failure, category by category, while attempts are left. */
  lemma StepIs(remaining: int, c: FailureCategory)
    ensures var s := StepAfter(remaining, c);
            && (s == Repair <==>
                  remaining > 0 && c in {InvalidSpec, UnsupportedTemplate, Syntax, RenderError, InvalidOutput})
            && (s == Retry <==> remaining > 0 && c in {StorageFailure, WorkerUnavailable, Timeout})
            && (s == GiveUp <==> remaining <= 0 || c in {Disabled, Unauthorized, BudgetExhausted, Cancelled, Expired,
                                                         ResourceLimit})
  {
  }

  /** The single place that counts attempts. */
  class AttemptTracker {
    const maxAttempts: nat
    var used: nat
    var history: seq<FailureCategory>

    constructor (maxAttempts: nat)
      ensures this.maxAttempts == maxAttempts && used == 0 && history == []
    {
      this.maxAttempts := maxAttempts;
      used, history := 0, [];
    }

    // None stands for the AttemptsExhausted exception.
    method BeginAttempt() returns (number: Option<nat>)
      modifies this`used
      ensures old(used) >= maxAttempts ==> number == None && used == old(used)
      ensures old(used) < maxAttempts ==> number == Some(used) && used == old(used) + 1
    {
      if used >= maxAttempts {
        return None;
      }
      used := used + 1;
      number := Some(used);
    }

    method RecordFailure(c: FailureCategory)
      modifies this`history
      ensures history == old(history) + [c]
    {
      history := history + [c];
    }

    function Next(c: FailureCategory): NextStep
      reads this
    {
      StepAfter(maxAttempts - used, c)
    }
  }
}
