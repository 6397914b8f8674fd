/**
 * The rule abstraction: each configured rule is one of the four concrete
 * rules, and validating a context dispatches to it.
 */
module Rules {
  import opened Types
  import opened Plan
  import opened RuleContext
  import MinDaysOffRule
  import MaxDaysOffRule
  import NoMorningAfterEveningRule
  import ShiftBalanceRule

  datatype Rule =
    | MinDaysOff(minDaysOff: nat)
    | MaxDaysOff(maxDaysOff: nat)
    | NoMorningAfterEvening
    | ShiftBalance(maxDailyShiftDifference: nat)

  /** Whether `rule` lets the proposed assignment through. */
  ghost predicate Admits(rule: Rule, context: AssignmentContext)
  {
    match rule
    case MinDaysOff(n) => !MinDaysOffRule.Violated(n, context)
    case MaxDaysOff(n) => !MaxDaysOffRule.Violated(n, context)
    case NoMorningAfterEvening => !NoMorningAfterEveningRule.Violated(context)
    case ShiftBalance(n) => !ShiftBalanceRule.Violated(n, context)
  }

  /** `Rule::validate`: passes exactly when the rule admits the context; refusals are `InvalidInput`. */
  method Validate(rule: Rule, context: AssignmentContext) returns (r: Outcome)
    ensures r.Pass? <==> Admits(rule, context)
    ensures r.Fail? ==> r.error.InvalidInput?
  {
    match rule
    case MinDaysOff(n) => r := MinDaysOffRule.Validate(n, context);
    case MaxDaysOff(n) => r := MaxDaysOffRule.Validate(n, context);
    case NoMorningAfterEvening => r := NoMorningAfterEveningRule.Validate(context);
    case ShiftBalance(n) => r := ShiftBalanceRule.Validate(n, context);
  }

  /** Every rule of the list admits the context. */
  ghost predicate AdmitsAll(rules: seq<Rule>, context: AssignmentContext)
  {
    forall i :: 0 <= i < |rules| ==> Admits(rules[i], context)
  }
}
