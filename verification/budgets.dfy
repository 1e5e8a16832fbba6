/** The budget predicates: spent-to-budget progress capped at 100%, the
    over-budget test and the alert test against the budget's threshold. */
module Budgets {
  import opened Types

  /** The JavaScript numbers `Math.min((spent / amount) * 100, 100)` can
      produce: a finite value, -Infinity (a negative amount spent against a
      zero budget) or NaN (0 / 0). */
  datatype Ratio = Fin(r: real) | NegInfinity | NotANumber

  function Min(a: real, b: real): real
  {
    if a <= b then a else b
  }

  /** `calculateBudgetProgress(budget)`, as a percentage. A zero budget
      divides by zero: any positive spending is +Infinity, capped to 100.
      Beyond the cap, the contract only lists the cases; what they mean for
      the budget bar and the alert is stated by `ProgressCapped`,
      `OverBudgetShowsFullBar`, `AlertIffThresholdReached` and
      `ZeroBudgetAlert` below. */
  function Progress(b: Budget): (p: Ratio)
    ensures p.Fin? ==> p.r <= 100.0
    ensures b.amount != 0 ==> p == Fin(Min(b.spent as real / b.amount as real * 100.0, 100.0))
    ensures b.amount == 0 ==> (p == Fin(100.0) <==> b.spent > 0)
    ensures b.amount == 0 ==> (p == NegInfinity <==> b.spent < 0)
    ensures b.amount == 0 ==> (p == NotANumber <==> b.spent == 0)
  {
    if b.amount != 0 then Fin(Min(b.spent as real / b.amount as real * 100.0, 100.0))
    else if b.spent > 0 then Fin(100.0)
    else if b.spent < 0 then NegInfinity
    else NotANumber
  }

  /** `isOverBudget(budget)`. */
  predicate IsOverBudget(b: Budget)
  {
    b.spent > b.amount
  }

  /** `shouldShowBudgetAlert(budget)`: progress at or above the threshold;
      comparisons with NaN or -Infinity are false. */
  predicate ShouldShowAlert(b: Budget)
  {
    match Progress(b)
    case Fin(r) => r >= b.alertThreshold
    case NegInfinity => false
    case NotANumber => false
  }

  /** For a positive budget, progress hits the 100% cap exactly when the
      spending reaches the budget, so an over-budget budget shows 100%. */
  lemma ProgressCapped(b: Budget)
    requires b.amount > 0
    ensures Progress(b) == Fin(100.0) <==> b.spent >= b.amount
    ensures IsOverBudget(b) ==> Progress(b) == Fin(100.0)
  {
    var x := b.spent as real / b.amount as real * 100.0;
    assert x >= 100.0 <==> b.spent as real >= b.amount as real by {
      assert x == b.spent as real * 100.0 / b.amount as real;
    }
  }

  /** For a positive budget the alert is shown exactly when the threshold is
      at most 100% and the spending reaches that share of the budget, with
      the share computed exactly rather than by a float division. */
  lemma AlertIffThresholdReached(b: Budget)
    requires b.amount > 0
    ensures ShouldShowAlert(b) <==>
      b.alertThreshold <= 100.0 && b.spent as real * 100.0 >= b.alertThreshold * b.amount as real
  {
    var a := b.amount as real;
    var x := b.spent as real / a * 100.0;
    assert x * a == b.spent as real * 100.0;
    assert x >= b.alertThreshold <==> x * a >= b.alertThreshold * a;
  }

  /** An over-budget positive budget always alerts unless its threshold is
      above 100%. */
  lemma OverBudgetAlerts(b: Budget)
    requires b.amount > 0 && IsOverBudget(b) && b.alertThreshold <= 100.0
    ensures ShouldShowAlert(b)
  {
    ProgressCapped(b);
  }

  /** Whenever the budget is not negative, being over it fills the bar: a
      zero budget with anything spent shows 100% too. */
  lemma OverBudgetShowsFullBar(b: Budget)
    requires b.amount >= 0 && IsOverBudget(b)
    ensures Progress(b) == Fin(100.0)
  {
    if b.amount > 0 {
      ProgressCapped(b);
    }
  }

  /** A zero budget alerts exactly when something was spent and the
      threshold is at most 100%; nothing spent gives NaN, which never alerts. */
  lemma ZeroBudgetAlert(b: Budget)
    requires b.amount == 0
    ensures ShouldShowAlert(b) <==> b.spent > 0 && b.alertThreshold <= 100.0
  {
  }
}
