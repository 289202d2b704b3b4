/** The engine copy inside the Streamlit app (debt_app_streamlit.py): the
    same card record, rate and total helpers, a one-time payment that
    returns from inside its loop, and a total-budget simulation that records
    no history, runs a single allocation loop per month and reports only
    whether the cards were paid off, the month count and the interest. */
module StreamlitEngine {
  import opened Cards
  import opened Allocation
  import opened BudgetSimulation

  /** `apply_one_time_payment` of the app: the loop returns as soon as it has
      paid the first card with the name. */
  method ApplyOneTimePayment(cards: array<Card>, cardName: string, amount: real) returns (err: Option<Error>)
    modifies cards
    ensures OneTimePayment(old(cards[..]), cardName, amount) == if err.None? then Ok(cards[..]) else Err(err.value)
    ensures err.Some? ==> cards[..] == old(cards[..])
  {
    if amount < 0.0 {
      return Some(ValueError);
    }
    var i := 0;
    while i < cards.Length
      invariant 0 <= i <= cards.Length
      invariant forall j :: 0 <= j < i ==> cards[j].name != cardName
    {
      if cards[i].name == cardName {
        cards[i] := PayDown(cards[i], amount);
        return None;
      }
      i := i + 1;
    }
    return Some(KeyError);
  }

  /** One month of the app's allocation: the strategies of the calculator,
      but avalanche and snowball make a single pass over the sorted active
      cards. */
  function AppMonth(strategy: string, acc: seq<Card>, budget: real, epsilon: real): (m: Month)
    ensures m == Raised(ValueError) <==> ParseStrategy(strategy).None?
    ensures m == Raised(ZeroDivisionError) ==> ParseStrategy(strategy) == Some(Proportional) && epsilon < 0.0
    ensures m.Stop? ==> ParseStrategy(strategy) == Some(Proportional)
    ensures m.Raised? ==> m.error != KeyError
    ensures m.Paid? ==> |m.cards| == |acc|
  {
    match ParseStrategy(strategy)
    case None => Raised(ValueError)
    case Some(s) =>
      if s == Proportional then ProportionalMonth(acc, budget, epsilon)
      else Paid(InOrderPass(acc, PayoffOrder(s, acc, ActiveIndices(acc, epsilon)), budget, epsilon).cards)
  }

  /** With a non-negative epsilon the app's month is the calculator's month:
      the calculator's second pass never pays anything. */
  lemma AppMonthAgrees(strategy: string, acc: seq<Card>, budget: real, epsilon: real)
    requires epsilon >= 0.0
    ensures AppMonth(strategy, acc, budget, epsilon) == AllocateMonth(strategy, acc, budget, epsilon)
  {
    match ParseStrategy(strategy)
    case None =>
    case Some(s) =>
      if s != Proportional {
        SecondPassIdle(strategy, s, acc, budget, epsilon);
      }
  }

  /** The app's allocation step, as a function of the accrued cards. */
  function AppStep(strategy: string, budget: real, epsilon: real): seq<Card> -> Month
  {
    acc => AppMonth(strategy, acc, budget, epsilon)
  }

  /** The result dict of the app's `simulate_payoff_total_budget`: its
      `paid_off`, `months` and `total_interest` entries. */
  datatype Summary = Summary(paidOff: bool, months: nat, totalInterest: real)

  /** The headline of a calculator result: its history and extra entries
      dropped. */
  function Headline(r: Result<SimResult>): Result<Summary>
  {
    match r
    case Err(e) => Err(e)
    case Ok(PaidOff(m, t, _)) => Ok(Summary(true, m, t))
    case Ok(NotPaidOff(m, t, _)) => Ok(Summary(false, m, t))
  }

  /** The headline forgets the history and nothing else: two calculator
      results have the same headline exactly when they raise the same
      exception, or agree on paid off, months and total interest. */
  lemma HeadlineForgetsOnlyHistory(r: Result<SimResult>, q: Result<SimResult>)
    ensures Headline(r) == Headline(q) <==>
      || (r.Err? && q.Err? && r.error == q.error)
      || (&& r.Ok? && q.Ok? && r.value.PaidOff? == q.value.PaidOff?
          && r.value.months == q.value.months && r.value.totalInterest == q.value.totalInterest)
  {
  }

  /** The result of the app's `simulate_payoff_total_budget`: the month loop
      of the calculator with the app's allocation step, of which the app
      keeps only the headline. */
  function AppPayoff(cards: seq<Card>, budget: real, strategy: string, maxMonths: int, epsilon: real): (r: Result<Summary>)
    ensures budget <= 0.0 ==> r == Err(ValueError)
    ensures budget > 0.0 && TotalBalance(cards) <= epsilon ==> r == Ok(Summary(true, 0, 0.0))
    ensures budget > 0.0 && TotalBalance(cards) > epsilon && maxMonths < 1 ==> r == Ok(Summary(false, 1, 0.0))
    ensures budget > 0.0 && TotalBalance(cards) > epsilon && maxMonths >= 1 && ParseStrategy(strategy).None?
      ==> r == Err(ValueError)
  {
    if budget <= 0.0 then Err(ValueError)
    else
      var step := AppStep(strategy, budget, epsilon);
      assert TotalBalance(cards) > epsilon && maxMonths >= 1 && ParseStrategy(strategy).None?
          ==> BudgetRun(step, cards, maxMonths, epsilon, 0, 0.0, []) == Err(ValueError) by {
        if TotalBalance(cards) > epsilon && maxMonths >= 1 && ParseStrategy(strategy).None? {
          BudgetRunRaised(step, cards, maxMonths, epsilon, 0, 0.0, [], ValueError);
        }
      }
      Headline(BudgetRun(step, cards, maxMonths, epsilon, 0, 0.0, []))
  }

  /** The app's month loop, which keeps no history: from `months` months
      done and `interest` paid so far, the summary it returns. */
  function SummaryRun(step: seq<Card> -> Month, cards: seq<Card>, maxMonths: int, epsilon: real,
                      months: nat, interest: real): Result<Summary>
    decreases maxMonths - months, 1
  {
    if TotalBalance(cards) <= epsilon then Ok(Summary(true, months, interest))
    else if months + 1 > maxMonths then Ok(Summary(false, months + 1, interest))
    else SummaryAfter(step, step(Accrued(cards, epsilon)), maxMonths, epsilon, months + 1, interest + MonthInterest(cards, epsilon))
  }

  /** The rest of the app's loop once month `month` has ended in `m`, with
      `interest` paid up to and including it. */
  function SummaryAfter(step: seq<Card> -> Month, m: Month, maxMonths: int, epsilon: real,
                        month: nat, interest: real): Result<Summary>
    requires month <= maxMonths
    decreases maxMonths - month + 1, 0
  {
    match m
    case Stop => Ok(Summary(true, month, interest))
    case Raised(e) => Err(e)
    case Paid(next) => SummaryRun(step, next, maxMonths, epsilon, month, interest)
  }

  /** Keeping no history changes nothing else: the app's loop returns the
      headline of the calculator's loop from the same state, whatever
      history the latter has kept. */
  lemma {:induction false} SummaryRunIsHeadline(step: seq<Card> -> Month, cards: seq<Card>, maxMonths: int, epsilon: real,
                                               months: nat, interest: real, history: seq<Snapshot>)
    ensures SummaryRun(step, cards, maxMonths, epsilon, months, interest)
      == Headline(BudgetRun(step, cards, maxMonths, epsilon, months, interest, history))
    decreases maxMonths - months
  {
    if TotalBalance(cards) > epsilon && months + 1 <= maxMonths {
      var mi := MonthInterest(cards, epsilon);
      match step(Accrued(cards, epsilon))
      case Stop =>
      case Raised(e) =>
      case Paid(next) =>
        SummaryRunIsHeadline(step, next, maxMonths, epsilon, months + 1, interest + mi,
                             history + [Snapshot(months + 1, mi, interest + mi, BalanceView(next), TotalBalance(next))]);
    }
  }

  /** With a non-negative epsilon the app and the calculator agree on every
      input: the same exception, or the same paid-off flag, month count and
      total interest. */
  lemma AppMatchesCalculator(cards: seq<Card>, budget: real, strategy: string, maxMonths: int, epsilon: real)
    requires epsilon >= 0.0
    ensures AppPayoff(cards, budget, strategy, maxMonths, epsilon)
      == Headline(TotalBudgetPayoff(cards, budget, strategy, maxMonths, epsilon))
  {
    if budget > 0.0 {
      var f, g := AppStep(strategy, budget, epsilon), MonthStep(strategy, budget, epsilon);
      forall acc: seq<Card>
        ensures f(acc) == g(acc)
      {
        AppMonthAgrees(strategy, acc, budget, epsilon);
      }
      assert SameSteps(f, g);
      BudgetRunSameSteps(f, g, cards, maxMonths, epsilon, 0, 0.0, []);
    }
  }

  /** The app raises a ValueError only for a non-positive budget or an
      unknown strategy, and a ZeroDivisionError only for the proportional
      strategy with a negative epsilon; "not paid off" comes with
      `max_months + 1` months (1 when the cap is negative), "paid off" with at most `max_months`. */
  lemma AppPayoffShape(cards: seq<Card>, budget: real, strategy: string, maxMonths: int, epsilon: real)
    ensures var r := AppPayoff(cards, budget, strategy, maxMonths, epsilon);
      r.Err? ==>
        || (r.error == ValueError && (budget <= 0.0 || ParseStrategy(strategy).None?))
        || (r.error == ZeroDivisionError && strategy == "proportional" && epsilon < 0.0)
    ensures var r := AppPayoff(cards, budget, strategy, maxMonths, epsilon);
      r.Ok? ==>
        && (r.value.paidOff ==> r.value.months <= Cap(maxMonths))
        && (!r.value.paidOff ==> r.value.months == Cap(maxMonths) + 1)
  {
    if budget > 0.0 {
      var step := AppStep(strategy, budget, epsilon);
      BudgetRunRaisesStepError(step, cards, maxMonths, epsilon, 0, 0.0, []);
      BudgetRunCapped(step, cards, maxMonths, epsilon, 0, 0.0, []);
      BudgetRunPaidOffMonths(step, cards, maxMonths, epsilon, 0, 0.0, []);
      var r := BudgetRun(step, cards, maxMonths, epsilon, 0, 0.0, []);
      if r.Err? {
        var acc :| step(acc) == Raised(r.error);
        assert step(acc) == AppMonth(strategy, acc, budget, epsilon);
      }
    }
  }

  /** With non-negative balances, APRs and epsilon the app reports
      non-negative total interest; epsilon is at least zero for the same
      reason as in TotalBudgetInterest, whose result this one reuses. */
  lemma AppPayoffInterest(cards: seq<Card>, budget: real, strategy: string, maxMonths: int, epsilon: real)
    requires epsilon >= 0.0 && NonNegativeCards(cards)
    ensures var r := AppPayoff(cards, budget, strategy, maxMonths, epsilon);
      r.Ok? ==> r.value.totalInterest >= 0.0
  {
    AppMatchesCalculator(cards, budget, strategy, maxMonths, epsilon);
    TotalBudgetInterest(cards, budget, strategy, maxMonths, epsilon);
  }

  /** The app's allocation of one month, in place; the strategy is checked
      after accrual, as the app does. */
  method AllocateAppPayments(a: array<Card>, strategy: string, monthlyBudget: real, epsilon: real)
    returns (stop: bool, err: Option<Error>)
    modifies a
    ensures AppMonth(strategy, old(a[..]), monthlyBudget, epsilon)
      == if stop then Stop else if err.Some? then Raised(err.value) else Paid(a[..])
  {
    stop, err := false, None;
    var remaining := monthlyBudget;
    var active := ActiveIndices(a[..], epsilon);
    if strategy == "avalanche" {
      var order := PayoffOrder(Avalanche, a[..], active);
      remaining := PayInOrder(a, order, remaining, epsilon);
    } else if strategy == "snowball" {
      var order := PayoffOrder(Snowball, a[..], active);
      remaining := PayInOrder(a, order, remaining, epsilon);
    } else if strategy == "proportional" {
      var totalBal := ActiveTotal(a[..], active);
      if totalBal <= epsilon {
        return true, None;
      }
      if active != [] && totalBal == 0.0 {
        return false, Some(ZeroDivisionError);
      }
      PayProportional(a, active, remaining, totalBal);
    } else {
      return false, Some(ValueError);
    }
  }

  /** The body of one month after the cap check: accrual, then the app's
      allocation. */
  method PayAppMonth(a: array<Card>, strategy: string, monthlyBudget: real, epsilon: real)
    returns (monthInterest: real, stop: bool, err: Option<Error>)
    modifies a
    ensures monthInterest == MonthInterest(old(a[..]), epsilon)
    ensures AppStep(strategy, monthlyBudget, epsilon)(Accrued(old(a[..]), epsilon))
      == if stop then Stop else if err.Some? then Raised(err.value) else Paid(a[..])
  {
    monthInterest := AccrueInterest(a, epsilon);
    stop, err := AllocateAppPayments(a, strategy, monthlyBudget, epsilon);
  }

  /** The app's `simulate_payoff_total_budget`. The caller's cards are a
      value, so the run works on a fresh array copied from them; the loop
      follows the app's history-free run. */
  method SimulatePayoffTotalBudget(cards: seq<Card>, monthlyBudget: real, strategy: string, maxMonths: int, epsilon: real)
    returns (r: Result<Summary>)
    ensures r == AppPayoff(cards, monthlyBudget, strategy, maxMonths, epsilon)
  {
    if monthlyBudget <= 0.0 {
      return Err(ValueError);
    }
    var a := new Card[|cards|](i requires 0 <= i < |cards| => cards[i]);
    assert a[..] == cards;
    var months: nat := 0;
    var totalInterestPaid := 0.0;
    ghost var step := AppStep(strategy, monthlyBudget, epsilon);
    ghost var goal := SummaryRun(step, cards, maxMonths, epsilon, 0, 0.0);
    SummaryRunIsHeadline(step, cards, maxMonths, epsilon, 0, 0.0, []);
    assert AppPayoff(cards, monthlyBudget, strategy, maxMonths, epsilon) == goal;
    while TotalBalance(a[..]) > epsilon
      invariant SummaryRun(step, a[..], maxMonths, epsilon, months, totalInterestPaid) == goal
      decreases maxMonths - months
    {
      months := months + 1;
      if months > maxMonths {
        return Ok(Summary(false, months, totalInterestPaid));
      }
      var monthInterest, stop, err := PayAppMonth(a, strategy, monthlyBudget, epsilon);
      totalInterestPaid := totalInterestPaid + monthInterest;
      if stop {
        return Ok(Summary(true, months, totalInterestPaid));
      }
      if err.Some? {
        return Err(err.value);
      }
    }
    r := Ok(Summary(true, months, totalInterestPaid));
  }
}
