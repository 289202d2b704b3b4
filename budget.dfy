/** `simulate_payoff_total_budget` of debt_calculator.py: a shared monthly
    budget spent by the avalanche, snowball or proportional strategy, month
    after month, on a private copy of the cards. */
module BudgetSimulation {
  import opened Cards
  import opened Allocation

  /** One entry of the history: the month, its interest, the interest so far,
      the balance of each card (clamped at zero, by name) and the total. */
  datatype Snapshot = Snapshot(month: nat, interest: real, interestToDate: real,
                               balances: map<string, real>, totalBalance: real)

  /** The outcome of a run that raised nothing. */
  datatype SimResult =
    | PaidOff(months: nat, totalInterest: real, history: seq<Snapshot>)
    | NotPaidOff(months: nat, totalInterest: real, history: seq<Snapshot>)

  /** `{c.name: max(0.0, c.balance) for c in cards}`. */
  function BalanceView(cards: seq<Card>): map<string, real>
  {
    if cards == [] then map[]
    else
      var n := |cards| - 1;
      BalanceView(cards[..n])[cards[n].name := Max(0.0, cards[n].balance)]
  }

  /** Every name is a key of the balance view, every value is at least zero,
      and a name shared by several cards shows the balance of the last one. */
  lemma {:induction false} BalanceViewLastWins(cards: seq<Card>)
    ensures forall i :: 0 <= i < |cards| ==> cards[i].name in BalanceView(cards)
    ensures forall n :: n in BalanceView(cards) ==> BalanceView(cards)[n] >= 0.0
    ensures forall i :: 0 <= i < |cards| && (forall j :: i < j < |cards| ==> cards[j].name != cards[i].name) ==>
      BalanceView(cards)[cards[i].name] == Max(0.0, cards[i].balance)
  {
    if cards != [] {
      var n := |cards| - 1;
      assert forall i :: 0 <= i < n ==> cards[..n][i] == cards[i];
      BalanceViewLastWins(cards[..n]);
    }
  }

  /** The number of months the run may simulate: `max_months`, or none when
      it is negative. */
  function Cap(maxMonths: int): nat
  {
    if maxMonths < 0 then 0 else maxMonths
  }

  /** What the allocation step of one month produced: the `break` of the
      proportional branch, an exception, or the cards after payment. */
  datatype Month = Stop | Raised(error: Error) | Paid(cards: seq<Card>)

  /** The proportional branch of a month: stop when the active cards owe at
      most epsilon, otherwise pay every active card its share of the budget;
      the shares divide by zero only when the active total is zero. */
  function ProportionalMonth(acc: seq<Card>, budget: real, epsilon: real): (m: Month)
    ensures m.Raised? ==> m.error == ZeroDivisionError && epsilon < 0.0
    ensures m.Paid? ==> |m.cards| == |acc|
  {
    var active := ActiveIndices(acc, epsilon);
    var totalBal := ActiveTotal(acc, active);
    if totalBal <= epsilon then Stop
    else if active != [] && totalBal == 0.0 then Raised(ZeroDivisionError)
    else Paid(ProportionalPass(acc, active, budget, totalBal))
  }

  /** The allocation step of one month, on the accrued cards `acc`: an
      unknown strategy name is a ValueError here. */
  function AllocateMonth(strategy: string, acc: seq<Card>, budget: real, epsilon: real): (m: Month)
    ensures m == Raised(ValueError) <==> ParseStrategy(strategy).None?
    ensures m == Raised(ZeroDivisionError) ==> ParseStrategy(strategy) == Some(Proportional) && epsilon < 0.0
    ensures m.Stop? ==> ParseStrategy(strategy) == Some(Proportional)
    ensures m.Raised? ==> m.error != KeyError
    ensures m.Paid? ==> |m.cards| == |acc|
  {
    match ParseStrategy(strategy)
    case None => Raised(ValueError)
    case Some(s) =>
      if s == Proportional then ProportionalMonth(acc, budget, epsilon)
      else
        var first := InOrderPass(acc, PayoffOrder(s, acc, ActiveIndices(acc, epsilon)), budget, epsilon);
        if first.remaining > epsilon then
          var active2 := ActiveIndices(first.cards, epsilon);
          Paid(InOrderPass(first.cards, PayoffOrder(s, first.cards, active2), first.remaining, epsilon).cards)
        else Paid(first.cards)
  }

  /** An empty list of positions is the only one that holds none of them. */
  lemma NoMembersEmpty(idx: seq<nat>, n: nat)
    requires InBounds(idx, n)
    ensures (forall j :: 0 <= j < n ==> j !in idx) ==> idx == []
  {
    if idx != [] {
      assert idx[0] in idx;
    }
  }

  /** With a non-negative epsilon the second allocation loop of avalanche and
      snowball never pays anything: budget is left after the first loop only
      when every active card was paid to zero, so no card is active again. */
  lemma SecondPassIdle(strategy: string, s: Strategy, acc: seq<Card>, budget: real, epsilon: real)
    requires ParseStrategy(strategy) == Some(s) && s != Proportional && epsilon >= 0.0
    ensures AllocateMonth(strategy, acc, budget, epsilon)
      == Paid(InOrderPass(acc, PayoffOrder(s, acc, ActiveIndices(acc, epsilon)), budget, epsilon).cards)
  {
    var active := ActiveIndices(acc, epsilon);
    var order := PayoffOrder(s, acc, active);
    var first := InOrderPass(acc, order, budget, epsilon);
    if first.remaining > epsilon {
      InOrderPassLeftover(acc, order, budget, epsilon);
      InOrderPassFrame(acc, order, budget, epsilon);
      PayoffOrderMembers(s, acc, active);
      ActiveIndicesExact(acc, epsilon);
      ActiveIndicesExact(first.cards, epsilon);
      var active2 := ActiveIndices(first.cards, epsilon);
      forall j | 0 <= j < |acc|
        ensures j !in active2
      {
        if j in order {
          assert first.cards[j].balance == 0.0;
        }
      }
      NoMembersEmpty(active2, |acc|);
      assert PayoffOrder(s, first.cards, active2) == [];
    }
  }

  /** One avalanche or snowball month touches no inactive card, keeps every
      name and APR, and never raises a balance or drives one below zero. */
  lemma InOrderMonthFrame(strategy: string, s: Strategy, acc: seq<Card>, budget: real, epsilon: real)
    requires ParseStrategy(strategy) == Some(s) && s != Proportional
    requires epsilon >= 0.0 && budget >= 0.0
    requires forall j :: 0 <= j < |acc| ==> acc[j].balance >= 0.0
    ensures var m := AllocateMonth(strategy, acc, budget, epsilon);
      && m.Paid? && |m.cards| == |acc|
      && forall j :: 0 <= j < |acc| ==>
        && m.cards[j].name == acc[j].name && m.cards[j].apr == acc[j].apr
        && 0.0 <= m.cards[j].balance <= acc[j].balance
        && (acc[j].balance <= epsilon ==> m.cards[j] == acc[j])
  {
    var active := ActiveIndices(acc, epsilon);
    var order := PayoffOrder(s, acc, active);
    SecondPassIdle(strategy, s, acc, budget, epsilon);
    InOrderPassFrame(acc, order, budget, epsilon);
    InOrderPassSpends(acc, order, budget, epsilon);
    PayoffOrderMembers(s, acc, active);
    ActiveIndicesExact(acc, epsilon);
  }

  /** One avalanche or snowball month pays between nothing and the budget:
      the whole budget down to epsilon, unless every card ends at or below
      epsilon. */
  lemma InOrderMonthSpends(strategy: string, s: Strategy, acc: seq<Card>, budget: real, epsilon: real)
    requires ParseStrategy(strategy) == Some(s) && s != Proportional
    requires epsilon >= 0.0 && budget >= 0.0
    requires forall j :: 0 <= j < |acc| ==> acc[j].balance >= 0.0
    ensures var m := AllocateMonth(strategy, acc, budget, epsilon);
      && m.Paid?
      && 0.0 <= TotalBalance(acc) - TotalBalance(m.cards) <= budget
      && (TotalBalance(acc) - TotalBalance(m.cards) >= budget - epsilon
          || forall j :: 0 <= j < |acc| ==> m.cards[j].balance <= epsilon)
  {
    var active := ActiveIndices(acc, epsilon);
    var order := PayoffOrder(s, acc, active);
    var first := InOrderPass(acc, order, budget, epsilon);
    SecondPassIdle(strategy, s, acc, budget, epsilon);
    InOrderPassSpends(acc, order, budget, epsilon);
    if first.remaining > epsilon {
      InOrderPassFrame(acc, order, budget, epsilon);
      InOrderPassLeftover(acc, order, budget, epsilon);
      PayoffOrderMembers(s, acc, active);
      ActiveIndicesExact(acc, epsilon);
      forall j | 0 <= j < |acc|
        ensures first.cards[j].balance <= epsilon
      {
        if j !in order {
          assert first.cards[j] == acc[j];
        }
      }
    }
  }

  /** The avalanche or snowball order lists each active card once, sorted by
      the strategy's key with ties in list order, and a card is paid anything
      only after every card before it in that order was paid to zero. */
  lemma InOrderMonthGreedy(strategy: string, s: Strategy, acc: seq<Card>, budget: real, epsilon: real)
    requires ParseStrategy(strategy) == Some(s) && s != Proportional && epsilon >= 0.0
    ensures var order := PayoffOrder(s, acc, ActiveIndices(acc, epsilon));
      && SortedBy(s, acc, order) && Distinct(order)
      && forall j :: 0 <= j < |acc| ==> (j in order <==> acc[j].balance > epsilon)
    ensures var order := PayoffOrder(s, acc, ActiveIndices(acc, epsilon));
      var m := AllocateMonth(strategy, acc, budget, epsilon);
      && m.Paid?
      && forall k, l :: 0 <= k < l < |order| && m.cards[order[l]].balance != acc[order[l]].balance ==>
           m.cards[order[k]].balance == 0.0
  {
    var active := ActiveIndices(acc, epsilon);
    var order := PayoffOrder(s, acc, active);
    ActiveIndicesExact(acc, epsilon);
    PayoffOrderMembers(s, acc, active);
    PayoffOrderSorted(s, acc, active);
    SecondPassIdle(strategy, s, acc, budget, epsilon);
    InOrderPassGreedy(acc, order, budget, epsilon);
  }

  /** A proportional month stops the run exactly when the active cards total
      at most epsilon, raises nothing, and otherwise pays min(budget, active
      total) in all. */
  lemma ProportionalMonthPays(acc: seq<Card>, budget: real, epsilon: real)
    requires epsilon >= 0.0 && budget >= 0.0
    requires forall j :: 0 <= j < |acc| ==> acc[j].balance >= 0.0
    ensures var t := ActiveTotal(acc, ActiveIndices(acc, epsilon));
      var m := ProportionalMonth(acc, budget, epsilon);
      && (m.Stop? <==> t <= epsilon) && !m.Raised?
      && (m.Paid? ==> TotalBalance(acc) - TotalBalance(m.cards) == Min(budget, t))
  {
    var active := ActiveIndices(acc, epsilon);
    var t := ActiveTotal(acc, active);
    if t > epsilon {
      ActiveIndicesExact(acc, epsilon);
      assert Distinct(active);
      ProportionalPaysMin(acc, active, budget);
    }
  }

  /** A proportional month touches no inactive card, keeps every name and
      APR, and leaves each active balance between zero and what it was. */
  lemma ProportionalMonthFrame(acc: seq<Card>, budget: real, epsilon: real)
    requires epsilon >= 0.0 && budget >= 0.0
    requires forall j :: 0 <= j < |acc| ==> acc[j].balance >= 0.0
    ensures var m := ProportionalMonth(acc, budget, epsilon);
      m.Paid? ==> |m.cards| == |acc| && forall j :: 0 <= j < |acc| ==>
        && m.cards[j].name == acc[j].name && m.cards[j].apr == acc[j].apr
        && 0.0 <= m.cards[j].balance <= acc[j].balance
        && (acc[j].balance <= epsilon ==> m.cards[j] == acc[j])
  {
    var active := ActiveIndices(acc, epsilon);
    var t := ActiveTotal(acc, active);
    if t > epsilon {
      ActiveIndicesExact(acc, epsilon);
      ProportionalPassFrame(acc, active, budget, t);
    }
  }

  /** The allocation step of the named strategy, as a function of the
      accrued cards. */
  function MonthStep(strategy: string, budget: real, epsilon: real): seq<Card> -> Month
  {
    acc => AllocateMonth(strategy, acc, budget, epsilon)
  }

  /** The month loop, from `months` months done, `interest` paid so far and
      the history so far; `step` is the allocation step applied to the
      accrued cards each month. */
  function BudgetRun(step: seq<Card> -> Month, cards: seq<Card>, maxMonths: int, epsilon: real,
                     months: nat, interest: real, history: seq<Snapshot>): Result<SimResult>
    decreases maxMonths - months, 1
  {
    if TotalBalance(cards) <= epsilon then Ok(PaidOff(months, interest, history))
    else if months + 1 > maxMonths then Ok(NotPaidOff(months + 1, interest, history))
    else AfterMonth(step, step(Accrued(cards, epsilon)), maxMonths, epsilon, months + 1, interest, MonthInterest(cards, epsilon), history)
  }

  /** The rest of the run once month `month` has accrued `mi` and its
      allocation has ended in `m`: the `break`, an exception, or the next
      month from the new balances with this month's snapshot recorded. */
  function AfterMonth(step: seq<Card> -> Month, m: Month, maxMonths: int, epsilon: real,
                      month: nat, interest: real, mi: real, history: seq<Snapshot>): Result<SimResult>
    requires month <= maxMonths
    decreases maxMonths - month + 1, 0
  {
    match m
    case Stop => Ok(PaidOff(month, interest + mi, history))
    case Raised(e) => Err(e)
    case Paid(next) =>
      BudgetRun(step, next, maxMonths, epsilon, month, interest + mi,
                history + [Snapshot(month, mi, interest + mi, BalanceView(next), TotalBalance(next))])
  }

  /** The result of `simulate_payoff_total_budget`. A non-positive budget is
      a ValueError before anything else; an unknown strategy is only noticed
      after the first month's accrual, so it raises nothing when the cards
      are already paid off or the cap allows no month. */
  function TotalBudgetPayoff(cards: seq<Card>, budget: real, strategy: string, maxMonths: int, epsilon: real): (r: Result<SimResult>)
    ensures budget <= 0.0 ==> r == Err(ValueError)
    ensures budget > 0.0 && TotalBalance(cards) <= epsilon ==> r == Ok(PaidOff(0, 0.0, []))
    ensures budget > 0.0 && TotalBalance(cards) > epsilon && maxMonths < 1 ==> r == Ok(NotPaidOff(1, 0.0, []))
    ensures budget > 0.0 && TotalBalance(cards) > epsilon && maxMonths >= 1 && ParseStrategy(strategy).None?
      ==> r == Err(ValueError)
  {
    if budget <= 0.0 then Err(ValueError)
    else
      var step := MonthStep(strategy, budget, epsilon);
      assert TotalBalance(cards) > epsilon && maxMonths >= 1 && ParseStrategy(strategy).None?
          ==> BudgetRun(step, cards, maxMonths, epsilon, 0, 0.0, []) == Err(ValueError) by {
        if TotalBalance(cards) > epsilon && maxMonths >= 1 && ParseStrategy(strategy).None? {
          BudgetRunRaised(step, cards, maxMonths, epsilon, 0, 0.0, [], ValueError);
        }
      }
      BudgetRun(step, cards, maxMonths, epsilon, 0, 0.0, [])
  }

  /** A run whose cards are paid off ends at once. */
  lemma BudgetRunDone(step: seq<Card> -> Month, cards: seq<Card>, maxMonths: int, epsilon: real,
                      months: nat, interest: real, history: seq<Snapshot>)
    requires TotalBalance(cards) <= epsilon
    ensures BudgetRun(step, cards, maxMonths, epsilon, months, interest, history) == Ok(PaidOff(months, interest, history))
  {
  }

  /** A run that reaches the cap ends without paying off. */
  lemma BudgetRunCap(step: seq<Card> -> Month, cards: seq<Card>, maxMonths: int, epsilon: real,
                     months: nat, interest: real, history: seq<Snapshot>)
    requires TotalBalance(cards) > epsilon && months + 1 > maxMonths
    ensures BudgetRun(step, cards, maxMonths, epsilon, months, interest, history) == Ok(NotPaidOff(months + 1, interest, history))
  {
  }

  /** One month of the loop that the proportional `break` ends. */
  lemma BudgetRunStop(step: seq<Card> -> Month, cards: seq<Card>, maxMonths: int, epsilon: real,
                      months: nat, interest: real, history: seq<Snapshot>)
    requires TotalBalance(cards) > epsilon && months + 1 <= maxMonths && step(Accrued(cards, epsilon)) == Stop
    ensures BudgetRun(step, cards, maxMonths, epsilon, months, interest, history)
      == Ok(PaidOff(months + 1, interest + MonthInterest(cards, epsilon), history))
  {
  }

  /** A month whose allocation raises ends the run with that exception. */
  lemma BudgetRunRaised(step: seq<Card> -> Month, cards: seq<Card>, maxMonths: int, epsilon: real,
                        months: nat, interest: real, history: seq<Snapshot>, e: Error)
    requires TotalBalance(cards) > epsilon && months + 1 <= maxMonths && step(Accrued(cards, epsilon)) == Raised(e)
    ensures BudgetRun(step, cards, maxMonths, epsilon, months, interest, history) == Err(e)
  {
  }

  /** One month of the loop that pays and goes on. */
  lemma BudgetRunPaid(step: seq<Card> -> Month, cards: seq<Card>, maxMonths: int, epsilon: real,
                      months: nat, interest: real, history: seq<Snapshot>, next: seq<Card>)
    requires TotalBalance(cards) > epsilon && months + 1 <= maxMonths && step(Accrued(cards, epsilon)) == Paid(next)
    ensures var mi := MonthInterest(cards, epsilon);
      BudgetRun(step, cards, maxMonths, epsilon, months, interest, history)
      == BudgetRun(step, next, maxMonths, epsilon, months + 1, interest + mi,
                   history + [Snapshot(months + 1, mi, interest + mi, BalanceView(next), TotalBalance(next))])
  {
  }

  /** The general frame of one month: whatever the strategy, a month that
      pays touches no inactive card, keeps every name and APR, and leaves each
      balance between zero and what it was. */
  lemma AllocateMonthFrame(strategy: string, acc: seq<Card>, budget: real, epsilon: real)
    requires epsilon >= 0.0 && budget >= 0.0
    requires forall j :: 0 <= j < |acc| ==> acc[j].balance >= 0.0
    ensures var m := AllocateMonth(strategy, acc, budget, epsilon);
      m.Paid? ==> |m.cards| == |acc| && forall j :: 0 <= j < |acc| ==>
        && m.cards[j].name == acc[j].name && m.cards[j].apr == acc[j].apr
        && 0.0 <= m.cards[j].balance <= acc[j].balance
        && (acc[j].balance <= epsilon ==> m.cards[j] == acc[j])
  {
    match ParseStrategy(strategy)
    case None =>
    case Some(s) =>
      if s == Proportional {
        ProportionalMonthFrame(acc, budget, epsilon);
      } else {
        InOrderMonthFrame(strategy, s, acc, budget, epsilon);
      }
  }

  /** No accrued cards make the step end the run with the proportional
      `break`. */
  ghost predicate NeverStops(step: seq<Card> -> Month)
  {
    forall acc: seq<Card> :: !step(acc).Stop?
  }

  /** Only the proportional strategy ever breaks out of the loop. */
  lemma InOrderNeverStops(strategy: string, budget: real, epsilon: real)
    requires strategy != "proportional"
    ensures NeverStops(MonthStep(strategy, budget, epsilon))
  {
    forall acc: seq<Card>
      ensures !MonthStep(strategy, budget, epsilon)(acc).Stop?
    {
      assert MonthStep(strategy, budget, epsilon)(acc) == AllocateMonth(strategy, acc, budget, epsilon);
    }
  }

  /** A step that keeps balances and APRs non-negative on any accrued cards
      whose balances and APRs are non-negative. */
  ghost predicate KeepsNonNegative(step: seq<Card> -> Month)
  {
    forall acc: seq<Card> :: NonNegativeCards(acc) && step(acc).Paid? ==> NonNegativeCards(step(acc).cards)
  }

  /** With a non-negative budget and epsilon every strategy's month keeps
      balances and APRs non-negative. */
  lemma MonthStepKeepsNonNegative(strategy: string, budget: real, epsilon: real)
    requires epsilon >= 0.0 && budget >= 0.0
    ensures KeepsNonNegative(MonthStep(strategy, budget, epsilon))
  {
    var step := MonthStep(strategy, budget, epsilon);
    forall acc: seq<Card> | NonNegativeCards(acc) && step(acc).Paid?
      ensures NonNegativeCards(step(acc).cards)
    {
      assert step(acc) == AllocateMonth(strategy, acc, budget, epsilon);
      AllocateMonthFrame(strategy, acc, budget, epsilon);
    }
  }

  /** The interest recorded by a history, month after month. */
  function SumInterest(h: seq<Snapshot>): real
  {
    if h == [] then 0.0 else SumInterest(h[..|h| - 1]) + h[|h| - 1].interest
  }

  /** Entry k of a history is month k + 1, and its interest to date is the
      sum of the interest of months 1 to k + 1. */
  predicate Ledger(h: seq<Snapshot>)
  {
    forall k :: 0 <= k < |h| ==> h[k].month == k + 1 && h[k].interestToDate == SumInterest(h[..k + 1])
  }

  /** Appending the next month's snapshot, with the running interest total,
      keeps a history a ledger. */
  lemma LedgerAppend(history: seq<Snapshot>, snap: Snapshot)
    requires Ledger(history) && snap.month == |history| + 1
    requires snap.interestToDate == SumInterest(history) + snap.interest
    ensures Ledger(history + [snap])
  {
    var h := history + [snap];
    forall k | 0 <= k < |h|
      ensures h[k].month == k + 1 && h[k].interestToDate == SumInterest(h[..k + 1])
    {
      if k < |history| {
        assert h[..k + 1] == history[..k + 1];
      } else {
        assert h[..k + 1] == h && h[..|h| - 1] == history;
      }
    }
  }

  /** Two allocation steps that agree on every list of cards. */
  ghost predicate SameSteps(f: seq<Card> -> Month, g: seq<Card> -> Month)
  {
    forall acc: seq<Card> :: f(acc) == g(acc)
  }

  /** The month loop depends on its allocation step only through the step's
      results. */
  lemma {:induction false} BudgetRunSameSteps(f: seq<Card> -> Month, g: seq<Card> -> Month, cards: seq<Card>, maxMonths: int,
                                              epsilon: real, months: nat, interest: real, history: seq<Snapshot>)
    requires SameSteps(f, g)
    decreases maxMonths - months
    ensures BudgetRun(f, cards, maxMonths, epsilon, months, interest, history)
      == BudgetRun(g, cards, maxMonths, epsilon, months, interest, history)
  {
    if TotalBalance(cards) > epsilon && months + 1 <= maxMonths {
      var acc := Accrued(cards, epsilon);
      var mi := MonthInterest(cards, epsilon);
      assert f(acc) == g(acc);
      match f(acc)
      case Stop =>
        BudgetRunStop(f, cards, maxMonths, epsilon, months, interest, history);
        BudgetRunStop(g, cards, maxMonths, epsilon, months, interest, history);
      case Raised(e) =>
        BudgetRunRaised(f, cards, maxMonths, epsilon, months, interest, history, e);
        BudgetRunRaised(g, cards, maxMonths, epsilon, months, interest, history, e);
      case Paid(next) =>
        var h := history + [Snapshot(months + 1, mi, interest + mi, BalanceView(next), TotalBalance(next))];
        BudgetRunPaid(f, cards, maxMonths, epsilon, months, interest, history, next);
        BudgetRunPaid(g, cards, maxMonths, epsilon, months, interest, history, next);
        BudgetRunSameSteps(f, g, next, maxMonths, epsilon, months + 1, interest + mi, h);
    }
  }

  /** The history of every result of the month loop is a ledger that
      extends the history so far. */
  lemma {:induction false} BudgetRunLedger(step: seq<Card> -> Month, cards: seq<Card>, maxMonths: int, epsilon: real,
                                           months: nat, interest: real, history: seq<Snapshot>)
    requires |history| == months && Ledger(history) && interest == SumInterest(history)
    decreases maxMonths - months
    ensures var r := BudgetRun(step, cards, maxMonths, epsilon, months, interest, history);
      r.Ok? ==> Ledger(r.value.history) && history <= r.value.history
  {
    if TotalBalance(cards) > epsilon && months + 1 <= maxMonths {
      var mi := MonthInterest(cards, epsilon);
      match step(Accrued(cards, epsilon))
      case Stop =>
      case Raised(e) =>
      case Paid(next) =>
        var h := history + [Snapshot(months + 1, mi, interest + mi, BalanceView(next), TotalBalance(next))];
        LedgerAppend(history, Snapshot(months + 1, mi, interest + mi, BalanceView(next), TotalBalance(next)));
        assert h[..|h| - 1] == history && history <= h;
        BudgetRunLedger(step, next, maxMonths, epsilon, months + 1, interest + mi, h);
    }
  }

  /** A run cut off by the cap reports the cap plus one months, a snapshot
      for every month before, and the interest those snapshots record. */
  lemma {:induction false} BudgetRunCapped(step: seq<Card> -> Month, cards: seq<Card>, maxMonths: int, epsilon: real,
                                           months: nat, interest: real, history: seq<Snapshot>)
    requires |history| == months <= Cap(maxMonths) && interest == SumInterest(history)
    decreases maxMonths - months
    ensures var r := BudgetRun(step, cards, maxMonths, epsilon, months, interest, history);
      r.Ok? && r.value.NotPaidOff? ==>
        && r.value.months == Cap(maxMonths) + 1 && |r.value.history| == r.value.months - 1
        && r.value.totalInterest == SumInterest(r.value.history)
  {
    if TotalBalance(cards) > epsilon && months + 1 <= maxMonths {
      var mi := MonthInterest(cards, epsilon);
      match step(Accrued(cards, epsilon))
      case Stop =>
      case Raised(e) =>
      case Paid(next) =>
        var h := history + [Snapshot(months + 1, mi, interest + mi, BalanceView(next), TotalBalance(next))];
        assert h[..|h| - 1] == history;
        BudgetRunCapped(step, next, maxMonths, epsilon, months + 1, interest + mi, h);
    }
  }

  /** A paid-off run reports at most the cap in months and a snapshot per
      month, except for a step that breaks out of the loop, whose month has
      no snapshot. */
  lemma {:induction false} BudgetRunPaidOffMonths(step: seq<Card> -> Month, cards: seq<Card>, maxMonths: int, epsilon: real,
                                                  months: nat, interest: real, history: seq<Snapshot>)
    requires |history| == months <= Cap(maxMonths)
    decreases maxMonths - months
    ensures var r := BudgetRun(step, cards, maxMonths, epsilon, months, interest, history);
      r.Ok? && r.value.PaidOff? ==>
        && months <= r.value.months <= Cap(maxMonths)
        && (|r.value.history| == r.value.months || (|r.value.history| == r.value.months - 1 && !NeverStops(step)))
  {
    if TotalBalance(cards) > epsilon && months + 1 <= maxMonths {
      var mi := MonthInterest(cards, epsilon);
      match step(Accrued(cards, epsilon))
      case Stop =>
        assert step(Accrued(cards, epsilon)).Stop?;
      case Raised(e) =>
      case Paid(next) =>
        var h := history + [Snapshot(months + 1, mi, interest + mi, BalanceView(next), TotalBalance(next))];
        BudgetRunPaidOffMonths(step, next, maxMonths, epsilon, months + 1, interest + mi, h);
    }
  }

  /** A paid-off run with a snapshot per month records all the interest it
      reports, and ends at or below epsilon: the last snapshot's total, or the
      cards themselves when no month ran. */
  lemma {:induction false} BudgetRunPaidOffLast(step: seq<Card> -> Month, cards: seq<Card>, maxMonths: int, epsilon: real,
                                                months: nat, interest: real, history: seq<Snapshot>)
    requires |history| == months && interest == SumInterest(history)
    requires history != [] ==> history[months - 1].totalBalance == TotalBalance(cards)
    decreases maxMonths - months
    ensures var r := BudgetRun(step, cards, maxMonths, epsilon, months, interest, history);
      r.Ok? && r.value.PaidOff? && |r.value.history| == r.value.months ==>
        && r.value.totalInterest == SumInterest(r.value.history)
        && (r.value.months == 0 ==> TotalBalance(cards) <= epsilon)
        && (r.value.months > 0 ==> r.value.history[r.value.months - 1].totalBalance <= epsilon)
  {
    if TotalBalance(cards) > epsilon && months + 1 <= maxMonths {
      var mi := MonthInterest(cards, epsilon);
      match step(Accrued(cards, epsilon))
      case Stop =>
      case Raised(e) =>
      case Paid(next) =>
        var snap := Snapshot(months + 1, mi, interest + mi, BalanceView(next), TotalBalance(next));
        var h := history + [snap];
        assert h[..|h| - 1] == history;
        assert h[months] == snap;
        BudgetRunPaidOffLast(step, next, maxMonths, epsilon, months + 1, interest + mi, h);
    }
  }

  /** Every exception a run raises is one its step raised. */
  lemma {:induction false} BudgetRunRaisesStepError(step: seq<Card> -> Month, cards: seq<Card>, maxMonths: int, epsilon: real,
                                                    months: nat, interest: real, history: seq<Snapshot>)
    decreases maxMonths - months
    ensures var r := BudgetRun(step, cards, maxMonths, epsilon, months, interest, history);
      r.Err? ==> exists acc :: step(acc) == Raised(r.error)
  {
    if TotalBalance(cards) > epsilon && months + 1 <= maxMonths {
      var mi := MonthInterest(cards, epsilon);
      match step(Accrued(cards, epsilon))
      case Stop =>
      case Raised(e) =>
        assert step(Accrued(cards, epsilon)) == Raised(e);
      case Paid(next) =>
        BudgetRunRaisesStepError(step, next, maxMonths, epsilon, months + 1, interest + mi,
                                 history + [Snapshot(months + 1, mi, interest + mi, BalanceView(next), TotalBalance(next))]);
    }
  }

  /** No month of the history has negative interest or a negative total. */
  predicate NonNegativeHistory(h: seq<Snapshot>)
  {
    forall k :: 0 <= k < |h| ==> h[k].interest >= 0.0 && h[k].totalBalance >= 0.0
  }

  /** With non-negative balances and APRs, and a step that keeps them so, no
      month's interest, no recorded total and no interest to date is ever
      negative, and the interest paid never falls. */
  lemma {:induction false} BudgetRunInterest(step: seq<Card> -> Month, cards: seq<Card>, maxMonths: int, epsilon: real,
                                             months: nat, interest: real, history: seq<Snapshot>)
    requires interest >= 0.0 && KeepsNonNegative(step) && NonNegativeCards(cards)
    requires NonNegativeHistory(history)
    decreases maxMonths - months
    ensures var r := BudgetRun(step, cards, maxMonths, epsilon, months, interest, history);
      r.Ok? ==>
        && r.value.totalInterest >= interest
        && NonNegativeHistory(r.value.history)
  {
    if TotalBalance(cards) > epsilon && months + 1 <= maxMonths {
      var mi := MonthInterest(cards, epsilon);
      var acc := Accrued(cards, epsilon);
      AccrualKeepsNonNegative(cards, epsilon);
      match step(acc)
      case Stop =>
        BudgetRunStop(step, cards, maxMonths, epsilon, months, interest, history);
      case Raised(e) =>
      case Paid(next) =>
        assert NonNegativeCards(next);
        TotalBalanceNonNegative(next);
        var snap := Snapshot(months + 1, mi, interest + mi, BalanceView(next), TotalBalance(next));
        var h := history + [snap];
        assert forall k :: 0 <= k < |h| ==> h[k] == snap || h[k] == history[k];
        assert NonNegativeHistory(h);
        BudgetRunPaid(step, cards, maxMonths, epsilon, months, interest, history, next);
        BudgetRunInterest(step, next, maxMonths, epsilon, months + 1, interest + mi, h);
    }
  }

  /** What every result of `simulate_payoff_total_budget` looks like: the
      history numbers the months from 1 and keeps a running interest total; a
      run cut off by the cap reports `max_months + 1` months (1 when the cap
      is negative) with a snapshot for each month before; a paid-off run
      reports at most `max_months` months, a snapshot per month with the last
      one at or below epsilon, except that a proportional run may end with
      one month it did not record. */
  lemma TotalBudgetHistory(cards: seq<Card>, budget: real, strategy: string, maxMonths: int, epsilon: real)
    ensures var r := TotalBudgetPayoff(cards, budget, strategy, maxMonths, epsilon);
      r.Ok? ==> Ledger(r.value.history)
    ensures var r := TotalBudgetPayoff(cards, budget, strategy, maxMonths, epsilon);
      r.Ok? && r.value.NotPaidOff? ==>
        && r.value.months == Cap(maxMonths) + 1 && |r.value.history| == r.value.months - 1
        && r.value.totalInterest == SumInterest(r.value.history)
    ensures var r := TotalBudgetPayoff(cards, budget, strategy, maxMonths, epsilon);
      r.Ok? && r.value.PaidOff? ==>
        && r.value.months <= Cap(maxMonths)
        && ((&& |r.value.history| == r.value.months
             && r.value.totalInterest == SumInterest(r.value.history)
             && (r.value.months == 0 ==> TotalBalance(cards) <= epsilon)
             && (r.value.months > 0 ==> r.value.history[r.value.months - 1].totalBalance <= epsilon))
            || (|r.value.history| == r.value.months - 1 && strategy == "proportional"))
  {
    if budget > 0.0 {
      var step := MonthStep(strategy, budget, epsilon);
      BudgetRunLedger(step, cards, maxMonths, epsilon, 0, 0.0, []);
      BudgetRunCapped(step, cards, maxMonths, epsilon, 0, 0.0, []);
      BudgetRunPaidOffMonths(step, cards, maxMonths, epsilon, 0, 0.0, []);
      BudgetRunPaidOffLast(step, cards, maxMonths, epsilon, 0, 0.0, []);
      if strategy != "proportional" {
        InOrderNeverStops(strategy, budget, epsilon);
      }
    }
  }

  /** `simulate_payoff_total_budget` raises a ValueError only for a
      non-positive budget or an unknown strategy, and a ZeroDivisionError
      only for the proportional strategy with a negative epsilon; it never
      raises a KeyError. */
  lemma TotalBudgetErrors(cards: seq<Card>, budget: real, strategy: string, maxMonths: int, epsilon: real)
    ensures var r := TotalBudgetPayoff(cards, budget, strategy, maxMonths, epsilon);
      r.Err? ==>
        || (r.error == ValueError && (budget <= 0.0 || ParseStrategy(strategy).None?))
        || (r.error == ZeroDivisionError && strategy == "proportional" && epsilon < 0.0)
  {
    if budget > 0.0 {
      var step := MonthStep(strategy, budget, epsilon);
      BudgetRunRaisesStepError(step, cards, maxMonths, epsilon, 0, 0.0, []);
      var r := TotalBudgetPayoff(cards, budget, strategy, maxMonths, epsilon);
      if r.Err? {
        var acc :| step(acc) == Raised(r.error);
        assert step(acc) == AllocateMonth(strategy, acc, budget, epsilon);
      }
    }
  }

  /** With non-negative balances, APRs and epsilon, no month's interest, no
      recorded total and no total interest is negative. Epsilon is at least
      zero here because balances are kept non-negative through the month
      frame of AllocateMonthFrame, whose avalanche and snowball case rests on
      the second pass being idle (SecondPassIdle). */
  lemma TotalBudgetInterest(cards: seq<Card>, budget: real, strategy: string, maxMonths: int, epsilon: real)
    requires epsilon >= 0.0 && NonNegativeCards(cards)
    ensures var r := TotalBudgetPayoff(cards, budget, strategy, maxMonths, epsilon);
      r.Ok? ==>
        && r.value.totalInterest >= 0.0
        && NonNegativeHistory(r.value.history)
  {
    if budget > 0.0 {
      MonthStepKeepsNonNegative(strategy, budget, epsilon);
      BudgetRunInterest(MonthStep(strategy, budget, epsilon), cards, maxMonths, epsilon, 0, 0.0, []);
    }
  }

  /** Every card owes at most epsilon, though their sum may be above it. */
  predicate AllDust(cards: seq<Card>, epsilon: real)
  {
    forall j :: 0 <= j < |cards| ==> cards[j].balance <= epsilon
  }

  /** Cards that all owe at most epsilon accrue nothing and none is active. */
  lemma DustMonth(cards: seq<Card>, epsilon: real)
    requires AllDust(cards, epsilon)
    ensures Accrued(cards, epsilon) == cards && MonthInterest(cards, epsilon) == 0.0
    ensures ActiveIndices(cards, epsilon) == []
  {
    AccruedTotal(cards, epsilon);
    assert Accrued(cards, epsilon) == cards;
    ActiveIndicesExact(cards, epsilon);
    NoMembersEmpty(ActiveIndices(cards, epsilon), |cards|);
  }

  /** A run on dust cards that the step leaves as they are repeats the same
      month to the cap, with no interest. */
  lemma {:induction false} BudgetRunStuck(step: seq<Card> -> Month, cards: seq<Card>, maxMonths: int, epsilon: real,
                                          months: nat, interest: real, history: seq<Snapshot>)
    requires AllDust(cards, epsilon) && step(cards) == Paid(cards)
    requires TotalBalance(cards) > epsilon && months <= Cap(maxMonths)
    decreases maxMonths - months
    ensures var r := BudgetRun(step, cards, maxMonths, epsilon, months, interest, history);
      r.Ok? && r.value.NotPaidOff? && r.value.months == Cap(maxMonths) + 1 && r.value.totalInterest == interest
  {
    DustMonth(cards, epsilon);
    if months + 1 <= maxMonths {
      BudgetRunPaid(step, cards, maxMonths, epsilon, months, interest, history, cards);
      BudgetRunStuck(step, cards, maxMonths, epsilon, months + 1, interest,
                     history + [Snapshot(months + 1, 0.0, interest, BalanceView(cards), TotalBalance(cards))]);
    } else {
      BudgetRunCap(step, cards, maxMonths, epsilon, months, interest, history);
    }
  }

  /** Avalanche and snowball never pay a card that owes at most epsilon, so
      when every card is such dust but the total is above epsilon the run
      goes on to the cap and reports "not paid off", with no interest. */
  lemma DustStallsInOrder(cards: seq<Card>, budget: real, strategy: string, maxMonths: int, epsilon: real)
    requires strategy == "avalanche" || strategy == "snowball"
    requires budget > 0.0 && AllDust(cards, epsilon) && TotalBalance(cards) > epsilon
    ensures var r := TotalBudgetPayoff(cards, budget, strategy, maxMonths, epsilon);
      r.Ok? && r.value.NotPaidOff? && r.value.months == Cap(maxMonths) + 1 && r.value.totalInterest == 0.0
  {
    var step := MonthStep(strategy, budget, epsilon);
    DustMonth(cards, epsilon);
    assert step(cards) == AllocateMonth(strategy, cards, budget, epsilon) == Paid(cards);
    BudgetRunStuck(step, cards, maxMonths, epsilon, 0, 0.0, []);
  }

  /** The proportional strategy, on the same dust cards, breaks out in the
      first month and reports them paid off, with an empty history. */
  lemma DustStopsProportional(cards: seq<Card>, budget: real, maxMonths: int, epsilon: real)
    requires budget > 0.0 && epsilon >= 0.0 && maxMonths >= 1
    requires AllDust(cards, epsilon) && TotalBalance(cards) > epsilon
    ensures TotalBudgetPayoff(cards, budget, "proportional", maxMonths, epsilon) == Ok(PaidOff(1, 0.0, []))
  {
    var step := MonthStep("proportional", budget, epsilon);
    DustMonth(cards, epsilon);
    assert step(cards) == AllocateMonth("proportional", cards, budget, epsilon) == Stop;
    BudgetRunStop(step, cards, maxMonths, epsilon, 0, 0.0, []);
  }

  /** The allocation step of one month (choosing the strategy, building the
      active list, sorting it, and the payment loops), in place on the accrued
      cards. `stop` is the proportional branch's `break`. */
  method AllocatePayments(a: array<Card>, strategy: string, monthlyBudget: real, epsilon: real)
    returns (stop: bool, err: Option<Error>)
    modifies a
    ensures AllocateMonth(strategy, old(a[..]), monthlyBudget, epsilon)
      == if stop then Stop else if err.Some? then Raised(err.value) else Paid(a[..])
  {
    stop, err := false, None;
    var remaining := monthlyBudget;
    var active := ActiveIndices(a[..], epsilon);
    var s: Strategy;
    if strategy == "avalanche" {
      s := Avalanche;
    } else if strategy == "snowball" {
      s := Snowball;
    } else if strategy == "proportional" {
      s := Proportional;
    } else {
      return false, Some(ValueError);
    }
    if s == Proportional {
      var totalBal := ActiveTotal(a[..], active);
      if totalBal <= epsilon {
        return true, None;
      }
      if active != [] && totalBal == 0.0 {
        return false, Some(ZeroDivisionError);
      }
      PayProportional(a, active, remaining, totalBal);
      remaining := 0.0;
    } else {
      var order := PayoffOrder(s, a[..], active);
      remaining := PayInOrder(a, order, remaining, epsilon);
      if remaining > epsilon {
        var active2 := ActiveIndices(a[..], epsilon);
        var order2 := PayoffOrder(s, a[..], active2);
        remaining := PayInOrder(a, order2, remaining, epsilon);
      }
    }
  }

  /** The body of one month after the cap check: accrual, then the month's
      allocation. */
  method PayMonth(a: array<Card>, strategy: string, monthlyBudget: real, epsilon: real)
    returns (monthInterest: real, stop: bool, err: Option<Error>)
    modifies a
    ensures monthInterest == MonthInterest(old(a[..]), epsilon)
    ensures MonthStep(strategy, monthlyBudget, epsilon)(Accrued(old(a[..]), epsilon))
      == if stop then Stop else if err.Some? then Raised(err.value) else Paid(a[..])
  {
    monthInterest := AccrueInterest(a, epsilon);
    stop, err := AllocatePayments(a, strategy, monthlyBudget, epsilon);
  }

  /** `simulate_payoff_total_budget`. The caller's cards are a value, so the
      run works on a fresh array copied from them. */
  method SimulatePayoffTotalBudget(cards: seq<Card>, monthlyBudget: real, strategy: string, maxMonths: int, epsilon: real)
    returns (r: Result<SimResult>)
    ensures r == TotalBudgetPayoff(cards, monthlyBudget, strategy, maxMonths, epsilon)
  {
    if monthlyBudget <= 0.0 {
      return Err(ValueError);
    }
    var a := new Card[|cards|](i requires 0 <= i < |cards| => cards[i]);
    assert a[..] == cards;
    var months: nat := 0;
    var totalInterest := 0.0;
    var history: seq<Snapshot> := [];
    ghost var step := MonthStep(strategy, monthlyBudget, epsilon);
    ghost var goal := BudgetRun(step, cards, maxMonths, epsilon, 0, 0.0, []);
    assert TotalBudgetPayoff(cards, monthlyBudget, strategy, maxMonths, epsilon) == goal;
    while TotalBalance(a[..]) > epsilon
      invariant BudgetRun(step, a[..], maxMonths, epsilon, months, totalInterest, history) == goal
      decreases maxMonths - months
    {
      ghost var start, done, paid := a[..], months, totalInterest;
      months := months + 1;
      if months > maxMonths {
        BudgetRunCap(step, start, maxMonths, epsilon, done, paid, history);
        assert goal == Ok(NotPaidOff(months, totalInterest, history));
        return Ok(NotPaidOff(months, totalInterest, history));
      }
      var monthInterest, stop, err := PayMonth(a, strategy, monthlyBudget, epsilon);
      totalInterest := totalInterest + monthInterest;
      if stop {
        BudgetRunStop(step, start, maxMonths, epsilon, done, paid, history);
        assert goal == Ok(PaidOff(months, totalInterest, history));
        return Ok(PaidOff(months, totalInterest, history));
      }
      if err.Some? {
        BudgetRunRaised(step, start, maxMonths, epsilon, done, paid, history, err.value);
        assert goal == Err(err.value);
        return Err(err.value);
      }
      var next := a[..];
      BudgetRunPaid(step, start, maxMonths, epsilon, done, paid, history, next);
      history := history + [Snapshot(months, monthInterest, totalInterest, BalanceView(next), TotalBalance(next))];
    }
    BudgetRunDone(step, a[..], maxMonths, epsilon, months, totalInterest, history);
    r := Ok(PaidOff(months, totalInterest, history));
  }
}
