/** `simulate_payoff_manual_payments` of debt_calculator.py: a fixed payment
    per card name each month, on a private copy of the cards. The month loop
    is the one of the budget simulation; only the allocation step differs. */
module ManualSimulation {
  import opened Cards
  import opened Allocation
  import opened BudgetSimulation

  /** The position of the last card with the given name, if any: the card
      `{c.name: c for c in cards}` keeps for that name. */
  function LastMatch(cards: seq<Card>, name: string): (r: Option<nat>)
    ensures r.Some? ==> r.value < |cards| && cards[r.value].name == name
  {
    if cards == [] then None
    else
      var n := |cards| - 1;
      if cards[n].name == name then Some(n) else LastMatch(cards[..n], name)
  }

  /** The match found is the last card with the name, and there is none
      exactly when no card has the name. */
  lemma {:induction false} LastMatchExact(cards: seq<Card>, name: string)
    ensures var r := LastMatch(cards, name);
      r.Some? ==> forall j :: r.value < j < |cards| ==> cards[j].name != name
    ensures LastMatch(cards, name).None? <==> forall j :: 0 <= j < |cards| ==> cards[j].name != name
  {
    if cards != [] {
      var n := |cards| - 1;
      if cards[n].name != name {
        LastMatchExact(cards[..n], name);
        assert forall j :: 0 <= j < n ==> cards[..n][j] == cards[j];
      }
    }
  }

  /** Two lists of the same length whose cards carry the same names. */
  predicate SameNames(c: seq<Card>, d: seq<Card>)
  {
    |c| == |d| && forall j :: 0 <= j < |c| ==> c[j].name == d[j].name
  }

  /** The last card with a name depends only on the names. */
  lemma {:induction false} LastMatchSameNames(c: seq<Card>, d: seq<Card>, name: string)
    requires SameNames(c, d)
    ensures LastMatch(c, name) == LastMatch(d, name)
  {
    if c != [] {
      var n := |c| - 1;
      if c[n].name != name {
        assert SameNames(c[..n], d[..n]);
        LastMatchSameNames(c[..n], d[..n], name);
      }
    }
  }

  /** `name_to_card`: each name mapped to the position of its last card. */
  function NameIndex(cards: seq<Card>): map<string, nat>
  {
    if cards == [] then map[]
    else
      var n := |cards| - 1;
      NameIndex(cards[..n])[cards[n].name := n]
  }

  /** The name index holds exactly the card names, each mapped to its last
      card. */
  lemma {:induction false} NameIndexIsLastMatch(cards: seq<Card>, name: string)
    ensures name in NameIndex(cards) <==> LastMatch(cards, name).Some?
    ensures name in NameIndex(cards) ==> NameIndex(cards)[name] == LastMatch(cards, name).value
  {
    if cards != [] {
      var n := |cards| - 1;
      if cards[n].name != name {
        assert forall j :: 0 <= j < n ==> cards[..n][j] == cards[j];
        NameIndexIsLastMatch(cards[..n], name);
      }
    }
  }

  /** One card after its manual payment: paid `min(balance, amount)` only
      when it is above epsilon and the amount is positive. The card absorbs
      at most the payment, never goes below zero, and either takes the whole
      payment or is paid off; surplus is simply dropped. */
  function ManualPay(c: Card, amount: real, epsilon: real): (d: Card)
    ensures d.name == c.name && d.apr == c.apr
    ensures c.balance >= 0.0 ==> 0.0 <= d.balance <= c.balance
    ensures amount >= 0.0 ==> c.balance - d.balance <= amount
    ensures d.balance == c.balance || d.balance == 0.0 || c.balance - d.balance == amount
    ensures d != c ==> c.balance > epsilon && amount > 0.0
    ensures c.balance > Max(epsilon, 0.0) && amount > 0.0 ==> d.balance < c.balance
  {
    if c.balance > epsilon && amount > 0.0 then c.(balance := c.balance - Min(c.balance, amount)) else c
  }

  /** The payment loop of one month, entry by entry in the order of the
      payments: an unknown name is a KeyError. */
  function PayEach(cards: seq<Card>, payments: seq<(string, real)>, epsilon: real): (r: Result<seq<Card>>)
    ensures r.Err? ==> r.error == KeyError
    ensures r.Ok? ==> |r.value| == |cards|
    decreases |payments|
  {
    if payments == [] then Ok(cards)
    else match LastMatch(cards, payments[0].0)
      case None => Err(KeyError)
      case Some(i) => PayEach(cards[i := ManualPay(cards[i], payments[0].1, epsilon)], payments[1..], epsilon)
  }

  /** The payments keep every name. */
  lemma {:induction false} PayEachKeepsNames(cards: seq<Card>, payments: seq<(string, real)>, epsilon: real)
    decreases |payments|
    ensures var r := PayEach(cards, payments, epsilon);
      r.Ok? ==> SameNames(cards, r.value)
  {
    if payments != [] && LastMatch(cards, payments[0].0).Some? {
      var i := LastMatch(cards, payments[0].0).value;
      PayEachKeepsNames(cards[i := ManualPay(cards[i], payments[0].1, epsilon)], payments[1..], epsilon);
    }
  }

  /** Every payment names some card. */
  predicate AllNamed(payments: seq<(string, real)>, cards: seq<Card>)
  {
    forall k :: 0 <= k < |payments| ==> LastMatch(cards, payments[k].0).Some?
  }

  /** The payment loop raises exactly when some payment names no card. */
  lemma {:induction false} PayEachFails(cards: seq<Card>, payments: seq<(string, real)>, epsilon: real)
    decreases |payments|
    ensures PayEach(cards, payments, epsilon).Err? <==> !AllNamed(payments, cards)
  {
    if payments != [] {
      match LastMatch(cards, payments[0].0)
      case None =>
      case Some(i) =>
        var next := cards[i := ManualPay(cards[i], payments[0].1, epsilon)];
        PayEachFails(next, payments[1..], epsilon);
        forall k | 0 <= k < |payments[1..]|
          ensures LastMatch(next, payments[1..][k].0) == LastMatch(cards, payments[k + 1].0)
        {
          LastMatchSameNames(next, cards, payments[k + 1].0);
        }
        assert AllNamed(payments, cards) <==> AllNamed(payments[1..], next);
    }
  }

  /** The amount of the first payment to the given name, if any. */
  function AmountFor(payments: seq<(string, real)>, name: string): Option<real>
  {
    if payments == [] then None
    else if payments[0].0 == name then Some(payments[0].1)
    else AmountFor(payments[1..], name)
  }

  /** The names of the payments are pairwise different, as the keys of a
      dict are. */
  predicate DistinctNames(payments: seq<(string, real)>)
  {
    forall k, l :: 0 <= k < l < |payments| ==> payments[k].0 != payments[l].0
  }

  /** What one month's payments do: the last card with each paid name gets
      that name's payment, capped at its balance, and every other card,
      earlier cards of the same name included, is left as it was; surplus
      does not roll over to other cards. */
  lemma {:induction false} PayEachEffect(cards: seq<Card>, payments: seq<(string, real)>, epsilon: real)
    requires AllNamed(payments, cards) && DistinctNames(payments)
    decreases |payments|
    ensures PayEach(cards, payments, epsilon).Ok?
    ensures var r := PayEach(cards, payments, epsilon).value;
      |r| == |cards| && forall j :: 0 <= j < |cards| ==>
        r[j] == if LastMatch(cards, cards[j].name) == Some(j) && AmountFor(payments, cards[j].name).Some?
                then ManualPay(cards[j], AmountFor(payments, cards[j].name).value, epsilon)
                else cards[j]
  {
    PayEachFails(cards, payments, epsilon);
    PayEachKeepsNames(cards, payments, epsilon);
    if payments != [] {
      var i := LastMatch(cards, payments[0].0).value;
      var next := cards[i := ManualPay(cards[i], payments[0].1, epsilon)];
      var tail := payments[1..];
      forall k | 0 <= k < |tail|
        ensures LastMatch(next, tail[k].0).Some?
      {
        LastMatchSameNames(next, cards, payments[k + 1].0);
      }
      PayEachEffect(next, tail, epsilon);
      var r := PayEach(cards, payments, epsilon).value;
      assert r == PayEach(next, tail, epsilon).value;
      forall j | 0 <= j < |cards|
        ensures r[j] == if LastMatch(cards, cards[j].name) == Some(j) && AmountFor(payments, cards[j].name).Some?
                        then ManualPay(cards[j], AmountFor(payments, cards[j].name).value, epsilon)
                        else cards[j]
      {
        var name := cards[j].name;
        LastMatchSameNames(next, cards, name);
        assert next[j].name == name;
        if name == payments[0].0 {
          AmountForAbsent(tail, name);
          assert AmountFor(payments, name) == Some(payments[0].1);
        } else {
          assert AmountFor(payments, name) == AmountFor(tail, name);
          assert next[j] == cards[j];
        }
      }
    }
  }

  /** A name that no entry carries has no amount. */
  lemma {:induction false} AmountForAbsent(payments: seq<(string, real)>, name: string)
    requires forall k :: 0 <= k < |payments| ==> payments[k].0 != name
    ensures AmountFor(payments, name).None?
  {
    if payments != [] {
      AmountForAbsent(payments[1..], name);
    }
  }

  /** The manual allocation step, as a function of the accrued cards. */
  function ManualStep(payments: seq<(string, real)>, epsilon: real): seq<Card> -> Month
  {
    acc => match PayEach(acc, payments, epsilon)
           case Err(e) => Raised(e)
           case Ok(next) => Paid(next)
  }

  /** Some payment is negative. */
  predicate HasNegative(payments: seq<(string, real)>)
  {
    exists k :: 0 <= k < |payments| && payments[k].1 < 0.0
  }

  /** The result of `simulate_payoff_manual_payments`: a negative payment is
      a ValueError before anything else; a payment to an unknown card is a
      KeyError, but only once a month runs. */
  function ManualPayoff(cards: seq<Card>, payments: seq<(string, real)>, maxMonths: int, epsilon: real): (r: Result<SimResult>)
    ensures HasNegative(payments) ==> r == Err(ValueError)
    ensures !HasNegative(payments) && TotalBalance(cards) <= epsilon ==> r == Ok(PaidOff(0, 0.0, []))
    ensures !HasNegative(payments) && TotalBalance(cards) > epsilon && maxMonths < 1 ==> r == Ok(NotPaidOff(1, 0.0, []))
  {
    if HasNegative(payments) then Err(ValueError)
    else BudgetRun(ManualStep(payments, epsilon), cards, maxMonths, epsilon, 0, 0.0, [])
  }

  /** A month whose payments all name a card pays, and the cards it leaves
      still carry every name. */
  lemma ManualMonthNamed(payments: seq<(string, real)>, cards: seq<Card>, epsilon: real)
    requires AllNamed(payments, cards)
    ensures var m := ManualStep(payments, epsilon)(Accrued(cards, epsilon));
      m.Paid? && AllNamed(payments, m.cards)
  {
    var acc := Accrued(cards, epsilon);
    AccruedTotal(cards, epsilon);
    forall k | 0 <= k < |payments|
      ensures LastMatch(acc, payments[k].0).Some?
    {
      LastMatchSameNames(acc, cards, payments[k].0);
    }
    PayEachFails(acc, payments, epsilon);
    var next := PayEach(acc, payments, epsilon).value;
    PayEachKeepsNames(acc, payments, epsilon);
    forall k | 0 <= k < |payments|
      ensures LastMatch(next, payments[k].0).Some?
    {
      LastMatchSameNames(next, acc, payments[k].0);
    }
  }

  /** A run whose payments all name a card never raises: accrual and
      payments keep every name. */
  lemma {:induction false} ManualRunNoError(payments: seq<(string, real)>, cards: seq<Card>, maxMonths: int, epsilon: real,
                                            months: nat, interest: real, history: seq<Snapshot>)
    requires AllNamed(payments, cards)
    decreases maxMonths - months
    ensures BudgetRun(ManualStep(payments, epsilon), cards, maxMonths, epsilon, months, interest, history).Ok?
  {
    var step := ManualStep(payments, epsilon);
    if TotalBalance(cards) > epsilon && months + 1 <= maxMonths {
      var mi := MonthInterest(cards, epsilon);
      ManualMonthNamed(payments, cards, epsilon);
      var next := step(Accrued(cards, epsilon)).cards;
      BudgetRunPaid(step, cards, maxMonths, epsilon, months, interest, history, next);
      ManualRunNoError(payments, next, maxMonths, epsilon, months + 1, interest + mi,
                       history + [Snapshot(months + 1, mi, interest + mi, BalanceView(next), TotalBalance(next))]);
    }
  }

  /** `simulate_payoff_manual_payments` raises a ValueError exactly when a
      payment is negative, and a KeyError exactly when none is, some payment
      names no card and at least one month runs. */
  lemma ManualPayoffErrors(cards: seq<Card>, payments: seq<(string, real)>, maxMonths: int, epsilon: real)
    ensures ManualPayoff(cards, payments, maxMonths, epsilon) == Err(ValueError) <==> HasNegative(payments)
    ensures ManualPayoff(cards, payments, maxMonths, epsilon) == Err(KeyError)
      <==> !HasNegative(payments) && !AllNamed(payments, cards) && TotalBalance(cards) > epsilon && maxMonths >= 1
  {
    var r := ManualPayoff(cards, payments, maxMonths, epsilon);
    if !HasNegative(payments) {
      var step := ManualStep(payments, epsilon);
      BudgetRunRaisesStepError(step, cards, maxMonths, epsilon, 0, 0.0, []);
      if r.Err? {
        var acc :| step(acc) == Raised(r.error);
      }
      if AllNamed(payments, cards) {
        ManualRunNoError(payments, cards, maxMonths, epsilon, 0, 0.0, []);
      } else if TotalBalance(cards) > epsilon && maxMonths >= 1 {
        var acc := Accrued(cards, epsilon);
        AccruedTotal(cards, epsilon);
        forall k | 0 <= k < |payments|
          ensures LastMatch(acc, payments[k].0) == LastMatch(cards, payments[k].0)
        {
          LastMatchSameNames(acc, cards, payments[k].0);
        }
        PayEachFails(acc, payments, epsilon);
        BudgetRunRaised(step, cards, maxMonths, epsilon, 0, 0.0, [], KeyError);
      }
    }
  }

  /** The manual step never breaks out of the loop. */
  lemma ManualNeverStops(payments: seq<(string, real)>, epsilon: real)
    ensures NeverStops(ManualStep(payments, epsilon))
  {
    forall acc: seq<Card>
      ensures !ManualStep(payments, epsilon)(acc).Stop?
    {
      match PayEach(acc, payments, epsilon)
      case Err(e) =>
      case Ok(next) =>
    }
  }

  /** The history of a manual run is a ledger of months 1, 2, ..., one entry
      per month that ran; a run that reaches the cap reports
      `max_months + 1` months (1 when the cap is negative); a run that pays off ends on a snapshot whose
      total is at most epsilon, and the interest reported is the sum over the
      history. */
  lemma ManualPayoffHistory(cards: seq<Card>, payments: seq<(string, real)>, maxMonths: int, epsilon: real)
    ensures var r := ManualPayoff(cards, payments, maxMonths, epsilon);
      r.Ok? ==> Ledger(r.value.history) && r.value.totalInterest == SumInterest(r.value.history)
    ensures var r := ManualPayoff(cards, payments, maxMonths, epsilon);
      r.Ok? && r.value.NotPaidOff? ==>
        r.value.months == Cap(maxMonths) + 1 && |r.value.history| == r.value.months - 1
    ensures var r := ManualPayoff(cards, payments, maxMonths, epsilon);
      r.Ok? && r.value.PaidOff? ==>
        && r.value.months <= Cap(maxMonths) && |r.value.history| == r.value.months
        && (r.value.months == 0 ==> TotalBalance(cards) <= epsilon)
        && (r.value.months > 0 ==> r.value.history[r.value.months - 1].totalBalance <= epsilon)
  {
    if !HasNegative(payments) {
      var step := ManualStep(payments, epsilon);
      ManualNeverStops(payments, epsilon);
      BudgetRunLedger(step, cards, maxMonths, epsilon, 0, 0.0, []);
      BudgetRunCapped(step, cards, maxMonths, epsilon, 0, 0.0, []);
      BudgetRunPaidOffMonths(step, cards, maxMonths, epsilon, 0, 0.0, []);
      BudgetRunPaidOffLast(step, cards, maxMonths, epsilon, 0, 0.0, []);
    }
  }

  /** Manual payments keep balances and APRs non-negative. */
  lemma {:induction false} PayEachKeepsNonNegative(cards: seq<Card>, payments: seq<(string, real)>, epsilon: real)
    requires NonNegativeCards(cards)
    decreases |payments|
    ensures var r := PayEach(cards, payments, epsilon);
      r.Ok? ==> NonNegativeCards(r.value)
  {
    if payments != [] && LastMatch(cards, payments[0].0).Some? {
      var i := LastMatch(cards, payments[0].0).value;
      var next := cards[i := ManualPay(cards[i], payments[0].1, epsilon)];
      assert NonNegativeCards(next);
      PayEachKeepsNonNegative(next, payments[1..], epsilon);
    }
  }

  /** With non-negative balances and APRs, a manual run reports non-negative
      interest, month by month and in total, whatever epsilon is. */
  lemma ManualPayoffInterest(cards: seq<Card>, payments: seq<(string, real)>, maxMonths: int, epsilon: real)
    requires NonNegativeCards(cards)
    ensures var r := ManualPayoff(cards, payments, maxMonths, epsilon);
      r.Ok? ==> r.value.totalInterest >= 0.0 && NonNegativeHistory(r.value.history)
  {
    if !HasNegative(payments) {
      var step := ManualStep(payments, epsilon);
      forall acc: seq<Card> | NonNegativeCards(acc) && step(acc).Paid?
        ensures NonNegativeCards(step(acc).cards)
      {
        PayEachKeepsNonNegative(acc, payments, epsilon);
      }
      assert KeepsNonNegative(step);
      BudgetRunInterest(step, cards, maxMonths, epsilon, 0, 0.0, []);
    }
  }

  /** Every APR is at least zero. */
  predicate AprsNonNegative(cards: seq<Card>)
  {
    forall j :: 0 <= j < |cards| ==> cards[j].apr >= 0.0
  }

  /** With nothing but zero payments to cards that exist, non-negative APRs
      and epsilon, balances never fall, so a run that has not paid off goes
      on to the cap. */
  lemma {:induction false} ManualRunStalls(payments: seq<(string, real)>, cards: seq<Card>, maxMonths: int, epsilon: real,
                                           months: nat, interest: real, history: seq<Snapshot>)
    requires forall k :: 0 <= k < |payments| ==> payments[k].1 == 0.0
    requires AllNamed(payments, cards) && AprsNonNegative(cards) && epsilon >= 0.0
    requires TotalBalance(cards) > epsilon && months <= Cap(maxMonths)
    decreases maxMonths - months
    ensures var r := BudgetRun(ManualStep(payments, epsilon), cards, maxMonths, epsilon, months, interest, history);
      r.Ok? && r.value.NotPaidOff? && r.value.months == Cap(maxMonths) + 1
  {
    var step := ManualStep(payments, epsilon);
    if months + 1 <= maxMonths {
      var acc := Accrued(cards, epsilon);
      var mi := MonthInterest(cards, epsilon);
      ZeroMonth(payments, cards, epsilon);
      BudgetRunPaid(step, cards, maxMonths, epsilon, months, interest, history, acc);
      ManualRunStalls(payments, acc, maxMonths, epsilon, months + 1, interest + mi,
                      history + [Snapshot(months + 1, mi, interest + mi, BalanceView(acc), TotalBalance(acc))]);
    } else {
      BudgetRunCap(step, cards, maxMonths, epsilon, months, interest, history);
    }
  }

  /** A month of zero payments to cards that exist pays nothing, and the
      accrued cards still carry every name, keep non-negative APRs and owe
      no less. */
  lemma ZeroMonth(payments: seq<(string, real)>, cards: seq<Card>, epsilon: real)
    requires forall k :: 0 <= k < |payments| ==> payments[k].1 == 0.0
    requires AllNamed(payments, cards) && AprsNonNegative(cards) && epsilon >= 0.0
    ensures var acc := Accrued(cards, epsilon);
      && ManualStep(payments, epsilon)(acc) == Paid(acc)
      && AllNamed(payments, acc) && AprsNonNegative(acc) && TotalBalance(acc) >= TotalBalance(cards)
  {
    var acc := Accrued(cards, epsilon);
    AccrualNeverLowers(cards, epsilon);
    forall k | 0 <= k < |payments|
      ensures LastMatch(acc, payments[k].0).Some?
    {
      LastMatchSameNames(acc, cards, payments[k].0);
    }
    PayEachZero(acc, payments, epsilon);
  }

  /** With non-negative APRs and epsilon, accrual keeps every name and APR
      and never lowers the total. */
  lemma AccrualNeverLowers(cards: seq<Card>, epsilon: real)
    requires AprsNonNegative(cards) && epsilon >= 0.0
    ensures SameNames(cards, Accrued(cards, epsilon)) && AprsNonNegative(Accrued(cards, epsilon))
    ensures TotalBalance(Accrued(cards, epsilon)) >= TotalBalance(cards)
  {
    AccruedTotal(cards, epsilon);
    InterestNonNegative(cards, epsilon);
  }

  /** Zero payments to cards that exist change nothing. */
  lemma {:induction false} PayEachZero(cards: seq<Card>, payments: seq<(string, real)>, epsilon: real)
    requires forall k :: 0 <= k < |payments| ==> payments[k].1 == 0.0
    requires AllNamed(payments, cards)
    decreases |payments|
    ensures PayEach(cards, payments, epsilon) == Ok(cards)
  {
    if payments != [] {
      var i := LastMatch(cards, payments[0].0).value;
      assert cards[i := ManualPay(cards[i], payments[0].1, epsilon)] == cards;
      PayEachZero(cards, payments[1..], epsilon);
    }
  }

  /** Zero payments to cards that exist, with non-negative APRs and epsilon,
      never pay off a balance above epsilon: the result is "not paid off" with
      `max_months + 1` months (1 when the cap is negative). */
  lemma ManualPayoffStalls(cards: seq<Card>, payments: seq<(string, real)>, maxMonths: int, epsilon: real)
    requires forall k :: 0 <= k < |payments| ==> payments[k].1 == 0.0
    requires AllNamed(payments, cards) && AprsNonNegative(cards) && epsilon >= 0.0
    requires TotalBalance(cards) > epsilon
    ensures var r := ManualPayoff(cards, payments, maxMonths, epsilon);
      r.Ok? && r.value.NotPaidOff? && r.value.months == Cap(maxMonths) + 1
  {
    ManualRunStalls(payments, cards, maxMonths, epsilon, 0, 0.0, []);
  }

  /** The payment loop of one month, in place; `nameToCard` is the name
      index built from the cards before the first month. */
  method ApplyManualPayments(a: array<Card>, nameToCard: map<string, nat>, payments: seq<(string, real)>, epsilon: real)
    returns (err: Option<Error>)
    requires nameToCard == NameIndex(a[..])
    modifies a
    ensures PayEach(old(a[..]), payments, epsilon) == if err.None? then Ok(a[..]) else Err(err.value)
  {
    var k := 0;
    while k < |payments|
      invariant 0 <= k <= |payments|
      invariant SameNames(old(a[..]), a[..])
      invariant PayEach(a[..], payments[k..], epsilon) == PayEach(old(a[..]), payments, epsilon)
    {
      var name := payments[k].0;
      NameIndexIsLastMatch(old(a[..]), name);
      LastMatchSameNames(old(a[..]), a[..], name);
      assert payments[k..][1..] == payments[k + 1..];
      if name !in nameToCard {
        return Some(KeyError);
      }
      var i := nameToCard[name];
      a[i] := ManualPay(a[i], payments[k].1, epsilon);
      k := k + 1;
    }
    err := None;
  }

  /** The check before the first month: any negative amount is a
      ValueError. */
  method CheckAmounts(payments: seq<(string, real)>) returns (err: Option<Error>)
    ensures err.Some? <==> HasNegative(payments)
    ensures err.Some? ==> err.value == ValueError
  {
    var k := 0;
    while k < |payments|
      invariant 0 <= k <= |payments|
      invariant forall j :: 0 <= j < k ==> payments[j].1 >= 0.0
    {
      if payments[k].1 < 0.0 {
        return Some(ValueError);
      }
      k := k + 1;
    }
    return None;
  }

  /** `simulate_payoff_manual_payments`. The caller's cards are a value, so
      the run works on a fresh array copied from them. */
  method SimulatePayoffManualPayments(cards: seq<Card>, payments: seq<(string, real)>, maxMonths: int, epsilon: real)
    returns (r: Result<SimResult>)
    ensures r == ManualPayoff(cards, payments, maxMonths, epsilon)
  {
    var invalid := CheckAmounts(payments);
    if invalid.Some? {
      return Err(invalid.value);
    }
    var a := new Card[|cards|](i requires 0 <= i < |cards| => cards[i]);
    assert a[..] == cards;
    var nameToCard := NameIndex(a[..]);
    var months: nat := 0;
    var totalInterest := 0.0;
    var history: seq<Snapshot> := [];
    ghost var step := ManualStep(payments, epsilon);
    ghost var goal := BudgetRun(step, cards, maxMonths, epsilon, 0, 0.0, []);
    assert ManualPayoff(cards, payments, maxMonths, epsilon) == goal;
    while TotalBalance(a[..]) > epsilon
      invariant nameToCard == NameIndex(a[..])
      invariant BudgetRun(step, a[..], maxMonths, epsilon, months, totalInterest, history) == goal
      decreases maxMonths - months
    {
      ghost var start, done, paid := a[..], months, totalInterest;
      months := months + 1;
      if months > maxMonths {
        BudgetRunCap(step, start, maxMonths, epsilon, done, paid, history);
        return Ok(NotPaidOff(months, totalInterest, history));
      }
      var monthInterest := AccrueInterest(a, epsilon);
      totalInterest := totalInterest + monthInterest;
      ghost var acc := a[..];
      MonthKeepsNameIndex(start, payments, epsilon);
      var err := ApplyManualPayments(a, nameToCard, payments, epsilon);
      assert step(acc) == if err.None? then Paid(a[..]) else Raised(err.value);
      if err.Some? {
        BudgetRunRaised(step, start, maxMonths, epsilon, done, paid, history, err.value);
        return Err(err.value);
      }
      BudgetRunPaid(step, start, maxMonths, epsilon, done, paid, history, a[..]);
      history := history + [Snapshot(months, monthInterest, totalInterest, BalanceView(a[..]), TotalBalance(a[..]))];
    }
    BudgetRunDone(step, a[..], maxMonths, epsilon, months, totalInterest, history);
    r := Ok(PaidOff(months, totalInterest, history));
  }

  /** Accrual and a month's payments leave the name index as it was. */
  lemma MonthKeepsNameIndex(cards: seq<Card>, payments: seq<(string, real)>, epsilon: real)
    ensures NameIndex(Accrued(cards, epsilon)) == NameIndex(cards)
    ensures var r := PayEach(Accrued(cards, epsilon), payments, epsilon);
      r.Ok? ==> NameIndex(r.value) == NameIndex(cards)
  {
    var acc := Accrued(cards, epsilon);
    AccruedTotal(cards, epsilon);
    NameIndexSameNames(cards, acc);
    var r := PayEach(acc, payments, epsilon);
    if r.Ok? {
      PayEachKeepsNames(acc, payments, epsilon);
      NameIndexSameNames(acc, r.value);
    }
  }

  /** The name index depends only on the names. */
  lemma {:induction false} NameIndexSameNames(c: seq<Card>, d: seq<Card>)
    requires SameNames(c, d)
    ensures NameIndex(c) == NameIndex(d)
  {
    if c != [] {
      var n := |c| - 1;
      assert SameNames(c[..n], d[..n]);
      NameIndexSameNames(c[..n], d[..n]);
    }
  }
}
