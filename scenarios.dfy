/** Worked cases of the engine on small inputs, with epsilon 1e-6 as the
    engine's callers pass it. */
module Scenarios {
  import opened Cards
  import opened Allocation
  import opened BudgetSimulation
  import opened ManualSimulation

  const Epsilon: real := 0.000001

  /** A one-time payment goes to the first card with the name, even when a
      later card has the same name. */
  lemma OneTimePaymentFirstCard()
    ensures OneTimePayment([Card("A", 100.0, 10.0), Card("A", 50.0, 10.0)], "A", 30.0)
      == Ok([Card("A", 70.0, 10.0), Card("A", 50.0, 10.0)])
  {
    var c := [Card("A", 100.0, 10.0), Card("A", 50.0, 10.0)];
    assert FirstMatch(c, "A") == Some(0);
    assert PayDown(c[0], 30.0) == Card("A", 70.0, 10.0);
    assert c[0 := Card("A", 70.0, 10.0)] == [Card("A", 70.0, 10.0), Card("A", 50.0, 10.0)];
  }

  /** Paying more than the balance leaves zero, not a credit. */
  lemma OneTimePaymentClamps()
    ensures OneTimePayment([Card("A", 100.0, 10.0)], "A", 150.0) == Ok([Card("A", 0.0, 10.0)])
  {
    var c := [Card("A", 100.0, 10.0)];
    assert FirstMatch(c, "A") == Some(0);
    assert PayDown(c[0], 150.0) == Card("A", 0.0, 10.0);
    assert c[0 := Card("A", 0.0, 10.0)] == [Card("A", 0.0, 10.0)];
  }

  /** Both cards of the pair below are active. */
  lemma TwoCardsActive()
    ensures ActiveIndices([Card("A", 1000.0, 20.0), Card("B", 500.0, 10.0)], Epsilon) == [0, 1]
  {
    var acc := [Card("A", 1000.0, 20.0), Card("B", 500.0, 10.0)];
    assert acc[..1][..0] == [];
    assert ActiveIndices(acc[..1], Epsilon) == [0];
  }

  /** Avalanche pays 1000 at 20% before 500 at 10%. */
  lemma TwoCardsAvalanche()
    ensures PayoffOrder(Avalanche, [Card("A", 1000.0, 20.0), Card("B", 500.0, 10.0)], [0, 1]) == [0, 1]
  {
    var acc := [Card("A", 1000.0, 20.0), Card("B", 500.0, 10.0)];
    assert [0, 1][..1] == [0] && [0][..0] == [];
    assert PayoffOrder(Avalanche, acc, [0]) == [0];
    assert [0][1..] == [];
    assert Insert(Avalanche, acc, 1, [0]) == [0] + Insert(Avalanche, acc, 1, []);
  }

  /** Snowball pays the smaller balance, 500, first. */
  lemma TwoCardsSnowball()
    ensures PayoffOrder(Snowball, [Card("A", 1000.0, 20.0), Card("B", 500.0, 10.0)], [0, 1]) == [1, 0]
  {
    var acc := [Card("A", 1000.0, 20.0), Card("B", 500.0, 10.0)];
    assert [0, 1][..1] == [0] && [0][..0] == [];
    assert PayoffOrder(Snowball, acc, [0]) == [0];
  }

  /** The position list and payoff orders of two cards: 1000 at 20% and
      500 at 10%. */
  lemma TwoCardOrders()
    ensures ActiveIndices([Card("A", 1000.0, 20.0), Card("B", 500.0, 10.0)], Epsilon) == [0, 1]
    ensures PayoffOrder(Avalanche, [Card("A", 1000.0, 20.0), Card("B", 500.0, 10.0)], [0, 1]) == [0, 1]
    ensures PayoffOrder(Snowball, [Card("A", 1000.0, 20.0), Card("B", 500.0, 10.0)], [0, 1]) == [1, 0]
  {
    TwoCardsActive();
    TwoCardsAvalanche();
    TwoCardsSnowball();
  }

  /** With 100 to spend, avalanche pays the higher APR and snowball the
      smaller balance. */
  lemma InOrderStrategyCases()
    ensures AllocateMonth("avalanche", [Card("A", 1000.0, 20.0), Card("B", 500.0, 10.0)], 100.0, Epsilon)
      == Paid([Card("A", 900.0, 20.0), Card("B", 500.0, 10.0)])
    ensures AllocateMonth("snowball", [Card("A", 1000.0, 20.0), Card("B", 500.0, 10.0)], 100.0, Epsilon)
      == Paid([Card("A", 1000.0, 20.0), Card("B", 400.0, 10.0)])
  {
    var acc := [Card("A", 1000.0, 20.0), Card("B", 500.0, 10.0)];
    TwoCardOrders();
    SecondPassIdle("avalanche", Avalanche, acc, 100.0, Epsilon);
    SecondPassIdle("snowball", Snowball, acc, 100.0, Epsilon);
    var av := [Card("A", 900.0, 20.0), Card("B", 500.0, 10.0)];
    assert acc[0 := Card("A", 900.0, 20.0)] == av;
    assert InOrderPass(acc, [0, 1], 100.0, Epsilon) == InOrderPass(av, [1], 0.0, Epsilon) == Pass(av, 0.0);
    var sn := [Card("A", 1000.0, 20.0), Card("B", 400.0, 10.0)];
    assert acc[1 := Card("B", 400.0, 10.0)] == sn;
    assert InOrderPass(acc, [1, 0], 100.0, Epsilon) == InOrderPass(sn, [0], 0.0, Epsilon) == Pass(sn, 0.0);
  }

  /** Proportional with 150 splits it 100 / 50 between 1000 and 500. */
  lemma ProportionalCase()
    ensures AllocateMonth("proportional", [Card("A", 1000.0, 20.0), Card("B", 500.0, 10.0)], 150.0, Epsilon)
      == Paid([Card("A", 900.0, 20.0), Card("B", 450.0, 10.0)])
  {
    var acc := [Card("A", 1000.0, 20.0), Card("B", 500.0, 10.0)];
    TwoCardOrders();
    assert ActiveTotal(acc, [0, 1]) == 1500.0;
    assert ProportionalPay(1000.0, 150.0, 1500.0) == 100.0;
    assert ProportionalPay(500.0, 150.0, 1500.0) == 50.0;
    var mid := [Card("A", 900.0, 20.0), Card("B", 500.0, 10.0)];
    assert acc[0 := Card("A", 900.0, 20.0)] == mid;
    assert mid[1 := Card("B", 450.0, 10.0)] == [Card("A", 900.0, 20.0), Card("B", 450.0, 10.0)];
  }

  /** 1200 at 24% with 200 a month: the first month accrues 24 of interest
      and leaves 1024; with a one-month cap the run stops there, not paid
      off, after one snapshot. */
  lemma OneMonthCase()
    ensures TotalBudgetPayoff([Card("Visa", 1200.0, 24.0)], 200.0, "avalanche", 1, Epsilon)
      == Ok(NotPaidOff(2, 24.0, [Snapshot(1, 24.0, 24.0, map["Visa" := 1024.0], 1024.0)]))
  {
    var cards := [Card("Visa", 1200.0, 24.0)];
    var step := MonthStep("avalanche", 200.0, Epsilon);
    var acc := [Card("Visa", 1224.0, 24.0)];
    var next := [Card("Visa", 1024.0, 24.0)];
    assert MonthlyRate(24.0) == 0.02;
    assert Accrued(cards, Epsilon) == acc;
    assert MonthInterest(cards, Epsilon) == 24.0;
    assert acc[..0] == [];
    assert ActiveIndices(acc, Epsilon) == [0];
    assert [0][..0] == [];
    assert PayoffOrder(Avalanche, acc, [0]) == [0];
    SecondPassIdle("avalanche", Avalanche, acc, 200.0, Epsilon);
    assert acc[0 := Card("Visa", 1024.0, 24.0)] == next;
    assert InOrderPass(acc, [0], 200.0, Epsilon) == InOrderPass(next, [], 0.0, Epsilon);
    assert step(acc) == AllocateMonth("avalanche", acc, 200.0, Epsilon) == Paid(next);
    var snap := Snapshot(1, 24.0, 24.0, map["Visa" := 1024.0], 1024.0);
    OneCard(next[0]);
    BudgetRunPaid(step, cards, 1, Epsilon, 0, 0.0, [], next);
    assert [] + [snap] == [snap];
    BudgetRunCap(step, next, 1, Epsilon, 1, 24.0, [snap]);
  }

  /** The balance view and total of a single card. */
  lemma OneCard(c: Card)
    ensures BalanceView([c]) == map[c.name := Max(0.0, c.balance)] && TotalBalance([c]) == c.balance
  {
    assert [c][..0] == [];
  }

  /** A single card at 0% accrues nothing. */
  lemma NoInterest(c: seq<Card>)
    requires |c| == 1 && c[0].apr == 0.0
    ensures MonthInterest(c, Epsilon) == 0.0
  {
    var a := Accrued(c, Epsilon);
    assert MonthlyRate(0.0) == 0.0;
    assert a == c;
  }

  /** A manual payment of 60 to the single card "A". */
  lemma PaysSixty(c: seq<Card>, d: seq<Card>)
    requires |c| == 1 && c[0].name == "A" && c[0].balance > Epsilon
    requires d == [c[0].(balance := c[0].balance - Min(c[0].balance, 60.0))]
    ensures ManualStep([("A", 60.0)], Epsilon)(c) == Paid(d)
  {
    assert c[..0] == [];
    assert LastMatch(c, "A") == Some(0);
    assert [("A", 60.0)][1..] == [];
    assert c[0 := ManualPay(c[0], 60.0, Epsilon)] == d;
  }

  /** One month of the manual run below. */
  lemma ManualMonth(c: seq<Card>, d: seq<Card>)
    requires |c| == 1 && c[0].name == "A" && c[0].apr == 0.0 && c[0].balance > Epsilon
    requires d == [c[0].(balance := c[0].balance - Min(c[0].balance, 60.0))]
    ensures MonthInterest(c, Epsilon) == 0.0
    ensures ManualStep([("A", 60.0)], Epsilon)(Accrued(c, Epsilon)) == Paid(d)
  {
    NoInterest(c);
    Unchanged(c);
    PaysSixty(c, d);
  }

  /** A single card at 0% is unchanged by accrual. */
  lemma Unchanged(c: seq<Card>)
    requires |c| == 1 && c[0].apr == 0.0
    ensures Accrued(c, Epsilon) == c
  {
    assert MonthlyRate(0.0) == 0.0;
    assert Accrued(c, Epsilon)[0] == c[0];
  }

  /** The first month of the manual run below: 60 of the 100 is paid. */
  lemma ManualFirstMonth()
    ensures BudgetRun(ManualStep([("A", 60.0)], Epsilon), [Card("A", 100.0, 0.0)], 10, Epsilon, 0, 0.0, [])
      == BudgetRun(ManualStep([("A", 60.0)], Epsilon), [Card("A", 40.0, 0.0)], 10, Epsilon, 1, 0.0,
                   [Snapshot(1, 0.0, 0.0, map["A" := 40.0], 40.0)])
  {
    var step := ManualStep([("A", 60.0)], Epsilon);
    var c0, c1 := [Card("A", 100.0, 0.0)], [Card("A", 40.0, 0.0)];
    OneCard(c0[0]);
    OneCard(c1[0]);
    assert Max(0.0, 40.0) == 40.0;
    ManualMonth(c0, c1);
    BudgetRunPaid(step, c0, 10, Epsilon, 0, 0.0, [], c1);
    assert [] + [Snapshot(1, 0.0, 0.0, map["A" := 40.0], 40.0)] == [Snapshot(1, 0.0, 0.0, map["A" := 40.0], 40.0)];
  }

  /** The second month of the manual run below: only the 40 owed is paid. */
  lemma ManualSecondMonth()
    ensures BudgetRun(ManualStep([("A", 60.0)], Epsilon), [Card("A", 40.0, 0.0)], 10, Epsilon, 1, 0.0,
                      [Snapshot(1, 0.0, 0.0, map["A" := 40.0], 40.0)])
      == BudgetRun(ManualStep([("A", 60.0)], Epsilon), [Card("A", 0.0, 0.0)], 10, Epsilon, 2, 0.0,
                   [Snapshot(1, 0.0, 0.0, map["A" := 40.0], 40.0), Snapshot(2, 0.0, 0.0, map["A" := 0.0], 0.0)])
  {
    var step := ManualStep([("A", 60.0)], Epsilon);
    var c1, c2 := [Card("A", 40.0, 0.0)], [Card("A", 0.0, 0.0)];
    var s1 := Snapshot(1, 0.0, 0.0, map["A" := 40.0], 40.0);
    var s2 := Snapshot(2, 0.0, 0.0, map["A" := 0.0], 0.0);
    OneCard(c1[0]);
    OneCard(c2[0]);
    assert Max(0.0, 0.0) == 0.0;
    ManualMonth(c1, c2);
    BudgetRunPaid(step, c1, 10, Epsilon, 1, 0.0, [s1], c2);
    assert [s1] + [s2] == [s1, s2];
  }

  /** 60 a month against 100 at 0%: 40 left after the first month, the
      second pays only the 40 owed, and nothing rolls over. */
  lemma ManualCase()
    ensures ManualPayoff([Card("A", 100.0, 0.0)], [("A", 60.0)], 10, Epsilon)
      == Ok(PaidOff(2, 0.0, [Snapshot(1, 0.0, 0.0, map["A" := 40.0], 40.0), Snapshot(2, 0.0, 0.0, map["A" := 0.0], 0.0)]))
  {
    var step := ManualStep([("A", 60.0)], Epsilon);
    var s1 := Snapshot(1, 0.0, 0.0, map["A" := 40.0], 40.0);
    var s2 := Snapshot(2, 0.0, 0.0, map["A" := 0.0], 0.0);
    assert !HasNegative([("A", 60.0)]);
    ManualFirstMonth();
    ManualSecondMonth();
    OneCard(Card("A", 0.0, 0.0));
    BudgetRunDone(step, [Card("A", 0.0, 0.0)], 10, Epsilon, 2, 0.0, [s1, s2]);
  }

  /** A payment to an unknown card raises a KeyError once a month runs. */
  lemma ManualUnknownCard()
    ensures ManualPayoff([Card("A", 100.0, 0.0)], [("B", 10.0)], 10, Epsilon) == Err(KeyError)
  {
    var cards := [Card("A", 100.0, 0.0)];
    assert "A" != "B" by { assert "A"[0] != "B"[0]; }
    assert LastMatch(cards, "B").None? by { LastMatchExact(cards, "B"); }
    assert !HasNegative([("B", 10.0)]);
    ManualPayoffErrors(cards, [("B", 10.0)], 10, Epsilon);
  }

  /** Cards already paid off return at once, so the same unknown name raises
      nothing. */
  lemma ManualPaidOffUnknownCard()
    ensures ManualPayoff([Card("A", 0.0, 0.0)], [("B", 10.0)], 10, Epsilon) == Ok(PaidOff(0, 0.0, []))
  {
    assert !HasNegative([("B", 10.0)]);
    assert TotalBalance([Card("A", 0.0, 0.0)]) == 0.0;
  }

  /** A negative amount raises a ValueError even when nothing is owed. */
  lemma ManualNegativeAmount()
    ensures ManualPayoff([Card("A", 0.0, 0.0)], [("B", -10.0)], 10, Epsilon) == Err(ValueError)
  {
    assert HasNegative([("B", -10.0)]) by { assert [("B", -10.0)][0].1 < 0.0; }
  }
}
