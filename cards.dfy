/** The card record of the payoff planner, the two pure helpers every part of
    the engine uses (monthly rate, total balance), and the one-time payments
    that change a caller's card list in place. */
module Cards {

  /** A credit card: its nickname, the balance owed, and the APR in percent
      (24.49 stands for 24.49%). */
  datatype Card = Card(name: string, balance: real, apr: real)

  /** The exceptions the engine raises. */
  datatype Error = ValueError | KeyError | ZeroDivisionError

  datatype Option<T> = None | Some(value: T)

  /** A value, or the exception that was raised instead. */
  datatype Result<T> = Ok(value: T) | Err(error: Error)

  /** Python's `min(x, y)`: `x` unless `y` is strictly smaller. */
  function Min(x: real, y: real): (m: real)
    ensures m <= x && m <= y && (m == x || m == y)
  {
    if y < x then y else x
  }

  /** Python's `max(x, y)`: `x` unless `y` is strictly larger. */
  function Max(x: real, y: real): (m: real)
    ensures m >= x && m >= y && (m == x || m == y)
  {
    if y > x then y else x
  }

  /** The monthly periodic rate of an APR given in percent. */
  function MonthlyRate(aprPercent: real): (r: real)
    ensures r * 1200.0 == aprPercent
  {
    (aprPercent / 100.0) / 12.0
  }

  /** The sum of all balances. */
  function TotalBalance(cards: seq<Card>): real
  {
    if cards == [] then 0.0 else cards[0].balance + TotalBalance(cards[1..])
  }

  /** Changing one card's balance changes the total by exactly the difference. */
  lemma {:induction false} TotalBalanceUpdate(cards: seq<Card>, i: nat, c: Card)
    requires i < |cards|
    ensures TotalBalance(cards[i := c]) == TotalBalance(cards) - cards[i].balance + c.balance
  {
    if i > 0 {
      assert cards[i := c][1..] == cards[1..][i - 1 := c];
      TotalBalanceUpdate(cards[1..], i - 1, c);
    }
  }

  /** A list of non-negative balances has a non-negative total. */
  lemma {:induction false} TotalBalanceNonNegative(cards: seq<Card>)
    requires forall i :: 0 <= i < |cards| ==> cards[i].balance >= 0.0
    ensures TotalBalance(cards) >= 0.0
  {
    if cards != [] {
      TotalBalanceNonNegative(cards[1..]);
    }
  }

  /** The position of the first card with the given name, if any. */
  function FirstMatch(cards: seq<Card>, name: string): (r: Option<nat>)
    ensures r.Some? ==> r.value < |cards| && cards[r.value].name == name
    ensures r.Some? ==> forall j :: 0 <= j < r.value ==> cards[j].name != name
    ensures r.None? <==> forall j :: 0 <= j < |cards| ==> cards[j].name != name
  {
    if cards == [] then None
    else if cards[0].name == name then Some(0)
    else match FirstMatch(cards[1..], name)
      case None => None
      case Some(k) => Some(k + 1)
  }

  /** A card after a payment of `amount`: the balance is clamped at zero. */
  function PayDown(c: Card, amount: real): (d: Card)
    requires amount >= 0.0
    ensures d.name == c.name && d.apr == c.apr
    ensures d.balance >= 0.0 && d.balance <= Max(c.balance, 0.0)
    ensures c.balance >= 0.0 ==> d.balance == c.balance - Min(c.balance, amount)
  {
    c.(balance := Max(0.0, c.balance - amount))
  }

  /** The list after a one-time payment of `amount` to the card named `name`:
      a negative amount is a ValueError, an unknown name a KeyError. */
  function OneTimePayment(cards: seq<Card>, name: string, amount: real): (r: Result<seq<Card>>)
    ensures amount < 0.0 ==> r == Err(ValueError)
    ensures r == Err(KeyError) <==> (amount >= 0.0 && forall j :: 0 <= j < |cards| ==> cards[j].name != name)
    ensures r.Ok? ==> amount >= 0.0 && |r.value| == |cards|
    ensures r.Ok? ==> forall j :: 0 <= j < |cards| ==> r.value[j].name == cards[j].name && r.value[j].apr == cards[j].apr
  {
    if amount < 0.0 then Err(ValueError)
    else match FirstMatch(cards, name)
      case None => Err(KeyError)
      case Some(i) => Ok(cards[i := PayDown(cards[i], amount)])
  }

  /** A valid one-time payment changes the first card with the name, clamped
      at zero, and no other card, later cards of the same name included. */
  lemma OneTimePaymentPaysFirstMatch(cards: seq<Card>, name: string, amount: real, i: nat)
    requires amount >= 0.0
    requires i < |cards| && cards[i].name == name
    requires forall j :: 0 <= j < i ==> cards[j].name != name
    ensures OneTimePayment(cards, name, amount).Ok?
    ensures OneTimePayment(cards, name, amount).value[i].balance == Max(0.0, cards[i].balance - amount)
    ensures forall j :: 0 <= j < |cards| && j != i ==> OneTimePayment(cards, name, amount).value[j] == cards[j]
  {
  }

  /** A successful one-time payment lowers the total balance by the part of
      the payment the card could absorb, and keeps every name and APR. */
  lemma OneTimePaymentTotal(cards: seq<Card>, name: string, amount: real)
    requires forall i :: 0 <= i < |cards| ==> cards[i].balance >= 0.0
    requires OneTimePayment(cards, name, amount).Ok?
    ensures var i := FirstMatch(cards, name).value;
      TotalBalance(OneTimePayment(cards, name, amount).value)
        == TotalBalance(cards) - Min(cards[i].balance, amount)
    ensures var r := OneTimePayment(cards, name, amount).value;
      forall j :: 0 <= j < |r| ==> r[j].balance >= 0.0 && r[j].name == cards[j].name && r[j].apr == cards[j].apr
  {
    var i := FirstMatch(cards, name).value;
    TotalBalanceUpdate(cards, i, PayDown(cards[i], amount));
  }

  /** `apply_one_time_payment`: pays `amount` to the first card named
      `cardName`, in place. */
  method ApplyOneTimePayment(cards: array<Card>, cardName: string, amount: real) returns (err: Option<Error>)
    modifies cards
    ensures OneTimePayment(old(cards[..]), cardName, amount) == if err.None? then Ok(cards[..]) else Err(err.value)
    ensures err.Some? ==> cards[..] == old(cards[..])
  {
    if amount < 0.0 {
      return Some(ValueError);
    }
    var found := false;
    var i := 0;
    while i < cards.Length
      invariant 0 <= i <= cards.Length
      invariant forall j :: 0 <= j < i ==> cards[j].name != cardName
      invariant cards[..] == old(cards[..])
    {
      if cards[i].name == cardName {
        found := true;
        cards[i] := PayDown(cards[i], amount);
        break;
      }
      i := i + 1;
    }
    if !found {
      return Some(KeyError);
    }
    err := None;
  }

  /** The state after a batch of payments, applied in order, and the
      exception that stopped it, if one did. */
  datatype Applied = Applied(cards: seq<Card>, error: Option<Error>)

  /** Applies each entry in order; the first failing entry stops the batch
      and leaves the earlier entries applied. */
  function ApplyAll(cards: seq<Card>, payments: seq<(string, real)>): Applied
    decreases |payments|
  {
    if payments == [] then Applied(cards, None)
    else match OneTimePayment(cards, payments[0].0, payments[0].1)
      case Err(e) => Applied(cards, Some(e))
      case Ok(next) => ApplyAll(next, payments[1..])
  }

  /** A batch that completes is the same as applying its two halves in turn. */
  lemma {:induction false} ApplyAllSplit(cards: seq<Card>, p: seq<(string, real)>, q: seq<(string, real)>)
    requires ApplyAll(cards, p).error.None?
    decreases |p|
    ensures ApplyAll(cards, p + q) == ApplyAll(ApplyAll(cards, p).cards, q)
  {
    if p != [] {
      var next := OneTimePayment(cards, p[0].0, p[0].1).value;
      assert (p + q)[0] == p[0] && (p + q)[1..] == p[1..] + q;
      assert ApplyAll(cards, p + q) == ApplyAll(next, p[1..] + q);
      ApplyAllSplit(next, p[1..], q);
    } else {
      assert p + q == q;
    }
  }

  /** The batch fails at entry k: entries 0..k-1 apply cleanly to `cards`
      giving `before`, and entry k fails on `before` with error `e`. */
  predicate FailsAt(cards: seq<Card>, p: seq<(string, real)>, k: nat, before: seq<Card>, e: Error)
  {
    && k < |p|
    && ApplyAll(cards, p[..k]) == Applied(before, None)
    && OneTimePayment(before, p[k].0, p[k].1) == Err(e)
  }

  /** A batch that fails at entry k leaves exactly entries 0..k-1 applied. */
  lemma {:induction false} ApplyAllStopsAtFailure(cards: seq<Card>, p: seq<(string, real)>)
    requires ApplyAll(cards, p).error.Some?
    decreases |p|
    ensures exists k :: FailsAt(cards, p, k, ApplyAll(cards, p).cards, ApplyAll(cards, p).error.value)
  {
    var r := ApplyAll(cards, p);
    match OneTimePayment(cards, p[0].0, p[0].1)
    case Err(e) =>
      assert p[..0] == [];
      assert FailsAt(cards, p, 0, r.cards, r.error.value);
    case Ok(next) =>
      assert r == ApplyAll(next, p[1..]);
      ApplyAllStopsAtFailure(next, p[1..]);
      var k :| FailsAt(next, p[1..], k, r.cards, r.error.value);
      FailsAtShift(cards, p, next, k, r.cards, r.error.value);
  }

  /** A failure at entry k of the tail is a failure at entry k+1 of the
      whole batch, when the first entry succeeds. */
  lemma FailsAtShift(cards: seq<Card>, p: seq<(string, real)>, next: seq<Card>, k: nat, before: seq<Card>, e: Error)
    requires p != [] && OneTimePayment(cards, p[0].0, p[0].1) == Ok(next)
    requires FailsAt(next, p[1..], k, before, e)
    ensures FailsAt(cards, p, k + 1, before, e)
  {
    assert p[..k + 1][1..] == p[1..][..k];
    assert p[..k + 1][0] == p[0];
  }

  /** A batch of non-negative payments to cards that all exist never fails. */
  lemma {:induction false} ApplyAllSucceeds(cards: seq<Card>, p: seq<(string, real)>)
    requires forall k :: 0 <= k < |p| ==> p[k].1 >= 0.0
    requires forall k :: 0 <= k < |p| ==> exists j :: 0 <= j < |cards| && cards[j].name == p[k].0
    ensures ApplyAll(cards, p).error.None?
    ensures |ApplyAll(cards, p).cards| == |cards|
    ensures forall j :: 0 <= j < |cards| ==> ApplyAll(cards, p).cards[j].name == cards[j].name
    decreases |p|
  {
    if p != [] {
      var next := OneTimePayment(cards, p[0].0, p[0].1).value;
      forall k | 0 <= k < |p[1..]|
        ensures exists j :: 0 <= j < |next| && next[j].name == p[1..][k].0
      {
        var j :| 0 <= j < |cards| && cards[j].name == p[k + 1].0;
        assert next[j].name == p[1..][k].0;
      }
      ApplyAllSucceeds(next, p[1..]);
    }
  }

  /** `apply_payments`: applies a batch of one-time payments in place. */
  method ApplyPayments(cards: array<Card>, payments: seq<(string, real)>) returns (err: Option<Error>)
    modifies cards
    ensures Applied(cards[..], err) == ApplyAll(old(cards[..]), payments)
  {
    var k := 0;
    while k < |payments|
      invariant 0 <= k <= |payments|
      invariant ApplyAll(cards[..], payments[k..]) == ApplyAll(old(cards[..]), payments)
    {
      assert payments[k..][1..] == payments[k + 1..];
      err := ApplyOneTimePayment(cards, payments[k].0, payments[k].1);
      if err.Some? {
        return;
      }
      k := k + 1;
    }
    err := None;
  }
}
