/** One month of the budget-driven simulation, piece by piece: interest
    accrual, the list of active cards, the payoff order of the avalanche and
    snowball strategies, and the two ways a month's budget is spent. */
module Allocation {
  import opened Cards

  // ---------------------------------------------------------------- accrual

  /** The interest one card accrues this month: nothing at or below epsilon. */
  function CardInterest(c: Card, epsilon: real): real
  {
    if c.balance > epsilon then c.balance * MonthlyRate(c.apr) else 0.0
  }

  /** A card after this month's interest has been added to its balance. */
  function AccrueCard(c: Card, epsilon: real): Card
  {
    c.(balance := c.balance + CardInterest(c, epsilon))
  }

  /** Every card after this month's accrual. */
  function Accrued(cards: seq<Card>, epsilon: real): seq<Card>
  {
    seq(|cards|, i requires 0 <= i < |cards| => AccrueCard(cards[i], epsilon))
  }

  /** The interest all cards accrue this month. */
  function MonthInterest(cards: seq<Card>, epsilon: real): real
  {
    if cards == [] then 0.0 else CardInterest(cards[0], epsilon) + MonthInterest(cards[1..], epsilon)
  }

  /** Accrual raises the total balance by exactly the month's interest, and
      changes no name, no APR and no card at or below epsilon. */
  lemma {:induction false} AccruedTotal(cards: seq<Card>, epsilon: real)
    ensures |Accrued(cards, epsilon)| == |cards|
    ensures TotalBalance(Accrued(cards, epsilon)) == TotalBalance(cards) + MonthInterest(cards, epsilon)
    ensures forall i :: 0 <= i < |cards| ==>
      Accrued(cards, epsilon)[i].name == cards[i].name && Accrued(cards, epsilon)[i].apr == cards[i].apr
    ensures forall i :: 0 <= i < |cards| && cards[i].balance <= epsilon ==> Accrued(cards, epsilon)[i] == cards[i]
  {
    if cards != [] {
      assert Accrued(cards, epsilon)[1..] == Accrued(cards[1..], epsilon);
      AccruedTotal(cards[1..], epsilon);
    }
  }

  /** With non-negative APRs, interest is never negative and no balance
      falls, as long as every card that accrues owes a non-negative amount:
      epsilon is at least zero, or no balance is negative. A negative balance
      above a negative epsilon would accrue negative interest. */
  lemma {:induction false} InterestNonNegative(cards: seq<Card>, epsilon: real)
    requires epsilon >= 0.0 || forall i :: 0 <= i < |cards| ==> cards[i].balance >= 0.0
    requires forall i :: 0 <= i < |cards| ==> cards[i].apr >= 0.0
    ensures MonthInterest(cards, epsilon) >= 0.0
    ensures forall i :: 0 <= i < |cards| ==> Accrued(cards, epsilon)[i].balance >= cards[i].balance
  {
    if cards != [] {
      InterestNonNegative(cards[1..], epsilon);
    }
    forall i | 0 <= i < |cards|
      ensures Accrued(cards, epsilon)[i].balance >= cards[i].balance
    {
      if cards[i].balance > epsilon {
        assert cards[i].balance * MonthlyRate(cards[i].apr) >= 0.0;
      }
    }
  }

  /** Every balance and every APR is at least zero. */
  predicate NonNegativeCards(cards: seq<Card>)
  {
    forall j :: 0 <= j < |cards| ==> cards[j].balance >= 0.0 && cards[j].apr >= 0.0
  }

  /** With non-negative balances and APRs, accrual keeps balances and APRs
      non-negative, and the month's interest is non-negative, whatever
      epsilon is. */
  lemma AccrualKeepsNonNegative(cards: seq<Card>, epsilon: real)
    requires NonNegativeCards(cards)
    ensures MonthInterest(cards, epsilon) >= 0.0 && NonNegativeCards(Accrued(cards, epsilon))
  {
    AccruedTotal(cards, epsilon);
    InterestNonNegative(cards, epsilon);
  }

  /** One card of the accrual loop: the cards before i accrued, the rest as
      they were, and the interest so far plus what is left adds up to the
      month's interest. */
  predicate AccruedUpTo(cur: seq<Card>, s: seq<Card>, i: nat, paid: real, epsilon: real)
    requires i <= |s|
  {
    && |cur| == |s|
    && (forall j :: 0 <= j < i ==> cur[j] == AccrueCard(s[j], epsilon))
    && (forall j :: i <= j < |s| ==> cur[j] == s[j])
    && paid + MonthInterest(s[i..], epsilon) == MonthInterest(s, epsilon)
  }

  /** Accruing card i extends the accrued prefix by one. */
  lemma AccrueStep(cur: seq<Card>, s: seq<Card>, i: nat, paid: real, epsilon: real)
    requires i < |s| && AccruedUpTo(cur, s, i, paid, epsilon)
    ensures AccruedUpTo(cur[i := AccrueCard(cur[i], epsilon)], s, i + 1, paid + CardInterest(cur[i], epsilon), epsilon)
  {
    assert s[i..][1..] == s[i + 1..];
  }

  /** Accrues card i of `a` in place and returns its interest. */
  method AccrueAt(a: array<Card>, i: nat, epsilon: real) returns (intr: real)
    requires i < a.Length
    modifies a
    ensures a[..] == old(a[..])[i := AccrueCard(old(a[i]), epsilon)]
    ensures intr == CardInterest(old(a[i]), epsilon)
  {
    if a[i].balance > epsilon {
      ghost var before := a[..];
      intr := a[i].balance * MonthlyRate(a[i].apr);
      assert intr == CardInterest(before[i], epsilon);
      a[i] := a[i].(balance := a[i].balance + intr);
      assert a[..] == before[i := AccrueCard(before[i], epsilon)];
    } else {
      intr := 0.0;
      assert AccrueCard(a[i], epsilon) == a[i];
      assert a[..] == a[..][i := a[i]];
    }
  }

  /** The accrual loop of one month: adds each active card's interest to its
      balance, in place, and returns the month's interest. */
  method AccrueInterest(a: array<Card>, epsilon: real) returns (monthInterest: real)
    modifies a
    ensures a[..] == Accrued(old(a[..]), epsilon)
    ensures monthInterest == MonthInterest(old(a[..]), epsilon)
  {
    ghost var s := a[..];
    monthInterest := 0.0;
    var i := 0;
    while i < a.Length
      invariant 0 <= i <= a.Length
      invariant AccruedUpTo(a[..], s, i, monthInterest, epsilon)
    {
      AccrueStep(a[..], s, i, monthInterest, epsilon);
      var intr := AccrueAt(a, i, epsilon);
      monthInterest := monthInterest + intr;
      i := i + 1;
    }
    AccruedUpToDone(a[..], s, monthInterest, epsilon);
  }

  /** Once every card has accrued, the cards are the accrued cards and the
      interest is the month's interest. */
  lemma AccruedUpToDone(cur: seq<Card>, s: seq<Card>, paid: real, epsilon: real)
    requires AccruedUpTo(cur, s, |s|, paid, epsilon)
    ensures cur == Accrued(s, epsilon) && paid == MonthInterest(s, epsilon)
  {
    assert s[|s|..] == [];
  }

  // ---------------------------------------------------------- active cards

  /** Every element of `idx` is a position in a list of length n. */
  predicate InBounds(idx: seq<nat>, n: nat)
  {
    forall k :: 0 <= k < |idx| ==> idx[k] < n
  }

  /** No position occurs twice in `idx`. */
  predicate Distinct(idx: seq<nat>)
  {
    forall k, l :: 0 <= k < l < |idx| ==> idx[k] != idx[l]
  }

  /** The positions in `idx` strictly increase. */
  predicate Increasing(idx: seq<nat>)
  {
    forall k, l :: 0 <= k < l < |idx| ==> idx[k] < idx[l]
  }

  /** The positions of the cards whose balance exceeds epsilon, in list order. */
  function ActiveIndices(cards: seq<Card>, epsilon: real): (r: seq<nat>)
    ensures InBounds(r, |cards|)
  {
    if cards == [] then []
    else
      var n := |cards| - 1;
      ActiveIndices(cards[..n], epsilon) + (if cards[n].balance > epsilon then [n] else [])
  }

  /** The active list holds exactly the positions whose balance exceeds
      epsilon, each once, in increasing order. */
  lemma {:induction false} ActiveIndicesExact(cards: seq<Card>, epsilon: real)
    ensures forall i :: 0 <= i < |cards| ==> (i in ActiveIndices(cards, epsilon) <==> cards[i].balance > epsilon)
    ensures Increasing(ActiveIndices(cards, epsilon))
  {
    if cards != [] {
      var n := |cards| - 1;
      assert forall i :: 0 <= i < n ==> cards[..n][i] == cards[i];
      ActiveIndicesExact(cards[..n], epsilon);
      var p := ActiveIndices(cards[..n], epsilon);
      var r := ActiveIndices(cards, epsilon);
      assert InBounds(p, n);
      assert r == p + (if cards[n].balance > epsilon then [n] else []);
      forall k, l | 0 <= k < l < |r|
        ensures r[k] < r[l]
      {
        if l < |p| {
          assert r[k] == p[k] && r[l] == p[l];
        } else {
          assert r[k] == p[k] && r[l] == n;
        }
      }
    }
  }

  /** The sum of the balances at the given positions. */
  function ActiveTotal(cards: seq<Card>, idx: seq<nat>): real
    requires InBounds(idx, |cards|)
  {
    if idx == [] then 0.0 else cards[idx[0]].balance + ActiveTotal(cards, idx[1..])
  }

  /** Changing a card outside `idx` does not change the sum over `idx`. */
  lemma {:induction false} ActiveTotalFrame(cards: seq<Card>, idx: seq<nat>, i: nat, c: Card)
    requires InBounds(idx, |cards|) && i < |cards| && i !in idx
    ensures ActiveTotal(cards[i := c], idx) == ActiveTotal(cards, idx)
  {
    if idx != [] {
      ActiveTotalFrame(cards, idx[1..], i, c);
    }
  }

  // ---------------------------------------------------------------- strategy

  /** The three allocation strategies. */
  datatype Strategy = Avalanche | Snowball | Proportional

  /** The strategy a name selects; any other name selects none. */
  function ParseStrategy(name: string): Option<Strategy>
  {
    if name == "avalanche" then Some(Avalanche)
    else if name == "snowball" then Some(Snowball)
    else if name == "proportional" then Some(Proportional)
    else None
  }

  /** The sort key of a card: avalanche sorts by (-apr, balance), snowball
      by (balance, -apr). */
  function SortKey(s: Strategy, c: Card): (real, real)
    requires s != Proportional
  {
    if s == Avalanche then (-c.apr, c.balance) else (c.balance, -c.apr)
  }

  /** Lexicographic order on pairs, as Python compares tuples. */
  predicate LexLess(p: (real, real), q: (real, real))
  {
    p.0 < q.0 || (p.0 == q.0 && p.1 < q.1)
  }

  /** Position i comes before position j in a stable sort by the strategy's
      key: a smaller key first, and equal keys in list order. */
  predicate Before(s: Strategy, cards: seq<Card>, i: nat, j: nat)
    requires s != Proportional && i < |cards| && j < |cards|
  {
    LexLess(SortKey(s, cards[i]), SortKey(s, cards[j]))
    || (SortKey(s, cards[i]) == SortKey(s, cards[j]) && i < j)
  }

  /** `r` lists its positions strictly in the `Before` order. */
  predicate SortedBy(s: Strategy, cards: seq<Card>, r: seq<nat>)
    requires s != Proportional && InBounds(r, |cards|)
  {
    forall k, l :: 0 <= k < l < |r| ==> Before(s, cards, r[k], r[l])
  }

  /** Inserts x before the first element whose key is strictly larger. */
  function Insert(s: Strategy, cards: seq<Card>, x: nat, r: seq<nat>): (q: seq<nat>)
    requires s != Proportional && x < |cards| && InBounds(r, |cards|)
    ensures InBounds(q, |cards|)
  {
    if r == [] then [x]
    else if LexLess(SortKey(s, cards[x]), SortKey(s, cards[r[0]])) then [x] + r
    else
      var rest := Insert(s, cards, x, r[1..]);
      assert r == [r[0]] + r[1..];
      [r[0]] + rest
  }

  /** Python's stable `list.sort` with the strategy's key, as an insertion sort. */
  function PayoffOrder(s: Strategy, cards: seq<Card>, idx: seq<nat>): (r: seq<nat>)
    requires s != Proportional && InBounds(idx, |cards|)
    ensures InBounds(r, |cards|)
  {
    if idx == [] then []
    else
      var n := |idx| - 1;
      assert idx == idx[..n] + [idx[n]];
      Insert(s, cards, idx[n], PayoffOrder(s, cards, idx[..n]))
  }

  /** Inserting adds exactly x and keeps every other element. */
  lemma {:induction false} InsertPermutes(s: Strategy, cards: seq<Card>, x: nat, r: seq<nat>)
    requires s != Proportional && x < |cards| && InBounds(r, |cards|)
    ensures multiset(Insert(s, cards, x, r)) == multiset(r) + multiset{x}
  {
    if r != [] && !LexLess(SortKey(s, cards[x]), SortKey(s, cards[r[0]])) {
      InsertPermutes(s, cards, x, r[1..]);
      assert r == [r[0]] + r[1..];
    }
  }

  /** The elements of the insertion are x and those of r. */
  lemma InsertMembers(s: Strategy, cards: seq<Card>, x: nat, r: seq<nat>)
    requires s != Proportional && x < |cards| && InBounds(r, |cards|)
    ensures forall z :: z in Insert(s, cards, x, r) <==> z == x || z in r
  {
    var q := Insert(s, cards, x, r);
    InsertPermutes(s, cards, x, r);
    forall z
      ensures z in q <==> z == x || z in r
    {
      assert z in q <==> z in multiset(q);
      assert z in r <==> z in multiset(r);
    }
  }

  /** The payoff order is a permutation of the positions it sorts. */
  lemma {:induction false} PayoffOrderPermutes(s: Strategy, cards: seq<Card>, idx: seq<nat>)
    requires s != Proportional && InBounds(idx, |cards|)
    ensures multiset(PayoffOrder(s, cards, idx)) == multiset(idx)
  {
    if idx != [] {
      var n := |idx| - 1;
      assert idx == idx[..n] + [idx[n]];
      PayoffOrderPermutes(s, cards, idx[..n]);
      InsertPermutes(s, cards, idx[n], PayoffOrder(s, cards, idx[..n]));
    }
  }

  /** The payoff order holds exactly the positions it sorts. */
  lemma PayoffOrderMembers(s: Strategy, cards: seq<Card>, idx: seq<nat>)
    requires s != Proportional && InBounds(idx, |cards|)
    ensures forall z :: z in PayoffOrder(s, cards, idx) <==> z in idx
  {
    var r := PayoffOrder(s, cards, idx);
    PayoffOrderPermutes(s, cards, idx);
    forall z
      ensures z in r <==> z in idx
    {
      assert z in r <==> z in multiset(r);
      assert z in idx <==> z in multiset(idx);
    }
  }

  /** When x does not go in front, the head of r comes before everything
      inserted after it. */
  lemma InsertHeadFirst(s: Strategy, cards: seq<Card>, x: nat, r: seq<nat>)
    requires s != Proportional && x < |cards| && InBounds(r, |cards|) && r != []
    requires SortedBy(s, cards, r) && r[0] < x && !LexLess(SortKey(s, cards[x]), SortKey(s, cards[r[0]]))
    ensures forall z :: z in Insert(s, cards, x, r[1..]) ==> z < |cards| && Before(s, cards, r[0], z)
  {
    var tail := r[1..];
    InsertMembers(s, cards, x, tail);
    forall z | z in Insert(s, cards, x, tail)
      ensures z < |cards| && Before(s, cards, r[0], z)
    {
      if z != x {
        var m :| 0 <= m < |tail| && tail[m] == z;
        assert r[m + 1] == z;
      }
    }
  }

  /** Putting in front of a sorted list a position that comes before each of
      its elements keeps it sorted. */
  lemma ConsSorted(s: Strategy, cards: seq<Card>, h: nat, rest: seq<nat>)
    requires s != Proportional && h < |cards| && InBounds(rest, |cards|)
    requires SortedBy(s, cards, rest)
    requires forall z :: z in rest ==> z < |cards| && Before(s, cards, h, z)
    ensures SortedBy(s, cards, [h] + rest)
  {
    var q := [h] + rest;
    forall k, l | 0 <= k < l < |q|
      ensures Before(s, cards, q[k], q[l])
    {
      assert q[l] == rest[l - 1];
      if k == 0 {
        assert rest[l - 1] in rest;
      } else {
        assert q[k] == rest[k - 1];
      }
    }
  }

  /** A key strictly below the head's comes before every element of a
      sorted list. */
  lemma FrontBefore(s: Strategy, cards: seq<Card>, x: nat, r: seq<nat>)
    requires s != Proportional && x < |cards| && InBounds(r, |cards|) && r != []
    requires SortedBy(s, cards, r) && LexLess(SortKey(s, cards[x]), SortKey(s, cards[r[0]]))
    ensures forall z :: z in r ==> z < |cards| && Before(s, cards, x, z)
  {
    forall z | z in r
      ensures z < |cards| && Before(s, cards, x, z)
    {
      var m :| 0 <= m < |r| && r[m] == z;
      if m > 0 {
        assert Before(s, cards, r[0], r[m]);
      }
    }
  }

  /** Inserting a position larger than all others keeps the order sorted. */
  lemma {:induction false} InsertSorted(s: Strategy, cards: seq<Card>, x: nat, r: seq<nat>)
    requires s != Proportional && x < |cards| && InBounds(r, |cards|)
    requires SortedBy(s, cards, r)
    requires forall z :: z in r ==> z < x
    ensures SortedBy(s, cards, Insert(s, cards, x, r))
  {
    if r == [] {
    } else if LexLess(SortKey(s, cards[x]), SortKey(s, cards[r[0]])) {
      FrontBefore(s, cards, x, r);
      ConsSorted(s, cards, x, r);
    } else {
      var tail := r[1..];
      forall z | z in tail
        ensures z < x
      {
        var m :| 0 <= m < |tail| && tail[m] == z;
        assert r[m + 1] in r;
      }
      assert SortedBy(s, cards, tail) by {
        assert forall m :: 0 <= m < |tail| ==> tail[m] == r[m + 1];
      }
      assert r[0] in r;
      InsertSorted(s, cards, x, tail);
      InsertHeadFirst(s, cards, x, r);
      ConsSorted(s, cards, r[0], Insert(s, cards, x, tail));
    }
  }

  /** The payoff order of the active positions is exactly the stable sort:
      each position comes before the next by key, ties in list order. */
  lemma {:induction false} PayoffOrderSorted(s: Strategy, cards: seq<Card>, idx: seq<nat>)
    requires s != Proportional && InBounds(idx, |cards|)
    requires Increasing(idx)
    ensures SortedBy(s, cards, PayoffOrder(s, cards, idx))
    ensures Distinct(PayoffOrder(s, cards, idx))
  {
    var r := PayoffOrder(s, cards, idx);
    if idx != [] {
      var n := |idx| - 1;
      PayoffOrderSorted(s, cards, idx[..n]);
      PayoffOrderMembers(s, cards, idx[..n]);
      forall z | z in PayoffOrder(s, cards, idx[..n])
        ensures z < idx[n]
      {
        assert z in idx[..n];
      }
      InsertSorted(s, cards, idx[n], PayoffOrder(s, cards, idx[..n]));
    }
    forall k, l | 0 <= k < l < |r|
      ensures r[k] != r[l]
    {
      assert Before(s, cards, r[k], r[l]);
    }
  }

  // ------------------------------------------------------- paying in order

  /** The cards after one pass, and the budget it left. */
  datatype Pass = Pass(cards: seq<Card>, remaining: real)

  /** Walks `order`, paying each card `min(balance, remaining)`, and stops once
      the remaining budget is at or below epsilon. */
  function InOrderPass(cards: seq<Card>, order: seq<nat>, remaining: real, epsilon: real): (p: Pass)
    requires InBounds(order, |cards|)
    ensures |p.cards| == |cards|
    decreases |order|
  {
    if order == [] || remaining <= epsilon then Pass(cards, remaining)
    else
      var i := order[0];
      var pay := Min(cards[i].balance, remaining);
      InOrderPass(cards[i := cards[i].(balance := cards[i].balance - pay)], order[1..], remaining - pay, epsilon)
  }

  /** A pass changes only balances, and only those of cards in `order`. */
  lemma {:induction false} InOrderPassFrame(cards: seq<Card>, order: seq<nat>, remaining: real, epsilon: real)
    requires InBounds(order, |cards|)
    ensures var p := InOrderPass(cards, order, remaining, epsilon);
      forall j :: 0 <= j < |cards| ==>
        p.cards[j].name == cards[j].name && p.cards[j].apr == cards[j].apr && (j !in order ==> p.cards[j] == cards[j])
    decreases |order|
  {
    if order != [] && remaining > epsilon {
      var i := order[0];
      var pay := Min(cards[i].balance, remaining);
      InOrderPassFrame(cards[i := cards[i].(balance := cards[i].balance - pay)], order[1..], remaining - pay, epsilon);
    }
  }

  /** Over non-negative balances a pass pays each card at most its balance,
      and what it pays in all is the budget it used up, never more. */
  lemma {:induction false} InOrderPassSpends(cards: seq<Card>, order: seq<nat>, remaining: real, epsilon: real)
    requires InBounds(order, |cards|) && remaining >= 0.0
    requires forall k :: 0 <= k < |order| ==> cards[order[k]].balance >= 0.0
    ensures var p := InOrderPass(cards, order, remaining, epsilon);
      && 0.0 <= p.remaining <= remaining
      && TotalBalance(cards) - TotalBalance(p.cards) == remaining - p.remaining
      && forall j :: 0 <= j < |cards| ==>
        p.cards[j].balance <= cards[j].balance && (cards[j].balance >= 0.0 ==> p.cards[j].balance >= 0.0)
    decreases |order|
  {
    if order != [] && remaining > epsilon {
      var i := order[0];
      var pay := Min(cards[i].balance, remaining);
      var next := cards[i := cards[i].(balance := cards[i].balance - pay)];
      TotalBalanceUpdate(cards, i, next[i]);
      InOrderPassSpends(next, order[1..], remaining - pay, epsilon);
    }
  }

  /** Budget is left over after a pass only if every card in the order was
      paid down to exactly zero. */
  lemma {:induction false} InOrderPassLeftover(cards: seq<Card>, order: seq<nat>, remaining: real, epsilon: real)
    requires InBounds(order, |cards|) && epsilon >= 0.0
    ensures var p := InOrderPass(cards, order, remaining, epsilon);
      p.remaining > epsilon ==> forall y :: y in order ==> p.cards[y].balance == 0.0
    decreases |order|
  {
    if order != [] && remaining > epsilon {
      var i := order[0];
      var pay := Min(cards[i].balance, remaining);
      var next := cards[i := cards[i].(balance := cards[i].balance - pay)];
      var p := InOrderPass(cards, order, remaining, epsilon);
      InOrderPassLeftover(next, order[1..], remaining - pay, epsilon);
      InOrderPassFrame(next, order[1..], remaining - pay, epsilon);
      if p.remaining > epsilon {
        assert next[i].balance == 0.0;
        assert forall y :: y in order ==> y == i || y in order[1..];
      }
    }
  }

  /** The greedy order: a card is paid anything only if every card before it
      in the order was paid in full. */
  lemma {:induction false} InOrderPassGreedy(cards: seq<Card>, order: seq<nat>, remaining: real, epsilon: real)
    requires InBounds(order, |cards|) && Distinct(order) && epsilon >= 0.0
    ensures var p := InOrderPass(cards, order, remaining, epsilon);
      forall k, l :: 0 <= k < l < |order| && p.cards[order[l]].balance != cards[order[l]].balance
        ==> p.cards[order[k]].balance == 0.0
    decreases |order|
  {
    if order != [] && remaining > epsilon {
      var i := order[0];
      var pay := Min(cards[i].balance, remaining);
      var next := cards[i := cards[i].(balance := cards[i].balance - pay)];
      var p := InOrderPass(cards, order, remaining, epsilon);
      var tail := order[1..];
      assert forall m :: 0 <= m < |tail| ==> tail[m] != i;
      InOrderPassGreedy(next, tail, remaining - pay, epsilon);
      InOrderPassFrame(next, tail, remaining - pay, epsilon);
      forall k, l | 0 <= k < l < |order| && p.cards[order[l]].balance != cards[order[l]].balance
        ensures p.cards[order[k]].balance == 0.0
      {
        assert next[order[l]] == cards[order[l]];
        if k == 0 {
          assert i !in tail;
        } else {
          assert order[k] == tail[k - 1] && order[l] == tail[l - 1];
        }
      }
    }
  }

  /** The first allocation loop: pays the cards of `order` in turn, in place,
      and returns the budget left. */
  method PayInOrder(a: array<Card>, order: seq<nat>, remaining: real, epsilon: real) returns (left: real)
    requires InBounds(order, a.Length)
    modifies a
    ensures Pass(a[..], left) == InOrderPass(old(a[..]), order, remaining, epsilon)
  {
    left := remaining;
    var k := 0;
    while k < |order|
      invariant 0 <= k <= |order|
      invariant a.Length == |old(a[..])|
      invariant InOrderPass(a[..], order[k..], left, epsilon) == InOrderPass(old(a[..]), order, remaining, epsilon)
    {
      if left <= epsilon {
        break;
      }
      assert order[k..][1..] == order[k + 1..];
      assert order[k] in order;
      var i := order[k];
      var pay := Min(a[i].balance, left);
      a[i] := a[i].(balance := a[i].balance - pay);
      left := left - pay;
      k := k + 1;
    }
  }

  // ---------------------------------------------------- paying proportionally

  /** What one active card is paid: its share `remaining * (balance / totalBal)`
      of the budget, capped at its balance. */
  function ProportionalPay(b: real, remaining: real, totalBal: real): (pay: real)
    requires totalBal != 0.0
  {
    Min(b, remaining * (b / totalBal))
  }

  /** A card's share is never negative and, since shares are proportional, it
      is at most the balance exactly when the budget is at most the active
      total. */
  lemma ProportionalPayBounds(b: real, remaining: real, totalBal: real)
    requires totalBal > 0.0 && b >= 0.0 && remaining >= 0.0
    ensures 0.0 <= ProportionalPay(b, remaining, totalBal) <= b
    ensures remaining <= totalBal ==> ProportionalPay(b, remaining, totalBal) == remaining * (b / totalBal)
    ensures remaining >= totalBal ==> ProportionalPay(b, remaining, totalBal) == b
  {
    var f := b / totalBal;
    assert f >= 0.0;
    assert totalBal * f == b;
    assert remaining * f >= 0.0;
    if remaining <= totalBal {
      assert remaining * f <= totalBal * f;
    }
    if remaining >= totalBal {
      assert remaining * f >= totalBal * f;
    }
  }

  /** Pays each active card its proportional share, capped at its balance;
      the budget is not reduced between cards. */
  function ProportionalPass(cards: seq<Card>, active: seq<nat>, remaining: real, totalBal: real): (r: seq<Card>)
    requires InBounds(active, |cards|) && (totalBal != 0.0 || active == [])
    ensures |r| == |cards|
    decreases |active|
  {
    if active == [] then cards
    else
      var i := active[0];
      var pay := ProportionalPay(cards[i].balance, remaining, totalBal);
      ProportionalPass(cards[i := cards[i].(balance := cards[i].balance - pay)], active[1..], remaining, totalBal)
  }

  /** A proportional pass changes only balances of active cards, each to a
      value between zero and its old balance. */
  lemma {:induction false} ProportionalPassFrame(cards: seq<Card>, active: seq<nat>, remaining: real, totalBal: real)
    requires InBounds(active, |cards|) && totalBal > 0.0 && remaining >= 0.0
    requires forall k :: 0 <= k < |active| ==> cards[active[k]].balance >= 0.0
    ensures var r := ProportionalPass(cards, active, remaining, totalBal);
      forall j :: 0 <= j < |cards| ==>
        && r[j].name == cards[j].name && r[j].apr == cards[j].apr
        && (j !in active ==> r[j] == cards[j])
        && (j in active ==> 0.0 <= r[j].balance <= cards[j].balance)
    decreases |active|
  {
    if active != [] {
      var i := active[0];
      var b := cards[i].balance;
      ProportionalPayBounds(b, remaining, totalBal);
      var next := cards[i := cards[i].(balance := b - ProportionalPay(b, remaining, totalBal))];
      ProportionalPassFrame(next, active[1..], remaining, totalBal);
      assert forall j :: j in active ==> j == i || j in active[1..];
    }
  }

  /** (rem/t)·t = rem. */
  lemma DivSelf(remaining: real, t: real)
    requires t > 0.0
    ensures (remaining / t) * t == remaining
  {
  }

  /** The sum of the shares the given cards are paid, each computed from its
      balance before the pass. */
  function PaidShares(cards: seq<Card>, active: seq<nat>, remaining: real, totalBal: real): real
    requires InBounds(active, |cards|) && (totalBal != 0.0 || active == [])
    decreases |active|
  {
    if active == [] then 0.0
    else ProportionalPay(cards[active[0]].balance, remaining, totalBal) + PaidShares(cards, active[1..], remaining, totalBal)
  }

  /** Changing a card outside `active` does not change the shares. */
  lemma {:induction false} PaidSharesFrame(cards: seq<Card>, active: seq<nat>, remaining: real, totalBal: real, i: nat, c: Card)
    requires InBounds(active, |cards|) && totalBal != 0.0 && i < |cards| && i !in active
    ensures PaidShares(cards[i := c], active, remaining, totalBal) == PaidShares(cards, active, remaining, totalBal)
    decreases |active|
  {
    if active != [] {
      PaidSharesFrame(cards, active[1..], remaining, totalBal, i, c);
    }
  }

  /** A proportional pass over distinct positions lowers the total balance by
      exactly the sum of the shares. */
  lemma {:induction false} ProportionalPassPaid(cards: seq<Card>, active: seq<nat>, remaining: real, totalBal: real)
    requires InBounds(active, |cards|) && Distinct(active) && totalBal != 0.0
    ensures TotalBalance(cards) - TotalBalance(ProportionalPass(cards, active, remaining, totalBal))
      == PaidShares(cards, active, remaining, totalBal)
    decreases |active|
  {
    if active != [] {
      var i := active[0];
      var next := cards[i := cards[i].(balance := cards[i].balance - ProportionalPay(cards[i].balance, remaining, totalBal))];
      var tail := active[1..];
      assert i !in tail by {
        assert forall m :: 0 <= m < |tail| ==> tail[m] != i;
      }
      TotalBalanceUpdate(cards, i, next[i]);
      PaidSharesFrame(cards, tail, remaining, totalBal, i, next[i]);
      ProportionalPassPaid(next, tail, remaining, totalBal);
    }
  }

  /** Below the divisor a share is the balance times the rate rem/T. */
  lemma ShareIsRate(b: real, remaining: real, totalBal: real)
    requires totalBal > 0.0 && b >= 0.0 && 0.0 <= remaining <= totalBal
    ensures ProportionalPay(b, remaining, totalBal) == (remaining / totalBal) * b
  {
    ProportionalPayBounds(b, remaining, totalBal);
    RateShare(remaining, b, totalBal);
  }

  /** rem·(x/T) = (rem/T)·x. */
  lemma RateShare(remaining: real, x: real, totalBal: real)
    requires totalBal > 0.0
    ensures remaining * (x / totalBal) == (remaining / totalBal) * x
  {
    assert x / totalBal * totalBal == x;
    assert remaining / totalBal * totalBal == remaining;
  }

  /** r·b + r·t = r·(b + t). */
  lemma Distributes(r: real, b: real, t: real)
    ensures r * b + r * t == r * (b + t)
  {
  }

  /** When the budget does not exceed the divisor every card's share is its
      balance times rem/T, so the shares add up to rem/T times the sum of
      the balances. */
  lemma {:induction false} PaidSharesScale(cards: seq<Card>, active: seq<nat>, remaining: real, totalBal: real)
    requires InBounds(active, |cards|) && 0.0 <= remaining <= totalBal && totalBal > 0.0
    requires forall k :: 0 <= k < |active| ==> cards[active[k]].balance >= 0.0
    ensures PaidShares(cards, active, remaining, totalBal) == (remaining / totalBal) * ActiveTotal(cards, active)
    decreases |active|
  {
    if active != [] {
      var b := cards[active[0]].balance;
      var rate := remaining / totalBal;
      ShareIsRate(b, remaining, totalBal);
      PaidSharesScale(cards, active[1..], remaining, totalBal);
      Distributes(rate, b, ActiveTotal(cards, active[1..]));
    }
  }

  /** When the budget is at least the divisor every card's share is its
      whole balance. */
  lemma {:induction false} PaidSharesAll(cards: seq<Card>, active: seq<nat>, remaining: real, totalBal: real)
    requires InBounds(active, |cards|) && 0.0 < totalBal <= remaining
    requires forall k :: 0 <= k < |active| ==> cards[active[k]].balance >= 0.0
    ensures PaidShares(cards, active, remaining, totalBal) == ActiveTotal(cards, active)
    decreases |active|
  {
    if active != [] {
      ProportionalPayBounds(cards[active[0]].balance, remaining, totalBal);
      PaidSharesAll(cards, active[1..], remaining, totalBal);
    }
  }

  /** The two cases of the shares, put together: min(budget, total). */
  lemma MinOfShares(x: real, remaining: real, t: real)
    requires t > 0.0 && remaining >= 0.0
    requires remaining <= t ==> x == (remaining / t) * t
    requires t <= remaining ==> x == t
    ensures x == Min(remaining, t)
  {
    DivSelf(remaining, t);
  }

  /** With the active total as divisor, the shares add up to exactly
      min(budget, active total). */
  lemma PaidSharesMin(cards: seq<Card>, active: seq<nat>, remaining: real)
    requires InBounds(active, |cards|) && remaining >= 0.0
    requires forall k :: 0 <= k < |active| ==> cards[active[k]].balance >= 0.0
    requires ActiveTotal(cards, active) > 0.0
    ensures PaidShares(cards, active, remaining, ActiveTotal(cards, active)) == Min(remaining, ActiveTotal(cards, active))
  {
    var t := ActiveTotal(cards, active);
    if remaining <= t {
      PaidSharesScale(cards, active, remaining, t);
    }
    if t <= remaining {
      PaidSharesAll(cards, active, remaining, t);
    }
    MinOfShares(PaidShares(cards, active, remaining, t), remaining, t);
  }

  /** Proportional allocation pays exactly min(budget, active total): the
      whole budget when it does not cover the active cards, and otherwise
      every active card in full. */
  lemma ProportionalPaysMin(cards: seq<Card>, active: seq<nat>, remaining: real)
    requires InBounds(active, |cards|) && Distinct(active) && remaining >= 0.0
    requires forall k :: 0 <= k < |active| ==> cards[active[k]].balance >= 0.0
    requires ActiveTotal(cards, active) > 0.0
    ensures var r := ProportionalPass(cards, active, remaining, ActiveTotal(cards, active));
      TotalBalance(cards) - TotalBalance(r) == Min(remaining, ActiveTotal(cards, active))
  {
    ProportionalPassPaid(cards, active, remaining, ActiveTotal(cards, active));
    PaidSharesMin(cards, active, remaining);
  }

  /** One card of a proportional pass over a suffix of `active`. */
  lemma ProportionalPassStep(cards: seq<Card>, active: seq<nat>, k: nat, remaining: real, totalBal: real)
    requires InBounds(active, |cards|) && totalBal != 0.0 && k < |active|
    ensures var i := active[k];
      var b := cards[i].balance;
      ProportionalPass(cards, active[k..], remaining, totalBal)
        == ProportionalPass(cards[i := cards[i].(balance := b - ProportionalPay(b, remaining, totalBal))],
                            active[k + 1..], remaining, totalBal)
  {
    assert active[k..][1..] == active[k + 1..];
  }

  /** The proportional allocation loop, in place. */
  method PayProportional(a: array<Card>, active: seq<nat>, remaining: real, totalBal: real)
    requires InBounds(active, a.Length) && (totalBal != 0.0 || active == [])
    modifies a
    ensures a[..] == ProportionalPass(old(a[..]), active, remaining, totalBal)
  {
    ghost var goal := ProportionalPass(a[..], active, remaining, totalBal);
    var k := 0;
    while k < |active|
      invariant 0 <= k <= |active|
      invariant ProportionalPass(a[..], active[k..], remaining, totalBal) == goal
    {
      var i := active[k];
      var share := remaining * (a[i].balance / totalBal);
      var pay := Min(a[i].balance, share);
      assert pay == ProportionalPay(a[i].balance, remaining, totalBal);
      ProportionalPassStep(a[..], active, k, remaining, totalBal);
      ghost var before := a[..];
      a[i] := a[i].(balance := a[i].balance - pay);
      assert a[..] == before[i := before[i].(balance := before[i].balance - pay)];
      k := k + 1;
    }
    assert active[k..] == [];
  }

}
