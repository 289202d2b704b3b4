# Debt payoff engine, modelled in Dafny

The project models the payoff engine of a credit-card payoff planner:

- the `Card` record;
- `monthly_rate` and `total_balance`;
- one-time payments (`apply_one_time_payment` and `apply_payments`);
- the two month-by-month simulators of `debt_calculator.py`: the shared-budget simulator and the manual-payments simulator;
- the shared-budget simulator of `debt_app_streamlit.py`, which is a second, slightly different copy of the engine.

Each simulator follows the same loop:

1. It runs while the total balance is above `epsilon`.
2. It stops after `max_months` months and reports not paid off, with `Cap(max_months) + 1` months: `max_months + 1`, or 1 when `max_months` is negative.
3. Each month it accrues interest on every card whose balance is above `epsilon`.
4. It then spends the month's money:
   - avalanche pays the highest APR first;
   - snowball pays the smallest balance first;
   - proportional gives each card a share of the budget in proportion to its balance;
   - in the manual simulator, each named card gets a fixed payment.
5. The calculator records a history snapshot at the end of every month that pays. A month that breaks out of the proportional branch, or that raises, records none.

## Modules

| Module | File | What it holds |
|---|---|---|
| `Cards` | `cards.dfy` | The card record, the exceptions, the rate and total helpers (shared by both copies of the engine), and the one-time payments. The payments run in place on an `array<Card>`, each specified by a function on sequences. |
| `Allocation` | `allocation.dfy` | The pieces of one month: accrual, the active list, the stable sort behind avalanche and snowball, the in-order payment pass, and the proportional pass. Each loop of the source is a method proved equal to its specification function. |
| `BudgetSimulation` | `budget.dfy` | The calculator's `simulate_payoff_total_budget`. |
| `ManualSimulation` | `manual.dfy` | `simulate_payoff_manual_payments`. |
| `StreamlitEngine` | `streamlit.dfy` | The app's copy of the engine, and the proof that it agrees with the calculator whenever `epsilon >= 0`. |
| `Scenarios` | `scenarios.dfy` | Small concrete runs. |

## The month loop

The loop is specified once, in `BudgetSimulation.BudgetRun`. It is generic in the month's allocation step, a function from the accrued cards to a `Month`. A `Month` is one of:

- `Stop`: the proportional `break`;
- `Raised(e)`: an exception;
- `Paid(cards)`: the cards after payment.

The budget strategies, the manual payments and the app's strategies are three such steps. Each simulator method copies the caller's cards into a fresh array. This models the `deepcopy`, because a `seq<Card>` is a value. The method's month loop is then proved to compute the specification function.

## Modelling choices

- **Numbers.** Amounts and rates are reals, not floats.
- **Interest in the app.** `debt_app_streamlit.py` adds each card's interest to the total as it goes; the calculator sums the month first. The two are equal over the reals, so one definition serves both.
- **Dicts.** A `dict` of payments is modelled as a sequence of `(name, amount)` pairs in insertion order. The history's balance map is a Dafny `map`. When two cards share a name, the balance map keeps the last one, exactly as the dict comprehension does.
- **Duplicate names.** They are modelled as the source treats them:
  - a one-time payment goes to the first card with the name;
  - the manual simulator's `name_to_card` keeps the last card with the name.
- **Unknown strategy.** The strategy name stays a string. An unknown name is noticed only after the first month's interest has accrued, as in the source. So it raises nothing when the cards are already paid off, or when the cap allows no month.
- **Division by zero.** `ZeroDivisionError` is modelled for the proportional strategy: it arises when `epsilon` is negative, at least one card is active, and the active balances sum to zero.
- **Paid off on dust.** The loop tests the total balance against epsilon (debt_calculator.py:77), but a card is paid only when its own balance exceeds epsilon. On cards that each owe at most epsilon but together owe more, the strategies part ways. Proportional breaks in the first month (debt_calculator.py:112-115) and reports paid off while the total is still above epsilon. Avalanche and snowball pay nothing and run to the cap, reporting not paid off with zero interest. `BudgetSimulation.DustStopsProportional` and `BudgetSimulation.DustStallsInOrder` prove the two outcomes; nothing was executed.
- **History-free run.** The app's loop keeps no history. `StreamlitEngine.SummaryRun` is proved to return the headline of the calculator-style run from the same state.

## Model

| member | source | states |
|---|---|---|
| Cards.Min | debt_calculator.py:118 | Python's `min`: at most both arguments and equal to one of them. |
| Cards.Max | debt_calculator.py:146 | Python's `max`: at least both arguments and equal to one of them. |
| Cards.MonthlyRate | debt_calculator.py:30-31 | The monthly rate times 1200 is the APR in percent. |
| Cards.TotalBalanceUpdate | debt_calculator.py:49-50 | Replacing one card changes the total balance by exactly the difference in that card's balance. |
| Cards.TotalBalanceNonNegative | debt_calculator.py:49-50 | Non-negative balances have a non-negative total. |
| Cards.FirstMatch | debt_calculator.py:40-44 | The position found holds the name and no earlier card does; there is none exactly when no card has the name. |
| Cards.PayDown | debt_calculator.py:43 | A paid card keeps its name and APR, and its balance is never below zero. With a non-negative balance, it is lowered by `min(balance, amount)`. |
| Cards.OneTimePayment | debt_calculator.py:34-46 | A negative amount is a ValueError. A KeyError occurs exactly when the amount is non-negative and no card has the name. Success keeps the length, every name and every APR. |
| Cards.OneTimePaymentPaysFirstMatch | debt_calculator.py:40-44 | Only the first card with the name is paid, clamped at zero; every other card, later namesakes included, is unchanged. |
| Cards.OneTimePaymentTotal | debt_calculator.py:34-46 | A successful payment lowers the total by the part of the amount the card absorbs, and leaves every balance non-negative. |
| Cards.ApplyOneTimePayment | debt_calculator.py:34-46 | The in-place loop leaves the array equal to the payment's result, or raises the same error and leaves the array unchanged. |
| Cards.TotalBalance | debt_calculator.py:49-50 | Definition: the sum of all balances (`sum` over the cards). No contract; TotalBalanceUpdate and TotalBalanceNonNegative state its properties. |
| Cards.ApplyAll | debt_calculator.py:312-315 | Definition: the entries are applied in order; the first failing entry stops the batch, and the entries before it stay applied (see ApplyAllSplit, ApplyAllStopsAtFailure, ApplyAllSucceeds). |
| Cards.ApplyAllSplit | debt_calculator.py:312-315 | A batch that completes equals applying its two halves one after the other. |
| Cards.ApplyAllStopsAtFailure | debt_calculator.py:312-315 | A failing batch stops at some entry k: entries before k applied cleanly, and entry k raised the reported error on that state. |
| Cards.ApplyAllSucceeds | debt_calculator.py:312-315 | Non-negative payments to existing cards never raise, and keep the length and every name. |
| Cards.ApplyPayments | debt_calculator.py:312-315 | The in-place loop over the batch yields the cards and the first error of the batch specification. |
| Allocation.CardInterest | debt_calculator.py:91-92 | Definition: a card above epsilon accrues its balance times the monthly rate of its APR, any other card nothing. Properties in AccruedTotal and InterestNonNegative. |
| Allocation.AccrueCard | debt_calculator.py:91-93 | Definition: the card with its interest added to its balance. |
| Allocation.Accrued | debt_calculator.py:90-93 | Definition: every card after the month's accrual, in list order. |
| Allocation.MonthInterest | debt_calculator.py:89-94 | Definition: the sum of the cards' interest for the month. |
| Allocation.AccruedTotal | debt_calculator.py:88-95 | Accrual raises the total by exactly the month's interest, keeps names and APRs, and leaves every card at or below epsilon as it was. |
| Allocation.InterestNonNegative | debt_calculator.py:88-95 | With non-negative APRs, and epsilon or every balance non-negative, interest is non-negative and no balance falls. |
| Allocation.AccrualKeepsNonNegative | debt_calculator.py:88-95 | Accrual keeps balances and APRs non-negative. |
| Allocation.AccrueAt | debt_calculator.py:90-94 | One card of the accrual loop, in place: only card i changes, and the interest returned is that card's. |
| Allocation.AccrueInterest | debt_calculator.py:88-95 | The accrual loop leaves the accrued cards and returns the month's interest. |
| Allocation.ActiveIndices | debt_calculator.py:101 | Every position listed is a valid card position. |
| Allocation.ActiveIndicesExact | debt_calculator.py:101 | A position is active exactly when its balance exceeds epsilon, and positions stay in list order. |
| Allocation.ActiveTotal | debt_calculator.py:113 | Definition: the sum of the balances at the active positions. |
| Allocation.ActiveTotalFrame | debt_calculator.py:113 | The active total ignores cards outside the active list. |
| Allocation.ParseStrategy | debt_calculator.py:102-110 | Definition: "avalanche", "snowball" and "proportional" select their strategy, any other name selects none (the ValueError of line 110, raised in AllocateMonth). |
| Allocation.SortKey | debt_calculator.py:103-105 | Definition: the key `(-apr, balance)` for avalanche and `(balance, -apr)` for snowball. |
| Allocation.LexLess | debt_calculator.py:103-105 | Definition: tuple comparison as Python does it, first component then second. |
| Allocation.Before | debt_calculator.py:103-105 | Definition: the order of a stable sort, a smaller key first and equal keys in list order. |
| Allocation.Insert | debt_calculator.py:103-105 | Insertion yields valid positions. |
| Allocation.PayoffOrder | debt_calculator.py:103-105 | The sort yields valid positions. |
| Allocation.InsertPermutes | debt_calculator.py:103-105 | Insertion adds exactly one occurrence of the new position. |
| Allocation.InsertMembers | debt_calculator.py:103-105 | The inserted list holds exactly the new position and the old ones. |
| Allocation.PayoffOrderPermutes | debt_calculator.py:103-105 | The payoff order is a permutation of the active positions. |
| Allocation.PayoffOrderMembers | debt_calculator.py:103-105 | The payoff order holds exactly the active positions. |
| Allocation.InsertSorted | debt_calculator.py:103-105 | Inserting a position later than all others keeps the list sorted by key, with ties in list order. |
| Allocation.PayoffOrderSorted | debt_calculator.py:103-105 | The order is the stable sort: sorted by key `(-apr, balance)` for avalanche or `(balance, -apr)` for snowball, ties in list order, no position twice. |
| Allocation.InOrderPass | debt_calculator.py:122-127 | A pass keeps the number of cards. |
| Allocation.InOrderPassFrame | debt_calculator.py:122-127 | A pass changes only the balances of cards in the order. |
| Allocation.InOrderPassSpends | debt_calculator.py:122-127 | A pass pays each card at most its balance and in all at most the budget, leaving no card below zero. |
| Allocation.InOrderPassLeftover | debt_calculator.py:122-127 | Budget above epsilon is left over only when every card in the order was paid to zero. |
| Allocation.InOrderPassGreedy | debt_calculator.py:122-127 | A card in the order is paid anything only when every card before it was paid to zero. |
| Allocation.PayInOrder | debt_calculator.py:122-127 | The in-place loop leaves the pass's cards and returns the budget it left. |
| Allocation.ProportionalPay | debt_calculator.py:117-118 | Definition: `min(balance, remaining * (balance / total_bal))`. Properties in ProportionalPayBounds. |
| Allocation.ProportionalPayBounds | debt_calculator.py:117-119 | A share is between zero and the balance: the exact proportional share when the budget is at most the total, and the whole balance otherwise. |
| Allocation.ProportionalPass | debt_calculator.py:116-119 | The proportional pass keeps the number of cards. |
| Allocation.ProportionalPassFrame | debt_calculator.py:116-119 | Only balances of active cards change, each to between zero and its old value. |
| Allocation.PaidSharesFrame | debt_calculator.py:116-119 | The sum of shares ignores cards outside the active list. |
| Allocation.ProportionalPassPaid | debt_calculator.py:116-119 | Over distinct positions, the pass lowers the total by exactly the sum of the shares. |
| Allocation.PaidSharesScale | debt_calculator.py:116-119 | When the budget does not exceed the divisor, the shares sum to budget/divisor times the active total. |
| Allocation.PaidSharesAll | debt_calculator.py:116-119 | When the budget is at least the divisor, the shares sum to the active total. |
| Allocation.PaidSharesMin | debt_calculator.py:113-119 | With the active total as divisor, the shares sum to `min(budget, active total)`. |
| Allocation.ProportionalPaysMin | debt_calculator.py:113-119 | A proportional month pays exactly `min(budget, active total)`. |
| Allocation.PayProportional | debt_calculator.py:116-119 | The in-place loop leaves the proportional pass's cards. |
| BudgetSimulation.BalanceView | debt_calculator.py:146 | Definition: the dict comprehension, added card by card so a later card of the same name overwrites an earlier one. Properties in BalanceViewLastWins. |
| BudgetSimulation.BalanceViewLastWins | debt_calculator.py:146 | Every card name is a key of the balance map, no value is negative, and a shared name shows the last such card's clamped balance. |
| BudgetSimulation.Cap | debt_calculator.py:78-86 | Definition: the number of months the `months > max_months` test lets run, `max_months` or none when it is negative. |
| BudgetSimulation.ProportionalMonth | debt_calculator.py:112-120 | The only exception is ZeroDivisionError, and only with a negative epsilon. A paying month keeps the number of cards. |
| BudgetSimulation.AllocateMonth | debt_calculator.py:97-139 | A ValueError occurs exactly for an unknown strategy name. ZeroDivisionError and the `break` occur only for proportional. KeyError never occurs. |
| BudgetSimulation.SecondPassIdle | debt_calculator.py:129-139 | With epsilon at least zero, the second loop of avalanche and snowball pays nothing. |
| BudgetSimulation.InOrderMonthFrame | debt_calculator.py:97-139 | An avalanche or snowball month keeps names and APRs, touches no inactive card, and leaves each balance between zero and its old value. |
| BudgetSimulation.InOrderMonthSpends | debt_calculator.py:97-139 | An avalanche or snowball month pays between zero and the budget. It spends the budget down to epsilon, unless every card ends at or below epsilon. |
| BudgetSimulation.InOrderMonthGreedy | debt_calculator.py:97-139 | The payoff order holds each active card once, in strategy order. A card is paid only after every card before it is paid to zero. |
| BudgetSimulation.ProportionalMonthPays | debt_calculator.py:112-120 | A proportional month breaks exactly when the active total is at most epsilon, never raises, and otherwise pays `min(budget, active total)`. |
| BudgetSimulation.ProportionalMonthFrame | debt_calculator.py:112-120 | A proportional month keeps names and APRs, touches no inactive card, and leaves each balance between zero and its old value. |
| BudgetSimulation.AllocateMonthFrame | debt_calculator.py:97-139 | The frame of one month, for every strategy. |
| BudgetSimulation.MonthStep | debt_calculator.py:97-139 | Definition: the allocation step of the named strategy, AllocateMonth on the accrued cards. |
| BudgetSimulation.BudgetRun | debt_calculator.py:77-95 | Definition: the while loop. Paid off once the total is at most epsilon; not paid off with one more month when the cap is passed; otherwise the month's interest accrues and AfterMonth continues. Its properties are the BudgetRun lemmas below. |
| BudgetSimulation.AfterMonth | debt_calculator.py:110-148 | Definition: the end of a month. The `break` returns paid off with the month counted, an exception ends the run, and a paying month appends its snapshot and loops. |
| BudgetSimulation.TotalBudgetPayoff | debt_calculator.py:53-157 | A non-positive budget is a ValueError. Paid-off cards give paid off after 0 months. A cap below one gives not paid off after 1 month. An unknown strategy is a ValueError once a month runs. |
| BudgetSimulation.BudgetRunDone | debt_calculator.py:77 | A run whose total is at most epsilon returns at once, paid off. |
| BudgetSimulation.BudgetRunCap | debt_calculator.py:78-86 | A run past the cap returns not paid off, with the month count raised by one. |
| BudgetSimulation.BudgetRunStop | debt_calculator.py:114-115 | A month that breaks returns paid off, counting that month's interest but recording no snapshot. |
| BudgetSimulation.BudgetRunRaised | debt_calculator.py:110 | A month whose allocation raises ends the run with that exception. |
| BudgetSimulation.BudgetRunPaid | debt_calculator.py:141-148 | A month that pays goes on from the new cards, with its snapshot appended. |
| BudgetSimulation.InOrderNeverStops | debt_calculator.py:112-115 | Only the proportional strategy ever breaks out of the loop. |
| BudgetSimulation.MonthStepKeepsNonNegative | debt_calculator.py:97-139 | Every strategy keeps balances and APRs non-negative when the budget and epsilon are non-negative. |
| BudgetSimulation.LedgerAppend | debt_calculator.py:141-148 | Appending the next month's snapshot, with the running interest total, keeps the history numbered and summed. |
| BudgetSimulation.BudgetRunSameSteps | debt_calculator.py:77-148 | The loop depends on its allocation step only through the step's results. |
| BudgetSimulation.BudgetRunLedger | debt_calculator.py:141-148 | Every history numbers its months 1, 2, … and its interest to date is the running sum; it extends the history so far. |
| BudgetSimulation.BudgetRunCapped | debt_calculator.py:78-86 | A capped run reports the cap plus one months, with a snapshot for each earlier month and their interest. |
| BudgetSimulation.BudgetRunPaidOffMonths | debt_calculator.py:77-157 | A paid-off run reports at most the cap in months, with a snapshot per month, except one unrecorded month after a `break`. |
| BudgetSimulation.BudgetRunPaidOffLast | debt_calculator.py:142-157 | A fully recorded paid-off run records all the interest it reports, and its last total is at most epsilon. |
| BudgetSimulation.BudgetRunRaisesStepError | debt_calculator.py:110 | Every exception of a run is one its step raises on some cards. |
| BudgetSimulation.BudgetRunInterest | debt_calculator.py:88-148 | With non-negative data, no month's interest, recorded total or running interest is negative, and the reported total is at least the interest so far. |
| BudgetSimulation.TotalBudgetHistory | debt_calculator.py:53-157 | Every result has a ledger history. Not paid off means `Cap(max_months) + 1` months with a snapshot per earlier month. Paid off means at most the cap, with a snapshot per month ending at or below epsilon; proportional may end with one unrecorded month. |
| BudgetSimulation.TotalBudgetErrors | debt_calculator.py:68-115 | Only a non-positive budget or an unknown strategy raise a ValueError. Only proportional with a negative epsilon raises a ZeroDivisionError. KeyError never occurs. |
| BudgetSimulation.TotalBudgetInterest | debt_calculator.py:88-95 | With non-negative balances, APRs and epsilon, all reported interest is non-negative. |
| BudgetSimulation.DustMonth | debt_calculator.py:88-101 | Cards each at or below epsilon accrue nothing and none is active. |
| BudgetSimulation.BudgetRunStuck | debt_calculator.py:77-148 | A run whose step leaves dust cards as they are repeats to the cap, with no interest. |
| BudgetSimulation.DustStallsInOrder | debt_calculator.py:77-139 | Avalanche and snowball never pay dust cards whose sum exceeds epsilon: the result is not paid off at the cap, with zero interest. |
| BudgetSimulation.DustStopsProportional | debt_calculator.py:112-115 | Proportional on the same dust cards breaks in the first month and reports paid off with an empty history. |
| BudgetSimulation.AllocatePayments | debt_calculator.py:97-139 | The in-place allocation leaves the month's cards, or reports the break or the exception of the allocation specification. |
| BudgetSimulation.PayMonth | debt_calculator.py:88-139 | Accrual then allocation, in place, equal to the step on the accrued cards, with the month's interest returned. |
| BudgetSimulation.SimulatePayoffTotalBudget | debt_calculator.py:53-157 | The simulator's loop computes the shared-budget result for every input. |
| ManualSimulation.LastMatch | debt_calculator.py:178 | The position found holds the name. |
| ManualSimulation.LastMatchExact | debt_calculator.py:178 | The match is the last card with the name, and none exists exactly when no card has the name. |
| ManualSimulation.LastMatchSameNames | debt_calculator.py:178 | The last match depends only on the names. |
| ManualSimulation.NameIndex | debt_calculator.py:178 | Definition: `name_to_card`, built card by card so the last card of a name wins. Properties in NameIndexIsLastMatch. |
| ManualSimulation.NameIndexIsLastMatch | debt_calculator.py:178 | `name_to_card` holds exactly the card names, each mapped to its last card. |
| ManualSimulation.ManualPay | debt_calculator.py:209-211 | A card keeps its name and APR, absorbs at most the payment and never goes below zero; it takes either the whole payment or is paid off, so surplus never rolls over; only a card above epsilon with a positive payment changes, and such a card with a positive balance always does. |
| ManualSimulation.PayEach | debt_calculator.py:205-211 | A failing month raises only a KeyError, and a month that pays keeps the number of cards. |
| ManualSimulation.PayEachKeepsNames | debt_calculator.py:205-211 | A month's payments keep every name. |
| ManualSimulation.PayEachFails | debt_calculator.py:205-207 | The payments raise a KeyError exactly when some payment names no card. |
| ManualSimulation.PayEachEffect | debt_calculator.py:205-211 | With distinct payment names, the last card with each paid name gets that payment, capped at its balance. Every other card is untouched, and surplus does not roll over. |
| ManualSimulation.AmountForAbsent | debt_calculator.py:205 | A name no payment carries has no amount. |
| ManualSimulation.ManualStep | debt_calculator.py:204-211 | Definition: the manual allocation step, PayEach on the accrued cards, its KeyError as a raised month. |
| ManualSimulation.ManualPayoff | debt_calculator.py:160-227 | A negative payment is a ValueError first. Paid-off cards give paid off after 0 months. A cap below one gives not paid off after 1 month. |
| ManualSimulation.ManualMonthNamed | debt_calculator.py:195-211 | A month whose payments all name a card pays, and keeps every name. |
| ManualSimulation.ManualRunNoError | debt_calculator.py:184-219 | A run whose payments all name a card never raises. |
| ManualSimulation.ManualPayoffErrors | debt_calculator.py:174-207 | A ValueError occurs exactly when a payment is negative. A KeyError occurs exactly when none is, some payment names no card, and a month runs. |
| ManualSimulation.ManualNeverStops | debt_calculator.py:184-219 | The manual step never ends the loop early. |
| ManualSimulation.ManualPayoffHistory | debt_calculator.py:184-227 | The history is a ledger with one entry per month. The cap gives `Cap(max_months) + 1` months (1 when `max_months` is negative). Paying off ends on a total at most epsilon, and the reported interest is the history's sum. |
| ManualSimulation.PayEachKeepsNonNegative | debt_calculator.py:205-211 | Manual payments keep balances and APRs non-negative. |
| ManualSimulation.ManualPayoffInterest | debt_calculator.py:195-202 | With non-negative data, manual runs report non-negative interest. |
| ManualSimulation.ManualRunStalls | debt_calculator.py:184-219 | Zero payments to existing cards never lower a balance, so an unpaid run goes to the cap. |
| ManualSimulation.ZeroMonth | debt_calculator.py:195-211 | A month of zero payments to existing cards pays nothing, keeps every name and non-negative APRs, and never lowers the total. |
| ManualSimulation.AccrualNeverLowers | debt_calculator.py:195-202 | Accrual keeps names and APRs and never lowers the total. |
| ManualSimulation.PayEachZero | debt_calculator.py:209 | Zero payments to existing cards change nothing. |
| ManualSimulation.ManualPayoffStalls | debt_calculator.py:160-227 | Zero payments never pay off a balance above epsilon: not paid off after `Cap(max_months) + 1` months. |
| ManualSimulation.ApplyManualPayments | debt_calculator.py:204-211 | The in-place loop through `name_to_card` equals the payment specification, KeyError included. |
| ManualSimulation.CheckAmounts | debt_calculator.py:174-176 | The check reports an error exactly when a payment is negative, and that error is a ValueError. |
| ManualSimulation.SimulatePayoffManualPayments | debt_calculator.py:160-227 | The simulator's loop computes the manual result for every input. |
| ManualSimulation.MonthKeepsNameIndex | debt_calculator.py:178-211 | A month leaves `name_to_card` pointing at the same cards. |
| ManualSimulation.NameIndexSameNames | debt_calculator.py:178 | The name index depends only on the names. |
| StreamlitEngine.ApplyOneTimePayment | debt_app_streamlit.py:30-37 | The app's early-return loop equals the calculator's one-time payment, with errors leaving the cards unchanged. |
| StreamlitEngine.AppMonth | debt_app_streamlit.py:71-103 | A ValueError occurs exactly for an unknown strategy. ZeroDivisionError and the `break` occur only for proportional. KeyError never occurs. |
| StreamlitEngine.AppMonthAgrees | debt_app_streamlit.py:75-100 | With epsilon at least zero, the app's single-pass month equals the calculator's month. |
| StreamlitEngine.Headline | debt_app_streamlit.py:105-109 | Definition: the app's result dict, the exception or the paid-off flag, months and total interest of a calculator-style result. |
| StreamlitEngine.HeadlineForgetsOnlyHistory | debt_app_streamlit.py:105-109 | The app's result keeps everything of the calculator's result but the history and extra entries: two results have the same headline exactly when they raise the same exception, or agree on paid off, months and total interest. |
| StreamlitEngine.AppStep | debt_app_streamlit.py:71-103 | Definition: the app's allocation step, AppMonth on the accrued cards. |
| StreamlitEngine.AppPayoff | debt_app_streamlit.py:40-109 | A non-positive budget is a ValueError. Paid-off cards give paid off after 0 months. A cap below one gives not paid off after 1 month. An unknown strategy is a ValueError once a month runs. |
| StreamlitEngine.SummaryRun | debt_app_streamlit.py:54-69 | Definition: the app's while loop, which keeps no history. Paid off once the total is at most epsilon, not paid off with one more month past the cap, otherwise interest accrues and SummaryAfter continues. |
| StreamlitEngine.SummaryAfter | debt_app_streamlit.py:93-103 | Definition: the end of an app month. The `break` returns paid off, an exception ends the run, and a paying month loops. |
| StreamlitEngine.SummaryRunIsHeadline | debt_app_streamlit.py:54-109 | The app's history-free loop returns the headline of the calculator-style loop from the same state. |
| StreamlitEngine.AppMatchesCalculator | debt_app_streamlit.py:40-109 | With epsilon at least zero, app and calculator give the same exception, or the same flag, months and interest. |
| StreamlitEngine.AppPayoffShape | debt_app_streamlit.py:47-103 | The exceptions are as in the calculator. Not paid off means `Cap(max_months) + 1` months; paid off means at most the cap. |
| StreamlitEngine.AppPayoffInterest | debt_app_streamlit.py:64-69 | With non-negative data, the app's total interest is non-negative. |
| StreamlitEngine.AllocateAppPayments | debt_app_streamlit.py:71-103 | The in-place allocation equals the app's month specification. |
| StreamlitEngine.PayAppMonth | debt_app_streamlit.py:64-103 | Accrual then allocation, in place, equal to the app's step on the accrued cards. |
| StreamlitEngine.SimulatePayoffTotalBudget | debt_app_streamlit.py:40-109 | The app's loop computes the app's result for every input. |
| Scenarios.OneTimePaymentFirstCard | debt_calculator.py:40-44 | Of two cards with the same name, only the first is paid. |
| Scenarios.OneTimePaymentClamps | debt_calculator.py:43 | Overpaying leaves zero, not a credit. |
| Scenarios.TwoCardOrders | debt_calculator.py:101-105 | For 1000 at 20% and 500 at 10%, both cards are active; avalanche pays the 20% card first, snowball the 500 card. |
| Scenarios.InOrderStrategyCases | debt_calculator.py:102-127 | Paying 100: avalanche pays the higher APR, snowball the smaller balance. |
| Scenarios.ProportionalCase | debt_calculator.py:112-120 | Proportional splits 150 as 100 and 50 between 1000 and 500. |
| Scenarios.OneMonthCase | debt_calculator.py:77-148 | 1200 at 24% with 200 a month and a one-month cap: 24 interest, 1024 left, not paid off after 2 months with one snapshot. |
| Scenarios.ManualCase | debt_calculator.py:184-227 | 60 a month against 100 at 0%: paid off after 2 months, and the second month pays only the 40 owed. |
| Scenarios.ManualUnknownCard | debt_calculator.py:206-207 | A payment to an unknown card raises a KeyError once a month runs. |
| Scenarios.ManualPaidOffUnknownCard | debt_calculator.py:184 | With the cards already paid off, the same payments raise nothing. |
| Scenarios.ManualNegativeAmount | debt_calculator.py:174-176 | A negative amount raises a ValueError even when nothing is owed. |

## Left out

- Floating point: the model computes over the reals. IEEE-754 rounding, NaN and infinities are not modelled. The order of summation in `sum` and in the interest totals therefore does not matter.
- The rest of `debt_calculator.py` and all of `debt_app_streamlit.py` outside the engine: console prompts, reading and saving JSON, budget comparisons, printing, and the Streamlit user interface. These are I/O built on the engine.
- The extra entries of the result dicts, which are constants or echo the inputs: `"reason"`, `"monthly_budget"`, `"strategy"` and `"monthly_payments"`. Exception messages are also left out; only the exception class is kept.
- Aliasing: a caller's `Card` objects shared between lists are not modelled. The engine works on a deep copy, and one-time payments are modelled on one array.
- Python's dynamic typing: a non-integer `max_months` and non-numeric amounts are not modelled. `max_months` is an `int`.
- `Allocation.PayoffOrder`: Python's `list.sort` is modelled as a stable insertion sort. Only its result is proved (sorted, stable, a permutation), not the library's algorithm.
- `StreamlitEngine.AppMatchesCalculator`: stated only for `epsilon >= 0`. With a negative epsilon, the calculator's second pass can pay cards the app leaves alone.
- Default arguments: `strategy="avalanche"`, `max_months=2000` and `epsilon=1e-6` of both simulators are not modelled. Every member takes these values explicitly.
- Sharing inside one card list: `deepcopy` keeps a `Card` object listed twice as one object, so it would accrue and be paid once per listing on the same balance. A sequence of values holds two independent copies, so the model does not capture this.
- `ManualSimulation.PayEachEffect`: stated only for payments with pairwise different names, as the keys of a dict are.
