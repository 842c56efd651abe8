# MoneySplitter settlement engine in Dafny

MoneySplitter records who paid for what in a group session. Its settlement
engine turns a session into:

- each participant's net balance, and
- a short list of payments that settles those balances.

All amounts are integers in minor currency units (grosze). This project
models the engine, the records and field validators it relies on, and the
two integer currency formatters. It proves the laws the engine promises:

- every expense is split exactly;
- the balances sum to zero;
- each balance is what the participant paid minus what they owe;
- the balance list is sorted by balance, largest first, stably;
- every payment is positive and runs from a debtor to a creditor;
- the payments settle every balance.

Files:

- `models.dfy` (module `Models`): the records `Participant`, `Expense`,
  `Session`, `Balance`, `Payment` and `Settlement`; Python's `str.strip`;
  the field validators as `Result`-returning functions.
- `sorting.dfy` (module `Sorting`): Python's `list.sort(key=..., reverse=True)`.
  - `SortDesc` is a functional stable insertion sort, proved sorted, a
    permutation, stable, and sum-preserving.
  - `SortInPlace` is the in-place array sort the engine calls, proved to
    produce `SortDesc` of the array's old contents.
- `settlement.dfy` (module `Settlement`): `calculate_balances`,
  `optimize_payments` and `calculate_settlement`.
  - The two loop-based operations are methods over a `map` (the balance
    map) and over arrays (the debtor and creditor lists, sorted in place
    and overwritten by the two-cursor loop).
  - Each method is proved equal to a specification function:
    - `ApplyAll` / `BalancesOf` for the balances;
    - `Greedy` / `PaymentsOf` for the payments.
  - The laws are lemmas about those functions.
- `utils.dfy` (module `Currency`): `format_currency` and
  `format_currency_input`, plus `ReadAmount`. `ReadAmount` is the reading a
  person gives the rendered string (a sign for the whole amount, złoty
  digits, separator, two grosze digits); the formatters are judged against
  it.

Records (models.py): `Participant` (lines 7-16), `Expense` (19-46),
`Session` (49-62), `Balance` (65-68), `Payment` (71-76) and `Settlement`
(79-81) are Dafny datatypes with the same fields. `Balance`, `Payment` and
`Settlement` carry no checks in the source, so they are plain records here;
the checks on the first three are the `New...` constructors below. The
settlement engine's own `Entry` is the `(participant_id, amount)` pair of
the debtor and creditor lists (settlement.py:51-52).

Conventions:

- A balance is positive when the group owes the participant, and negative
  when the participant owes the group.
- "Applying a payment" raises the sender's balance by the amount and lowers
  the receiver's balance by it. This is the direction in which settling
  drives the balances to zero. Subtracting from the sender instead would
  double the debts.
- Python's `//` and `%` by a positive divisor agree with Dafny's `/` and `%`.
  Every division in the model has divisor 100 or a beneficiary count of at
  least one.

## Model

| member | source | states |
|---|---|---|
| Models.IsSpaceClasses | models.py:14 | the whitespace `strip()` removes includes space, tab, newline and carriage return and never an ASCII letter or digit |
| Models.TrimStart | models.py:16 | the result is a suffix of the input, everything cut off is whitespace, and it does not start with whitespace |
| Models.TrimEnd | models.py:16 | the result is a prefix of the input, everything cut off is whitespace, and it does not end with whitespace |
| Models.Strip | models.py:14-16 | `strip()` is empty exactly when the string is blank (empty or all whitespace); otherwise it starts and ends with non-whitespace |
| Models.StripBounds | models.py:14-16 | `strip()` is a contiguous slice of the input with only whitespace before and after it |
| Models.StripIdempotent | models.py:16 | stripping twice is stripping once |
| Models.ValidateName | models.py:13-16 | a name is accepted iff it has a non-whitespace character; the accepted value is the stripped, non-empty string; a rejected name gives exactly the field's error |
| Models.ValidateNameIdempotent | models.py:16 | re-validating an accepted (stripped) name gives back the same result |
| Models.ValidateAmount | models.py:36-39 | an amount is accepted iff it is positive, and is kept unchanged |
| Models.ValidateBeneficiaries | models.py:43-46 | a beneficiary list is accepted iff non-empty, and is kept unchanged, duplicates included |
| Models.NewParticipant | models.py:7-16 | a participant is built iff the name is not blank; it gets the given id and the stripped name |
| Models.NewExpense | models.py:19-46 | an expense is built iff the title is not blank, the amount is positive and the beneficiary list is non-empty; the title is stored stripped and the other fields unchanged; otherwise every failing field's error is reported, in field order |
| Models.NewSession | models.py:49-62 | a session is built iff the name is not blank; the name is stored stripped; it starts writable with no participants and no expenses |
| Sorting.InsertDesc | settlement.py:43 | one step of the stable sort adds exactly one element; `InsertDescSorted`, `InsertDescKeyFilter` and `InsertDescAt` state where it lands |
| Sorting.SortDesc | settlement.py:43-55 | the stable descending sort keeps the length; `SortDescCorrect`, `SortDescStable` and `SortDescSum` state that it is sorted, a permutation, stable and sum-preserving |
| Sorting.InsertDescSorted | settlement.py:43 | inserting into a sorted list keeps it sorted and adds exactly the new element |
| Sorting.InsertDescKeyFilter | settlement.py:43 | an inserted element lands after every element with the same key |
| Sorting.SortDescCorrect | settlement.py:43 | the sort's output is non-increasing by key and a permutation of the input |
| Sorting.SortDescStable | settlement.py:43 | for every key value, the elements with that key keep their input order |
| Sorting.SortDescSum | settlement.py:43 | every per-element sum is unchanged by the sort |
| Sorting.InsertDescAt | settlement.py:43 | placing an element after the last element whose key is at least its own is the stable insertion |
| Sorting.InsertInPlace | settlement.py:43 | one in-place pass inserts `a[i]` into the sorted prefix `a[..i]`, exactly as the stable insertion does, and leaves the rest of the array alone |
| Sorting.SortInPlace | settlement.py:43 | the in-place sort leaves the array holding the stable descending sort of its old contents |
| Settlement.Share | settlement.py:22-28 | each share is `amount // n` or one unit more; `SharesSumToAmount` and `SharesFair` state which and that they add up |
| Settlement.ShareSumClosed | settlement.py:22-28 | the first `k` shares sum to `k*(amount//n)` plus one unit for each of them that lies before `amount % n` |
| Settlement.SharesSumToAmount | settlement.py:20-30 | the `n` shares of an expense sum exactly to its amount |
| Settlement.SharesFair | settlement.py:22-28 | shares differ by at most one unit, never increase along the list, and the entry at position `i` gets `amount//n + 1` iff `i < amount % n` |
| Settlement.HundredOverThree | settlement.py:22-28 | 100 over three entries gives 34, 33, 33 |
| Settlement.Debit | settlement.py:25-30 | the debit loop touches no key outside the balance map; `DebitClosed` and `SumOverDebit` state what it subtracts |
| Settlement.ApplyExpense | settlement.py:20-32 | one expense keeps the map's keys; `SumOverApplyExpense` states that it keeps the sum |
| Settlement.ApplyAll | settlement.py:19-32 | all expenses keep the map's keys; `ApplyAllClosed` and `SumOverApplyAll` state the final balances and their sum |
| Settlement.ApplyAllStep | settlement.py:19-32 | processing expense `k` after the first `k` expenses gives the state after the first `k+1` expenses |
| Settlement.DebitClosed | settlement.py:25-30 | after the debit loop, each balance has fallen by that participant's shares, one share per entry that names them |
| Settlement.ApplyAllClosed | settlement.py:17-32 | after all expenses, each balance is its starting value plus what the participant paid minus the shares they owe |
| Settlement.SumOverUpdate | settlement.py:30-32 | adding `d` to one participant's balance adds `d` to the sum over distinct participants |
| Settlement.SumOverDebit | settlement.py:25-30 | the debit loop lowers the sum of balances by the sum of the shares it debits |
| Settlement.SumOverApplyExpense | settlement.py:20-32 | one expense (shares debited, payer credited the amount) leaves the sum of all balances unchanged |
| Settlement.SumOverApplyAll | settlement.py:17-32 | processing any valid list of expenses leaves the sum of all balances unchanged |
| Settlement.Emit | settlement.py:34-41 | one Balance per participant; `EmitTotal` and `EmitFinalMap` state its sum and its entries |
| Settlement.EmitTotal | settlement.py:34-41 | the emitted balance list sums to the sum of the map over the participants |
| Settlement.EmitFinalMap | settlement.py:34-41 | the emitted list has one Balance per participant, in participant order, carrying paid minus owed |
| Settlement.NetBalancesSumToZero | settlement.py:17-41 | the net balances of a valid session sum to zero |
| Settlement.BalancesOf | settlement.py:15-45 | the balance list has one entry per participant; `BalancesOfCorrect` and `BalancesOneEach` state the rest |
| Settlement.BalancesOfCorrect | settlement.py:15-45 | the returned list has one Balance per participant (zero ones included); it is a permutation of the net balances, sorted non-increasing, ties in participant order, and sums to zero |
| Settlement.DebitShares | settlement.py:20-30 | the share loop of one expense produces the map with every share debited |
| Settlement.ProcessExpense | settlement.py:19-32 | one pass of the expense loop produces the map after that expense |
| Settlement.AccumulateBalances | settlement.py:17-32 | the nested loops produce the balance map of all expenses |
| Settlement.CalculateBalances | settlement.py:15-45 | `calculate_balances` returns the stable descending sort of the net balances: one per participant, summing to zero, sorted |
| Settlement.BalancesKnown | settlement.py:34-41 | every returned balance belongs to a participant |
| Settlement.NetOneEach | settlement.py:16-17 | the net balances name distinct participants: two with the same id are the same balance |
| Settlement.BalancesOneEach | settlement.py:34-43 | the sorted balance list still gives no participant two balances |
| Settlement.Debtors | settlement.py:51 | debtors carry positive magnitudes |
| Settlement.Creditors | settlement.py:52 | creditors carry positive amounts |
| Settlement.DebtorsKnown | settlement.py:51 | the debtors are exactly the participants with a negative balance |
| Settlement.CreditorsKnown | settlement.py:52 | the creditors are exactly the participants with a positive balance |
| Settlement.DebtorsCreditorsSplit | settlement.py:51-52 | per participant, debt minus credit is minus the balance: nothing is lost by dropping zeros |
| Settlement.DebtorsCreditorsTotal | settlement.py:51-52 | in total, all debt minus all credit is minus the sum of the balances |
| Settlement.NameMap | settlement.py:49 | the name lookup covers exactly the participants' ids, and maps each id to the name of the last participant carrying it (the dict comprehension's later-wins rule) |
| Settlement.EntriesKnown | settlement.py:49-55 | the sorted debtor and creditor lists hold known, non-negative entries and are exactly the negative and positive balances |
| Settlement.Reduce | settlement.py:75-81 | taking the full current amount drops the entry, so the list gets shorter |
| Settlement.ReduceKeeps | settlement.py:75-81 | overwriting the current entry brings in no new participant and keeps amounts non-negative |
| Settlement.ReduceSums | settlement.py:75-81 | taking `t` from the current entry takes `t` from the list's total and from its owner's part |
| Settlement.Recorded | settlement.py:64-73 | one step records at most one payment, positive, from the current debtor to the current creditor |
| Settlement.Greedy | settlement.py:59-81 | every recorded payment is positive; `GreedySettles`, `GreedyPayments` and `GreedyLength` state the rest |
| Settlement.PaymentsOf | settlement.py:48-83 | every payment is positive; `PaymentsShape`, `PaymentsSettle` and `ZeroBalanceUntouched` state the rest |
| Settlement.GreedyStep | settlement.py:59-81 | one loop step records the current payment and continues on the reduced lists |
| Settlement.GreedySettles | settlement.py:59-81 | when total debt equals total credit, every debtor sends exactly what they owe and every creditor receives exactly what they are owed |
| Settlement.GreedyPayments | settlement.py:64-73 | every recorded payment is positive, runs from a debtor to a creditor, and carries their names |
| Settlement.GreedyLength | settlement.py:60-81 | each step moves past a debtor or a creditor, so there are at most `|debtors| + |creditors|` payments |
| Settlement.PaymentsSettle | settlement.py:48-83 | when the balances sum to zero, each balance plus what that participant sends, minus what they receive, is exactly zero |
| Settlement.PaymentsShape | settlement.py:51-73 | every payment is positive, from a negative balance to a positive one, under the participants' names; there are at most `|debtors| + |creditors|` of them |
| Settlement.ZeroBalanceUntouched | settlement.py:51-52 | in a balance list with one balance per participant, a participant with a zero balance neither sends nor receives |
| Settlement.SettledUntouched | settlement.py:5-12 | in the settlement of a valid session, a participant whose balance is zero appears in no payment |
| Settlement.TakeFrom | settlement.py:75-81 | the write-back of one step: the entry at the cursor becomes the same id with `t` less, every other entry is unchanged, the cursor advances exactly when the entry reaches zero, and the list from the cursor on is `Reduce` of the old one |
| Settlement.MatchGreedy | settlement.py:57-83 | the two-cursor `while` loop returns the greedy matching of the sorted lists it starts with |
| Settlement.OptimizePayments | settlement.py:48-83 | `optimize_payments` returns the greedy payments; each is positive, from a debtor to a creditor, and when the balances sum to zero they settle every participant |
| Settlement.SettlementOf | settlement.py:5-12 | the settlement has one balance per participant and only positive payments |
| Settlement.CalculateSettlement | settlement.py:5-12 | `calculate_settlement` is a function of the session alone (deterministic); the balances (one per participant) sum to zero, the payments bring every participant to zero, and no participant with a zero balance is in a payment |
| Settlement.ThreeWayBalances | settlement.py:15-45 | 300 paid by A for A, B, C gives A +200, B -100, C -100 |
| Settlement.ThreeWayPayments | settlement.py:48-83 | for those balances the payments are B to A 100, then C to A 100 |
| Currency.FormatCurrency | utils.py:1-4 | the display string ends in `,`, two digits and ` zł`, and starts with `-` exactly when the amount is negative; the round-trip lemmas below state what it reads as |
| Currency.FormatCurrencyInput | utils.py:7-10 | the input string ends in `.` and two digits, and starts with `-` exactly when the amount is negative |
| Currency.NatToString | utils.py:3-4 | the decimal digits of a number have no leading zero |
| Currency.IntToString | utils.py:3-4 | a minus sign comes first exactly when the number is negative |
| Currency.TwoDigits | utils.py:4 | `{g:02d}` for `g` in 0..99 is exactly two digits |
| Currency.NatToStringRoundTrip | utils.py:3-4 | the rendered digits read back as the number |
| Currency.TwoDigitsRoundTrip | utils.py:4 | the two rendered grosze digits read back as the grosze value |
| Currency.ReadParts | utils.py:1-4 | a string built as sign, złoty digits, separator, grosze and suffix reads back as the signed amount |
| Currency.GroszeDigits | utils.py:3-4 | in both formats the grosze part is two digits whose value is `abs(amount) % 100` |
| Currency.InputMatchesDisplay | utils.py:1-10 | both formats carry the same złoty and grosze parts; the display form has `,` and the suffix where the input form has `.` and nothing |
| Currency.FormatCurrencyRoundTrip | utils.py:1-4 | a non-negative amount renders as `<zloty>,<gg> zł` and reads back as itself |
| Currency.FormatCurrencyInputRoundTrip | utils.py:7-10 | a non-negative amount renders as `<zloty>.<gg>` and reads back as itself |
| Currency.FloorOfNegative | utils.py:2-3 | for a negative amount, the floor quotient overshoots the magnitude's whole złoty by one exactly when grosze remain |
| Currency.NegativeDisplay | utils.py:1-4 | a negative amount renders as a minus sign, the negated floor quotient, the grosze digits and the suffix |
| Currency.FormatCurrencyMisreadsNegatives | utils.py:1-4 | a negative amount that is not whole złoty reads back one złoty more negative than it is; whole-złoty negatives read back correctly |
| Currency.MinusOneFiftyShownAsMinusTwoFifty | utils.py:1-4 | -150 renders as `-2,50 zł`, which reads as -250 |
| Currency.FormatCurrencyCorrectedRoundTrip | utils.py:1-4 | the sign-first rendering reads back as the amount, for every amount |
| Currency.FormatCurrencyCorrectedAgrees | utils.py:1-4 | the sign-first rendering is the very same string wherever the original reads correctly |

## Left out

- main.py: the web routes, templates, CSV/PDF export and the request checks. Those checks (main.py:121-134) enter only as the engine's preconditions.
- storage.py: the in-memory session store, and concurrent access to it.
- `parse_currency` (utils.py:13-21): it parses through a float and rounds.
- Identifier generation and clocks: ids are opaque strings, and dates and timestamps are opaque values the model never reads.
- Pydantic's validation machinery and exception types: the validators are functions returning `Ok` or the list of field errors.
- Settlement.CalculateBalances: requires distinct participant ids (`DistinctIds`).
  - With repeated ids the source's dict comprehension would merge entries. Ids are random uuid4 values, so this does not arise.
- Settlement.CalculateBalances: requires that every expense has a beneficiary and that the payer and every beneficiary are participants (`WellFormed`).
  - The source would fail with a division by zero or a missing-key error. Callers reject such expenses first.
  - A positive amount is not required: every law above holds for any amount.
- Settlement.OptimizePayments: requires every balance to name a participant (`KnownIds`).
  - The source needs this only for the ids that reach a payment. `calculate_settlement` always supplies such balances (`BalancesKnown`).
- Settlement.CalculateBalances: the source emits balances in the balance map's insertion order. The model emits them in participant order, which is the same order for distinct ids.
- Settlement.PaymentsSettle: states settlement as "sender's balance rises, receiver's falls".
  - A plain-language reading ("subtract from `from`, add to `to`") has the opposite sign. That reading would not reach zero, so the model follows the code's meaning.
- Settlement.MatchGreedy: the final contents of the debtor and creditor arrays are not stated, only the payments. The source drops both lists when `optimize_payments` returns (settlement.py:83).
- Sorting.SortInPlace: Python's `list.sort` is a library call, and its algorithm (Timsort) is not modelled. Only its observable result is modelled: a stable sort into non-increasing order.

## Findings

| source | as written | input that shows it | evidently intended | confidence | as-written member | corrected member |
|---|---|---|---|---|---|---|
| utils.py:1-4 | the złoty part is `amount // 100` (floor) and the grosze part is `abs(amount) % 100`, so a negative amount with grosze shows one złoty too many | -150 (owes 1,50 zł) renders as `-2,50 zł`; negative balances are rendered this way (main.py:220, 358) | the sign applies to the whole amount: `-1,50 zł` | not executed | Currency.FormatCurrencyMisreadsNegatives | Currency.FormatCurrencyCorrectedRoundTrip |

The model keeps `Currency.FormatCurrency` exactly as written and proves the
discrepancy about it. `Currency.FormatCurrencyCorrected` is the sign-first
rendering. It reads back correctly for every amount, and it is the same
string wherever the original is correct.
