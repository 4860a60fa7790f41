# ExpenseManager balance and split engine in Dafny

ExpenseManager is a React application in which a group of people record
shared expenses and settle debts. Each expense has an amount, a payer
(`paidBy`), a list of participant emails, and one split per participant
giving that person's owed share. This project models the logic behind the
views, always from the point of view of the signed-in user (the *viewer*):

- **Balances** (`balances.dfy`, `debts.dfy`). The fold over all expenses gives
  each counterparty's balance with the viewer. A positive balance means the
  counterparty owes the viewer.
- **Debt views** (`debts.dfy`). These hold the two sorted debt lists, the
  settlement record built when a debt is paid or received, and the history
  with one friend.
- **Dashboard** (`dashboard.dfy`). This covers the summary totals, the month's
  spend, and the five recent rows and five largest balances.
- **Transactions** (`transactions.dfy`). These are the date filters over the
  transaction list and the debit/credit classification of a row.
- **Add-expense form** (`add_expense.dfy`). This covers the equal and manual
  splits, the participant list, the manual entry filter, and the submit
  validation.
- **Settle dialog** (`settle_modal.dfy`). A class holds the amount field and
  the error message. Its methods are the keystroke handler, the submit
  handler and the reset.
- **Application shell** (`app.dfy`). This covers collecting emails, building
  the email-to-name map, finding the names still missing after an expense is
  added, and the prepend-then-sort of the expense list.
- **Shared pieces**:
  - `types.dfy`: the records.
  - `money.dfy`: the amount pattern `^\d*\.?\d{0,2}$`, `parseFloat` and
    `toFixed(2)` on such text.
  - `calendar.dfy`: calendar dates.
  - `seqs.dfy`: the array `filter`, `sort` and `slice`.

Money is in integer paise (1 rupee = 100 paise). With whole paise, the
source's float tolerances become exact integer comparisons:

- `Math.abs(b) > 0.01` means more than one paisa.
- `Math.abs(total - sum) < 0.01` means equality.
- `amount > totalDebt + 0.001` means `amount > totalDebt`.

The JavaScript balance dictionary is modelled as an association list kept in
insertion order, which is the order `Object.entries` returns for email keys.
A new key goes at the end, and an existing key is updated in place.

"Now" and the creation date of a new record are parameters. The results of
the store's queries (the users found for a list of emails) are also
parameters.

A Settlement someone else paid is not left out of the month's spend: the
code (components/Dashboard.tsx lines 74-76) subtracts the viewer's split of
it. `Dashboard.SettlementInMonthlySpend` works through a purchase of 100.00
shared evenly plus a settlement of 30.00. The month's spend is 50.00 when the
viewer paid the settlement and 20.00 when the friend paid it (the viewer
received money).

In equal mode the last share takes the rounding remainder, so it can be
smaller than the others and even negative. `AddExpense.LastShareCanBeNegative`
shows this: 0.05 among eight people gives seven shares of 0.01 and a last
share of -0.02. The splits still add up to the total exactly.

## Model

| member | source | states |
|---|---|---|
| Types.FindSplit | components/Debts.tsx:68 | `splits.find`: None exactly when no split has the email; otherwise the first split with that email |
| Types.ShareOf | components/Dashboard.tsx:72 | the share read as `find(...)?.amount` defaulting to 0: the first matching split's amount, 0 when the email has no split |
| Money.ParseAmount | components/SettleDebtModal.tsx:41-43 | text the amount pattern accepts parses to a non-negative paise value; the accepted texts without a value (NaN) are exactly "" and "."; the value itself is given by the lemmas below |
| Money.MatchesAmountPattern | components/SettleDebtModal.tsx:41 | `^\d*\.?\d{0,2}$`, also at components/AddExpenseModal.tsx:110; the shapes it accepts are given by `PatternShapes` |
| Money.PatternShapes | components/SettleDebtModal.tsx:41 | every text the pattern accepts, other than "" and ".", is either all digits or digits, one dot and at most two digits |
| Money.ParseWithoutDot | components/SettleDebtModal.tsx:41-43 | digits without a dot parse to that many whole rupees ("50" is 5000 paise) |
| Money.ParseWithDot | components/SettleDebtModal.tsx:41-43 | digits, a dot and up to two digits parse to the digits read as one number once the dot is removed and the fraction padded to two digits ("12.5" is 1250 paise, "5." is 500) |
| Money.ParseTrailingDot | components/SettleDebtModal.tsx:41-43 | for all digits w, "w." parses to w whole rupees ("5." is 500 paise) |
| Money.ParseOneDecimal | components/SettleDebtModal.tsx:41-43 | for all digits w and d, "w.d" parses to 100w + 10d paise ("12.5" is 1250) |
| Money.ParseTwoDecimals | components/SettleDebtModal.tsx:41-43 | for all digits w, d and e, "w.de" parses to 100w + 10d + e paise ("12.05" is 1205) |
| Money.ParseLeadingDot | components/SettleDebtModal.tsx:41-43 | ".d" with no whole part parses to 10d paise |
| Money.FormatParseRoundTrip | components/SettleDebtModal.tsx:45 | `toFixed(2)` of a paise amount is accepted by the input pattern and parses back to the same amount |
| Money.FormatAmount | components/SettleDebtModal.tsx:45 | `toFixed(2)` of a paise amount: digits, a dot and exactly two digits; `FormatParseRoundTrip` shows it reads back as the same amount |
| Calendar.SameDayIsEquivalence | components/Transactions.tsx:36-39 | `isSameDay` (same year, month and day) is reflexive, symmetric and transitive, and implies the same month |
| Calendar.PrevDay | components/Transactions.tsx:84-88 | yesterday's midnight is a valid date: the previous day of the month, or the last day of the previous month on the 1st |
| Calendar.PrevNextRoundTrip | components/Transactions.tsx:84-88 | stepping a day back then forward (or forward then back) returns the same day's midnight |
| Calendar.TimestampOrders | App.tsx:107 | the sort key orders valid dates by year, then month, then day, then time of day, in both directions; the "newest first" sorts (also components/Debts.tsx:133) rest on it |
| Balances.Credit | components/Debts.tsx:63 | adding d to `balances[k]` (absent counts as 0): only k's balance moves, by d; k becomes a key (appended when new); key order and uniqueness are kept |
| Balances.CreditSplits | components/Debts.tsx:61-65 | each non-viewer split's amount is added to that person's balance, the viewer's own split is ignored, and the keys grow by exactly those emails |
| Balances.CreditOtherSplits | components/Debts.tsx:61-65 | the in-place loop over the splits computes `CreditSplits` |
| Balances.ApplyExpense | components/Debts.tsx:59-73 | paid by the viewer: others' splits credited; paid by another with the viewer participating: only the payer moves, down by the viewer's share (0 without a split); viewer uninvolved: nothing changes; the viewer never becomes a key |
| Balances.Fold | components/Debts.tsx:57-73 | the balance dictionary has each key once and never the viewer |
| Balances.ApplyExpenseInPlace | components/Debts.tsx:60-72 | one pass of the outer loop updates the dictionary exactly as `ApplyExpense` |
| Balances.ComputeBalances | components/Debts.tsx:57-73 | the nested in-place loops compute the fold, with unique keys and no viewer key |
| Balances.FoldIsSumOfDeltas | components/Debts.tsx:59-73 | every balance is the sum of the independent per-expense deltas |
| Balances.FoldKeys | components/Debts.tsx:59-73 | a counterparty is a key exactly when some expense touches it |
| Balances.SumDeltaAppend | components/Debts.tsx:59-73 | the delta sum over two lists is the sum of their delta sums |
| Balances.SumDeltaPermutation | components/Debts.tsx:59-73 | the delta sum is the same for any reordering of the expenses |
| Balances.BalancesOrderIndependent | components/Debts.tsx:59-73 | two orderings of the same expenses give every counterparty the same balance and the same set of counterparties |
| Balances.FoldAppend | components/Debts.tsx:59-73 | folding more expenses adds their deltas to the earlier balances |
| Balances.ShareOfIsSplitTotal | components/Debts.tsx:63-68 | when no email has two splits, the share `find` reads equals the sum of that email's splits |
| Balances.DeltaSymmetry | components/Debts.tsx:59-73 | for a record whose splits belong to distinct participants, what it adds to b in a's view is minus what it adds to a in b's view |
| Balances.SumDeltaSymmetry | components/Debts.tsx:59-73 | the same opposite-sign relation holds for the delta sums over any list of such records |
| Balances.BalanceSymmetry | components/Debts.tsx:57-73 | balance symmetry: b's balance in a's view is minus a's balance in b's view (A pays 100 split evenly with B: A sees B at +50, B sees A at -50) |
| Debts.LocalPart | components/Debts.tsx:79 | `email.split('@')[0]`: a prefix of the email with no '@', ending just before the first '@' |
| Debts.DisplayName | components/Debts.tsx:79 | the name map's non-empty entry, otherwise the local part of the email |
| Debts.Named | components/Debts.tsx:75-80 | one record per dictionary key, in key order, with its balance and display name |
| Debts.SignificantBalances | components/Debts.tsx:75-81 | exactly the named balances with magnitude above one paisa, in key order (a subsequence) |
| Debts.PeopleUserOwes | components/Debts.tsx:83 | exactly the balances below -1 paisa (as a multiset), in ascending order |
| Debts.PeopleWhoOweUser | components/Debts.tsx:84 | exactly the balances above 1 paisa (as a multiset), in descending order |
| Debts.DebtLists | components/Debts.tsx:75-86 | the two lists the view returns: the "you owe" list holds only balances below -1 paisa, the "owes you" list only balances above 1 paisa, so no entry is in both |
| Debts.DebtListsCoverBalances | components/Debts.tsx:56-87 | every counterparty of the fold appears, with its balance and display name, in the "you owe" list iff its balance is below -1 paisa and in the "owes you" list iff above 1 paisa |
| Debts.BuildSettlement | components/Debts.tsx:98-113 | pay mode iff balance < 0; category "Settlement", participants [viewer, friend], payer viewer (pay) or friend (receive), the non-payer's split is the amount and the payer's 0, so the splits sum to the amount |
| Debts.SettlementWellFormed | components/Debts.tsx:103-112 | a settlement between the viewer and another person has one split per participant, each a participant, so balance symmetry covers it |
| Debts.SettlementMovesOnlyFriend | components/Debts.tsx:59-73 | folding a settlement moves only the friend's balance: +amount in pay mode, -amount in receive mode |
| Debts.SettlementReducesDebt | components/Debts.tsx:95-113 | with 0 < amount <= the balance's magnitude, the magnitude falls by exactly the amount without changing sign, and no other balance changes |
| Debts.FriendHistory | components/Debts.tsx:128-134 | empty with no friend selected; otherwise exactly the expenses both share and one of them paid, newest first |
| Dashboard.AllBalances | components/Dashboard.tsx:41-48 | exactly the balances with magnitude above one paisa, sorted largest first |
| Dashboard.Totals | components/Dashboard.tsx:50-59 | the loop's totals are the sum of the positive balances and the sum of the magnitudes of the rest; both are >= 0 and their difference is the sum of all balances |
| Dashboard.CalculateBalances | components/Dashboard.tsx:22-62 | the summary's list is `AllBalances` of the same fold as the debts view, and its totals are as in `Totals` |
| Dashboard.MonthlySpend | components/Dashboard.tsx:66-79 | the filter to the current month then `reduce` of the viewer's spend; its value is given by `MonthlySpendOnlyThisMonth` |
| Dashboard.MonthlySpendOnlyThisMonth | components/Dashboard.tsx:66-79 | the month's spend equals the sum over all expenses of the viewer's share (negated for a Settlement someone else paid) when in the current month and year, and 0 otherwise |
| Dashboard.SettlementInMonthlySpend | components/Dashboard.tsx:71-79 | a purchase with a 50.00 share plus a 30.00 settlement gives 50.00 in pay mode and 20.00 in receive mode |
| Dashboard.RecentRow | components/Dashboard.tsx:100-105 | never both debit and credit; credit iff a Settlement someone else paid; the amount is the total for a Settlement the viewer paid, otherwise the viewer's share |
| Dashboard.RecentRows | components/Dashboard.tsx:99 | at most five rows, one for each of the first expenses, in order |
| Dashboard.TopBalances | components/Dashboard.tsx:130 | the first min(5, n) balances |
| Dashboard.TopBalancesAreLargest | components/Dashboard.tsx:130 | no balance left out of the five shown is larger than one shown |
| Transactions.FilterExpenses | components/Transactions.tsx:81-110 | an order-preserving subsequence; "all" is the whole list; each other filter keeps exactly the expenses on today's date, yesterday's date, this month, or the chosen date |
| Transactions.KeepFor | components/Transactions.tsx:90-106 | the predicate each filter button applies; what each keeps is stated by `FilterExpenses` |
| Transactions.ClassifyRow | components/Transactions.tsx:186-207 | never both debit and credit; credit iff a transfer someone else paid; the amount is the total for a transfer the viewer paid, else the viewer's share; deletable iff the viewer paid |
| Transactions.TransferReadsAsSettlement | components/Transactions.tsx:191-193 | a "Transfer" row reads exactly like the same record marked "Settlement" |
| Transactions.RowAgreesWithDashboard | components/Transactions.tsx:195-204 | outside "Transfer", the list row and the dashboard row agree on debit, credit and amount |
| AddExpense.Emails | components/AddExpenseModal.tsx:152 | the participants' emails in order |
| AddExpense.PerPerson | components/AddExpenseModal.tsx:67-69 | the per-person share is the total divided by the count, rounded to the nearest paisa |
| AddExpense.SplitSumOfEqualPrefix | components/AddExpenseModal.tsx:75 | the `reduce` over k equal shares is k times the share |
| AddExpense.EqualShares | components/AddExpenseModal.tsx:66-81 | one split per participant with the same emails in order, all but the last get the rounded share, and the splits sum exactly to the total |
| AddExpense.EqualSplits | components/AddExpenseModal.tsx:67-82 | the array built, summed and overwritten at its last index yields `EqualShares` |
| AddExpense.LastShareCanBeNegative | components/AddExpenseModal.tsx:76-81 | 5 paise among 8 participants leaves the last share at -2 paise |
| AddExpense.ManualAmount | components/AddExpenseModal.tsx:86 | the parsed manual entry, 0 when it is missing or has no digits; never negative |
| AddExpense.ManualSplits | components/AddExpenseModal.tsx:84-87 | one split per participant carrying its parsed manual entry |
| AddExpense.SplitsFor | components/AddExpenseModal.tsx:59-91 | empty for a missing or non-positive amount or no participants; otherwise one split per participant in order; equal mode sums to the amount; manual mode uses the parsed entries |
| AddExpense.RecomputeSplits | components/AddExpenseModal.tsx:59-91 | the effect stores `SplitsFor` |
| AddExpense.AddParticipant | components/AddExpenseModal.tsx:93-102 | appends the user only when both email and name are present, otherwise leaves the list unchanged |
| AddExpense.RemoveParticipant | components/AddExpenseModal.tsx:104-107 | removing the viewer is a no-op; otherwise exactly the others remain, in order; the viewer is never removed |
| AddExpense.ChangeManualSplit | components/AddExpenseModal.tsx:109-113 | stores the entry iff it matches the amount pattern, otherwise the map is unchanged |
| AddExpense.IsManualSplitValid | components/AddExpenseModal.tsx:115-124 | equal mode is always valid; a manual split is valid when its splits sum exactly to the parsed amount (0 when none); `Submit` rejects exactly the invalid ones |
| AddExpense.Submit | components/AddExpenseModal.tsx:126-154 | "missing fields" iff no positive amount, no reason or no participants; "split mismatch" iff otherwise a manual split not summing to the amount; else the expense paid by the viewer with the participants' emails in order and the given splits |
| AddExpense.SubmitErrorText | components/AddExpenseModal.tsx:126-141 | the error shown after submitting is empty exactly when the submission is accepted, and a non-empty message otherwise |
| AddExpense.SubmittedSplitsSumToAmount | components/AddExpenseModal.tsx:115-154 | an accepted expense built from the computed splits has one split per participant in order, paid by the viewer, summing exactly to its amount in either mode |
| SettleModal.ExceedMessage | components/SettleDebtModal.tsx:45 | the over-limit message is non-empty and differs from the invalid-amount message |
| SettleModal.TotalDebt | components/SettleDebtModal.tsx:31 | the debt is the balance's magnitude, never negative |
| SettleModal.ChangeError | components/SettleDebtModal.tsx:43-48 | after an accepted keystroke the error is set iff the text parses to more than the debt, and is then the over-limit message |
| SettleModal.Validate | components/SettleDebtModal.tsx:54-63 | accepted iff the text parses to 0 < amount <= debt, returning that amount; otherwise the invalid-amount or over-limit message |
| SettleModal.SettleForm.constructor | components/SettleDebtModal.tsx:19-27 | the dialog opens with empty amount and error |
| SettleModal.SettleForm.Open | components/SettleDebtModal.tsx:22-27 | reopening clears amount and error |
| SettleModal.SettleForm.ChangeAmount | components/SettleDebtModal.tsx:39-50 | accepted text replaces the amount and sets the error as `ChangeError`; rejected text leaves both fields unchanged; the form stays valid, so the submit button (line 118) is enabled only for "." or an amount within the debt |
| SettleModal.SettleForm.Submit | components/SettleDebtModal.tsx:52-66 | `onSettle` is called (Some) exactly when `Validate` accepts, with that amount and the error cleared; otherwise the error is `Validate`'s message |
| SettleModal.EnabledAfterChangeIsWithinDebt | components/SettleDebtModal.tsx:118 | after an accepted keystroke, the submit control is enabled only for "." or an amount within the debt |
| SettleModal.AcceptedSettlementReducesDebt | components/SettleDebtModal.tsx:52-66 | settling an accepted amount lowers the friend's debt by exactly that amount and leaves all other balances unchanged |
| App.CollectEmails | App.tsx:55-59 | the collected set holds exactly every payer and every participant of the fetched expenses |
| App.LastNameFor | App.tsx:65-67 | the name of the last user record with that email and a non-empty name, None when there is none |
| App.WithNames | App.tsx:65-67 | `updated.set(u.email, u.name)` for every named user in order: old keys are kept and each new key is the email of a named user; the value per key is given by `WithNamesLookup` |
| App.WithNamesLookup | App.tsx:65-67 | the name map gets a key only for a named user; the last such record wins and other entries are kept |
| App.WithNamesHasNoEmptyName | App.tsx:96-98 | filling the map never adds an empty name |
| App.AddNames | App.tsx:63-67 | the `forEach` over the users computes `WithNames` |
| App.FetchNames | App.tsx:55-70 | the emails of the fetched expenses, and a name map built from scratch, left unchanged when there are no expenses |
| App.Dedup | App.tsx:84-87 | `Array.from(new Set(...))` keeps every element and no repeats |
| App.MissingEmails | App.tsx:84-89 | exactly the new expense's payer and participant emails not in the name map, each once |
| App.AddExpenseNames | App.tsx:83-101 | the map is unchanged when nothing is missing, otherwise it is updated with the named users found |
| App.InsertExpense | App.tsx:106-108 | the new list is a permutation of the new expense plus the previous list, sorted newest first |

## Left out

- Balances.BalanceSymmetry: holds only for records whose split emails are participants and unique. The code does not check this (a split for a non-participant moves the payer's view but not the other), so the lemma requires it. Settlements meet it (`Debts.SettlementWellFormed`).
- The Firebase store and authentication are not part of this model. These are services/firebaseService.ts, context/AuthContext.tsx and the Login, Register and Profile views. The store's answers are parameters.
- The async flows, their `try/catch/finally` and the loading flags are left out. Only their deterministic parts are modelled: building the record, the name-map updates and the list update.
- The debounced participant search (components/AddExpenseModal.tsx:40-57) is left out. It exists for timers and async lookups.
- JSX rendering, `Intl.NumberFormat` currency text, colours, the title and prompt strings, and the "Paid by" text are presentation only.
- Floating point is not modelled. Amounts are whole paise. `parseFloat` is modelled only on text the amount pattern accepts, because both modals only store such text. Other text is treated as unparsable.
- The add-expense amount field is a number input, so it reaches `Submit` and `SplitsFor` already parsed as `Option<int>`.
- AddExpense.PerPerson: halves are rounded upward. The source's `toFixed(2)` on a binary float can round some halves down, and that is not modelled.
- Expense.id, the store-assigned identifier, is not modelled. The expansion state and the delete action of the transaction list are also left out.
- Timestamps are not modelled, and dates are calendar records. The Firestore `Timestamp` conversion (components/Transactions.tsx:59-79) is left out. So is the custom-date timezone shift (components/Transactions.tsx:101-106): `Custom` receives the date already shifted.
- `Calendar.Timestamp` orders dates by local date and then time of day. It is not the epoch millisecond value, and it does not tell apart the two passes through the hour repeated when daylight-saving time ends, which `getTime()` does.
- App.AddExpenseNames: the functional update `setNameMap(prev => ...)` is modelled against the same map the missing emails were computed from. The model does not capture interleaving with other updates.
- App.InsertExpense: does not state that expenses with the same date keep their relative order. The JavaScript sort is stable; the contract states only the permutation and the order.
- Debts.PeopleUserOwes: does not state the relative order of equal balances. The same holds for Debts.PeopleWhoOweUser, Dashboard.AllBalances and Debts.FriendHistory on equal dates.
- Balances.BalancesOrderIndependent: does not state that the keys come in the same order. They need not, since keys are created in the order the expenses first touch them.
- Debts.SettlementReducesDebt: requires the friend to differ from the viewer. The viewer is never a key of the fold, so the view never offers the viewer as a counterparty.
