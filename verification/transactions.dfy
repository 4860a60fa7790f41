/** Components/Transactions.tsx: the date filters over the expense list and
    the classification of each listed row. */
module Transactions {
  import opened Types
  import opened Calendar
  import opened Seqs
  import Dashboard

  datatype FilterKind = All | Today | Yesterday | Month | Custom(selected: Date)

  /** The predicate each filter button applies (lines 90-106). */
  function KeepFor(kind: FilterKind, now: Date): (Expense -> bool)
    requires Valid(now)
  {
    match kind
    case All => (e: Expense) => true
    case Today => (e: Expense) => SameDay(e.date, StartOfDay(now))
    case Yesterday => (e: Expense) => SameDay(e.date, PrevDay(now))
    case Month => (e: Expense) => e.date.month == now.month && e.date.year == now.year
    case Custom(d) => (e: Expense) => SameDay(e.date, d)
  }

  /** Components/Transactions.tsx lines 81-110, `filteredExpenses`. */
  function FilterExpenses(expenses: seq<Expense>, kind: FilterKind, now: Date): (r: seq<Expense>)
    requires Valid(now)
    ensures IsSubseq(r, expenses)
    ensures kind == All ==> r == expenses
    ensures kind == Today ==>
              (forall e :: multiset(r)[e] == (if SameDay(e.date, now) then multiset(expenses)[e] else 0))
    ensures kind == Yesterday ==>
              (forall e :: multiset(r)[e] == (if SameDay(e.date, PrevDay(now)) then multiset(expenses)[e] else 0))
    ensures kind == Month ==>
              (forall e :: multiset(r)[e] == (if SameMonth(e.date, now) then multiset(expenses)[e] else 0))
    ensures kind.Custom? ==>
              (forall e :: multiset(r)[e] == (if SameDay(e.date, kind.selected) then multiset(expenses)[e] else 0))
  {
    if kind == All then
      IsSubseqRefl(expenses);
      expenses
    else
      FilterIsSubseq(expenses, KeepFor(kind, now));
      Filter(expenses, KeepFor(kind, now))
  }

  /** "Settlement" and "Transfer" are both transfers (lines 192-193). */
  predicate IsTransfer(category: string)
  {
    category == SETTLEMENT || category == TRANSFER
  }

  datatype Row = Row(isDebit: bool, isCredit: bool, displayAmount: int, canDelete: bool)

  /** Components/Transactions.tsx lines 186-207: one listed row. */
  function ClassifyRow(e: Expense, viewer: string): (r: Row)
    ensures !(r.isDebit && r.isCredit)
    ensures r.canDelete <==> e.paidBy == viewer
    ensures r.isCredit <==> IsTransfer(e.category) && e.paidBy != viewer
    ensures IsTransfer(e.category) ==> (r.isDebit <==> e.paidBy == viewer)
    ensures !IsTransfer(e.category) ==> (r.isDebit <==> e.paidBy != viewer && ShareOf(e.splits, viewer) > 0)
    ensures r.displayAmount == if IsTransfer(e.category) && e.paidBy == viewer then e.amount
                               else ShareOf(e.splits, viewer)
  {
    var userSplit := ShareOf(e.splits, viewer);
    var isTransfer := IsTransfer(e.category);
    Row(
      (e.paidBy != viewer && userSplit > 0 && !isTransfer) || (e.paidBy == viewer && isTransfer),
      e.paidBy != viewer && isTransfer,
      if isTransfer && e.paidBy == viewer then e.amount else userSplit,
      e.paidBy == viewer)
  }

  /** A "Transfer" row reads exactly as the same record marked "Settlement". */
  lemma TransferReadsAsSettlement(e: Expense, viewer: string)
    ensures ClassifyRow(e.(category := TRANSFER), viewer) == ClassifyRow(e.(category := SETTLEMENT), viewer)
  {
  }

  /** Outside the "Transfer" category the list row and the dashboard's
      recent row agree on debit, credit and amount. */
  lemma RowAgreesWithDashboard(e: Expense, viewer: string)
    requires e.category != TRANSFER
    ensures var r := ClassifyRow(e, viewer);
            var d := Dashboard.RecentRow(e, viewer);
            r.isDebit == d.isDebit && r.isCredit == d.isCredit && r.displayAmount == d.displayAmount
  {
  }
}
