/** Components/Dashboard.tsx: the balance summary with its two totals, the
    month's spend, and the recent-transaction rows. */
module Dashboard {
  import opened Types
  import opened Calendar
  import opened Seqs
  import opened Balances
  import opened Debts

  /** `allBalances`: the significant balances, largest first. */
  function AllBalances(l: Ledger, nameMap: map<string, string>): (r: seq<FriendBalance>)
    ensures forall f :: multiset(r)[f] == if Significant(f) then multiset(Named(l, nameMap))[f] else 0
    ensures forall i, j :: 0 <= i < j < |r| ==> r[i].balance >= r[j].balance
  {
    var kept := SignificantBalances(l, nameMap);
    var r := SortDesc(kept, Balance);
    assert forall i, j :: 0 <= i < j < |r| ==> Balance(r[i]) >= Balance(r[j]);
    forall f ensures multiset(r)[f] == if Significant(f) then multiset(Named(l, nameMap))[f] else 0 {
      assert multiset(r)[f] == multiset(kept)[f];
    }
    r
  }

  /** Sum of the positive balances. */
  function SumOwedToUser(s: seq<FriendBalance>): int
  {
    if s == [] then 0
    else SumOwedToUser(s[..|s| - 1]) + (if s[|s| - 1].balance > 0 then s[|s| - 1].balance else 0)
  }

  /** Sum of |balance| over the entries that are not positive. */
  function SumUserOwes(s: seq<FriendBalance>): int
  {
    if s == [] then 0
    else SumUserOwes(s[..|s| - 1]) + (if s[|s| - 1].balance > 0 then 0 else -s[|s| - 1].balance)
  }

  function SumBalances(s: seq<FriendBalance>): int
  {
    if s == [] then 0 else SumBalances(s[..|s| - 1]) + s[|s| - 1].balance
  }

  /** Components/Dashboard.tsx lines 50-59: the forEach accumulating both totals. */
  method Totals(allBalances: seq<FriendBalance>) returns (totalOwedToUser: int, totalUserOwes: int)
    ensures totalOwedToUser == SumOwedToUser(allBalances)
    ensures totalUserOwes == SumUserOwes(allBalances)
    ensures totalOwedToUser >= 0 && totalUserOwes >= 0
    ensures totalOwedToUser - totalUserOwes == SumBalances(allBalances)
  {
    totalOwedToUser := 0;
    totalUserOwes := 0;
    for i := 0 to |allBalances|
      invariant totalOwedToUser == SumOwedToUser(allBalances[..i]) >= 0
      invariant totalUserOwes == SumUserOwes(allBalances[..i]) >= 0
      invariant totalOwedToUser - totalUserOwes == SumBalances(allBalances[..i])
    {
      var friend := allBalances[i];
      assert allBalances[..i + 1][..i] == allBalances[..i];
      if friend.balance > 0 {
        totalOwedToUser := totalOwedToUser + friend.balance;
      } else {
        totalUserOwes := totalUserOwes + (if friend.balance < 0 then -friend.balance else friend.balance);
      }
    }
    assert allBalances[..|allBalances|] == allBalances;
  }

  datatype Summary = Summary(totalOwedToUser: int, totalUserOwes: int, allBalances: seq<FriendBalance>)

  /** Components/Dashboard.tsx lines 22-62, `calculateBalances`. Its balance
      fold (lines 25-39) is the same code as the one in components/Debts.tsx
      and is the same method here. */
  method CalculateBalances(expenses: seq<Expense>, viewer: string, nameMap: map<string, string>)
    returns (summary: Summary)
    ensures summary.allBalances == AllBalances(Fold(expenses, viewer), nameMap)
    ensures summary.totalOwedToUser == SumOwedToUser(summary.allBalances) >= 0
    ensures summary.totalUserOwes == SumUserOwes(summary.allBalances) >= 0
    ensures summary.totalOwedToUser - summary.totalUserOwes == SumBalances(summary.allBalances)
  {
    var balances := ComputeBalances(expenses, viewer);
    var allBalances := AllBalances(balances, nameMap);
    var owed, owes := Totals(allBalances);
    summary := Summary(owed, owes, allBalances);
  }

  /** What one expense adds to the month's spend: the viewer's share, negated
      for a Settlement someone else paid. */
  function SpendOf(e: Expense, viewer: string): int
  {
    var share := ShareOf(e.splits, viewer);
    if e.category == SETTLEMENT && e.paidBy != viewer then -share else share
  }

  function SpendSum(expenses: seq<Expense>, viewer: string): int
  {
    if expenses == [] then 0 else SpendOf(expenses[0], viewer) + SpendSum(expenses[1..], viewer)
  }

  /** Components/Dashboard.tsx lines 66-79: `currentMonthExpenses.reduce(...)`. */
  function MonthlySpend(expenses: seq<Expense>, viewer: string, now: Date): int
  {
    SpendSum(Filter(expenses, (e: Expense) => SameMonth(e.date, now)), viewer)
  }

  /** Reference definition: every expense contributes its spend when it is in
      the current month and nothing otherwise. */
  function MonthContribution(expenses: seq<Expense>, viewer: string, now: Date): int
  {
    if expenses == [] then 0
    else (if SameMonth(expenses[0].date, now) then SpendOf(expenses[0], viewer) else 0)
         + MonthContribution(expenses[1..], viewer, now)
  }

  lemma {:induction false} MonthlySpendOnlyThisMonth(expenses: seq<Expense>, viewer: string, now: Date)
    ensures MonthlySpend(expenses, viewer, now) == MonthContribution(expenses, viewer, now)
    decreases |expenses|
  {
    if expenses != [] {
      MonthlySpendOnlyThisMonth(expenses[1..], viewer, now);
      var p := (e: Expense) => SameMonth(e.date, now);
      var rest := Filter(expenses[1..], p);
      if p(expenses[0]) {
        assert Filter(expenses, p) == [expenses[0]] + rest;
        assert ([expenses[0]] + rest)[1..] == rest;
      } else {
        assert Filter(expenses, p) == rest;
      }
    }
  }

  /** The recent-transaction row: sign and amount shown for one expense. */
  datatype RowView = RowView(isDebit: bool, isCredit: bool, displayAmount: int)

  /** Components/Dashboard.tsx lines 100-105. */
  function RecentRow(e: Expense, viewer: string): (r: RowView)
    ensures !(r.isDebit && r.isCredit)
    ensures r.isCredit <==> e.category == SETTLEMENT && e.paidBy != viewer
    ensures e.category == SETTLEMENT ==> (r.isDebit <==> e.paidBy == viewer)
    ensures e.category != SETTLEMENT ==> (r.isDebit <==> e.paidBy != viewer && ShareOf(e.splits, viewer) > 0)
    ensures r.displayAmount == if e.category == SETTLEMENT && e.paidBy == viewer then e.amount
                               else ShareOf(e.splits, viewer)
  {
    var userSplitAmount := ShareOf(e.splits, viewer);
    RowView(
      (e.paidBy != viewer && userSplitAmount > 0 && e.category != SETTLEMENT) ||
      (e.paidBy == viewer && e.category == SETTLEMENT),
      e.paidBy != viewer && e.category == SETTLEMENT,
      if e.category == SETTLEMENT && e.paidBy == viewer then e.amount else userSplitAmount)
  }

  /** The rows for the first five expenses (`expenses.slice(0, 5)`). */
  function RecentRows(expenses: seq<Expense>, viewer: string): (r: seq<RowView>)
    ensures |r| == if |expenses| < 5 then |expenses| else 5
    ensures forall i :: 0 <= i < |r| ==> r[i] == RecentRow(expenses[i], viewer)
  {
    var shown := Take(expenses, 5);
    seq(|shown|, i requires 0 <= i < |shown| => RecentRow(shown[i], viewer))
  }

  /** Components/Dashboard.tsx line 130: `allBalances.slice(0, 5)`. */
  function TopBalances(allBalances: seq<FriendBalance>): (r: seq<FriendBalance>)
    ensures |r| == if |allBalances| < 5 then |allBalances| else 5
    ensures r == allBalances[..|r|]
  {
    Take(allBalances, 5)
  }

  /** The balances the summary shows are the largest ones: none left out is
      larger than any shown. */
  lemma {:induction false} TopBalancesAreLargest(l: Ledger, nameMap: map<string, string>)
    ensures var all := AllBalances(l, nameMap);
            var top := TopBalances(all);
            forall i, j :: 0 <= i < |top| <= j < |all| ==> top[i].balance >= all[j].balance
  {
    var all := AllBalances(l, nameMap);
    var top := TopBalances(all);
    forall i, j | 0 <= i < |top| <= j < |all| ensures top[i].balance >= all[j].balance {
      assert top[i] == all[i];
    }
  }

  /** A month with a purchase of 100.00 shared evenly with a friend and a
      settlement of 30.00 with that friend: the spend is 50.00 when the
      viewer paid the settlement and 20.00 when the friend did. */
  lemma SettlementInMonthlySpend(viewer: string, friend: FriendBalance, now: Date)
    requires friend.email != viewer
    ensures var purchase := Expense(10000, "Dinner", "Food", now, viewer, [viewer, friend.email],
                                    [Split(viewer, 5000), Split(friend.email, 5000)]);
            var settlement := BuildSettlement(viewer, friend, 3000, now);
            MonthlySpend([purchase, settlement], viewer, now) == if friend.balance < 0 then 5000 else 2000
  {
    var purchase := Expense(10000, "Dinner", "Food", now, viewer, [viewer, friend.email],
                            [Split(viewer, 5000), Split(friend.email, 5000)]);
    var settlement := BuildSettlement(viewer, friend, 3000, now);
    var xs := [purchase, settlement];
    MonthlySpendOnlyThisMonth(xs, viewer, now);
    assert xs[1..] == [settlement];
    assert xs[1..][1..] == [];
    assert SpendOf(purchase, viewer) == 5000;
    assert MonthContribution(xs[1..][1..], viewer, now) == 0;
    assert MonthContribution(xs, viewer, now) == 5000 + MonthContribution(xs[1..], viewer, now);
    if friend.balance < 0 {
      assert FindSplit(settlement.splits, viewer) == Some(settlement.splits[1]);
      assert SpendOf(settlement, viewer) == 0;
      assert MonthContribution(xs[1..], viewer, now) == 0;
    } else {
      assert FindSplit(settlement.splits, viewer) == Some(settlement.splits[0]);
      assert settlement.paidBy != viewer && ShareOf(settlement.splits, viewer) == 3000;
      assert SpendOf(settlement, viewer) == -3000;
      assert MonthContribution(xs[1..], viewer, now) == -3000;
    }
  }
}
