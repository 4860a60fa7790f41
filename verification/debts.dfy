/** Components/Debts.tsx: the two debt lists built from the balance fold,
    the settlement record, and the history with one friend. */
module Debts {
  import opened Types
  import opened Calendar
  import opened Seqs
  import opened Balances

  /** `email.split('@')[0]`: the text before the first '@'. */
  function LocalPart(email: string): (r: string)
    ensures '@' !in r
    ensures r <= email
    ensures |r| < |email| ==> email[|r|] == '@'
  {
    if email == [] || email[0] == '@' then ""
    else [email[0]] + LocalPart(email[1..])
  }

  /** `nameMap.get(email) || email.split('@')[0]`. */
  function DisplayName(nameMap: map<string, string>, email: string): (r: string)
    ensures email in nameMap && nameMap[email] != "" ==> r == nameMap[email]
    ensures !(email in nameMap && nameMap[email] != "") ==> r == LocalPart(email)
  {
    if email in nameMap && nameMap[email] != "" then nameMap[email] else LocalPart(email)
  }

  /** `Object.entries(balances).map(...)`: one FriendBalance per key, in key order. */
  function Named(l: Ledger, nameMap: map<string, string>): (r: seq<FriendBalance>)
    ensures |r| == |l|
    ensures forall i :: 0 <= i < |l| ==>
              r[i] == FriendBalance(l[i].email, DisplayName(nameMap, l[i].email), l[i].balance)
  {
    seq(|l|, i requires 0 <= i < |l| => FriendBalance(l[i].email, DisplayName(nameMap, l[i].email), l[i].balance))
  }

  /** `Math.abs(b.balance) > 0.01` in paise: more than one paisa either way. */
  predicate Significant(f: FriendBalance)
  {
    f.balance > 1 || f.balance < -1
  }

  predicate Owes(f: FriendBalance)
  {
    f.balance < 0
  }

  predicate IsOwed(f: FriendBalance)
  {
    f.balance > 0
  }

  function Balance(f: FriendBalance): int
  {
    f.balance
  }

  function NegBalance(f: FriendBalance): int
  {
    -f.balance
  }

  /** `allBalances`: the significant balances, in key order. */
  function SignificantBalances(l: Ledger, nameMap: map<string, string>): (r: seq<FriendBalance>)
    ensures forall f :: multiset(r)[f] == if Significant(f) then multiset(Named(l, nameMap))[f] else 0
    ensures IsSubseq(r, Named(l, nameMap))
  {
    FilterIsSubseq(Named(l, nameMap), Significant);
    Filter(Named(l, nameMap), Significant)
  }

  /** `peopleUserOwes`: the significant negative balances, ascending. */
  function PeopleUserOwes(l: Ledger, nameMap: map<string, string>): (r: seq<FriendBalance>)
    ensures forall f :: multiset(r)[f] == if f.balance < -1 then multiset(Named(l, nameMap))[f] else 0
    ensures forall i, j :: 0 <= i < j < |r| ==> r[i].balance <= r[j].balance
  {
    var kept := SignificantBalances(l, nameMap);
    var owes := Filter(kept, Owes);
    var r := SortDesc(owes, NegBalance);
    assert forall i, j :: 0 <= i < j < |r| ==> NegBalance(r[i]) >= NegBalance(r[j]);
    assert multiset(r) == multiset(owes);
    forall f ensures multiset(r)[f] == if f.balance < -1 then multiset(Named(l, nameMap))[f] else 0 {
      assert multiset(r)[f] == multiset(owes)[f];
      assert multiset(owes)[f] == if Owes(f) then multiset(kept)[f] else 0;
    }
    r
  }

  /** `peopleWhoOweUser`: the significant positive balances, descending. */
  function PeopleWhoOweUser(l: Ledger, nameMap: map<string, string>): (r: seq<FriendBalance>)
    ensures forall f :: multiset(r)[f] == if f.balance > 1 then multiset(Named(l, nameMap))[f] else 0
    ensures forall i, j :: 0 <= i < j < |r| ==> r[i].balance >= r[j].balance
  {
    var kept := SignificantBalances(l, nameMap);
    var owed := Filter(kept, IsOwed);
    var r := SortDesc(owed, Balance);
    assert forall i, j :: 0 <= i < j < |r| ==> Balance(r[i]) >= Balance(r[j]);
    assert multiset(r) == multiset(owed);
    forall f ensures multiset(r)[f] == if f.balance > 1 then multiset(Named(l, nameMap))[f] else 0 {
      assert multiset(r)[f] == multiset(owed)[f];
      assert multiset(owed)[f] == if IsOwed(f) then multiset(kept)[f] else 0;
    }
    r
  }

  datatype DebtView = DebtView(peopleUserOwes: seq<FriendBalance>, peopleWhoOweUser: seq<FriendBalance>)

  /** Components/Debts.tsx lines 75-84: the two lists the Debts view shows. */
  function DebtLists(l: Ledger, nameMap: map<string, string>): (r: DebtView)
    ensures forall f :: f in r.peopleUserOwes ==> f.balance < -1
    ensures forall f :: f in r.peopleWhoOweUser ==> f.balance > 1
    ensures forall f :: !(f in r.peopleUserOwes && f in r.peopleWhoOweUser)
  {
    DebtView(PeopleUserOwes(l, nameMap), PeopleWhoOweUser(l, nameMap))
  }

  lemma {:induction false} LookupAt(l: Ledger, i: nat)
    requires KeysUnique(l) && i < |l|
    ensures Lookup(l, l[i].email) == l[i].balance
  {
    if i > 0 {
      KeysUniquePairwise(l);
      LookupAt(l[1..], i - 1);
    }
  }

  /** Every counterparty whose balance is more than a paisa appears, with its
      fold balance and display name, in exactly the list its sign selects. */
  lemma DebtListsCoverBalances(expenses: seq<Expense>, viewer: string, nameMap: map<string, string>, k: string)
    requires k in Keys(Fold(expenses, viewer))
    ensures var l := Fold(expenses, viewer);
            var f := FriendBalance(k, DisplayName(nameMap, k), Lookup(l, k));
            var v := DebtLists(l, nameMap);
            && (Lookup(l, k) < -1 <==> f in v.peopleUserOwes)
            && (Lookup(l, k) > 1 <==> f in v.peopleWhoOweUser)
  {
    var l := Fold(expenses, viewer);
    var i := KeyIndex(l, k);
    LookupAt(l, i);
    var f := FriendBalance(k, DisplayName(nameMap, k), Lookup(l, k));
    assert Named(l, nameMap)[i] == f;
    assert f in multiset(Named(l, nameMap));
  }

  lemma {:induction false} KeyIndex(l: Ledger, k: string) returns (i: nat)
    requires k in Keys(l)
    ensures i < |l| && l[i].email == k
  {
    if l[0].email == k {
      i := 0;
    } else {
      var j := KeyIndex(l[1..], k);
      i := j + 1;
    }
  }

  datatype SettleMode = Pay | Receive

  /** `balance < 0 ? 'pay' : 'receive'`. */
  function ModeFor(balance: int): SettleMode
  {
    if balance < 0 then Pay else Receive
  }

  /** Components/Debts.tsx lines 103-113: the two-party "Settlement" expense. */
  function BuildSettlement(viewer: string, friend: FriendBalance, amount: int, date: Date): (e: Expense)
    ensures e.category == SETTLEMENT && e.amount == amount && e.date == date
    ensures e.participants == [viewer, friend.email]
    ensures ModeFor(friend.balance) == Pay <==> friend.balance < 0
    ensures e.paidBy == if ModeFor(friend.balance) == Pay then viewer else friend.email
    ensures |e.splits| == 2 && e.splits[0].amount == amount && e.splits[1].amount == 0
    // the non-paying side carries the whole amount, the payer's own split is 0
    ensures e.splits[0].email == (if ModeFor(friend.balance) == Pay then friend.email else viewer)
    ensures e.splits[1].email == e.paidBy
    ensures SplitSum(e.splits) == amount
  {
    var mode := ModeFor(friend.balance);
    var e := Expense(
      amount,
      if mode == Pay then "Settlement to " + friend.name else "Settlement from " + friend.name,
      SETTLEMENT,
      date,
      if mode == Pay then viewer else friend.email,
      [viewer, friend.email],
      if mode == Pay then [Split(friend.email, amount), Split(viewer, 0)]
      else [Split(viewer, amount), Split(friend.email, 0)]);
    SplitSumPair(e.splits[0], e.splits[1]);
    assert e.splits == [e.splits[0], e.splits[1]];
    e
  }
  /** A settlement record can be read from both sides: its two splits belong
      to its two participants, one each, so `BalanceSymmetry` covers it. */
  lemma SettlementWellFormed(viewer: string, friend: FriendBalance, amount: int, date: Date)
    requires friend.email != viewer
    ensures SplitsWellFormed(BuildSettlement(viewer, friend, amount, date))
  {
  }


  /** Folding a settlement into the balances moves only the friend's balance:
      up by the amount in pay mode, down by it in receive mode. */
  lemma SettlementMovesOnlyFriend(l: Ledger, viewer: string, friend: FriendBalance, amount: int, date: Date, k: string)
    requires friend.email != viewer
    ensures var e := BuildSettlement(viewer, friend, amount, date);
            Lookup(ApplyExpense(l, e, viewer), k) ==
              Lookup(l, k) + (if k != friend.email then 0 else if friend.balance < 0 then amount else -amount)
  {
    var e := BuildSettlement(viewer, friend, amount, date);
    if friend.balance < 0 {
      SplitTotalPair(e.splits[0], e.splits[1], k);
      assert e.splits == [e.splits[0], e.splits[1]];
      assert SplitTotal(e.splits, k) == if k == friend.email then amount else 0;
    } else {
      assert FindSplit(e.splits, viewer) == Some(e.splits[0]);
    }
  }

  function Abs(x: int): int
  {
    if x < 0 then -x else x
  }

  /** The settle flow: with 0 < amount <= |balance| the friend's absolute
      balance falls by exactly the amount, keeping its sign or reaching zero,
      and every other counterparty is unchanged. */
  lemma SettlementReducesDebt(expenses: seq<Expense>, viewer: string, friend: FriendBalance, amount: int, date: Date)
    requires friend.email != viewer
    requires friend.balance == Lookup(Fold(expenses, viewer), friend.email)
    requires 0 < amount <= Abs(friend.balance)
    ensures var after := Fold(expenses + [BuildSettlement(viewer, friend, amount, date)], viewer);
            && Abs(Lookup(after, friend.email)) == Abs(friend.balance) - amount
            && (friend.balance < 0 ==> Lookup(after, friend.email) <= 0)
            && (friend.balance > 0 ==> Lookup(after, friend.email) >= 0)
            && forall k :: k != friend.email ==> Lookup(after, k) == Lookup(Fold(expenses, viewer), k)
  {
    var s := BuildSettlement(viewer, friend, amount, date);
    var all := expenses + [s];
    assert all[..|all| - 1] == expenses;
    assert Fold(all, viewer) == ApplyExpense(Fold(expenses, viewer), s, viewer);
    forall k ensures Lookup(Fold(all, viewer), k) ==
      Lookup(Fold(expenses, viewer), k) + (if k != friend.email then 0 else if friend.balance < 0 then amount else -amount)
    {
      SettlementMovesOnlyFriend(Fold(expenses, viewer), viewer, friend, amount, date, k);
    }
  }

  /** Whether an expense is shared by the viewer and the friend, and paid by one of them. */
  predicate BetweenUs(e: Expense, viewer: string, friendEmail: string)
  {
    friendEmail in e.participants && viewer in e.participants &&
    (e.paidBy == friendEmail || e.paidBy == viewer)
  }

  function DateKey(e: Expense): int
  {
    Timestamp(e.date)
  }

  /** Components/Debts.tsx lines 128-134: the history with the selected friend,
      newest first; empty when no friend is selected. */
  function FriendHistory(expenses: seq<Expense>, viewer: string, selected: Option<FriendBalance>): (r: seq<Expense>)
    ensures selected.None? ==> r == []
    ensures selected.Some? ==>
              forall e :: multiset(r)[e] ==
                (if BetweenUs(e, viewer, selected.value.email) then multiset(expenses)[e] else 0)
    ensures SortedDesc(r, DateKey)
  {
    match selected
    case None => []
    case Some(friend) =>
      SortDesc(Filter(expenses, (e: Expense) => BetweenUs(e, viewer, friend.email)), DateKey)
  }
}
