/** The balance fold of components/Debts.tsx (repeated verbatim in
    components/Dashboard.tsx): the expense list folded into a dictionary from
    counterparty email to signed balance. The dictionary is a JavaScript
    object keyed by email, whose keys iterate in insertion order, so it is
    modelled as an association list of entries in insertion order. */
module Balances {
  import opened Types

  datatype Entry = Entry(email: string, balance: int)

  type Ledger = seq<Entry>

  /** `balances[k] || 0`. */
  function Lookup(l: Ledger, k: string): int
  {
    if l == [] then 0
    else if l[0].email == k then l[0].balance
    else Lookup(l[1..], k)
  }

  function Keys(l: Ledger): set<string>
  {
    if l == [] then {} else {l[0].email} + Keys(l[1..])
  }

  /** No email appears twice: the keys of a dictionary. */
  predicate KeysUnique(l: Ledger)
  {
    l == [] || (l[0].email !in Keys(l[1..]) && KeysUnique(l[1..]))
  }

  lemma {:induction false} KeysAt(l: Ledger, i: nat)
    requires i < |l|
    ensures l[i].email in Keys(l)
  {
    if i > 0 { KeysAt(l[1..], i - 1); }
  }

  /** KeysUnique in its pairwise form. */
  lemma {:induction false} KeysUniquePairwise(l: Ledger)
    requires KeysUnique(l)
    ensures forall i, j :: 0 <= i < j < |l| ==> l[i].email != l[j].email
  {
    if l != [] {
      KeysUniquePairwise(l[1..]);
      forall j | 0 < j < |l| ensures l[0].email != l[j].email {
        KeysAt(l[1..], j - 1);
      }
      forall i, j | 0 <= i < j < |l| ensures l[i].email != l[j].email {
        if i > 0 { assert l[i] == l[1..][i - 1] && l[j] == l[1..][j - 1]; }
      }
    }
  }

  /** `balances[k] = (balances[k] || 0) + d`: an existing key keeps its
      place, a new key is appended. */
  function Credit(l: Ledger, k: string, d: int): (r: Ledger)
    ensures forall x :: Lookup(r, x) == Lookup(l, x) + (if x == k then d else 0)
    ensures Keys(r) == Keys(l) + {k}
    ensures k !in Keys(l) ==> r == l + [Entry(k, d)]
    ensures k in Keys(l) ==> |r| == |l| && forall i :: 0 <= i < |l| ==> r[i].email == l[i].email
    ensures KeysUnique(l) ==> KeysUnique(r)
  {
    if l == [] then [Entry(k, d)]
    else if l[0].email == k then
      var r := [Entry(k, l[0].balance + d)] + l[1..];
      assert r[1..] == l[1..];
      r
    else
      var r := [l[0]] + Credit(l[1..], k, d);
      assert r[1..] == Credit(l[1..], k, d);
      r
  }

  /** Sum of the split amounts that belong to `k`. */
  function SplitTotal(splits: seq<Split>, k: string): int
  {
    if splits == [] then 0
    else
      var last := splits[|splits| - 1];
      SplitTotal(splits[..|splits| - 1], k) + (if last.email == k then last.amount else 0)
  }

  lemma SplitTotalPair(a: Split, b: Split, k: string)
    ensures SplitTotal([a, b], k) == (if a.email == k then a.amount else 0) + (if b.email == k then b.amount else 0)
  {
    var s := [a, b];
    assert s[..|s| - 1] == [a];
    assert [a][..|[a]| - 1] == [];
    assert SplitTotal([a], k) == SplitTotal([], k) + (if a.email == k then a.amount else 0);
  }

  /** The emails of the splits not belonging to `viewer`. */
  function OtherSplitEmails(splits: seq<Split>, viewer: string): set<string>
  {
    set i | 0 <= i < |splits| && splits[i].email != viewer :: splits[i].email
  }

  /** The inner forEach over the splits of an expense the viewer paid. */
  function CreditSplits(l: Ledger, splits: seq<Split>, viewer: string): (r: Ledger)
    ensures forall x :: Lookup(r, x) == Lookup(l, x) + (if x == viewer then 0 else SplitTotal(splits, x))
    ensures Keys(r) == Keys(l) + OtherSplitEmails(splits, viewer)
    ensures KeysUnique(l) ==> KeysUnique(r)
  {
    if splits == [] then l
    else
      var init := splits[..|splits| - 1];
      var split := splits[|splits| - 1];
      var prev := CreditSplits(l, init, viewer);
      assert OtherSplitEmails(splits, viewer) ==
             OtherSplitEmails(init, viewer) + (if split.email != viewer then {split.email} else {}) by {
        forall x | x in OtherSplitEmails(splits, viewer)
          ensures x in OtherSplitEmails(init, viewer) || (split.email != viewer && x == split.email)
        {
          var i :| 0 <= i < |splits| && splits[i].email != viewer && splits[i].email == x;
          if i < |init| { assert init[i] == splits[i]; }
        }
        forall x | x in OtherSplitEmails(init, viewer) ensures x in OtherSplitEmails(splits, viewer) {
          var i :| 0 <= i < |init| && init[i].email != viewer && init[i].email == x;
          assert splits[i] == init[i];
        }
      }
      if split.email != viewer then Credit(prev, split.email, split.amount) else prev
  }

  /** The counterparties an expense creates a key for. */
  function Touched(e: Expense, viewer: string): set<string>
  {
    if e.paidBy == viewer then OtherSplitEmails(e.splits, viewer)
    else if viewer in e.participants && FindSplit(e.splits, viewer).Some? then {e.paidBy}
    else {}
  }

  /** What one expense adds to counterparty `k`'s balance: a reference
      definition independent of the dictionary. */
  function Delta(e: Expense, viewer: string, k: string): int
  {
    if e.paidBy == viewer then (if k == viewer then 0 else SplitTotal(e.splits, k))
    else if viewer in e.participants && k == e.paidBy then -ShareOf(e.splits, viewer)
    else 0
  }

  /** One step of `expenses.forEach` in components/Debts.tsx. */
  function ApplyExpense(l: Ledger, e: Expense, viewer: string): (r: Ledger)
    // paid by the viewer: every other person's splits are added to that person
    ensures e.paidBy == viewer ==>
      forall k :: Lookup(r, k) == Lookup(l, k) + (if k == viewer then 0 else SplitTotal(e.splits, k))
    // paid by someone else with the viewer involved: only the payer moves, down by the viewer's share
    ensures e.paidBy != viewer && viewer in e.participants ==>
      forall k :: Lookup(r, k) == Lookup(l, k) - (if k == e.paidBy then ShareOf(e.splits, viewer) else 0)
    // the viewer is neither payer nor participant: nothing changes
    ensures e.paidBy != viewer && viewer !in e.participants ==> r == l
    ensures forall k :: Lookup(r, k) == Lookup(l, k) + Delta(e, viewer, k)
    ensures Keys(r) == Keys(l) + Touched(e, viewer)
    ensures KeysUnique(l) ==> KeysUnique(r)
  {
    if e.paidBy == viewer then
      CreditSplits(l, e.splits, viewer)
    else if viewer in e.participants then
      match FindSplit(e.splits, viewer)
      case Some(userSplit) => Credit(l, e.paidBy, -userSplit.amount)
      case None => l
    else
      l
  }

  /** The whole fold, left to right. */
  function Fold(expenses: seq<Expense>, viewer: string): (r: Ledger)
    ensures KeysUnique(r)
    ensures viewer !in Keys(r)
  {
    if expenses == [] then []
    else
      var prev := Fold(expenses[..|expenses| - 1], viewer);
      var r := ApplyExpense(prev, expenses[|expenses| - 1], viewer);
      assert viewer !in Touched(expenses[|expenses| - 1], viewer);
      r
  }

  /** The inner `expense.splits.forEach` (components/Debts.tsx lines 61-65). */
  method CreditOtherSplits(l: Ledger, splits: seq<Split>, viewer: string) returns (balances: Ledger)
    ensures balances == CreditSplits(l, splits, viewer)
  {
    balances := l;
    for j := 0 to |splits|
      invariant balances == CreditSplits(l, splits[..j], viewer)
    {
      var split := splits[j];
      assert splits[..j + 1][..j] == splits[..j];
      if split.email != viewer {
        balances := Credit(balances, split.email, split.amount);
      }
    }
    assert splits[..|splits|] == splits;
  }

  /** One pass of the outer `expenses.forEach` (components/Debts.tsx lines 60-72). */
  method ApplyExpenseInPlace(balances: Ledger, expense: Expense, viewer: string) returns (updated: Ledger)
    ensures updated == ApplyExpense(balances, expense, viewer)
  {
    updated := balances;
    if expense.paidBy == viewer {
      updated := CreditOtherSplits(balances, expense.splits, viewer);
    } else if viewer in expense.participants {
      var userSplit := FindSplit(expense.splits, viewer);
      if userSplit.Some? {
        updated := Credit(balances, expense.paidBy, -userSplit.value.amount);
      }
    }
  }

  /** Components/Debts.tsx lines 57-73: the nested forEach loops updating the
      dictionary in place. */
  method ComputeBalances(expenses: seq<Expense>, viewer: string) returns (balances: Ledger)
    ensures balances == Fold(expenses, viewer)
    ensures KeysUnique(balances) && viewer !in Keys(balances)
  {
    balances := [];
    for i := 0 to |expenses|
      invariant balances == Fold(expenses[..i], viewer)
    {
      balances := ApplyExpenseInPlace(balances, expenses[i], viewer);
      assert expenses[..i + 1][..i] == expenses[..i];
    }
    assert expenses[..|expenses|] == expenses;
  }

  /** Sum of the per-expense deltas for `k`. */
  function SumDelta(expenses: seq<Expense>, viewer: string, k: string): int
  {
    if expenses == [] then 0
    else SumDelta(expenses[..|expenses| - 1], viewer, k) + Delta(expenses[|expenses| - 1], viewer, k)
  }

  /** Each balance is the sum of the independent per-expense deltas. */
  lemma {:induction false} FoldIsSumOfDeltas(expenses: seq<Expense>, viewer: string, k: string)
    ensures Lookup(Fold(expenses, viewer), k) == SumDelta(expenses, viewer, k)
    decreases |expenses|
  {
    if expenses != [] {
      FoldIsSumOfDeltas(expenses[..|expenses| - 1], viewer, k);
    }
  }

  /** The keys are exactly the counterparties some expense touches. */
  lemma {:induction false} FoldKeys(expenses: seq<Expense>, viewer: string, k: string)
    ensures k in Keys(Fold(expenses, viewer)) <==>
            exists i :: 0 <= i < |expenses| && k in Touched(expenses[i], viewer)
    decreases |expenses|
  {
    if expenses != [] {
      var init := expenses[..|expenses| - 1];
      var last := expenses[|expenses| - 1];
      FoldKeys(init, viewer, k);
      assert Keys(Fold(expenses, viewer)) == Keys(Fold(init, viewer)) + Touched(last, viewer);
      if k in Keys(Fold(expenses, viewer)) {
        if k in Touched(last, viewer) {
          assert k in Touched(expenses[|expenses| - 1], viewer);
        } else {
          var i :| 0 <= i < |init| && k in Touched(init[i], viewer);
          assert expenses[i] == init[i];
        }
      } else {
        forall i | 0 <= i < |expenses| ensures k !in Touched(expenses[i], viewer) {
          if i < |init| { assert init[i] == expenses[i]; }
        }
      }
    }
  }

  lemma {:induction false} SumDeltaAppend(a: seq<Expense>, b: seq<Expense>, viewer: string, k: string)
    ensures SumDelta(a + b, viewer, k) == SumDelta(a, viewer, k) + SumDelta(b, viewer, k)
    decreases |b|
  {
    if b == [] {
      assert a + b == a;
    } else {
      assert (a + b)[..|a + b| - 1] == a + b[..|b| - 1];
      SumDeltaAppend(a, b[..|b| - 1], viewer, k);
    }
  }

  /** Taking one expense out of a list takes its delta out of the sum. */
  lemma SumDeltaRemoveAt(b: seq<Expense>, i: nat, viewer: string, k: string)
    requires i < |b|
    ensures SumDelta(b, viewer, k) == SumDelta(b[..i] + b[i + 1..], viewer, k) + Delta(b[i], viewer, k)
  {
    assert b == b[..i] + [b[i]] + b[i + 1..];
    SumDeltaAppend(b[..i] + [b[i]], b[i + 1..], viewer, k);
    SumDeltaAppend(b[..i], [b[i]], viewer, k);
    SumDeltaAppend(b[..i], b[i + 1..], viewer, k);
    assert SumDelta([b[i]], viewer, k) == Delta(b[i], viewer, k) by {
      assert [b[i]][..0] == [];
    }
  }

  lemma MultisetRemoveAt(b: seq<Expense>, i: nat)
    requires i < |b|
    ensures multiset(b[..i] + b[i + 1..]) == multiset(b) - multiset{b[i]}
  {
    assert b == b[..i] + [b[i]] + b[i + 1..];
    assert multiset(b) == multiset(b[..i]) + multiset{b[i]} + multiset(b[i + 1..]);
  }

  lemma {:induction false} SumDeltaPermutation(a: seq<Expense>, b: seq<Expense>, viewer: string, k: string)
    requires multiset(a) == multiset(b)
    ensures SumDelta(a, viewer, k) == SumDelta(b, viewer, k)
    decreases |a|
  {
    if a == [] {
      assert |b| == |multiset(b)| == 0;
    } else {
      var x := a[|a| - 1];
      var init := a[..|a| - 1];
      assert x in multiset(b);
      var i :| 0 <= i < |b| && b[i] == x;
      MultisetRemoveAt(a, |a| - 1);
      MultisetRemoveAt(b, i);
      assert a[..|a| - 1] + a[|a|..] == init;
      SumDeltaPermutation(init, b[..i] + b[i + 1..], viewer, k);
      SumDeltaRemoveAt(b, i, viewer, k);
    }
  }

  /** The fold does not depend on the order of the expenses: every
      counterparty has the same balance and the same counterparties appear
      (only the order of the dictionary's keys may differ). */
  lemma BalancesOrderIndependent(a: seq<Expense>, b: seq<Expense>, viewer: string)
    requires multiset(a) == multiset(b)
    ensures forall k :: Lookup(Fold(a, viewer), k) == Lookup(Fold(b, viewer), k)
    ensures Keys(Fold(a, viewer)) == Keys(Fold(b, viewer))
  {
    forall k ensures Lookup(Fold(a, viewer), k) == Lookup(Fold(b, viewer), k) {
      FoldIsSumOfDeltas(a, viewer, k);
      FoldIsSumOfDeltas(b, viewer, k);
      SumDeltaPermutation(a, b, viewer, k);
    }
    forall k ensures k in Keys(Fold(a, viewer)) <==> k in Keys(Fold(b, viewer)) {
      FoldKeys(a, viewer, k);
      FoldKeys(b, viewer, k);
      if exists i :: 0 <= i < |a| && k in Touched(a[i], viewer) {
        var i :| 0 <= i < |a| && k in Touched(a[i], viewer);
        assert a[i] in multiset(b);
        var j :| 0 <= j < |b| && b[j] == a[i];
      }
      if exists j :: 0 <= j < |b| && k in Touched(b[j], viewer) {
        var j :| 0 <= j < |b| && k in Touched(b[j], viewer);
        assert b[j] in multiset(a);
        var i :| 0 <= i < |a| && a[i] == b[j];
      }
    }
  }

  /** Appending expenses extends the fold: each balance grows by the deltas
      of the appended expenses. */
  lemma {:induction false} FoldAppend(a: seq<Expense>, b: seq<Expense>, viewer: string, k: string)
    ensures Lookup(Fold(a + b, viewer), k) == Lookup(Fold(a, viewer), k) + SumDelta(b, viewer, k)
  {
    FoldIsSumOfDeltas(a + b, viewer, k);
    FoldIsSumOfDeltas(a, viewer, k);
    SumDeltaAppend(a, b, viewer, k);
  }

  /** A record the views can read both ways: every split belongs to a
      participant, and no one has two splits. */
  predicate SplitsWellFormed(e: Expense)
  {
    && (forall i :: 0 <= i < |e.splits| ==> e.splits[i].email in e.participants)
    && (forall i, j :: 0 <= i < j < |e.splits| ==> e.splits[i].email != e.splits[j].email)
  }

  /** With one split per email, the summed splits of `k` are its one share. */
  lemma {:induction false} SplitTotalOfUnique(splits: seq<Split>, k: string)
    requires forall i, j :: 0 <= i < j < |splits| ==> splits[i].email != splits[j].email
    ensures forall i :: 0 <= i < |splits| && splits[i].email == k ==> SplitTotal(splits, k) == splits[i].amount
    ensures (forall i :: 0 <= i < |splits| ==> splits[i].email != k) ==> SplitTotal(splits, k) == 0
  {
    if splits != [] {
      var init := splits[..|splits| - 1];
      SplitTotalOfUnique(init, k);
      forall i | 0 <= i < |splits| && splits[i].email == k
        ensures SplitTotal(splits, k) == splits[i].amount
      {
        if i < |init| {
          assert init[i] == splits[i];
        } else {
          assert forall j :: 0 <= j < |init| ==> init[j].email != k by {
            forall j | 0 <= j < |init| ensures init[j].email != k {
              assert init[j] == splits[j];
            }
          }
        }
      }
      if forall i :: 0 <= i < |splits| ==> splits[i].email != k {
        assert forall j :: 0 <= j < |init| ==> init[j].email != k by {
          forall j | 0 <= j < |init| ensures init[j].email != k {
            assert init[j] == splits[j];
          }
        }
      }
    }
  }

  /** The share `find` reads is the summed split when emails are unique. */
  lemma ShareOfIsSplitTotal(splits: seq<Split>, k: string)
    requires forall i, j :: 0 <= i < j < |splits| ==> splits[i].email != splits[j].email
    ensures ShareOf(splits, k) == SplitTotal(splits, k)
  {
    SplitTotalOfUnique(splits, k);
  }

  /** One well-formed expense moves two people's views of each other by
      opposite amounts. */
  lemma DeltaSymmetry(e: Expense, a: string, b: string)
    requires a != b && SplitsWellFormed(e)
    ensures Delta(e, a, b) == -Delta(e, b, a)
  {
    ShareOfIsSplitTotal(e.splits, a);
    ShareOfIsSplitTotal(e.splits, b);
  }

  lemma {:induction false} SumDeltaSymmetry(expenses: seq<Expense>, a: string, b: string)
    requires a != b
    requires forall i :: 0 <= i < |expenses| ==> SplitsWellFormed(expenses[i])
    ensures SumDelta(expenses, a, b) == -SumDelta(expenses, b, a)
  {
    if expenses != [] {
      SumDeltaSymmetry(expenses[..|expenses| - 1], a, b);
      DeltaSymmetry(expenses[|expenses| - 1], a, b);
    }
  }

  /** Balance symmetry: what b owes a in a's view is what a is owed in b's
      view with the sign flipped (A pays 100 split evenly with B: A sees
      B at +50, B sees A at -50). */
  lemma BalanceSymmetry(expenses: seq<Expense>, a: string, b: string)
    requires a != b
    requires forall i :: 0 <= i < |expenses| ==> SplitsWellFormed(expenses[i])
    ensures Lookup(Fold(expenses, a), b) == -Lookup(Fold(expenses, b), a)
  {
    FoldIsSumOfDeltas(expenses, a, b);
    FoldIsSumOfDeltas(expenses, b, a);
    SumDeltaSymmetry(expenses, a, b);
  }
}
