/** App.tsx: the email set gathered from the fetched expenses, the email to
    name map, and the expense-list update when a new expense is added. The
    store calls are parameters: `users` is what the user lookup returned. */
module App {
  import opened Types
  import opened Seqs
  import opened Debts

  /** The expense names `x` as its payer or as a participant. */
  predicate Involves(e: Expense, x: string)
  {
    e.paidBy == x || x in e.participants
  }

  /** App.tsx lines 55-59: every payer and every participant, once. */
  method CollectEmails(expenses: seq<Expense>) returns (emails: set<string>)
    ensures forall x :: x in emails <==> exists k :: 0 <= k < |expenses| && Involves(expenses[k], x)
  {
    emails := {};
    for i := 0 to |expenses|
      invariant forall x :: x in emails <==> exists k :: 0 <= k < i && Involves(expenses[k], x)
    {
      var e := expenses[i];
      emails := emails + {e.paidBy};
      for j := 0 to |e.participants|
        invariant forall x :: x in emails <==>
                    (exists k :: 0 <= k < i && Involves(expenses[k], x)) || x == e.paidBy || x in e.participants[..j]
      {
        assert e.participants[..j + 1] == e.participants[..j] + [e.participants[j]];
        emails := emails + {e.participants[j]};
      }
      assert e.participants[..|e.participants|] == e.participants;
    }
  }

  /** `if (u.name)`: a user record with a non-empty name. */
  predicate HasName(u: User)
  {
    u.name.Some? && u.name.value != ""
  }

  /** The map after `updated.set(u.email, u.name)` for every named user, in order. */
  function WithNames(m: map<string, string>, users: seq<User>): (r: map<string, string>)
    ensures m.Keys <= r.Keys
    ensures forall k :: k in r && k !in m ==> exists i :: 0 <= i < |users| && users[i].email == k && HasName(users[i])
  {
    if users == [] then m
    else
      var before := WithNames(m, users[..|users| - 1]);
      var u := users[|users| - 1];
      if HasName(u) then before[u.email := u.name.value] else before
  }

  /** The name of the last named user record for `email`, if any. */
  function LastNameFor(users: seq<User>, email: string): (r: Option<string>)
    ensures r.None? <==> forall i :: 0 <= i < |users| ==> !(users[i].email == email && HasName(users[i]))
    ensures r.Some? ==> exists i :: 0 <= i < |users| && users[i].email == email && HasName(users[i]) &&
                          users[i].name.value == r.value &&
                          forall j :: i < j < |users| ==> !(users[j].email == email && HasName(users[j]))
  {
    if users == [] then None
    else
      var u := users[|users| - 1];
      if u.email == email && HasName(u) then Some(u.name.value)
      else LastNameFor(users[..|users| - 1], email)
  }

  /** A key of the new map is an old key or the email of a named user; the
      last named record for an email wins, and other entries are kept. */
  lemma {:induction false} WithNamesLookup(m: map<string, string>, users: seq<User>, k: string)
    ensures k in WithNames(m, users) <==> k in m || LastNameFor(users, k).Some?
    ensures LastNameFor(users, k).Some? ==> WithNames(m, users)[k] == LastNameFor(users, k).value
    ensures LastNameFor(users, k).None? && k in m ==> WithNames(m, users)[k] == m[k]
  {
    if users != [] {
      WithNamesLookup(m, users[..|users| - 1], k);
    }
  }

  /** The map never gains an empty name. */
  lemma WithNamesHasNoEmptyName(m: map<string, string>, users: seq<User>)
    requires forall k :: k in m ==> m[k] != ""
    ensures forall k :: k in WithNames(m, users) ==> WithNames(m, users)[k] != ""
  {
    forall k | k in WithNames(m, users)
      ensures WithNames(m, users)[k] != ""
    {
      WithNamesLookup(m, users, k);
    }
  }

  /** App.tsx lines 65-67 and 96-98: the `forEach` that copies the names. */
  method AddNames(m0: map<string, string>, users: seq<User>) returns (m: map<string, string>)
    ensures m == WithNames(m0, users)
  {
    m := m0;
    for i := 0 to |users|
      invariant m == WithNames(m0, users[..i])
    {
      var u := users[i];
      assert users[..i + 1][..i] == users[..i];
      if u.name.Some? && u.name.value != "" {
        m := m[u.email := u.name.value];
      }
    }
    assert users[..|users|] == users;
  }

  /** App.tsx lines 55-70: the emails of the fetched expenses and the name
      map built from the users found for them; the map is left as it was
      when there are no emails. */
  method FetchNames(userExpenses: seq<Expense>, users: seq<User>, nameMap: map<string, string>)
    returns (emails: set<string>, names: map<string, string>)
    ensures forall x :: x in emails <==> exists k :: 0 <= k < |userExpenses| && Involves(userExpenses[k], x)
    ensures userExpenses == [] ==> names == nameMap
    ensures userExpenses != [] ==> names == WithNames(map[], users)
  {
    emails := CollectEmails(userExpenses);
    if |emails| > 0 {
      names := AddNames(map[], users);
    } else {
      names := nameMap;
    }
    if userExpenses != [] {
      assert userExpenses[0].paidBy in emails;
    }
  }

  /** `Array.from(new Set(xs))`: every element of `xs`, each once (the order is
      not stated). */
  function Dedup(s: seq<string>): (r: seq<string>)
    ensures forall x :: x in r <==> x in s
    ensures forall i, j :: 0 <= i < j < |r| ==> r[i] != r[j]
  {
    if s == [] then []
    else
      var init := s[..|s| - 1];
      assert s == init + [s[|s| - 1]];
      var d := Dedup(init);
      if s[|s| - 1] in d then d else d + [s[|s| - 1]]
  }

  /** App.tsx lines 84-89: the payer and participant emails not yet in the
      name map, each once. */
  function MissingEmails(e: Expense, nameMap: map<string, string>): (r: seq<string>)
    ensures forall x :: x in r <==> Involves(e, x) && x !in nameMap
    ensures forall i, j :: 0 <= i < j < |r| ==> r[i] != r[j]
  {
    var all := Dedup([e.paidBy] + e.participants);
    var keep := (x: string) => x !in nameMap;
    var r := Filter(all, keep);
    FilterKeepsDistinct(all, keep, r);
    forall x ensures x in r <==> Involves(e, x) && x !in nameMap {
      assert x in [e.paidBy] + e.participants <==> Involves(e, x);
      if x in all && keep(x) {
        assert multiset(r)[x] == multiset(all)[x] > 0;
      }
    }
    r
  }

  /** Filtering a sequence without repeats leaves one without repeats. */
  lemma FilterKeepsDistinct(s: seq<string>, p: string -> bool, r: seq<string>)
    requires forall a, b :: 0 <= a < b < |s| ==> s[a] != s[b]
    requires r == Filter(s, p)
    ensures forall i, j :: 0 <= i < j < |r| ==> r[i] != r[j]
  {
    forall i, j | 0 <= i < j < |r| ensures r[i] != r[j] {
      DistinctCountAtMostOne(s, r[i]);
      RepeatCountsTwice(r, i, j);
    }
  }

  lemma RepeatCountsTwice(r: seq<string>, i: int, j: int)
    requires 0 <= i < j < |r|
    ensures r[i] == r[j] ==> multiset(r)[r[i]] >= 2
  {
    if r[i] == r[j] {
      assert r == r[..i] + [r[i]] + r[i + 1..j] + [r[j]] + r[j + 1..];
    }
  }

  lemma {:induction false} DistinctCountAtMostOne(s: seq<string>, x: string)
    requires forall a, b :: 0 <= a < b < |s| ==> s[a] != s[b]
    ensures multiset(s)[x] <= 1
  {
    if s != [] {
      assert s == [s[0]] + s[1..];
      DistinctCountAtMostOne(s[1..], x);
      if s[0] == x {
        assert x !in s[1..];
      }
    }
  }

  /** App.tsx lines 83-101: the name map after adding an expense. The lookup
      runs only when some email is missing; `newUsers` is its answer. */
  method AddExpenseNames(newExpense: Expense, nameMap: map<string, string>, newUsers: seq<User>)
    returns (updated: map<string, string>)
    ensures MissingEmails(newExpense, nameMap) == [] ==> updated == nameMap
    ensures MissingEmails(newExpense, nameMap) != [] ==> updated == WithNames(nameMap, newUsers)
  {
    var missing := MissingEmails(newExpense, nameMap);
    if |missing| > 0 {
      updated := AddNames(nameMap, newUsers);
    } else {
      updated := nameMap;
    }
  }

  /** App.tsx lines 106-108: the new expense put in front, then a stable
      sort by date, newest first. */
  function InsertExpense(prev: seq<Expense>, newExpense: Expense): (r: seq<Expense>)
    ensures multiset(r) == multiset(prev) + multiset{newExpense}
    ensures |r| == |prev| + 1
    ensures SortedDesc(r, DateKey)
  {
    var r := SortDesc([newExpense] + prev, DateKey);
    assert multiset([newExpense] + prev) == multiset(prev) + multiset{newExpense};
    r
  }
}
