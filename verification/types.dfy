/** The records of types.ts. Money is in integer paise (1 rupee = 100 paise);
    people are identified by their email address. */
module Types {
  import opened Calendar

  datatype Option<T> = None | Some(value: T)

  datatype Result<T, E> = Ok(value: T) | Err(error: E)

  /** A participant's owed share of one expense. */
  datatype Split = Split(email: string, amount: int)

  /** An expense record as the views see it (the store-assigned id is left out). */
  datatype Expense = Expense(
    amount: int,
    reason: string,
    category: string,
    date: Date,
    paidBy: string,
    participants: seq<string>,
    splits: seq<Split>)

  /** balance > 0: the counterparty owes the viewer; balance < 0: the viewer owes them. */
  datatype FriendBalance = FriendBalance(email: string, name: string, balance: int)

  datatype User = User(uid: string, email: string, name: Option<string>)

  const SETTLEMENT: string := "Settlement"
  const TRANSFER: string := "Transfer"

  /** `splits.find(s => s.email === email)`: the first split of `email`. */
  function FindSplit(splits: seq<Split>, email: string): (r: Option<Split>)
    ensures r.None? <==> forall i :: 0 <= i < |splits| ==> splits[i].email != email
    ensures r.Some? ==> r.value in splits && r.value.email == email
    ensures r.Some? ==> exists i :: 0 <= i < |splits| && splits[i] == r.value &&
                          forall j :: 0 <= j < i ==> splits[j].email != email
  {
    if splits == [] then None
    else if splits[0].email == email then Some(splits[0])
    else
      var r := FindSplit(splits[1..], email);
      assert r.Some? ==> exists i :: 0 <= i < |splits[1..]| && splits[1..][i] == r.value &&
                          forall j :: 0 <= j < i ==> splits[1..][j].email != email;
      r
  }

  /** `splits.find(s => s.email === email)?.amount || 0`: the share of `email`,
      0 when it has no split. */
  function ShareOf(splits: seq<Split>, email: string): (r: int)
    ensures FindSplit(splits, email).Some? ==> r == FindSplit(splits, email).value.amount
    ensures (forall i :: 0 <= i < |splits| ==> splits[i].email != email) ==> r == 0
  {
    match FindSplit(splits, email)
    case Some(s) => s.amount
    case None => 0
  }

  /** The sum of all split amounts. */
  function SplitSum(splits: seq<Split>): int
  {
    if splits == [] then 0 else SplitSum(splits[..|splits| - 1]) + splits[|splits| - 1].amount
  }

  lemma SplitSumPair(a: Split, b: Split)
    ensures SplitSum([a, b]) == a.amount + b.amount
  {
    var s := [a, b];
    assert s[..|s| - 1] == [a];
    assert [a][..|[a]| - 1] == [];
    assert SplitSum([a]) == SplitSum([]) + a.amount;
  }
}
