/** Components/AddExpenseModal.tsx: the split calculation, the participant
    list, the manual split entries and the submit validation. */
module AddExpense {
  import opened Types
  import opened Calendar
  import opened Money
  import opened Seqs

  datatype Participant = Participant(email: string, name: string)

  datatype SplitMode = Equal | Manual

  function Emails(ps: seq<Participant>): (r: seq<string>)
    ensures |r| == |ps|
    ensures forall i :: 0 <= i < |ps| ==> r[i] == ps[i].email
  {
    seq(|ps|, i requires 0 <= i < |ps| => ps[i].email)
  }

  /** `parseFloat((total / n).toFixed(2))` in paise: the total divided by the
      participant count, rounded to the nearest paisa (halves upwards). */
  function PerPerson(total: int, n: int): (p: int)
    requires total > 0 && n > 0
    ensures -n < 2 * (n * p - total) <= n
    ensures p >= 0
  {
    var p := (2 * total + n) / (2 * n);
    assert 2 * n * p <= 2 * total + n < 2 * n * p + 2 * n;
    p
  }

  /** The equal split: every participant gets the rounded share except the
      last, who absorbs the rounding difference. */
  function EqualShares(total: int, emails: seq<string>): (r: seq<Split>)
    requires total > 0 && |emails| > 0
    ensures |r| == |emails|
    ensures forall i :: 0 <= i < |r| ==> r[i].email == emails[i]
    ensures forall i :: 0 <= i < |r| - 1 ==> r[i].amount == PerPerson(total, |emails|)
    ensures SplitSum(r) == total
  {
    var n := |emails|;
    var per := PerPerson(total, n);
    var r := seq(n, i requires 0 <= i < n => Split(emails[i], if i == n - 1 then total - (n - 1) * per else per));
    SplitSumOfEqualPrefix(r, n - 1, per);
    assert r[..n][..n - 1] == r[..n - 1];
    assert r[..n] == r;
    r
  }

  lemma {:induction false} SplitSumOfEqualPrefix(r: seq<Split>, k: nat, per: int)
    requires k <= |r|
    requires forall i :: 0 <= i < k ==> r[i].amount == per
    ensures SplitSum(r[..k]) == k * per
  {
    if k > 0 {
      assert r[..k][..k - 1] == r[..k - 1];
      SplitSumOfEqualPrefix(r, k - 1, per);
    }
  }

  /** Components/AddExpenseModal.tsx lines 67-82: the equal split built with
      `map`, summed with `reduce`, and the last element's amount overwritten
      in place with the rounding difference. */
  method EqualSplits(total: int, emails: seq<string>) returns (splits: seq<Split>)
    requires total > 0 && |emails| > 0
    ensures splits == EqualShares(total, emails)
  {
    var n := |emails|;
    var amountPerPerson := PerPerson(total, n);
    var newSplits := new Split[n](i requires 0 <= i < n => Split(emails[i], amountPerPerson));
    var totalSplit := 0;
    for i := 0 to n
      invariant totalSplit == SplitSum(newSplits[..i])
    {
      assert newSplits[..i + 1][..i] == newSplits[..i];
      totalSplit := totalSplit + newSplits[i].amount;
    }
    assert newSplits[..n] == newSplits[..];
    SplitSumOfEqualPrefix(newSplits[..], n, amountPerPerson);
    var roundingDiff := total - totalSplit;
    if roundingDiff != 0 && n > 0 {
      newSplits[n - 1] := newSplits[n - 1].(amount := newSplits[n - 1].amount + roundingDiff);
    }
    splits := newSplits[..];
    assert splits[n - 1].amount == total - (n - 1) * amountPerPerson by {
      assert n * amountPerPerson == (n - 1) * amountPerPerson + amountPerPerson;
    }
  }

  /** `parseFloat(manualSplits[email] || "0") || 0`: the stored entry in
      paise, 0 when it is missing or has no digits. */
  function ManualAmount(manual: map<string, string>, email: string): (r: int)
    ensures r >= 0
    ensures email in manual && ParseAmount(manual[email]).Some? ==> r == ParseAmount(manual[email]).value
    ensures !(email in manual && ParseAmount(manual[email]).Some?) ==> r == 0
  {
    var text := if email in manual && manual[email] != "" then manual[email] else "0";
    assert ParseAmount("0") == Some(0) by {
      assert DotIndex("0") == 1;
      assert "0"[..1] == "0";
      assert "0"[..1][..0] == [];
    }
    match ParseAmount(text)
    case Some(v) => v
    case None => 0
  }

  function ManualSplits(ps: seq<Participant>, manual: map<string, string>): (r: seq<Split>)
    ensures |r| == |ps|
    ensures forall i :: 0 <= i < |ps| ==> r[i] == Split(ps[i].email, ManualAmount(manual, ps[i].email))
  {
    seq(|ps|, i requires 0 <= i < |ps| => Split(ps[i].email, ManualAmount(manual, ps[i].email)))
  }

  /** The split list the effect of lines 59-91 stores. `amount` is the
      parsed amount field (None when it is empty). */
  function SplitsFor(amount: Option<int>, ps: seq<Participant>, mode: SplitMode, manual: map<string, string>): (r: seq<Split>)
    ensures amount.None? || amount.value <= 0 || ps == [] ==> r == []
    ensures amount.Some? && amount.value > 0 && ps != [] ==>
              |r| == |ps| && forall i :: 0 <= i < |r| ==> r[i].email == ps[i].email
    ensures amount.Some? && amount.value > 0 && ps != [] && mode == Equal ==>
              SplitSum(r) == amount.value &&
              forall i :: 0 <= i < |r| - 1 ==> r[i].amount == PerPerson(amount.value, |ps|)
    ensures amount.Some? && amount.value > 0 && mode == Manual ==>
              forall i :: 0 <= i < |r| ==> r[i].amount == ManualAmount(manual, ps[i].email)
  {
    if amount.None? || amount.value <= 0 || ps == [] then []
    else if mode == Equal then EqualShares(amount.value, Emails(ps))
    else ManualSplits(ps, manual)
  }

  /** Components/AddExpenseModal.tsx lines 59-91, the split effect. */
  method RecomputeSplits(amount: Option<int>, ps: seq<Participant>, mode: SplitMode, manual: map<string, string>)
    returns (splits: seq<Split>)
    ensures splits == SplitsFor(amount, ps, mode, manual)
  {
    if amount.None? || amount.value <= 0 || |ps| == 0 {
      return [];
    }
    if mode == Equal {
      splits := EqualSplits(amount.value, Emails(ps));
    } else {
      splits := ManualSplits(ps, manual);
    }
  }

  /** The total can leave the last share negative: 5 paise among 8 people
      gives seven shares of 1 paisa and a last share of -2. */
  lemma LastShareCanBeNegative()
    ensures var r := EqualShares(5, ["a", "b", "c", "d", "e", "f", "g", "h"]);
            r[7].amount == -2
  {
    assert PerPerson(5, 8) == 1;
  }

  /** Lines 93-102: a suggestion is appended only when it has an email and a name. */
  function AddParticipant(ps: seq<Participant>, u: User): (r: seq<Participant>)
    ensures u.email != "" && u.name.Some? && u.name.value != "" ==> r == ps + [Participant(u.email, u.name.value)]
    ensures !(u.email != "" && u.name.Some? && u.name.value != "") ==> r == ps
  {
    if u.email != "" && u.name.Some? && u.name.value != "" then ps + [Participant(u.email, u.name.value)] else ps
  }

  /** Lines 104-107: removes every participant with the email, never the viewer. */
  function RemoveParticipant(ps: seq<Participant>, email: string, viewer: string): (r: seq<Participant>)
    ensures email == viewer ==> r == ps
    ensures IsSubseq(r, ps)
    ensures email != viewer ==>
              forall p :: multiset(r)[p] == (if p.email != email then multiset(ps)[p] else 0)
    ensures forall p :: p in ps && p.email == viewer ==> p in r
  {
    if email == viewer then
      IsSubseqRefl(ps);
      ps
    else
      var keep := (p: Participant) => p.email != email;
      FilterIsSubseq(ps, keep);
      var r := Filter(ps, keep);
      assert forall p :: p in ps && p.email == viewer ==> multiset(r)[p] == multiset(ps)[p] > 0;
      r
  }

  /** Lines 109-113: an entry is stored only when it matches the amount pattern. */
  function ChangeManualSplit(manual: map<string, string>, email: string, value: string): (r: map<string, string>)
    ensures MatchesAmountPattern(value) ==> r == manual[email := value]
    ensures !MatchesAmountPattern(value) ==> r == manual
  {
    if MatchesAmountPattern(value) then manual[email := value] else manual
  }

  /** Lines 115-124: a manual split is valid when it adds up to the amount to
      the paisa (`parseFloat(amount) || 0` for the amount); equal mode always is. */
  predicate IsManualSplitValid(mode: SplitMode, splits: seq<Split>, amount: Option<int>)
  {
    mode != Manual || SplitSum(splits) == (if amount.Some? then amount.value else 0)
  }

  datatype FormError = MissingFields | SplitMismatch

  function ErrorMessage(e: FormError): (m: string)
    ensures m != ""
  {
    match e
    case MissingFields => "Please fill all required fields."
    case SplitMismatch => "The split amounts must add up to the total amount."
  }

  /** Lines 126-154: validation and the record handed to the store. */
  function Submit(amount: Option<int>, reason: string, category: string, ps: seq<Participant>,
                  mode: SplitMode, splits: seq<Split>, viewer: string, date: Date): (r: Result<Expense, FormError>)
    ensures r == Err(MissingFields) <==> amount.None? || amount.value <= 0 || reason == "" || ps == []
    ensures r == Err(SplitMismatch) <==>
              amount.Some? && amount.value > 0 && reason != "" && ps != [] &&
              mode == Manual && SplitSum(splits) != amount.value
    ensures r.Ok? ==> r.value == Expense(amount.value, reason, category, date, viewer, Emails(ps), splits)
  {
    if amount.None? || amount.value <= 0 || reason == "" || ps == [] then Err(MissingFields)
    else if mode == Manual && !IsManualSplitValid(mode, splits, amount) then Err(SplitMismatch)
    else Ok(Expense(amount.value, reason, category, date, viewer, Emails(ps), splits))
  }

  /** The `error` state `handleSubmit` leaves before the store is called:
      cleared, then set to the message of the first failed check. */
  function SubmitErrorText(amount: Option<int>, reason: string, category: string, ps: seq<Participant>,
                           mode: SplitMode, splits: seq<Split>, viewer: string, date: Date): (m: string)
    ensures m == "" <==> Submit(amount, reason, category, ps, mode, splits, viewer, date).Ok?
  {
    match Submit(amount, reason, category, ps, mode, splits, viewer, date)
    case Ok(_) => ""
    case Err(e) => ErrorMessage(e)
  }

  /** Whatever the mode, an accepted expense built from the computed splits
      has one split per participant, in order, summing to its amount. */
  lemma SubmittedSplitsSumToAmount(amount: Option<int>, reason: string, category: string, ps: seq<Participant>,
                                   mode: SplitMode, manual: map<string, string>, viewer: string, date: Date)
    requires Submit(amount, reason, category, ps, mode, SplitsFor(amount, ps, mode, manual), viewer, date).Ok?
    ensures var e := Submit(amount, reason, category, ps, mode, SplitsFor(amount, ps, mode, manual), viewer, date).value;
            && SplitSum(e.splits) == e.amount
            && |e.splits| == |e.participants|
            && (forall i :: 0 <= i < |e.splits| ==> e.splits[i].email == e.participants[i])
            && e.paidBy == viewer
  {
    var splits := SplitsFor(amount, ps, mode, manual);
    assert forall i :: 0 <= i < |splits| ==> splits[i].email == Emails(ps)[i];
  }
}
