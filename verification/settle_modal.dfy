/** Components/SettleDebtModal.tsx: the amount field and error message of the
    settle dialog, updated by typing, submitting and reopening. */
module SettleModal {
  import opened Types
  import opened Money
  import opened Balances
  import opened Debts
  import opened Calendar

  const INVALID_AMOUNT: string := "Please enter a valid amount."

  /** `Amount cannot exceed ₹<totalDebt.toFixed(2)>`. */
  function ExceedMessage(totalDebt: nat): (m: string)
    ensures m != "" && m != INVALID_AMOUNT
  {
    var m := "Amount cannot exceed \U{20B9}" + FormatAmount(totalDebt);
    assert m[0] == 'A' && INVALID_AMOUNT[0] == 'P';
    m
  }

  /** `Math.abs(friend.balance)` (line 31). */
  function TotalDebt(f: FriendBalance): (d: nat)
    ensures d == f.balance || d == -f.balance
  {
    if f.balance < 0 then -f.balance else f.balance
  }

  /** The error an accepted keystroke leaves (lines 43-48): the exceed message
      exactly when the text parses to more than the debt. "" and "." parse to
      NaN, which exceeds nothing. */
  function ChangeError(value: string, totalDebt: nat): (e: string)
    ensures e != "" <==> ParseAmount(value).Some? && ParseAmount(value).value > totalDebt
    ensures e == "" || e == ExceedMessage(totalDebt)
  {
    match ParseAmount(value)
    case Some(v) => if v > totalDebt then ExceedMessage(totalDebt) else ""
    case None => ""
  }

  /** The checks of `handleSubmit` (lines 54-63). Ok carries the amount
      handed to `onSettle`; Err carries the message shown instead. With whole
      paise, `> totalDebt + 0.001` is `> totalDebt`. */
  function Validate(amount: string, totalDebt: nat): (r: Result<int, string>)
    ensures r.Ok? <==> ParseAmount(amount).Some? && 0 < ParseAmount(amount).value <= totalDebt
    ensures r.Ok? ==> ParseAmount(amount) == Some(r.value) && 0 < r.value <= totalDebt
    ensures r.Err? && (ParseAmount(amount).None? || ParseAmount(amount).value <= 0) ==> r.error == INVALID_AMOUNT
    ensures r.Err? && ParseAmount(amount).Some? && ParseAmount(amount).value > totalDebt ==> r.error == ExceedMessage(totalDebt)
  {
    match ParseAmount(amount)
    case None => Err(INVALID_AMOUNT)
    case Some(v) =>
      if v <= 0 then Err(INVALID_AMOUNT)
      else if v > totalDebt then Err(ExceedMessage(totalDebt))
      else Ok(v)
  }

  class SettleForm {
    const friend: FriendBalance
    var amount: string
    var error: string

    /** `disabled={!!error || !amount}` (line 118), negated. */
    predicate SubmitEnabled()
      reads this
    {
      error == "" && amount != ""
    }

    /** The field only ever holds text the input pattern accepted, and the
        button is enabled only for "." or an amount within the debt. */
    predicate Valid()
      reads this
    {
      && MatchesAmountPattern(amount)
      && (SubmitEnabled() ==> amount == "." || (ParseAmount(amount).Some? && ParseAmount(amount).value <= TotalDebt(friend)))
    }

    /** The dialog for one friend, opened with both fields empty (lines 19-27). */
    constructor(friend: FriendBalance)
      ensures this.friend == friend && amount == "" && error == ""
      ensures Valid()
    {
      this.friend := friend;
      amount := "";
      error := "";
    }

    /** The reset effect when the dialog is reopened (lines 22-27). */
    method Open()
      modifies this
      ensures amount == "" && error == ""
      ensures Valid()
    {
      amount := "";
      error := "";
    }

    /** `handleAmountChange` (lines 39-50). */
    method ChangeAmount(value: string)
      requires Valid()
      modifies this
      ensures Valid()
      ensures MatchesAmountPattern(value) ==> amount == value && error == ChangeError(value, TotalDebt(friend))
      ensures !MatchesAmountPattern(value) ==> amount == old(amount) && error == old(error)
    {
      if MatchesAmountPattern(value) {
        amount := value;
        var numValue := ParseAmount(value);
        if numValue.Some? && numValue.value > TotalDebt(friend) {
          error := ExceedMessage(TotalDebt(friend));
        } else {
          error := "";
          if value != "" {
            EnabledAfterChangeIsWithinDebt(value, TotalDebt(friend));
          }
        }
      }
    }

    /** `handleSubmit` (lines 52-66): `settled` is the argument passed to
        `onSettle`, None when it is not called. */
    method Submit() returns (settled: Option<int>)
      requires Valid()
      modifies this
      ensures Valid() && amount == old(amount)
      ensures var v := Validate(old(amount), TotalDebt(friend));
              && (v.Ok? ==> settled == Some(v.value) && error == "")
              && (v.Err? ==> settled == None && error == v.error)
    {
      var totalDebt := TotalDebt(friend);
      var settlementAmount := ParseAmount(amount);
      if settlementAmount.None? || settlementAmount.value <= 0 {
        error := INVALID_AMOUNT;
        return None;
      }
      if settlementAmount.value > totalDebt {
        error := ExceedMessage(totalDebt);
        return None;
      }
      error := "";
      settled := Some(settlementAmount.value);
    }
  }

  /** After a keystroke the pattern accepted, the button is enabled only
      when the text is "." or parses to an amount within the debt. */
  lemma EnabledAfterChangeIsWithinDebt(value: string, totalDebt: nat)
    requires MatchesAmountPattern(value)
    requires ChangeError(value, totalDebt) == "" && value != ""
    ensures value == "." || (ParseAmount(value).Some? && ParseAmount(value).value <= totalDebt)
  {
  }

  /** A settlement of an amount the dialog accepts, folded into the balances
      the friend's entry came from, brings that balance toward zero without
      crossing it and leaves every other counterparty unchanged. */
  lemma AcceptedSettlementReducesDebt(expenses: seq<Expense>, viewer: string, friend: FriendBalance,
                                      text: string, date: Date)
    requires friend.email != viewer
    requires friend.balance == Lookup(Fold(expenses, viewer), friend.email)
    requires Validate(text, TotalDebt(friend)).Ok?
    ensures var amount := Validate(text, TotalDebt(friend)).value;
            var after := Fold(expenses + [BuildSettlement(viewer, friend, amount, date)], viewer);
            && TotalDebt(FriendBalance(friend.email, friend.name, Lookup(after, friend.email))) == TotalDebt(friend) - amount
            && (forall k :: k != friend.email ==> Lookup(after, k) == Lookup(Fold(expenses, viewer), k))
  {
    var amount := Validate(text, TotalDebt(friend)).value;
    SettlementReducesDebt(expenses, viewer, friend, amount, date);
  }
}
