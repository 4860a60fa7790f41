/** Amount text as the two modals accept it: the pattern ^\d*\.?\d{0,2}$,
    parseFloat on such text, and toFixed(2), all in integer paise. */
module Money {
  import opened Types

  predicate IsDigit(c: char)
  {
    '0' <= c <= '9'
  }

  predicate AllDigits(s: string)
  {
    forall i :: 0 <= i < |s| ==> IsDigit(s[i])
  }

  /** Index of the first '.', or |s| when there is none. */
  function DotIndex(s: string): (i: nat)
    ensures i <= |s|
    ensures i < |s| ==> s[i] == '.'
    ensures forall j :: 0 <= j < i ==> s[j] != '.'
  {
    if s == [] then 0
    else if s[0] == '.' then 0
    else 1 + DotIndex(s[1..])
  }

  /** ^\d*\.?\d{0,2}$ : digits, then at most one '.', then at most two digits. */
  predicate MatchesAmountPattern(s: string)
  {
    var i := DotIndex(s);
    AllDigits(s[..i]) && (i == |s| || (AllDigits(s[i + 1..]) && |s| - i - 1 <= 2))
  }

  /** Decimal value of a digit string ("" is 0). */
  function DigitsValue(s: string): (n: nat)
    requires AllDigits(s)
  {
    if s == [] then 0
    else DigitsValue(s[..|s| - 1]) * 10 + (s[|s| - 1] as int - '0' as int)
  }

  /** parseFloat of text matching the amount pattern, in paise: None (NaN) when
      the text has no digit at all ("" or "."). Text outside the pattern never
      reaches it in the modals and is reported as None. */
  function ParseAmount(s: string): (r: Option<int>)
    ensures r.Some? ==> MatchesAmountPattern(s) && r.value >= 0
    ensures r.None? && MatchesAmountPattern(s) ==> s == "" || s == "."
    ensures s == "" || s == "." ==> r.None?
  {
    if !MatchesAmountPattern(s) then None
    else
      var i := DotIndex(s);
      var whole := s[..i];
      var frac := if i == |s| then "" else s[i + 1..];
      if whole == [] && frac == [] then None
      else
        var cents := if |frac| == 0 then 0
                     else if |frac| == 1 then DigitsValue(frac) * 10
                     else DigitsValue(frac);
        Some(DigitsValue(whole) * 100 + cents)
  }

  function DigitChar(d: nat): (c: char)
    requires d < 10
    ensures IsDigit(c) && c as int - '0' as int == d
  {
    (d + '0' as int) as char
  }

  /** Decimal text of a natural number, without leading zeros. */
  function NatDigits(n: nat): (s: string)
    ensures |s| > 0 && AllDigits(s)
    ensures '.' !in s
  {
    if n < 10 then [DigitChar(n)] else NatDigits(n / 10) + [DigitChar(n % 10)]
  }

  lemma {:induction false} NatDigitsRoundTrip(n: nat)
    ensures DigitsValue(NatDigits(n)) == n
  {
    var s := NatDigits(n);
    if n >= 10 {
      NatDigitsRoundTrip(n / 10);
      assert s[..|s| - 1] == NatDigits(n / 10);
    }
  }

  /** toFixed(2) of a non-negative paise amount: "<rupees>.<two digits>". */
  function FormatAmount(p: nat): (s: string)
    ensures |s| >= 4 && s[|s| - 3] == '.'
    ensures AllDigits(s[..|s| - 3]) && AllDigits(s[|s| - 2..])
  {
    NatDigits(p / 100) + "." + [DigitChar(p % 100 / 10), DigitChar(p % 10)]
  }

  /** toFixed(2) text is accepted by the input pattern and parses back to the
      same amount: for whole-paise values parseFloat(x.toFixed(2)) is x. */
  lemma {:induction false} FormatParseRoundTrip(p: nat)
    ensures MatchesAmountPattern(FormatAmount(p))
    ensures ParseAmount(FormatAmount(p)) == Some(p)
  {
    var w := NatDigits(p / 100);
    var s := FormatAmount(p);
    var tail := "." + [DigitChar(p % 100 / 10), DigitChar(p % 10)];
    assert s == w + tail;
    DotIndexAfterDigits(w, tail);
    assert DotIndex(s) == |w|;
    assert s[..|w|] == w;
    var frac := s[|w| + 1..];
    assert frac == [DigitChar(p % 100 / 10), DigitChar(p % 10)];
    NatDigitsRoundTrip(p / 100);
    assert frac[..1] == [DigitChar(p % 100 / 10)];
    assert DigitsValue(frac[..1]) == p % 100 / 10;
    assert DigitsValue(frac) == p % 100;
  }

  /** Appending a digit multiplies the value by ten and adds the digit. */
  lemma DigitsValueSnoc(a: string, c: char)
    requires AllDigits(a) && IsDigit(c)
    ensures AllDigits(a + [c])
    ensures DigitsValue(a + [c]) == DigitsValue(a) * 10 + (c as int - '0' as int)
  {
    assert (a + [c])[..|a|] == a;
  }

  /** A fraction of at most two digits padded with zeros to two digits. */
  function PadCents(f: string): (r: string)
    requires AllDigits(f) && |f| <= 2
    ensures |r| == 2 && AllDigits(r) && r[..|f|] == f
  {
    f + seq(2 - |f|, _ => '0')
  }

  /** Two more digits after `w` add their value to a hundred times `w`'s. */
  lemma TwoDigitsAppended(w: string, t: string)
    requires AllDigits(w) && AllDigits(t) && |t| == 2
    ensures AllDigits(w + t) && DigitsValue(w + t) == DigitsValue(w) * 100 + DigitsValue(t)
  {
    var v, d0, d1 := DigitsValue(w), t[0] as int - '0' as int, t[1] as int - '0' as int;
    var a := w + [t[0]];
    DigitsValueSnoc(w, t[0]);
    DigitsValueSnoc(a, t[1]);
    assert w + t == a + [t[1]];
    TwoCharValue(t);
    assert (v * 10 + d0) * 10 + d1 == v * 100 + (d0 * 10 + d1);
  }

  lemma TwoCharValue(t: string)
    requires AllDigits(t) && |t| == 2
    ensures DigitsValue(t) == (t[0] as int - '0' as int) * 10 + (t[1] as int - '0' as int)
  {
    DigitsValueSnoc([], t[0]);
    assert [] + [t[0]] == [t[0]];
    DigitsValueSnoc([t[0]], t[1]);
    assert t == [t[0]] + [t[1]];
  }

  /** Text with a dot: the value is the digits read as one number, once the
      dot is removed and the fraction is padded to two digits ("12.5" is
      1250 paise, ".5" is 50, "5." is 500). */
  lemma ParseWithDot(w: string, f: string)
    requires AllDigits(w) && AllDigits(f) && |f| <= 2 && (w != [] || f != [])
    ensures MatchesAmountPattern(w + "." + f)
    ensures ParseAmount(w + "." + f) == Some(DigitsValue(w + PadCents(f)))
    ensures ParseAmount(w + "." + f) == Some(DigitsValue(w) * 100 + FractionPaise(f))
  {
    var s := w + "." + f;
    DotAfterDigits(w, f);
    ParseAtDot(s, |w|, w, f);
    TwoDigitsAppended(w, PadCents(f));
    PadCentsValue(f);
  }

  lemma DotAfterDigits(w: string, f: string)
    requires AllDigits(w)
    ensures var s := w + "." + f;
            DotIndex(s) == |w| && s[..|w|] == w && s[|w| + 1..] == f
  {
    var s := w + "." + f;
    assert s == w + ("." + f);
    DotIndexAfterDigits(w, "." + f);
  }

  /** The value of pattern text with its dot at `i`, between `w` and `f`. */
  lemma ParseAtDot(s: string, i: nat, w: string, f: string)
    requires i < |s| && DotIndex(s) == i && s[..i] == w && s[i + 1..] == f
    requires AllDigits(w) && AllDigits(f) && |f| <= 2 && |s| > 1
    ensures MatchesAmountPattern(s)
    ensures ParseAmount(s) == Some(DigitsValue(w) * 100 + FractionPaise(f))
  {
  }

  /** A fraction of at most two digits in paise: ".5" is 50, ".05" is 5. */
  function FractionPaise(f: string): nat
    requires AllDigits(f) && |f| <= 2
  {
    if |f| == 0 then 0 else if |f| == 1 then DigitsValue(f) * 10 else DigitsValue(f)
  }

  /** The padded fraction's value is the paise the fraction denotes. */
  lemma PadCentsValue(f: string)
    requires AllDigits(f) && |f| <= 2
    ensures DigitsValue(PadCents(f)) == FractionPaise(f)
  {
    var t := PadCents(f);
    DigitsValueSnoc([], t[0]);
    assert [] + [t[0]] == [t[0]];
    DigitsValueSnoc([t[0]], t[1]);
    assert t == [t[0]] + [t[1]];
    if |f| == 1 {
      assert f == [] + [t[0]];
    } else if |f| == 2 {
      assert t == f;
    }
  }

  /** Text without a dot: whole rupees ("50" is 5000 paise). */
  lemma ParseWithoutDot(w: string)
    requires AllDigits(w) && w != []
    ensures MatchesAmountPattern(w)
    ensures ParseAmount(w) == Some(DigitsValue(w) * 100)
  {
    DotIndexAfterDigits(w, "");
    assert w + "" == w;
    assert w[..|w|] == w;
  }

  /** "w." gives w whole rupees ("5." is 500 paise). */
  lemma ParseTrailingDot(w: string)
    requires AllDigits(w) && w != []
    ensures ParseAmount(w + ".") == Some(100 * DigitsValue(w))
  {
    ParseWithDot(w, []);
    assert w + "." + [] == w + ".";
  }

  /** "w.d" gives w rupees and d tenths ("12.5" is 1250 paise). */
  lemma ParseOneDecimal(w: string, d: nat)
    requires AllDigits(w) && d < 10
    ensures ParseAmount(w + "." + [DigitChar(d)]) == Some(100 * DigitsValue(w) + 10 * d)
  {
    ParseWithDot(w, [DigitChar(d)]);
    OneDigitValue(d);
  }

  lemma OneDigitValue(d: nat)
    requires d < 10
    ensures DigitsValue([DigitChar(d)]) == d
  {
    DigitsValueSnoc([], DigitChar(d));
    assert [] + [DigitChar(d)] == [DigitChar(d)];
  }

  /** ".d" with no whole part gives d tenths of a rupee. */
  lemma ParseLeadingDot(d: nat)
    requires d < 10
    ensures ParseAmount("." + [DigitChar(d)]) == Some(10 * d)
  {
    ParseOneDecimal([], d);
    assert [] + "." + [DigitChar(d)] == "." + [DigitChar(d)];
  }

  /** "w.de" gives w rupees and de paise ("12.05" is 1205 paise). */
  lemma ParseTwoDecimals(w: string, d: nat, e: nat)
    requires AllDigits(w) && d < 10 && e < 10
    ensures ParseAmount(w + "." + [DigitChar(d), DigitChar(e)]) == Some(100 * DigitsValue(w) + 10 * d + e)
  {
    ParseWithDot(w, [DigitChar(d), DigitChar(e)]);
    TwoDigitValue(d, e);
  }

  lemma TwoDigitValue(d: nat, e: nat)
    requires d < 10 && e < 10
    ensures DigitsValue([DigitChar(d), DigitChar(e)]) == 10 * d + e
  {
    var c, c' := DigitChar(d), DigitChar(e);
    DigitsValueSnoc([], c);
    assert [] + [c] == [c];
    DigitsValueSnoc([c], c');
    assert [c] + [c'] == [c, c'];
  }

  /** Text the pattern accepts is "" or ".", or has the shape of
      ParseWithoutDot or of ParseWithDot, so those two give every parsed value. */
  lemma PatternShapes(s: string)
    requires MatchesAmountPattern(s) && s != "" && s != "."
    ensures (AllDigits(s) && '.' !in s) ||
            exists w, f :: AllDigits(w) && AllDigits(f) && |f| <= 2 && (w != [] || f != []) && s == w + "." + f
  {
    var i := DotIndex(s);
    if i < |s| {
      var w := s[..i];
      var f := s[i + 1..];
      assert s == w + "." + f;
    } else {
      assert s[..i] == s;
    }
  }

  lemma {:induction false} DotIndexAfterDigits(w: string, rest: string)
    requires AllDigits(w)
    ensures DotIndex(w + rest) == |w| + DotIndex(rest)
    decreases |w|
  {
    if w != [] {
      assert (w + rest)[0] == w[0] && IsDigit(w[0]);
      assert (w + rest)[1..] == w[1..] + rest;
      DotIndexAfterDigits(w[1..], rest);
    } else {
      assert w + rest == rest;
    }
  }
}
