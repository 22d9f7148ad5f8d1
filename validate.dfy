/** Check digits and length checks of the Russian national identifiers:
    OGRN (state registration number), SNILS (insurance account number),
    INN (taxpayer number) and KPP (registration reason code), and the
    dispatch by validator name a field may list. */
module Validate {
  import opened PyCore

  // ------------------------------------------------------------- weighted sums

  /** Σ digit(s[j]) · ws[j] over the characters of `s`. */
  function WeightedSum(s: string, ws: seq<int>): int
    requires |s| <= |ws| && AllDigits(s)
  {
    if s == [] then 0 else WeightedSum(s[..|s| - 1], ws) + DigitOf(s[|s| - 1]) * ws[|s| - 1]
  }

  const SNILS_WEIGHTS: seq<int> := [9, 8, 7, 6, 5, 4, 3, 2, 1]
  const INN_UL_WEIGHTS: seq<int> := [2, 4, 10, 3, 5, 9, 4, 6, 8]
  const INN_FIRST_WEIGHTS: seq<int> := [7, 2, 4, 10, 3, 5, 9, 4, 6, 8]
  const INN_SECOND_WEIGHTS: seq<int> := [3, 7, 2, 4, 10, 3, 5, 9, 4, 6, 8]

  /** `str(d)` of a single digit. */
  lemma DigitText(d: nat)
    requires d < 10
    ensures PyStr(Int(d)) == [DigitChar(d)]
  {
  }

  /** `("0" + str(c))[-2:]`. */
  function PadTwo(c: nat): string
  {
    var s := "0" + PyStr(Int(c));
    s[|s| - 2..]
  }

  /** A number below 100, padded to two characters, is its two decimal digits. */
  lemma PadTwoDigits(c: nat)
    requires c < 100
    ensures PadTwo(c) == [DigitChar(c / 10), DigitChar(c % 10)]
  {
    var lo := c % 10;
    var hi := c / 10;
    assert hi < 10;
    if c >= 10 {
      var d := NatToDecimal(c);
      assert d == NatToDecimal(hi) + [DigitChar(lo)];
      assert NatToDecimal(hi) == [DigitChar(hi)];
      assert d == [DigitChar(hi), DigitChar(lo)];
      assert ("0" + d)[1..] == d;
    } else {
      assert hi == 0 && lo == c;
      assert PyStr(Int(c)) == [DigitChar(c)];
      assert "0" + [DigitChar(c)] == [DigitChar(0), DigitChar(c)];
    }
  }

  // --------------------------------------------------------------- check digits

  /** `get_control_ogrn`: the integer value of the first 12 (UL) or 14 (IP)
      characters, mod 11 or 13, mod 10. */
  function OgrnControl(t: string, value: string): (r: Result<string>)
    ensures t != "UL" && t != "IP" ==> r.Err? && r.error.Raised?
    ensures t == "UL" ==> (r.Ok? <==> PyInt(Take(value, 12)).Ok?)
    ensures t == "IP" ==> (r.Ok? <==> PyInt(Take(value, 14)).Ok?)
    ensures r.Ok? ==> |r.value| == 1 && IsAsciiDigit(r.value[0])
  {
    if t == "UL" then
      var m :- PyInt(Take(value, 12));
      DigitText(m % 11 % 10);
      Ok(PyStr(Int(m % 11 % 10)))
    else if t == "IP" then
      var m :- PyInt(Take(value, 14));
      DigitText(m % 13 % 10);
      Ok(PyStr(Int(m % 13 % 10)))
    else Err(Raised("get_control_ogrn expected t in [UL, IP], got " + t))
  }

  /** `get_control_snils`: Σ dᵢ·(9−i) over the first nine digits, mod 101,
      where 100 counts as 0, written as two characters. */
  function SnilsControl(value: string): (r: Result<string>)
    ensures r.Ok? <==> AllDigits(Take(value, 9))
    ensures r.Err? ==> r.error == INT_ERROR
    ensures r.Ok? ==> |r.value| == 2 && IsAsciiDigit(r.value[0]) && IsAsciiDigit(r.value[1])
  {
    var main := Take(value, 9);
    if !AllDigits(main) then Err(INT_ERROR)
    else
      var control := SnilsNumber(main);
      PadTwoDigits(control);
      Ok(PadTwo(control))
  }

  /** The check number of SNILS digits: the weighted sum mod 101, where 100 counts as 0. */
  function SnilsNumber(main: string): (c: nat)
    requires |main| <= 9 && AllDigits(main)
    ensures c < 100
  {
    var sum := WeightedSum(main, SNILS_WEIGHTS) % 101;
    if sum >= 100 then 0 else sum
  }

  /** The first INN check digit of a physical person or entrepreneur. */
  function InnFirst(main: string): (d: nat)
    requires |main| <= 10 && AllDigits(main)
    ensures d < 10
  {
    WeightedSum(main, INN_FIRST_WEIGHTS) % 11 % 10
  }

  /** The second one, over the first ten digits followed by the first check digit. */
  function InnSecond(main: string): (d: nat)
    requires |main| <= 10 && AllDigits(main)
    ensures d < 10
  {
    var ext := main + [DigitChar(InnFirst(main))];
    assert AllDigits(ext) by { assert forall i :: 0 <= i < |main| ==> ext[i] == main[i]; }
    WeightedSum(ext, INN_SECOND_WEIGHTS) % 11 % 10
  }

  /** `get_control_inn`: one check digit for a legal entity (UL), two for an
      entrepreneur (IP) or physical person (FL). */
  function InnControl(t: string, value: string): (r: Result<string>)
    ensures t != "UL" && t != "IP" && t != "FL" ==> r.Err? && r.error.Raised?
    ensures t == "UL" ==> (r.Ok? <==> AllDigits(Take(value, 9)))
    ensures t == "IP" || t == "FL" ==> (r.Ok? <==> AllDigits(Take(value, 10)))
    ensures r.Err? && (t == "UL" || t == "IP" || t == "FL") ==> r.error == INT_ERROR
    ensures r.Ok? && t == "UL" ==> |r.value| == 1 && IsAsciiDigit(r.value[0])
    ensures r.Ok? && t != "UL" ==> |r.value| == 2 && IsAsciiDigit(r.value[0]) && IsAsciiDigit(r.value[1])
  {
    if t == "UL" then
      var main := Take(value, 9);
      if !AllDigits(main) then Err(INT_ERROR)
      else
        var c := WeightedSum(main, INN_UL_WEIGHTS) % 11 % 10;
        DigitText(c);
        Ok(PyStr(Int(c)))
    else if t == "IP" || t == "FL" then
      var main := Take(value, 10);
      if !AllDigits(main) then Err(INT_ERROR)
      else
        DigitText(InnFirst(main));
        DigitText(InnSecond(main));
        Ok(PyStr(Int(InnFirst(main))) + PyStr(Int(InnSecond(main))))
    else Err(Raised("get_control_inn expected t in [FL, UL, IP], got " + t))
  }

  /** Stepping the weighted sum over one more digit. */
  lemma WeightedSumStep(s: string, ws: seq<int>, i: nat)
    requires i < |s| <= |ws| && AllDigits(s)
    ensures AllDigits(s[..i]) && AllDigits(s[..i + 1])
    ensures WeightedSum(s[..i + 1], ws) == WeightedSum(s[..i], ws) + DigitOf(s[i]) * ws[i]
  {
    assert s[..i + 1][..i] == s[..i];
  }

  /** `int(d)` of the character at `i` while every character before it is a digit. */
  lemma DigitAt(s: string, i: nat)
    requires i < |s| && AllDigits(s[..i])
    ensures PyInt([s[i]]).Ok? <==> IsDigit(s[i])
    ensures PyInt([s[i]]).Ok? ==> PyInt([s[i]]).value == DigitOf(s[i]) && AllDigits(s[..i + 1])
    ensures PyInt([s[i]]).Err? ==> !AllDigits(s) && PyInt([s[i]]).error == INT_ERROR
  {
    var c := s[i];
    PyIntOfChar(c);
    PyIntError([c]);
    if IsDigit(c) {
      DigitsExtend(s, i);
    } else {
      NotAllDigits(s, i);
    }
  }

  lemma DigitsExtend(s: string, i: nat)
    requires i < |s| && AllDigits(s[..i]) && IsDigit(s[i])
    ensures AllDigits(s[..i + 1])
  {
    assert forall j :: 0 <= j < i ==> s[..i][j] == s[j];
    assert forall j :: 0 <= j < i + 1 ==> s[..i + 1][j] == s[j];
  }

  lemma NotAllDigits(s: string, i: nat)
    requires i < |s| && !IsDigit(s[i])
    ensures !AllDigits(s)
  {
  }

  /** The weighted sum of `main`, reading each character through `int()` as
      the source's loops do: the sum, or the error of the first non-digit. */
  method SumDigits(main: string, ws: seq<int>) returns (r: Result<int>)
    requires |main| <= |ws|
    ensures r.Ok? <==> AllDigits(main)
    ensures r.Ok? ==> r.value == WeightedSum(main, ws)
    ensures r.Err? ==> r.error == INT_ERROR
  {
    var control := 0;
    var i := 0;
    while i < |main|
      invariant 0 <= i <= |main|
      invariant AllDigits(main[..i])
      invariant control == WeightedSum(main[..i], ws)
    {
      DigitAt(main, i);
      var d := PyInt([main[i]]);
      if d.Err? {
        return Err(d.error);
      }
      assert main[..i + 1][..i] == main[..i];
      control := control + d.value * ws[i];
      i := i + 1;
    }
    assert main[..i] == main;
    return Ok(control);
  }

  /** `get_control_snils`, with its accumulating loop. */
  method GetControlSnils(value: string) returns (r: Result<string>)
    ensures r == SnilsControl(value)
  {
    var main := Take(value, 9);
    var sum := SumDigits(main, SNILS_WEIGHTS);
    if sum.Err? {
      return Err(sum.error);
    }
    var control := sum.value % 101;
    if control >= 100 {
      control := 0;
    }
    return Ok(PadTwo(control));
  }

  /** `get_control_inn`, with its accumulating loops. */
  method GetControlInn(t: string, value: string) returns (r: Result<string>)
    ensures r == InnControl(t, value)
  {
    if t == "UL" {
      var main := Take(value, 9);
      var sum := SumDigits(main, INN_UL_WEIGHTS);
      if sum.Err? {
        return Err(sum.error);
      }
      return Ok(PyStr(Int(sum.value % 11 % 10)));
    }
    if t == "IP" || t == "FL" {
      var main := Take(value, 10);
      var sum1 := SumDigits(main, INN_FIRST_WEIGHTS);
      if sum1.Err? {
        return Err(sum1.error);
      }
      var control1 := sum1.value % 11 % 10;
      DigitText(control1);
      var ext := main + PyStr(Int(control1));
      // The second pass reads only digits, so its `int()` calls cannot raise.
      assert AllDigits(ext) by { assert forall i :: 0 <= i < |main| ==> ext[i] == main[i]; }
      var sum2 := SumDigits(ext, INN_SECOND_WEIGHTS);
      var control2 := sum2.value % 11 % 10;
      return Ok(PyStr(Int(control1)) + PyStr(Int(control2)));
    }
    return Err(Raised("get_control_inn expected t in [FL, UL, IP], got " + t));
  }

  // ----------------------------------------------------------------- validators

  /** `len(value)` and indexing need a string: any other value raises. */
  function Text(value: Value): (r: Result<string>)
    ensures r.Ok? <==> value.Str?
    ensures r.Ok? ==> r.value == value.s
  {
    if value.Str? then Ok(value.s) else Err(LenError(value))
  }

  /** `s[-n:]` for a string of at least `n` characters. */
  function Last(s: string, n: nat): string
    requires n <= |s|
  {
    s[|s| - n..]
  }

  /** `validate_ogrn`: 13 characters for UL, 15 for IP, the last one the check digit. */
  function ValidateOgrn(t: string, value: Value): (r: Result<bool>)
    ensures value.Null? ==> r == Ok(false)
    ensures value.Str? && t == "UL" && |value.s| != 13 ==> r == Ok(false)
    ensures value.Str? && t == "IP" && |value.s| != 15 ==> r == Ok(false)
    ensures !value.Null? && t != "UL" && t != "IP" ==> r.Err?
  {
    if value.Null? then Ok(false)
    else if t == "UL" then
      var s :- Text(value);
      if |s| != 13 then Ok(false)
      else var c :- OgrnControl(t, s); Ok(Last(s, 1) == c)
    else if t == "IP" then
      var s :- Text(value);
      if |s| != 15 then Ok(false)
      else var c :- OgrnControl(t, s); Ok(Last(s, 1) == c)
    else Err(Raised("validate_ogrn expected t in [UL, IP], got " + t))
  }

  /** `validate_snils`: 11 characters, the last two the check pair. */
  function ValidateSnils(value: Value): (r: Result<bool>)
    ensures value.Null? ==> r == Ok(false)
    ensures value.Str? && |value.s| != 11 ==> r == Ok(false)
    ensures !value.Null? && !value.Str? ==> r.Err? && r.error.TypeError?
  {
    if value.Null? then Ok(false)
    else
      var s :- Text(value);
      if |s| != 11 then Ok(false)
      else var c :- SnilsControl(s); Ok(Last(s, 2) == c)
  }

  /** `validate_inn`: 10 characters and one check digit for UL, 12 and two for FL and IP. */
  function ValidateInn(t: string, value: Value): (r: Result<bool>)
    ensures value.Null? ==> r == Ok(false)
    ensures value.Str? && t == "UL" && |value.s| != 10 ==> r == Ok(false)
    ensures value.Str? && (t == "FL" || t == "IP") && |value.s| != 12 ==> r == Ok(false)
    ensures !value.Null? && t != "UL" && t != "FL" && t != "IP" ==> r.Err?
  {
    if value.Null? then Ok(false)
    else if t == "UL" then
      var s :- Text(value);
      if |s| != 10 then Ok(false)
      else var c :- InnControl(t, s); Ok(Last(s, 1) == c)
    else if t == "FL" || t == "IP" then
      var s :- Text(value);
      if |s| != 12 then Ok(false)
      else var c :- InnControl(t, s); Ok(Last(s, 2) == c)
    else Err(Raised("validate_inn expected t in [FL, UL, IP], got " + t))
  }

  /** `validate_kpp`: nine characters, nothing else checked. */
  function ValidateKpp(value: Value): (r: Result<bool>)
    ensures value.Null? ==> r == Ok(false)
    ensures value.Str? ==> r == Ok(|value.s| == 9)
    ensures !value.Null? && !value.Str? ==> r.Err? && r.error.TypeError?
  {
    if value.Null? then Ok(false)
    else
      var s :- Text(value);
      Ok(|s| == 9)
  }

  // ------------------------------------------------------ what validation means

  /** A legal entity's INN is valid iff it is ten digits ending in the check
      digit of the first nine. */
  lemma InnUlMeaning(s: string)
    requires |s| == 10 && AllDigits(s)
    ensures ValidateInn("UL", Str(s)) == Ok(s[9..] == InnControl("UL", s[..9]).value)
  {
    assert Take(s, 9) == s[..9];
    assert Take(s[..9], 9) == s[..9];
  }

  /** A personal INN is valid iff it is twelve digits ending in the two check
      digits of the first ten. */
  lemma InnPersonMeaning(t: string, s: string)
    requires t == "FL" || t == "IP"
    requires |s| == 12 && AllDigits(s)
    ensures ValidateInn(t, Str(s)) == Ok(s[10..] == InnControl(t, s[..10]).value)
  {
    assert Take(s, 10) == s[..10];
    assert Take(s[..10], 10) == s[..10];
  }

  /** A SNILS is valid iff it is eleven digits ending in the check pair of the first nine. */
  lemma SnilsMeaning(s: string)
    requires |s| == 11 && AllDigits(s)
    ensures ValidateSnils(Str(s)) == Ok(s[9..] == SnilsControl(s[..9]).value)
  {
    assert Take(s, 9) == s[..9];
    assert Take(s[..9], 9) == s[..9];
  }

  /** The OGRN check digit of an all-digit string: its number mod 11 (UL)
      or mod 13 (IP), mod 10. */
  lemma OgrnControlOfDigits(t: string, main: string)
    requires t == "UL" || t == "IP"
    requires |main| == (if t == "UL" then 12 else 14) && AllDigits(main)
    ensures var m := DecimalValue(main);
            OgrnControl(t, main) == Ok([DigitChar(if t == "UL" then m % 11 % 10 else m % 13 % 10)])
  {
    assert Take(main, |main|) == main;
    PyIntOfDigits(main);
    var m := DecimalValue(main);
    DigitText(m % 11 % 10);
    DigitText(m % 13 % 10);
  }

  /** An OGRN is valid iff it is all digits and its last digit is the number
      formed by the others mod 11 (UL, 13 digits) or mod 13 (IP, 15 digits), mod 10. */
  lemma OgrnMeaning(t: string, s: string)
    requires (t == "UL" && |s| == 13) || (t == "IP" && |s| == 15)
    requires AllDigits(s)
    ensures var m := DecimalValue(s[..|s| - 1]);
            ValidateOgrn(t, Str(s)) == Ok(s[|s| - 1] == DigitChar(if t == "UL" then m % 11 % 10 else m % 13 % 10))
  {
    var main := s[..|s| - 1];
    assert AllDigits(main) by {
      assert forall i :: 0 <= i < |main| ==> main[i] == s[i];
    }
    assert s == main + [s[|s| - 1]];
    OgrnOfParts(t, main, s[|s| - 1]);
    OgrnControlOfDigits(t, main);
  }

  /** The digits of an OGRN followed by one more character: valid iff that
      character is their check digit. */
  lemma OgrnOfParts(t: string, main: string, d: char)
    requires t == "UL" || t == "IP"
    requires |main| == (if t == "UL" then 12 else 14) && AllDigits(main)
    ensures OgrnControl(t, main).Ok?
    ensures ValidateOgrn(t, Str(main + [d])) == Ok([d] == OgrnControl(t, main).value)
  {
    OgrnControlOfDigits(t, main);
    var s := main + [d];
    OgrnControlPrefix(t, main, d);
    ValidateOgrnOfControl(t, s);
    assert Last(s, 1) == [d];
  }

  /** The check digit reads only the first 12 (UL) or 14 (IP) characters. */
  lemma OgrnControlPrefix(t: string, main: string, d: char)
    requires |main| == (if t == "UL" then 12 else 14)
    ensures OgrnControl(t, main + [d]) == OgrnControl(t, main)
  {
    var s := main + [d];
    assert Take(s, |main|) == main && Take(main, |main|) == main;
  }

  /** An OGRN of the right length whose check digit can be computed is valid
      iff its last character is that digit. */
  lemma ValidateOgrnOfControl(t: string, s: string)
    requires (t == "UL" && |s| == 13) || (t == "IP" && |s| == 15)
    requires OgrnControl(t, s).Ok?
    ensures ValidateOgrn(t, Str(s)) == Ok(Last(s, 1) == OgrnControl(t, s).value)
  {
  }

  /** Appending a number's own check digits makes it valid: the validators
      accept exactly the numbers the check-digit functions complete. */
  lemma InnUlCompletes(base: string)
    requires |base| == 9 && AllDigits(base)
    ensures ValidateInn("UL", Str(base + InnControl("UL", base).value)) == Ok(true)
  {
    var s := base + InnControl("UL", base).value;
    assert s[..9] == base && s[9..] == InnControl("UL", base).value;
    assert AllDigits(s) by {
      assert forall i :: 0 <= i < 9 ==> s[i] == base[i];
    }
    InnUlMeaning(s);
  }

  lemma SnilsCompletes(base: string)
    requires |base| == 9 && AllDigits(base)
    ensures ValidateSnils(Str(base + SnilsControl(base).value)) == Ok(true)
  {
    var c := SnilsControl(base).value;
    var s := base + c;
    assert s[..9] == base && s[9..] == c;
    assert AllDigits(s) by {
      assert forall i :: 0 <= i < 9 ==> s[i] == base[i];
      assert s[9] == c[0] && s[10] == c[1];
    }
    SnilsMeaning(s);
  }

  /** A non-digit where a check digit is read makes validation raise, not fail. */
  lemma SnilsNonDigitRaises(s: string, i: nat)
    requires |s| == 11 && i < 9 && !IsDigit(s[i])
    ensures ValidateSnils(Str(s)) == Err(INT_ERROR)
  {
    assert Take(s, 9)[i] == s[i];
  }

  // --------------------------------------------------------------- the examples

  lemma InnUlExample()
    ensures InnControl("UL", "771000001") == Ok("5")
    ensures ValidateInn("UL", Str("7710000015")) == Ok(true)
    ensures ValidateInn("UL", Str("7710000016")) == Ok(false)
  {
    InnUlControlExample();
    InnUlOfParts("771000001", '5');
    InnUlOfParts("771000001", '6');
    assert "771000001" + ['5'] == "7710000015" && "771000001" + ['6'] == "7710000016";
  }

  lemma InnUlControlExample()
    ensures InnControl("UL", "771000001") == Ok("5")
  {
    var base := "771000001";
    assert AllDigits(base);
    assert Take(base, 9) == base;
    InnUlSum();
    DigitText(5);
  }

  /** Nine digits followed by one: a legal INN iff that digit is their check digit. */
  lemma InnUlOfParts(base: string, d: char)
    requires |base| == 9 && AllDigits(base) && IsDigit(d)
    ensures ValidateInn("UL", Str(base + [d])) == Ok([d] == InnControl("UL", base).value)
  {
    var s := base + [d];
    assert s[..9] == base && s[9..] == [d];
    assert AllDigits(s) by {
      assert forall i :: 0 <= i < 9 ==> s[i] == base[i];
    }
    InnUlMeaning(s);
  }

  lemma SnilsExample()
    ensures SnilsControl("112233445") == Ok("95")
  {
    SnilsSum();
    SnilsControlOfSum("112233445", 95);
    PadTwo95();
  }

  /** The check pair of nine digits whose weighted sum is below 100 is that sum. */
  lemma SnilsControlOfSum(base: string, sum: nat)
    requires |base| == 9 && AllDigits(base) && sum < 100
    requires WeightedSum(base, SNILS_WEIGHTS) == sum
    ensures SnilsControl(base) == Ok(PadTwo(sum))
  {
    SnilsNumberOfSum(base, sum);
    SnilsControlOfDigits(base);
  }

  lemma SnilsNumberOfSum(base: string, sum: nat)
    requires |base| == 9 && AllDigits(base) && sum < 100
    requires WeightedSum(base, SNILS_WEIGHTS) == sum
    ensures SnilsNumber(base) == sum
  {
  }

  /** The check pair of nine digits is their check number, padded. */
  lemma SnilsControlOfDigits(base: string)
    requires |base| == 9 && AllDigits(base)
    ensures SnilsControl(base) == Ok(PadTwo(SnilsNumber(base)))
  {
    assert Take(base, 9) == base;
  }

  /** Digits of equal value give equal weighted sums, whatever their script. */
  lemma {:induction false} WeightedSumByValue(s: string, t: string, ws: seq<int>)
    requires |s| == |t| <= |ws| && AllDigits(s) && AllDigits(t)
    requires forall i :: 0 <= i < |s| ==> DigitOf(s[i]) == DigitOf(t[i])
    ensures WeightedSum(s, ws) == WeightedSum(t, ws)
  {
    if s != [] {
      var n := |s| - 1;
      assert AllDigits(s[..n]) && AllDigits(t[..n]);
      WeightedSumByValue(s[..n], t[..n], ws);
    }
  }

  /** A SNILS written in Arabic-Indic digits is read by `int()`, so it
      validates to `False` instead of raising: the check pair is computed as
      the ASCII text "95" and compared with "٩٥". */
  lemma SnilsOtherScriptExample()
    ensures ValidateSnils(Str("\U{661}\U{661}\U{662}\U{662}\U{663}\U{663}\U{664}\U{664}\U{665}\U{669}\U{665}")) == Ok(false)
  {
    var base := "\U{661}\U{661}\U{662}\U{662}\U{663}\U{663}\U{664}\U{664}\U{665}";
    var pair := "\U{669}\U{665}";
    forall i | 0 <= i < 9 {
      ArabicIndicDigit(base[i]);
    }
    ArabicIndicDigit(pair[0]);
    ArabicIndicDigit(pair[1]);
    assert DigitOf(base[0]) == 1 && DigitOf(base[1]) == 1 && DigitOf(base[2]) == 2;
    assert DigitOf(base[3]) == 2 && DigitOf(base[4]) == 3 && DigitOf(base[5]) == 3;
    assert DigitOf(base[6]) == 4 && DigitOf(base[7]) == 4 && DigitOf(base[8]) == 5;
    SnilsSameValues(base);
    SnilsOfParts(base, pair);
    assert base + pair == "\U{661}\U{661}\U{662}\U{662}\U{663}\U{663}\U{664}\U{664}\U{665}\U{669}\U{665}";
    assert pair != "95" by { assert pair[0] != '9'; }
  }

  /** Nine digits with the values of 1, 1, 2, 2, 3, 3, 4, 4, 5 have the check pair "95". */
  lemma SnilsSameValues(base: string)
    requires |base| == 9 && AllDigits(base)
    requires forall i :: 0 <= i < 9 ==> DigitOf(base[i]) == DigitOf("112233445"[i])
    ensures SnilsControl(base) == Ok("95")
  {
    WeightedSumByValue(base, "112233445", SNILS_WEIGHTS);
    SnilsSum();
    SnilsControlOfSum(base, 95);
    PadTwo95();
  }

  lemma PadTwo95()
    ensures PadTwo(95) == "95"
  {
    PadTwoDigits(95);
    assert DigitChar(9) == '9' && DigitChar(5) == '5';
  }

  lemma SnilsValidExample()
    ensures ValidateSnils(Str("11223344595")) == Ok(true)
  {
    SnilsExample();
    SnilsOfParts("112233445", "95");
    assert "112233445" + "95" == "11223344595";
  }

  lemma SnilsInvalidExample()
    ensures ValidateSnils(Str("11223344500")) == Ok(false)
  {
    SnilsExample();
    SnilsOfParts("112233445", "00");
    assert "112233445" + "00" == "11223344500";
  }

  /** Nine digits followed by a pair of digits: valid iff the pair is their check pair. */
  lemma SnilsOfParts(base: string, pair: string)
    requires |base| == 9 && AllDigits(base) && |pair| == 2 && AllDigits(pair)
    ensures ValidateSnils(Str(base + pair)) == Ok(pair == SnilsControl(base).value)
  {
    var s := base + pair;
    assert s[..9] == base && s[9..] == pair;
    assert AllDigits(s) by {
      assert forall i :: 0 <= i < 9 ==> s[i] == base[i];
      assert forall i :: 9 <= i < 11 ==> s[i] == pair[i - 9];
    }
    SnilsMeaning(s);
  }

  lemma SnilsSum()
    ensures WeightedSum("112233445", SNILS_WEIGHTS) == 95
  {
    var w := SNILS_WEIGHTS;
    SnilsSumMiddle();
    assert "112233445"[..8] == "11223344" && "11223344"[..7] == "1122334";
    assert WeightedSum("11223344", w) == 90;
  }

  lemma SnilsSumMiddle()
    ensures WeightedSum("1122334", SNILS_WEIGHTS) == 82
  {
    var w := SNILS_WEIGHTS;
    SnilsSumFront();
    assert "1122334"[..6] == "112233" && "112233"[..5] == "11223";
    assert "11223"[..4] == "1122";
    assert WeightedSum("11223", w) == 58;
    assert WeightedSum("112233", w) == 70;
  }

  lemma SnilsSumFront()
    ensures WeightedSum("1122", SNILS_WEIGHTS) == 43
  {
    var w := SNILS_WEIGHTS;
    assert "1122"[..3] == "112";
    assert "112"[..2] == "11" && "11"[..1] == "1" && "1"[..0] == "";
    assert WeightedSum("1", w) == 9;
    assert WeightedSum("11", w) == 17;
    assert WeightedSum("112", w) == 31;
  }

  lemma InnUlSum()
    ensures WeightedSum("771000001", INN_UL_WEIGHTS) == 60
  {
    var w := INN_UL_WEIGHTS;
    InnUlSumFront();
    assert "771000001"[..8] == "77100000" && "77100000"[..7] == "7710000";
    assert "7710000"[..6] == "771000" && "771000"[..5] == "77100";
    assert "77100"[..4] == "7710" && "7710"[..3] == "771";
    assert WeightedSum("77100000", w) == 52;
  }

  lemma InnUlSumFront()
    ensures WeightedSum("771", INN_UL_WEIGHTS) == 52
  {
    var w := INN_UL_WEIGHTS;
    assert "771"[..2] == "77" && "77"[..1] == "7" && "7"[..0] == "";
    assert WeightedSum("7", w) == 14;
    assert WeightedSum("77", w) == 42;
  }

  // ------------------------------------------------------ validators by name

  /** `validate_function`: a name ending in "optional" also accepts `None`;
      the known names dispatch to their validators, any other name fails. */
  function ValidateFunction(name: string, value: Value, allowNone: bool): (r: Result<bool>)
    ensures EndsWith(name, "optional") && value.Null? ==> r == Ok(true)
    ensures allowNone && value.Null? ==> r == Ok(true)
  {
    var optional := EndsWith(name, "optional");
    var validate := if optional then Strip(name[..|name| - |"optional"|]) else name;
    if (allowNone || optional) && value.Null? then Ok(true)
    else if validate == "kpp" then ValidateKpp(value)
    else if validate == "snils" then ValidateSnils(value)
    else if validate == "ogrn_ip" then ValidateOgrn("IP", value)
    else if validate == "ogrn_ul" then ValidateOgrn("UL", value)
    else if validate == "inn_fl" then ValidateInn("FL", value)
    else if validate == "inn_ip" then ValidateInn("IP", value)
    else if validate == "inn_ul" then ValidateInn("UL", value)
    else Ok(false)
  }

  /** The names `validate_function` knows. */
  predicate KnownName(v: string)
  {
    v in {"kpp", "snils", "ogrn_ip", "ogrn_ul", "inn_fl", "inn_ip", "inn_ul"}
  }

  /** An unknown name fails every non-`None` value, and never raises. */
  lemma UnknownNameFails(name: string, value: Value, allowNone: bool)
    requires !EndsWith(name, "optional") && !KnownName(name) && !value.Null?
    ensures ValidateFunction(name, value, allowNone) == Ok(false)
  {
  }

  /** A name followed by a space and the suffix checks a present value
      exactly as the bare name does. */
  lemma OptionalSuffix(v: string, value: Value, allowNone: bool)
    requires v != [] && !IsSpace(v[0]) && !IsSpace(v[|v| - 1]) && !EndsWith(v, "optional")
    requires !value.Null?
    ensures ValidateFunction(v + " optional", value, allowNone) == ValidateFunction(v, value, allowNone)
  {
    var name := v + " optional";
    assert name[|name| - 8..] == "optional";
    assert name[..|name| - 8] == v + " ";
    StripTrailingSpace(v);
  }

  lemma StripTrailingSpace(v: string)
    requires v != [] && !IsSpace(v[0]) && !IsSpace(v[|v| - 1])
    ensures Strip(v + " ") == v
  {
    var s := v + " ";
    assert s[0] == v[0] && IsSpace(s[|s| - 1]);
    assert DropSpace(s) == s;
    assert s[..|s| - 1] == v;
    assert DropTrailingSpace(s) == DropTrailingSpace(v);
  }

  /** `validate_list_functions`: every validator in order, stopping at the
      first that fails. */
  function ValidateAll(names: seq<string>, value: Value, allowNone: bool): (r: Result<bool>)
    ensures names == [] ==> r == Ok(true)
  {
    FirstFailure(Results(names, value, allowNone))
  }

  /** What each named validator gives the value, in the order of the names. */
  function Results(names: seq<string>, value: Value, allowNone: bool): (rs: seq<Result<bool>>)
    ensures |rs| == |names|
    ensures forall i :: 0 <= i < |names| ==> rs[i] == ValidateFunction(names[i], value, allowNone)
  {
    seq(|names|, i requires 0 <= i < |names| => ValidateFunction(names[i], value, allowNone))
  }

  /** Reading results in order: the first that raises raises, the first
      `False` decides, and `True` when every one passes. */
  function FirstFailure(rs: seq<Result<bool>>): Result<bool>
  {
    if rs == [] then Ok(true)
    else
      var ok :- rs[0];
      if !ok then Ok(false) else FirstFailure(rs[1..])
  }

  /** The list passes iff every validator passes. */
  lemma ValidateAllMeaning(names: seq<string>, value: Value, allowNone: bool)
    ensures ValidateAll(names, value, allowNone) == Ok(true)
            <==> forall i :: 0 <= i < |names| ==> ValidateFunction(names[i], value, allowNone) == Ok(true)
  {
    AllPassIff(Results(names, value, allowNone));
  }

  /** A run of results passes exactly when each result passes. */
  lemma {:induction false} AllPassIff(rs: seq<Result<bool>>)
    ensures FirstFailure(rs) == Ok(true) <==> forall i :: 0 <= i < |rs| ==> rs[i] == Ok(true)
  {
    if rs != [] {
      var tail := rs[1..];
      AllPassIff(tail);
      assert forall i :: 1 <= i < |rs| ==> rs[i] == tail[i - 1];
    }
  }

  /** In a run of results, a `False` after passing ones decides the run. */
  lemma {:induction false} FailureStops(rs: seq<Result<bool>>, k: nat)
    requires k < |rs|
    requires forall i :: 0 <= i < k ==> rs[i] == Ok(true)
    requires rs[k] == Ok(false)
    ensures FirstFailure(rs) == Ok(false)
    decreases k
  {
    if k > 0 {
      var tail := rs[1..];
      assert forall i :: 0 <= i < k - 1 ==> tail[i] == rs[i + 1];
      FailureStops(tail, k - 1);
    }
  }

  /** Once a validator fails, the ones after it are not run: what they would
      do, raising included, does not matter. */
  lemma ValidateAllStops(names: seq<string>, k: nat, value: Value, allowNone: bool)
    requires k < |names|
    requires forall i :: 0 <= i < k ==> ValidateFunction(names[i], value, allowNone) == Ok(true)
    requires ValidateFunction(names[k], value, allowNone) == Ok(false)
    ensures ValidateAll(names, value, allowNone) == Ok(false)
  {
    FailureStops(Results(names, value, allowNone), k);
  }

  /** Whatever follows the first failing validator is not consulted. */
  lemma PrefixDecides(names: seq<string>, k: nat, rest: seq<string>, value: Value, allowNone: bool)
    requires k < |names|
    requires forall i :: 0 <= i < k ==> ValidateFunction(names[i], value, allowNone) == Ok(true)
    requires ValidateFunction(names[k], value, allowNone) == Ok(false)
    ensures ValidateAll(names[..k + 1] + rest, value, allowNone) == Ok(false)
  {
    var l := names[..k + 1] + rest;
    assert forall i :: 0 <= i <= k ==> l[i] == names[i];
    FailureStops(Results(l, value, allowNone), k);
  }

  /** `validate_list_functions`, with its early-returning loop. */
  method ValidateListFunctions(names: seq<string>, value: Value, allowNone: bool) returns (r: Result<bool>)
    ensures r == ValidateAll(names, value, allowNone)
  {
    var i := 0;
    while i < |names|
      invariant 0 <= i <= |names|
      invariant ValidateAll(names, value, allowNone) == FirstFailure(Results(names, value, allowNone)[i..])
    {
      ghost var rs := Results(names, value, allowNone);
      assert rs[i..][0] == rs[i] && rs[i..][1..] == rs[i + 1..];
      var ok := ValidateFunction(names[i], value, allowNone);
      if ok.Err? {
        return Err(ok.error);
      }
      if !ok.value {
        return Ok(false);
      }
      i := i + 1;
    }
    return Ok(true);
  }
}
