/** Python run-time notions shared by every module of the model:
    optional values, exceptions as results, the scalar values that flow
    through templates and records, `str()`, `int()` on text, and the
    whitespace-aware string methods (`split`, `strip`, `join`) the
    repository relies on. */
module PyCore {

  datatype Option<T> = None | Some(value: T) {
    predicate IsFailure() { None? }
    function PropagateFailure<U>(): Option<U> requires None? { None }
    function Extract(): T requires Some? { value }
  }

  /** The exception a Python call raises, by kind. */
  datatype Error =
    | KeyError(key: string)
    | TypeError(what: string)
    | ValueError(what: string)
    | AttributeError(what: string)
    | Raised(message: string)
    | Unsupported(what: string)

  /** A value, or the exception that was raised instead. */
  datatype Result<T> = Ok(value: T) | Err(error: Error) {
    predicate IsFailure() { Err? }
    function PropagateFailure<U>(): Result<U> requires Err? { Err(error) }
    function Extract(): T requires Ok? { value }
  }

  /** A Python scalar: `None`, a bool, an int or a str. */
  datatype Value = Null | Bool(b: bool) | Int(i: int) | Str(s: string)

  /** Python truthiness of a scalar. */
  predicate Truthy(v: Value)
  {
    match v
    case Null => false
    case Bool(b) => b
    case Int(i) => i != 0
    case Str(s) => s != ""
  }

  /** Python `==` between two scalars; `True == 1` and `False == 0` hold. */
  predicate ScalarEq(a: Value, b: Value)
  {
    match (a, b)
    case (Null, Null) => true
    case (Str(x), Str(y)) => x == y
    case (Int(x), Int(y)) => x == y
    case (Bool(x), Bool(y)) => x == y
    case (Bool(x), Int(y)) => (if x then 1 else 0) == y
    case (Int(x), Bool(y)) => x == (if y then 1 else 0)
    case _ => false
  }

  function DigitChar(d: nat): (c: char)
    requires d < 10
    ensures '0' <= c <= '9'
  {
    ['0', '1', '2', '3', '4', '5', '6', '7', '8', '9'][d]
  }

  /** An ASCII decimal digit: what `str()` of a number writes. */
  predicate IsAsciiDigit(c: char) { '0' <= c <= '9' }

  /** How many blocks of ten decimal digits Unicode 15.0 has besides ASCII's. */
  const DIGIT_BLOCKS: nat := 67

  /** The first code point of block `i` (general category Nd of Unicode 15.0,
      ASCII's excluded), in increasing order; the digit values run 0 to 9
      from it. */
  function BlockZero(i: nat): (z: int)
    requires i < DIGIT_BLOCKS
    ensures z >= 0x660
  {
    match i
      case 0 => 0x660
      case 1 => 0x6F0
      case 2 => 0x7C0
      case 3 => 0x966
      case 4 => 0x9E6
      case 5 => 0xA66
      case 6 => 0xAE6
      case 7 => 0xB66
      case 8 => 0xBE6
      case 9 => 0xC66
      case 10 => 0xCE6
      case 11 => 0xD66
      case 12 => 0xDE6
      case 13 => 0xE50
      case 14 => 0xED0
      case 15 => 0xF20
      case 16 => 0x1040
      case 17 => 0x1090
      case 18 => 0x17E0
      case 19 => 0x1810
      case 20 => 0x1946
      case 21 => 0x19D0
      case 22 => 0x1A80
      case 23 => 0x1A90
      case 24 => 0x1B50
      case 25 => 0x1BB0
      case 26 => 0x1C40
      case 27 => 0x1C50
      case 28 => 0xA620
      case 29 => 0xA8D0
      case 30 => 0xA900
      case 31 => 0xA9D0
      case 32 => 0xA9F0
      case 33 => 0xAA50
      case 34 => 0xABF0
      case 35 => 0xFF10
      case 36 => 0x104A0
      case 37 => 0x10D30
      case 38 => 0x11066
      case 39 => 0x110F0
      case 40 => 0x11136
      case 41 => 0x111D0
      case 42 => 0x112F0
      case 43 => 0x11450
      case 44 => 0x114D0
      case 45 => 0x11650
      case 46 => 0x116C0
      case 47 => 0x11730
      case 48 => 0x118E0
      case 49 => 0x11950
      case 50 => 0x11C50
      case 51 => 0x11D50
      case 52 => 0x11DA0
      case 53 => 0x11F50
      case 54 => 0x16A60
      case 55 => 0x16AC0
      case 56 => 0x16B50
      case 57 => 0x1D7CE
      case 58 => 0x1D7D8
      case 59 => 0x1D7E2
      case 60 => 0x1D7EC
      case 61 => 0x1D7F6
      case 62 => 0x1E140
      case 63 => 0x1E2F0
      case 64 => 0x1E4F0
      case 65 => 0x1E950
      case _ => 0x1FBF0
  }

  /** The zero of the block among blocks `i..` that holds code point `k`, or -1. */
  function ZeroFrom(k: int, i: nat): (z: int)
    requires i <= DIGIT_BLOCKS
    ensures z == -1 || (0x660 <= z <= k < z + 10)
    decreases DIGIT_BLOCKS - i
  {
    if i == DIGIT_BLOCKS then -1
    else if BlockZero(i) <= k < BlockZero(i) + 10 then BlockZero(i)
    else ZeroFrom(k, i + 1)
  }

  /** A code point outside blocks `i..` has no zero there. */
  lemma {:induction false} ZeroFromOutside(k: int, i: nat)
    requires i <= DIGIT_BLOCKS
    requires forall j :: i <= j < DIGIT_BLOCKS ==> !(BlockZero(j) <= k < BlockZero(j) + 10)
    ensures ZeroFrom(k, i) == -1
    decreases DIGIT_BLOCKS - i
  {
    if i < DIGIT_BLOCKS {
      ZeroFromOutside(k, i + 1);
    }
  }

  /** Below U+0660 only ASCII digits are decimal digits. */
  lemma LowNonDigit(c: char)
    requires c as int < 0x660 && !IsAsciiDigit(c)
    ensures !IsDigit(c)
  {
    ZeroFromOutside(c as int, 0);
  }

  /** The Arabic-Indic digits U+0660 to U+0669 form the first block. */
  lemma ArabicIndicDigit(c: char)
    requires 0x660 <= c as int < 0x66A
    ensures IsDigit(c) && DigitOf(c) == c as int - 0x660
  {
    assert BlockZero(0) == 0x660;
  }

  /** No whitespace character is a decimal digit. */
  lemma SpaceNonDigit(c: char)
    ensures IsSpace(c) ==> !IsDigit(c)
  {
    if !IsSpace(c) {
    } else if c as int < 0x660 {
      LowNonDigit(c);
    } else {
      var k := c as int;
      assert forall j :: 0 <= j < DIGIT_BLOCKS ==> !(BlockZero(j) <= k < BlockZero(j) + 10);
      ZeroFromOutside(k, 0);
    }
  }

  /** A Unicode decimal digit, as `int()` reads one: an ASCII digit or a
      digit of another script (Arabic-Indic, Devanagari, full-width, ...). */
  predicate IsDigit(c: char)
  {
    IsAsciiDigit(c) || ZeroFrom(c as int, 0) >= 0
  }

  predicate AllDigits(s: string)
  {
    forall i :: 0 <= i < |s| ==> IsDigit(s[i])
  }

  /** Python `s[:n]`. */
  function Take<T>(s: seq<T>, n: nat): (r: seq<T>)
    ensures |r| == if n <= |s| then n else |s|
    ensures r == s[..|r|]
  {
    if n <= |s| then s[..n] else s
  }

  /** The value of a decimal digit of any script. */
  function DigitOf(c: char): (d: nat)
    requires IsDigit(c)
    ensures d < 10
    ensures IsAsciiDigit(c) ==> DigitChar(d) == c
  {
    if IsAsciiDigit(c) then c as int - '0' as int else c as int - ZeroFrom(c as int, 0)
  }

  /** The decimal text of a natural number, without leading zeros. */
  function NatToDecimal(n: nat): (s: string)
    ensures |s| >= 1 && forall i :: 0 <= i < |s| ==> IsAsciiDigit(s[i])
    decreases n
  {
    if n < 10 then [DigitChar(n)] else NatToDecimal(n / 10) + [DigitChar(n % 10)]
  }

  /** The number a string of decimal digits denotes. */
  function DecimalValue(s: string): nat
    requires forall i :: 0 <= i < |s| ==> IsDigit(s[i])
  {
    if s == [] then 0 else 10 * DecimalValue(s[..|s| - 1]) + DigitOf(s[|s| - 1])
  }

  lemma {:induction false} DecimalRoundTrip(n: nat)
    ensures DecimalValue(NatToDecimal(n)) == n
    decreases n
  {
    if n >= 10 {
      DecimalRoundTrip(n / 10);
      var s := NatToDecimal(n);
      assert s[..|s| - 1] == NatToDecimal(n / 10);
    }
  }

  /** Python `str()` of a scalar. */
  function PyStr(v: Value): string
  {
    match v
    case Null => "None"
    case Bool(b) => if b then "True" else "False"
    case Int(i) => if i < 0 then "-" + NatToDecimal(-i) else NatToDecimal(i)
    case Str(s) => s
  }

  /** `type(v).__name__` of a scalar. */
  function TypeName(v: Value): string
  {
    match v
    case Null => "NoneType"
    case Bool(_) => "bool"
    case Int(_) => "int"
    case Str(_) => "str"
  }

  /** The TypeError `len(v)` raises for a value that has no length. */
  function LenError(v: Value): Error
  {
    TypeError("object of type '" + TypeName(v) + "' has no len()")
  }

  /** The AttributeError `v.name` raises when the type of `v` has no such
      attribute. */
  function NoAttribute(v: Value, name: string): Error
  {
    AttributeError("'" + TypeName(v) + "' object has no attribute '" + name + "'")
  }

  /** The characters Python's `str.isspace()` accepts, which `split()` and
      `strip()` without arguments remove. */
  predicate IsSpace(c: char)
  {
    var k := c as int;
    (9 <= k <= 13) || (0x1C <= k <= 0x20) || k == 0x85 || k == 0xA0 || k == 0x1680
    || (0x2000 <= k <= 0x200A) || k == 0x2028 || k == 0x2029 || k == 0x202F
    || k == 0x205F || k == 0x3000
  }

  /** `s` with its leading whitespace removed. */
  function DropSpace(s: string): (r: string)
    ensures |r| <= |s| && r == s[|s| - |r|..]
    ensures r == [] || !IsSpace(r[0])
    ensures forall i :: 0 <= i < |s| - |r| ==> IsSpace(s[i])
  {
    if s != [] && IsSpace(s[0]) then
      var r := DropSpace(s[1..]);
      assert forall i :: 1 <= i < |s| ==> s[1..][i - 1] == s[i];
      r
    else s
  }

  /** The longest prefix of `s` holding no whitespace. */
  function TakeWord(s: string): (w: string)
    ensures |w| <= |s| && w == s[..|w|]
    ensures forall i :: 0 <= i < |w| ==> !IsSpace(w[i])
    ensures |w| < |s| ==> IsSpace(s[|w|])
  {
    if s != [] && !IsSpace(s[0]) then [s[0]] + TakeWord(s[1..]) else []
  }

  /** Python `s.split()`: the maximal runs of non-whitespace, in order. */
  function Split(s: string): seq<string>
    decreases |s|
  {
    var t := DropSpace(s);
    if t == [] then []
    else
      var w := TakeWord(t);
      [w] + Split(t[|w|..])
  }

  /** Python `sep.join(parts)`. */
  function Join(sep: string, parts: seq<string>): string
  {
    if parts == [] then "" else if |parts| == 1 then parts[0] else parts[0] + sep + Join(sep, parts[1..])
  }

  /** Python `s.strip()`. */
  function Strip(s: string): (r: string)
    ensures r == [] || (!IsSpace(r[0]) && !IsSpace(r[|r| - 1]))
  {
    var t := DropSpace(s);
    DropTrailingSpace(t)
  }

  function DropTrailingSpace(s: string): (r: string)
    ensures |r| <= |s| && r == s[..|r|]
    ensures r == [] || !IsSpace(r[|r| - 1])
    ensures r != [] ==> s[0] == r[0]
  {
    if s != [] && IsSpace(s[|s| - 1]) then DropTrailingSpace(s[..|s| - 1]) else s
  }

  /** Python `s.split(sep)` for a one-character separator: never empty. */
  function SplitOn(s: string, sep: char): (parts: seq<string>)
    ensures |parts| >= 1
    ensures forall i :: 0 <= i < |parts| ==> sep !in parts[i]
    decreases |s|
  {
    if sep !in s then [s]
    else
      var k := IndexOf(s, sep);
      [s[..k]] + SplitOn(s[k + 1..], sep)
  }

  function IndexOf(s: string, c: char): (k: nat)
    requires c in s
    ensures k < |s| && s[k] == c && c !in s[..k]
  {
    if s[0] == c then 0 else IndexOf(s[1..], c) + 1
  }

  predicate StartsWith(s: string, prefix: string)
  {
    |prefix| <= |s| && s[..|prefix|] == prefix
  }

  predicate EndsWith(s: string, suffix: string)
  {
    |suffix| <= |s| && s[|s| - |suffix|..] == suffix
  }

  /** Python `a in b` for two strings: `a` is a substring of `b`. */
  predicate IsSubstring(a: string, b: string)
  {
    exists i :: 0 <= i <= |b| - |a| && OccursAt(a, b, i)
  }

  predicate OccursAt(a: string, b: string, i: int)
  {
    0 <= i <= |b| - |a| && b[i..i + |a|] == a
  }

  /** A word list as `split()` returns it: no empty word, no whitespace. */
  predicate Words(ws: seq<string>)
  {
    forall i :: 0 <= i < |ws| ==> ws[i] != [] && forall j :: 0 <= j < |ws[i]| ==> !IsSpace(ws[i][j])
  }

  lemma {:induction false} SplitGivesWords(s: string)
    ensures Words(Split(s))
    decreases |s|
  {
    var t := DropSpace(s);
    if t != [] {
      var w := TakeWord(t);
      assert w != [] by { assert !IsSpace(t[0]); }
      var rest := Split(t[|w|..]);
      SplitGivesWords(t[|w|..]);
      var ws := Split(s);
      assert ws == [w] + rest;
      forall i | 0 <= i < |ws|
        ensures ws[i] != [] && forall j :: 0 <= j < |ws[i]| ==> !IsSpace(ws[i][j])
      {
        if i > 0 {
          assert ws[i] == rest[i - 1];
        }
      }
    }
  }

  /** `split()` undoes joining words with single spaces. */
  lemma {:induction false} SplitJoinRoundTrip(ws: seq<string>)
    requires Words(ws)
    ensures Split(Join(" ", ws)) == ws
    decreases |ws|
  {
    if ws == [] {
    } else if |ws| == 1 {
      SplitOneWord(ws[0]);
    } else {
      WordsTail(ws);
      SplitJoinRoundTrip(ws[1..]);
      SplitJoinStep(ws);
    }
  }

  /** The inductive step: splitting drops the first word and its space. */
  lemma SplitJoinStep(ws: seq<string>)
    requires |ws| >= 2
    requires ws[0] != [] && forall j :: 0 <= j < |ws[0]| ==> !IsSpace(ws[0][j])
    requires Split(Join(" ", ws[1..])) == ws[1..]
    ensures Split(Join(" ", ws)) == ws
  {
    var rest := Join(" ", ws[1..]);
    JoinCons(ws);
    SplitAfterWord(ws[0], rest);
    ConsTail(ws);
  }

  lemma ConsTail<T>(xs: seq<T>)
    requires xs != []
    ensures [xs[0]] + xs[1..] == xs
  {
  }

  lemma JoinCons(ws: seq<string>)
    requires |ws| >= 2
    ensures Join(" ", ws) == ws[0] + " " + Join(" ", ws[1..])
  {
  }

  lemma WordsTail(ws: seq<string>)
    requires Words(ws) && ws != []
    ensures ws[0] != [] && forall j :: 0 <= j < |ws[0]| ==> !IsSpace(ws[0][j])
    ensures Words(ws[1..])
  {
    var tail := ws[1..];
    forall i | 0 <= i < |tail|
      ensures tail[i] != [] && forall j :: 0 <= j < |tail[i]| ==> !IsSpace(tail[i][j])
    {
      assert tail[i] == ws[i + 1];
    }
  }

  lemma SplitOneWord(w: string)
    requires w != [] && forall j :: 0 <= j < |w| ==> !IsSpace(w[j])
    ensures Split(w) == [w]
  {
    assert DropSpace(w) == w;
    TakeWordAll(w);
    assert w[|w|..] == [];
  }

  lemma SplitAfterWord(w: string, r: string)
    requires w != [] && forall j :: 0 <= j < |w| ==> !IsSpace(w[j])
    ensures Split(w + " " + r) == [w] + Split(r)
  {
    var s := w + " " + r;
    assert s[0] == w[0];
    assert DropSpace(s) == s;
    assert s == w + (" " + r);
    TakeWordPrefix(w, " " + r);
    assert s[|w|..] == " " + r;
    SplitLeadingSpace(r);
  }

  lemma SplitLeadingSpace(r: string)
    ensures Split(" " + r) == Split(r)
  {
    var s := " " + r;
    assert s[0] == ' ' && IsSpace(' ');
    assert s[1..] == r;
    var t := DropSpace(r);
    assert DropSpace(s) == t;
  }

  lemma TakeWordAll(s: string)
    requires forall j :: 0 <= j < |s| ==> !IsSpace(s[j])
    ensures TakeWord(s) == s
  {
  }

  lemma {:induction false} TakeWordPrefix(w: string, rest: string)
    requires forall j :: 0 <= j < |w| ==> !IsSpace(w[j])
    requires rest != [] && IsSpace(rest[0])
    ensures TakeWord(w + rest) == w
    decreases |w|
  {
    if w != [] {
      assert (w + rest)[1..] == w[1..] + rest;
      TakeWordPrefix(w[1..], rest);
    } else {
      assert w + rest == rest;
    }
  }

  /** Joining the pieces of `s.split(sep)` with `sep` gives back `s`. */
  lemma {:induction false} SplitOnJoin(s: string, sep: char)
    ensures Join([sep], SplitOn(s, sep)) == s
    decreases |s|
  {
    if sep in s {
      var k := IndexOf(s, sep);
      SplitOnJoin(s[k + 1..], sep);
      var rest := SplitOn(s[k + 1..], sep);
      assert SplitOn(s, sep) == [s[..k]] + rest;
      assert Join([sep], [s[..k]] + rest) == s[..k] + [sep] + Join([sep], rest) by {
        assert ([s[..k]] + rest)[1..] == rest;
      }
      assert s == s[..k] + [sep] + s[k + 1..];
    }
  }

  /** Leading whitespace does not change `split()`. */
  lemma SplitDropSpace(s: string)
    ensures Split(DropSpace(s)) == Split(s)
  {
    var t := DropSpace(s);
    assert DropSpace(t) == t;
  }

  lemma {:induction false} DropSpaceSnoc(t: string, c: char)
    requires IsSpace(c)
    ensures DropSpace(t + [c]) == if DropSpace(t) == [] then [] else DropSpace(t) + [c]
    decreases |t|
  {
    if t == [] {
      assert t + [c] == [c] && [c][1..] == [];
    } else if IsSpace(t[0]) {
      assert (t + [c])[1..] == t[1..] + [c];
      DropSpaceSnoc(t[1..], c);
    } else {
      assert (t + [c])[0] == t[0];
    }
  }

  lemma {:induction false} TakeWordSnoc(d: string, c: char)
    requires IsSpace(c)
    ensures TakeWord(d + [c]) == TakeWord(d)
    decreases |d|
  {
    if d == [] {
      assert d + [c] == [c];
    } else if !IsSpace(d[0]) {
      assert (d + [c])[1..] == d[1..] + [c];
      TakeWordSnoc(d[1..], c);
    } else {
      assert (d + [c])[0] == d[0];
    }
  }

  /** Trailing whitespace does not change `split()`, one character at a time. */
  lemma {:induction false} SplitSnocSpace(t: string, c: char)
    requires IsSpace(c)
    ensures Split(t + [c]) == Split(t)
    decreases |t|
  {
    var d := DropSpace(t);
    DropSpaceSnoc(t, c);
    if d != [] {
      var w := TakeWord(d);
      TakeWordSnoc(d, c);
      assert w != [] by { assert !IsSpace(d[0]); }
      assert DropSpace(t + [c]) == d + [c];
      SliceSnoc(d, |w|, c);
      SplitSnocSpace(d[|w|..], c);
      assert Split(t + [c]) == [w] + Split(d[|w|..] + [c]);
    } else {
      assert DropSpace(t + [c]) == [];
    }
  }

  lemma SliceSnoc(d: string, k: nat, c: char)
    requires k <= |d|
    ensures (d + [c])[k..] == d[k..] + [c]
  {
    var l := (d + [c])[k..];
    var r := d[k..] + [c];
    assert |l| == |r|;
    forall i | 0 <= i < |l|
      ensures l[i] == r[i]
    {
      if k + i < |d| {
        assert l[i] == d[k + i];
      }
    }
  }

  lemma {:induction false} SplitDropTrailing(s: string)
    ensures Split(DropTrailingSpace(s)) == Split(s)
    decreases |s|
  {
    if s != [] && IsSpace(s[|s| - 1]) {
      var p := s[..|s| - 1];
      assert s == p + [s[|s| - 1]];
      SplitSnocSpace(p, s[|s| - 1]);
      SplitDropTrailing(p);
    }
  }

  /** `s.strip().split()` is `s.split()`. */
  lemma SplitStrip(s: string)
    ensures Split(Strip(s)) == Split(s)
  {
    SplitDropTrailing(DropSpace(s));
    SplitDropSpace(s);
  }

  /** What `int()` raises on text it cannot read. */
  const INT_ERROR: Error := ValueError("invalid literal for int() with base 10")

  /** Every failure of `int()` is that `ValueError`. */
  lemma PyIntError(text: string)
    ensures PyInt(text).Err? ==> PyInt(text).error == INT_ERROR
  {
  }

  /** Python `int(text)` in base 10: surrounding whitespace, an optional
      sign, decimal digits of any script with single underscores between them. */
  function PyInt(text: string): Result<int>
  {
    ParseSigned(Strip(text))
  }

  /** An optionally signed group of digits. */
  function ParseSigned(t: string): Result<int>
  {
    var signed := |t| > 0 && (t[0] == '+' || t[0] == '-');
    var digits := if signed then t[1..] else t;
    match DigitGroups(digits)
    case Err(e) => Err(e)
    case Ok(m) => Ok(if signed && t[0] == '-' then -(m as int) else m)
  }

  /** Digits with single underscores between them, as `int()` reads them. */
  function DigitGroups(t: string): (r: Result<nat>)
    ensures r.Ok? ==> t != [] && IsDigit(t[0])
  {
    if t == [] || !IsDigit(t[0]) || !WellGrouped(t) then Err(INT_ERROR)
    else Ok(DecimalValue(RemoveUnderscores(t)))
  }

  /** Every underscore sits right before a digit. */
  predicate WellGrouped(t: string)
  {
    forall i :: 0 <= i < |t| ==> IsDigit(t[i]) || (t[i] == '_' && i + 1 < |t| && IsDigit(t[i + 1]))
  }

  /** The digits of `t`, in order (on a well-grouped literal: `t` without its underscores). */
  function RemoveUnderscores(t: string): (r: string)
    ensures forall i :: 0 <= i < |r| ==> IsDigit(r[i])
    ensures (forall i :: 0 <= i < |t| ==> IsDigit(t[i])) ==> r == t
  {
    if t == [] then [] else (if IsDigit(t[0]) then [t[0]] else []) + RemoveUnderscores(t[1..])
  }

  /** `int()` of a string of decimal digits is the number it denotes. */
  lemma PyIntOfDigits(s: string)
    requires s != [] && forall i :: 0 <= i < |s| ==> IsDigit(s[i])
    ensures PyInt(s) == Ok(DecimalValue(s))
  {
    StripDigits(s);
    ParseDigits(s);
  }

  lemma ParseDigits(s: string)
    requires s != [] && forall i :: 0 <= i < |s| ==> IsDigit(s[i])
    ensures ParseSigned(s) == Ok(DecimalValue(s))
  {
    DigitGroupsOfDigits(s);
    LowNonDigit('+');
    LowNonDigit('-');
    assert !(|s| > 0 && (s[0] == '+' || s[0] == '-'));
    var m := DecimalValue(s);
    assert DigitGroups(s) == Ok(m);
    assert ParseSigned(s) == Ok(m as int);
  }

  lemma DigitGroupsOfDigits(s: string)
    requires s != [] && AllDigits(s)
    ensures DigitGroups(s) == Ok(DecimalValue(s))
  {
    assert WellGrouped(s);
    assert RemoveUnderscores(s) == s;
  }

  lemma StripDigits(s: string)
    requires s != [] && forall i :: 0 <= i < |s| ==> IsDigit(s[i])
    ensures Strip(s) == s
  {
    SpaceNonDigit(s[0]);
    SpaceNonDigit(s[|s| - 1]);
    assert DropSpace(s) == s;
    assert DropTrailingSpace(s) == s;
  }

  /** `int()` of one character succeeds exactly on a decimal digit. */
  lemma PyIntOfChar(c: char)
    ensures PyInt([c]).Ok? <==> IsDigit(c)
    ensures IsDigit(c) ==> PyInt([c]) == Ok(DigitOf(c))
  {
    if IsDigit(c) {
      PyIntOfDigitChar(c);
    } else if IsSpace(c) {
      PyIntOfSpaceChar(c);
    } else {
      PyIntOfOtherChar(c);
    }
  }

  lemma PyIntOfDigitChar(c: char)
    requires IsDigit(c)
    ensures PyInt([c]) == Ok(DigitOf(c))
  {
    var s := [c];
    assert forall i :: 0 <= i < |s| ==> IsDigit(s[i]);
    PyIntOfDigits(s);
    DecimalOfDigit(c);
  }

  lemma DecimalOfDigit(c: char)
    requires IsDigit(c)
    ensures DecimalValue([c]) == DigitOf(c)
  {
    assert [c][..0] == [];
  }

  lemma PyIntOfSpaceChar(c: char)
    requires IsSpace(c)
    ensures PyInt([c]).Err?
  {
    assert DropSpace([c]) == [] by { assert [c][1..] == []; }
    assert Strip([c]) == [];
  }

  lemma PyIntOfOtherChar(c: char)
    requires !IsSpace(c) && !IsDigit(c)
    ensures PyInt([c]).Err?
  {
    StripOne(c);
    ParseNonDigit(c);
  }

  lemma StripOne(c: char)
    requires !IsSpace(c)
    ensures Strip([c]) == [c]
  {
    assert DropSpace([c]) == [c];
    assert DropTrailingSpace([c]) == [c];
  }

  lemma ParseNonDigit(c: char)
    requires !IsDigit(c)
    ensures ParseSigned([c]).Err?
  {
    if c == '+' || c == '-' {
      assert [c][1..] == [];
    }
  }

  /** `int()` reads the digits of other scripts too: `int("٣")` is 3. */
  lemma PyIntOfArabicIndicDigit()
    ensures PyInt("\U{663}") == Ok(3)
  {
    ArabicIndicDigit('\U{663}');
    PyIntOfChar('\U{663}');
  }

  /** ... and `int("٤٢")` is 42. */
  lemma PyIntOfArabicIndicNumber()
    ensures PyInt("\U{664}\U{662}") == Ok(42)
  {
    var s := "\U{664}\U{662}";
    assert DigitOf(s[0]) == 4 && DigitOf(s[1]) == 2 by {
      ArabicIndicDigit(s[0]);
      ArabicIndicDigit(s[1]);
    }
    assert DecimalValue(s) == 42 by {
      DecimalOfDigit(s[0]);
      assert s[..1] == [s[0]];
    }
    PyIntOfDigits(s);
  }
}
