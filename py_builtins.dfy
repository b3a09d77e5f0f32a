/** The slice of Python's built-in behaviour that the server and the menu
    definitions rely on: the values a handler passes around, their
    truthiness, `int(str)` with the whitespace it skips, `str(int)` and
    one-character `str.replace`. */
module PyBuiltins {

  datatype Option<T> = None | Some(value: T)

  /** The exceptions the modelled code can raise. */
  datatype PyError = ValueError(message: string) | TypeError(message: string)

  /** Either a value or the exception raised instead of returning it. */
  datatype Result<T> = Ok(value: T) | Err(error: PyError)

  /** An IEEE-754 binary64 number, kept as its bit pattern. No arithmetic
      on it is modelled; only its truthiness is. */
  datatype Float = Float(bits: bv64)

  /** The float `0.0`. */
  const FloatZero: Float := Float(0)

  /** The Python values that reach a response or a menu item. */
  datatype Value =
    | NoneValue
    | BoolValue(b: bool)
    | IntValue(i: int)
    | FloatValue(f: Float)
    | StrValue(s: string)
    | ListValue(items: seq<Value>)

  /** The float `-0.0`. */
  const FloatNegativeZero: Float := Float(0x8000_0000_0000_0000)

  /** `bool(v)`: None, False, 0, 0.0, -0.0, "" and [] are false; everything
      else (NaN included) is true. */
  predicate Truthy(v: Value)
    ensures !Truthy(v) <==>
      v == NoneValue || v == BoolValue(false) || v == IntValue(0) ||
      v == FloatValue(FloatZero) || v == FloatValue(FloatNegativeZero) ||
      v == StrValue("") || v == ListValue([])
  {
    match v
    case NoneValue => false
    case BoolValue(b) => b
    case IntValue(i) => i != 0
    case FloatValue(f) => f.bits & 0x7FFF_FFFF_FFFF_FFFF != 0
    case StrValue(s) => |s| > 0
    case ListValue(items) => |items| > 0
  }

  // ---------------------------------------------------------------------
  // The whitespace int() skips

  /** `str.isspace()` for one character. */
  predicate IsSpace(c: char) {
    c == ' ' || '\t' <= c <= '\r' || '\U{1c}' <= c <= '\U{1f}' ||
    c == '\U{85}' || c == '\U{a0}' || c == '\U{1680}' ||
    '\U{2000}' <= c <= '\U{200a}' || c == '\U{2028}' || c == '\U{2029}' ||
    c == '\U{202f}' || c == '\U{205f}' || c == '\U{3000}'
  }

  /** The whitespace `int()` skips around the digits. An ASCII string goes
      to the C parser unchanged, and that skips only space, tab, line feed,
      vertical tab, form feed and carriage return; so the separators
      U+001C..U+001F, which `str.isspace()` accepts, are not skipped. A
      non-ASCII whitespace character is turned into a space first, and so is
      skipped. */
  predicate IntSpace(c: char) {
    c == ' ' || '\t' <= c <= '\r' || (c >= '\U{80}' && IsSpace(c))
  }

  /** The suffix left after dropping the leading whitespace `int()` skips. */
  function StripLeft(s: string): (r: string)
    ensures |r| <= |s| && r == s[|s| - |r|..]
    ensures forall k :: 0 <= k < |s| - |r| ==> IntSpace(s[k])
    ensures |r| > 0 ==> !IntSpace(r[0])
  {
    if |s| > 0 && IntSpace(s[0]) then StripLeft(s[1..]) else s
  }

  /** The prefix left after dropping the trailing whitespace `int()` skips. */
  function StripRight(s: string): (r: string)
    ensures |r| <= |s| && r == s[..|r|]
    ensures forall k :: |r| <= k < |s| ==> IntSpace(s[k])
    ensures |r| > 0 ==> !IntSpace(r[|r| - 1])
  {
    if |s| > 0 && IntSpace(s[|s| - 1]) then StripRight(s[..|s| - 1]) else s
  }

  /** The text `int()` converts: what is left between the leading and the
      trailing whitespace. Neither end of the result is whitespace. */
  function Strip(s: string): (r: string)
    ensures |r| <= |s|
    ensures |r| > 0 ==> !IntSpace(r[0]) && !IntSpace(r[|r| - 1])
  {
    StripRight(StripLeft(s))
  }

  /** The text `int()` converts is the part of `s` starting at
      `StripStart(s)`. */
  function StripStart(s: string): (start: nat)
    ensures start + |Strip(s)| <= |s| && Strip(s) == s[start..start + |Strip(s)|]
  {
    var left := StripLeft(s);
    var start := |s| - |left|;
    assert Strip(s) == left[..|Strip(s)|];
    start
  }

  // ---------------------------------------------------------------------
  // int(str) with base 10, and str(int)

  predicate IsDigit(c: char) {
    '0' <= c <= '9'
  }

  function DigitValue(c: char): nat
    requires IsDigit(c)
  {
    c as int - '0' as int
  }

  function DigitChar(d: nat): char
    requires d < 10
  {
    ('0' as int + d) as char
  }

  /** Only decimal digits and underscores. */
  predicate DigitsAndUnderscores(t: string) {
    forall i :: 0 <= i < |t| ==> IsDigit(t[i]) || t[i] == '_'
  }

  /** The digit part that `int()` accepts: digits, where a single underscore
      may stand between two digits. */
  predicate WellFormedDigits(t: string) {
    |t| > 0 && DigitsAndUnderscores(t) &&
    IsDigit(t[0]) && IsDigit(t[|t| - 1]) &&
    forall i :: 0 <= i < |t| - 1 && t[i] == '_' ==> t[i + 1] != '_'
  }

  /** The number the digits of `t` spell, underscores skipped. */
  function DigitsValue(t: string): nat
    requires DigitsAndUnderscores(t)
  {
    if t == [] then 0
    else if t[|t| - 1] == '_' then DigitsValue(t[..|t| - 1])
    else DigitsValue(t[..|t| - 1]) * 10 + DigitValue(t[|t| - 1])
  }

  /** An integer literal in base 10: one optional sign, then well-formed
      digits. */
  predicate IntLiteral(t: string) {
    WellFormedDigits(t) || (|t| > 0 && (t[0] == '+' || t[0] == '-') && WellFormedDigits(t[1..]))
  }

  /** `int(s)`: surrounding whitespace is ignored, one optional sign, then
      well-formed digits; anything else raises ValueError. */
  function ParseInt(s: string): (r: Result<int>)
    ensures r.Ok? <==> IntLiteral(Strip(s))
    ensures r.Err? ==> r.error.ValueError?
    ensures r.Ok? && r.value < 0 ==> Strip(s)[0] == '-'
  {
    var t := Strip(s);
    if |t| > 0 && (t[0] == '+' || t[0] == '-') then
      if WellFormedDigits(t[1..]) then
        var magnitude: int := DigitsValue(t[1..]);
        Ok(if t[0] == '-' then -magnitude else magnitude)
      else Err(ValueError("invalid literal for int() with base 10"))
    else if WellFormedDigits(t) then Ok(DigitsValue(t))
    else Err(ValueError("invalid literal for int() with base 10"))
  }

  /** `str(n)` for a natural number: decimal digits, no leading zero. */
  function NatToDecimal(n: nat): (r: string)
    ensures |r| > 0 && forall i :: 0 <= i < |r| ==> IsDigit(r[i])
    ensures |r| > 1 ==> r[0] != '0'
  {
    if n < 10 then [DigitChar(n)] else NatToDecimal(n / 10) + [DigitChar(n % 10)]
  }

  /** `str(i)`: a minus sign for negative numbers, then the digits. */
  function IntToDecimal(i: int): (r: string)
    ensures |r| > 0 && (r[0] == '-' <==> i < 0)
    ensures forall k :: (if i < 0 then 1 else 0) <= k < |r| ==> IsDigit(r[k])
  {
    if i < 0 then "-" + NatToDecimal(-i) else NatToDecimal(i)
  }

  lemma {:induction false} DigitsValueOfDecimal(n: nat)
    ensures DigitsValue(NatToDecimal(n)) == n
  {
    var t := NatToDecimal(n);
    if n >= 10 {
      assert t[..|t| - 1] == NatToDecimal(n / 10);
      DigitsValueOfDecimal(n / 10);
    }
  }

  /** `int(str(i)) == i` for every integer. */
  lemma ParseIntOfDecimal(i: int)
    ensures ParseInt(IntToDecimal(i)) == Ok(i)
  {
    var s := IntToDecimal(i);
    var digits := NatToDecimal(if i < 0 then -i else i);
    StripOfTrimmed(s);
    DigitsValueOfDecimal(if i < 0 then -i else i);
    if i < 0 {
      assert s[1..] == digits;
    } else {
      assert s == digits;
    }
  }

  /** A string whose ends are not whitespace `int()` skips is left as it
      is. */
  lemma StripOfTrimmed(s: string)
    requires |s| > 0 ==> !IntSpace(s[0]) && !IntSpace(s[|s| - 1])
    ensures Strip(s) == s
  {
  }

  /** Dropping leading whitespace from `before + u` leaves `u` when `u`
      starts with a non-whitespace character. */
  lemma {:induction false} StripLeftOfPadded(before: string, u: string)
    requires forall k :: 0 <= k < |before| ==> IntSpace(before[k])
    requires |u| > 0 && !IntSpace(u[0])
    ensures StripLeft(before + u) == u
  {
    if before != [] {
      assert (before + u)[1..] == before[1..] + u;
      StripLeftOfPadded(before[1..], u);
    }
  }

  /** Dropping trailing whitespace from `u + after` leaves `u` when `u` ends
      with a non-whitespace character. */
  lemma {:induction false} StripRightOfPadded(u: string, after: string)
    requires forall k :: 0 <= k < |after| ==> IntSpace(after[k])
    requires |u| > 0 && !IntSpace(u[|u| - 1])
    ensures StripRight(u + after) == u
  {
    if after != [] {
      var shorter := after[..|after| - 1];
      assert (u + after)[..|u + after| - 1] == u + shorter;
      StripRightOfPadded(u, shorter);
    }
  }

  /** Whitespace `int()` skips around a string whose ends are not such
      whitespace is exactly what is dropped before the conversion. */
  lemma StripOfPadded(before: string, u: string, after: string)
    requires forall k :: 0 <= k < |before| ==> IntSpace(before[k])
    requires forall k :: 0 <= k < |after| ==> IntSpace(after[k])
    requires |u| > 0 && !IntSpace(u[0]) && !IntSpace(u[|u| - 1])
    ensures Strip(before + u + after) == u
  {
    assert before + u + after == before + (u + after);
    StripLeftOfPadded(before, u + after);
    StripRightOfPadded(u, after);
  }

  /** Neither end of `str(i)` is whitespace. */
  lemma DecimalIsTrimmed(i: int)
    ensures var t := IntToDecimal(i); |t| > 0 && !IntSpace(t[0]) && !IntSpace(t[|t| - 1]) && Strip(t) == t
  {
    var t := IntToDecimal(i);
    assert IsDigit(t[|t| - 1]);
    assert t[0] == '-' || IsDigit(t[0]);
    StripOfTrimmed(t);
  }

  lemma ParseIntSeesOnlyStripped(x: string, y: string)
    requires Strip(x) == Strip(y)
    ensures ParseInt(x) == ParseInt(y)
  {
  }

  /** Leading and trailing whitespace around the digits do not change what
      `int()` returns: `int(" 42\n") == 42`. */
  lemma ParseIntIgnoresSurroundingWhitespace(before: string, i: int, after: string)
    requires forall k :: 0 <= k < |before| ==> IntSpace(before[k])
    requires forall k :: 0 <= k < |after| ==> IntSpace(after[k])
    ensures ParseInt(before + IntToDecimal(i) + after) == Ok(i)
  {
    var t := IntToDecimal(i);
    DecimalIsTrimmed(i);
    StripOfPadded(before, t, after);
    ParseIntSeesOnlyStripped(before + t + after, t);
    ParseIntOfDecimal(i);
  }

  /** A string without a single decimal digit is never an integer literal:
      `int()` raises ValueError on it. */
  lemma ParseIntNeedsDigit(s: string)
    requires forall k :: 0 <= k < |s| ==> !IsDigit(s[k])
    ensures ParseInt(s).Err?
  {
    var t := Strip(s);
    var start := StripStart(s);
    if |t| > 1 && (t[0] == '+' || t[0] == '-') {
      assert t[1] == s[start + 1];
    } else if |t| > 0 {
      assert t[0] == s[start];
    }
  }

  // ---------------------------------------------------------------------
  // The value of an accepted literal

  /** The digits of `t` with the underscores left out. */
  function RemoveUnderscores(t: string): (r: string)
    ensures |r| <= |t|
  {
    if t == [] then []
    else if t[|t| - 1] == '_' then RemoveUnderscores(t[..|t| - 1])
    else RemoveUnderscores(t[..|t| - 1]) + [t[|t| - 1]]
  }

  /** The digits with leading zeros dropped, keeping at least one digit. */
  function DropLeadingZeros(d: string): (r: string)
    ensures |r| <= |d| && (|d| > 0 ==> |r| > 0)
  {
    if |d| > 1 && d[0] == '0' then DropLeadingZeros(d[1..]) else d
  }

  /** The text `str()` gives for the number an integer literal spells: no
      `+`, no underscores, no leading zeros, and no minus before a zero. */
  function Canonical(t: string): string
    requires IntLiteral(t)
  {
    var digits := if t[0] == '+' || t[0] == '-' then t[1..] else t;
    var magnitude := DropLeadingZeros(RemoveUnderscores(digits));
    if t[0] == '-' && magnitude != "0" then "-" + magnitude else magnitude
  }

  /** Only digits. */
  predicate AllDigits(d: string) {
    forall k :: 0 <= k < |d| ==> IsDigit(d[k])
  }

  /** Leaving the underscores out keeps the value, and what is left of
      well-formed digits is a non-empty digit string. */
  lemma {:induction false} RemoveUnderscoresKeepsValue(t: string)
    requires DigitsAndUnderscores(t)
    ensures AllDigits(RemoveUnderscores(t))
    ensures DigitsValue(RemoveUnderscores(t)) == DigitsValue(t)
    ensures |t| > 0 && IsDigit(t[|t| - 1]) ==> |RemoveUnderscores(t)| > 0
  {
    if t != [] {
      var p := t[..|t| - 1];
      assert DigitsAndUnderscores(p) by {
        assert forall k :: 0 <= k < |p| ==> p[k] == t[k];
      }
      RemoveUnderscoresKeepsValue(p);
      var r := RemoveUnderscores(t);
      if t[|t| - 1] != '_' {
        assert r[..|r| - 1] == RemoveUnderscores(p);
      }
    }
  }

  /** A leading zero does not change the value of a digit string. */
  lemma {:induction false} LeadingZeroKeepsValue(e: string)
    requires AllDigits(e)
    ensures AllDigits(['0'] + e) && DigitsValue(['0'] + e) == DigitsValue(e)
  {
    var d := ['0'] + e;
    if e != [] {
      var p := e[..|e| - 1];
      assert d[..|d| - 1] == ['0'] + p;
      LeadingZeroKeepsValue(p);
    }
  }

  /** Dropping leading zeros keeps the value and leaves either one digit or
      a digit string that does not start with zero. */
  lemma {:induction false} DropLeadingZerosKeepsValue(d: string)
    requires AllDigits(d) && |d| > 0
    ensures var m := DropLeadingZeros(d);
            AllDigits(m) && |m| > 0 && (|m| > 1 ==> m[0] != '0') && DigitsValue(m) == DigitsValue(d)
  {
    if |d| > 1 && d[0] == '0' {
      assert d == ['0'] + d[1..];
      LeadingZeroKeepsValue(d[1..]);
      DropLeadingZerosKeepsValue(d[1..]);
    }
  }

  /** A digit string that does not start with zero spells at least 1. */
  lemma {:induction false} NonZeroLeadPositive(d: string)
    requires AllDigits(d) && |d| > 0 && d[0] != '0'
    ensures DigitsValue(d) >= 1
  {
    if |d| > 1 {
      NonZeroLeadPositive(d[..|d| - 1]);
    }
  }

  /** `str()` gives back a digit string without leading zeros. */
  lemma {:induction false} DecimalOfDigits(d: string)
    requires AllDigits(d) && |d| > 0 && (|d| > 1 ==> d[0] != '0')
    ensures NatToDecimal(DigitsValue(d)) == d
  {
    var p, c := d[..|d| - 1], d[|d| - 1];
    assert d == p + [c];
    assert DigitChar(DigitValue(c)) == c;
    if |d| > 1 {
      assert AllDigits(p) && p[0] == d[0];
      NonZeroLeadPositive(p);
      DecimalOfDigits(p);
      var n := DigitsValue(d);
      assert n == DigitsValue(p) * 10 + DigitValue(c);
      assert n / 10 == DigitsValue(p) && n % 10 == DigitValue(c);
    }
  }

  /** The canonical digits of well-formed digits are `str()` of their
      value, and they are "0" exactly when the value is 0. */
  lemma MagnitudeIsCanonical(digits: string)
    requires WellFormedDigits(digits)
    ensures var m := DropLeadingZeros(RemoveUnderscores(digits));
            NatToDecimal(DigitsValue(digits)) == m && (m == "0" <==> DigitsValue(digits) == 0)
  {
    RemoveUnderscoresKeepsValue(digits);
    var m := DropLeadingZeros(RemoveUnderscores(digits));
    DropLeadingZerosKeepsValue(RemoveUnderscores(digits));
    DecimalOfDigits(m);
    assert NatToDecimal(0) == "0";
    if m == "0" {
      assert DigitsValue(m) == DigitsValue(m[..0]) * 10 + DigitValue('0');
    }
  }

  /** The value `int()` returns for any accepted text is the one whose
      `str()` is the canonical form of the stripped literal: `int(" 007")`
      is 7, `int("+1_0")` is 10 and `int("-0")` is 0. */
  lemma ParseIntIsCanonicalValue(s: string)
    requires ParseInt(s).Ok?
    ensures IntToDecimal(ParseInt(s).value) == Canonical(Strip(s))
  {
    var t := Strip(s);
    if t[0] == '-' || t[0] == '+' {
      var digits := t[1..];
      var n: int := DigitsValue(digits);
      assert ParseInt(s) == Ok(if t[0] == '-' then -n else n);
      MagnitudeIsCanonical(digits);
    } else {
      assert ParseInt(s) == Ok(DigitsValue(t));
      MagnitudeIsCanonical(t);
    }
  }

  /** Distinct integers have distinct decimal texts. */
  lemma IntToDecimalInjective(a: int, b: int)
    ensures IntToDecimal(a) == IntToDecimal(b) <==> a == b
  {
    ParseIntOfDecimal(a);
    ParseIntOfDecimal(b);
  }

  /** "007" is a literal whose canonical form is "7". */
  lemma LeadingZerosLiteral()
    ensures Strip("007") == "007" && IntLiteral("007")
    ensures Canonical("007") == IntToDecimal(7)
  {
    LeadingZerosStrip();
    assert WellFormedDigits("007");
    LeadingZerosNoUnderscores();
    LeadingZerosDropped();
    assert IntToDecimal(7) == "7";
  }

  /** Nothing around "007" is whitespace. */
  lemma LeadingZerosStrip()
    ensures Strip("007") == "007"
  {
    assert !IntSpace('0') && !IntSpace('7');
    StripOfTrimmed("007");
  }

  /** "007" has no underscores to leave out. */
  lemma LeadingZerosNoUnderscores()
    ensures RemoveUnderscores("007") == "007"
  {
    assert "007"[..2] == "00" && "00"[..1] == "0" && "0"[..0] == "";
  }

  /** The leading zeros of "007" drop to "7". */
  lemma LeadingZerosDropped()
    ensures DropLeadingZeros("007") == "7"
  {
    assert "007"[1..] == "07" && "07"[1..] == "7";
  }

  /** A leading information separator (U+001C..U+001F) is not whitespace
      to `int()`: the text is converted as it is, and raises ValueError. */
  lemma ParseIntRejectsLeadingSeparator(c: char, t: string)
    requires '\U{1c}' <= c <= '\U{1f}'
    ensures ParseInt([c] + t).Err?
  {
    var s := [c] + t;
    assert s[0] == c && !IntSpace(c);
    assert StripLeft(s) == s;
    var r := Strip(s);
    assert r == s[..|r|];
    if |r| > 0 {
      assert r[0] == c && !IsDigit(c);
    }
    assert !IntLiteral(r);
  }

  // ---------------------------------------------------------------------
  // str.replace

  /** `s.replace(from, to)` for one-character `from` and `to`: every
      occurrence of `from` becomes `to` and every other character stays. */
  function ReplaceChar(s: string, from: char, to: char): (r: string)
    ensures |r| == |s|
    ensures forall i :: 0 <= i < |s| ==> r[i] == (if s[i] == from then to else s[i])
  {
    if s == [] then [] else [if s[0] == from then to else s[0]] + ReplaceChar(s[1..], from, to)
  }

  /** After the replacement no `from` is left, and replacing again changes
      nothing. */
  lemma ReplaceCharRemovesAll(s: string, from: char, to: char)
    requires from != to
    ensures from !in ReplaceChar(s, from, to)
    ensures ReplaceChar(ReplaceChar(s, from, to), from, to) == ReplaceChar(s, from, to)
  {
    var r := ReplaceChar(s, from, to);
    assert forall i :: 0 <= i < |r| ==> r[i] != from;
    var rr := ReplaceChar(r, from, to);
    assert forall i :: 0 <= i < |r| ==> rr[i] == r[i];
  }
}
