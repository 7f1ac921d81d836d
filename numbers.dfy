/** The string-to-number conversion `+s` (JavaScript's `Number(s)`) on the decimal literals the
    services meet, and the decimal rendering of natural numbers. */
module Numbers {
  import opened Wrappers

  predicate IsDigit(c: char) { '0' <= c <= '9' }

  predicate AllDigits(s: string) { forall i | 0 <= i < |s| :: IsDigit(s[i]) }

  /** The value of a run of decimal digits read left to right; the empty run reads as 0. */
  function DigitsValue(s: string): nat
    requires AllDigits(s)
  {
    if s == [] then 0 else 10 * DigitsValue(s[..|s| - 1]) + (s[|s| - 1] as int - '0' as int)
  }

  function Pow10(k: nat): (p: nat)
    ensures p >= 1
  {
    if k == 0 then 1 else 10 * Pow10(k - 1)
  }

  /** `String(n)` for a natural number: its decimal digits, no leading zero. */
  function NatToString(n: nat): (s: string)
    ensures |s| >= 1 && AllDigits(s)
    ensures s[0] == '0' ==> n == 0
  {
    if n < 10 then [('0' as int + n) as char]
    else NatToString(n / 10) + [('0' as int + n % 10) as char]
  }

  /** Reading back the digits `NatToString` writes gives the number it started from. */
  lemma {:induction false} NatToStringValue(n: nat)
    ensures DigitsValue(NatToString(n)) == n
  {
    if n >= 10 {
      var s := NatToString(n);
      assert s[..|s| - 1] == NatToString(n / 10);
      NatToStringValue(n / 10);
    }
  }

  /** The index of the first '.', or |t| when there is none. */
  function DotIndex(t: string): (k: nat)
    ensures k <= |t|
    ensures k < |t| ==> t[k] == '.'
    ensures forall j | 0 <= j < k :: t[j] != '.'
  {
    if t == [] || t[0] == '.' then 0 else 1 + DotIndex(t[1..])
  }

  /** An unsigned decimal literal: digits, optionally a '.' and more digits, not both runs empty. */
  function UnsignedDecimal(t: string): Option<real>
  {
    var k := DotIndex(t);
    var whole := t[..k];
    var frac := if k < |t| then t[k + 1..] else "";
    if AllDigits(whole) && AllDigits(frac) && (whole != "" || frac != "") then
      Some(DigitsValue(whole) as real + DigitsValue(frac) as real / Pow10(|frac|) as real)
    else
      None
  }

  /** A character `String.prototype.trim` removes and the regular-expression class `\s` matches:
      JavaScript's white space and line terminators. */
  predicate IsSpace(c: char)
  {
    || c == '\t' || c == '\n' || c == '\U{000B}' || c == '\U{000C}' || c == '\r' || c == ' '
    || c == '\U{00A0}' || c == '\U{1680}' || ('\U{2000}' <= c <= '\U{200A}')
    || c == '\U{2028}' || c == '\U{2029}' || c == '\U{202F}' || c == '\U{205F}'
    || c == '\U{3000}' || c == '\U{FEFF}'
  }

  /** `s` without its leading white space. */
  function TrimStart(s: string): string
  {
    if s != [] && IsSpace(s[0]) then TrimStart(s[1..]) else s
  }

  /** `s` without its trailing white space. */
  function TrimEnd(s: string): string
  {
    if s != [] && IsSpace(s[|s| - 1]) then TrimEnd(s[..|s| - 1]) else s
  }

  /** `s.trim()`. */
  function Trim(s: string): string
  {
    TrimEnd(TrimStart(s))
  }

  predicate IsExponentMark(c: char) { c == 'e' || c == 'E' }

  /** The index of the first 'e' or 'E', or |t| when there is none. */
  function ExponentIndex(t: string): (k: nat)
    ensures k <= |t|
    ensures k < |t| ==> IsExponentMark(t[k])
    ensures forall j | 0 <= j < k :: !IsExponentMark(t[j])
  {
    if t == [] || IsExponentMark(t[0]) then 0 else 1 + ExponentIndex(t[1..])
  }

  /** The part after the exponent mark: an optional sign and at least one digit. */
  function Exponent(t: string): Option<int>
  {
    var digits := if t != [] && (t[0] == '+' || t[0] == '-') then t[1..] else t;
    if digits != [] && AllDigits(digits) then
      var v: int := DigitsValue(digits);
      Some(if t[0] == '-' then -v else v)
    else
      None
  }

  /** m × 10^e, one factor of ten at a time. */
  function Scale(m: real, e: int): real
    decreases if e >= 0 then e else -e
  {
    if e == 0 then m else if e > 0 then 10.0 * Scale(m, e - 1) else Scale(m, e + 1) / 10.0
  }

  /** m × 10^k on natural numbers. */
  function TimesPow10(m: nat, k: nat): nat
  {
    if k == 0 then m else 10 * TimesPow10(m, k - 1)
  }

  /** An unsigned decimal literal, optionally followed by an exponent part. */
  function UnsignedLiteral(t: string): Option<real>
  {
    var k := ExponentIndex(t);
    match UnsignedDecimal(t[..k])
    case None => None
    case Some(m) =>
      if k == |t| then Some(m)
      else
        match Exponent(t[k + 1..])
        case None => None
        case Some(e) => Some(Scale(m, e))
  }

  /** A decimal literal with an optional sign: the grammar JavaScript reads numbers from strings by,
      and the one Joi's number rule converts strings with. */
  function SignedLiteral(t: string): Option<real>
  {
    if t != [] && t[0] == '-' then
      match UnsignedLiteral(t[1..])
      case Some(v) => Some(-v)
      case None => None
    else if t != [] && t[0] == '+' then UnsignedLiteral(t[1..])
    else UnsignedLiteral(t)
  }

  /** `+s`: `None` stands for NaN. Surrounding white space is ignored, and a string of white space
      alone converts to 0, as in JavaScript. */
  function ToNumber(s: string): Option<real>
  {
    var t := Trim(s);
    if t == "" then Some(0.0) else SignedLiteral(t)
  }

  // -----------------------------------------------------------------------------------------

  /** Leading white space is dropped and nothing else: the result is a suffix of `s` after white
      space only, and does not start with white space. */
  lemma {:induction false} TrimStartShape(s: string)
    ensures |TrimStart(s)| <= |s| && TrimStart(s) == s[|s| - |TrimStart(s)|..]
    ensures forall j | 0 <= j < |s| - |TrimStart(s)| :: IsSpace(s[j])
    ensures TrimStart(s) != [] ==> !IsSpace(TrimStart(s)[0])
  {
    if s != [] && IsSpace(s[0]) {
      TrimStartShape(s[1..]);
      assert forall j | 1 <= j < |s| :: s[1..][j - 1] == s[j];
    }
  }

  /** Trailing white space is dropped and nothing else. */
  lemma {:induction false} TrimEndShape(s: string)
    ensures |TrimEnd(s)| <= |s| && TrimEnd(s) == s[..|TrimEnd(s)|]
    ensures forall j | |TrimEnd(s)| <= j < |s| :: IsSpace(s[j])
    ensures TrimEnd(s) != [] ==> !IsSpace(TrimEnd(s)[|TrimEnd(s)| - 1])
  {
    if s != [] && IsSpace(s[|s| - 1]) {
      TrimEndShape(s[..|s| - 1]);
    }
  }

  /** A string that neither starts nor ends with white space is its own trim. */
  lemma TrimUnpadded(s: string)
    requires s != [] && !IsSpace(s[0]) && !IsSpace(s[|s| - 1])
    ensures Trim(s) == s
  {
    assert TrimStart(s) == s;
  }

  /** The digits of n read as an unsigned decimal give n. */
  lemma NatToStringDecimal(n: nat)
    ensures UnsignedDecimal(NatToString(n)) == Some(n as real)
  {
    var s := NatToString(n);
    assert DotIndex(s) == |s|;
    assert s[..|s|] == s;
    NatToStringValue(n);
  }

  /** A run of digits holds no exponent mark, so the mark after it is the first. */
  lemma {:induction false} ExponentIndexAfterDigits(a: string, rest: string)
    requires AllDigits(a)
    ensures ExponentIndex(a + rest) == |a| + ExponentIndex(rest)
  {
    if a != [] {
      assert (a + rest)[1..] == a[1..] + rest;
      ExponentIndexAfterDigits(a[1..], rest);
    } else {
      assert a + rest == rest;
    }
  }

  /** A natural number written in decimal converts back to itself. */
  lemma NatToStringToNumber(n: nat)
    ensures ToNumber(NatToString(n)) == Some(n as real)
  {
    var s := NatToString(n);
    TrimUnpadded(s);
    ExponentIndexAfterDigits(s, "");
    assert s + "" == s;
    assert s[..|s|] == s;
    NatToStringDecimal(n);
  }

  /** An unsigned literal made of a decimal, an 'e' and an exponent. */
  lemma UnsignedLiteralSplit(a: string, b: string)
    requires AllDigits(a)
    ensures UnsignedLiteral(a + "e" + b) ==
      match UnsignedDecimal(a)
      case None => None
      case Some(m) => (match Exponent(b) case None => None case Some(e) => Some(Scale(m, e)))
  {
    var s := a + "e" + b;
    assert s == a + ("e" + b);
    ExponentIndexAfterDigits(a, "e" + b);
    assert s[..|a|] == a && s[|a| + 1..] == b;
  }

  /** The digits of k read as an exponent give k. */
  lemma NatToStringExponent(k: nat)
    ensures Exponent(NatToString(k)) == Some(k)
  {
    NatToStringValue(k);
  }

  /** A digit is not white space. */
  lemma DigitIsNotSpace(c: char)
    requires IsDigit(c)
    ensures !IsSpace(c)
  {
  }

  /** Scaling a natural number by a natural power of ten stays natural. */
  lemma {:induction false} ScaleByNat(x: nat, k: nat)
    ensures Scale(x as real, k) == TimesPow10(x, k) as real
  {
    if k > 0 {
      ScaleByNat(x, k - 1);
    }
  }

  /** Exponent notation: `+"<m>e<k>"` is m × 10^k. */
  lemma ExponentNotation(m: nat, k: nat)
    ensures ToNumber(NatToString(m) + "e" + NatToString(k)) == Some(TimesPow10(m, k) as real)
  {
    var a, b := NatToString(m), NatToString(k);
    var s := a + "e" + b;
    assert s[0] == a[0] && s[|s| - 1] == b[|b| - 1];
    DigitIsNotSpace(s[0]);
    DigitIsNotSpace(s[|s| - 1]);
    TrimUnpadded(s);
    assert ToNumber(s) == UnsignedLiteral(s);
    UnsignedLiteralSplit(a, b);
    NatToStringDecimal(m);
    NatToStringExponent(k);
    assert UnsignedLiteral(s) == Some(Scale(m as real, k));
    assert ToNumber(s) == Some(Scale(m as real, k));
    ScaleByNat(m, k);
  }

  /** Trimming ignores white space prepended to a string. */
  lemma {:induction false} TrimStartPadded(pad: string, s: string)
    requires forall j | 0 <= j < |pad| :: IsSpace(pad[j])
    ensures TrimStart(pad + s) == TrimStart(s)
  {
    if pad != [] {
      assert (pad + s)[0] == pad[0];
      assert (pad + s)[1..] == pad[1..] + s;
      TrimStartPadded(pad[1..], s);
    } else {
      assert pad + s == s;
    }
  }

  /** Trimming ignores white space appended to a string. */
  lemma {:induction false} TrimEndPadded(s: string, pad: string)
    requires forall j | 0 <= j < |pad| :: IsSpace(pad[j])
    ensures TrimEnd(s + pad) == TrimEnd(s)
  {
    if pad != [] {
      assert (s + pad)[|s + pad| - 1] == pad[|pad| - 1];
      assert (s + pad)[..|s + pad| - 1] == s + pad[..|pad| - 1];
      TrimEndPadded(s, pad[..|pad| - 1]);
    } else {
      assert s + pad == s;
    }
  }

  /** Stripping leading white space commutes with appending. */
  lemma {:induction false} TrimStartAppend(s: string, w: string)
    ensures TrimStart(s + w) == if TrimStart(s) == [] then TrimStart(w) else TrimStart(s) + w
  {
    if s == [] {
      assert s + w == w;
    } else if IsSpace(s[0]) {
      assert (s + w)[0] == s[0];
      assert (s + w)[1..] == s[1..] + w;
      TrimStartAppend(s[1..], w);
    } else {
      assert (s + w)[0] == s[0];
    }
  }

  /** White space around a string does not change what it converts to (`+" 7\n"` is 7). */
  lemma PaddingIgnored(pad1: string, s: string, pad2: string)
    requires forall j | 0 <= j < |pad1| :: IsSpace(pad1[j])
    requires forall j | 0 <= j < |pad2| :: IsSpace(pad2[j])
    ensures Trim(pad1 + s + pad2) == Trim(s)
    ensures ToNumber(pad1 + s + pad2) == ToNumber(s)
  {
    assert pad1 + s + pad2 == pad1 + (s + pad2);
    TrimStartPadded(pad1, s + pad2);
    TrimStartAppend(s, pad2);
    if TrimStart(s) == [] {
      TrimStartPadded(pad2, []);
      assert pad2 + [] == pad2;
    } else {
      TrimEndPadded(TrimStart(s), pad2);
    }
  }

  /** A character that is not white space survives trimming, at a known place. */
  lemma TrimKeeps(s: string, i: nat)
    requires i < |s| && !IsSpace(s[i])
    ensures |s| - |TrimStart(s)| <= i
    ensures i - (|s| - |TrimStart(s)|) < |Trim(s)|
    ensures Trim(s)[i - (|s| - |TrimStart(s)|)] == s[i]
  {
    var u := TrimStart(s);
    TrimStartShape(s);
    TrimEndShape(u);
    var off := |s| - |u|;
    assert u[i - off] == s[i];
  }

  /** Every character of an unsigned decimal is a digit or '.'. */
  lemma UnsignedDecimalChars(t: string, i: nat)
    requires i < |t| && UnsignedDecimal(t).Some?
    ensures IsDigit(t[i]) || t[i] == '.'
  {
    var k := DotIndex(t);
    if i < k {
      assert t[..k][i] == t[i];
    } else if i > k {
      assert t[k + 1..][i - k - 1] == t[i];
    }
  }

  /** Every character of an exponent part is a digit or a sign. */
  lemma ExponentChars(t: string, i: nat)
    requires i < |t| && Exponent(t).Some?
    ensures IsDigit(t[i]) || t[i] == '+' || t[i] == '-'
  {
    if i > 0 && (t[0] == '+' || t[0] == '-') {
      assert t[1..][i - 1] == t[i];
    }
  }

  /** Before the exponent mark an unsigned literal holds digits and '.' only. */
  lemma MantissaChars(u: string, i: nat)
    requires i < ExponentIndex(u) && UnsignedLiteral(u).Some?
    ensures IsDigit(u[i]) || u[i] == '.'
  {
    var k := ExponentIndex(u);
    assert UnsignedDecimal(u[..k]).Some?;
    assert u[..k][i] == u[i];
    UnsignedDecimalChars(u[..k], i);
  }

  /** After the exponent mark an unsigned literal holds digits and a sign only. */
  lemma ExponentPartChars(u: string, i: nat)
    requires ExponentIndex(u) < i < |u| && UnsignedLiteral(u).Some?
    ensures IsDigit(u[i]) || u[i] == '+' || u[i] == '-'
  {
    var k := ExponentIndex(u);
    assert Exponent(u[k + 1..]).Some?;
    assert u[k + 1..][i - k - 1] == u[i];
    ExponentChars(u[k + 1..], i - k - 1);
  }

  /** Every character of an unsigned literal is a digit, '.', a sign or an exponent mark. */
  lemma UnsignedLiteralChars(u: string, i: nat)
    requires i < |u| && UnsignedLiteral(u).Some?
    ensures IsDigit(u[i]) || u[i] == '.' || u[i] == '+' || u[i] == '-' || IsExponentMark(u[i])
  {
    if i < ExponentIndex(u) {
      MantissaChars(u, i);
    } else if i > ExponentIndex(u) {
      ExponentPartChars(u, i);
    }
  }

  /** Every character of a signed literal is a digit, '.', a sign or an exponent mark. */
  lemma SignedLiteralChars(t: string, i: nat)
    requires i < |t| && SignedLiteral(t).Some?
    ensures IsDigit(t[i]) || t[i] == '.' || t[i] == '+' || t[i] == '-' || IsExponentMark(t[i])
  {
    if i > 0 && (t[0] == '-' || t[0] == '+') {
      assert t[1..][i - 1] == t[i];
      UnsignedLiteralChars(t[1..], i - 1);
    } else if t[0] != '-' && t[0] != '+' {
      UnsignedLiteralChars(t, i);
    }
  }

  /** The characters a numeric string may hold in JavaScript: digits, '.', signs, white space and
      ASCII letters (exponent marks, radix prefixes and hexadecimal digits, `Infinity`). */
  predicate IsNumeralChar(c: char)
  {
    IsDigit(c) || c == '.' || c == '-' || c == '+' || IsSpace(c) || ('a' <= c <= 'z') || ('A' <= c <= 'Z')
  }

  /** A string holding any other character converts to NaN (`+"1,358"`, `+"n/a"`). */
  lemma NonNumeralIsNaN(s: string, i: nat)
    requires i < |s| && !IsNumeralChar(s[i])
    ensures ToNumber(s) == None
  {
    TrimKeeps(s, i);
    var j := i - (|s| - |TrimStart(s)|);
    if SignedLiteral(Trim(s)).Some? {
      SignedLiteralChars(Trim(s), j);
    }
  }
}
