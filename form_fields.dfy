/**
 * The numeric form fields of the emergency-fund calculator
 * (personal/emergency_fund.py): every comma is removed from the submitted text,
 * which is then read as Python's `int()` or `float()` reads a string, restricted to ASCII
 * digits and ASCII whitespace.
 */
module FormFields {
  import opened Wrappers

  // ---- the text ----

  /** `text.replace(',', '')` */
  function StripCommas(s: string): (r: string)
    ensures ',' !in r
    ensures forall c :: c in r <==> c in s && c != ','
    ensures ',' !in s ==> r == s
    ensures |r| <= |s|
  {
    if s == [] then []
    else if s[0] == ',' then StripCommas(s[1..])
    else [s[0]] + StripCommas(s[1..])
  }

  lemma {:induction false} StripCommasConcat(a: string, b: string)
    ensures StripCommas(a + b) == StripCommas(a) + StripCommas(b)
  {
    if a != [] {
      assert (a + b)[1..] == a[1..] + b;
      StripCommasConcat(a[1..], b);
    } else {
      assert a + b == b;
    }
  }

  /** The ASCII characters Python's `int()` and `float()` skip around a number. */
  predicate IsSpace(c: char) {
    c == ' ' || c == '\t' || c == '\n' || c == '\r' || c == '\U{B}' || c == '\U{C}' ||
    ('\U{1C}' <= c <= '\U{1F}')
  }

  function TrimLeft(s: string): (r: string)
    ensures |r| <= |s|
    ensures r != [] ==> !IsSpace(r[0])
    ensures forall i :: 0 <= i < |s| - |r| ==> IsSpace(s[i])
  {
    if s != [] && IsSpace(s[0]) then TrimLeft(s[1..]) else s
  }

  /** What `TrimLeft` keeps is the end of the text. */
  lemma {:induction false} TrimLeftSuffix(s: string)
    ensures TrimLeft(s) == s[|s| - |TrimLeft(s)|..]
  {
    if s != [] && IsSpace(s[0]) {
      TrimLeftSuffix(s[1..]);
      assert s[1..][|s| - 1 - |TrimLeft(s)|..] == s[|s| - |TrimLeft(s)|..];
    }
  }

  function TrimRight(s: string): (r: string)
    ensures r <= s
    ensures r != [] ==> !IsSpace(r[|r| - 1])
    ensures forall i :: |r| <= i < |s| ==> IsSpace(s[i])
  {
    if s != [] && IsSpace(s[|s| - 1]) then TrimRight(s[..|s| - 1]) else s
  }

  function Trim(s: string): string {
    TrimRight(TrimLeft(s))
  }

  predicate IsDigit(c: char) {
    '0' <= c <= '9'
  }

  function DigitValue(c: char): nat
    requires IsDigit(c)
  {
    c as int - '0' as int
  }

  /**
   * A run of decimal digits in which a single `_` may separate two digits,
   * as Python accepts inside a number.
   */
  predicate DigitPart(s: string) {
    |s| > 0 && IsDigit(s[0]) && IsDigit(s[|s| - 1]) &&
    (forall i :: 0 <= i < |s| ==> IsDigit(s[i]) || s[i] == '_') &&
    (forall i :: 0 <= i < |s| - 1 && s[i] == '_' ==> s[i + 1] != '_')
  }

  /** The value of a digit run, underscores skipped. */
  function DigitsValue(s: string): nat
    requires forall i :: 0 <= i < |s| ==> IsDigit(s[i]) || s[i] == '_'
    decreases |s|
  {
    if s == [] then 0
    else if s[|s| - 1] == '_' then DigitsValue(s[..|s| - 1])
    else DigitsValue(s[..|s| - 1]) * 10 + DigitValue(s[|s| - 1])
  }

  /** The number of digits in a run, underscores skipped. */
  function DigitCount(s: string): nat
    decreases |s|
  {
    if s == [] then 0
    else DigitCount(s[..|s| - 1]) + (if s[|s| - 1] == '_' then 0 else 1)
  }

  // ---- int() ----

  /** `int(text)`: optional spaces, an optional sign, a digit run, optional spaces; `None` is the `ValueError`. */
  function ParseInt(text: string): (r: Option<int>)
    ensures r.Some? <==>
      var t := Trim(text);
      t != [] && DigitPart(if t[0] == '+' || t[0] == '-' then t[1..] else t)
    ensures r.Some? && Trim(text)[0] == '-' ==> r.value <= 0
    ensures r.Some? && Trim(text)[0] != '-' ==> r.value >= 0
    ensures r.Some? ==> var t := Trim(text);
      r.value == if t[0] == '-' then -(DigitsValue(Unsigned(t)) as int) else DigitsValue(Unsigned(t))
  {
    SignedDigits(Trim(text))
  }

  /** An optional sign and a digit run, with the surrounding spaces already trimmed. */
  function SignedDigits(t: string): (r: Option<int>)
    ensures r.Some? <==> t != [] && DigitPart(if t[0] == '+' || t[0] == '-' then t[1..] else t)
    ensures r.Some? ==> r.value == if t[0] == '-' then -(DigitsValue(Unsigned(t)) as int) else DigitsValue(Unsigned(t))
  {
    if t == [] then None
    else
      var negative := t[0] == '-';
      var body := if t[0] == '+' || t[0] == '-' then t[1..] else t;
      if !DigitPart(body) then None
      else if negative then Some(-(DigitsValue(body) as int))
      else Some(DigitsValue(body))
  }

  // ---- float() ----

  /** The value `float()` produces; a finite value is kept exact. */
  datatype FloatVal = Finite(r: real) | Infinite(negative: bool) | NotANumber

  function Pow10(e: nat): (p: nat)
    ensures p >= 1
  {
    if e == 0 then 1 else 10 * Pow10(e - 1)
  }

  /** `10 ** e` for any integer exponent. */
  function Scale(e: int): (p: real)
    ensures p > 0.0
  {
    if e >= 0 then Pow10(e) as real else 1.0 / (Pow10(-e) as real)
  }

  function LowerChar(c: char): char {
    if 'A' <= c <= 'Z' then (c as int + 32) as char else c
  }

  /** `s.lower() == word` for a lower-case ASCII `word`. */
  predicate Spells(s: string, word: string) {
    |s| == |word| && forall i :: 0 <= i < |s| ==> LowerChar(s[i]) == word[i]
  }

  /** The position of the first `e` or `E`, or `|s|`. */
  function ExponentAt(s: string): (k: nat)
    ensures k <= |s|
    ensures forall i :: 0 <= i < k ==> s[i] != 'e' && s[i] != 'E'
    ensures k < |s| ==> s[k] == 'e' || s[k] == 'E'
  {
    if s == [] || s[0] == 'e' || s[0] == 'E' then 0 else 1 + ExponentAt(s[1..])
  }

  /** The position of the first occurrence of `c`, or `|s|`. */
  function IndexOf(s: string, c: char): (k: nat)
    ensures k <= |s|
    ensures forall i :: 0 <= i < k ==> s[i] != c
    ensures k < |s| ==> s[k] == c
  {
    if s == [] || s[0] == c then 0 else 1 + IndexOf(s[1..], c)
  }

  /** A mantissa `digits`, `digits.`, `digits.digits` or `.digits`, with its value. */
  function Mantissa(m: string): Option<real> {
    var dot := IndexOf(m, '.');
    var whole := m[..dot];
    var frac := if dot < |m| then m[dot + 1..] else [];
    if !(DigitPart(whole) || (whole == [] && dot < |m|)) then None
    else if !(frac == [] || DigitPart(frac)) then None
    else if whole == [] && frac == [] then None
    else
      var w := if whole == [] then 0 else DigitsValue(whole);
      Some(w as real + Fraction(frac))
  }

  /** The digits after the point, as a fraction. */
  function Fraction(frac: string): (r: real)
    requires frac == [] || DigitPart(frac)
    ensures frac == [] ==> r == 0.0
    ensures 0.0 <= r
  {
    if frac == [] then 0.0 else DigitsValue(frac) as real / (Pow10(DigitCount(frac)) as real)
  }

  /** An exponent after `e` or `E`: an optional sign and a digit run. */
  function Exponent(x: string): Option<int> {
    if x == [] then None
    else
      var body := if x[0] == '+' || x[0] == '-' then x[1..] else x;
      if !DigitPart(body) then None
      else if x[0] == '-' then Some(-(DigitsValue(body) as int))
      else Some(DigitsValue(body))
  }

  /** An unsigned decimal literal, with an optional exponent. */
  function Decimal(s: string): Option<real> {
    var e := ExponentAt(s);
    match Mantissa(s[..e])
    case None => None
    case Some(m) =>
      if e == |s| then Some(m)
      else match Exponent(s[e + 1..])
        case None => None
        case Some(x) => Some(m * Scale(x))
  }

  /** `float(text)`: optional spaces and sign around a decimal literal, `inf`, `infinity` or `nan` in any case. */
  function ParseFloat(text: string): (r: Option<FloatVal>)
    ensures Trim(text) == [] ==> r.None?
    ensures var t := Trim(text);
      t != [] && Decimal(Unsigned(t)).Some? ==>
        r == Some(Finite(if t[0] == '-' then -Decimal(Unsigned(t)).value else Decimal(Unsigned(t)).value))
    ensures var t := Trim(text);
      t != [] && (Spells(Unsigned(t), "inf") || Spells(Unsigned(t), "infinity")) ==>
        r == Some(Infinite(t[0] == '-'))
    ensures var t := Trim(text); t != [] && Spells(Unsigned(t), "nan") ==> r == Some(NotANumber)
    ensures var t := Trim(text);
      r.Some? ==> t != [] && (Decimal(Unsigned(t)).Some? || Spells(Unsigned(t), "inf") ||
                              Spells(Unsigned(t), "infinity") || Spells(Unsigned(t), "nan"))
  {
    SignedFloat(Trim(text))
  }

  /** The literal without its leading sign. */
  function Unsigned(t: string): string
    requires t != []
  {
    if t[0] == '+' || t[0] == '-' then t[1..] else t
  }

  /** The literal once the spaces are trimmed: a sign, then a word or a decimal. */
  function SignedFloat(t: string): (r: Option<FloatVal>)
    ensures t == [] ==> r.None?
    ensures t != [] && Decimal(Unsigned(t)).Some? ==>
      r == Some(Finite(if t[0] == '-' then -Decimal(Unsigned(t)).value else Decimal(Unsigned(t)).value))
    ensures t != [] && (Spells(Unsigned(t), "inf") || Spells(Unsigned(t), "infinity")) ==>
      r == Some(Infinite(t[0] == '-'))
    ensures t != [] && Spells(Unsigned(t), "nan") ==> r == Some(NotANumber)
    ensures r.Some? ==> t != [] && (Decimal(Unsigned(t)).Some? || Spells(Unsigned(t), "inf") ||
                                    Spells(Unsigned(t), "infinity") || Spells(Unsigned(t), "nan"))
  {
    if t == [] then None
    else
      var negative := t[0] == '-';
      var body := Unsigned(t);
      DecimalNotWord(body);
      if Spells(body, "inf") || Spells(body, "infinity") then Some(Infinite(negative))
      else if Spells(body, "nan") then Some(NotANumber)
      else match Decimal(body)
        case None => None
        case Some(v) => Some(Finite(if negative then -v else v))
  }

  /** A mantissa starts with a digit or the point. */
  lemma MantissaHead(m: string)
    requires Mantissa(m).Some?
    ensures m != [] && (IsDigit(m[0]) || m[0] == '.')
  {
    var dot := IndexOf(m, '.');
    if m[..dot] != [] {
      assert m[..dot][0] == m[0];
    }
  }

  /** No decimal literal is spelled like `inf`, `infinity` or `nan`. */
  lemma DecimalNotWord(s: string)
    ensures Decimal(s).Some? ==>
      !Spells(s, "inf") && !Spells(s, "infinity") && !Spells(s, "nan")
  {
    if Decimal(s).Some? {
      var e := ExponentAt(s);
      MantissaHead(s[..e]);
      assert s[..e][0] == s[0];
      assert LowerChar(s[0]) == s[0];
    }
  }

  // ---- rendering, for the round trips ----

  /** The decimal digits of `n`, most significant first, without leading zeros. */
  function Digits(n: nat): (s: string)
    ensures |s| > 0 && AllDigits(s)
    decreases n
  {
    var d := [('0' as int + n % 10) as char];
    if n < 10 then d else Digits(n / 10) + d
  }

  /** `n` written with `,` between groups of three digits, as a user types a large amount. */
  function Grouped(n: nat): (s: string)
    decreases n
  {
    if n < 1000 then Digits(n) else Grouped(n / 1000) + "," + Pad3(n % 1000)
  }

  /** Three digits, with leading zeros. */
  function Pad3(n: nat): (s: string)
    requires n < 1000
    ensures |s| == 3 && AllDigits(s)
  {
    [('0' as int + n / 100) as char, ('0' as int + n / 10 % 10) as char, ('0' as int + n % 10) as char]
  }

  predicate AllDigits(s: string) {
    forall i :: 0 <= i < |s| ==> IsDigit(s[i])
  }

  lemma AllDigitsConcat(a: string, b: string)
    requires AllDigits(a) && AllDigits(b)
    ensures AllDigits(a + b)
  {
    forall i | 0 <= i < |a + b| ensures IsDigit((a + b)[i]) {
      if i < |a| {
        assert (a + b)[i] == a[i];
      } else {
        assert (a + b)[i] == b[i - |a|];
      }
    }
  }

  lemma ShiftDigit(x: int, y: int, p: int, d: int)
    ensures (x * p + y) * 10 + d == x * (10 * p) + (y * 10 + d)
  {
  }

  /** The last digit of a run adds its value to ten times the rest. */
  lemma DigitsValueLast(s: string)
    requires AllDigits(s) && s != []
    ensures AllDigits(s[..|s| - 1])
    ensures DigitsValue(s) == DigitsValue(s[..|s| - 1]) * 10 + DigitValue(s[|s| - 1])
  {
  }

  lemma {:induction false} DigitsValueConcat(a: string, b: string)
    requires AllDigits(a) && AllDigits(b)
    ensures AllDigits(a + b)
    ensures DigitsValue(a + b) == DigitsValue(a) * Pow10(|b|) + DigitsValue(b)
    decreases |b|
  {
    AllDigitsConcat(a, b);
    if b == [] {
      assert a + b == a;
    } else {
      var b' := b[..|b| - 1];
      assert (a + b)[..|a + b| - 1] == a + b';
      DigitsValueLast(b);
      DigitsValueLast(a + b);
      DigitsValueConcat(a, b');
      ShiftDigit(DigitsValue(a), DigitsValue(b'), Pow10(|b'|), DigitValue(b[|b| - 1]));
    }
  }

  lemma {:induction false} DigitsValueOfDigits(n: nat)
    ensures DigitsValue(Digits(n)) == n
    decreases n
  {
    var d := [('0' as int + n % 10) as char];
    if n >= 10 {
      DigitsValueOfDigits(n / 10);
      DigitsValueConcat(Digits(n / 10), d);
      assert DigitsValue(d) == n % 10 by {
        assert d[..0] == [];
      }
    } else {
      assert d[..0] == [];
    }
  }

  lemma Pad3Value(n: nat)
    requires n < 1000
    ensures DigitsValue(Pad3(n)) == n
  {
    var s := Pad3(n);
    assert s[..2][..1] == [s[0]];
    assert [s[0]][..0] == [];
    var h, t, u := n / 100, n / 10 % 10, n % 10;
    assert DigitValue(s[0]) == h && DigitValue(s[1]) == t && DigitValue(s[2]) == u;
    assert DigitsValue([s[0]]) == h;
    assert DigitsValue(s[..2]) == h * 10 + t;
    assert DigitsValue(s) == (h * 10 + t) * 10 + u;
    ThreeDigits(n);
  }

  lemma ThreeDigits(n: nat)
    requires n < 1000
    ensures n == (n / 100 * 10 + n / 10 % 10) * 10 + n % 10
  {
    assert n / 10 == n / 100 * 10 + n / 10 % 10;
    assert n == (n / 10) * 10 + n % 10;
  }

  /** A digit string is trimmed and has no sign. */
  lemma PlainDigitsTrimmed(s: string)
    requires |s| > 0 && AllDigits(s)
    ensures Trim(s) == s && s[0] != '+' && s[0] != '-' && DigitPart(s)
  {
  }

  /** `int()` reads back every decimal rendering of a natural number. */
  lemma ParseIntDigits(n: nat)
    ensures ParseInt(Digits(n)) == Some(n)
  {
    PlainDigitsTrimmed(Digits(n));
    DigitsValueOfDigits(n);
  }

  lemma {:induction false} GroupedStrips(n: nat)
    ensures var s := StripCommas(Grouped(n));
            |s| > 0 && AllDigits(s) && DigitsValue(s) == n
    decreases n
  {
    if n < 1000 {
      DigitsValueOfDigits(n);
    } else {
      var q, r := n / 1000, n % 1000;
      GroupedStrips(q);
      var g, pad := Grouped(q), Pad3(r);
      var a := StripCommas(g);
      assert Grouped(n) == g + ("," + pad);
      StripCommasConcat(g, "," + pad);
      StripCommasConcat(",", pad);
      assert StripCommas(",") == [];
      assert StripCommas(Grouped(n)) == a + pad;
      DigitsValueConcat(a, pad);
      Pad3Value(r);
      GroupValue(n);
    }
  }

  lemma GroupValue(n: nat)
    ensures n == n / 1000 * Pow10(3) + n % 1000
  {
    assert Pow10(3) == 1000;
  }

  /** An amount typed with thousands separators reads as the number: `"1,234"` is 1234. */
  lemma GroupedAmountParses(n: nat)
    ensures ParseInt(StripCommas(Grouped(n))) == Some(n)
  {
    GroupedStrips(n);
    PlainDigitsTrimmed(StripCommas(Grouped(n)));
  }

  lemma ThousandSeparatorExample()
    ensures ParseInt(StripCommas("1,234")) == Some(1234)
  {
    assert Grouped(1234) == "1,234";
    GroupedAmountParses(1234);
  }

  /** Digits and points only: there is no exponent. */
  lemma {:induction false} NoExponentMark(s: string)
    requires forall i :: 0 <= i < |s| ==> IsDigit(s[i]) || s[i] == '.'
    ensures ExponentAt(s) == |s|
  {
    if s != [] {
      assert forall i :: 0 <= i < |s[1..]| ==> s[1..][i] == s[i + 1];
      NoExponentMark(s[1..]);
    }
  }

  lemma {:induction false} NoSuchChar(s: string, c: char)
    requires AllDigits(s) && !IsDigit(c)
    ensures IndexOf(s, c) == |s|
  {
    if s != [] {
      assert AllDigits(s[1..]);
      NoSuchChar(s[1..], c);
    }
  }

  /** `float()` reads a run of digits as its value. */
  lemma DigitsParseAsFloat(s: string)
    requires |s| > 0 && AllDigits(s)
    ensures ParseFloat(s) == Some(Finite(DigitsValue(s) as real))
  {
    PlainDigitsTrimmed(s);
    assert ParseFloat(s) == SignedFloat(s);
    SignedDigitsFloat(s);
  }

  lemma SignedDigitsFloat(s: string)
    requires |s| > 0 && AllDigits(s)
    ensures SignedFloat(s) == Some(Finite(DigitsValue(s) as real))
  {
    assert !Spells(s, "inf") && !Spells(s, "infinity") && !Spells(s, "nan") by {
      assert IsDigit(s[0]) && LowerChar(s[0]) == s[0];
    }
    DecimalDigits(s);
  }

  lemma DecimalDigits(s: string)
    requires |s| > 0 && AllDigits(s)
    ensures Decimal(s) == Some(DigitsValue(s) as real)
  {
    NoExponentMark(s);
    NoSuchChar(s, '.');
    assert s[..|s|] == s;
    MantissaWhole(s);
  }

  lemma MantissaWhole(s: string)
    requires DigitPart(s) && IndexOf(s, '.') == |s|
    ensures Mantissa(s) == Some(DigitsValue(s) as real)
  {
    assert s[..|s|] == s;
  }

  lemma TrimUnspaced(s: string)
    requires s != [] && !IsSpace(s[0]) && !IsSpace(s[|s| - 1])
    ensures Trim(s) == s
  {
  }

  /** `int()` of a minus sign before a text, with no spaces around them. */
  lemma ParseIntMinus(d: string)
    requires Trim("-" + d) == "-" + d
    ensures ParseInt("-" + d) == if DigitPart(d) then Some(-(DigitsValue(d) as int)) else None
  {
    var s := "-" + d;
    assert s[0] == '-' && s[1..] == d;
    TrimmedParses(s);
    SignedMinus(s);
  }

  /** Trimmed text goes straight to the sign and digit reading. */
  lemma TrimmedParses(s: string)
    requires Trim(s) == s
    ensures ParseInt(s) == SignedDigits(s)
  {
  }

  lemma SignedMinus(t: string)
    requires t != [] && t[0] == '-'
    ensures SignedDigits(t) == if DigitPart(t[1..]) then Some(-(DigitsValue(t[1..]) as int)) else None
  {
  }

  lemma MinusTrimmed(d: string)
    requires |d| > 0 && AllDigits(d)
    ensures Trim("-" + d) == "-" + d
  {
    var s := "-" + d;
    assert s[|s| - 1] == d[|d| - 1];
    TrimUnspaced(s);
  }

  /** A leading minus sign negates the amount. */
  lemma ParseIntNegative(n: nat)
    ensures ParseInt("-" + Digits(n)) == Some(-(n as int))
  {
    var d := Digits(n);
    MinusTrimmed(d);
    DigitRunIsPart(d);
    DigitsValueOfDigits(n);
    MinusOfValue(d, n);
  }

  lemma MinusOfValue(d: string, v: int)
    requires Trim("-" + d) == "-" + d && DigitPart(d) && v == DigitsValue(d)
    ensures ParseInt("-" + d) == Some(-v)
  {
    var s := "-" + d;
    assert s[0] == '-' && s[1..] == d;
    ParseIntMinus(d);
  }

  /** `int()` of a text with no sign and no surrounding spaces. */
  lemma ParseIntUnsigned(t: string)
    requires t != [] && Trim(t) == t && t[0] != '+' && t[0] != '-'
    ensures ParseInt(t) == if DigitPart(t) then Some(DigitsValue(t) as int) else None
  {
  }

  /** `int()` refuses a decimal point, so the integer field reports `"12.5"` as not a number. */
  lemma ParseIntRejectsPoint(whole: nat, frac: nat)
    ensures ParseInt(Digits(whole) + "." + Digits(frac)) == None
  {
    var a := Digits(whole);
    var b := Digits(frac);
    var s := a + "." + b;
    assert s[|a|] == '.';
    assert !DigitPart(s);
    assert Trim(s) == s by {
      assert s[0] == a[0] && s[|s| - 1] == b[|b| - 1];
      TrimUnspaced(s);
    }
    assert s[0] == a[0];
    ParseIntUnsigned(s);
  }

  /** `float()` reads a grouped whole amount as the same number. */
  lemma GroupedAmountParsesAsFloat(n: nat)
    ensures ParseFloat(StripCommas(Grouped(n))) == Some(Finite(n as real))
  {
    GroupedStrips(n);
    DigitsParseAsFloat(StripCommas(Grouped(n)));
  }

  /** Every character of a digit run counts. */
  lemma {:induction false} DigitCountAll(s: string)
    requires AllDigits(s)
    ensures DigitCount(s) == |s|
    decreases |s|
  {
    if s != [] {
      assert AllDigits(s[..|s| - 1]);
      DigitCountAll(s[..|s| - 1]);
    }
  }

  lemma {:induction false} IndexOfFirst(a: string, c: char, rest: string)
    requires c !in a
    ensures IndexOf(a + [c] + rest, c) == |a|
  {
    if a != [] {
      assert a[0] in a;
      assert forall x :: x in a[1..] ==> x in a;
      assert (a + [c] + rest)[1..] == a[1..] + [c] + rest;
      IndexOfFirst(a[1..], c, rest);
    }
  }

  lemma DigitsHaveNo(s: string, c: char)
    requires AllDigits(s) && !IsDigit(c)
    ensures c !in s
  {
  }

  lemma DigitRunIsPart(s: string)
    requires |s| > 0 && AllDigits(s)
    ensures DigitPart(s)
  {
  }

  /** The mantissa once the point is found between two digit runs. */
  lemma MantissaSplit(m: string, whole: string, frac: string)
    requires DigitPart(whole) && DigitPart(frac)
    requires IndexOf(m, '.') == |whole| < |m| && m[..|whole|] == whole && m[|whole| + 1..] == frac
    ensures Mantissa(m) == Some(DigitsValue(whole) as real + Fraction(frac))
  {
    var dot := IndexOf(m, '.');
    assert m[..dot] == whole && dot < |m| && m[dot + 1..] == frac;
    assert whole != [] && frac != [];
  }

  /** The mantissa `a.b` of two digit runs: the whole part plus the fraction the digits after the point make. */
  lemma MantissaPoint(a: string, b: string)
    requires |a| > 0 && AllDigits(a) && |b| > 0 && AllDigits(b)
    ensures DigitPart(b) && Mantissa(a + "." + b) == Some(DigitsValue(a) as real + Fraction(b))
  {
    var m := a + "." + b;
    DigitsHaveNo(a, '.');
    IndexOfFirst(a, '.', b);
    assert m[..|a|] == a;
    assert m[|a| + 1..] == b;
    DigitRunIsPart(a);
    DigitRunIsPart(b);
    MantissaSplit(m, a, b);
  }

  /** The digits after the point are scaled by ten to the number of digits. */
  lemma FractionOfDigits(b: string)
    requires |b| > 0 && AllDigits(b)
    ensures DigitPart(b) && Fraction(b) == DigitsValue(b) as real / (Pow10(|b|) as real)
  {
    DigitRunIsPart(b);
    DigitCountAll(b);
  }

  /** Digits and points only: the text is its own mantissa. */
  lemma NoExponent(m: string)
    requires forall i :: 0 <= i < |m| ==> IsDigit(m[i]) || m[i] == '.'
    ensures Decimal(m) == Mantissa(m)
  {
    NoExponentMark(m);
    assert m[..|m|] == m;
  }

  /** A text with no spaces around it and no sign is read by `float()` as its decimal literal. */
  lemma PlainDecimal(m: string, v: real)
    requires m != [] && IsDigit(m[0]) && IsDigit(m[|m| - 1]) && Decimal(m) == Some(v)
    ensures ParseFloat(m) == Some(Finite(v))
  {
    TrimUnspaced(m);
    assert Unsigned(m) == m;
  }

  /** The text `a.b` of two digit runs is a decimal literal. */
  lemma PointLiteral(a: string, b: string)
    requires |a| > 0 && AllDigits(a) && |b| > 0 && AllDigits(b)
    ensures DigitPart(b)
    ensures var m := a + "." + b;
      m != [] && IsDigit(m[0]) && IsDigit(m[|m| - 1]) && Decimal(m) == Some(DigitsValue(a) as real + Fraction(b))
  {
    var m := a + "." + b;
    assert m[0] == a[0] && m[|m| - 1] == b[|b| - 1];
    forall i | 0 <= i < |m| ensures IsDigit(m[i]) || m[i] == '.' {
      if i < |a| { assert m[i] == a[i]; } else if i > |a| { assert m[i] == b[i - |a| - 1]; }
    }
    NoExponent(m);
    MantissaPoint(a, b);
  }

  /** The number `a.b` denotes: the whole part plus the digits after the point over ten to their count. */
  function PointValue(a: string, b: string): real
    requires AllDigits(a) && AllDigits(b)
  {
    DigitsValue(a) as real + DigitsValue(b) as real / (Pow10(|b|) as real)
  }

  /** `float()` reads `digits.digits` as its exact value: `"2.5"` is 2 + 5/10. */
  lemma DecimalPointParses(a: string, b: string)
    requires |a| > 0 && AllDigits(a) && |b| > 0 && AllDigits(b)
    ensures ParseFloat(a + "." + b) == Some(Finite(PointValue(a, b)))
  {
    PointLiteral(a, b);
    FractionOfDigits(b);
    assert DigitsValue(a) as real + Fraction(b) == PointValue(a, b);
    PlainDecimal(a + "." + b, PointValue(a, b));
  }

  /** Only the separators before the point are removed. */
  lemma StripGroupedPoint(n: nat, b: string)
    requires AllDigits(b)
    ensures StripCommas(Grouped(n) + "." + b) == StripCommas(Grouped(n)) + "." + b
  {
    StripCommasConcat(Grouped(n) + ".", b);
    StripCommasConcat(Grouped(n), ".");
    DigitsHaveNo(b, ',');
    assert StripCommas(".") == ".";
  }

  /**
   * An amount typed with thousands separators and a fractional part reads as the same number
   * as its plain decimal rendering: `"1,234.5"` is 1234 + 5/10.
   */
  lemma GroupedDecimalParses(n: nat, b: string)
    requires |b| > 0 && AllDigits(b)
    ensures ParseFloat(StripCommas(Grouped(n) + "." + b)) == Some(Finite(PointValue(Digits(n), b)))
  {
    var g := StripCommas(Grouped(n));
    GroupedStrips(n);
    StripGroupedPoint(n, b);
    DecimalPointParses(g, b);
    DigitsValueOfDigits(n);
    assert PointValue(g, b) == PointValue(Digits(n), b);
  }

  lemma CentsText()
    ensures "1,234.56" == Grouped(1234) + "." + Digits(56)
  {
    assert Grouped(1234) == "1,234";
    assert Digits(56) == "56";
  }

  lemma CentsValue()
    ensures PointValue(Digits(1234), Digits(56)) == 1234.56
  {
    DigitsValueOfDigits(56);
    DigitsValueOfDigits(1234);
    assert Pow10(2) == 100;
  }

  /** `"1,234.56"` is read as 1234.56. */
  lemma GroupedCentsExample()
    ensures ParseFloat(StripCommas("1,234.56")) == Some(Finite(1234.56))
  {
    CentsText();
    GroupedDecimalParses(1234, Digits(56));
    CentsValue();
  }

  /** A signed word with no spaces around it. */
  lemma ReadsWord(t: string)
    requires t != [] && !IsSpace(t[0]) && !IsSpace(t[|t| - 1])
    ensures Spells(Unsigned(t), "infinity") ==> ParseFloat(t) == Some(Infinite(t[0] == '-'))
    ensures Spells(Unsigned(t), "nan") ==> ParseFloat(t) == Some(NotANumber)
  {
    TrimUnspaced(t);
  }

  /** `float("-Infinity")` is negative infinity: the word is read in any case, after its sign. */
  lemma InfinityExample()
    ensures ParseFloat("-Infinity") == Some(Infinite(true))
  {
    assert Unsigned("-Infinity") == "Infinity";
    assert Spells("Infinity", "infinity");
    ReadsWord("-Infinity");
  }

  /** `float("NaN")` is not a number. */
  lemma NanExample()
    ensures ParseFloat("NaN") == Some(NotANumber)
  {
    assert Unsigned("NaN") == "NaN";
    assert Spells("NaN", "nan");
    ReadsWord("NaN");
  }

  // ---- the fields ----

  /** The message of the `ValueError` a field raises. */
  datatype FieldError = FieldError(message: string)

  /** `CommaSeparatedFloatField`: its `data` is what the last submission parsed to. */
  class FloatField {
    var data: Option<FloatVal>

    constructor(initial: Option<FloatVal>)
      ensures data == initial
    {
      data := initial;
    }

    /** `process_formdata(valuelist)`: an empty submission leaves `data` alone. */
    method ProcessFormdata(valuelist: seq<string>) returns (err: Option<FieldError>)
      modifies this
      ensures valuelist == [] ==> data == old(data) && err.None?
      ensures valuelist != [] ==> data == ParseFloat(StripCommas(valuelist[0]))
      ensures valuelist != [] ==> (err.Some? <==> data.None?)
      ensures err.Some? ==> err.value == FieldError("Not a valid number")
    {
      err := None;
      if valuelist != [] {
        data := ParseFloat(StripCommas(valuelist[0]));
        if data.None? {
          err := Some(FieldError("Not a valid number"));
        }
      }
    }
  }

  /** `CommaSeparatedIntegerField`. */
  class IntegerField {
    var data: Option<int>

    constructor(initial: Option<int>)
      ensures data == initial
    {
      data := initial;
    }

    method ProcessFormdata(valuelist: seq<string>) returns (err: Option<FieldError>)
      modifies this
      ensures valuelist == [] ==> data == old(data) && err.None?
      ensures valuelist != [] ==> data == ParseInt(StripCommas(valuelist[0]))
      ensures valuelist != [] ==> (err.Some? <==> data.None?)
      ensures err.Some? ==> err.value == FieldError("Not a number")
    {
      err := None;
      if valuelist != [] {
        data := ParseInt(StripCommas(valuelist[0]));
        if data.None? {
          err := Some(FieldError("Not a number"));
        }
      }
    }
  }
}
