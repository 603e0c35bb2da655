/**
 * The two conversions between Python ints and text that the client relies on:
 * `int(text)`, which reads the `Retry-After` header, and `str(n)` (an f-string
 * field), which writes the delay into the rate-limit message.
 */
module Numerals {
  import opened Wrappers

  predicate IsDigit(c: char) { '0' <= c <= '9' }

  function DigitValue(c: char): nat
    requires IsDigit(c)
  {
    c as int - '0' as int
  }

  function DigitChar(d: nat): (c: char)
    requires d < 10
    ensures IsDigit(c) && DigitValue(c) == d
  {
    ('0' as int + d) as char
  }

  /**
   * The whitespace `int()` strips from both ends of its argument. `int()` first
   * turns every non-ASCII character that str.isspace accepts into a space and
   * then skips only the ASCII space, tab, line feed, vertical tab, form feed and
   * carriage return; the ASCII separators U+001C-U+001F, which str.isspace also
   * accepts, are kept and make the conversion fail.
   */
  predicate IsSpace(c: char): (b: bool)
    ensures c as int < 0x80 ==> (b <==> c == ' ' || '\t' <= c <= '\r')
    ensures b ==> !IsDigit(c) && c != '_' && c != '+' && c != '-'
  {
    var k := c as int;
    k == 0x20 || 0x09 <= k <= 0x0D || k == 0x85 || k == 0xA0
    || k == 0x1680 || 0x2000 <= k <= 0x200A || k == 0x2028 || k == 0x2029
    || k == 0x202F || k == 0x205F || k == 0x3000
  }

  /** The characters that may appear anywhere in text `int()` accepts. */
  predicate IsNumeralChar(c: char)
  {
    IsSpace(c) || IsDigit(c) || c == '_' || c == '+' || c == '-'
  }

  // ---------------------------------------------------------------- decimal notation

  predicate AllDigits(s: string)
  {
    forall i :: 0 <= i < |s| ==> IsDigit(s[i])
  }

  /** The positional value of a run of decimal digits, leading zeros allowed. */
  function DecimalValue(ds: string): nat
    requires AllDigits(ds)
    decreases |ds|
  {
    if |ds| == 0 then 0 else 10 * DecimalValue(ds[..|ds| - 1]) + DigitValue(ds[|ds| - 1])
  }

  /** The text with its underscores removed. */
  function WithoutUnderscores(s: string): (d: string)
    ensures (forall i :: 0 <= i < |s| ==> IsDigit(s[i]) || s[i] == '_') ==> AllDigits(d)
    ensures (forall i :: 0 <= i < |s| ==> s[i] != '_') ==> d == s
    decreases |s|
  {
    if |s| == 0 then []
    else if s[|s| - 1] == '_' then WithoutUnderscores(s[..|s| - 1])
    else WithoutUnderscores(s[..|s| - 1]) + [s[|s| - 1]]
  }

  /** Position i holds no underscore, or one with a digit on each side. */
  predicate SeparatesDigits(s: string, i: int)
    requires 0 <= i < |s|
  {
    s[i] == '_' ==> 0 < i < |s| - 1 && IsDigit(s[i - 1]) && IsDigit(s[i + 1])
  }

  /** `digit ('_'? digit)*`: groups of digits joined by single underscores. */
  predicate IsDigitGroups(s: string)
  {
    && |s| > 0
    && (forall i :: 0 <= i < |s| ==> IsDigit(s[i]) || s[i] == '_')
    && (forall i :: 0 <= i < |s| ==> SeparatesDigits(s, i))
  }

  /** The stripped text `int()` accepts in base 10: an optional sign, then digit groups. */
  predicate IsIntText(t: string)
  {
    if |t| > 0 && (t[0] == '+' || t[0] == '-') then IsDigitGroups(t[1..]) else IsDigitGroups(t)
  }

  /** The value Python gives such text: the digits without their underscores, negated under `-`. */
  function IntTextValue(t: string): int
    requires IsIntText(t)
  {
    var signed := t[0] == '+' || t[0] == '-';
    var m := DecimalValue(WithoutUnderscores(if signed then t[1..] else t));
    if t[0] == '-' then -(m as int) else m
  }

  // ---------------------------------------------------------------- str(n)

  /** Decimal digits of n, most significant first, without leading zeros. */
  function NatToDigits(n: nat): (s: string)
    ensures |s| > 0
    ensures forall i :: 0 <= i < |s| ==> IsDigit(s[i])
    ensures s[0] == '0' <==> n == 0
    ensures AllDigits(s) && DecimalValue(s) == n
    decreases n
  {
    if n < 10 then
      var s := [DigitChar(n)];
      assert s[..0] == [];
      s
    else
      var init := NatToDigits(n / 10);
      var s := init + [DigitChar(n % 10)];
      assert s[..|s| - 1] == init;
      s
  }

  /** Python's `str(n)` for an int: an optional minus sign, then the digits. */
  function IntToString(n: int): (s: string)
    ensures |s| > 0 && IsDigit(s[|s| - 1])
    ensures s[0] == '-' <==> n < 0
    ensures forall i :: 0 < i < |s| ==> IsDigit(s[i])
    ensures n >= 0 ==> AllDigits(s) && DecimalValue(s) == n
    ensures n < 0 ==> AllDigits(s[1..]) && DecimalValue(s[1..]) == -n
  {
    if n < 0 then "-" + NatToDigits(-n) else NatToDigits(n)
  }

  // ---------------------------------------------------------------- int(text)

  function TrimLeft(s: string): (t: string)
    ensures |t| <= |s| && t == s[|s| - |t|..]
    ensures forall i :: 0 <= i < |s| - |t| ==> IsSpace(s[i])
    ensures |t| > 0 ==> !IsSpace(t[0])
    decreases |s|
  {
    if |s| > 0 && IsSpace(s[0]) then TrimLeft(s[1..]) else s
  }

  function TrimRight(s: string): (t: string)
    ensures |t| <= |s| && t == s[..|t|]
    ensures forall i :: |t| <= i < |s| ==> IsSpace(s[i])
    ensures |t| > 0 ==> !IsSpace(t[|t| - 1])
    decreases |s|
  {
    if |s| > 0 && IsSpace(s[|s| - 1]) then TrimRight(s[..|s| - 1]) else s
  }

  /** `s.strip()`: whitespace removed from both ends. */
  function Trim(s: string): string
  {
    TrimRight(TrimLeft(s))
  }

  /**
   * The value of a run of decimal digits in which single underscores may
   * separate digits (`digit ('_'? digit)*`), or None when the text has any
   * other shape.
   */
  function DigitGroupsValue(s: string): (r: Option<nat>)
    ensures r.Some? ==> |s| > 0 && IsDigit(s[0]) && IsDigit(s[|s| - 1])
    ensures (forall i :: 0 <= i < |s| ==> IsDigit(s[i])) && |s| > 0 ==> r.Some?
    decreases |s|
  {
    if |s| == 0 || !IsDigit(s[|s| - 1]) then None
    else if |s| == 1 then Some(DigitValue(s[0]))
    else
      var init := if s[|s| - 2] == '_' then s[..|s| - 2] else s[..|s| - 1];
      match DigitGroupsValue(init)
      case None => None
      case Some(v) => Some(10 * v + DigitValue(s[|s| - 1]))
  }

  /**
   * Python's `int(text)` in base 10: surrounding whitespace, an optional sign,
   * and digits with single underscores between them; None where Python raises
   * ValueError.
   */
  function ParseInt(text: string): (r: Option<int>)
    ensures Trim(text) == [] ==> r.None?
    ensures r.Some? && r.value < 0 ==> Trim(text)[0] == '-'
    ensures r.Some? && Trim(text)[0] == '-' ==> r.value <= 0
  {
    ParseStripped(Trim(text))
  }

  /** `int()` once the whitespace is gone: an optional sign, then digit groups. */
  function ParseStripped(t: string): (r: Option<int>)
    ensures t == [] ==> r.None?
    ensures r.Some? && r.value < 0 ==> t[0] == '-'
    ensures r.Some? && t[0] == '-' ==> r.value <= 0
    ensures r.Some? ==> IsDigit(t[0]) || t[0] == '+' || t[0] == '-'
  {
    var signed := |t| > 0 && (t[0] == '+' || t[0] == '-');
    match DigitGroupsValue(if signed then t[1..] else t)
    case None => None
    case Some(v) => Some(if t[0] == '-' then -(v as int) else v)
  }

  // ---------------------------------------------------------------- lemmas

  lemma {:induction false} DigitsRoundTrip(n: nat)
    ensures DigitGroupsValue(NatToDigits(n)) == Some(n)
    decreases n
  {
    if n >= 10 {
      var s := NatToDigits(n);
      var init := NatToDigits(n / 10);
      assert s == init + [DigitChar(n % 10)];
      assert s[|s| - 2] == init[|init| - 1];
      assert s[..|s| - 1] == init;
      DigitsRoundTrip(n / 10);
    }
  }

  lemma TrimUnpadded(s: string)
    requires |s| > 0 && !IsSpace(s[0]) && !IsSpace(s[|s| - 1])
    ensures Trim(s) == s
  {
  }

  /** `int(str(n)) == n` for every int n. */
  lemma {:induction false} ParseIntOfString(n: int)
    ensures ParseInt(IntToString(n)) == Some(n)
  {
    var s := IntToString(n);
    UnpaddedText(s);
    StrippedOfString(n);
  }

  lemma StrippedOfString(n: int)
    ensures ParseStripped(IntToString(n)) == Some(n)
  {
    if n < 0 {
      StrippedOfNegative(-n);
    } else {
      assert IntToString(n) == NatToDigits(n);
      StrippedOfDigits(n);
    }
  }

  lemma StrippedOfNegative(m: nat)
    requires m > 0
    ensures ParseStripped(IntToString(-(m as int))) == Some(-(m as int))
  {
    var d := NatToDigits(m);
    assert IntToString(-(m as int)) == ['-'] + d;
    StrippedOfDigits(m);
    StrippedSigned('-', d);
  }

  lemma StrippedOfDigits(m: nat)
    ensures DigitGroupsValue(NatToDigits(m)) == Some(m)
    ensures ParseStripped(NatToDigits(m)) == Some(m)
  {
    DigitsRoundTrip(m);
  }

  /** A sign before accepted digit groups keeps (`+`) or negates (`-`) their value. */
  lemma StrippedSigned(sign: char, d: string)
    requires sign == '+' || sign == '-'
    requires DigitGroupsValue(d).Some?
    ensures ParseStripped([sign] + d) ==
      Some(if sign == '-' then -(DigitGroupsValue(d).value as int) else DigitGroupsValue(d).value)
  {
    assert ([sign] + d)[1..] == d;
  }

  /** Text with no whitespace at either end is read as it stands. */
  lemma UnpaddedText(s: string)
    requires |s| > 0 && !IsSpace(s[0]) && !IsSpace(s[|s| - 1])
    ensures ParseInt(s) == ParseStripped(s)
  {
    TrimUnpadded(s);
  }

  /** Text that spells some int in decimal reads back as that int. */
  lemma ParseIntOfDecimalText(text: string)
    ensures forall n :: text == IntToString(n) ==> ParseInt(text) == Some(n)
  {
    forall n | text == IntToString(n)
      ensures ParseInt(text) == Some(n)
    {
      ParseIntOfString(n);
    }
  }

  /** `str` is injective on ints: the text determines the number. */
  lemma IntToStringInjective(a: int, b: int)
    requires IntToString(a) == IntToString(b)
    ensures a == b
  {
    ParseIntOfString(a);
    ParseIntOfString(b);
  }

  lemma {:induction false} DigitGroupsChars(s: string)
    requires DigitGroupsValue(s).Some?
    ensures forall i :: 0 <= i < |s| ==> IsDigit(s[i]) || s[i] == '_'
    decreases |s|
  {
    if |s| > 1 {
      var init := if s[|s| - 2] == '_' then s[..|s| - 2] else s[..|s| - 1];
      DigitGroupsChars(init);
      assert forall i :: 0 <= i < |init| ==> s[i] == init[i];
    }
  }

  /** `int()` accepts exactly the text whose stripped form is an optional sign and digit groups, and gives its value. */
  lemma ParseIntExactly(text: string)
    ensures ParseInt(text).Some? <==> IsIntText(Trim(text))
    ensures ParseInt(text).Some? ==> ParseInt(text).value == IntTextValue(Trim(text))
  {
    var t := Trim(text);
    if |t| > 0 && (t[0] == '+' || t[0] == '-') {
      DigitGroupsExactly(t[1..]);
      if DigitGroupsValue(t[1..]).Some? {
        DigitGroupsValueIsDecimal(t[1..]);
      }
    } else {
      DigitGroupsExactly(t);
      if DigitGroupsValue(t).Some? {
        DigitGroupsValueIsDecimal(t);
      }
    }
  }

  /** Accepted stripped text holds only digits, underscores and signs. */
  lemma IntTextChars(t: string)
    requires IsIntText(t)
    ensures forall i :: 0 <= i < |t| ==> IsDigit(t[i]) || t[i] == '_' || t[i] == '+' || t[i] == '-'
    ensures forall i :: 0 <= i < |t| ==> IsNumeralChar(t[i])
  {
    if |t| > 0 && (t[0] == '+' || t[0] == '-') {
      assert forall i :: 1 <= i < |t| ==> t[i] == t[1..][i - 1];
    }
  }

  /**
   * Text that `int()` accepts holds only whitespace, digits, underscores and
   * signs; so any other character (a letter, a comma, a colon, as in an
   * HTTP-date) makes it raise.
   */
  lemma ParsedTextIsNumeral(text: string)
    requires ParseInt(text).Some?
    ensures forall i :: 0 <= i < |text| ==> IsNumeralChar(text[i])
  {
    ParseIntExactly(text);
    IntTextChars(Trim(text));
    PaddedNumeral(text);
  }

  /** Whitespace padding keeps text made of numeral characters numeral. */
  lemma PaddedNumeral(text: string)
    requires forall i :: 0 <= i < |Trim(text)| ==> IsNumeralChar(Trim(text)[i])
    ensures forall i :: 0 <= i < |text| ==> IsNumeralChar(text[i])
  {
    var l := TrimLeft(text);
    var t := Trim(text);
    assert t == TrimRight(l);
    var off := |text| - |l|;
    assert l == text[off..] && t == l[..|t|];
    forall i | 0 <= i < |text|
      ensures IsNumeralChar(text[i])
    {
      if i < off {
        assert IsSpace(text[i]);
      } else if i < off + |t| {
        assert text[i] == t[i - off];
      } else {
        assert text[i] == l[i - off];
      }
    }
  }

  /** The ASCII separators U+001C-U+001F are not stripped: `int()` of text starting with one raises. */
  lemma AsciiSeparatorsAreNotStripped(c: char, rest: string)
    requires 0x1C <= c as int <= 0x1F
    ensures ParseInt([c] + rest) == None
  {
    LeadingCharKept(c, rest);
  }

  /** Text starting with a character that is not whitespace keeps it first once stripped. */
  lemma LeadingCharKept(c: char, rest: string)
    requires !IsSpace(c)
    ensures |Trim([c] + rest)| > 0 && Trim([c] + rest)[0] == c
  {
    var s := [c] + rest;
    assert TrimLeft(s) == s;
  }

  /** The digit-group reader accepts exactly the `digit ('_'? digit)*` grammar. */
  lemma {:induction false} DigitGroupsExactly(s: string)
    ensures DigitGroupsValue(s).Some? <==> IsDigitGroups(s)
    decreases |s|
  {
    if |s| > 1 && IsDigit(s[|s| - 1]) {
      var under := s[|s| - 2] == '_';
      var init := if under then s[..|s| - 2] else s[..|s| - 1];
      DigitGroupsExactly(init);
      assert forall i :: 0 <= i < |init| ==> s[i] == init[i];
      if IsDigitGroups(s) {
        assert SeparatesDigits(s, |s| - 2);
        forall i | 0 <= i < |init|
          ensures SeparatesDigits(init, i)
        {
          assert SeparatesDigits(s, i);
        }
      }
      if IsDigitGroups(init) {
        assert SeparatesDigits(init, |init| - 1);
        forall i | 0 <= i < |s|
          ensures SeparatesDigits(s, i)
        {
          if i < |init| {
            assert SeparatesDigits(init, i);
          }
        }
      }
    } else if |s| > 0 && s[|s| - 1] == '_' {
      assert !SeparatesDigits(s, |s| - 1);
    }
  }

  /** An accepted digit-group text has the decimal value of its digits, underscores dropped. */
  lemma {:induction false} DigitGroupsValueIsDecimal(s: string)
    requires DigitGroupsValue(s).Some?
    ensures AllDigits(WithoutUnderscores(s))
    ensures DigitGroupsValue(s).value == DecimalValue(WithoutUnderscores(s))
    decreases |s|
  {
    DigitGroupsChars(s);
    var d := WithoutUnderscores(s);
    var last := s[|s| - 1];
    var w := WithoutUnderscores(s[..|s| - 1]);
    assert d == w + [last];
    assert d[..|d| - 1] == w;
    if |s| > 1 {
      var init := if s[|s| - 2] == '_' then s[..|s| - 2] else s[..|s| - 1];
      DigitGroupsValueIsDecimal(init);
      if s[|s| - 2] == '_' {
        assert s[..|s| - 1][..|s| - 2] == init;
      }
    } else {
      assert s[..0] == [];
    }
  }

  /** Appending a digit multiplies the value by ten and adds the digit. */
  lemma DecimalValueAppend(ds: string, c: char)
    requires AllDigits(ds) && IsDigit(c)
    ensures AllDigits(ds + [c]) && DecimalValue(ds + [c]) == 10 * DecimalValue(ds) + DigitValue(c)
  {
    assert (ds + [c])[..|ds|] == ds;
  }

  /** Unpadded decimal digits (the delay-seconds form of a header) read as their decimal value. */
  lemma DelaySecondsValue(s: string)
    requires |s| > 0 && AllDigits(s)
    ensures ParseInt(s) == Some(DecimalValue(s))
  {
    UnpaddedText(s);
    DigitRunValue(s);
  }

  /** A plain run of digits is accepted digit-group text with its decimal value. */
  lemma DigitRunValue(s: string)
    requires |s| > 0 && AllDigits(s)
    ensures DigitGroupsValue(s) == Some(DecimalValue(s))
  {
    DigitGroupsExactly(s);
    DigitGroupsValueIsDecimal(s);
  }

  /** A `+` sign is accepted and the underscore dropped: `int("+1_0") == 10`. */
  lemma SignedGroupedText()
    ensures ParseInt("+1_0") == Some(10)
  {
    var t := "+1_0";
    var g := ['1', '_', '0'];
    assert t == ['+'] + g;
    assert g[..1] == ['1'];
    assert DigitGroupsValue(g) == Some(10);
    UnpaddedText(t);
    StrippedSigned('+', g);
  }
}
