/** Reading numbers from text as JavaScript does. */
module JsText {
  import opened Wrappers

  predicate IsDigit(c: char) {
    '0' <= c <= '9'
  }

  predicate AllDigits(s: string) {
    s != "" && forall i :: 0 <= i < |s| ==> IsDigit(s[i])
  }

  function DigitsValue(s: string): nat
    requires forall i :: 0 <= i < |s| ==> IsDigit(s[i])
  {
    if s == "" then 0
    else
      assert IsDigit(s[|s| - 1]);
      10 * DigitsValue(s[..|s| - 1]) + (s[|s| - 1] as int - '0' as int)
  }

  /** White space and line terminators of ECMA-262. */
  predicate IsSpace(c: char) {
    var k := c as int;
    0x09 <= k <= 0x0D || k == 0x20 || k == 0xA0 || k == 0x1680 || 0x2000 <= k <= 0x200A || k == 0x2028 ||
    k == 0x2029 || k == 0x202F || k == 0x205F || k == 0x3000 || k == 0xFEFF
  }

  function TrimStart(s: string): string {
    if s != "" && IsSpace(s[0]) then TrimStart(s[1..]) else s
  }

  function DigitPrefix(s: string): (d: string)
    ensures forall i :: 0 <= i < |d| ==> IsDigit(d[i])
  {
    if s != "" && IsDigit(s[0]) then [s[0]] + DigitPrefix(s[1..]) else ""
  }

  /** `parseInt(s, 10)`; None is NaN. */
  function ParseInt(s: string): Option<int> {
    var t := TrimStart(s);
    var signed := t != "" && (t[0] == '-' || t[0] == '+');
    var digits := DigitPrefix(if signed then t[1..] else t);
    if digits == "" then None
    else
      var value: int := DigitsValue(digits);
      Some(if signed && t[0] == '-' then -value else value)
  }

  lemma {:induction false} TrimStartSkips(ws: string, s: string)
    requires forall i :: 0 <= i < |ws| ==> IsSpace(ws[i])
    requires s == "" || !IsSpace(s[0])
    ensures TrimStart(ws + s) == s
  {
    if ws == "" {
      assert ws + s == s;
    } else {
      assert (ws + s)[1..] == ws[1..] + s;
      TrimStartSkips(ws[1..], s);
    }
  }

  lemma {:induction false} DigitPrefixStops(digits: string, rest: string)
    requires forall i :: 0 <= i < |digits| ==> IsDigit(digits[i])
    requires rest == "" || !IsDigit(rest[0])
    ensures DigitPrefix(digits + rest) == digits
  {
    if digits == "" {
      assert digits + rest == rest;
    } else {
      assert (digits + rest)[1..] == digits[1..] + rest;
      DigitPrefixStops(digits[1..], rest);
    }
  }

  /** Leading space, an optional sign and digits are read as the number; what follows is ignored. */
  lemma {:induction false} ParseIntReads(ws: string, sign: string, digits: string, rest: string)
    requires (forall i :: 0 <= i < |ws| ==> IsSpace(ws[i])) && sign in {"", "+", "-"}
    requires AllDigits(digits) && (rest == "" || !IsDigit(rest[0]))
    ensures var value: int := DigitsValue(digits);
            ParseInt(ws + (sign + (digits + rest))) == Some(if sign == "-" then -value else value)
  {
    var t := sign + (digits + rest);
    assert t[|sign|] == digits[0] && IsDigit(digits[0]);
    TrimStartSkips(ws, t);
    assert t[|sign|..] == digits + rest;
    assert sign == "" ==> t == digits + rest;
    DigitPrefixStops(digits, rest);
  }

  /** Without a digit after the space and the sign, if there is one, there is no number. */
  lemma {:induction false} ParseIntRejects(ws: string, sign: string, rest: string)
    requires (forall i :: 0 <= i < |ws| ==> IsSpace(ws[i])) && sign in {"", "+", "-"}
    requires rest == "" || !IsDigit(rest[0])
    requires sign == "" && rest != "" ==> !IsSpace(rest[0]) && rest[0] != '+' && rest[0] != '-'
    ensures ParseInt(ws + (sign + rest)).None?
  {
    var t := sign + rest;
    TrimStartSkips(ws, t);
    assert t[|sign|..] == rest;
    assert sign == "" ==> t == rest;
    DigitPrefixStops("", rest);
    assert "" + rest == rest;
  }

  /** The ten digits, written out. */
  lemma {:induction false} DigitsAreTen(c: char)
    ensures IsDigit(c) <==> c in "0123456789"
  {
    if IsDigit(c) {
      assert "0123456789"[c as int - '0' as int] == c;
    }
  }

  /** Decimal place value: a digit appended makes ten times the value and the digit. */
  lemma {:induction false} PlaceValue(s: string, d: nat)
    requires (forall i :: 0 <= i < |s| ==> IsDigit(s[i])) && d < 10
    ensures var t := s + ["0123456789"[d]];
            (forall i :: 0 <= i < |t| ==> IsDigit(t[i])) && DigitsValue(t) == 10 * DigitsValue(s) + d
    ensures DigitsValue("") == 0
  {
    var t := s + ["0123456789"[d]];
    assert t[..|t| - 1] == s;
    assert t[|t| - 1] as int - '0' as int == d;
  }

  /** The status text that stands for a missing one reads 200. */
  lemma {:induction false} TwoHundred(text: string)
    requires text == "2" + "0" + "0"
    ensures ParseInt(text) == Some(200)
  {
    var two: string, zero: string := ["0123456789"[2]], ["0123456789"[0]];
    PlaceValue("", 2);
    PlaceValue("" + two, 0);
    PlaceValue("" + two + zero, 0);
    assert text == "" + two + zero + zero;
    ParseIntReads("", "", text, "");
    assert "" + ("" + (text + "")) == text;
  }

  /** The usual white space counts as such, and no digit, letter or sign does. */
  lemma {:induction false} SpacesAndOthers(c: char)
    ensures c in " \t\n\r\U{00A0}\U{2028}\U{FEFF}" ==> IsSpace(c)
    ensures IsDigit(c) || 'a' <= c <= 'z' || 'A' <= c <= 'Z' || c in "+-." ==> !IsSpace(c)
  {}
}
