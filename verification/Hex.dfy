/** Lower-case hexadecimal digits. */
module Hex {
  function HexDigit(d: nat): char
    requires d < 16
  {
    "0123456789abcdef"[d]
  }

  function HexValue(c: char): nat {
    if '0' <= c <= '9' then c as int - '0' as int
    else if 'a' <= c <= 'f' then c as int - 'a' as int + 10
    else 0
  }

  lemma HexDigitValue(d: nat)
    requires d < 16
    ensures HexValue(HexDigit(d)) == d
  {
    assert d in {0, 1, 2, 3, 4, 5, 6, 7, 8, 9, 10, 11, 12, 13, 14, 15};
  }

  // std::hex
  function HexText(n: nat): string {
    if n < 16 then [HexDigit(n)] else HexText(n / 16) + [HexDigit(n % 16)]
  }

  predicate IsHex(s: string) {
    forall i :: 0 <= i < |s| ==> '0' <= s[i] <= '9' || 'a' <= s[i] <= 'f'
  }

  lemma HexDigitIsHex(d: nat)
    requires d < 16
    ensures IsHex([HexDigit(d)]) && (HexDigit(d) == '0' <==> d == 0)
  {
    assert d in {0, 1, 2, 3, 4, 5, 6, 7, 8, 9, 10, 11, 12, 13, 14, 15};
  }

  // No digit more than needed.
  lemma {:induction false} HexTextIsShortest(n: nat)
    ensures IsHex(HexText(n)) && HexText(n) != "" && (HexText(n)[0] == '0' <==> n == 0)
    ensures n == 0 ==> HexText(n) == "0"
  {
    HexDigitIsHex(n % 16);
    if n >= 16 {
      HexTextIsShortest(n / 16);
    }
  }

  // A number in the given count of digits.
  function FixedHex(w: nat, digits: nat): string {
    if digits == 0 then "" else FixedHex(w / 16, digits - 1) + [HexDigit(w % 16)]
  }

  function ParseHex(s: string): nat {
    if s == "" then 0 else 16 * ParseHex(s[..|s| - 1]) + HexValue(s[|s| - 1])
  }

  lemma {:induction false} ParseOfHexText(n: nat)
    ensures ParseHex(HexText(n)) == n
  {
    HexDigitValue(n % 16);
    if n >= 16 {
      ParseOfHexText(n / 16);
      assert HexText(n)[..|HexText(n)| - 1] == HexText(n / 16);
    } else {
      assert HexText(n)[..0] == "";
    }
  }

  function Power16(n: nat): nat {
    if n == 0 then 1 else 16 * Power16(n - 1)
  }

  lemma Power16Of16()
    ensures Power16(16) == 0x1_0000_0000_0000_0000
  {
    assert Power16(4) == 0x1_0000;
    assert Power16(8) == 0x1_0000_0000;
    assert Power16(12) == 0x1_0000_0000_0000;
  }

  lemma {:induction false} ParseOfFixedHex(w: nat, digits: nat)
    requires w < Power16(digits)
    ensures |FixedHex(w, digits)| == digits && ParseHex(FixedHex(w, digits)) == w && IsHex(FixedHex(w, digits))
  {
    if digits > 0 {
      HexDigitIsHex(w % 16);
      HexDigitValue(w % 16);
      ParseOfFixedHex(w / 16, digits - 1);
      assert FixedHex(w, digits)[..digits - 1] == FixedHex(w / 16, digits - 1);
    }
  }
}
