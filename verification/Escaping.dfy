/** Captured C strings as printable text. */
module Escaping {
  import opened Hex
  import opened Words

  function EscapeByte(c: Byte): string {
    if c == 0x22 then ['\\', '"']
    else if c == 0x5C then ['\\', '\\']
    else if 0x20 <= c < 0x7F then [c as char]
    else ['\\', 'x', HexDigit(c / 16), HexDigit(c % 16)]
  }

  function Escape(bytes: seq<Byte>): string {
    if bytes == [] then "" else EscapeByte(bytes[0]) + Escape(bytes[1..])
  }

  // The captured bytes: up to the first NUL, or all of them.
  function CString(bytes: seq<Byte>): seq<Byte> {
    if bytes == [] || bytes[0] == 0 then [] else [bytes[0]] + CString(bytes[1..])
  }

  // The loop that looks for the terminator.
  method CStringLength(buf: seq<Byte>) returns (len: nat)
    ensures len <= |buf| && buf[..len] == CString(buf)
  {
    len := 0;
    while len < |buf| && buf[len] != 0
      invariant 0 <= len <= |buf|
      invariant CString(buf) == buf[..len] + CString(buf[len..])
    {
      assert buf[..len + 1] == buf[..len] + [buf[len]];
      assert buf[len..][1..] == buf[len + 1..];
      len := len + 1;
    }
  }

  lemma EscapeFrom(buf: seq<Byte>, i: nat)
    requires i <= |buf|
    ensures Escape(buf[i..]) == if i == |buf| then "" else EscapeByte(buf[i]) + Escape(buf[i + 1..])
  {
    assert i < |buf| ==> buf[i..][1..] == buf[i + 1..];
  }

  method AppendEscaped(text: string, c: Byte) returns (result: string)
    ensures result == text + EscapeByte(c)
  {
    if c == 0x22 {
      result := text + ['\\', '"'];
    } else if c == 0x5C {
      result := text + ['\\', '\\'];
    } else if 0x20 <= c < 0x7F {
      result := text + [c as char];
    } else {
      result := text + ['\\', 'x', HexDigit(c / 16), HexDigit(c % 16)];
    }
  }

  // The loop that builds the text.
  method EscapeAll(buf: seq<Byte>) returns (result: string)
    ensures result == Escape(buf)
  {
    hide Escape, EscapeByte;
    result := "";
    assert buf[0..] == buf;
    var i := 0;
    while i < |buf|
      invariant 0 <= i <= |buf|
      invariant Escape(buf) == result + Escape(buf[i..])
    {
      EscapeFrom(buf, i);
      result := AppendEscaped(result, buf[i]);
      i := i + 1;
    }
    EscapeFrom(buf, i);
  }

  /** read_proc_mem_str. pread(a, n): what opening the target's memory and reading up to n bytes from a on
      returns, None for a failure. */
  method ReadProcMemStr(addr: U64, pread: (U64, nat) -> Option<seq<Byte>>) returns (result: string)
    ensures result == if addr == 0 || pread(addr, 256).None? then "" else Escape(CString(pread(addr, 256).value))
    ensures (forall a, n :: pread(a, n).Some? ==> |pread(a, n).value| <= n) ==> |result| <= 1024
  {
    if addr == 0 {
      return "";
    }
    var read := pread(addr, 256);
    if read.None? {
      return "";
    }
    var buf := read.value;
    var len := CStringLength(buf);
    result := EscapeAll(buf[..len]);
    EscapeIsPrintable(buf[..len]);
  }

  /** The longest beginning of the bytes without a NUL. */
  lemma {:induction false} CStringIsPrefix(bytes: seq<Byte>)
    ensures var s := CString(bytes); s <= bytes && 0 !in s && (|s| < |bytes| ==> bytes[|s|] == 0)
  {
    if bytes != [] && bytes[0] != 0 {
      CStringIsPrefix(bytes[1..]);
      assert bytes == [bytes[0]] + bytes[1..];
    }
  }

  lemma TwoDigits(h: char, l: char)
    ensures ParseHex([h, l]) == 16 * HexValue(h) + HexValue(l)
  {
    assert [h, l][..1] == [h] && [h][..0] == "";
    assert ParseHex([h]) == HexValue(h);
  }

  /** A printable byte other than the quote and the backslash shows as itself, these two behind a backslash,
      and any other byte as the two digits of its value. */
  lemma ByteText(c: Byte)
    ensures var s := EscapeByte(c);
            if ' ' as int <= c <= '~' as int then
              s == if c in {'"' as int, '\\' as int} then ['\\', c as char] else [c as char]
            else |s| == 4 && s[..2] == ['\\', 'x'] && IsHex(s[2..]) && ParseHex(s[2..]) == c
  {
    if c < 0x20 || c >= 0x7F {
      hide HexDigit, HexValue, ParseHex;
      HexByte(c);
      HexDigitIsHex(c / 16);
      HexDigitIsHex(c % 16);
      TwoDigits(HexDigit(c / 16), HexDigit(c % 16));
      assert EscapeByte(c)[2..] == [HexDigit(c / 16), HexDigit(c % 16)];
    }
  }

  /** The text of a string is that of its bytes, one after the other. */
  lemma {:induction false} EscapeInOrder(a: seq<Byte>, b: seq<Byte>)
    ensures Escape(a + b) == Escape(a) + Escape(b)
    ensures |a| == 1 ==> Escape(a) == EscapeByte(a[0])
  {
    hide EscapeByte;
    if a == [] {
      assert a + b == b;
    } else {
      EscapeInOrder(a[1..], b);
      assert (a + b)[1..] == a[1..] + b && (a + b)[0] == a[0];
      assert |a| == 1 ==> a[1..] == [];
    }
  }

  // The reader's side.
  function Unescape(s: string): seq<Byte> {
    if s == "" then []
    else if s[0] == '\\' && |s| >= 4 && s[1] == 'x' then
      [(16 * HexValue(s[2]) + HexValue(s[3])) % 256] + Unescape(s[4..])
    else if s[0] == '\\' && |s| >= 2 then [s[1] as int % 256] + Unescape(s[2..])
    else [s[0] as int % 256] + Unescape(s[1..])
  }

  lemma UnescapeSteps(c: char, h: char, l: char, rest: string)
    ensures Unescape(['\\', 'x', h, l] + rest) == [(16 * HexValue(h) + HexValue(l)) % 256] + Unescape(rest)
    ensures c != 'x' ==> Unescape(['\\', c] + rest) == [c as int % 256] + Unescape(rest)
    ensures c != '\\' ==> Unescape([c] + rest) == [c as int % 256] + Unescape(rest)
  {
    hide HexValue;
    assert (['\\', 'x', h, l] + rest)[4..] == rest;
    assert (['\\', c] + rest)[2..] == rest;
    assert ([c] + rest)[1..] == rest;
  }

  lemma UnescapeByte(c: Byte, rest: string)
    ensures Unescape(EscapeByte(c) + rest) == [c] + Unescape(rest)
  {
    hide Unescape, HexValue, HexDigit;
    HexByte(c);
    UnescapeSteps(c as char, HexDigit(c / 16), HexDigit(c % 16), rest);
  }

  /** Escaping loses nothing. */
  lemma {:induction false} UnescapeEscape(bytes: seq<Byte>)
    ensures Unescape(Escape(bytes)) == bytes
  {
    if bytes != [] {
      UnescapeEscape(bytes[1..]);
      UnescapeByte(bytes[0], Escape(bytes[1..]));
    }
  }

  lemma HexByte(c: Byte)
    ensures 16 * HexValue(HexDigit(c / 16)) + HexValue(HexDigit(c % 16)) == c
  {
    HexDigitValue(c / 16);
    HexDigitValue(c % 16);
  }

  // Strings that differ never display alike.
  lemma EscapeIsInjective(a: seq<Byte>, b: seq<Byte>)
    requires Escape(a) == Escape(b)
    ensures a == b
  {
    UnescapeEscape(a);
    UnescapeEscape(b);
  }

  lemma {:induction false} EscapeIsPrintable(bytes: seq<Byte>)
    ensures |Escape(bytes)| <= 4 * |bytes|
    ensures forall i :: 0 <= i < |Escape(bytes)| ==> ' ' <= Escape(bytes)[i] <= '~'
  {
    if bytes != [] {
      EscapeIsPrintable(bytes[1..]);
      var c := bytes[0];
      forall i | 0 <= i < |EscapeByte(c)| ensures ' ' <= EscapeByte(c)[i] <= '~' {
        if c < 0x20 || c >= 0x7F {
          HexDigitPrintable(c / 16);
          HexDigitPrintable(c % 16);
        }
      }
    }
  }

  lemma HexDigitPrintable(d: nat)
    requires d < 16
    ensures ' ' <= HexDigit(d) <= '~' && HexDigit(d) != '"' && HexDigit(d) != '\\'
  {
    assert d in {0, 1, 2, 3, 4, 5, 6, 7, 8, 9, 10, 11, 12, 13, 14, 15};
  }

  // Where a reader of a quoted string sees its closing quote; |s| if it sees none.
  function ClosingQuote(s: string): nat {
    if s == "" || s[0] == '"' then 0
    else if s[0] == '\\' && |s| >= 2 then 2 + ClosingQuote(s[2..])
    else 1 + ClosingQuote(s[1..])
  }

  lemma ClosingQuoteSteps(c: char, tail: string)
    ensures ClosingQuote(['\\', c] + tail) == 2 + ClosingQuote(tail)
    ensures c != '"' && c != '\\' ==> ClosingQuote([c] + tail) == 1 + ClosingQuote(tail)
    ensures ClosingQuote(['"'] + tail) == 0
  {
    assert (['\\', c] + tail)[2..] == tail;
    assert ([c] + tail)[1..] == tail;
  }

  lemma ClosingQuoteBehind(c: Byte, tail: string)
    ensures ClosingQuote(EscapeByte(c) + tail) == |EscapeByte(c)| + ClosingQuote(tail)
  {
    hide ClosingQuote, HexDigit;
    if c == 0x22 {
      ClosingQuoteSteps('"', tail);
    } else if c == 0x5C {
      ClosingQuoteSteps('\\', tail);
    } else if 0x20 <= c < 0x7F {
      ClosingQuoteSteps(c as char, tail);
    } else {
      var h, l := HexDigit(c / 16), HexDigit(c % 16);
      HexDigitPrintable(c / 16);
      HexDigitPrintable(c % 16);
      ClosingQuoteSteps(l, tail);
      ClosingQuoteSteps(h, [l] + tail);
      ClosingQuoteSteps('x', [h] + ([l] + tail));
      assert EscapeByte(c) + tail == ['\\', 'x'] + ([h] + ([l] + tail));
    }
  }

  /** Between quotes, the escaped text ends where it should. */
  lemma {:induction false} EscapeStaysQuoted(bytes: seq<Byte>, rest: string)
    ensures ClosingQuote(Escape(bytes) + ['"'] + rest) == |Escape(bytes)|
  {
    hide ClosingQuote, EscapeByte;
    if bytes == [] {
      ClosingQuoteSteps('"', rest);
      assert Escape(bytes) + ['"'] + rest == ['"'] + rest;
    } else {
      EscapeStaysQuoted(bytes[1..], rest);
      var tail := Escape(bytes[1..]) + ['"'] + rest;
      ClosingQuoteBehind(bytes[0], tail);
      assert Escape(bytes) + ['"'] + rest == EscapeByte(bytes[0]) + tail;
    }
  }
}
