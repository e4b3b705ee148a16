/** Register values as parameter texts. */
module Params {
  import opened Hex
  import opened Words
  import opened TypeNames

  function Digit(d: nat): char
    requires d < 10
  {
    "0123456789"[d]
  }

  function Digits(n: nat): string {
    if n < 10 then [Digit(n)] else Digits(n / 10) + [Digit(n % 10)]
  }

  // std::to_string
  function Decimal(x: int): string {
    if x < 0 then "-" + Digits(-x) else Digits(x)
  }

  function ParseDigits(s: string): nat {
    if s == "" then 0
    else
      var c := s[|s| - 1];
      10 * ParseDigits(s[..|s| - 1]) + if '0' <= c <= '9' then c as int - '0' as int else 0
  }

  function ParseInt(s: string): int {
    if s != "" && s[0] == '-' then -(ParseDigits(s[1..]) as int) else ParseDigits(s)
  }

  lemma DigitValue(d: nat)
    requires d < 10
    ensures '0' <= Digit(d) <= '9' && Digit(d) as int - '0' as int == d
  {
    assert d in {0, 1, 2, 3, 4, 5, 6, 7, 8, 9};
  }

  lemma {:induction false} ParseOfDigits(n: nat)
    ensures ParseDigits(Digits(n)) == n && Digits(n) != "" && Digits(n)[0] != '-'
  {
    DigitValue(n % 10);
    if n >= 10 {
      ParseOfDigits(n / 10);
      assert Digits(n)[..|Digits(n)| - 1] == Digits(n / 10);
    } else {
      assert Digits(n)[..0] == "";
    }
  }

  lemma ParseOfDecimal(x: int)
    ensures ParseInt(Decimal(x)) == x
  {
    hide Digits, ParseDigits;
    if x < 0 {
      ParseOfDigits(-x);
      assert Decimal(x)[1..] == Digits(-x);
    } else {
      ParseOfDigits(x);
    }
  }

  predicate Occurs(sub: string, s: string) {
    sub <= s || (s != "" && Occurs(sub, s[1..]))
  }

  // The low bits of a register as a two's complement number; modulus is 2 to the number of bits.
  function Signed(v: U64, modulus: nat): int
    requires modulus > 0
  {
    var low := v % modulus;
    if 2 * low >= modulus then low - modulus else low
  }

  const INT := {"int", "signed", "signed int"}
  const SHORT := {"short", "short int", "signed short", "signed short int"}
  const CHAR := {"char", "signed char"}
  const LONG := {"long", "long int", "signed long", "signed long int", "long long", "long long int"}

  // format_param_val
  function FormatParamVal(v: U64, typ: string): string {
    var s := Stripped(typ);
    if s == "bool" || s == "_Bool" then (if v != 0 then "true" else "false")
    else if s in INT then Decimal(Signed(v, 0x1_0000_0000))
    else if s in SHORT then Decimal(Signed(v, 0x1_0000))
    else if s in CHAR then Decimal(Signed(v, 0x100))
    else if s in LONG then Decimal(Signed(v, WORD))
    else if s != "" && s[|s| - 1] == '*' then
      if v == 0 then "nullptr"
      else if Occurs("char", s) then "\"<0x" + HexText(v) + ">\""
      else "0x" + HexText(v)
    else if s != "" && s[|s| - 1] == '&' then "&0x" + HexText(v)
    else Decimal(v)
  }

  // The bytes of the signed types by the names they go by; 0 for any other type.
  function SignedBytes(name: string): nat {
    match name
    case "char" => 1
    case "signed char" => 1
    case "short" => 2
    case "short int" => 2
    case "signed short" => 2
    case "signed short int" => 2
    case "int" => 4
    case "signed" => 4
    case "signed int" => 4
    case "long" => 8
    case "long int" => 8
    case "signed long" => 8
    case "signed long int" => 8
    case "long long" => 8
    case "long long int" => 8
    case _ => 0
  }

  // 2 to the number of bits of a signed type; 0 for any other one.
  function SignedModulus(name: string): nat {
    match SignedBytes(name)
    case 1 => 0x100
    case 2 => 0x1_0000
    case 4 => 0x1_0000_0000
    case 8 => 0x1_0000_0000_0000_0000
    case _ => 0
  }

  // Decimal digits with a sign where there is one, and none that is not needed.
  predicate IsNumeral(s: string) {
    var digits := if s != "" && s[0] == '-' then s[1..] else s;
    && digits != "" && (forall i :: 0 <= i < |digits| ==> '0' <= digits[i] <= '9')
    && (digits[0] == '0' ==> s == "0")
  }

  lemma {:induction false} DigitsAreNumeral(n: nat)
    ensures Digits(n) != "" && (forall i :: 0 <= i < |Digits(n)| ==> '0' <= Digits(n)[i] <= '9')
    ensures Digits(n)[0] == '0' <==> n == 0
    ensures n == 0 ==> Digits(n) == "0"
  {
    DigitValue(n % 10);
    if n >= 10 {
      DigitsAreNumeral(n / 10);
    }
  }

  lemma DecimalIsNumeral(x: int)
    ensures IsNumeral(Decimal(x))
  {
    hide Digits;
    if x < 0 {
      DigitsAreNumeral(-x);
      assert Decimal(x)[1..] == Digits(-x);
    } else {
      DigitsAreNumeral(x);
    }
  }

  lemma SignedText(typ: string, v: U64)
    requires SignedModulus(Stripped(typ)) > 0
    ensures FormatParamVal(v, typ) == Decimal(Signed(v, SignedModulus(Stripped(typ))))
  {
    hide Stripped, Decimal, Signed;
  }

  lemma SignedValue(v: U64, m: int, x: int)
    requires m in {0x100, 0x1_0000, 0x1_0000_0000, WORD}
    requires 0 - m <= 2 * x < m && v % m == x % m
    ensures Signed(v, m) == x
  {
    if m == 0x100 {
    } else if m == 0x1_0000 {
    } else if m == 0x1_0000_0000 {
    } else {
    }
  }

  /** A signed argument reads back from its text: whatever the bits of the register above those
      of the type, and whatever qualifiers and typedefs surround the type. */
  lemma SignedReadsBack(t: TypeDie, name: string, v: U64, x: int)
    requires PlainBase(t) && Core(t) == Named(name) && SignedModulus(name) > 0
    requires var m: int := SignedModulus(name); 0 - m <= 2 * x < m && v % m == x % m
    ensures var text := FormatParamVal(v, TypeName(t)); IsNumeral(text) && ParseInt(text) == x
  {
    hide FormatParamVal, Signed, SignedModulus, PlainBase, Core, IsNumeral;
    SignedTypeName(t, name);
    SignedText(TypeName(t), v);
    ModulusIsPowerOf2(name);
    SignedValue(v, SignedModulus(name), x);
    ParseOfDecimal(x);
    DecimalIsNumeral(x);
  }

  lemma ModulusIsPowerOf2(name: string)
    ensures SignedModulus(name) in {0, 0x100, 0x1_0000, 0x1_0000_0000, WORD}
  {
  }

  lemma SignedTypeName(t: TypeDie, name: string)
    requires PlainBase(t) && Core(t) == Named(name)
    ensures Stripped(TypeName(t)) == name
  {
    StrippedName(t);
    CoreKeepsParts(t);
    assert name + "" == name;
  }

  /** Any other named type shows the whole register as an unsigned number. For a narrower unsigned
      type that is the argument exactly when the register is clean above it. */
  lemma UnsignedReadsBack(t: TypeDie, name: string, v: U64, modulus: nat)
    requires PlainBase(t) && Core(t) == Named(name) && modulus > 0
    requires SignedModulus(name) == 0 && name != "bool" && name != "_Bool"
    ensures var text := FormatParamVal(v, TypeName(t));
            IsNumeral(text) && ParseInt(text) == v && (ParseInt(text) == v % modulus <==> v < modulus)
  {
    hide PlainBase, Core, Stripped, FormatParamVal, SignedModulus, Decimal, ParseInt, IsNumeral;
    SignedTypeName(t, name);
    PlainCore(t, name);
    UnsignedText(TypeName(t), v);
    ParseOfDecimal(v);
    DecimalIsNumeral(v);
    ModuloKeeps(v, modulus);
  }

  /** A type that has no name, or leads nowhere as void* does, shows the whole register as well. */
  lemma UnnamedReadsBack(t: TypeDie, v: U64)
    requires PlainBase(t) && (Core(t).Anonymous? || Core(t).Dangling?)
    ensures var text := FormatParamVal(v, TypeName(t)); IsNumeral(text) && ParseInt(text) == v
  {
    hide PlainBase, Stripped, Decimal, ParseInt, IsNumeral;
    StrippedName(t);
    CoreKeepsParts(t);
    assert "?" + "" == "?";
    ParseOfDecimal(v);
    DecimalIsNumeral(v);
  }

  lemma UnsignedText(typ: string, v: U64)
    requires var s := Stripped(typ); SignedModulus(s) == 0 && s != "bool" && s != "_Bool" && PlainName(s)
    ensures FormatParamVal(v, typ) == Decimal(v)
  {
    hide Stripped, Decimal;
    var s := Stripped(typ);
    assert !IsSymbol(s[|s| - 1]);
  }

  lemma ModuloKeeps(v: nat, modulus: nat)
    requires modulus > 0
    ensures v == v % modulus <==> v < modulus
  {
  }

  lemma PlainCore(t: TypeDie, name: string)
    requires PlainBase(t) && Core(t) == Named(name)
    ensures PlainName(name)
  {
    CoreKeepsParts(t);
  }

  // The address that a pointer or reference text shows.
  function AddressIn(s: string): nat {
    if "0x" <= s then ParseHex(s[2..])
    else if "&0x" <= s then ParseHex(s[3..])
    else if "\"<0x" <= s && |s| >= 6 then ParseHex(s[4..|s| - 2])
    else 0
  }

  lemma AddressInText(v: U64)
    ensures AddressIn("0x" + HexText(v)) == v
    ensures AddressIn("&0x" + HexText(v)) == v
    ensures AddressIn("\"<0x" + HexText(v) + ">\"") == v
    ensures AddressIn("nullptr") == 0
  {
    hide HexText, ParseHex;
    ParseOfHexText(v);
    var digits := HexText(v);
    var a, b, c := "0x" + digits, "&0x" + digits, "\"<0x" + digits + ">\"";
    assert a[2..] == digits && b[3..] == digits && c[4..|c| - 2] == digits;
    assert a[0] == '0' && b[0] == '&' && c[0] == '"' && "nullptr"[0] == 'n';
  }

  predicate StandsAt(sub: string, s: string, i: nat) {
    i + |sub| <= |s| && s[i..i + |sub|] == sub
  }

  // std::string::find
  lemma {:induction false} OccursSomewhere(sub: string, s: string)
    ensures Occurs(sub, s) <==> exists i: nat :: StandsAt(sub, s, i)
  {
    if sub <= s {
      assert StandsAt(sub, s, 0);
    } else {
      forall i: nat ensures StandsAt(sub, s, i) ==> i > 0 && s != "" && StandsAt(sub, s[1..], i - 1) {
        assert i > 0 && StandsAt(sub, s, i) ==> s[1..][i - 1..i - 1 + |sub|] == s[i..i + |sub|];
      }
      if s != "" {
        OccursSomewhere(sub, s[1..]);
        if i: nat :| StandsAt(sub, s[1..], i) {
          assert s[i + 1..i + 1 + |sub|] == s[1..][i..i + |sub|];
          assert StandsAt(sub, s, i + 1);
        }
      }
    }
  }

  lemma OccursInBase(sub: string, base: string, symbols: string)
    requires sub != "" && (forall i :: 0 <= i < |sub| ==> !IsSymbol(sub[i])) && AllSymbols(symbols)
    ensures Occurs(sub, base + symbols) <==> exists i: nat :: StandsAt(sub, base, i)
  {
    hide Occurs, IsSymbol;
    var s := base + symbols;
    OccursSomewhere(sub, s);
    forall k | |base| <= k < |s| ensures IsSymbol(s[k]) {
      assert s[k] == symbols[k - |base|];
    }
    if i: nat :| StandsAt(sub, s, i) {
      var last := i + |sub| - 1;
      assert s[last] == s[i..i + |sub|][|sub| - 1] == sub[|sub| - 1];
      assert base[i..i + |sub|] == s[i..i + |sub|];
      assert StandsAt(sub, base, i);
    }
    if i: nat :| StandsAt(sub, base, i) {
      assert base[i..i + |sub|] == s[i..i + |sub|];
      assert StandsAt(sub, s, i);
    }
  }

  lemma LastDeclarator(t: TypeDie)
    requires Core(t).Modified?
    ensures Declarators(t) != ""
    ensures Declarators(t)[|Declarators(t)| - 1] == if Core(t).modifier == Pointer then '*' else '&'
  {
    CoreKeepsParts(t);
  }

  lemma AddressForm(typ: string, v: U64)
    requires var s := Stripped(typ); s != "" && s[|s| - 1] in {'*', '&'}
    ensures var s, text := Stripped(typ), FormatParamVal(v, typ);
            && text == (if s[|s| - 1] == '&' then "&0x" + HexText(v)
                        else if v == 0 then "nullptr"
                        else if Occurs("char", s) then "\"<0x" + HexText(v) + ">\""
                        else "0x" + HexText(v))
            && (text[0] == '&' <==> s[|s| - 1] == '&')
  {
    hide Stripped, HexText, Occurs;
  }

  /** The form of an address tells the type: references begin with an ampersand, a null pointer is named, and a
      pointer to a type whose name contains "char" is marked as one to a string. */
  lemma AddressText(t: TypeDie, v: U64)
    requires PlainBase(t) && Core(t).Modified?
    ensures IsHex(HexText(v)) && ParseHex(HexText(v)) == v && (HexText(v)[0] == '0' ==> HexText(v) == "0")
    ensures FormatParamVal(v, TypeName(t)) ==
            if Core(t).modifier != Pointer then "&0x" + HexText(v)
            else if v == 0 then "nullptr"
            else if exists i: nat :: StandsAt("char", Base(t), i) then "\"<0x" + HexText(v) + ">\""
            else "0x" + HexText(v)
    ensures FormatParamVal(v, TypeName(t))[0] == '&' <==> Core(t).modifier != Pointer
  {
    hide PlainBase, Stripped, Occurs, HexText, ParseHex, IsHex, Core, Declarators, FormatParamVal;
    HexTextIsShortest(v);
    ParseOfHexText(v);
    StrippedName(t);
    LastDeclarator(t);
    DeclaratorsAreSymbols(t);
    OccursInBase("char", Base(t), Declarators(t));
    PlainBaseName(t);
    var s := Base(t) + Declarators(t);
    assert s[|s| - 1] == Declarators(t)[|Declarators(t)| - 1];
    AddressForm(TypeName(t), v);
  }

  /** Addresses read back from their text, whatever the pointer or reference type. */
  lemma AddressesReadBack(typ: string, v: U64)
    requires var s := Stripped(typ); s != "" && s[|s| - 1] in {'*', '&'}
    ensures AddressIn(FormatParamVal(v, typ)) == v
  {
    hide Stripped, HexText, Occurs, AddressIn;
    AddressInText(v);
  }

  /** The address text belongs to the pointers and references of the type tree. */
  lemma PointersReadBack(t: TypeDie, v: U64)
    requires PlainBase(t) && Core(t).Modified?
    ensures AddressIn(FormatParamVal(v, TypeName(t))) == v
  {
    hide PlainBase, Stripped, AddressIn, FormatParamVal;
    StrippedName(t);
    CoreKeepsParts(t);
    AddressesReadBack(TypeName(t), v);
  }

  lemma BoolReadsBack(t: TypeDie, v: U64)
    requires PlainBase(t) && Core(t) in {Named("bool"), Named("_Bool")}
    ensures FormatParamVal(v, TypeName(t)) == if v == 0 then "false" else "true"
  {
    hide PlainBase, Core, Stripped, Decimal, HexText;
    SignedTypeName(t, Core(t).name);
  }

  // How many of the first i parameters are passed in floating-point registers.
  function FpBefore(types: seq<string>, i: nat): nat
    requires i <= |types|
  {
    if i == 0 then 0 else FpBefore(types, i - 1) + if IsFpParam(types[i - 1]) then 1 else 0
  }

  lemma {:induction false} FpBeforeCounts(types: seq<string>, i: nat)
    requires i <= |types|
    ensures FpBefore(types, i) == |FloatingBefore(types, i)|
  {
    hide IsFpParam;
    if i > 0 {
      FpBeforeCounts(types, i - 1);
      assert FloatingBefore(types, i) ==
             FloatingBefore(types, i - 1) + if IsFpParam(types[i - 1]) then {i - 1} else {};
    } else {
      assert FloatingBefore(types, 0) == {};
    }
  }

  // The floating-point ones among the first i parameters.
  function FloatingBefore(types: seq<string>, i: nat): set<nat>
    requires i <= |types|
  {
    set j: nat | j < i && IsFpParam(types[j])
  }

  /** The integer register of parameter i if it is no floating-point one: `this` and the earlier
      parameters of the same kind come before it. */
  function IntRegister(types: seq<string>, hasThis: bool, i: nat): nat
    requires i <= |types|
  {
    if i == 0 then (if hasThis then 1 else 0)
    else IntRegister(types, hasThis, i - 1) + if IsFpParam(types[i - 1]) then 0 else 1
  }

  // What is shown for parameter i.
  function ParamText(types: seq<string>, args: seq<U64>, hasThis: bool, strVals: seq<string>, i: nat): string
    requires i < |types| && |args| == 6
  {
    var reg := IntRegister(types, hasThis, i);
    if IsFpParam(types[i]) then "<xmm" + Decimal(FpBefore(types, i)) + ">"
    else if reg < 6 then
      if i < |strVals| && strVals[i] != "" then "\"" + strVals[i] + "\""
      else FormatParamVal(args[reg], types[i])
    else "?"
  }

  // What is read ahead for parameter i: the string behind a non-null char* register.
  function ReadAhead(types: seq<string>, args: seq<U64>, hasThis: bool, memory: U64 -> string, i: nat): string
    requires i < |types| && |args| == 6
  {
    var reg := IntRegister(types, hasThis, i);
    if !IsFpParam(types[i]) && reg < 6 && IsCharPtr(types[i]) && args[reg] != 0 then memory(args[reg]) else ""
  }

  function FormattedParams(types: seq<string>, args: seq<U64>, hasThis: bool, strVals: seq<string>): (r: seq<string>)
    requires |args| == 6
    ensures |r| == |types|
  {
    seq(|types|, i requires 0 <= i < |types| => ParamText(types, args, hasThis, strVals, i))
  }

  function StringsAhead(types: seq<string>, args: seq<U64>, hasThis: bool, memory: U64 -> string): (r: seq<string>)
    requires |args| == 6
    ensures |r| == |types|
  {
    seq(|types|, i requires 0 <= i < |types| => ReadAhead(types, args, hasThis, memory, i))
  }

  // format_params. Its register counter stops at the last register.
  method FormatParams(types: seq<string>, args: seq<U64>, hasThis: bool, strVals: seq<string>)
    returns (result: seq<string>)
    requires |args| == 6
    ensures result == FormattedParams(types, args, hasThis, strVals)
  {
    hide FormatParamVal, Decimal, IsFpParam;
    result := [];
    var intReg := if hasThis then 1 else 0;
    var fpReg := 0;
    var i := 0;
    while i < |types|
      invariant 0 <= i <= |types| && |result| == i
      invariant fpReg == FpBefore(types, i)
      invariant intReg == if IntRegister(types, hasThis, i) < 6 then IntRegister(types, hasThis, i) else 6
      invariant forall k :: 0 <= k < i ==> result[k] == ParamText(types, args, hasThis, strVals, k)
    {
      var t := types[i];
      if IsFpParam(t) {
        result := result + ["<xmm" + Decimal(fpReg) + ">"];
        fpReg := fpReg + 1;
      } else if intReg < 6 {
        if i < |strVals| && strVals[i] != "" {
          result := result + ["\"" + strVals[i] + "\""];
        } else {
          result := result + [FormatParamVal(args[intReg], t)];
        }
        intReg := intReg + 1;
      } else {
        result := result + ["?"];
      }
      i := i + 1;
    }
  }

  // The loop over the parameters of an entry event. Its register counter goes on past the last one.
  method PrefetchStrings(types: seq<string>, args: seq<U64>, hasThis: bool, memory: U64 -> string)
    returns (strVals: seq<string>)
    requires |args| == 6
    ensures strVals == StringsAhead(types, args, hasThis, memory)
  {
    hide IsFpParam, IsCharPtr;
    strVals := seq(|types|, _ => "");
    var intR := if hasThis then 1 else 0;
    var pi := 0;
    while pi < |types|
      invariant 0 <= pi <= |types| && |strVals| == |types|
      invariant intR == IntRegister(types, hasThis, pi)
      invariant forall k :: 0 <= k < pi ==> strVals[k] == ReadAhead(types, args, hasThis, memory, k)
      invariant forall k :: pi <= k < |types| ==> strVals[k] == ""
    {
      var pt := types[pi];
      if IsFpParam(pt) {
        pi := pi + 1;
        continue;
      }
      if intR < 6 && IsCharPtr(pt) && args[intR] != 0 {
        strVals := strVals[pi := memory(args[intR])];
      }
      intR := intR + 1;
      pi := pi + 1;
    }
  }

  lemma {:induction false} RegistersAddUp(types: seq<string>, hasThis: bool, i: nat)
    requires i <= |types|
    ensures IntRegister(types, hasThis, i) + FpBefore(types, i) == i + if hasThis then 1 else 0
  {
    if i > 0 {
      RegistersAddUp(types, hasThis, i - 1);
    }
  }

  /** What a parameter shows by rights: the string behind its own register, or the value of that register. `this`
      and the earlier parameters that are not floating-point ones take the registers before it. */
  ghost predicate ShowsRegister(types: seq<string>, args: seq<U64>, hasThis: bool, memory: U64 -> string, i: nat,
                                text: string)
    requires |args| == 6 && i < |types|
  {
    var floating := |FloatingBefore(types, i)|;
    var reg := i - floating + if hasThis then 1 else 0;
    if IsFpParam(types[i]) then text == "<xmm" + Decimal(floating) + ">"
    else if reg >= 6 then text == "?"
    else
      && 0 <= reg
      && text == if IsCharPtr(types[i]) && args[reg] != 0 && memory(args[reg]) != ""
                 then "\"" + memory(args[reg]) + "\"" else FormatParamVal(args[reg], types[i])
  }

  ghost predicate ShowsRegisters(types: seq<string>, args: seq<U64>, hasThis: bool, memory: U64 -> string,
                                 texts: seq<string>)
    requires |args| == 6
  {
    |texts| == |types| && forall i :: 0 <= i < |types| ==> ShowsRegister(types, args, hasThis, memory, i, texts[i])
  }

  /** The two register walks agree: a parameter's text is the string behind its own register, or
      the value of that register, and nothing else. */
  lemma ShownThroughOwnRegister(types: seq<string>, args: seq<U64>, hasThis: bool, memory: U64 -> string)
    requires |args| == 6
    ensures ShowsRegisters(types, args, hasThis, memory,
                           FormattedParams(types, args, hasThis, StringsAhead(types, args, hasThis, memory)))
  {
    hide IsFpParam, IsCharPtr, FormatParamVal, Decimal, FloatingBefore;
    forall i | 0 <= i < |types|
      ensures IntRegister(types, hasThis, i) == i - |FloatingBefore(types, i)| + if hasThis then 1 else 0
      ensures FpBefore(types, i) == |FloatingBefore(types, i)|
    {
      RegistersAddUp(types, hasThis, i);
      FpBeforeCounts(types, i);
    }
  }
}
