/** Type names as the symbol table spells them, and what the engine reads off the spelling. */
module TypeNames {

  datatype Modifier = Pointer | Reference | RvalueReference | Const | Volatile | Restrict | Typedef

  /** A type entry: a modifier of another entry (missing for void), or anything else, with its
      name if it has one. */
  datatype TypeDie = Modified(modifier: Modifier, inner: TypeDie) | Dangling(modifier: Modifier)
                   | Named(name: string) | Anonymous

  // resolve_type_name
  function TypeName(t: TypeDie): string {
    match t
    case Named(name) => name
    case Anonymous => "?"
    case Dangling(_) => "?"
    case Modified(modifier, inner) =>
      match modifier
      case Pointer => TypeName(inner) + "*"
      case Reference => TypeName(inner) + "&"
      case RvalueReference => TypeName(inner) + "&&"
      case Const => "const " + TypeName(inner)
      case Volatile => "volatile " + TypeName(inner)
      case Restrict => TypeName(inner)
      case Typedef => TypeName(inner)
  }

  const CONST := "const "
  const VOLATILE := "volatile "

  // strip_cv, as a function.
  function Stripped(s: string): string {
    if CONST <= s then Stripped(s[6..])
    else if VOLATILE <= s then Stripped(s[9..])
    else s
  }

  // strip_cv, as a loop.
  method StripCv(t: string) returns (s: string)
    ensures s == Stripped(t)
  {
    s := t;
    while true
      invariant Stripped(s) == Stripped(t)
      decreases |s|
    {
      if |s| >= 6 && s[..6] == CONST {
        s := s[6..];
        continue;
      }
      if |s| >= 9 && s[..9] == VOLATILE {
        s := s[9..];
        continue;
      }
      break;
    }
  }

  // One qualifier more or none.
  lemma StrippedStep(s: string)
    ensures Stripped(CONST + s) == Stripped(s) && Stripped(VOLATILE + s) == Stripped(s)
    ensures !(CONST <= s) && !(VOLATILE <= s) ==> Stripped(s) == s
  {
    assert (CONST + s)[6..] == s && (VOLATILE + s)[9..] == s;
    assert (CONST + s)[0] == 'c' && (VOLATILE + s)[0] == 'v';
  }

  lemma JoinedStep(first: string, more: seq<string>, rest: string)
    ensures Joined([first] + more) + rest == first + (Joined(more) + rest)
    ensures Joined([]) + rest == rest
  {
    assert ([first] + more)[1..] == more;
  }

  /** The loop strips qualifiers only, and all there are at the front. */
  lemma {:induction false} StrippedIsRest(s: string) returns (qualifiers: seq<string>)
    ensures !("const " <= Stripped(s)) && !("volatile " <= Stripped(s))
    ensures (forall q :: q in qualifiers ==> q in {"const ", "volatile "}) && s == Joined(qualifiers) + Stripped(s)
  {
    hide Stripped, Joined;
    qualifiers := [];
    StrippedStep(s);
    JoinedStep("", [], s);
    if CONST <= s {
      assert s == CONST + s[6..];
      StrippedStep(s[6..]);
      var more := StrippedIsRest(s[6..]);
      JoinedStep(CONST, more, Stripped(s[6..]));
      qualifiers := [CONST] + more;
    } else if VOLATILE <= s {
      assert s == VOLATILE + s[9..];
      StrippedStep(s[9..]);
      var more := StrippedIsRest(s[9..]);
      JoinedStep(VOLATILE, more, Stripped(s[9..]));
      qualifiers := [VOLATILE] + more;
    }
  }

  function Joined(parts: seq<string>): string {
    if parts == [] then "" else parts[0] + Joined(parts[1..])
  }

  /** How types are spelled. */
  lemma Spellings()
    ensures TypeName(Modified(Pointer, Modified(Const, Named("char")))) == "const char*"
    ensures TypeName(Modified(Const, Modified(Pointer, Named("char")))) == "const char*"
    ensures TypeName(Modified(Reference, Modified(Volatile, Named("int")))) == "volatile int&"
    ensures TypeName(Modified(RvalueReference, Named("int"))) == "int&&"
    ensures TypeName(Modified(Restrict, Modified(Typedef, Named("long int")))) == "long int"
    ensures TypeName(Dangling(Pointer)) == TypeName(Dangling(Const)) == TypeName(Anonymous) == "?"
  {
  }

  predicate IsFpParam(t: string) {
    var s := Stripped(t);
    s == "float" || s == "double" || s == "long double"
  }

  predicate IsCharPtr(t: string) {
    var s := Stripped(t);
    s == "char*" || s == "char *"
  }

  // Either way of spelling a pointer to char will do, under any qualifiers.
  lemma CharPtrSpellings(s: string)
    ensures IsCharPtr("char*") && IsCharPtr("char *")
    ensures IsCharPtr("const " + s) == IsCharPtr("volatile " + s) == IsCharPtr(s)
  {
    hide Stripped;
    StrippedStep(s);
    StrippedStep("char*");
    StrippedStep("char *");
    assert "char *"[1] != CONST[1];
  }

  // The type without qualifiers and typedefs at the top.
  function Core(t: TypeDie): TypeDie {
    match t
    case Modified(modifier, inner) => if modifier in {Const, Volatile, Restrict, Typedef} then Core(inner) else t
    case _ => t
  }

  predicate PointsToChar(t: TypeDie) {
    var c := Core(t);
    c.Modified? && c.modifier == Pointer && Core(c.inner) == Named("char")
  }

  predicate IsFloating(t: TypeDie) {
    Core(t) in {Named("float"), Named("double"), Named("long double")}
  }

  predicate IsSymbol(c: char) {
    c == '*' || c == '&'
  }

  predicate PlainName(name: string) {
    && name != "" && name[|name| - 1] != ' '
    && !(CONST <= name) && !(VOLATILE <= name)
    && forall i :: 0 <= i < |name| ==> !IsSymbol(name[i])
  }

  predicate AllSymbols(s: string) {
    forall i :: 0 <= i < |s| ==> IsSymbol(s[i])
  }

  // The entry at the bottom of the chain has a name that looks like no qualifier and no declarator.
  predicate PlainBase(t: TypeDie) {
    match t
    case Modified(_, inner) => PlainBase(inner)
    case Named(name) => PlainName(name)
    case _ => true
  }

  // The name of the bottom entry.
  function Base(t: TypeDie): string {
    match t
    case Modified(_, inner) => Base(inner)
    case Named(name) => name
    case _ => "?"
  }

  // The pointers and references on the way down, innermost first.
  function Declarators(t: TypeDie): string {
    match t
    case Modified(modifier, inner) =>
      (match modifier
       case Pointer => Declarators(inner) + "*"
       case Reference => Declarators(inner) + "&"
       case RvalueReference => Declarators(inner) + "&&"
       case _ => Declarators(inner))
    case _ => ""
  }

  function Qualifiers(t: TypeDie): string {
    match t
    case Modified(modifier, inner) =>
      (match modifier
       case Const => CONST + Qualifiers(inner)
       case Volatile => VOLATILE + Qualifiers(inner)
       case _ => Qualifiers(inner))
    case _ => ""
  }

  lemma {:induction false} NameInParts(t: TypeDie)
    ensures TypeName(t) == Qualifiers(t) + Base(t) + Declarators(t)
  {
    if t.Modified? {
      NameInParts(t.inner);
      hide Qualifiers, Base, Declarators, TypeName;
      var q, b, d := Qualifiers(t.inner), Base(t.inner), Declarators(t.inner);
      PartsRegroup(q, b, d, if t.modifier == Const then CONST else VOLATILE);
      PartsRegroup(q, b, d, if t.modifier == Pointer then "*" else if t.modifier == Reference then "&" else "&&");
      NamePartsStep(t);
    }
  }

  lemma PartsRegroup(q: string, b: string, d: string, s: string)
    ensures s + (q + b + d) == s + q + b + d && (q + b + d) + s == q + b + (d + s)
  {
  }

  lemma NamePartsStep(t: TypeDie)
    requires t.Modified?
    ensures Base(t) == Base(t.inner)
    ensures TypeName(t) == match t.modifier
                           case Pointer => TypeName(t.inner) + "*"
                           case Reference => TypeName(t.inner) + "&"
                           case RvalueReference => TypeName(t.inner) + "&&"
                           case Const => CONST + TypeName(t.inner)
                           case Volatile => VOLATILE + TypeName(t.inner)
                           case _ => TypeName(t.inner)
    ensures Declarators(t) == match t.modifier
                              case Pointer => Declarators(t.inner) + "*"
                              case Reference => Declarators(t.inner) + "&"
                              case RvalueReference => Declarators(t.inner) + "&&"
                              case _ => Declarators(t.inner)
    ensures Qualifiers(t) == match t.modifier
                             case Const => CONST + Qualifiers(t.inner)
                             case Volatile => VOLATILE + Qualifiers(t.inner)
                             case _ => Qualifiers(t.inner)
  {
  }

  lemma {:induction false} DeclaratorsAreSymbols(t: TypeDie)
    ensures AllSymbols(Declarators(t))
  {
    if t.Modified? {
      DeclaratorsAreSymbols(t.inner);
    }
  }

  lemma {:induction false} PlainBaseName(t: TypeDie)
    requires PlainBase(t)
    ensures PlainName(Base(t))
  {
    if t.Modified? {
      PlainBaseName(t.inner);
    }
  }

  // A qualifier ends in a space, so it cannot begin in the base and end among the declarators.
  lemma NoQualifierAhead(base: string, symbols: string, q: string)
    requires base != "" && !(q <= base) && q != "" && q[|q| - 1] == ' '
    requires AllSymbols(symbols)
    ensures !(q <= base + symbols)
  {
    var s := base + symbols;
    if |q| <= |base| {
      assert s[..|q|] == base[..|q|];
    } else if |q| <= |s| {
      assert s[|q| - 1] == symbols[|q| - 1 - |base|];
    }
  }

  lemma {:induction false} StrippedDropsQualifiers(t: TypeDie, rest: string)
    requires !(CONST <= rest) && !(VOLATILE <= rest)
    ensures Stripped(Qualifiers(t) + rest) == rest
  {
    hide Stripped;
    if t.Modified? {
      StrippedDropsQualifiers(t.inner, rest);
      var q := Qualifiers(t.inner);
      StrippedStep(q + rest);
      NamePartsStep(t);
      hide Qualifiers;
      assert CONST + q + rest == CONST + (q + rest) && VOLATILE + q + rest == VOLATILE + (q + rest);
    } else {
      StrippedStep(rest);
      assert Qualifiers(t) + rest == rest;
    }
  }

  // What is left of a rendered name is the base name and the declarators.
  lemma StrippedName(t: TypeDie)
    requires PlainBase(t)
    ensures Stripped(TypeName(t)) == Base(t) + Declarators(t)
  {
    NameInParts(t);
    PlainBaseName(t);
    DeclaratorsAreSymbols(t);
    NoQualifierAhead(Base(t), Declarators(t), CONST);
    NoQualifierAhead(Base(t), Declarators(t), VOLATILE);
    StrippedDropsQualifiers(t, Base(t) + Declarators(t));
    assert Qualifiers(t) + Base(t) + Declarators(t) == Qualifiers(t) + (Base(t) + Declarators(t));
  }

  lemma {:induction false} CoreKeepsParts(t: TypeDie)
    ensures Base(Core(t)) == Base(t) && Declarators(Core(t)) == Declarators(t)
    ensures PlainBase(t) ==> PlainBase(Core(t))
    ensures Core(t).Modified? ==> Core(t).modifier in {Pointer, Reference, RvalueReference}
  {
    if t.Modified? && t.modifier in {Const, Volatile, Restrict, Typedef} {
      CoreKeepsParts(t.inner);
    }
  }

  // Without declarators the core is the base itself; an unnamed base reads "?".
  lemma NoDeclarators(t: TypeDie, name: string)
    requires PlainBase(t) && name != "?"
    ensures Core(t) == Named(name) <==> Declarators(t) == "" && Base(t) == name
  {
    CoreKeepsParts(t);
  }

  // Where the first declarator is.
  function FirstSymbol(s: string): nat {
    if s == "" || IsSymbol(s[0]) then 0 else 1 + FirstSymbol(s[1..])
  }

  lemma {:induction false} FirstSymbolIsBehindBase(base: string, symbols: string)
    requires AllSymbols(symbols) && forall i :: 0 <= i < |base| ==> !IsSymbol(base[i])
    ensures FirstSymbol(base + symbols) == |base|
  {
    if base != "" {
      assert (base + symbols)[1..] == base[1..] + symbols;
      FirstSymbolIsBehindBase(base[1..], symbols);
    }
  }

  // A name splits into a part without declarators and declarators in one way only.
  lemma SplitIsUnique(base: string, symbols: string, base': string, symbols': string)
    requires base + symbols == base' + symbols'
    requires AllSymbols(symbols) && AllSymbols(symbols')
    requires forall i :: 0 <= i < |base| ==> !IsSymbol(base[i])
    requires forall i :: 0 <= i < |base'| ==> !IsSymbol(base'[i])
    ensures base == base' && symbols == symbols'
  {
    FirstSymbolIsBehindBase(base, symbols);
    FirstSymbolIsBehindBase(base', symbols');
    assert base == (base + symbols)[..|base|] && base' == (base' + symbols')[..|base'|];
    assert symbols == (base + symbols)[|base|..] && symbols' == (base' + symbols')[|base'|..];
  }

  lemma SpelledAs(t: TypeDie, base: string, symbols: string)
    requires PlainBase(t) && AllSymbols(symbols)
    requires forall i :: 0 <= i < |base| ==> !IsSymbol(base[i])
    ensures Stripped(TypeName(t)) == base + symbols <==> Base(t) == base && Declarators(t) == symbols
  {
    StrippedName(t);
    PlainBaseName(t);
    DeclaratorsAreSymbols(t);
    if Stripped(TypeName(t)) == base + symbols {
      SplitIsUnique(Base(t), Declarators(t), base, symbols);
    }
  }

  lemma CharPointerParts(t: TypeDie)
    requires PlainBase(t)
    ensures PointsToChar(t) <==> Base(t) == "char" && Declarators(t) == "*"
  {
    CoreKeepsParts(t);
    var c := Core(t);
    if c.Modified? {
      NoDeclarators(c.inner, "char");
      var inner := Declarators(c.inner);
      assert (inner + "*")[|inner|] == '*' && (inner + "&")[|inner|] == '&' && (inner + "&&")[|inner|] == '&';
      assert inner == "" ==> inner + "*" == "*";
    }
  }

  /** The spelling tells a pointer to char from every other type. */
  lemma CharPtrBySpelling(t: TypeDie)
    requires PlainBase(t)
    ensures IsCharPtr(TypeName(t)) <==> PointsToChar(t)
  {
    CharPointerParts(t);
    PlainBaseName(t);
    SpelledAs(t, "char", "*");
    SpelledAs(t, "char ", "*");
    assert "char" + "*" == "char*" && "char " + "*" == "char *";
  }

  /** The spelling tells the floating types from all others. */
  lemma FloatingBySpelling(t: TypeDie)
    requires PlainBase(t)
    ensures IsFpParam(TypeName(t)) <==> IsFloating(t)
  {
    FloatingName(t, "float");
    FloatingName(t, "double");
    FloatingName(t, "long double");
  }

  lemma FloatingName(t: TypeDie, name: string)
    requires PlainBase(t) && name != "?" && forall i :: 0 <= i < |name| ==> !IsSymbol(name[i])
    ensures Stripped(TypeName(t)) == name <==> Core(t) == Named(name)
  {
    NoDeclarators(t, name);
    SpelledAs(t, name, "");
    assert name + "" == name;
  }
}
