/** From debug entries to the function table: the traversal, the description of one function, and
    the finder that answers from the indexes. */
module Dies {
  import opened Words
  import opened Symbols
  import opened TypeNames

  datatype Tag = Subprogram | Namespace | ClassType | StructureType | LexicalBlock
               | InlinedSubroutine | FormalParameter | OtherTag

  // The type attribute of a parameter: absent, a reference that leads nowhere, or a type.
  datatype TypeRef = NoType | BadRef | TypeOf(t: TypeDie)

  // dwarf_highpc's result code and the value it leaves.
  datatype HighPc = HighPc(form: int, value: U64)

  datatype Die = Die(tag: Tag, lowPc: Option<U64>, highPc: HighPc, linkage: Option<string>,
                     name: Option<string>, artificial: bool, typ: TypeRef, children: seq<Die>)

  type Path = seq<nat>

  // Entries whose children are looked at.
  predicate IsContainer(d: Die) {
    d.tag in {Subprogram, Namespace, ClassType, StructureType, LexicalBlock, InlinedSubroutine}
  }

  // strip_params: everything before the first parenthesis.
  function BeforeParenthesis(s: string): string {
    if s == "" || s[0] == '(' then "" else [s[0]] + BeforeParenthesis(s[1..])
  }

  // The raw and the shown name of a subprogram; None if it has none.
  function Names(demangle: string -> string, d: Die): Option<(string, string)> {
    match d.linkage
    case Some(m) =>
      if m != "" then
        var shown := BeforeParenthesis(demangle(m));
        if shown == "" then None else Some((m, shown))
      else NamesFromName(d)
    case None => NamesFromName(d)
  }

  function NamesFromName(d: Die): Option<(string, string)> {
    match d.name
    case Some(n) => if n == "" then None else Some((n, n))
    case None => None
  }

  function SizeFrom(lo: U64, hi: HighPc): U64 {
    if hi.form == 0 && hi.value > lo then hi.value - lo
    else if hi.form == 1 then hi.value
    else 0
  }

  // What one child of a subprogram contributes to its parameter list.
  function ParamType(d: Die): seq<string> {
    if d.tag != FormalParameter || d.artificial then []
    else match d.typ
         case NoType => []
         case BadRef => ["?"]
         case TypeOf(t) => [TypeName(t)]
  }

  // Spelled types of the declared parameters, in order.
  function ParamTypes(ds: seq<Die>): seq<string> {
    if ds == [] then [] else ParamTypes(ds[..|ds| - 1]) + ParamType(ds[|ds| - 1])
  }

  lemma ParamTypesStep(ds: seq<Die>, i: nat)
    requires i <= |ds|
    ensures i == 0 ==> ParamTypes(ds[..i]) == []
    ensures i < |ds| ==> ParamTypes(ds[..i + 1]) == ParamTypes(ds[..i]) + ParamType(ds[i])
  {
    if i < |ds| {
      assert ds[..i + 1][..i] == ds[..i];
    }
  }

  predicate HasThis(ds: seq<Die>) {
    exists i :: 0 <= i < |ds| && ds[i].tag == FormalParameter && ds[i].artificial
  }

  // A subprogram that is collected: it has code at a nonzero address and a name.
  predicate IsFunction(demangle: string -> string, d: Die) {
    d.tag == Subprogram && d.lowPc.Some? && d.lowPc.value != 0 && Names(demangle, d).Some?
  }

  // What is cut off begins with a parenthesis, and what is left has none.
  lemma {:induction false} BeforeParenthesisSplits(s: string)
    ensures var left := BeforeParenthesis(s);
            && left <= s && '(' !in left
            && (|left| < |s| ==> s[|left|] == '(')
  {
    if s != "" && s[0] != '(' {
      BeforeParenthesisSplits(s[1..]);
      var left := BeforeParenthesis(s[1..]);
      assert s == [s[0]] + s[1..] && [s[0]] + left <= s;
    }
  }

  lemma {:induction false} CutAtParenthesis(name: string, rest: string)
    requires '(' !in name
    ensures BeforeParenthesis(name + ['('] + rest) == name
  {
    var s := name + ['('] + rest;
    if name != "" {
      assert s[1..] == name[1..] + ['('] + rest;
      CutAtParenthesis(name[1..], rest);
    }
  }

  /** A subprogram with code and a linkage name is collected if and only if its demangled name begins
      with something other than a parenthesis. */
  lemma CollectedUnlessParenthesized(demangle: string -> string, d: Die)
    requires d.tag == Subprogram && d.lowPc.Some? && d.lowPc.value != 0
    requires d.linkage.Some? && d.linkage.value != ""
    ensures var name := demangle(d.linkage.value);
            IsFunction(demangle, d) <==> name != "" && name[0] != '('
  {
  }

  lemma OpensParenthesis(name: string, inner: string, whole: string, rest: string)
    requires whole == ['('] + inner
    ensures name + whole + rest == name + ['('] + (inner + rest)
  {
  }

  /** Members of an anonymous namespace lose their names: at the top they are not collected, and inside
      a named scope all of them go by the name of that scope. */
  lemma AnonymousNamespaceLosesName(demangle: string -> string, d: Die, scope: string, rest: string)
    requires d.tag == Subprogram && d.lowPc.Some? && d.lowPc.value != 0
    requires d.linkage.Some? && d.linkage.value != "" && '(' !in scope
    requires demangle(d.linkage.value) == scope + "(anonymous namespace)" + rest
    ensures IsFunction(demangle, d) <==> scope != ""
    ensures scope != "" ==> Describe(demangle, d).name == scope
  {
    hide BeforeParenthesis, HasThis, ParamTypes;
    CutAtParenthesis(scope, "anonymous namespace)" + rest);
    OpensParenthesis(scope, "anonymous namespace)", "(anonymous namespace)", rest);
  }

  /** Of a call operator only "operator" is left: it goes by the name of any other member called
      "operator" followed by a parenthesis, whatever its parameters. */
  lemma CallOperatorLosesName(demangle: string -> string, d: Die, scope: string, parameters: string)
    requires IsFunction(demangle, d) && d.linkage.Some? && d.linkage.value != "" && '(' !in scope
    requires demangle(d.linkage.value) == scope + "operator()" + parameters
    ensures Describe(demangle, d).name == scope + "operator"
  {
    hide BeforeParenthesis, HasThis, ParamTypes;
    assert '(' !in scope + "operator";
    CutAtParenthesis(scope + "operator", ")" + parameters);
    assert scope + "operator()" == scope + "operator" + "()";
    OpensParenthesis(scope + "operator", ")", "()", parameters);
  }

  // process_subprogram, for an entry that passes its checks.
  function Describe(demangle: string -> string, d: Die): FuncInfo
    requires IsFunction(demangle, d)
  {
    var (raw, shown) := Names(demangle, d).value;
    FuncInfo(shown, raw, d.lowPc.value, SizeFrom(d.lowPc.value, d.highPc), ParamTypes(d.children), "",
             HasThis(d.children))
  }

  // ----- what a function of the table says about its entry -----

  // A parameter that is declared: not artificial, and with a type attribute.
  predicate IsDeclared(c: Die) {
    c.tag == FormalParameter && !c.artificial && c.typ != NoType
  }

  function Spelled(typ: TypeRef): string {
    if typ.TypeOf? then TypeName(typ.t) else "?"
  }

  // The declared parameters among the first n children.
  function DeclaredIn(ds: seq<Die>, n: nat): set<nat>
    requires n <= |ds|
  {
    set i: nat | i < n && IsDeclared(ds[i])
  }

  // The parameter declared by child i.
  ghost predicate DeclaredAt(ds: seq<Die>, params: seq<string>, i: nat)
    requires i < |ds|
  {
    var k := |DeclaredIn(ds, i)|;
    IsDeclared(ds[i]) ==> k < |params| && params[k] == Spelled(ds[i].typ)
  }

  // One type for each declared parameter, in the order of the children.
  ghost predicate Declares(ds: seq<Die>, params: seq<string>) {
    |params| == |DeclaredIn(ds, |ds|)| && forall i :: 0 <= i < |ds| ==> DeclaredAt(ds, params, i)
  }

  lemma DeclaredInOneMore(ds: seq<Die>, n: nat)
    requires n < |ds|
    ensures |DeclaredIn(ds, n + 1)| == |DeclaredIn(ds, n)| + if IsDeclared(ds[n]) then 1 else 0
  {
    hide IsDeclared;
    assert DeclaredIn(ds, n + 1) == DeclaredIn(ds, n) + if IsDeclared(ds[n]) then {n} else {};
  }

  lemma DeclaredInPrefix(ds: seq<Die>, m: nat, n: nat)
    requires m <= n <= |ds|
    ensures DeclaredIn(ds[..n], m) == DeclaredIn(ds, m)
  {
    hide IsDeclared;
  }

  lemma ParamTypeSpells(c: Die)
    ensures ParamType(c) == if IsDeclared(c) then [Spelled(c.typ)] else []
  {
  }

  lemma {:induction false} ParamTypesDeclared(ds: seq<Die>)
    ensures Declares(ds, ParamTypes(ds))
  {
    if ds != [] {
      hide IsDeclared, Spelled, ParamType, DeclaredIn;
      var n := |ds| - 1;
      ParamTypesDeclared(ds[..n]);
      ParamTypeSpells(ds[n]);
      DeclaredInOneMore(ds, n);
      DeclaredInPrefix(ds, n, n);
      forall i | 0 <= i < |ds| ensures DeclaredAt(ds, ParamTypes(ds), i) {
        if i < n {
          DeclaredInPrefix(ds, i, n);
          assert DeclaredAt(ds[..n], ParamTypes(ds[..n]), i);
        }
      }
    } else {
      assert DeclaredIn(ds, 0) == {};
    }
  }

  // An entry has a name if its demangled linkage name does not begin with a parenthesis, or else by itself.
  predicate HasName(demangle: string -> string, d: Die) {
    if d.linkage.Some? && d.linkage.value != "" then
      demangle(d.linkage.value) != "" && demangle(d.linkage.value)[0] != '('
    else d.name.Some? && d.name.value != ""
  }

  /** The functions of the table: subprograms with code, not at address 0, and a name. */
  lemma IsFunctionExactly(demangle: string -> string, d: Die)
    ensures IsFunction(demangle, d) <==>
            d.tag == Subprogram && d.lowPc.Some? && d.lowPc.value != 0 && HasName(demangle, d)
  {
  }

  /** f describes the entry: where its code is, how it is named, what it takes. */
  ghost predicate IsDescription(demangle: string -> string, d: Die, f: FuncInfo) {
    && d.lowPc == Some(f.address) && f.address != 0
    && (match d.highPc.form
        case 0 => f.address + f.size == if d.highPc.value > f.address then d.highPc.value else f.address
        case 1 => f.size == d.highPc.value
        case _ => f.size == 0)
    && (if d.linkage.Some? && d.linkage.value != "" then
          var name := demangle(d.linkage.value);
          && f.mangledName == d.linkage.value
          && f.name != "" && f.name <= name && '(' !in f.name && (|f.name| < |name| ==> name[|f.name|] == '(')
        else d.name == Some(f.name) && f.mangledName == f.name != "")
    && Declares(d.children, f.paramTypes)
    && f.returnType == ""
    && (f.hasThis <==> exists c :: c in d.children && c.tag == FormalParameter && c.artificial)
  }

  lemma DescribeDescribes(demangle: string -> string, d: Die)
    requires IsFunction(demangle, d)
    ensures IsDescription(demangle, d, Describe(demangle, d))
  {
    hide Declares;
    ParamTypesDeclared(d.children);
    if d.linkage.Some? {
      BeforeParenthesisSplits(demangle(d.linkage.value));
    }
  }

  // ----- the traversal, as a list of paths -----

  function Prefixed(i: nat, paths: seq<Path>): (r: seq<Path>)
    ensures |r| == |paths| && forall k :: 0 <= k < |r| ==> r[k] == [i] + paths[k]
  {
    seq(|paths|, k requires 0 <= k < |paths| => [i] + paths[k])
  }

  // Where the functions below d are, from child i on, in the order in which they are collected.
  function FoundFrom(demangle: string -> string, d: Die, i: nat): seq<Path>
    requires i <= |d.children|
    decreases d, 1, |d.children| - i
  {
    if i == |d.children| then []
    else
      Prefixed(i, FoundAt(demangle, d.children[i])) + FoundFrom(demangle, d, i + 1)
  }

  // The functions at and below a child.
  function FoundAt(demangle: string -> string, c: Die): seq<Path>
    decreases c, 2
  {
    if IsContainer(c) then
      (if IsFunction(demangle, c) then [[]] else []) + FoundFrom(demangle, c, 0)
    else []
  }

  // ----- an independent description -----

  predicate IsPath(d: Die, path: Path)
    decreases |path|
  {
    path == [] || (path[0] < |d.children| && IsPath(d.children[path[0]], path[1..]))
  }

  function At(d: Die, path: Path): Die
    requires IsPath(d, path)
    decreases |path|
  {
    if path == [] then d else At(d.children[path[0]], path[1..])
  }

  // Anything but a parameter or an entry of another kind can have functions below it.
  predicate IsOnTheWay(d: Die) {
    d.tag != FormalParameter && d.tag != OtherTag
  }

  /** The entry at the path below d is a function, and so can be all entries on the way. */
  ghost predicate Reaches(demangle: string -> string, d: Die, path: Path) {
    && IsPath(d, path)
    && IsFunction(demangle, At(d, path))
    && forall k :: 0 <= k <= |path| ==> IsPath(d, path[..k]) && IsOnTheWay(At(d, path[..k]))
  }

  // Document order: an entry comes before its descendants and before its later siblings.
  predicate Before(p: Path, q: Path)
    decreases |p|
  {
    q != [] && (p == [] || p[0] < q[0] || (p[0] == q[0] && Before(p[1..], q[1..])))
  }

  ghost predicate InDocumentOrder(paths: seq<Path>) {
    forall i, j :: 0 <= i < j < |paths| ==> Before(paths[i], paths[j])
  }

  // So nothing is listed twice.
  lemma {:induction false} BeforeIsStrict(p: Path)
    ensures !Before(p, p)
    decreases |p|
  {
    if p != [] {
      BeforeIsStrict(p[1..]);
    }
  }

  lemma {:induction false} ReachesStep(demangle: string -> string, d: Die, path: Path)
    requires path != []
    ensures Reaches(demangle, d, path) <==>
            IsContainer(d) && path[0] < |d.children| && Reaches(demangle, d.children[path[0]], path[1..])
  {
    if path[0] < |d.children| {
      var c := d.children[path[0]];
      if Reaches(demangle, d, path) {
        assert IsOnTheWay(At(d, path[..0]));
        forall k | 0 <= k <= |path[1..]| ensures IsPath(c, path[1..][..k]) && IsOnTheWay(At(c, path[1..][..k])) {
          assert path[..k + 1][1..] == path[1..][..k];
          assert IsPath(d, path[..k + 1]) && IsOnTheWay(At(d, path[..k + 1]));
        }
      }
      if IsContainer(d) && Reaches(demangle, c, path[1..]) {
        forall k | 0 <= k <= |path| ensures IsPath(d, path[..k]) && IsOnTheWay(At(d, path[..k])) {
          if k > 0 {
            assert path[..k][1..] == path[1..][..k - 1];
            assert IsPath(c, path[1..][..k - 1]) && IsOnTheWay(At(c, path[1..][..k - 1]));
          }
        }
      }
    }
  }

  /** The traversal finds exactly the functions reachable through containers, each once and in
      document order. */
  lemma {:induction false} FoundAtIsReachable(demangle: string -> string, c: Die, path: Path)
    ensures path in FoundAt(demangle, c) <==> Reaches(demangle, c, path)
    decreases c, 2
  {
    if path == [] {
      FoundFromHeads(demangle, c, 0);
      assert Reaches(demangle, c, []) <==> IsFunction(demangle, c);
    } else {
      ReachesStep(demangle, c, path);
      if IsContainer(c) {
        FoundFromIsReachable(demangle, c, 0, path);
      }
    }
  }

  lemma {:induction false} FoundFromIsReachable(demangle: string -> string, d: Die, i: nat, path: Path)
    requires i <= |d.children| && path != []
    ensures path in FoundFrom(demangle, d, i) <==>
            i <= path[0] < |d.children| && Reaches(demangle, d.children[path[0]], path[1..])
    decreases d, 1, |d.children| - i
  {
    if i < |d.children| {
      var below := FoundAt(demangle, d.children[i]);
      FoundFromIsReachable(demangle, d, i + 1, path);
      FoundAtIsReachable(demangle, d.children[i], path[1..]);
      PrefixedMember(i, below, path);
    }
  }

  lemma PrefixedMember(i: nat, paths: seq<Path>, path: Path)
    requires path != []
    ensures path in Prefixed(i, paths) <==> path[0] == i && path[1..] in paths
  {
    if path[0] == i && path[1..] in paths {
      var k :| 0 <= k < |paths| && paths[k] == path[1..];
      assert Prefixed(i, paths)[k] == path;
    }
    if path in Prefixed(i, paths) {
      var k :| 0 <= k < |paths| && Prefixed(i, paths)[k] == path;
      assert path[1..] == paths[k];
    }
  }

  // Paths below d name a child from i on.
  lemma {:induction false} FoundFromHeads(demangle: string -> string, d: Die, i: nat)
    requires i <= |d.children|
    ensures forall q :: q in FoundFrom(demangle, d, i) ==> q != [] && q[0] >= i
    decreases |d.children| - i
  {
    if i < |d.children| {
      FoundFromHeads(demangle, d, i + 1);
      var here, later := Prefixed(i, FoundAt(demangle, d.children[i])), FoundFrom(demangle, d, i + 1);
      forall q | q in here + later ensures q != [] && q[0] >= i {
        assert q in here || q in later;
      }
    }
  }

  lemma {:induction false} FoundAtInOrder(demangle: string -> string, c: Die)
    ensures InDocumentOrder(FoundAt(demangle, c))
    decreases c, 2
  {
    if IsContainer(c) {
      FoundFromInOrder(demangle, c, 0);
      FoundFromHeads(demangle, c, 0);
      var below := FoundFrom(demangle, c, 0);
      forall j | 0 <= j < |below| ensures Before([], below[j]) {
        assert below[j] in below;
      }
    }
  }

  lemma {:induction false} FoundFromInOrder(demangle: string -> string, d: Die, i: nat)
    requires i <= |d.children|
    ensures InDocumentOrder(FoundFrom(demangle, d, i))
    decreases d, 1, |d.children| - i
  {
    if i < |d.children| {
      var inside := FoundAt(demangle, d.children[i]);
      FoundAtInOrder(demangle, d.children[i]);
      FoundFromInOrder(demangle, d, i + 1);
      FoundFromHeads(demangle, d, i + 1);
      var here, later := Prefixed(i, inside), FoundFrom(demangle, d, i + 1);
      forall a, b | 0 <= a < b < |here + later| ensures Before((here + later)[a], (here + later)[b]) {
        if b < |here| {
          assert Before(inside[a], inside[b]);
          assert here[a][1..] == inside[a] && here[b][1..] == inside[b];
        } else if a < |here| {
          assert later[b - |here|] in later;
        }
      }
    }
  }

  // ----- all compile units; None where the entry of a unit cannot be had -----

  function FoundInUnits(demangle: string -> string, units: seq<Option<Die>>, i: nat): seq<Path>
    requires i <= |units|
    decreases |units| - i
  {
    if i == |units| then []
    else
      (if units[i].Some? then Prefixed(i, FoundFrom(demangle, units[i].value, 0)) else [])
      + FoundInUnits(demangle, units, i + 1)
  }

  // The function at a path below the units is reachable. The tag of the unit itself is not looked at.
  ghost predicate ReachesInUnits(demangle: string -> string, units: seq<Option<Die>>, path: Path) {
    && |path| >= 2 && path[0] < |units| && units[path[0]].Some?
    && path[1] < |units[path[0]].value.children|
    && Reaches(demangle, units[path[0]].value.children[path[1]], path[2..])
  }

  /** For every forest of compile units: what is found is what is reachable. */
  lemma {:induction false} FoundInUnitsIsReachable(demangle: string -> string, units: seq<Option<Die>>, i: nat,
                                                   path: Path)
    requires i <= |units|
    ensures path in FoundInUnits(demangle, units, i) <==> ReachesInUnits(demangle, units, path) && path[0] >= i
    decreases |units| - i
  {
    if i < |units| {
      FoundInUnitsIsReachable(demangle, units, i + 1, path);
      if units[i].Some? {
        var unit := units[i].value;
        FoundFromHeads(demangle, unit, 0);
        if path != [] {
          PrefixedMember(i, FoundFrom(demangle, unit, 0), path);
          if |path| >= 2 {
            FoundFromIsReachable(demangle, unit, 0, path[1..]);
            assert path[1..][1..] == path[2..];
          }
        }
      }
    }
  }

  lemma {:induction false} FoundInUnitsHeads(demangle: string -> string, units: seq<Option<Die>>, i: nat)
    requires i <= |units|
    ensures forall q :: q in FoundInUnits(demangle, units, i) ==> q != [] && q[0] >= i
  {
    forall q | q in FoundInUnits(demangle, units, i) ensures q != [] && q[0] >= i {
      FoundInUnitsIsReachable(demangle, units, i, q);
    }
  }

  /** It is found once and in document order. */
  lemma {:induction false} FoundInUnitsInOrder(demangle: string -> string, units: seq<Option<Die>>, i: nat)
    requires i <= |units|
    ensures InDocumentOrder(FoundInUnits(demangle, units, i))
    decreases |units| - i
  {
    if i < |units| {
      FoundInUnitsInOrder(demangle, units, i + 1);
      FoundInUnitsHeads(demangle, units, i + 1);
      if units[i].Some? {
        var inside := FoundFrom(demangle, units[i].value, 0);
        FoundFromInOrder(demangle, units[i].value, 0);
        var here, later := Prefixed(i, inside), FoundInUnits(demangle, units, i + 1);
        forall a, b | 0 <= a < b < |here + later| ensures Before((here + later)[a], (here + later)[b]) {
          if b < |here| {
            assert Before(inside[a], inside[b]);
            assert here[a][1..] == inside[a] && here[b][1..] == inside[b];
          } else if a < |here| {
            assert later[b - |here|] in later;
          }
        }
      }
    }
  }

  // ----- the table -----

  // What the traversal adds to the table from child i of d on.
  function Collected(demangle: string -> string, d: Die, i: nat): seq<FuncInfo>
    requires i <= |d.children|
    decreases d, 1, |d.children| - i
  {
    if i == |d.children| then []
    else CollectedAt(demangle, d.children[i]) + Collected(demangle, d, i + 1)
  }

  function CollectedAt(demangle: string -> string, c: Die): seq<FuncInfo>
    decreases c, 2
  {
    if IsContainer(c) then
      (if IsFunction(demangle, c) then [Describe(demangle, c)] else []) + Collected(demangle, c, 0)
    else []
  }

  function Table(demangle: string -> string, units: seq<Option<Die>>, i: nat): seq<FuncInfo>
    requires i <= |units|
    decreases |units| - i
  {
    if i == |units| then []
    else (if units[i].Some? then Collected(demangle, units[i].value, 0) else []) + Table(demangle, units, i + 1)
  }

  lemma TableStep(demangle: string -> string, units: seq<Option<Die>>, i: nat)
    requires i <= |units|
    ensures Table(demangle, units, i) ==
            if i == |units| then []
            else (if units[i].Some? then Collected(demangle, units[i].value, 0) else []) + Table(demangle, units, i + 1)
  {
  }

  lemma FoundStep(demangle: string -> string, units: seq<Option<Die>>, i: nat)
    requires i <= |units|
    ensures FoundInUnits(demangle, units, i) ==
            if i == |units| then []
            else
              (if units[i].Some? then Prefixed(i, FoundFrom(demangle, units[i].value, 0)) else [])
              + FoundInUnits(demangle, units, i + 1)
  {
  }

  ghost predicate Describes(demangle: string -> string, d: Die, path: Path, f: FuncInfo) {
    && IsPath(d, path) && IsFunction(demangle, At(d, path)) && f == Describe(demangle, At(d, path))
    && IsDescription(demangle, At(d, path), f)
  }

  lemma {:induction false} CollectedAtDescribes(demangle: string -> string, c: Die)
    ensures |CollectedAt(demangle, c)| == |FoundAt(demangle, c)|
    ensures forall k :: 0 <= k < |FoundAt(demangle, c)| ==>
              Describes(demangle, c, FoundAt(demangle, c)[k], CollectedAt(demangle, c)[k])
    decreases c, 2
  {
    hide Describe, IsDescription;
    if IsContainer(c) {
      CollectedDescribes(demangle, c, 0);
      if IsFunction(demangle, c) {
        DescribeDescribes(demangle, c);
      }
    }
  }

  lemma {:induction false} CollectedDescribes(demangle: string -> string, d: Die, i: nat)
    requires i <= |d.children|
    ensures |Collected(demangle, d, i)| == |FoundFrom(demangle, d, i)|
    ensures forall k :: 0 <= k < |FoundFrom(demangle, d, i)| ==>
              Describes(demangle, d, FoundFrom(demangle, d, i)[k], Collected(demangle, d, i)[k])
    decreases d, 1, |d.children| - i
  {
    hide IsFunction, Describe, Names;
    if i < |d.children| {
      var c := d.children[i];
      CollectedAtDescribes(demangle, c);
      CollectedDescribes(demangle, d, i + 1);
      var inside := FoundAt(demangle, c);
      forall k | 0 <= k < |inside| ensures Describes(demangle, d, Prefixed(i, inside)[k], CollectedAt(demangle, c)[k]) {
        assert Describes(demangle, c, inside[k], CollectedAt(demangle, c)[k]);
        assert Prefixed(i, inside)[k][1..] == inside[k];
      }
    }
  }

  ghost predicate DescribesInUnits(demangle: string -> string, units: seq<Option<Die>>, path: Path, f: FuncInfo) {
    |path| >= 2 && path[0] < |units| && units[path[0]].Some? && Describes(demangle, units[path[0]].value, path[1..], f)
  }

  lemma UnitDescribes(demangle: string -> string, units: seq<Option<Die>>, i: nat, k: nat)
    requires i < |units| && units[i].Some? && k < |FoundFrom(demangle, units[i].value, 0)|
    ensures k < |Collected(demangle, units[i].value, 0)|
    ensures DescribesInUnits(demangle, units, [i] + FoundFrom(demangle, units[i].value, 0)[k],
                             Collected(demangle, units[i].value, 0)[k])
  {
    hide Describes;
    var unit := units[i].value;
    var inside := FoundFrom(demangle, unit, 0);
    CollectedDescribes(demangle, unit, 0);
    FoundFromHeads(demangle, unit, 0);
    assert inside[k] in inside;
    assert ([i] + inside[k])[1..] == inside[k];
    assert Describes(demangle, unit, inside[k], Collected(demangle, unit, 0)[k]);
  }

  /** The table lists the descriptions of the functions found, in the order found. */
  lemma {:induction false} TableDescribes(demangle: string -> string, units: seq<Option<Die>>, i: nat)
    requires i <= |units|
    ensures |Table(demangle, units, i)| == |FoundInUnits(demangle, units, i)|
    ensures forall k :: 0 <= k < |Table(demangle, units, i)| ==>
              DescribesInUnits(demangle, units, FoundInUnits(demangle, units, i)[k], Table(demangle, units, i)[k])
    decreases |units| - i
  {
    hide DescribesInUnits, Collected, FoundFrom, Table, FoundInUnits, IsDescription;
    TableStep(demangle, units, i);
    FoundStep(demangle, units, i);
    if i < |units| {
      TableDescribes(demangle, units, i + 1);
      if units[i].Some? {
        CollectedDescribes(demangle, units[i].value, 0);
        var inside := FoundFrom(demangle, units[i].value, 0);
        forall k | 0 <= k < |inside|
          ensures DescribesInUnits(demangle, units, Prefixed(i, inside)[k], Collected(demangle, units[i].value, 0)[k])
        {
          UnitDescribes(demangle, units, i, k);
        }
      }
    }
  }

  // The entry at a path below the units.
  function EntryAt(units: seq<Option<Die>>, path: Path): Die
    requires |path| >= 2 && path[0] < |units| && units[path[0]].Some? && IsPath(units[path[0]].value, path[1..])
  {
    At(units[path[0]].value, path[1..])
  }

  // The address lies between where the code of the entry begins and where it ends.
  predicate CodeAt(d: Die, addr: U64) {
    && d.lowPc.Some? && d.lowPc.value <= addr
    && (addr == d.lowPc.value || match d.highPc.form
                                 case 0 => addr < d.highPc.value
                                 case 1 => addr < d.lowPc.value + d.highPc.value
                                 case _ => false)
  }

  lemma DescriptionContains(demangle: string -> string, d: Die, f: FuncInfo, addr: U64)
    requires IsDescription(demangle, d, f)
    ensures Contains(f, addr) <==> CodeAt(d, addr)
  {
  }

  /** End to end: every function that containers lead to is named, at every address of its code, by its own
      name or that of another function with the same start. */
  lemma CodeIsNamed(demangle: string -> string, units: seq<Option<Die>>, index: seq<Slot>, path: Path, addr: U64)
    returns (k: nat)
    requires var table := Table(demangle, units, 0); Indexes(index, table, |table|) && NonOverlapping(table)
    requires ReachesInUnits(demangle, units, path) && IsPath(units[path[0]].value, path[1..])
    requires CodeAt(EntryAt(units, path), addr)
    ensures k < |Table(demangle, units, 0)|
    ensures IsDescription(demangle, EntryAt(units, path), Table(demangle, units, 0)[k])
    ensures var table := Table(demangle, units, 0);
            && (forall s :: s in index ==> s.at < |table|)
            && Lookup(table, index, addr).Some?
            && ((forall j :: 0 <= j < |table| && table[j].address == table[k].address ==>
                   table[j].name == table[k].name) ==>
                  Lookup(table, index, addr) == Some(table[k].name))
  {
    hide Indexes, NonOverlapping, Lookup, IsDescription, Contains, CodeAt, ReachesInUnits;
    var table, found := Table(demangle, units, 0), FoundInUnits(demangle, units, 0);
    FoundInUnitsIsReachable(demangle, units, 0, path);
    ReachesBelow(demangle, units, path);
    k :| 0 <= k < |found| && found[k] == path;
    TableDescribes(demangle, units, 0);
    assert DescribesInUnits(demangle, units, found[k], table[k]);
    DescriptionContains(demangle, EntryAt(units, path), table[k], addr);
    EntriesInRange(table, index);
    LookupNamesContainer(table, index, addr, k);
  }

  lemma ReachesBelow(demangle: string -> string, units: seq<Option<Die>>, path: Path)
    requires ReachesInUnits(demangle, units, path)
    ensures |path| >= 2 && path[0] < |units| && units[path[0]].Some?
  {
  }

  // ----- the finder -----

  // The hashed index of the first n functions: each name points to the first function of that name.
  ghost predicate NamesFirst(index: map<string, nat>, cache: seq<FuncInfo>, n: nat)
    requires n <= |cache|
  {
    && (forall name :: name in index ==>
          index[name] < n && cache[index[name]].name == name
          && forall j :: 0 <= j < index[name] ==> cache[j].name != name)
    && (forall i :: 0 <= i < n ==> cache[i].name in index)
  }

  lemma NamesGrow(index: map<string, nat>, cache: seq<FuncInfo>, n: nat)
    requires n < |cache| && NamesFirst(index, cache, n)
    ensures var name := cache[n].name;
            NamesFirst(if name in index then index else index[name := n], cache, n + 1)
  {
  }

  lemma NothingIndexed(cache: seq<FuncInfo>)
    ensures NamesFirst(map[], cache, 0) && Indexes([], cache, 0)
  {
  }

  class SymbolFinder {
    const units: seq<Option<Die>>
    const demangle: string -> string
    var built: bool
    var cache: seq<FuncInfo>
    var idxByName: map<string, nat>
    var idxByAddr: seq<Slot>

    ghost predicate Valid()
      reads this
    {
      if built then
        && cache == Table(demangle, units, 0)
        && NamesFirst(idxByName, cache, |cache|)
        && Indexes(idxByAddr, cache, |cache|)
      else
        cache == [] && idxByName == map[] && idxByAddr == []
    }

    constructor (units: seq<Option<Die>>, demangle: string -> string)
      ensures Valid() && this.units == units && this.demangle == demangle
    {
      this.units, this.demangle := units, demangle;
      built, cache, idxByName, idxByAddr := false, [], map[], [];
    }

    // The parameter loop of process_subprogram.
    static method Parameters(ds: seq<Die>) returns (params: seq<string>, hasThis: bool)
      ensures params == ParamTypes(ds) && hasThis == HasThis(ds)
    {
      hide TypeName, ParamTypes;
      params, hasThis := [], false;
      ParamTypesStep(ds, 0);
      var i := 0;
      while i < |ds|
        invariant 0 <= i <= |ds|
        invariant params == ParamTypes(ds[..i])
        invariant hasThis <==> exists k :: 0 <= k < i && ds[k].tag == FormalParameter && ds[k].artificial
      {
        var param := ds[i];
        ParamTypesStep(ds, i);
        if param.tag == FormalParameter {
          if param.artificial {
            hasThis := true;
          } else if param.typ == BadRef {
            params := params + ["?"];
          } else if param.typ != NoType {
            params := params + [TypeName(param.typ.t)];
          }
        }
        i := i + 1;
      }
      assert ds[..i] == ds;
    }

    // process_subprogram
    method ProcessSubprogram(die: Die)
      requires die.tag == Subprogram
      modifies this`cache
      ensures cache == old(cache) + if IsFunction(demangle, die) then [Describe(demangle, die)] else []
      ensures |cache| > |old(cache)| ==> IsDescription(demangle, die, cache[|old(cache)|])
    {
      hide IsDescription;
      if die.lowPc.None? || die.lowPc.value == 0 {
        return;
      }
      var names := Names(demangle, die);
      if names.None? {
        return;
      }
      var params, hasThis := Parameters(die.children);
      var (raw, shown) := names.value;
      var size := SizeFrom(die.lowPc.value, die.highPc);
      cache := cache + [FuncInfo(shown, raw, die.lowPc.value, size, params, "", hasThis)];
      DescribeDescribes(demangle, die);
    }

    // collect_subprograms
    method CollectSubprograms(parent: Die)
      modifies this`cache
      ensures cache == old(cache) + Collected(demangle, parent, 0)
      decreases parent
    {
      hide Names, Describe;
      var i := 0;
      while i < |parent.children|
        invariant 0 <= i <= |parent.children|
        invariant cache + Collected(demangle, parent, i) == old(cache) + Collected(demangle, parent, 0)
      {
        var child := parent.children[i];
        ghost var before := cache;
        if child.tag == Subprogram {
          ProcessSubprogram(child);
          CollectSubprograms(child);
        } else if child.tag in {Namespace, ClassType, StructureType} {
          CollectSubprograms(child);
        } else if child.tag in {LexicalBlock, InlinedSubroutine} {
          CollectSubprograms(child);
        }
        assert cache == before + CollectedAt(demangle, child);
        i := i + 1;
      }
    }

    // The loop over the compile units.
    method CollectUnits()
      requires cache == []
      modifies this`cache
      ensures cache == Table(demangle, units, 0)
    {
      hide Collected, CollectedAt, Table;
      var u := 0;
      while u < |units|
        invariant 0 <= u <= |units|
        invariant cache + Table(demangle, units, u) == Table(demangle, units, 0)
      {
        TableStep(demangle, units, u);
        if units[u].Some? {
          ghost var before, below := cache, Collected(demangle, units[u].value, 0);
          CollectSubprograms(units[u].value);
          assert before + below + Table(demangle, units, u + 1) == before + (below + Table(demangle, units, u + 1));
        } else {
          assert [] + Table(demangle, units, u + 1) == Table(demangle, units, u + 1);
        }
        u := u + 1;
      }
      TableStep(demangle, units, u);
    }

    // all
    method All()
      requires Valid()
      modifies this
      ensures Valid() && built && cache == Table(demangle, units, 0)
    {
      if built {
        return;
      }
      hide Indexes, NamesFirst, Table;
      CollectUnits();
      BuildIndexes();
      built := true;
    }

    method BuildIndexes()
      modifies this`idxByName, this`idxByAddr
      ensures NamesFirst(idxByName, cache, |cache|) && Indexes(idxByAddr, cache, |cache|)
    {
      hide Indexes, NamesFirst, Emplace;
      NothingIndexed(cache);
      idxByName, idxByAddr := map[], [];
      var i := 0;
      while i < |cache|
        invariant 0 <= i <= |cache|
        invariant NamesFirst(idxByName, cache, i)
        invariant Indexes(idxByAddr, cache, i)
      {
        IndexGrows(idxByAddr, cache, i);
        NamesGrow(idxByName, cache, i);
        if cache[i].name !in idxByName {
          idxByName := idxByName[cache[i].name := i];
        }
        if cache[i].address != 0 {
          idxByAddr := Emplace(idxByAddr, cache[i].address, i);
        }
        i := i + 1;
      }
    }

    /** The first function of the table with that name. */
    method Find(name: string) returns (r: Option<FuncInfo>)
      requires Valid()
      modifies this
      ensures Valid() && built
      ensures r.Some? ==> exists i: nat :: i < |cache| && r.value == cache[i] && cache[i].name == name
                                          && forall j :: 0 <= j < i ==> cache[j].name != name
      ensures r.None? ==> forall i :: 0 <= i < |cache| ==> cache[i].name != name
    {
      All();
      if name in idxByName {
        r := Some(cache[idxByName[name]]);
      } else {
        r := None;
      }
    }

    /** The name of the function at an address: with disjoint ranges, what a linear scan finds. */
    method LookupByAddr(addr: U64) returns (r: Option<string>)
      requires Valid()
      modifies this
      ensures Valid() && built
      ensures forall s :: s in idxByAddr ==> s.at < |cache|
      ensures r == Lookup(cache, idxByAddr, addr)
      ensures NonOverlapping(cache) ==> r == Scan(cache, addr)
    {
      hide Indexes, NamesFirst, NonOverlapping;
      All();
      EntriesInRange(cache, idxByAddr);
      if NonOverlapping(cache) {
        LookupIsScan(cache, idxByAddr, addr);
      }
      if idxByAddr == [] {
        return None;
      }
      var k := UpperBound(idxByAddr, addr);
      if k == 0 {
        return None;
      }
      var f := cache[idxByAddr[k - 1].at];
      if f.address == addr {
        return Some(f.name);
      }
      if f.size > 0 && addr < Wrap(f.address + f.size) {
        return Some(f.name);
      }
      return None;
    }
  }
}
