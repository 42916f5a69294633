/** The compiler: gathers the variable and method declarations into one
    compilation unit, emits it against the assemblies its types need, loads
    it, links the variables to it and binds one delegate per method. */
module Compiler {
  import opened Errors
  import opened Syntax
  import opened Linkage
  import V = Variable
  import M = Method
  import P = Property
  import F = Field

  const NamespaceName := "ExpressoSharp"
  const ClassName := "ExpressoClass"
  /** The class whose static members expressions may call unqualified. */
  const MathClass := "System.Math"

  datatype CompilationUnit = CompilationUnit(staticUsings: seq<string>, namespaceName: string, className: string,
                                             members: seq<MemberDecl>)

  /** What the compiler asks of the platform: the assembly location of a
      type, the locations of the runtime binder assemblies, the location of
      System.Runtime if it can be loaded, and the emitter, which returns its
      diagnostics. */
  datatype Toolchain = Toolchain(
    assemblyOf: Type -> string,
    dynamicSupport: seq<string>,
    systemRuntime: Option<string>,
    emit: (CompilationUnit, seq<string>) -> seq<Diagnostic>)

  // ---------------------------------------------------------------------
  // Referenced assemblies
  // ---------------------------------------------------------------------

  predicate NoDuplicates(xs: seq<string>) {
    forall i, j :: 0 <= i < j < |xs| ==> xs[i] != xs[j]
  }

  /** The elements of a hash set built from `xs`, listed once each. */
  function Distinct(xs: seq<string>): (ys: seq<string>)
    ensures forall x :: x in ys <==> x in xs
    ensures NoDuplicates(ys)
    decreases |xs|
  {
    if |xs| == 0 then []
    else
      var init := Distinct(xs[..|xs| - 1]);
      var last := xs[|xs| - 1];
      assert xs == xs[..|xs| - 1] + [last];
      if last in init then init else init + [last]
  }

  function ParameterTypesOf(ms: seq<M.Method>): seq<Type>
    decreases |ms|
  {
    if |ms| == 0 then [] else M.ParameterTypes(ms[0]) + ParameterTypesOf(ms[1..])
  }

  /** Every type the unit mentions: parameter types, return types, variable
      types, and `object`. */
  function UsedTypes(vs: seq<V.Variable>, ms: seq<M.Method>): seq<Type> {
    ParameterTypesOf(ms)
    + seq(|ms|, i requires 0 <= i < |ms| => ms[i].returnType)
    + seq(|vs|, i requires 0 <= i < |vs| => vs[i].VariableType())
    + [Object]
  }

  lemma {:induction false} ParameterTypeListed(ms: seq<M.Method>, i: nat, j: nat)
    requires i < |ms| && j < |ms[i].parameters|
    ensures ms[i].parameters[j].paramType in ParameterTypesOf(ms)
    decreases i
  {
    if i == 0 {
      assert M.ParameterTypes(ms[0])[j] == ms[0].parameters[j].paramType;
    } else {
      ParameterTypeListed(ms[1..], i - 1, j);
    }
  }

  /** Nothing the unit mentions is missed. */
  lemma UsedTypesCover(vs: seq<V.Variable>, ms: seq<M.Method>)
    ensures Object in UsedTypes(vs, ms)
    ensures forall i :: 0 <= i < |ms| ==> ms[i].returnType in UsedTypes(vs, ms)
    ensures forall i :: 0 <= i < |vs| ==> vs[i].VariableType() in UsedTypes(vs, ms)
    ensures forall i, j :: 0 <= i < |ms| && 0 <= j < |ms[i].parameters| ==> ms[i].parameters[j].paramType in UsedTypes(vs, ms)
  {
    var used := UsedTypes(vs, ms);
    var p, r, t := ParameterTypesOf(ms), seq(|ms|, i requires 0 <= i < |ms| => ms[i].returnType),
                   seq(|vs|, i requires 0 <= i < |vs| => vs[i].VariableType());
    assert used == p + r + t + [Object];
    forall i | 0 <= i < |ms| ensures ms[i].returnType in used {
      assert used[|p| + i] == r[i];
    }
    forall i | 0 <= i < |vs| ensures vs[i].VariableType() in used {
      assert used[|p| + |r| + i] == t[i];
    }
    forall i, j | 0 <= i < |ms| && 0 <= j < |ms[i].parameters| ensures ms[i].parameters[j].paramType in used {
      ParameterTypeListed(ms, i, j);
    }
  }

  /** Some method returns `dynamic` or takes a `dynamic` parameter, or some
      variable is dynamic. */
  predicate UsesDynamic(vs: seq<V.Variable>, ms: seq<M.Method>) {
    || (exists i :: 0 <= i < |ms| && (ms[i].options.returnsDynamic ||
          exists j :: 0 <= j < |ms[i].parameters| && ms[i].parameters[j].options.isDynamic))
    || (exists i :: 0 <= i < |vs| && vs[i].IsDynamic())
  }

  /** The assemblies `dynamic` needs: the runtime binder's, and
      System.Runtime when it can be loaded. */
  function DynamicExtras(tc: Toolchain): seq<string> {
    tc.dynamicSupport + (if tc.systemRuntime.Some? then [tc.systemRuntime.value] else [])
  }

  /** The assemblies the unit is compiled against: the distinct locations of
      the used types' assemblies, followed by the dynamic support assemblies
      exactly when something is dynamic (these are appended to the list, so
      they may repeat a location already there). */
  function References(tc: Toolchain, vs: seq<V.Variable>, ms: seq<M.Method>): (refs: seq<string>)
    ensures forall t :: t in UsedTypes(vs, ms) ==> tc.assemblyOf(t) in refs
    ensures UsesDynamic(vs, ms) ==> forall a :: a in DynamicExtras(tc) ==> a in refs
    ensures forall a :: a in refs ==>
      (exists t :: t in UsedTypes(vs, ms) && tc.assemblyOf(t) == a) || (UsesDynamic(vs, ms) && a in DynamicExtras(tc))
    ensures !UsesDynamic(vs, ms) ==> NoDuplicates(refs)
  {
    var used := UsedTypes(vs, ms);
    var locations := seq(|used|, i requires 0 <= i < |used| => tc.assemblyOf(used[i]));
    assert forall t :: t in used ==> tc.assemblyOf(t) in locations by {
      forall t | t in used ensures tc.assemblyOf(t) in locations {
        var i :| 0 <= i < |used| && used[i] == t;
        assert locations[i] == tc.assemblyOf(t);
      }
    }
    var base := Distinct(locations);
    if UsesDynamic(vs, ms) then base + DynamicExtras(tc) else base
  }

  // ---------------------------------------------------------------------
  // The compilation unit
  // ---------------------------------------------------------------------

  /** The declarations of every variable, in order. */
  function Flatten(vs: seq<V.Variable>): seq<MemberDecl>
    decreases |vs|
  {
    if |vs| == 0 then [] else vs[0].SyntaxNodes() + Flatten(vs[1..])
  }

  function MethodNodes(ms: seq<M.Method>): seq<MemberDecl> {
    seq(|ms|, i requires 0 <= i < |ms| => ms[i].syntaxNode)
  }

  /** One class in one namespace with a static using of the math class: the
      variables' declarations first, then one declaration per method. */
  function CreateCompilationUnit(ns: string, cls: string, vs: seq<V.Variable>, ms: seq<M.Method>): (cu: CompilationUnit)
    ensures cu.staticUsings == [MathClass] && cu.namespaceName == ns && cu.className == cls
    ensures |cu.members| == |Flatten(vs)| + |ms|
    ensures cu.members[..|Flatten(vs)|] == Flatten(vs)
    ensures forall j :: 0 <= j < |ms| ==> cu.members[|Flatten(vs)| + j] == ms[j].syntaxNode
  {
    var vars, methods := Flatten(vs), MethodNodes(ms);
    assert (vars + methods)[..|vars|] == vars;
    assert forall j :: 0 <= j < |ms| ==> (vars + methods)[|vars| + j] == methods[j];
    CompilationUnit([MathClass], ns, cls, vars + methods)
  }

  lemma {:induction false} FlattenAppend(a: seq<V.Variable>, b: seq<V.Variable>)
    ensures Flatten(a + b) == Flatten(a) + Flatten(b)
    decreases |a|
  {
    if |a| == 0 {
      assert a + b == b;
    } else {
      assert (a + b)[1..] == a[1..] + b;
      FlattenAppend(a[1..], b);
    }
  }

  /** Where the declarations of variable `i` start. */
  function Offset(vs: seq<V.Variable>, i: nat): nat
    requires i <= |vs|
  {
    |Flatten(vs[..i])|
  }

  /** Skipping the first variable moves every later offset back by its
      declarations. */
  lemma OffsetStep(vs: seq<V.Variable>, i: nat)
    requires 0 < i <= |vs|
    ensures Offset(vs, i) == |vs[0].SyntaxNodes()| + Offset(vs[1..], i - 1)
  {
    assert vs[..i][0] == vs[0] && vs[..i][1..] == vs[1..][..i - 1];
  }

  /** Declaration `k` of variable `i` sits at the variable's offset plus `k`. */
  lemma {:induction false} FlattenAt(vs: seq<V.Variable>, i: nat, k: nat)
    requires i < |vs| && k < |vs[i].SyntaxNodes()|
    ensures Offset(vs, i) + k < |Flatten(vs)|
    ensures Flatten(vs)[Offset(vs, i) + k] == vs[i].SyntaxNodes()[k]
    decreases i
  {
    var first := vs[0].SyntaxNodes();
    assert Flatten(vs) == first + Flatten(vs[1..]);
    if i == 0 {
      assert vs[..0] == [];
    } else {
      assert vs[1..][i - 1] == vs[i];
      FlattenAt(vs[1..], i - 1, k);
      OffsetStep(vs, i);
    }
  }

  /** The declarations of each variable sit contiguously at its offset. */
  lemma FlattenPlace(vs: seq<V.Variable>, i: nat)
    requires i < |vs|
    ensures Offset(vs, i) + |vs[i].SyntaxNodes()| <= |Flatten(vs)|
    ensures forall k :: 0 <= k < |vs[i].SyntaxNodes()| ==> Flatten(vs)[Offset(vs, i) + k] == vs[i].SyntaxNodes()[k]
  {
    OffsetMonotone(vs, i, |vs|);
    assert vs[..|vs|] == vs;
    forall k | 0 <= k < |vs[i].SyntaxNodes()| ensures Flatten(vs)[Offset(vs, i) + k] == vs[i].SyntaxNodes()[k] {
      FlattenAt(vs, i, k);
    }
  }

  lemma FlattenCons(v: V.Variable, rest: seq<V.Variable>)
    ensures Flatten([v] + rest) == v.SyntaxNodes() + Flatten(rest)
  {
    assert ([v] + rest)[0] == v && ([v] + rest)[1..] == rest;
  }

  /** Later variables come later. */
  lemma {:induction false} OffsetMonotone(vs: seq<V.Variable>, i: nat, j: nat)
    requires i < j <= |vs|
    ensures Offset(vs, i) + |vs[i].SyntaxNodes()| <= Offset(vs, j)
  {
    var before, between := vs[..i], vs[i + 1..j];
    assert vs[..j] == before + ([vs[i]] + between);
    FlattenAppend(before, [vs[i]] + between);
    FlattenCons(vs[i], between);
  }

  predicate AllWellFormed(vs: seq<V.Variable>) {
    forall i :: 0 <= i < |vs| ==> V.WellFormed(vs[i])
  }

  function CountFields(vs: seq<V.Variable>): nat
    decreases |vs|
  {
    if |vs| == 0 then 0 else (if vs[0].FieldVariable? then 1 else 0) + CountFields(vs[1..])
  }

  /** A field contributes one declaration and a shared variable three. */
  lemma {:induction false} MemberCount(vs: seq<V.Variable>)
    requires AllWellFormed(vs)
    ensures |Flatten(vs)| == CountFields(vs) + 3 * (|vs| - CountFields(vs))
    ensures CountFields(vs) <= |vs|
    decreases |vs|
  {
    if |vs| > 0 {
      assert V.WellFormed(vs[0]);
      assert forall i :: 0 <= i < |vs[1..]| ==> vs[1..][i] == vs[i + 1];
      MemberCount(vs[1..]);
    }
  }

  // ---------------------------------------------------------------------
  // Emitting
  // ---------------------------------------------------------------------

  /** Builds the unit and emits it: success exactly when the emitter
      reports no error (a warning promoted to an error counts), otherwise a
      CompileError whose message joins the reported diagnostics. */
  function Compile(tc: Toolchain, vs: seq<V.Variable>, ms: seq<M.Method>): (r: Result<CompilationUnit>)
    ensures var cu := CreateCompilationUnit(NamespaceName, ClassName, vs, ms);
            var ds := tc.emit(cu, References(tc, vs, ms));
      && (r.Ok? <==> forall j :: 0 <= j < |ds| ==> !IsReported(ds[j]))
      && (r.Ok? ==> r.value == cu)
      && (r.Err? ==> r.error == CompileError(Join(ReportedMessages(ds))))
  {
    var cu := CreateCompilationUnit(NamespaceName, ClassName, vs, ms);
    var ds := tc.emit(cu, References(tc, vs, ms));
    var errors := ReportedMessages(ds);
    ReportedIffAny(ds);
    if |errors| > 0 then Err(CompileError(Join(errors))) else Ok(cu)
  }

  /** A compile error lists each reported diagnostic on a line of its own,
      in order, and nothing else. */
  lemma CompileErrorListsDiagnostics(tc: Toolchain, vs: seq<V.Variable>, ms: seq<M.Method>)
    requires Compile(tc, vs, ms).Err?
    requires var ds := tc.emit(CreateCompilationUnit(NamespaceName, ClassName, vs, ms), References(tc, vs, ms));
      forall j :: 0 <= j < |ds| ==> NoLineBreak(ds[j].message)
    ensures var ds := tc.emit(CreateCompilationUnit(NamespaceName, ClassName, vs, ms), References(tc, vs, ms));
      Split(Compile(tc, vs, ms).error.message) == ReportedMessages(ds)
  {
    var ds := tc.emit(CreateCompilationUnit(NamespaceName, ClassName, vs, ms), References(tc, vs, ms));
    ReportedIffAny(ds);
    ReportedAreLines(ds);
    SplitJoin(ReportedMessages(ds));
  }

  lemma {:induction false} ReportedAreLines(ds: seq<Diagnostic>)
    requires forall j :: 0 <= j < |ds| ==> NoLineBreak(ds[j].message)
    ensures forall i :: 0 <= i < |ReportedMessages(ds)| ==> NoLineBreak(ReportedMessages(ds)[i])
    decreases |ds|
  {
    if |ds| > 0 {
      ReportedAreLines(ds[1..]);
    }
  }

  // ---------------------------------------------------------------------
  // Binding delegates
  // ---------------------------------------------------------------------

  /** A delegate of the given type bound to a method of a loaded unit. */
  datatype Delegate = Delegate(unit: nat, target: MemberDecl, delegateType: M.Signature)

  /** `Type.GetMethod(name, types)`: the first method declaration with that
      name and those parameter types. */
  function FindMethod(members: seq<MemberDecl>, name: string, types: seq<Type>): (r: Option<nat>)
    ensures r.Some? ==>
      && r.value < |members|
      && M.Declares(members[r.value], name, types)
      && forall k :: 0 <= k < r.value ==> !M.Declares(members[k], name, types)
    ensures r.None? ==> forall k :: 0 <= k < |members| ==> !M.Declares(members[k], name, types)
    decreases |members|
  {
    if |members| == 0 then None
    else if M.Declares(members[0], name, types) then Some(0)
    else
      match FindMethod(members[1..], name, types)
      case None => None
      case Some(k) => Some(k + 1)
  }

  /** DelegateFromMethod: looks the method up by name and parameter types in
      unit `u` and binds a delegate of its delegate type to it; a missing
      method makes the binder throw on its null argument. */
  function DelegateFromMethod(members: seq<MemberDecl>, u: nat, m: M.Method): (r: Result<Delegate>)
    ensures r.Err? <==> forall k :: 0 <= k < |members| ==> !M.Declares(members[k], m.name, M.ParameterTypes(m))
    ensures r.Err? ==> r.error == ArgumentNull("method")
    ensures r.Ok? ==>
      && r.value.unit == u && r.value.delegateType == m.delegateType
      && r.value.target in members
      && M.Declares(r.value.target, m.name, M.ParameterTypes(m))
  {
    match FindMethod(members, m.name, M.ParameterTypes(m))
    case None => Err(ArgumentNull("method"))
    case Some(k) => Ok(Delegate(u, members[k], m.delegateType))
  }

  /** When declaration names are unique, a method's delegate is bound to
      that method's own declaration. */
  lemma BindsOwnDeclaration(members: seq<MemberDecl>, u: nat, m: M.Method, k: nat)
    requires k < |members| && members[k] == m.syntaxNode
    requires M.Bindable(m)
    requires DistinctDeclNames(members)
    ensures DelegateFromMethod(members, u, m) == Ok(Delegate(u, m.syntaxNode, m.delegateType))
  {
    var found := FindMethod(members, m.name, M.ParameterTypes(m));
    assert found.Some?;
    var f := found.value;
    assert members[f].declName == members[k].declName;
    assert f == k;
  }

  // ---------------------------------------------------------------------
  // Linking
  // ---------------------------------------------------------------------

  /** One step of CompileExpressions, as observed from outside: the unit
      is emitted and loaded, a variable's PostCompilation runs, a method's
      delegate is extracted. */
  datatype Step = Emitted | PostCompiled(variableIndex: nat) | Extracted(methodIndex: nat)

  function PostCompiledAll(n: nat): seq<Step> {
    seq(n, i requires 0 <= i < n => PostCompiled(i))
  }

  function ExtractedAll(n: nat): seq<Step> {
    seq(n, i requires 0 <= i < n => Extracted(i))
  }

  /** The slot names of distinct shared variables never coincide, and no
      variable's getter slot is its setter slot. */
  predicate SlotsDisjoint(vs: seq<V.Variable>) {
    forall i, j :: 0 <= i < |vs| && 0 <= j < |vs| && vs[i].PropertyVariable? && vs[j].PropertyVariable? ==>
      && vs[i].property.getterName != vs[j].property.setterName
      && (i != j ==> vs[i].property.getterName != vs[j].property.getterName
                     && vs[i].property.setterName != vs[j].property.setterName)
  }

  predicate SlotsPresent<T>(unit: Unit<T>, p: P.Property) {
    p.getterName in unit.statics && p.setterName in unit.statics
  }

  /** `n` is no slot of the shared variables among the first `i`. */
  predicate NotSlotBefore(vs: seq<V.Variable>, i: nat, n: string)
    requires i <= |vs|
  {
    forall j :: 0 <= j < i && vs[j].PropertyVariable? ==> n != vs[j].property.getterName && n != vs[j].property.setterName
  }

  /** InitializeVariables: runs PostCompilation for each variable in order.
      It fails (at the first one) exactly when some shared variable's slot
      is missing from the unit. Otherwise every shared variable whose
      forward names its slots ends up linked, and every other static of
      the unit, every other unit and every cell is left alone. */
  method InitializeVariables<T>(w: World<T>, u: nat, vs: seq<V.Variable>) returns (r: Result<World<T>>, steps: seq<Step>)
    requires u < |w.units|
    ensures r.Ok? ==> steps == PostCompiledAll(|vs|)
    ensures r.Ok? <==> forall i :: 0 <= i < |vs| && vs[i].PropertyVariable? ==> SlotsPresent(w.units[u], vs[i].property)
    ensures r.Err? ==> r.error == NullReference
    ensures r.Ok? ==>
      && r.value.cells == w.cells
      && |r.value.units| == |w.units|
      && (forall j :: 0 <= j < |w.units| && j != u ==> r.value.units[j] == w.units[j])
      && SameShape(r.value.units[u], w.units[u])
      && (forall n :: n in w.units[u].statics && NotSlotBefore(vs, |vs|, n) ==>
            r.value.units[u].statics[n] == w.units[u].statics[n])
    ensures r.Ok? && SlotsDisjoint(vs) ==>
      forall i :: 0 <= i < |vs| && vs[i].PropertyVariable? && vs[i].property.cell < |w.cells|
                  && vs[i].property.name in w.units[u].forwards
                  && w.units[u].forwards[vs[i].property.name] == (vs[i].property.getterName, vs[i].property.setterName) ==>
        Linked(r.value, u, vs[i].property)
  {
    var cur := w;
    var i := 0;
    steps := [];
    while i < |vs|
      invariant 0 <= i <= |vs|
      invariant steps == PostCompiledAll(i)
      invariant cur.cells == w.cells && |cur.units| == |w.units|
      invariant forall j :: 0 <= j < |w.units| && j != u ==> cur.units[j] == w.units[j]
      invariant SameShape(cur.units[u], w.units[u])
      invariant forall j :: 0 <= j < i && vs[j].PropertyVariable? ==> SlotsPresent(w.units[u], vs[j].property)
      invariant forall n :: n in w.units[u].statics && NotSlotBefore(vs, i, n) ==>
        cur.units[u].statics[n] == w.units[u].statics[n]
      invariant SlotsDisjoint(vs) ==> forall j :: 0 <= j < i && vs[j].PropertyVariable? ==>
        && cur.units[u].statics[vs[j].property.getterName] == GetterOf(vs[j].property.cell)
        && cur.units[u].statics[vs[j].property.setterName] == SetterOf(vs[j].property.cell)
    {
      var next := PostCompilation(cur, u, vs[i]);
      if next.Err? {
        return Err(NullReference), steps;
      }
      cur := next.value;
      steps := steps + [PostCompiled(i)];
      i := i + 1;
    }
    return Ok(cur), steps;
  }

  // ---------------------------------------------------------------------
  // What a freshly loaded unit holds
  // ---------------------------------------------------------------------

  /** Variable `i` is present in `unit` as declared: a shared variable with
      its forward and both slots, a field with its initial value, under a
      name that is neither a property nor any shared variable's slot. */
  ghost predicate VariableLoaded<T>(unit: Unit<T>, vs: seq<V.Variable>, i: nat, eval: (FieldType, Option<Expr>) -> T)
    requires i < |vs|
  {
    match vs[i]
    case PropertyVariable(p) =>
      && p.name in unit.forwards && unit.forwards[p.name] == (p.getterName, p.setterName)
      && SlotsPresent(unit, p)
    case FieldVariable(f) =>
      && |f.syntaxNodes| >= 1 && f.syntaxNodes[0].FieldDecl?
      && f.name !in unit.forwards
      && f.name in unit.statics
      && unit.statics[f.name] == Data(eval(f.syntaxNodes[0].fieldType, f.syntaxNodes[0].initializer))
      && NotSlotBefore(vs, |vs|, f.name)
  }

  /** Two different places of a list of uniquely named declarations hold
      different names. */
  lemma NamesAt(members: seq<MemberDecl>, a: nat, b: nat)
    requires DistinctDeclNames(members)
    requires a < |members| && b < |members| && a != b
    ensures members[a].declName != members[b].declName
  {
    if a > b {
      assert members[b].declName != members[a].declName;
    }
  }

  /** Declarations of two different places of the variables sit at two
      different places of the unit. */
  lemma OffsetsDiffer(vs: seq<V.Variable>, i: nat, k: nat, j: nat, l: nat)
    requires i < |vs| && j < |vs| && k < |vs[i].SyntaxNodes()| && l < |vs[j].SyntaxNodes()|
    requires i != j || k != l
    ensures Offset(vs, i) + k != Offset(vs, j) + l
  {
    if i < j {
      OffsetMonotone(vs, i, j);
    } else if j < i {
      OffsetMonotone(vs, j, i);
    }
  }

  /** Declarations at two different places of the unit have different
      names. */
  lemma NodeNamesDiffer(vs: seq<V.Variable>, ms: seq<M.Method>, i: nat, k: nat, j: nat, l: nat)
    requires DistinctDeclNames(Flatten(vs) + MethodNodes(ms))
    requires i < |vs| && j < |vs| && k < |vs[i].SyntaxNodes()| && l < |vs[j].SyntaxNodes()|
    requires i != j || k != l
    ensures vs[i].SyntaxNodes()[k].declName != vs[j].SyntaxNodes()[l].declName
  {
    var flat := Flatten(vs);
    var members := flat + MethodNodes(ms);
    var a, b := Offset(vs, i) + k, Offset(vs, j) + l;
    FlattenAt(vs, i, k);
    FlattenAt(vs, j, l);
    OffsetsDiffer(vs, i, k, j, l);
    assert members[a] == flat[a] && members[b] == flat[b];
    NamesAt(members, a, b);
  }

  lemma SlotsOfWellFormedDisjoint(vs: seq<V.Variable>, ms: seq<M.Method>)
    requires AllWellFormed(vs)
    requires DistinctDeclNames(Flatten(vs) + MethodNodes(ms))
    ensures SlotsDisjoint(vs)
  {
    forall i, j | 0 <= i < |vs| && 0 <= j < |vs| && vs[i].PropertyVariable? && vs[j].PropertyVariable?
      ensures vs[i].property.getterName != vs[j].property.setterName
      ensures i != j ==> vs[i].property.getterName != vs[j].property.getterName
                         && vs[i].property.setterName != vs[j].property.setterName
    {
      assert V.WellFormed(vs[i]) && V.WellFormed(vs[j]);
      NodeNamesDiffer(vs, ms, i, 0, j, 1);
      if i != j {
        NodeNamesDiffer(vs, ms, i, 0, j, 0);
        NodeNamesDiffer(vs, ms, i, 1, j, 1);
      }
    }
  }

  /** The `k`-th declaration of variable `i` is a declaration of the unit,
      and the only one with its name. */
  lemma NodeInUnit(vs: seq<V.Variable>, ms: seq<M.Method>, i: nat, k: nat)
    requires DistinctDeclNames(Flatten(vs) + MethodNodes(ms))
    requires i < |vs| && k < |vs[i].SyntaxNodes()|
    ensures Offset(vs, i) + k < |Flatten(vs) + MethodNodes(ms)|
    ensures (Flatten(vs) + MethodNodes(ms))[Offset(vs, i) + k] == vs[i].SyntaxNodes()[k]
    ensures var members := Flatten(vs) + MethodNodes(ms);
      forall j :: 0 <= j < |members| && j != Offset(vs, i) + k ==> members[j].declName != members[Offset(vs, i) + k].declName
  {
    FlattenAt(vs, i, k);
    var members := Flatten(vs) + MethodNodes(ms);
    forall j | 0 <= j < |members| && j != Offset(vs, i) + k
      ensures members[j].declName != members[Offset(vs, i) + k].declName
    {
      NamesAt(members, j, Offset(vs, i) + k);
    }
  }

  /** Each declaration of a variable is loaded as written. */
  lemma NodeLoaded<T>(vs: seq<V.Variable>, ms: seq<M.Method>, eval: (FieldType, Option<Expr>) -> T, i: nat, k: nat)
    requires DistinctDeclNames(Flatten(vs) + MethodNodes(ms))
    requires i < |vs| && k < |vs[i].SyntaxNodes()|
    ensures var d, unit := vs[i].SyntaxNodes()[k], Load(Flatten(vs) + MethodNodes(ms), eval);
      && (d.FieldDecl? ==> d.declName in unit.statics && unit.statics[d.declName] == StaticOf(d.fieldType, d.initializer, eval))
      && (d.PropertyDecl? ==> d.declName in unit.forwards && unit.forwards[d.declName] == (d.getterSlot, d.setterSlot))
  {
    NodeInUnit(vs, ms, i, k);
    LoadEntry(EmptyUnit(), Flatten(vs) + MethodNodes(ms), eval, Offset(vs, i) + k);
  }

  lemma PropertyLoaded<T>(vs: seq<V.Variable>, ms: seq<M.Method>, eval: (FieldType, Option<Expr>) -> T, i: nat)
    requires i < |vs| && vs[i].PropertyVariable?
    requires AllWellFormed(vs)
    requires DistinctDeclNames(Flatten(vs) + MethodNodes(ms))
    ensures VariableLoaded(Load(Flatten(vs) + MethodNodes(ms), eval), vs, i, eval)
  {
    assert V.WellFormed(vs[i]);
    NodeLoaded(vs, ms, eval, i, 0);
    NodeLoaded(vs, ms, eval, i, 1);
    NodeLoaded(vs, ms, eval, i, 2);
  }

  /** A field's name is no property of the loaded unit. */
  lemma FieldNotForwarded<T>(vs: seq<V.Variable>, ms: seq<M.Method>, eval: (FieldType, Option<Expr>) -> T, i: nat)
    requires DistinctDeclNames(Flatten(vs) + MethodNodes(ms))
    requires i < |vs| && |vs[i].SyntaxNodes()| >= 1 && vs[i].SyntaxNodes()[0].FieldDecl?
    ensures vs[i].SyntaxNodes()[0].declName !in Load(Flatten(vs) + MethodNodes(ms), eval).forwards
  {
    var members := Flatten(vs) + MethodNodes(ms);
    var n := vs[i].SyntaxNodes()[0].declName;
    if n in Load(members, eval).forwards {
      LoadForwardsDeclared(EmptyUnit(), members, eval, n);
      NodeInUnit(vs, ms, i, 0);
      assert false;
    }
  }

  lemma FieldLoaded<T>(vs: seq<V.Variable>, ms: seq<M.Method>, eval: (FieldType, Option<Expr>) -> T, i: nat)
    requires i < |vs| && vs[i].FieldVariable?
    requires AllWellFormed(vs)
    requires DistinctDeclNames(Flatten(vs) + MethodNodes(ms))
    ensures VariableLoaded(Load(Flatten(vs) + MethodNodes(ms), eval), vs, i, eval)
  {
    var members := Flatten(vs) + MethodNodes(ms);
    var f := vs[i].field;
    assert V.WellFormed(vs[i]);
    NodeLoaded(vs, ms, eval, i, 0);
    FieldNotForwarded(vs, ms, eval, i);
    forall j | 0 <= j < |vs| && vs[j].PropertyVariable?
      ensures f.name != vs[j].property.getterName && f.name != vs[j].property.setterName
    {
      assert V.WellFormed(vs[j]);
      NodeNamesDiffer(vs, ms, i, 0, j, 0);
      NodeNamesDiffer(vs, ms, i, 0, j, 1);
    }
  }

  lemma LoadedAt<T>(vs: seq<V.Variable>, ms: seq<M.Method>, eval: (FieldType, Option<Expr>) -> T, i: nat)
    requires i < |vs|
    requires AllWellFormed(vs)
    requires DistinctDeclNames(Flatten(vs) + MethodNodes(ms))
    ensures VariableLoaded(Load(Flatten(vs) + MethodNodes(ms), eval), vs, i, eval)
  {
    if vs[i].PropertyVariable? {
      PropertyLoaded(vs, ms, eval, i);
    } else {
      FieldLoaded(vs, ms, eval, i);
    }
  }

  // ---------------------------------------------------------------------
  // The entry points
  // ---------------------------------------------------------------------

  /** `methods.Select(DelegateFromMethod).ToArray()`: one delegate per
      method, in order; the first method that cannot be found aborts. */
  method BindDelegates(members: seq<MemberDecl>, u: nat, ms: seq<M.Method>) returns (r: Result<seq<Delegate>>, steps: seq<Step>)
    ensures r.Ok? ==> steps == ExtractedAll(|ms|)
    ensures r.Ok? <==> forall i :: 0 <= i < |ms| ==> DelegateFromMethod(members, u, ms[i]).Ok?
    ensures r.Err? ==> r.error == ArgumentNull("method")
    ensures r.Ok? ==> |r.value| == |ms| && forall i :: 0 <= i < |ms| ==> DelegateFromMethod(members, u, ms[i]) == Ok(r.value[i])
    ensures r.Ok? ==> forall i :: 0 <= i < |ms| ==>
      && r.value[i].unit == u && r.value[i].delegateType == ms[i].delegateType
      && r.value[i].target in members
      && M.Declares(r.value[i].target, ms[i].name, M.ParameterTypes(ms[i]))
  {
    var delegates: seq<Delegate> := [];
    var k := 0;
    steps := [];
    while k < |ms|
      invariant 0 <= k <= |ms|
      invariant steps == ExtractedAll(k)
      invariant |delegates| == k
      invariant forall i :: 0 <= i < k ==> DelegateFromMethod(members, u, ms[i]) == Ok(delegates[i])
      invariant forall i :: 0 <= i < k ==>
        && delegates[i].unit == u && delegates[i].delegateType == ms[i].delegateType
        && delegates[i].target in members
        && M.Declares(delegates[i].target, ms[i].name, M.ParameterTypes(ms[i]))
    {
      var d := DelegateFromMethod(members, u, ms[k]);
      if d.Err? {
        return Err(d.error), steps;
      }
      delegates := delegates + [d.value];
      steps := steps + [Extracted(k)];
      k := k + 1;
    }
    return Ok(delegates), steps;
  }

  /** With uniquely named declarations, every bindable method of the unit
      binds to its own declaration. */
  lemma SoundMethodsBind(vs: seq<V.Variable>, ms: seq<M.Method>, u: nat)
    requires DistinctDeclNames(Flatten(vs) + MethodNodes(ms))
    requires forall i :: 0 <= i < |ms| ==> M.Bindable(ms[i])
    ensures forall i :: 0 <= i < |ms| ==>
      DelegateFromMethod(Flatten(vs) + MethodNodes(ms), u, ms[i]) == Ok(Delegate(u, ms[i].syntaxNode, ms[i].delegateType))
  {
    var members := Flatten(vs) + MethodNodes(ms);
    forall i | 0 <= i < |ms|
      ensures DelegateFromMethod(members, u, ms[i]) == Ok(Delegate(u, ms[i].syntaxNode, ms[i].delegateType))
    {
      assert members[|Flatten(vs)| + i] == ms[i].syntaxNode;
      BindsOwnDeclaration(members, u, ms[i], |Flatten(vs)| + i);
    }
  }

  /** The conditions under which compiling cannot fail after emitting: the
      variables and methods are as their constructors make them (see
      Variable.ConstructedFieldWellFormed, Variable.ConstructedPropertyWellFormed
      and Method.CreatedMethodMatchesDelegate), every
      declaration of the unit has its own name (as fresh tokens ensure) and
      every shared variable's cell exists. */
  predicate Sound<T>(w: World<T>, vs: seq<V.Variable>, ms: seq<M.Method>) {
    && AllWellFormed(vs)
    && (forall i :: 0 <= i < |ms| ==> M.Bindable(ms[i]))
    && DistinctDeclNames(Flatten(vs) + MethodNodes(ms))
    && (forall i :: 0 <= i < |vs| && vs[i].PropertyVariable? ==> vs[i].property.cell < |w.cells|)
  }

  /** A freshly loaded unit holds every variable as declared. */
  lemma SoundUnitLoaded<T>(w: World<T>, vs: seq<V.Variable>, ms: seq<M.Method>, eval: (FieldType, Option<Expr>) -> T)
    requires Sound(w, vs, ms)
    ensures SlotsDisjoint(vs)
    ensures forall i :: 0 <= i < |vs| ==> VariableLoaded(Load(Flatten(vs) + MethodNodes(ms), eval), vs, i, eval)
    ensures forall i :: 0 <= i < |vs| && vs[i].PropertyVariable? ==>
      SlotsPresent(Load(Flatten(vs) + MethodNodes(ms), eval), vs[i].property)
  {
    SlotsOfWellFormedDisjoint(vs, ms);
    forall i | 0 <= i < |vs| ensures VariableLoaded(Load(Flatten(vs) + MethodNodes(ms), eval), vs, i, eval) {
      LoadedAt(vs, ms, eval, i);
    }
    forall i | 0 <= i < |vs| && vs[i].PropertyVariable?
      ensures SlotsPresent(Load(Flatten(vs) + MethodNodes(ms), eval), vs[i].property)
    {
      assert VariableLoaded(Load(Flatten(vs) + MethodNodes(ms), eval), vs, i, eval);
    }
  }

  /** Linking leaves the fields of a loaded unit at their initial values. */
  lemma FieldsKeepInitialValues<T>(loaded: Unit<T>, w2: World<T>, u: nat, vs: seq<V.Variable>, eval: (FieldType, Option<Expr>) -> T)
    requires u < |w2.units|
    requires forall i :: 0 <= i < |vs| ==> VariableLoaded(loaded, vs, i, eval)
    requires SameShape(w2.units[u], loaded)
    requires forall n :: n in loaded.statics && NotSlotBefore(vs, |vs|, n) ==> w2.units[u].statics[n] == loaded.statics[n]
    ensures forall i :: 0 <= i < |vs| && vs[i].FieldVariable? ==>
      && |vs[i].SyntaxNodes()| >= 1 && vs[i].SyntaxNodes()[0].FieldDecl?
      && Read(w2, u, vs[i].Name()) == Ok(eval(vs[i].SyntaxNodes()[0].fieldType, vs[i].SyntaxNodes()[0].initializer))
  {
    forall i | 0 <= i < |vs| && vs[i].FieldVariable?
      ensures && |vs[i].SyntaxNodes()| >= 1 && vs[i].SyntaxNodes()[0].FieldDecl?
              && Read(w2, u, vs[i].Name()) == Ok(eval(vs[i].SyntaxNodes()[0].fieldType, vs[i].SyntaxNodes()[0].initializer))
    {
      assert VariableLoaded(loaded, vs, i, eval);
    }
  }

  /** Under Sound each linked shared variable's forward names its slots. */
  lemma SoundPropertiesLinked<T>(w: World<T>, w2: World<T>, u: nat, vs: seq<V.Variable>, ms: seq<M.Method>,
                                 eval: (FieldType, Option<Expr>) -> T)
    requires Sound(w, vs, ms)
    requires forall i :: 0 <= i < |vs| ==> VariableLoaded(Load(Flatten(vs) + MethodNodes(ms), eval), vs, i, eval)
    ensures forall i :: 0 <= i < |vs| && vs[i].PropertyVariable? ==>
      && vs[i].property.cell < |w.cells|
      && vs[i].property.name in Load(Flatten(vs) + MethodNodes(ms), eval).forwards
      && Load(Flatten(vs) + MethodNodes(ms), eval).forwards[vs[i].property.name] == (vs[i].property.getterName, vs[i].property.setterName)
  {
    forall i | 0 <= i < |vs| && vs[i].PropertyVariable?
      ensures && vs[i].property.cell < |w.cells|
              && vs[i].property.name in Load(Flatten(vs) + MethodNodes(ms), eval).forwards
              && Load(Flatten(vs) + MethodNodes(ms), eval).forwards[vs[i].property.name] == (vs[i].property.getterName, vs[i].property.setterName)
    {
      assert VariableLoaded(Load(Flatten(vs) + MethodNodes(ms), eval), vs, i, eval);
    }
  }

  /** Loads an emitted unit as a new unit of the world and runs every
      variable's PostCompilation against it. Under Sound this cannot fail,
      and leaves each shared variable linked and each field at its initial
      value. */
  method LoadAndLink<T>(eval: (FieldType, Option<Expr>) -> T, w: World<T>, vs: seq<V.Variable>, ms: seq<M.Method>)
    returns (r: Result<World<T>>, steps: seq<Step>)
    ensures r.Err? ==> r.error == NullReference
    ensures r.Ok? ==>
      && steps == PostCompiledAll(|vs|)
      && r.value.cells == w.cells
      && |r.value.units| == |w.units| + 1
      && r.value.units[..|w.units|] == w.units
    ensures Sound(w, vs, ms) ==>
      && r.Ok?
      && (forall i :: 0 <= i < |vs| && vs[i].PropertyVariable? ==> Linked(r.value, |w.units|, vs[i].property))
      && (forall i :: 0 <= i < |vs| && vs[i].FieldVariable? ==>
            && |vs[i].SyntaxNodes()| >= 1 && vs[i].SyntaxNodes()[0].FieldDecl?
            && Read(r.value, |w.units|, vs[i].Name()) ==
                 Ok(eval(vs[i].SyntaxNodes()[0].fieldType, vs[i].SyntaxNodes()[0].initializer)))
  {
    var u := |w.units|;
    var loaded := Load(Flatten(vs) + MethodNodes(ms), eval);
    var w1 := w.(units := w.units + [loaded]);
    assert w1.units[u] == loaded;
    var sound := Sound(w, vs, ms);
    if sound {
      SoundUnitLoaded(w, vs, ms, eval);
      SoundPropertiesLinked(w, w1, u, vs, ms, eval);
    }
    r, steps := InitializeVariables(w1, u, vs);
    if r.Ok? {
      assert r.value.units[..u] == w.units by {
        assert forall j :: 0 <= j < u ==> r.value.units[j] == w1.units[j];
      }
      if sound {
        FieldsKeepInitialValues(loaded, r.value, u, vs, eval);
      }
    }
  }

  /** CompileExpressions: compile, load the unit as a new unit of the world,
      link the variables, then bind one delegate per method, in order. A
      failed emit is a CompileError and changes nothing. Under Sound, after
      a successful emit nothing fails: each shared variable is linked to the
      new unit, each field holds its initial value there, and each delegate
      is bound to its own method's declaration. */
  method CompileExpressions<T>(tc: Toolchain, eval: (FieldType, Option<Expr>) -> T, w: World<T>,
                               vs: seq<V.Variable>, ms: seq<M.Method>)
    returns (r: Result<(World<T>, seq<Delegate>)>, trace: seq<Step>)
    ensures Compile(tc, vs, ms).Err? ==> r == Err(Compile(tc, vs, ms).error) && trace == []
    ensures r.Ok? ==> trace == [Emitted] + PostCompiledAll(|vs|) + ExtractedAll(|ms|)
    ensures r.Err? ==> r.error.CompileError? || r.error == NullReference || r.error == ArgumentNull("method")
    ensures r.Ok? ==>
      && Compile(tc, vs, ms).Ok?
      && r.value.0.cells == w.cells
      && |r.value.0.units| == |w.units| + 1
      && r.value.0.units[..|w.units|] == w.units
      && |r.value.1| == |ms|
      && forall i :: 0 <= i < |ms| ==>
           && r.value.1[i].unit == |w.units|
           && r.value.1[i].delegateType == ms[i].delegateType
           && r.value.1[i].target in Compile(tc, vs, ms).value.members
           && M.Declares(r.value.1[i].target, ms[i].name, M.ParameterTypes(ms[i]))
    ensures Compile(tc, vs, ms).Ok? && Sound(w, vs, ms) ==>
      && r.Ok?
      && (forall i :: 0 <= i < |ms| ==> r.value.1[i].target == ms[i].syntaxNode)
      && (forall i :: 0 <= i < |vs| && vs[i].PropertyVariable? ==> Linked(r.value.0, |w.units|, vs[i].property))
      && (forall i :: 0 <= i < |vs| && vs[i].FieldVariable? ==>
            && |vs[i].SyntaxNodes()| >= 1 && vs[i].SyntaxNodes()[0].FieldDecl?
            && Read(r.value.0, |w.units|, vs[i].Name()) ==
                 Ok(eval(vs[i].SyntaxNodes()[0].fieldType, vs[i].SyntaxNodes()[0].initializer)))
  {
    var compiled := Compile(tc, vs, ms);
    if compiled.Err? {
      return Err(compiled.error), [];
    }
    var members := compiled.value.members;
    assert members == Flatten(vs) + MethodNodes(ms);
    var linked, linkSteps := LoadAndLink(eval, w, vs, ms);
    if linked.Err? {
      return Err(linked.error), [Emitted] + linkSteps;
    }
    if Sound(w, vs, ms) {
      SoundMethodsBind(vs, ms, |w.units|);
    }
    var delegates, bindSteps := BindDelegates(members, |w.units|, ms);
    if delegates.Err? {
      return Err(delegates.error), [Emitted] + linkSteps + bindSteps;
    }
    return Ok((linked.value, delegates.value)), [Emitted] + linkSteps + bindSteps;
  }

  /** CompileExpression: the same pipeline for a single method, returning
      its one delegate; the overloads without variables pass none. */
  method CompileExpression<T>(tc: Toolchain, eval: (FieldType, Option<Expr>) -> T, w: World<T>,
                              vs: seq<V.Variable>, m: M.Method)
    returns (r: Result<(World<T>, Delegate)>)
    ensures Compile(tc, vs, [m]).Err? ==> r == Err(Compile(tc, vs, [m]).error)
    ensures r.Ok? ==>
      && r.value.0.cells == w.cells
      && |r.value.0.units| == |w.units| + 1
      && r.value.0.units[..|w.units|] == w.units
      && r.value.1.unit == |w.units|
      && r.value.1.delegateType == m.delegateType
      && M.Declares(r.value.1.target, m.name, M.ParameterTypes(m))
    ensures Compile(tc, vs, [m]).Ok? && Sound(w, vs, [m]) ==>
      && r.Ok?
      && r.value.1.target == m.syntaxNode
      && (forall i :: 0 <= i < |vs| && vs[i].PropertyVariable? ==> Linked(r.value.0, |w.units|, vs[i].property))
  {
    var all, _ := CompileExpressions(tc, eval, w, vs, [m]);
    if all.Err? {
      return Err(all.error);
    }
    return Ok((all.value.0, all.value.1[0]));
  }
}
