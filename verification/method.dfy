/** Method descriptors: one expression compiled as one method of the
    generated class, with the parameters and return type of a delegate
    signature. */
module Method {
  import opened Errors
  import opened Syntax
  import opened Options
  import opened Parameter

  /** The shape of a delegate type's Invoke method. */
  datatype Signature = Signature(parameterTypes: seq<Type>, returnType: Type)

  /** The fields of a method descriptor as the compiler sees them. */
  datatype Method = Method(
    name: string,
    parameters: seq<Parameter>,
    returnType: Type,
    options: MethodOptions,
    delegateType: Signature,
    syntaxNode: MemberDecl)

  const ReturnTypeMessage := "The returnType parameter must be System.Object when returnsDynamic is set to true"

  // ---------------------------------------------------------------------
  // The arity error message
  // ---------------------------------------------------------------------

  function Digit(d: nat): char
    requires d < 10
  {
    "0123456789"[d]
  }

  /** The decimal text of a count. */
  function NatToString(n: nat): (s: string)
    ensures |s| >= 1
    ensures forall i :: 0 <= i < |s| ==> '0' <= s[i] <= '9'
    decreases n
  {
    if n < 10 then [Digit(n)] else NatToString(n / 10) + [Digit(n % 10)]
  }

  const NamesPrefix := "Number of parameter names ("
  const DelegatePart := " does not match the numbers of parameters of the delegate type ("

  /** The arity message with the number of names and the delegate's
      parameter count in their labelled places. */
  function ArityMessage(names: nat, delegateParameters: nat): string {
    NamesPrefix + NatToString(names) + ")" + DelegatePart + NatToString(delegateParameters) + ")"
  }

  /** The message as the source formats it: the delegate's parameter count
      fills the place labelled as the number of names, and the other way
      round. */
  function ArityMessageAsWritten(delegateParameters: nat, names: nat): string {
    ArityMessage(delegateParameters, names)
  }

  /** `msg` reports `n` as the number of parameter names. */
  predicate ReportsNameCount(msg: string, n: nat) {
    var digits := NatToString(n);
    |msg| > |NamesPrefix| + |digits|
    && msg[..|NamesPrefix| + |digits|] == NamesPrefix + digits
    && msg[|NamesPrefix| + |digits|] == ')'
  }

  /** A text that starts with `p + d` has `p + d` as its prefix and the
      rest's first character right after it. */
  lemma PrefixThenRest(p: string, d: string, rest: string)
    requires |rest| > 0
    ensures |p + d + rest| > |p| + |d|
    ensures (p + d + rest)[..|p| + |d|] == p + d
    ensures (p + d + rest)[|p| + |d|] == rest[0]
  {
  }

  /** The corrected message always reports the number of names given. */
  lemma ArityMessageReportsNames(names: nat, delegateParameters: nat)
    ensures ReportsNameCount(ArityMessage(names, delegateParameters), names)
  {
    var digits := NatToString(names);
    var rest := ")" + DelegatePart + NatToString(delegateParameters) + ")";
    assert ArityMessage(names, delegateParameters) == NamesPrefix + digits + rest;
    PrefixThenRest(NamesPrefix, digits, rest);
  }

  /** The formatted message of the source misreports: two names given for a
      one-parameter delegate (`Action<int>` with "a", "b") are reported as
      one name. */
  lemma ArityMessageAsWrittenMisreports()
    ensures !ReportsNameCount(ArityMessageAsWritten(1, 2), 2)
    ensures ReportsNameCount(ArityMessageAsWritten(1, 2), 1)
  {
    assert NatToString(2) == "2" && NatToString(1) == "1";
    var msg := ArityMessageAsWritten(1, 2);
    assert msg[|NamesPrefix|] == '1';
    ArityMessageReportsNames(1, 2);
  }

  // ---------------------------------------------------------------------
  // Construction
  // ---------------------------------------------------------------------

  /** The declaration generated for a method: a void return type gives an
      expression-statement body; any other a return statement, declared with
      the return type or `dynamic`. */
  function MethodSyntax(name: string, parameters: seq<Parameter>, returnType: Type, returnsDynamic: bool, tree: Expr): MemberDecl {
    var decls := seq(|parameters|, i requires 0 <= i < |parameters| => Declaration(parameters[i]));
    if returnType == Void then
      MethodDecl([Public], VoidKeyword, name, decls, ExpressionStatement(tree))
    else
      MethodDecl([Public], SlotType(returnsDynamic, returnType), name, decls, ReturnStatement(tree))
  }

  /** The private constructor: checks the dynamic return, parses the
      expression (failing with the joined diagnostics) and builds the public
      method declaration. */
  function NewMethod(parse: string -> Parsed, delegateType: Signature, name: string, returnType: Type,
                     returnsDynamic: bool, expression: string, parameters: seq<Parameter>): (r: Result<Method>)
    ensures returnsDynamic && returnType != Object ==> r == Err(ArgumentError(ReturnTypeMessage))
    ensures !(returnsDynamic && returnType != Object) ==>
      (r.Err? <==> ParseExpression(parse, expression).Err?) &&
      (r.Err? ==> r.error == ParseExpression(parse, expression).error)
    ensures r.Ok? ==>
      && r.value.name == name && r.value.parameters == parameters && r.value.returnType == returnType
      && r.value.delegateType == delegateType
      && r.value.options == DefaultMethodOptions.(returnsDynamic := returnsDynamic)
      && r.value.syntaxNode.MethodDecl?
      && r.value.syntaxNode.declName == name
      && r.value.syntaxNode.modifiers == [Public]
      && |r.value.syntaxNode.parameters| == |parameters|
      && (forall i :: 0 <= i < |parameters| ==> r.value.syntaxNode.parameters[i] == Declaration(parameters[i]))
      && (r.value.syntaxNode.body.ReturnStatement? <==> returnType != Void)
      && r.value.syntaxNode.body.expr == ParseExpression(parse, expression).value
      && Erasure(r.value.syntaxNode.returnType) == returnType
      && (r.value.syntaxNode.returnType == DynamicKeyword <==> returnsDynamic)
  {
    if returnsDynamic && returnType != Object then Err(ArgumentError(ReturnTypeMessage))
    else
      match ParseExpression(parse, expression)
      case Err(e) => Err(e)
      case Ok(tree) =>
        Ok(Method(name, parameters, returnType, DefaultMethodOptions.(returnsDynamic := returnsDynamic),
                  delegateType, MethodSyntax(name, parameters, returnType, returnsDynamic, tree)))
  }

  /** One parameter per name, typed after the delegate, dynamic exactly when
      objectsAsDynamic holds and the type is `object`. */
  function ParametersFor(types: seq<Type>, names: seq<string>, objectsAsDynamic: bool): (ps: seq<Parameter>)
    requires |types| == |names|
    ensures |ps| == |names|
    ensures forall i :: 0 <= i < |ps| ==>
      ps[i] == Parameter(names[i], types[i], ParameterOptions(objectsAsDynamic && types[i] == Object))
  {
    seq(|names|, i requires 0 <= i < |names| =>
      NewParameter(ParameterOptions(objectsAsDynamic && types[i] == Object), names[i], types[i]).value)
  }

  /** CreateNamedMethod: fails with ArgumentError exactly when the number of
      names differs from the delegate's arity (before the expression is
      parsed), otherwise with ParserError exactly when the expression does
      not parse; a created method carries the delegate's parameter and
      return types and derives every dynamic flag from objectsAsDynamic. */
  function CreateNamedMethod(parse: string -> Parsed, delegateType: Signature, name: string, expression: string,
                             objectsAsDynamic: bool, names: seq<string>): (r: Result<Method>)
    ensures |names| != |delegateType.parameterTypes| ==>
      r == Err(ArgumentError(ArityMessage(|names|, |delegateType.parameterTypes|)))
      && ReportsNameCount(r.error.message, |names|)
    ensures |names| == |delegateType.parameterTypes| ==>
      (r.Err? <==> ParseExpression(parse, expression).Err?) && (r.Err? ==> r.error.ParserError? && !r.error.IsParseError())
    ensures r.Ok? ==>
      var m := r.value;
      && m.name == name
      && |m.parameters| == |names|
      && (forall i :: 0 <= i < |names| ==>
            m.parameters[i].name == names[i]
            && m.parameters[i].paramType == delegateType.parameterTypes[i]
            && (m.parameters[i].options.isDynamic <==> objectsAsDynamic && delegateType.parameterTypes[i] == Object))
      && m.returnType == delegateType.returnType
      && (m.options.returnsDynamic <==> objectsAsDynamic && delegateType.returnType == Object)
      && m.delegateType == delegateType
  {
    if |delegateType.parameterTypes| != |names| then
      ArityMessageReportsNames(|names|, |delegateType.parameterTypes|);
      Err(ArgumentError(ArityMessage(|names|, |delegateType.parameterTypes|)))
    else
      var parameters := ParametersFor(delegateType.parameterTypes, names, objectsAsDynamic);
      NewMethod(parse, delegateType, name, delegateType.returnType,
                objectsAsDynamic && delegateType.returnType == Object, expression, parameters)
  }

  /** The erased parameter types of a generated method declaration: what the
      delegate binder matches against. */
  function DeclaredParameterTypes(decl: MemberDecl): seq<Type>
    requires decl.MethodDecl?
  {
    seq(|decl.parameters|, i requires 0 <= i < |decl.parameters| => Erasure(decl.parameters[i].paramType))
  }

  /** The runtime types of a method's parameters, in order. */
  function ParameterTypes(m: Method): seq<Type> {
    seq(|m.parameters|, i requires 0 <= i < |m.parameters| => m.parameters[i].paramType)
  }

  /** `decl` is what a lookup by method name and parameter types finds. */
  predicate Declares(decl: MemberDecl, name: string, types: seq<Type>) {
    decl.MethodDecl? && decl.declName == name && DeclaredParameterTypes(decl) == types
  }

  /** The method's own declaration answers the lookup the compiler makes
      for it. */
  predicate Bindable(m: Method) {
    Declares(m.syntaxNode, m.name, ParameterTypes(m))
  }

  /** A created method's declaration is public, declares one parameter per
      given name (so the expression can use those names), takes exactly the
      delegate's parameter types once `dynamic` is read as `object`, and
      returns its return type: the lookup by name and parameter types finds
      it. */
  lemma CreatedMethodMatchesDelegate(parse: string -> Parsed, delegateType: Signature, name: string, expression: string,
                                     objectsAsDynamic: bool, names: seq<string>)
    requires CreateNamedMethod(parse, delegateType, name, expression, objectsAsDynamic, names).Ok?
    ensures var m := CreateNamedMethod(parse, delegateType, name, expression, objectsAsDynamic, names).value;
      && Bindable(m)
      && m.syntaxNode.modifiers == [Public]
      && |m.syntaxNode.parameters| == |names|
      && (forall i :: 0 <= i < |names| ==>
            && m.syntaxNode.parameters[i].paramName == names[i]
            && (m.syntaxNode.parameters[i].paramType == DynamicKeyword <==>
                  objectsAsDynamic && delegateType.parameterTypes[i] == Object))
      && DeclaredParameterTypes(m.syntaxNode) == delegateType.parameterTypes
      && Erasure(m.syntaxNode.returnType) == delegateType.returnType
  {
    var m := CreateNamedMethod(parse, delegateType, name, expression, objectsAsDynamic, names).value;
    assert |m.syntaxNode.parameters| == |delegateType.parameterTypes|;
    assert DeclaredParameterTypes(m.syntaxNode) == delegateType.parameterTypes;
    assert ParameterTypes(m) == delegateType.parameterTypes;
  }

  /** Create: an anonymous method named "_" followed by a fresh token. */
  function Create(parse: string -> Parsed, delegateType: Signature, token: string, expression: string,
                  objectsAsDynamic: bool, names: seq<string>): (r: Result<Method>)
    ensures r.Ok? ==> r.value.name == "_" + token
  {
    CreateNamedMethod(parse, delegateType, "_" + token, expression, objectsAsDynamic, names)
  }

  /** Methods created with different tokens never clash by name. */
  lemma CreatedNamesDistinct(parse: string -> Parsed, d1: Signature, d2: Signature, t1: string, t2: string,
                             e1: string, e2: string, o1: bool, o2: bool, n1: seq<string>, n2: seq<string>)
    requires t1 != t2
    requires Create(parse, d1, t1, e1, o1, n1).Ok? && Create(parse, d2, t2, e2, o2, n2).Ok?
    ensures Create(parse, d1, t1, e1, o1, n1).value.name != Create(parse, d2, t2, e2, o2, n2).value.name
  {
    assert ("_" + t1)[1..] == t1 && ("_" + t2)[1..] == t2;
  }
}
