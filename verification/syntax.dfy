/** The syntax the library builds and inspects, abstracted from the C#
    syntax trees of the toolchain: runtime types, expression trees (only the
    node kinds the policy passes distinguish), type references as written in
    generated declarations, and the member declarations of the generated
    class. */
module Syntax {
  import opened Errors

  /** A runtime type. Only `object` and `void` are singled out by the
      library; every other type is known by its full name. */
  datatype Type = Object | Void | Named(fullName: string)

  /** The kind of a numeric literal token: the CLR type of its value. */
  datatype NumericKind = Int32 | UInt32 | Int64 | UInt64 | Single | Double | Decimal

  datatype LiteralKind =
    | Numeric(numeric: NumericKind)
    | StringLiteral
    | CharLiteral
    | BoolLiteral
    | NullLiteral

  /** An expression tree. `Other` stands for every node that neither the
      security walk nor the literal rewrite treats specially (binary,
      parenthesised, assignment, conditional, conditional access `?.`, object
      creation, ...). */
  datatype Expr =
    | Literal(kind: LiteralKind)
    | Ident(name: string)
    | MemberAccess(receiver: Expr, member: string)
    | Invoke(callee: Expr, args: seq<Expr>)
    | Other(children: seq<Expr>)

  /** A type as written in a generated declaration. */
  datatype TypeRef =
    | DynamicKeyword
    | VoidKeyword
    | FullName(named: Type)

  /** The declared type of a static field: a plain value, or one of the
      `System.Func<T>` / `System.Action<T>` delegate slots. */
  datatype FieldType = ValueOf(valueType: TypeRef) | FuncOf(result: TypeRef) | ActionOf(argument: TypeRef)

  /** The runtime type a declared type compiles to: `dynamic` is `object`. */
  function Erasure(t: TypeRef): Type
  {
    match t
    case DynamicKeyword => Object
    case VoidKeyword => Void
    case FullName(n) => n
  }

  /** The declared type of a slot: `dynamic` when flagged, the full name of
      the type otherwise. One rule shared by parameters, fields and
      properties. */
  function SlotType(isDynamic: bool, t: Type): TypeRef {
    if isDynamic then DynamicKeyword else FullName(t)
  }

  datatype Modifier = Private | Public | Static

  datatype ParameterDecl = ParameterDecl(paramName: string, paramType: TypeRef)

  datatype Body = ExpressionStatement(expr: Expr) | ReturnStatement(expr: Expr)

  datatype MemberDecl =
    | FieldDecl(modifiers: seq<Modifier>, fieldType: FieldType, declName: string, initializer: Option<Expr>)
    | PropertyDecl(modifiers: seq<Modifier>, propertyType: TypeRef, declName: string, getterSlot: string, setterSlot: string)
    | MethodDecl(modifiers: seq<Modifier>, returnType: TypeRef, declName: string, parameters: seq<ParameterDecl>, body: Body)

  /** The outcome of parsing an expression text: the toolchain always yields
      a tree, together with its diagnostics. */
  datatype Parsed = Parsed(tree: Expr, diagnostics: seq<Diagnostic>)

  /** Parses an expression text and fails with a ParserError whose message
      joins the reported diagnostics, as a method and a legacy variable do
      (a field throws the same text as a ParseError). */
  function ParseExpression(parse: string -> Parsed, text: string): (r: Result<Expr>)
    ensures r.Ok? <==> forall j :: 0 <= j < |parse(text).diagnostics| ==> !IsReported(parse(text).diagnostics[j])
    ensures r.Ok? ==> r.value == parse(text).tree
    ensures r.Err? ==> r.error == ParserError(Join(ReportedMessages(parse(text).diagnostics)))
  {
    var p := parse(text);
    var errors := ReportedMessages(p.diagnostics);
    ReportedIffAny(p.diagnostics);
    if |errors| > 0 then Err(ParserError(Join(errors))) else Ok(p.tree)
  }
}
