/** Unit-scoped variables: a private static field of the generated class,
    optionally initialised by an expression that goes through the policy
    pass. Its value lives in one compiled unit only. */
module Field {
  import opened Errors
  import opened Syntax
  import opened Options
  import Policy
  import Security
  import Rewriter

  datatype Field = Field(name: string, fieldType: Type, options: FieldOptions, syntaxNodes: seq<MemberDecl>)

  const DynamicFieldMessage := "The type parameter must be System.Object when the IsDynamic option is set to true"

  /** The one declaration a field contributes. */
  function FieldNode(options: FieldOptions, name: string, t: Type, initializer: Option<Expr>): MemberDecl {
    FieldDecl([Private, Static], ValueOf(SlotType(options.isDynamic, t)), name, initializer)
  }

  /** The field constructor: a dynamic field must have type `object`; an
      initialiser must parse, is rewritten and then security-checked with
      the field's own options, and the rewritten tree initialises the single
      private static field named after the variable. */
  function NewField(parse: string -> Parsed, mathNames: set<string>, options: FieldOptions, name: string,
                    t: Type, initializer: Option<string>): (r: Result<Field>)
    ensures options.isDynamic && t != Object ==> r == Err(ArgumentError(DynamicFieldMessage))
    ensures !(options.isDynamic && t != Object) && initializer.None? ==>
      r == Ok(Field(name, t, options, [FieldNode(options, name, t, None)]))
    ensures !(options.isDynamic && t != Object) && initializer.Some? ==>
      match ParseExpression(parse, initializer.value)
      case Err(e) => r == Err(ParseError(e.message)) && r.error.IsParseError()
      case Ok(tree) =>
        && (r.Ok? <==> Security.Check(options.securityAccess, mathNames, tree).Pass?)
        && (r.Err? ==> r.error.SecurityError?)
        && (r.Ok? ==> r.value == Field(name, t, options,
              [FieldNode(options, name, t, Some(Rewriter.Rewrite(options.forceNumericDouble, tree)))]))
  {
    if options.isDynamic && t != Object then Err(ArgumentError(DynamicFieldMessage))
    else if initializer.None? then Ok(Field(name, t, options, [FieldNode(options, name, t, None)]))
    else
      var tree :- match ParseExpression(parse, initializer.value)
                  case Ok(tree) => Ok(tree)
                  case Err(e) => Err(ParseError(e.message));
      var checked :- Policy.Apply(options.securityAccess, options.forceNumericDouble, mathNames, tree);
      Ok(Field(name, t, options, [FieldNode(options, name, t, Some(checked))]))
  }

  /** The constructor without options: any type is accepted and the
      initialiser is embedded exactly as parsed. */
  lemma DefaultFieldKeepsInitializer(parse: string -> Parsed, mathNames: set<string>, name: string, t: Type, text: string)
    requires ParseExpression(parse, text).Ok?
    ensures NewField(parse, mathNames, DefaultFieldOptions, name, t, Some(text)) ==
      Ok(Field(name, t, DefaultFieldOptions, [FieldNode(DefaultFieldOptions, name, t, Some(parse(text).tree))]))
  {
    Policy.DefaultsAreInert(mathNames, parse(text).tree);
  }
}
