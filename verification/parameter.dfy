/** A parameter of a compiled function: its name as used in expressions,
    its runtime type and its options, with the parameter declaration it
    contributes to the generated method. */
module Parameter {
  import opened Errors
  import opened Syntax
  import opened Options

  datatype Parameter = Parameter(name: string, paramType: Type, options: ParameterOptions)

  const DynamicParameterMessage := "The type parameter must be System.Object when the IsDynamic option is set to true"

  /** The options-taking constructor: a dynamic parameter must have type
      `object`; otherwise name, type and options are kept as given. */
  function NewParameter(options: ParameterOptions, name: string, t: Type): (r: Result<Parameter>)
    ensures r.Err? <==> options.isDynamic && t != Object
    ensures r.Err? ==> r.error == ArgumentError(DynamicParameterMessage)
    ensures r.Ok? ==> r.value.name == name && r.value.paramType == t && r.value.options == options
  {
    if options.isDynamic && t != Object then Err(ArgumentError(DynamicParameterMessage))
    else Ok(Parameter(name, t, options))
  }

  /** The two-argument constructor uses the default options, which are not
      dynamic, so every type is accepted. */
  function NewPlainParameter(name: string, t: Type): (r: Result<Parameter>)
    ensures r.Ok?
    ensures r.value == Parameter(name, t, ParameterOptions(false))
  {
    NewParameter(DefaultParameterOptions, name, t)
  }

  /** The parameter as declared in the generated method. */
  function Declaration(p: Parameter): ParameterDecl {
    ParameterDecl(p.name, SlotType(p.options.isDynamic, p.paramType))
  }

  /** A constructed parameter is declared `dynamic` exactly when flagged,
      and its declaration always compiles to its own runtime type, so the
      generated method has the signature the delegate binder looks up. */
  lemma DeclarationMatchesType(options: ParameterOptions, name: string, t: Type)
    requires NewParameter(options, name, t).Ok?
    ensures Declaration(NewParameter(options, name, t).value).paramName == name
    ensures Declaration(NewParameter(options, name, t).value).paramType == DynamicKeyword <==> options.isDynamic
    ensures Erasure(Declaration(NewParameter(options, name, t).value).paramType) == t
  {
  }
}
