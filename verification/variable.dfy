/** The common view of both variable kinds that the compiler works with:
    a name, a type, a dynamic flag and the declarations to embed. */
module Variable {
  import opened Syntax
  import F = Field
  import P = Property
  import Errors
  import Options

  datatype Variable = FieldVariable(field: F.Field) | PropertyVariable(property: P.Property) {
    function Name(): string {
      match this
      case FieldVariable(f) => f.name
      case PropertyVariable(p) => p.name
    }

    function VariableType(): Type {
      match this
      case FieldVariable(f) => f.fieldType
      case PropertyVariable(p) => p.propertyType
    }

    predicate IsDynamic() {
      match this
      case FieldVariable(f) => f.options.isDynamic
      case PropertyVariable(p) => p.isDynamic
    }

    function SyntaxNodes(): seq<MemberDecl> {
      match this
      case FieldVariable(f) => f.syntaxNodes
      case PropertyVariable(p) => p.syntaxNodes
    }
  }

  /** The declarations the constructors produce: one private static field
      for a field variable, the getter slot, setter slot and forwarding
      property for a shared variable. */
  predicate WellFormed(v: Variable) {
    match v
    case FieldVariable(f) =>
      && |f.syntaxNodes| == 1 && f.syntaxNodes[0].FieldDecl?
      && f.syntaxNodes[0] == F.FieldNode(f.options, f.name, f.fieldType, f.syntaxNodes[0].initializer)
    case PropertyVariable(p) =>
      p.syntaxNodes == P.PropertyNodes(p.name, p.propertyType, p.isDynamic, p.getterName, p.setterName)
  }

  /** Every field the field constructor returns is well formed. */
  lemma ConstructedFieldWellFormed(parse: string -> Parsed, mathNames: set<string>, options: Options.FieldOptions,
                                   name: string, t: Type, initializer: Errors.Option<string>)
    requires F.NewField(parse, mathNames, options, name, t, initializer).Ok?
    ensures WellFormed(FieldVariable(F.NewField(parse, mathNames, options, name, t, initializer).value))
  {
  }

  /** Every shared variable the property constructor returns is well formed,
      and its slot names come from its token. */
  lemma ConstructedPropertyWellFormed(isDynamic: bool, name: string, t: Type, token: string, cell: nat)
    requires P.NewProperty(isDynamic, name, t, token, cell).Ok?
    ensures var p := P.NewProperty(isDynamic, name, t, token, cell).value;
      WellFormed(PropertyVariable(p)) && p.getterName == P.GetterName(name, token) && p.setterName == P.SetterName(name, token)
  {
  }
}
