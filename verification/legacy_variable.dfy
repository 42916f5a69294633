/** The earlier variable design: one class whose value first lives in the
    variable itself and, once compiled, in a private static field of the
    unit it was last compiled into. Its getter and setter are rebound to
    that unit by Init; before any binding, access is refused. */
module Legacy {
  import opened Errors
  import opened Syntax
  import opened Linkage

  /** Where `Value` reads and writes: nowhere yet, a value held by the
      variable itself, or the field of a loaded unit. */
  datatype Binding<T> = Unbound | Local(value: T) | Bound(unit: nat)

  /** The legacy public static property: its accessors read and assign the
      backing field directly, unlike a shared property's delegate slots. */
  datatype FieldProperty = FieldProperty(modifiers: seq<Modifier>, propertyType: TypeRef, declName: string, backingField: string)

  datatype LegacyVariable<T> = LegacyVariable(
    name: string,
    variableType: Type,
    isDynamic: bool,
    propertyName: string,
    fieldNode: MemberDecl,
    propertyNode: FieldProperty,
    binding: Binding<T>,
    initialized: bool)

  const DynamicMessage := "The type parameter must be System.Object when isDynamic is set to true"
  const NotInitializedMessage := "This variable has not yet been initialized"

  /** A variable that has never been initialised has nothing to copy and
      no binding to read. */
  predicate Valid<T>(v: LegacyVariable<T>) {
    v.binding.Unbound? ==> !v.initialized
  }

  /** The private static field holding the value, and the public static
      property named after the token, which reads and assigns that field. */
  function LegacyNodes(name: string, t: Type, isDynamic: bool, propertyName: string, init: Option<Expr>): (MemberDecl, FieldProperty) {
    var typeRef := SlotType(isDynamic, t);
    (FieldDecl([Private, Static], ValueOf(typeRef), name, init),
     FieldProperty([Public, Static], typeRef, propertyName, name))
  }

  /** The base constructor: a dynamic variable must have type `object`; an
      initialiser text must parse and is embedded as parsed (no rewrite,
      no security check). */
  function NewBase<T>(parse: string -> Parsed, name: string, initializer: Option<string>, t: Type, isDynamic: bool,
                      token: string, binding: Binding<T>, initialized: bool): (r: Result<LegacyVariable<T>>)
    ensures isDynamic && t != Object ==> r == Err(ArgumentError(DynamicMessage))
    ensures !(isDynamic && t != Object) && initializer.Some? ==>
      (r.Err? <==> ParseExpression(parse, initializer.value).Err?) &&
      (r.Err? ==> r.error == ParseExpression(parse, initializer.value).error && r.error.ParserError?)
    ensures !(isDynamic && t != Object) && initializer.None? ==> r.Ok?
    ensures r.Ok? ==>
      && r.value.name == name && r.value.variableType == t && r.value.isDynamic == isDynamic
      && r.value.propertyName == "Getter_" + token
      && r.value.binding == binding && r.value.initialized == initialized
      && r.value.fieldNode.FieldDecl? && r.value.fieldNode.declName == name
      && r.value.fieldNode.initializer == (if initializer.Some? then Some(parse(initializer.value).tree) else None)
      && r.value.propertyNode.declName == "Getter_" + token && r.value.propertyNode.backingField == name
  {
    if isDynamic && t != Object then Err(ArgumentError(DynamicMessage))
    else
      var init :- if initializer.None? then Ok(None)
                  else match ParseExpression(parse, initializer.value)
                       case Ok(tree) => Ok(Some(tree))
                       case Err(e) => Err(e);
      var propertyName := "Getter_" + token;
      var (field, property) := LegacyNodes(name, t, isDynamic, propertyName, init);
      Ok(LegacyVariable(name, t, isDynamic, propertyName, field, property, binding, initialized))
  }

  /** `Create(name)` and `CreateWithInitializer(name, text)`: unbound and
      not initialised, so its value cannot be used before compiling. */
  function CreateWithInitializer<T>(parse: string -> Parsed, isDynamic: bool, name: string, t: Type, token: string,
                                    initializer: Option<string>): (r: Result<LegacyVariable<T>>)
    ensures r.Ok? ==> Valid(r.value) && r.value.binding.Unbound? && !r.value.initialized
  {
    NewBase(parse, name, initializer, t, isDynamic, token, Unbound, false)
  }

  /** `Create(name, initialValue)`: holds its value itself and counts as
      initialised, so compiling copies the value into the unit. */
  function CreateWithValue<T>(parse: string -> Parsed, isDynamic: bool, name: string, t: Type, token: string,
                              initialValue: T): (r: Result<LegacyVariable<T>>)
    ensures r.Err? <==> isDynamic && t != Object
    ensures r.Ok? ==> Valid(r.value) && r.value.binding == Local(initialValue) && r.value.initialized
  {
    NewBase(parse, name, None, t, isDynamic, token, Local(initialValue), true)
  }

  /** Reading `Value`. */
  function Get<T>(w: World<T>, v: LegacyVariable<T>): (r: Result<T>)
    ensures v.binding.Unbound? ==> r == Err(NotSupported(NotInitializedMessage))
    ensures v.binding.Local? ==> r == Ok(v.binding.value)
  {
    match v.binding
    case Unbound => Err(NotSupported(NotInitializedMessage))
    case Local(x) => Ok(x)
    case Bound(u) => if u < |w.units| then Read(w, u, v.name) else Err(NullReference)
  }

  /** Assigning `Value`. */
  function Set<T>(w: World<T>, v: LegacyVariable<T>, x: T): (r: Result<(World<T>, LegacyVariable<T>)>)
    ensures v.binding.Unbound? ==> r == Err(NotSupported(NotInitializedMessage))
    ensures v.binding.Local? ==> r == Ok((w, v.(binding := Local(x))))
    ensures r.Ok? ==> r.value.1.binding.Bound? == v.binding.Bound? && r.value.1.initialized == v.initialized
  {
    match v.binding
    case Unbound => Err(NotSupported(NotInitializedMessage))
    case Local(_) => Ok((w, v.(binding := Local(x))))
    case Bound(u) =>
      if u < |w.units| then
        match Write(w, u, v.name, x)
        case Ok(w') => Ok((w', v))
        case Err(e) => Err(e)
      else Err(NullReference)
  }

  /** The unit `u` has the variable's field. */
  predicate HasField<T>(w: World<T>, u: nat, name: string) {
    u < |w.units| && name !in w.units[u].forwards && name in w.units[u].statics && w.units[u].statics[name].Data?
  }

  /** Init: rebinds the variable to unit `u`. An initialised variable first
      copies its current value into the unit's field, so the value survives
      recompiling; a variable never initialised keeps the field's initial
      value. Afterwards the variable is bound and initialised. */
  function Init<T>(w: World<T>, v: LegacyVariable<T>, u: nat): (r: Result<(World<T>, LegacyVariable<T>)>)
    requires u < |w.units|
    ensures !HasField(w, u, v.name) ==> r == Err(NullReference)
    ensures r.Ok? ==> r.value.1 == v.(binding := Bound(u), initialized := true) && Valid(r.value.1)
    ensures r.Ok? ==> r.value.0.cells == w.cells && |r.value.0.units| == |w.units|
  {
    if !HasField(w, u, v.name) then Err(NullReference)
    else if v.initialized then
      match Get(w, v)
      case Err(e) => Err(e)
      case Ok(current) =>
        match Write(w, u, v.name, current)
        case Err(e) => Err(e)
        case Ok(w') => Ok((w', v.(binding := Bound(u), initialized := true)))
    else Ok((w, v.(binding := Bound(u), initialized := true)))
  }

  // ---------------------------------------------------------------------
  // Properties
  // ---------------------------------------------------------------------

  /** Before the first compile a variable created without a value refuses
      both reading and assigning. */
  lemma UnboundRefusesAccess<T>(w: World<T>, v: LegacyVariable<T>, x: T)
    requires v.binding.Unbound?
    ensures Get(w, v) == Err(NotSupported(NotInitializedMessage))
    ensures Set(w, v, x) == Err(NotSupported(NotInitializedMessage))
  {
  }

  /** Recompiling keeps the value: after Init into a unit with the field,
      an initialised variable reads what it read before. */
  lemma InitCarriesValue<T>(w: World<T>, v: LegacyVariable<T>, u: nat)
    requires u < |w.units| && HasField(w, u, v.name)
    requires v.initialized && Get(w, v).Ok?
    ensures Init(w, v, u).Ok?
    ensures Get(Init(w, v, u).value.0, Init(w, v, u).value.1) == Get(w, v)
  {
  }

  /** A variable never initialised takes the initial value of the field of
      the unit it is first bound to. */
  lemma FirstInitReadsField<T>(w: World<T>, v: LegacyVariable<T>, u: nat)
    requires u < |w.units| && HasField(w, u, v.name)
    requires !v.initialized
    ensures Init(w, v, u) == Ok((w, v.(binding := Bound(u), initialized := true)))
    ensures Get(Init(w, v, u).value.0, Init(w, v, u).value.1) == Ok(w.units[u].statics[v.name].value)
  {
  }

  /** Once bound, assigning and reading back agree. */
  lemma BoundSetGet<T>(w: World<T>, v: LegacyVariable<T>, x: T)
    requires v.binding.Bound? && HasField(w, v.binding.unit, v.name)
    ensures Set(w, v, x).Ok?
    ensures Get(Set(w, v, x).value.0, Set(w, v, x).value.1) == Ok(x)
  {
  }

  /** The limitation the later design removes: once a variable is bound to
      a newer unit, an assignment no longer reaches the older unit, whose
      compiled code keeps reading its own field. */
  lemma OlderUnitsGoStale<T>(w: World<T>, v: LegacyVariable<T>, x: T, older: nat, n: string)
    requires v.binding.Bound? && HasField(w, v.binding.unit, v.name)
    requires older < |w.units| && older != v.binding.unit
    ensures Set(w, v, x).Ok?
    ensures Read(Set(w, v, x).value.0, older, n) == Read(w, older, n)
  {
  }
}
