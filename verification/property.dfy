/** Shared variables: the caller owns a value cell, and the generated class
    gets a public static property that forwards reads and writes to two
    injected delegate slots, linked to that cell after each compile. */
module Property {
  import opened Errors
  import opened Syntax

  /** `cell` identifies the caller-owned `Value` storage of the variable. */
  datatype Property = Property(name: string, propertyType: Type, isDynamic: bool, cell: nat,
                               getterName: string, setterName: string, syntaxNodes: seq<MemberDecl>)

  const DynamicPropertyMessage := "The type parameter must be System.Object when isDynamic is set to true"

  function GetterName(name: string, token: string): string {
    "_get_" + name + "_" + token
  }

  function SetterName(name: string, token: string): string {
    "_set_" + name + "_" + token
  }

  /** The three declarations of a shared variable, in order: the getter
      slot, the setter slot, and the property forwarding to them. */
  function PropertyNodes(name: string, t: Type, isDynamic: bool, getter: string, setter: string): seq<MemberDecl> {
    var typeRef := SlotType(isDynamic, t);
    [ FieldDecl([Public, Static], FuncOf(typeRef), getter, None),
      FieldDecl([Public, Static], ActionOf(typeRef), setter, None),
      PropertyDecl([Public, Static], typeRef, name, getter, setter) ]
  }

  /** The property constructor: a dynamic property must have type `object`;
      the slot names `_get_{name}_{token}` and `_set_{name}_{token}` share one
      fresh token, both slots are public static delegate fields of the
      variable's (or the dynamic) type, and the property forwards reads to
      the getter slot and writes to the setter slot. */
  function NewProperty(isDynamic: bool, name: string, t: Type, token: string, cell: nat): (r: Result<Property>)
    ensures r.Err? <==> isDynamic && t != Object
    ensures r.Err? ==> r.error == ArgumentError(DynamicPropertyMessage)
    ensures r.Ok? ==>
      var p := r.value;
      && p.name == name && p.propertyType == t && p.isDynamic == isDynamic && p.cell == cell
      && p.getterName == GetterName(name, token) && p.setterName == SetterName(name, token)
      && p.getterName != p.setterName
      && |p.syntaxNodes| == 3
      && p.syntaxNodes[0] == FieldDecl([Public, Static], FuncOf(SlotType(isDynamic, t)), p.getterName, None)
      && p.syntaxNodes[1] == FieldDecl([Public, Static], ActionOf(SlotType(isDynamic, t)), p.setterName, None)
      && p.syntaxNodes[2] == PropertyDecl([Public, Static], SlotType(isDynamic, t), name, p.getterName, p.setterName)
  {
    if isDynamic && t != Object then Err(ArgumentError(DynamicPropertyMessage))
    else
      var getter := GetterName(name, token);
      var setter := SetterName(name, token);
      assert getter[1] == 'g' && setter[1] == 's';
      Ok(Property(name, t, isDynamic, cell, getter, setter, PropertyNodes(name, t, isDynamic, getter, setter)))
  }

  /** Slot names never collide: a getter name is never a setter name, and
      two properties built with different tokens of one fixed length (as
      GUIDs are) have different slot names whatever their variable names. */
  lemma SlotNamesUnique(n1: string, t1: string, n2: string, t2: string)
    requires |t1| == |t2| && t1 != t2
    ensures GetterName(n1, t1) != SetterName(n2, t2)
    ensures GetterName(n1, t1) != GetterName(n2, t2)
    ensures SetterName(n1, t1) != SetterName(n2, t2)
  {
    assert GetterName(n1, t1)[1] == 'g' && SetterName(n2, t2)[1] == 's';
    var g1, g2 := GetterName(n1, t1), GetterName(n2, t2);
    if |g1| == |g2| {
      assert g1[|g1| - |t1|..] == t1 && g2[|g2| - |t2|..] == t2;
    }
    var s1, s2 := SetterName(n1, t1), SetterName(n2, t2);
    if |s1| == |s2| {
      assert s1[|s1| - |t1|..] == t1 && s2[|s2| - |t2|..] == t2;
    }
  }

  /** Two shared variables built with different tokens of one length never
      share a slot name, whatever their variable names. */
  lemma BuiltSlotsDistinct(d1: bool, n1: string, ty1: Type, tok1: string, c1: nat,
                           d2: bool, n2: string, ty2: Type, tok2: string, c2: nat)
    requires NewProperty(d1, n1, ty1, tok1, c1).Ok? && NewProperty(d2, n2, ty2, tok2, c2).Ok?
    requires |tok1| == |tok2| && tok1 != tok2
    ensures var p1, p2 := NewProperty(d1, n1, ty1, tok1, c1).value, NewProperty(d2, n2, ty2, tok2, c2).value;
      && p1.getterName != p2.getterName && p1.setterName != p2.setterName
      && p1.getterName != p2.setterName && p1.setterName != p2.getterName
  {
    SlotNamesUnique(n1, tok1, n2, tok2);
    SlotNamesUnique(n2, tok2, n1, tok1);
  }
}
