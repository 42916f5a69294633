/** What a compiled unit looks like once loaded, and how variables are
    linked to it. A unit holds its static fields (value fields, and the
    getter/setter delegate slots of shared variables) and its forwarding
    properties. The value of a shared variable lives in a cell owned by the
    caller, outside every unit; a unit reaches it only through its slots. */
module Linkage {
  import opened Errors
  import opened Syntax
  import P = Property
  import V = Variable

  /** The content of a static field of a loaded unit. */
  datatype Static<T> = Data(value: T) | NullDelegate | GetterOf(cell: nat) | SetterOf(cell: nat)

  /** A loaded unit: its static fields by name, and for each property the
      names of the getter and setter slots it invokes. */
  datatype Unit<T> = Unit(statics: map<string, Static<T>>, forwards: map<string, (string, string)>)

  /** The caller-owned cells of the shared variables and every unit loaded
      so far; a unit is known by its index. */
  datatype World<T> = World(cells: seq<T>, units: seq<Unit<T>>)

  function EmptyUnit<T>(): Unit<T> {
    Unit(map[], map[])
  }

  /** The state one declaration contributes when the unit is loaded: a value
      field holds its initial value, a delegate slot starts out null. */
  function StaticOf<T>(ft: FieldType, init: Option<Expr>, eval: (FieldType, Option<Expr>) -> T): Static<T> {
    if ft.ValueOf? then Data(eval(ft, init)) else NullDelegate
  }

  function AddMember<T>(u: Unit<T>, m: MemberDecl, eval: (FieldType, Option<Expr>) -> T): Unit<T> {
    match m
    case FieldDecl(_, ft, n, init) => u.(statics := u.statics[n := StaticOf(ft, init, eval)])
    case PropertyDecl(_, _, n, g, s) => u.(forwards := u.forwards[n := (g, s)])
    case MethodDecl(_, _, _, _, _) => u
  }

  function LoadFrom<T>(u: Unit<T>, ms: seq<MemberDecl>, eval: (FieldType, Option<Expr>) -> T): Unit<T>
    decreases |ms|
  {
    if |ms| == 0 then u else LoadFrom(AddMember(u, ms[0], eval), ms[1..], eval)
  }

  /** Loading a unit runs the static initialisers; `eval` stands for the
      evaluation of an initialiser (or the type's default value when there
      is none). */
  function Load<T>(ms: seq<MemberDecl>, eval: (FieldType, Option<Expr>) -> T): Unit<T> {
    LoadFrom(EmptyUnit(), ms, eval)
  }

  predicate NotDeclared(ms: seq<MemberDecl>, n: string) {
    forall k :: 0 <= k < |ms| ==> ms[k].declName != n
  }

  /** Every declaration has a name of its own. */
  predicate DistinctDeclNames(ms: seq<MemberDecl>) {
    forall i, j :: 0 <= i < j < |ms| ==> ms[i].declName != ms[j].declName
  }

  /** A name no declaration uses keeps whatever the unit had for it. */
  lemma {:induction false} LoadKeeps<T>(u: Unit<T>, ms: seq<MemberDecl>, eval: (FieldType, Option<Expr>) -> T, n: string)
    requires NotDeclared(ms, n)
    ensures n in LoadFrom(u, ms, eval).statics <==> n in u.statics
    ensures n in u.statics ==> LoadFrom(u, ms, eval).statics[n] == u.statics[n]
    ensures n in LoadFrom(u, ms, eval).forwards <==> n in u.forwards
    ensures n in u.forwards ==> LoadFrom(u, ms, eval).forwards[n] == u.forwards[n]
    decreases |ms|
  {
    if |ms| > 0 {
      assert ms[0].declName != n;
      LoadKeeps(AddMember(u, ms[0], eval), ms[1..], eval, n);
    }
  }

  /** A declaration whose name is its own is loaded as written: a field with
      its initial state, a property with its two slots. */
  lemma {:induction false} LoadEntry<T>(u: Unit<T>, ms: seq<MemberDecl>, eval: (FieldType, Option<Expr>) -> T, k: nat)
    requires k < |ms|
    requires forall j :: 0 <= j < |ms| && j != k ==> ms[j].declName != ms[k].declName
    ensures ms[k].FieldDecl? ==>
      ms[k].declName in LoadFrom(u, ms, eval).statics
      && LoadFrom(u, ms, eval).statics[ms[k].declName] == StaticOf(ms[k].fieldType, ms[k].initializer, eval)
    ensures ms[k].PropertyDecl? ==>
      ms[k].declName in LoadFrom(u, ms, eval).forwards
      && LoadFrom(u, ms, eval).forwards[ms[k].declName] == (ms[k].getterSlot, ms[k].setterSlot)
    decreases |ms|
  {
    if k == 0 {
      assert forall j :: 0 <= j < |ms[1..]| ==> ms[1..][j] == ms[j + 1];
      LoadKeeps(AddMember(u, ms[0], eval), ms[1..], eval, ms[0].declName);
    } else {
      assert ms[1..][k - 1] == ms[k];
      assert forall j :: 0 <= j < |ms[1..]| ==> ms[1..][j] == ms[j + 1];
      LoadEntry(AddMember(u, ms[0], eval), ms[1..], eval, k - 1);
    }
  }

  /** Only property declarations create forwards. */
  lemma {:induction false} LoadForwardsDeclared<T>(u: Unit<T>, ms: seq<MemberDecl>, eval: (FieldType, Option<Expr>) -> T, n: string)
    requires n in LoadFrom(u, ms, eval).forwards
    ensures n in u.forwards || exists k :: 0 <= k < |ms| && ms[k].PropertyDecl? && ms[k].declName == n
    decreases |ms|
  {
    if |ms| > 0 {
      var u1 := AddMember(u, ms[0], eval);
      LoadForwardsDeclared(u1, ms[1..], eval, n);
      if exists k :: 0 <= k < |ms[1..]| && ms[1..][k].PropertyDecl? && ms[1..][k].declName == n {
        var k :| 0 <= k < |ms[1..]| && ms[1..][k].PropertyDecl? && ms[1..][k].declName == n;
        assert ms[k + 1] == ms[1..][k];
      }
    }
  }

  // ---------------------------------------------------------------------
  // Running compiled code
  // ---------------------------------------------------------------------

  /** Compiled code reading a variable name of unit `u`: a property invokes
      its getter slot (a null slot throws), a field returns its own value. */
  function Read<T>(w: World<T>, u: nat, name: string): Result<T>
    requires u < |w.units|
  {
    var unit := w.units[u];
    if name in unit.forwards then
      var slot := unit.forwards[name].0;
      if slot in unit.statics && unit.statics[slot].GetterOf? && unit.statics[slot].cell < |w.cells|
      then Ok(w.cells[unit.statics[slot].cell])
      else Err(NullReference)
    else if name in unit.statics && unit.statics[name].Data? then Ok(unit.statics[name].value)
    else Err(NullReference)
  }

  /** Compiled code assigning a variable name of unit `u`: a property invokes
      its setter slot, which stores into the caller's cell; a field is
      overwritten inside the unit. */
  function Write<T>(w: World<T>, u: nat, name: string, x: T): Result<World<T>>
    requires u < |w.units|
  {
    var unit := w.units[u];
    if name in unit.forwards then
      var slot := unit.forwards[name].1;
      if slot in unit.statics && unit.statics[slot].SetterOf? && unit.statics[slot].cell < |w.cells|
      then Ok(w.(cells := w.cells[unit.statics[slot].cell := x]))
      else Err(NullReference)
    else if name in unit.statics && unit.statics[name].Data? then
      Ok(w.(units := w.units[u := unit.(statics := unit.statics[name := Data(x)])]))
    else Err(NullReference)
  }

  /** The `Value` property of a shared variable, read and assigned by the
      caller. */
  function ValueOf<T>(w: World<T>, p: P.Property): T
    requires p.cell < |w.cells|
  {
    w.cells[p.cell]
  }

  function SetValue<T>(w: World<T>, p: P.Property, x: T): World<T>
    requires p.cell < |w.cells|
  {
    w.(cells := w.cells[p.cell := x])
  }

  /** The shared-variable constructor together with its `Value` cell: a
      new cell, holding the given value or else the type's default; the
      existing cells and units are untouched. */
  function NewSharedVariable<T>(w: World<T>, isDynamic: bool, name: string, t: Type, token: string,
                                value: Option<T>, typeDefault: T): (r: Result<(World<T>, P.Property)>)
    ensures r.Err? <==> isDynamic && t != Object
    ensures r.Err? ==> r.error == ArgumentError(P.DynamicPropertyMessage)
    ensures r.Ok? ==>
      var (w', p) := r.value;
      && p.cell == |w.cells|
      && |w'.cells| == |w.cells| + 1 && w'.cells[..|w.cells|] == w.cells && w'.units == w.units
      && ValueOf(w', p) == (if value.Some? then value.value else typeDefault)
      && P.NewProperty(isDynamic, name, t, token, |w.cells|) == Ok(p)
  {
    var p :- P.NewProperty(isDynamic, name, t, token, |w.cells|);
    Ok((w.(cells := w.cells + [value.GetOr(typeDefault)]), p))
  }

  /** Property `p` is wired into unit `u`: its forwarding property invokes
      two slots that hold the getter and setter of p's cell. */
  predicate Linked<T>(w: World<T>, u: nat, p: P.Property) {
    && u < |w.units|
    && p.cell < |w.cells|
    && p.name in w.units[u].forwards
    && w.units[u].forwards[p.name] == (p.getterName, p.setterName)
    && p.getterName in w.units[u].statics
    && w.units[u].statics[p.getterName] == GetterOf(p.cell)
    && p.setterName in w.units[u].statics
    && w.units[u].statics[p.setterName] == SetterOf(p.cell)
  }

  /** Two units agree on their forwards and on which statics exist. */
  predicate SameShape<T>(a: Unit<T>, b: Unit<T>) {
    && a.forwards == b.forwards
    && a.statics.Keys == b.statics.Keys
  }

  /** PostCompilation: a field variable needs nothing; a shared variable
      stores the getter and setter of its cell into its two slots of the
      loaded unit, failing with a null reference when a slot is missing.
      Nothing else in the world changes. */
  function PostCompilation<T>(w: World<T>, u: nat, v: V.Variable): (r: Result<World<T>>)
    requires u < |w.units|
    ensures v.FieldVariable? ==> r == Ok(w)
    ensures v.PropertyVariable? ==>
      (r.Ok? <==> v.property.getterName in w.units[u].statics && v.property.setterName in w.units[u].statics)
    ensures r.Ok? ==>
      && r.value.cells == w.cells
      && |r.value.units| == |w.units|
      && (forall j :: 0 <= j < |w.units| && j != u ==> r.value.units[j] == w.units[j])
      && SameShape(r.value.units[u], w.units[u])
    ensures r.Ok? && v.PropertyVariable? ==>
      var p := v.property;
      && (p.getterName != p.setterName ==> r.value.units[u].statics[p.getterName] == GetterOf(p.cell))
      && r.value.units[u].statics[p.setterName] == SetterOf(p.cell)
      && (forall n :: n in w.units[u].statics && n != p.getterName && n != p.setterName ==>
            r.value.units[u].statics[n] == w.units[u].statics[n])
    ensures r.Ok? && v.PropertyVariable? && v.property.cell < |w.cells|
            && v.property.getterName != v.property.setterName
            && v.property.name in w.units[u].forwards
            && w.units[u].forwards[v.property.name] == (v.property.getterName, v.property.setterName) ==>
      Linked(r.value, u, v.property)
  {
    match v
    case FieldVariable(_) => Ok(w)
    case PropertyVariable(p) =>
      var unit := w.units[u];
      if p.getterName !in unit.statics || p.setterName !in unit.statics then Err(NullReference)
      else
        var statics := unit.statics[p.getterName := GetterOf(p.cell)][p.setterName := SetterOf(p.cell)];
        Ok(w.(units := w.units[u := unit.(statics := statics)]))
  }

  // ---------------------------------------------------------------------
  // Properties of linking
  // ---------------------------------------------------------------------

  /** Once linked, compiled code reads the caller's cell and writes into it,
      and nothing but that cell changes. */
  lemma LinkedAccessesCell<T>(w: World<T>, u: nat, p: P.Property, x: T)
    requires Linked(w, u, p)
    requires p.getterName != p.setterName
    ensures Read(w, u, p.name) == Ok(ValueOf(w, p))
    ensures Write(w, u, p.name, x) == Ok(SetValue(w, p, x))
  {
  }

  /** The point of the cell: every unit linked to the same variable sees a
      write made through any of them, and through the caller's `Value`. */
  lemma SharedAcrossUnits<T>(w: World<T>, u1: nat, u2: nat, p: P.Property, x: T)
    requires Linked(w, u1, p) && Linked(w, u2, p)
    requires p.getterName != p.setterName
    ensures Write(w, u1, p.name, x).Ok?
    ensures Linked(Write(w, u1, p.name, x).value, u2, p)
    ensures Read(Write(w, u1, p.name, x).value, u2, p.name) == Ok(x)
    ensures Read(SetValue(w, p, x), u2, p.name) == Ok(x)
  {
    LinkedAccessesCell(w, u1, p, x);
    LinkedAccessesCell(SetValue(w, p, x), u2, p, x);
  }

  /** A field variable is private to its unit: assigning it in one unit
      changes no cell and nothing any other unit can read. */
  lemma FieldIsUnitLocal<T>(w: World<T>, u: nat, name: string, x: T, other: nat, n: string)
    requires u < |w.units| && other < |w.units| && other != u
    requires name !in w.units[u].forwards
    requires name in w.units[u].statics && w.units[u].statics[name].Data?
    ensures Write(w, u, name, x).Ok?
    ensures Write(w, u, name, x).value.cells == w.cells
    ensures Read(Write(w, u, name, x).value, u, name) == Ok(x)
    ensures Read(Write(w, u, name, x).value, other, n) == Read(w, other, n)
  {
  }
}
