# ExpressoSharp, modelled in Dafny

ExpressoSharp compiles C# expression strings into delegates. Each
expression becomes one method of a generated class. Variables become
members of that class, and each method is bound back to a delegate of the
requested type. This project models the core of that pipeline as pure
Dafny functions and a few loop-based methods, and proves what each stage
promises:

- **Security access flags and the security walker** (`access.dfy`,
  `security.dfy`). A 32-bit flags mask checked with `HasFlag`. Unless the
  mask carries AllowAll, the walk over an expression tree rejects bare-identifier
  calls outside the Math whitelist, `.` member accesses and `.` member
  invocations that the mask does not allow.
- **Numeric-literal rewriter** (`rewriter.dfy`). When ForceNumericDouble is
  set, every numeric literal that is not a double becomes a double literal
  and nothing else changes.
- **Policy pass** (`policy.dfy`). Rewrite, then check, as a field
  initialiser goes through it.
- **Options** (`options.dfy`). The option records and their defaults.
- **Descriptors** (`parameter.dfy`, `method.dfy`, `field.dfy`,
  `property.dfy`, `variable.dfy`). The constructors of parameters,
  methods, unit-scoped fields and shared properties, with their error
  paths and the declarations they contribute.
- **Loading and linking** (`linkage.dfy`). A loaded unit is a map of
  static fields plus the forwarding properties. A shared property's value
  lives in a caller-owned cell. `PostCompilation` stores the cell's getter
  and setter into the property's two delegate slots.
- **Compiler** (`compiler.dfy`):
  - the referenced-assembly list;
  - the member order of the compilation unit;
  - how emit diagnostics are joined into a compile error;
  - `InitializeVariables`, `DelegateFromMethod`, `CompileExpressions` and
    `CompileExpression`.

  A trace of `Step`s records the order of the observable effects.
- **Legacy variable** (`legacy_variable.dfy`). The earlier
  `ExpressoVariable` design, whose value moves into the private static
  field of the last unit it was compiled into.

Failures that the library signals by throwing are modelled as values:
`Result`/`Outcome` carry an `Error`. That type has one constructor per
exception class a caller can observe (`errors.dfy`). A method's or a legacy
variable's parse failure is `Expresso.ParserException` (`ParserError`). A
field's is `ExpressoSharp.ExpressoParserException` (`ParseError`), which a
security rejection specialises. The two classes are unrelated.

Some things the code does differently from its documented design. The
model follows the code here. The one exception is the arity message of
`CreateNamedMethod`, which is listed under Findings and Left out:

- The getter and setter slot fields of a shared property are declared
  public static.
- The reference list is a de-duplicated set turned into a list. The
  dynamic-support assemblies are then appended, so they may repeat a
  location already present.
- `ExpressoMethod` applies neither the rewrite nor the security check. Only
  field initialisers go through the policy pass.
- The compiler reads each variable's dynamic flag through its options,
  while the variable interface exposes `IsDynamic` directly. Both are the
  one flag `Variable.IsDynamic`.
- `ExpressoMethod.CreateNamedMethod` calls a three-argument
  `ExpressoParameter` constructor that the parameter class does not
  declare. It is modelled by the options-taking constructor with the
  dynamic flag as its option.

## Model

| member | source | states |
|---|---|---|
| Errors.SecurityMessageInjective | ExpressoSharp/ExpressoSecurity.cs:18 | the rejection message names its identifier: equal messages mean equal identifiers |
| Errors.ReportedIffAny | ExpressoSharp/ExpressoCompiler.cs:188-192 | the joined message list is non-empty exactly when some diagnostic is an error or a warning promoted to one |
| Errors.ReportedMessagesAppend | ExpressoSharp/ExpressoCompiler.cs:190-192 | filtering the diagnostics keeps their order: it distributes over concatenation |
| Errors.SplitJoin | ExpressoSharp/ExpressoCompiler.cs:190-192 | joining single-line messages with "\n" can be undone by splitting at line breaks |
| Errors.JoinSplit | ExpressoSharp/ExpressoCompiler.cs:190-192 | every text is the "\n"-join of its lines, the other direction of the round trip |
| Syntax.ParseExpression | ExpressoSharp/ExpressoMethod.cs:75-81 | parsing succeeds exactly when no diagnostic is reported; a failure is a ParserError (`Expresso.ParserException`) whose message joins the reported ones |
| Access.NoneIsEmpty | ExpressoSharp/eExpressoSecurityAccess.cs:20 | every mask has the flag None, and None has no flag but itself |
| Access.NamedFlagsAreSingleBits | ExpressoSharp/eExpressoSecurityAccess.cs:25-36 | the three capabilities are the distinct bits 0, 1 and 2, together 0x07 |
| Access.AllowAllStrictlyContainsNamedFlags | ExpressoSharp/eExpressoSecurityAccess.cs:38-41 | AllowAll holds every named flag, but the three named flags together are not AllowAll |
| Access.AllowAllValues | ExpressoSharp/eExpressoSecurityAccess.cs:41 | only 0x7fffffff and the all-ones value -1 carry the AllowAll flag |
| Access.AllowAllIsEveryLowBit | ExpressoSharp/eExpressoSecurityAccess.cs:38-41 | a mask carries AllowAll exactly when each of its 31 low bits is set |
| Security.AllowedMethods | ExpressoSharp/ExpressoSecurity.cs:32-45 | the call whitelist is the Math method names exactly when AllowMathMethods is set, and empty for the zero mask |
| Security.WalkDecidesPermits | ExpressoSharp/ExpressoSecurity.cs:47-72 | the walk passes exactly when every visited node is permitted by the declarative policy; a rejection is a SecurityError naming a callee or member of the tree |
| Security.Check | ExpressoSharp/ExpressoSecurity.cs:23-30 | AllowAll skips the walk; otherwise the tree is accepted iff the policy permits it; a rejection is a parse-kind error naming an identifier of the tree |
| Security.NamedFlagsDoNotBypass | ExpressoSharp/ExpressoSecurity.cs:23-30 | mask 0x07 is walked and rejects a non-Math call that AllowAll lets through |
| Security.BareCallRule | ExpressoSharp/ExpressoSecurity.cs:55-60 | a bare call `f(...)` is rejected naming `f` unless AllowMathMethods is set and `f` is a Math name; then only its arguments decide |
| Security.MemberAccessRule | ExpressoSharp/ExpressoSecurity.cs:47-53 | a member access is rejected naming the member without AllowMemberAccess, and accepted with it whatever its receiver |
| Security.ReceiverNotInspected | ExpressoSharp/ExpressoSecurity.cs:47-53 | a call rejected on its own is accepted once it is the receiver of an allowed member access |
| Security.MemberInvocationRule | ExpressoSharp/ExpressoSecurity.cs:55-72 | a member invocation passes only with both AllowMemberInvokation and AllowMemberAccess; with both set only its arguments decide |
| Security.ArgumentsAreChecked | ExpressoSharp/ExpressoSecurity.cs:68-71 | every argument of an accepted invocation is accepted on its own |
| Security.CallFreeAlwaysAccepted | ExpressoSharp/ExpressoSecurity.cs:47-72 | a tree without invocations or member accesses is accepted under every mask |
| Security.NoneAcceptsExactly | ExpressoSharp/ExpressoSecurity.cs:36-39 | under the mask None a tree is accepted exactly when it has no bare-identifier call and no `.` member access |
| Rewriter.Visit | ExpressoSharp/ExpressoRewriter.cs:34-44 | the visitor keeps the tree's shape and names, only turns numeric literals double, and with the flag set leaves no non-double numeric literal |
| Rewriter.Rewrite | ExpressoSharp/ExpressoRewriter.cs:18-27 | without ForceNumericDouble the tree is returned unchanged; with it the result corresponds to the input and holds only double numeric literals |
| Rewriter.RewriteResultUnique | ExpressoSharp/ExpressoRewriter.cs:34-44 | correspondence plus double-only literals determine the rewritten tree uniquely |
| Rewriter.LiteralRule | ExpressoSharp/ExpressoRewriter.cs:36-43 | a numeric literal becomes a double literal under the flag; double and non-numeric literals are kept |
| Rewriter.RewriteIdempotent | ExpressoSharp/ExpressoRewriter.cs:18-44 | rewriting a rewritten tree changes nothing |
| Rewriter.CheckAfterRewrite | ExpressoSharp/ExpressoField.cs:95-96 | the security verdict and the named culprit are the same before and after the rewrite |
| Policy.Apply | ExpressoSharp/ExpressoField.cs:95-96 | the pass succeeds iff the parsed tree passes the check, yields the rewritten tree, and otherwise fails with the check's SecurityError |
| Policy.DefaultsAreInert | ExpressoSharp/ExpressoOptions.cs:36-60 | the default field and method options make the pass the identity and nothing dynamic |
| Parameter.NewParameter | ExpressoSharp/ExpressoParameter.cs:51-67 | fails with ArgumentError exactly when dynamic and not `object`; otherwise keeps name, type and options |
| Parameter.NewPlainParameter | ExpressoSharp/ExpressoParameter.cs:41-43 | the options-free constructor accepts every type, with non-dynamic options |
| Parameter.DeclarationMatchesType | ExpressoSharp/ExpressoParameter.cs:62-66 | the declared parameter is `dynamic` exactly when flagged and always erases to the parameter's type |
| Method.ArityMessageReportsNames | ExpressoSharp/ExpressoMethod.cs:39-42 | the corrected arity message reports the number of names in its "parameter names" place |
| Method.ArityMessageAsWrittenMisreports | ExpressoSharp/ExpressoMethod.cs:41 | the message as formatted reports 1 parameter name when 2 names are given for a one-parameter delegate |
| Method.NewMethod | ExpressoSharp/ExpressoMethod.cs:59-104 | a dynamic non-object return is an ArgumentError; otherwise it fails iff the expression does not parse; a void return gives an expression body and any other a return body of the declared or `dynamic` type; the declaration is public and declares each parameter's own declaration, in order |
| Method.ParametersFor | ExpressoSharp/ExpressoMethod.cs:44-52 | one parameter per name, typed after the delegate, dynamic iff objectsAsDynamic and the type is `object` |
| Method.CreateNamedMethod | ExpressoSharp/ExpressoMethod.cs:33-57 | an arity mismatch fails before parsing, with the corrected message that reports the number of names given; otherwise it fails, with a ParserError, iff the expression does not parse; a created method has the delegate's parameter and return types and the derived dynamic flags |
| Method.CreatedMethodMatchesDelegate | ExpressoSharp/ExpressoMethod.cs:85-103 | a created method's declaration erases to the delegate's parameter and return types, so looking it up by name and parameter types finds it; it is public and declares one parameter per given name, `dynamic` exactly where objectsAsDynamic meets an `object` type |
| Method.Create | ExpressoSharp/ExpressoMethod.cs:26-31 | an anonymous method is named "_" followed by the fresh token |
| Method.CreatedNamesDistinct | ExpressoSharp/ExpressoMethod.cs:26-31 | methods created with different tokens have different names |
| Field.NewField | ExpressoSharp/ExpressoField.cs:64-108 | a dynamic non-object field is an ArgumentError; an initialiser must parse, failing with an ExpressoParserException (`ParseError`), and pass the check of its own options, and initialises the single private static field in rewritten form |
| Field.DefaultFieldKeepsInitializer | ExpressoSharp/ExpressoField.cs:54-56 | with the default options every parsed initialiser is embedded exactly as parsed |
| Property.NewProperty | ExpressoSharp/ExpressoProperty.cs:31-95 | fails exactly when dynamic and not `object`; otherwise the slots are named `_get_{name}_{token}` and `_set_{name}_{token}` with one token, declared public static `Func`/`Action` fields of the variable's (or the dynamic) type, followed by the property forwarding to them |
| Property.SlotNamesUnique | ExpressoSharp/ExpressoProperty.cs:44-47 | a getter name is never a setter name, and different tokens of one length give different slot names |
| Property.BuiltSlotsDistinct | ExpressoSharp/ExpressoProperty.cs:44-47 | two shared variables built with different tokens of one length share no slot name, whatever their names |
| Variable.ConstructedFieldWellFormed | ExpressoSharp/ExpressoField.cs:64-108 | every field the constructor returns has the one-field shape the compiler relies on |
| Variable.ConstructedPropertyWellFormed | ExpressoSharp/ExpressoProperty.cs:31-95 | every shared variable the constructor returns has the slot-slot-property shape the compiler relies on, with slot names drawn from its token |
| Linkage.LoadEntry | ExpressoSharp/ExpressoCompiler.cs:196-198 | a uniquely named declaration is loaded as written: a field with its initial state, a property with its two slots |
| Linkage.NewSharedVariable | ExpressoSharp/ExpressoProperty.cs:27-42 | creating a shared variable adds one cell holding the given value or the type default, touching nothing else |
| Linkage.PostCompilation | ExpressoSharp/ExpressoProperty.cs:97-107 | a field needs nothing; a property fails iff a slot is missing, otherwise fills both slots with its cell's accessors, links the property and changes nothing else |
| Linkage.LinkedAccessesCell | ExpressoSharp/ExpressoProperty.cs:97-107 | compiled code reading or assigning a linked property reads or writes the caller's cell |
| Linkage.SharedAcrossUnits | ExpressoSharp/ExpressoProperty.cs:97-107 | a write through one linked unit, or through `Value`, is read back by every other linked unit |
| Linkage.FieldIsUnitLocal | ExpressoSharp/ExpressoField.cs:16-24 | assigning a field in one unit changes no cell and nothing another unit reads |
| Compiler.Distinct | ExpressoSharp/ExpressoCompiler.cs:128-134 | the hash-set list has exactly the input's elements, each once |
| Compiler.UsedTypesCover | ExpressoSharp/ExpressoCompiler.cs:128-132 | every parameter, return and variable type, and `object`, is a used type |
| Compiler.References | ExpressoSharp/ExpressoCompiler.cs:128-155 | every used type's assembly is referenced, the dynamic-support assemblies are added when something is dynamic, every entry is one of these, and nothing repeats otherwise |
| Compiler.CreateCompilationUnit | ExpressoSharp/ExpressoCompiler.cs:164-173 | one class with a static using of System.Math, the variables' declarations first, then one declaration per method, in order |
| Compiler.FlattenPlace | ExpressoSharp/ExpressoCompiler.cs:171 | each variable's declarations sit contiguously at its offset in the unit |
| Compiler.MemberCount | ExpressoSharp/ExpressoCompiler.cs:171 | a field contributes one declaration and a shared variable three |
| Compiler.Compile | ExpressoSharp/ExpressoCompiler.cs:175-194 | emitting succeeds exactly when no diagnostic is reported; a failure is a CompileError joining the reported messages |
| Compiler.CompileErrorListsDiagnostics | ExpressoSharp/ExpressoCompiler.cs:188-193 | a compile error's message splits back into the reported diagnostics, in order |
| Compiler.FindMethod | ExpressoSharp/ExpressoCompiler.cs:109-110 | the lookup finds the first declaration with the method's name and parameter types, or reports that none exists |
| Compiler.DelegateFromMethod | ExpressoSharp/ExpressoCompiler.cs:105-113 | binding fails with a null-argument error exactly when no declaration matches; a delegate has the method's delegate type and a matching target |
| Compiler.BindsOwnDeclaration | ExpressoSharp/ExpressoCompiler.cs:105-113 | with unique names a method's delegate is bound to its own declaration |
| Compiler.InitializeVariables | ExpressoSharp/ExpressoCompiler.cs:115-121 | PostCompilation runs for each variable in order; it fails iff some shared variable lacks a slot, and otherwise links each shared variable and leaves every other static alone |
| Compiler.SlotsOfWellFormedDisjoint | ExpressoSharp/ExpressoProperty.cs:83-94 | in a unit with unique names, no two shared variables share a slot and no getter is a setter |
| Compiler.SoundUnitLoaded | ExpressoSharp/ExpressoCompiler.cs:196-198 | a freshly loaded unit holds every variable as declared: forwards and slots for properties, initial values for fields |
| Compiler.LoadAndLink | ExpressoSharp/ExpressoCompiler.cs:83-86 | loading appends one unit and keeps the older ones; for a sound program linking cannot fail, every shared variable is linked and every field holds its initial value |
| Compiler.BindDelegates | ExpressoSharp/ExpressoCompiler.cs:88 | one delegate per method, in order, failing iff some method has no matching declaration |
| Compiler.CompileExpressions | ExpressoSharp/ExpressoCompiler.cs:81-89 | a compile error changes nothing; success traces emit, then each PostCompilation, then each extraction; for a sound program each delegate binds its own method and every variable is live in the new unit |
| Compiler.CompileExpression | ExpressoSharp/ExpressoCompiler.cs:42-52 | the single-method pipeline returns its one delegate, bound to the method's own declaration for a sound program |
| Legacy.NewBase | Expresso/ExpressoVariable.cs:39-99 | a dynamic non-object variable is an ArgumentError; an initialiser must parse, failing with a ParserError, and is embedded unchecked; the property is named after the token and reads its own field |
| Legacy.CreateWithInitializer | Expresso/ExpressoVariable.cs:27-28 | a variable created without a value starts unbound and uninitialised |
| Legacy.CreateWithValue | Expresso/ExpressoVariable.cs:119-128 | a variable created with a value holds it itself and counts as initialised |
| Legacy.Get | Expresso/ExpressoVariable.cs:104-111 | reading an unbound variable throws NotSupported; a locally held value is returned |
| Legacy.Set | Expresso/ExpressoVariable.cs:104-111 | assigning an unbound variable throws NotSupported; a local value is replaced; binding and initialisation are kept |
| Legacy.Init | Expresso/ExpressoVariable.cs:130-148 | a unit without the field fails; otherwise the variable is bound to the unit and marked initialised |
| Legacy.UnboundRefusesAccess | Expresso/ExpressoVariable.cs:110-111 | before the first compile an uninitialised variable refuses reading and assigning |
| Legacy.InitCarriesValue | Expresso/ExpressoVariable.cs:137-142 | recompiling an initialised variable carries its current value into the new unit |
| Legacy.FirstInitReadsField | Expresso/ExpressoVariable.cs:138-147 | a never-initialised variable takes the new unit's field's initial value |
| Legacy.BoundSetGet | Expresso/ExpressoVariable.cs:144-145 | once bound, a value assigned is read back |
| Legacy.OlderUnitsGoStale | Expresso/ExpressoVariable.cs:144-145 | after rebinding, assignments no longer reach an older unit's field |

## Left out

- Roslyn parsing, emitting, reflection and `Assembly.Load` are outside the model. The parser, the emitter, the assembly location of a type and the evaluation of a static initialiser are parameters (`parse`, `Toolchain`, `eval`).
- GUID generation is a `token` parameter. Uniqueness of names is an assumption that `Compiler.Sound` states, not something proved of GUIDs.
- Loading System.Runtime is an `Option` in `Toolchain.systemRuntime`. `None` stands for the swallowed `FileNotFoundException`.
- Running compiled expressions is reduced to reading and assigning variable names (`Linkage.Read`, `Linkage.Write`). Expression evaluation, floating point and `Convert.ToDouble` are not modelled.
- The order of the assembly hash set is unspecified in .NET. `Compiler.Distinct` keeps first occurrences in input order.
- `Compiler.Compile`: emit success is modelled as "no diagnostic is reported". The case where Roslyn fails without reporting an error-level diagnostic is not modelled.
- `Compiler.DelegateFromMethod`: `Delegate.CreateDelegate` is assumed to succeed whenever the lookup finds a method. Its own signature and return-type compatibility checks, and closing over a null target, are not modelled. `Method.CreatedMethodMatchesDelegate` shows that created methods carry the delegate's signature.
- `Legacy.Init`: the legacy property is represented by the private static field it reads and assigns. Delegates are not created from its accessors, and a unit without the field stands for the failed property lookup.
- `Method.CreateNamedMethod`: on an arity mismatch the error carries the corrected message `ArityMessage(names, parameters)`. The program formats the two counts the other way round, which is `Method.ArityMessageAsWritten` (see Findings).
- `Security.NoneAcceptsExactly`: the walker only visits `.` member accesses and invocations. A conditional access (`x?.GetType()`, `s?.Length`) and an object creation (`new System.IO.StreamWriter("f")`) are `Other` nodes in the model, and they pass under every mask, as they do in the program. The model does not claim that such trees are rejected.
- `Prime`, the overloads that differ only by default arguments, and the option-less `CompileExpressions` overload are instances of the modelled entry points, so they are not modelled separately.
- `ExpressoMethod<T>` and the options-taking `CompileExpression` overload construct an `ExpressoMethod<T>`. That class is not part of this model, so method options other than `ReturnsDynamic` come only from the defaults.
- The example programs, the test project and the superseded top-level copies of the compiler, method and parameter files are not part of this model.
- Thread safety and concurrent compilation are not modelled.

## Findings

| source | as written | input that shows it | evidently intended | confidence | as-written member | corrected member |
|---|---|---|---|---|---|---|
| ExpressoSharp/ExpressoMethod.cs:41 | the arity message puts the delegate's parameter count in the "Number of parameter names (...)" place and the number of names in the "delegate type (...)" place | `Action<int>` with parameter names "a", "b": the message says 1 parameter name and a delegate of 2 parameters | the number of names in the first place and the delegate's parameter count in the second | not executed | Method.ArityMessageAsWrittenMisreports | Method.CreateNamedMethod |
