# A model of generic substitution, runtime views and interface mapping in a Mono.Cecil fork

Mono.Cecil reads and writes .NET assemblies. Its object model describes types,
methods, fields, properties and events as *references* into module metadata. This
fork adds three things on top of that model, and this project models them:

- `ApplyTypeArguments`, a substitution engine over the type-specification tree.
  The tree's node kinds are pointer, pinned, sentinel, optional and required
  modifier, generic instance and function pointer. A node hands back *itself* when
  nothing under it changes. It builds a new node of the same kind only when a child
  changed.
- `GetRuntimeReference` on every kind of member. It decides whether a member can be
  used as it is, or must be wrapped in a *constructed* view. A constructed view
  substitutes the member's signature under a generic context. The views are
  `ConstructedMethodReference` and `ConstructedFieldReference`. The read-through
  specifications `MethodSpecification` and `GenericInstanceMethod` are modelled too.
- The "rocks" helpers. `InterfaceMethodMapper` computes the equivalent of .NET's
  `Type.GetInterfaceMap()`. `TypeDefinitionRocks` wraps it in `GetInterfaceMapping`
  and adds the LINQ-style queries `GetConstructors`, `GetMethods`,
  `GetStaticConstructor`, `GetField`, `GetProperty` and `GetEnumUnderlyingType`.

Alongside these, the project models:

- the name formatting: `FullName`, `Name` and `MethodSignatureFullName`;
- the parameter bookkeeping of `ParameterReferenceCollection` and
  `ModuleMethodReference`.

## How the model is laid out

| file | module | contents |
|---|---|---|
| `wrappers.dfy` | `Wrappers` | `Option`, `Result`, and the exceptions the source throws, as `Error` values |
| `text.dfy` | `Text` | the comma-separated list that argument and parameter lists share |
| `type_nodes.dfy` | `TypeNodes` | the type-specification tree as a datatype; `ContainsGenericParameter`, `Name`, `FullName`; constructor checks, setters and the function-pointer delegation |
| `substitution.dfy` | `Substitution` | the generic context and `ApplyTypeArguments` (`Apply`), plus its laws |
| `signatures.dfy` | `Signatures` | `HasImplicitThis`, `MethodSignatureFullName`, `GetSentinelPosition`, `IsVarArg` |
| `methods.dfy` | `Methods` | method references as values: read-through specifications, constructed views, generic contexts, runtime views, full names |
| `parameters.dfy` | `MethodParameters` | the classes `ParameterReference`, `ParameterCollection` and `ModuleMethodReference` |
| `members.dfy` | `Members` | the member name and the runtime-view decision shared by fields, properties and events |
| `fields.dfy` | `Fields` | the class `FieldReference`, whose constructed view wraps another field object |
| `properties.dfy` | `Properties` | property references |
| `events.dfy` | `Events` | event references |
| `interface_mapper.dfy` | `InterfaceMapper` | the implementation search and the class holding the two mapping lists |
| `type_definition_rocks.dfy` | `TypeDefinitionRocks` | `GetInterfaceMapping` and the queries over a type definition |

Modelling choices that a reader of the source should know:

- Substitution returns `Option<TypeNode>`. `None` stands for "the node itself" (the
  source's identity test `x == this`). `Some(n)` stands for a newly built node `n`.
  `Applied(t, ctx)` is the node that results either way.
- A generic context is the object it came from (`TypeObject`, `MethodObject` or
  `OtherObject`), its instance type, and a finite map from generic parameters to
  their arguments. A generic parameter is looked up in that map. `ctx == this` and
  `ctx == DeclaringType` compare the context's object.
- Object identity, where the source relies on it, is an `id` number. This covers
  methods, fields and the definitions a resolver hands back.
- Pointer, pinned and sentinel nodes carry their own `HasGenericParameters` flag.
  That flag is what their `ApplyTypeArguments` tests (Mono.Cecil/PointerType.cs:45),
  not `ContainsGenericParameter`. A node built by substitution has the flag off.
- Method references are values with three shapes: `ModuleMethod`,
  `GenericInstanceMethod` and `Constructed`. Their derived properties are functions
  over those shapes. `ModuleMethodReference` and its parameter collection are
  classes as well, because the collection's hooks update the parameters in place.
- `FieldReference` is a class. A constructed view is another `FieldReference` whose
  `underlying` points at the wrapped one, and its `Name` reads and writes through.
- The mapper is generic over method handles `M` and type handles `T`. A `World`
  holds the metadata as functions: resolution, visibility, overrides, `MethodsMatch`,
  `AreSame`, `GetMethods` and `GetBaseType`. A rank that falls along base-type links
  (`Acyclic`) gives termination.
- Every exception becomes an `Err` with the matching `Error` value. A read through a
  null reference is `NullReference`.

## Model

| member | source | states |
|---|---|---|
| TypeNodes.SetDeclaringType | Mono.Cecil/GenericInstanceType.cs:31-34 | setting the declaring type of a generic instance fails with NotSupported; elsewhere the new node reports the declaring type set and keeps its name and value-type flag |
| TypeNodes.SetIsValueType | Mono.Cecil/PointerType.cs:27-30 | the IsValueType setter of a pointer, pinned or sentinel node fails with InvalidOperation (as do the modifier setters, Mono.Cecil/Modifiers.cs:43-46); a named type or generic instance reads back the value set |
| TypeNodes.NewPointer | Mono.Cecil/PointerType.cs:19-41 | a null element is refused with ArgumentNull; a pointer's Name and FullName are its element's with "*" appended, and it is never a value type |
| TypeNodes.NewPinned | Mono.Cecil/PinnedType.cs:19-33 | a null element is refused; a pinned node wraps its element, shows the element's full name and is never a value type |
| TypeNodes.NewSentinel | Mono.Cecil/SentinelType.cs:19-33 | a null element is refused; a sentinel wraps its element, shows the element's full name and is never a value type |
| TypeNodes.NewOptionalModifier | Mono.Cecil/Modifiers.cs:56-64 | fails with ArgumentNull exactly when the modifier or the element is null, and otherwise builds the modopt node over the two |
| TypeNodes.NewRequiredModifier | Mono.Cecil/Modifiers.cs:115-123 | fails with ArgumentNull exactly when the modifier or the element is null, and otherwise builds the modreq node over the two |
| TypeNodes.NewGenericInstance | Mono.Cecil/GenericInstanceType.cs:65-77 | reading a null element fails; the instance wraps the element, takes the given arguments (none when the list is absent) and copies the element's value-type flag |
| TypeNodes.NewFunctionPointer | Mono.Cecil/FunctionPointerType.cs:93-99 | a new function pointer wraps a method named "method" with no parameters and neither this flag; its return type, null in the source, is the parameter here (see Left out) |
| TypeNodes.FunctionPointerNamespace | Mono.Cecil/FunctionPointerType.cs:59-62 | a function pointer's namespace is always empty |
| TypeNodes.SetFunctionPointerName | Mono.Cecil/FunctionPointerType.cs:54-71 | renaming a function pointer, or setting its namespace or scope, always fails with InvalidOperation |
| TypeNodes.SetFunctionPointerProperty | Mono.Cecil/FunctionPointerType.cs:22-52 | HasThis, ExplicitThis, CallingConvention and ReturnType write through to the wrapped method: the one written changes and every other part of the method stays as it was |
| TypeNodes.FunctionPointerResolve | Mono.Cecil/FunctionPointerType.cs:101-104 | a function pointer resolves to no definition |
| TypeNodes.GetElementType | Mono.Cecil/FunctionPointerType.cs:106-109 | a function pointer, a named type and a generic parameter are their own element type; the innermost element is never a pointer, pinned, sentinel or modifier node |
| TypeNodes.ModifierNamesDiffer | Mono.Cecil/Modifiers.cs:31-41 | an optional and a required modifier over the same parts never share a Name or a FullName |
| TypeNodes.ModifierFullNameShape | Mono.Cecil/Modifiers.cs:35-41 | a modifier's full name starts with the element's full name and ends with " modopt(" or " modreq(", the modifier's full name and ")" |
| TypeNodes.GenericInstanceFullNameShape | Mono.Cecil/GenericInstanceType.cs:36-47 | (the AngleListed predicate) a generic instance's full name is the element's full name, "<", the arguments' full names separated by commas, then ">", with the matching length; no arguments give `E<>` and one argument exactly `E<A>` |
| TypeNodes.GenericInstanceSnoc | Mono.Cecil/GenericInstanceType.cs:42-47 | one more argument goes in front of the closing ">", after a comma unless it is the first, so the arguments stand in the name in their order |
| TypeNodes.FunctionPointerFullNameShape | Mono.Cecil/FunctionPointerType.cs:81-91 | a function pointer's full name is its method's name, a space, the return type's full name, " *" and the parenthesised parameter list, so it is longer than the name and the return type together |
| Substitution.Apply | Mono.Cecil/GenericInstanceType.cs:79-103 | only a node that contains a generic parameter is ever rebuilt; a named type or function pointer never is; a rebuilt node keeps its kind; a rebuilt generic instance keeps its element and its number of arguments |
| Substitution.ApplyGenericInstanceType | Mono.Cecil/GenericInstanceType.cs:79-103 | the source's loop over the arguments with its `any_different` flag computes the same answer as Apply; the instance is handed back itself exactly when it mentions no generic parameter or every argument comes back itself (`List<T>` with `T` unbound, say); a new instance keeps the same element, and its argument i is argument i substituted |
| Substitution.ClosedIsUnchanged | Mono.Cecil/GenericInstanceType.cs:87 | a node that mentions no generic parameter is handed back itself under every context (for modifiers the same guard, Mono.Cecil/Modifiers.cs:68) |
| Substitution.ClosedResultIsStable | Mono.Cecil/GenericInstanceType.cs:87-99 | once substitution has left no generic parameter, substituting again under any context changes nothing |
| Substitution.EmptyContextIsUnchanged | Mono.Cecil/GenericInstanceType.cs:89-99 | with no arguments bound, every node comes back unchanged, because every child does |
| Substitution.ModifierSubstitution | Mono.Cecil/Modifiers.cs:66-77 | a modifier node is rebuilt exactly when its modifier or its element changes, and then over the substituted modifier and element |
| Substitution.SimpleSpecificationGuard | Mono.Cecil/PointerType.cs:43-51 | pointer, pinned and sentinel nodes whose own HasGenericParameters is false come back unchanged whatever they wrap; otherwise they are rebuilt exactly when their element changes |
| Substitution.PointerExample | Mono.Cecil/PointerType.cs:43-51 | under `T -> System.Int32`, a `T*` node whose own HasGenericParameters flag is set becomes a new `System.Int32*`; a `T*` node with the flag off, which is what NewPointer builds, comes back itself |
| Substitution.PartialBindingExample | Mono.Cecil/GenericInstanceType.cs:89-102 | in `Pair<T, U>` with only `U` bound (to `System.String`), the result is a new instance over the same element whose arguments are the original `T` node and `System.String`, in that order |
| Signatures.MethodSignatureFullName | Mono.Cecil/IMethodSignature.cs:49-68 | the StringBuilder loop produces the parenthesised, comma-separated parameter list, with "...," before a sentinel parameter |
| Signatures.SignatureTextShape | Mono.Cecil/IMethodSignature.cs:51-67 | the list always starts with "(" and ends with ")", is exactly "()" without parameters, and its length is the texts' lengths plus one comma between neighbours; one more parameter adds a comma (unless it is the first) and its text just before the ")", so the texts stand in parameter order |
| Signatures.SignatureTextStartsWithFirst | Mono.Cecil/IMethodSignature.cs:55-63 | no separator comes before the first parameter, and a first sentinel parameter starts with "...," |
| Signatures.GetSentinelPosition | Mono.Cecil/MethodReference.cs:213-224 | the index of the first sentinel-typed parameter, or -1 exactly when no parameter is a sentinel (no parameters included) |
| Signatures.IsVarArgAsWrittenAcceptsOthers | Mono.Cecil/MethodReference.cs:208-211 | the test as written reports C (1), ThisCall (3) and FastCall (4) as vararg; see Findings |
| Signatures.IsVarArgExactlyVarArg | Mono.Cecil/MethodReference.cs:208-211 | the corrected test accepts only what the as-written test accepts, ignores the flag bits above the calling kind, accepts VarArg with the Generic or HasThis flag, and rejects every other calling kind |
| Methods.GetElementMethod | Mono.Cecil/MethodSpecification.cs:83-86 | a specification's element method is the innermost module method reference, never a generic instance; a module method is its own (Mono.Cecil/MethodReference.cs:142-145) |
| Methods.ReadsThroughToElement | Mono.Cecil/MethodSpecification.cs:25-69 | the name, this flags, calling convention and module of every reference are those of its innermost element |
| Methods.ParameterViewsAgree | Mono.Cecil/MethodSpecification.cs:59-69 | HasParameters, ParameterCount and GetParameters agree for every reference, wrappers included |
| Methods.Update | Mono.Cecil/MethodSpecification.cs:25-53 | a module method reference stores what is written and nothing else changes; a generic instance method refuses every write with InvalidOperation; a constructed view refuses the declaring and return type writes with NotSupported (Mono.Cecil/ConstructedMethodReference.cs:74-78, 100-112) and the rest with InvalidOperation |
| Methods.ReceiveParameters | Mono.Cecil/MethodSpecification.cs:88-91 | only a module method reference receives parameters; every wrapper fails with NotSupported |
| Methods.NewGenericInstanceMethod | Mono.Cecil/GenericInstanceMethod.cs:53-56 | a null method is refused with ArgumentNull (Mono.Cecil/MethodSpecification.cs:75-81); otherwise the result is a generic instance over that method |
| Methods.NewConstructed | Mono.Cecil/ConstructedMethodReference.cs:63-67 | a null method is refused; otherwise the view wraps that method under that context |
| Methods.ContainsGenericParameter | Mono.Cecil/MethodReference.cs:105-121 | reading a null return type fails; the answer is the return type's, the declaring type's and every parameter type's answer combined (and a generic instance's arguments, Mono.Cecil/GenericInstanceMethod.cs:42-44) |
| Methods.ScanContainsGenericParameter | Mono.Cecil/MethodReference.cs:105-121 | the early-exit loops over the parameters and arguments give the same answer as ContainsGenericParameter |
| Methods.ClosedMethodHasClosedSignature | Mono.Cecil/MethodReference.cs:105-121 | a reference that reports no generic parameter has a return type and parameter types that every substitution leaves unchanged |
| Methods.ContextType | Mono.Cecil/MethodReference.cs:49-58 | a method's context type is the element of a generic-instance declaring type and otherwise the declaring type itself; a generic instance method asks its element (Mono.Cecil/GenericInstanceMethod.cs:38-40) |
| Methods.ContextMethod | Mono.Cecil/MethodReference.cs:60-62 | the context method is the reference itself, except that a generic instance method gives its element (Mono.Cecil/GenericInstanceMethod.cs:34-36) |
| Methods.ContextInstanceType | Mono.Cecil/MethodReference.cs:64-66 | the context's instance type is the declaring type exactly when that is a generic instance |
| Methods.ContextInstanceMethod | Mono.Cecil/MethodReference.cs:68-70 | the context's instance method is the reference itself exactly when it is a generic instance or a constructed view |
| Methods.AsContext | Mono.Cecil/MethodReference.cs:49-70 | a method seen as a generic context is that method's object, with its context instance type |
| Methods.GetRuntimeReference | Mono.Cecil/MethodReference.cs:190-194 | the reference itself exactly when the context is this very method and it mentions no generic parameter; otherwise a new constructed view under the context, unless the generic-parameter test fails; Mono.Cecil/MethodReference.cs:231-234 forwards to it |
| Methods.WrapperIsNew | Mono.Cecil/MethodReference.cs:192-193 | a wrapper is never the reference it wraps, so "the reference itself" and "a new view" are told apart |
| Methods.GetRuntimeReferenceOfSelf | Mono.Cecil/MethodReference.cs:180-184 | the reference itself when neither it nor its declaring type is a generic instance; a non-generic-instance reference with a null declaring type fails with NullReference; otherwise the decision under the method as its own context |
| Methods.ClosedMethodIsOwnRuntimeView | Mono.Cecil/MethodReference.cs:180-194 | a reference with nothing generic left in it is its own runtime view |
| Methods.RuntimeViewOfGenericTypeMember | Mono.Cecil/ConstructedMethodReference.cs:74-98 | the runtime view of an open method of a generic-instance type is a constructed view declared by that instance, with the method's name, and parameter i is the method's parameter i substituted under the method's context |
| Methods.Resolve | Mono.Cecil/MethodReference.cs:152-159 | without a module, Resolve fails with NotSupported; otherwise it is the module's answer, and a constructed view resolves its element (Mono.Cecil/ConstructedMethodReference.cs:80-83) |
| Methods.GetOverrides | Mono.Cecil/ConstructedMethodReference.cs:69-72 | the overrides are the resolved definition's (Mono.Cecil/MethodReference.cs:200-203), failing when nothing resolves; a constructed view maps its element's overrides one for one, in order, through GetRuntimeReference under its context |
| Methods.ConstructedGetParameters | Mono.Cecil/ConstructedMethodReference.cs:85-98 | the loop builds as many parameters as the element has, and parameter i's type is the element's parameter i type substituted under the context |
| Methods.GenericArguments | Mono.Cecil/ConstructedMethodReference.cs:123-130 | a generic instance method gives its own arguments; a module method, or a view of one, gives none |
| Methods.HasGenericArgumentsMeansNonEmpty | Mono.Cecil/ConstructedMethodReference.cs:114-121 | HasGenericArguments is false exactly when the argument list is absent or empty (Mono.Cecil/GenericInstanceMethod.cs:22-28) |
| Methods.MemberFullName | Mono.Cecil/ConstructedMethodReference.cs:132-149 | the member name starts with the base member name; a module method has exactly that; a view of a module method without generic parameters adds nothing; a view of a generic instance adds its arguments |
| Methods.FullName | Mono.Cecil/MethodReference.cs:91-99 | the full name is the return type's full name and a space (when there is a return type), the member name, then the parameter list, and fails exactly when the member name does |
| Methods.GenericInstanceMemberNameEndsWithArguments | Mono.Cecil/GenericInstanceMethod.cs:46-51 | a generic instance method's member name is the base name followed by its argument list, so it ends in ">" |
| MethodParameters.ParameterReference.constructor | Mono.Cecil/ParameterReference.cs:19 | a new parameter has index -1 and no owner |
| MethodParameters.ParameterReference.Sequence | Mono.Cecil/ParameterReference.cs:33-40 | -1 without an owner; the index plus one when the owner has an implicit this; the index otherwise |
| MethodParameters.ParameterReference.ToString | Mono.Cecil/ParameterReference.cs:65-75 | "name type" for a named parameter, the type's full name alone otherwise |
| MethodParameters.NewParameterReference | Mono.Cecil/ParameterReference.cs:56-63 | a null type is refused with ArgumentNull; a null name becomes the empty name; the rest as the constructor |
| MethodParameters.ParameterCollection.constructor | Mono.Cecil/ParameterReferenceCollection.cs:41-50 | a new collection is empty, belongs to its method and is well kept |
| MethodParameters.ParameterCollection.Add | Mono.Cecil/ParameterReferenceCollection.cs:52-56 | the parameter is appended, gets the owner and the last position, and every parameter's index still equals its position |
| MethodParameters.ParameterCollection.Insert | Mono.Cecil/ParameterReferenceCollection.cs:58-65 | outside 0..count the call fails and nothing changes; otherwise the parameter lands at that position with the owner and that index, and afterwards every parameter's index again equals its position, so those after it move up one |
| MethodParameters.ParameterCollection.Set | Mono.Cecil/ParameterReferenceCollection.cs:67-78 | outside the list the call fails; otherwise the old occupant is detached (no owner, index -1) and the new one takes the slot with that slot's index |
| MethodParameters.ParameterCollection.RemoveAt | Mono.Cecil/ParameterReferenceCollection.cs:80-87 | outside the list the call fails; otherwise the removed parameter is detached (no owner, index -1), and afterwards every remaining parameter's index again equals its position |
| MethodParameters.ParameterCollection.AddParameter | Mono.Cecil/ParameterReferenceCollection.cs:91-94 | a null type is refused; otherwise exactly one new, unnamed parameter of that type is appended at the end |
| MethodParameters.Renumber | Mono.Cecil/ParameterReferenceCollection.cs:63-64 | the renumbering loop shifts the index of every parameter from the start position on, and nobody else's |
| MethodParameters.SequenceFollowsPosition | Mono.Cecil/ParameterReference.cs:33-40 | in a well-kept list a parameter's Sequence is its position, shifted by one under an implicit this |
| MethodParameters.ModuleMethodReference.constructor | Mono.Cecil/ModuleMethodReference.cs:67-69 | a new reference has no name, types, parameter list or generic parameters |
| MethodParameters.ModuleMethodReference.HasParameters | Mono.Cecil/ModuleMethodReference.cs:47-50 | false exactly when the list is absent or empty |
| MethodParameters.ModuleMethodReference.ParameterCount | Mono.Cecil/ModuleMethodReference.cs:52-59 | 0 without a list, the list's length otherwise |
| MethodParameters.ModuleMethodReference.GetParameters | Mono.Cecil/ModuleMethodReference.cs:61-65 | a new array holding the parameters in order, empty when there are none |
| MethodParameters.ModuleMethodReference.ReceiveParameters | Mono.Cecil/ModuleMethodReference.cs:89-94 | the first call makes an empty list owned by the method; every later call hands back that same list; nothing else changes |
| MethodParameters.ModuleMethodReference.SetReturnType | Mono.Cecil/ModuleMethodReference.cs:96-100 | the return type reads back the last value set and nothing else changes |
| MethodParameters.ModuleMethodReference.HasGenericParameters | Mono.Cecil/MethodReference.cs:76-78 | false exactly when the generic parameter list is absent or empty |
| MethodParameters.ModuleMethodReference.GenericParameters | Mono.Cecil/MethodReference.cs:80-87 | the first read makes an empty list and later reads return that list; HasGenericParameters is unchanged by reading |
| MethodParameters.ModuleMethodReference.View | Mono.Cecil/ModuleMethodReference.cs:47-65 | the method as a value shows the same name, flags, types and parameters as the object |
| MethodParameters.NewModuleMethodReferenceAsWritten | Mono.Cecil/ModuleMethodReference.cs:71-75 | the two-argument constructor as written: a null return type is refused, and the return type also becomes the declaring type; see Findings |
| MethodParameters.NewModuleMethodReference | Mono.Cecil/ModuleMethodReference.cs:71-75 | the corrected constructor: a null return type is refused, the name and return type are stored, and there is no declaring type |
| MethodParameters.ConstructorDeclaringTypeDiffers | Mono.Cecil/ModuleMethodReference.cs:71-75 | for `new ModuleMethodReference("M", Int32)` both constructors store System.Int32 as the return type, but only the one as written also makes it the declaring type |
| MethodParameters.NewModuleMethodReferenceIn | Mono.Cecil/ModuleMethodReference.cs:77-82 | fails with ArgumentNull exactly when the return type or the declaring type is null, and otherwise stores both |
| Members.MemberFullName | Mono.Cecil/FieldReference.cs:24-26 | the member name is the declaring type's full name, "::" and the name, or the name alone without a declaring type |
| Members.TypeContext | Mono.Cecil/GenericInstanceType.cs:57-63 | a type used as a context is that type's object, with itself as instance type exactly when it is a generic instance |
| Members.RuntimeViewUnder | Mono.Cecil/FieldReference.cs:109-113 | the member itself exactly when the context is its declaring-type object and it mentions no generic parameter; that test's failure is the call's; a constructed view under the context otherwise |
| Members.RuntimeViewOfSelf | Mono.Cecil/FieldReference.cs:97-101 | the member itself unless its declaring type is a generic instance, when the decision is taken under the declaring type; a null declaring type fails |
| Members.RuntimeViewOfInstanceMember | Mono.Cecil/PropertyReference.cs:115-130 | a member of a generic instance is its own runtime view exactly when it mentions no generic parameter, and otherwise is viewed with that instance as instance type |
| Fields.FieldReference.Root | Mono.Cecil/ConstructedFieldReference.cs:53-59 | a chain of constructed views ends in a plain field reference, which is the field itself when it wraps nothing |
| Fields.FieldReference.constructor | Mono.Cecil/FieldReference.cs:37-44 | a plain field reference stores its parts and wraps nothing |
| Fields.FieldReference.Wrap | Mono.Cecil/ConstructedFieldReference.cs:53-59 | a constructed view wraps the field, takes the context's instance type (or the field's declaring type) as its declaring type and the substituted field type, and shares the name of the plain field at the bottom |
| Fields.FieldReference.Name | Mono.Cecil/ConstructedFieldReference.cs:66-70 | a view reads the name of the field it wraps, so every view reads the plain field's name |
| Fields.FieldReference.SetName | Mono.Cecil/ConstructedFieldReference.cs:66-70 | writing a view's name writes the plain field's name, and the view then reads the name written; the plain field's type, declaring type and module, and the view's own fields, are unchanged |
| Fields.FieldReference.SetFieldType | Mono.Cecil/FieldReference.cs:19-22 | the field type reads back the value set and nothing else changes |
| Fields.FieldReference.MemberType | Mono.Cecil/FieldReference.cs:54-57 | a field reference is always a field |
| Fields.FieldReference.FullName | Mono.Cecil/FieldReference.cs:24-26 | the field type's full name, a space, then the member name; a null field type fails |
| Fields.FieldReference.ContainsGenericParameter | Mono.Cecil/FieldReference.cs:28-30 | false exactly when the field type and the declaring type mention no generic parameter; a null field type fails |
| Fields.FieldReference.Resolve | Mono.Cecil/FieldReference.cs:64-71 | without a module Resolve fails with NotSupported; a view resolves the field it wraps (Mono.Cecil/ConstructedFieldReference.cs:61-64), so every chain resolves its plain field |
| Fields.FieldReference.RuntimeView | Mono.Cecil/FieldReference.cs:109-113 | the shared decision for a field, where building the view can also fail on a null field or declaring type |
| Fields.FieldReference.RuntimeViewOfSelf | Mono.Cecil/FieldReference.cs:97-101 | the field itself unless its declaring type is a generic instance, when the decision is taken under the declaring type |
| Fields.FieldReference.GetRuntimeReference | Mono.Cecil/FieldReference.cs:109-113 | returns the field itself, the failure, or a new view of the field under the context, as the decision says |
| Fields.FieldReference.GetRuntimeReferenceOfSelf | Mono.Cecil/FieldReference.cs:97-101 | returns the field itself, the failure, or a new view under its declaring type, as the decision says |
| Fields.Construct | Mono.Cecil/ConstructedFieldReference.cs:53-59 | a null field type or declaring type is refused with ArgumentNull; otherwise a new view of the field under the context |
| Fields.NewFieldReference | Mono.Cecil/FieldReference.cs:37-44 | a null field type is refused; otherwise a new plain reference with that name and type |
| Fields.NewFieldReferenceIn | Mono.Cecil/FieldReference.cs:46-52 | fails with ArgumentNull exactly when the field type or the declaring type is null; otherwise a new plain reference with all three |
| Fields.MixinGetRuntimeReference | Mono.Cecil/FieldReference.cs:123-126 | the converter ignores the context it is handed and gives what GetRuntimeReference() gives |
| Fields.SelfViewIsSharedDecision | Mono.Cecil/FieldReference.cs:97-113 | a field's GetRuntimeReference() never reaches the view constructor's null check and takes the decision shared with properties and events |
| Fields.FieldOfInstanceView | Mono.Cecil/FieldReference.cs:97-113 | a field of a generic instance whose type mentions no generic parameter is its own view; one whose type does is viewed under the instance |
| Properties.NewPropertyRef | Mono.Cecil/PropertyReference.cs:48-55 | a null property type is refused with ArgumentNull; otherwise the reference stores the name, type and parameter types |
| Properties.ParametersContain | Mono.Cecil/PropertyReference.cs:37-43 | the parameter loop fails only by reading a null parameter type |
| Properties.ParametersContainMeaning | Mono.Cecil/PropertyReference.cs:37-44 | the loop answers false exactly when every parameter type is there and none mentions a generic parameter, and fails exactly when a null type comes before any that does |
| Properties.ContainsGenericParameterOf | Mono.Cecil/PropertyReference.cs:32-46 | the property type or the declaring type first, then the parameters in order; the only failure is reading a null type |
| Properties.ContainsGenericParameterMeaning | Mono.Cecil/PropertyReference.cs:32-46 | a property mentions no generic parameter exactly when its type, its declaring type and all its parameter types are there and mention none |
| Properties.ScanContainsGenericParameter | Mono.Cecil/PropertyReference.cs:32-46 | the source's early-return foreach gives the same answer |
| Properties.BuildFullName | Mono.Cecil/PropertyReference.cs:66-88 | the StringBuilder loop builds the full name: the type, a space, the member name and the parenthesised parameter list; a null type fails |
| Properties.FullNameShape | Mono.Cecil/PropertyReference.cs:66-88 | (the ListedName predicate) a full name is the property type and a space, the member name, "(", the parameter types' full names joined by commas and ")", with the matching length; without parameters it ends in "()", and otherwise the list opens with the first parameter type's full name |
| Properties.FullNameListsParametersAsSignature | Mono.Cecil/PropertyReference.cs:74-85 | without sentinel-typed parameters, the parameter list is the one a method signature with those parameter types shows |
| Properties.RuntimeView | Mono.Cecil/PropertyReference.cs:125-130 | the property itself exactly when the context is its declaring type and it mentions no generic parameter; otherwise a view under the context, unless reading a type fails |
| Properties.RuntimeViewOfSelf | Mono.Cecil/PropertyReference.cs:115-119 | the property itself unless its declaring type is a generic instance, when the decision is taken under the declaring type |
| Properties.MixinGetRuntimeReference | Mono.Cecil/PropertyReference.cs:140-143 | the converter hands its context on: under the property's own generic-instance declaring type it agrees with GetRuntimeReference(), and a context whose object is not the declaring type builds a view |
| Properties.IndexerOfInstanceView | Mono.Cecil/PropertyReference.cs:115-130 | an indexer of a generic instance with an open parameter type is viewed under the instance even when its own type is closed |
| Events.NewEventRef | Mono.Cecil/EventReference.cs:28-33 | a null event type is refused with ArgumentNull; otherwise the name and type are stored |
| Events.MemberType | Mono.Cecil/EventReference.cs:40-43 | an event reference is always an event |
| Events.FullNameOf | Mono.Cecil/EventReference.cs:24-26 | the event type's full name, a space, then the member name, ending in the event's name; a null event type fails |
| Events.AsWrittenKeepsOpenEventType | Mono.Cecil/EventReference.cs:67-81 | as written, `Foo<CancelEventArgs>.FooEvent` of type `EventHandler<T>` is handed back unchanged, while the corrected decision views it as `EventHandler<CancelEventArgs>`; see Findings |
| Events.ContainsGenericParameterOf | Mono.Cecil/EventReference.cs:77-81 | the corrected test: false exactly when the event type and the declaring type mention no generic parameter; a null event type fails |
| Events.RuntimeView | Mono.Cecil/EventReference.cs:77-81 | over the corrected test (the source's test is Events.ContainsGenericParameterAsWritten, see Findings): the event itself exactly when the context is its declaring type and it mentions no generic parameter; otherwise a view under the context, unless the event type is null |
| Events.RuntimeViewOfSelf | Mono.Cecil/EventReference.cs:67-71 | over the corrected test (the source's decision is Events.RuntimeViewOfSelfAsWritten, see Findings): the event itself unless its declaring type is a generic instance, when the decision is taken under the declaring type |
| Events.CorrectedAgreesOnClosedEventTypes | Mono.Cecil/EventReference.cs:67-81 | the corrected decision agrees with the one as written whenever the event type is closed, and otherwise builds a view under the declaring instance |
| Events.MixinGetRuntimeReference | Mono.Cecil/EventReference.cs:91-94 | over the corrected test: the converter forwards its context unchanged: under the event's own generic-instance declaring type it agrees with the corrected GetRuntimeReference(), and a context whose object is not the declaring type builds a view |
| InterfaceMapper.ComparedOverride | rocks/Mono.Cecil.Rocks/InterfaceMethodMapper.cs:37-41 | an explicit implementation is compared by its first override, which fails with IndexOutOfRange when there is none, is that override itself when it mentions no generic parameter, and is that override's runtime view otherwise |
| InterfaceMapper.FindInterfaceImplementation | rocks/Mono.Cecil.Rocks/InterfaceMethodMapper.cs:18-58 | the loop with its implicit candidate, early return and base-type recursion computes the reference search FindImpl |
| InterfaceMapper.FirstPublicMatchWins | rocks/Mono.Cecil.Rocks/InterfaceMethodMapper.cs:24-33 | when no explicit implementation intervenes, the kept candidate is the first public method that matches, in declaration order, or none when none matches |
| InterfaceMapper.KeptCandidate | rocks/Mono.Cecil.Rocks/InterfaceMethodMapper.cs:32-33 | once there is an implicit candidate, later public matches never replace it |
| InterfaceMapper.ExplicitTakesPrecedence | rocks/Mono.Cecil.Rocks/InterfaceMethodMapper.cs:35-47 | the first private explicit implementation is returned at once, even after an implicit candidate was found |
| InterfaceMapper.OnlyPublicOrExplicitSelected | rocks/Mono.Cecil.Rocks/InterfaceMethodMapper.cs:30-35 | a method returned early is an explicit match of the type and needs explicit matching to be allowed; a kept candidate is a public match |
| InterfaceMapper.BaseFallback | rocks/Mono.Cecil.Rocks/InterfaceMethodMapper.cs:51-57 | with nothing found in the type, the search is the base type's search, and none at the top of the chain |
| InterfaceMapper.MappingsOf | rocks/Mono.Cecil.Rocks/InterfaceMethodMapper.cs:63-70 | one result per interface method, in order, slot i being the search for method i (none included); it fails exactly when some search fails |
| InterfaceMapper.MappingsFailFromHere | rocks/Mono.Cecil.Rocks/InterfaceMethodMapper.cs:65-70 | the first failing lookup's error is the error of the whole mapping |
| InterfaceMapper.InterfaceMethodMapper.constructor | rocks/Mono.Cecil.Rocks/InterfaceMethodMapper.cs:15-16 | a new mapper has two empty lists |
| InterfaceMapper.InterfaceMethodMapper.GetMethodMappings | rocks/Mono.Cecil.Rocks/InterfaceMethodMapper.cs:60-73 | appends the interface's methods and their implementations, as equal-length lists; a failing lookup leaves both lists unchanged |
| InterfaceMapper.InterfaceMethodMapper.FindMappings | rocks/Mono.Cecil.Rocks/InterfaceMethodMapper.cs:75-90 | maps the interface's own methods only, exactly as GetMethodMappings |
| TypeDefinitionRocks.CheckResolved | rocks/Mono.Cecil.Rocks/TypeDefinitionRocks.cs:29-44 | passes exactly when the interface resolved, `self` is no generic parameter and the definition is an interface (and not generic with an array `self`); an unresolved interface or generic-parameter `self` is InvalidOperation, the rest Argument |
| TypeDefinitionRocks.Preflight | rocks/Mono.Cecil.Rocks/TypeDefinitionRocks.cs:24-44 | the corrected checks fail with ArgumentNull exactly when either argument is null; a pass means the interface resolves to an interface definition |
| TypeDefinitionRocks.PreflightAsWrittenMissesNullCheck | rocks/Mono.Cecil.Rocks/TypeDefinitionRocks.cs:27-34 | the checks as written differ from the corrected ones exactly for a null interface type with a non-null `self`: NullReference instead of ArgumentNull; see Findings |
| TypeDefinitionRocks.InterfaceValid | rocks/Mono.Cecil.Rocks/TypeDefinitionRocks.cs:46-57 | the loop finds the interface exactly when some interface of `self` that has a module resolves to the interface definition |
| TypeDefinitionRocks.InterfaceMappingOf | rocks/Mono.Cecil.Rocks/TypeDefinitionRocks.cs:22-67 | with the corrected pre-flight checks (see Findings): the checks' error first, then Argument when `self` does not implement the interface, then the mapper's; on success the record holds both types, the interface's methods and, slot for slot, their implementations |
| TypeDefinitionRocks.InterfaceMappingAsWrittenOf | rocks/Mono.Cecil.Rocks/TypeDefinitionRocks.cs:22-67 | with the checks in the source's order: a present `self` with a null interface type fails with NullReference where InterfaceMappingOf gives ArgumentNull, and every other input gives what InterfaceMappingOf gives |
| TypeDefinitionRocks.GetInterfaceMapping | rocks/Mono.Cecil.Rocks/TypeDefinitionRocks.cs:22-67 | the method, with the corrected pre-flight checks, a fresh mapper and the implements loop, computes InterfaceMappingOf |
| TypeDefinitionRocks.Where | rocks/Mono.Cecil.Rocks/TypeDefinitionRocks.cs:77 | the filter keeps exactly the elements that pass, and the result is a subsequence of the input, so they keep their order |
| TypeDefinitionRocks.WherePartition | rocks/Mono.Cecil.Rocks/TypeDefinitionRocks.cs:121 | two complementary filters split a sequence between them, element for element |
| TypeDefinitionRocks.FirstWhere | rocks/Mono.Cecil.Rocks/TypeDefinitionRocks.cs:88 | the first element that passes, or none exactly when none passes |
| TypeDefinitionRocks.FirstOfFiltered | rocks/Mono.Cecil.Rocks/TypeDefinitionRocks.cs:88 | the first element of a filtered sequence that passes a second test is the first of the whole sequence that passes both |
| TypeDefinitionRocks.GetConstructors | rocks/Mono.Cecil.Rocks/TypeDefinitionRocks.cs:69-78 | a null type is refused with ArgumentNull; no methods gives no constructors |
| TypeDefinitionRocks.GetMethods | rocks/Mono.Cecil.Rocks/TypeDefinitionRocks.cs:113-122 | a null type is refused with ArgumentNull; no methods gives none |
| TypeDefinitionRocks.ConstructorsAndMethodsPartition | rocks/Mono.Cecil.Rocks/TypeDefinitionRocks.cs:69-122 | GetConstructors and GetMethods split the methods by IsConstructor: every method is in exactly one of them, as often as it occurs |
| TypeDefinitionRocks.GetStaticConstructor | rocks/Mono.Cecil.Rocks/TypeDefinitionRocks.cs:80-89 | a null type is refused; otherwise the first method that is a static constructor, or none exactly when there is none |
| TypeDefinitionRocks.FirstNamed | rocks/Mono.Cecil.Rocks/TypeDefinitionRocks.cs:99 | the first definition with an equal name, or none exactly when none has it |
| TypeDefinitionRocks.GetField | rocks/Mono.Cecil.Rocks/TypeDefinitionRocks.cs:91-100 | a null type is refused; otherwise the first field with that name, or none |
| TypeDefinitionRocks.GetProperty | rocks/Mono.Cecil.Rocks/TypeDefinitionRocks.cs:102-111 | a null type is refused; otherwise the first property with that name, or none |
| TypeDefinitionRocks.GetEnumUnderlyingType | rocks/Mono.Cecil.Rocks/TypeDefinitionRocks.cs:124-132 | a null type is refused with ArgumentNull and a non-enum with Argument; an enum gets the answer of the lookup it is handed |

## Left out

- Named types: their own FullName rule lives in TypeReference, which is not part of this model. The model uses the namespace, a "." and the name, or the declaring type's full name, a "/" and the name.
- TypeReference and TypeSpecification are not part of this model. A generic instance's base `MemberFullName()` (Mono.Cecil/GenericInstanceType.cs:42-47) is assumed to be its element's full name, so its FullName is the element's full name followed by the argument list.
- Context identity: `ctx == this` and `ctx == DeclaringType` compare references in the source, while `TypeObject(t)` compares type nodes by structure. For a closed member under a context whose type object is equal to the declaring type but a distinct object, the model gives `Same` where the source builds a new view.
- The HasGenericParameters flag of pointer, pinned and sentinel nodes is a free input, because TypeReference is not part of this model. If a newly built node always has it off, as NewPointer builds it, such a node is never substituted (Substitution.PointerExample states both cases).
- MemberReference is not part of this model. Its MemberFullName is assumed to be the declaring type's full name, "::" and the name. Its ContainsGenericParameter is assumed to be the declaring type's.
- The ConstructedPropertyReference and ConstructedEventReference classes are not part of this model. For properties and events the model states the decision, a `RuntimeView` value, and does not build the view.
- Mono.Collections.Generic.Collection is not part of this model. Each hook is assumed to run before the storage shift, as its position arguments suggest.
- ParameterCollection.Add, Insert and Set: their requires say the parameter is not already in the list elsewhere. Collection does not enforce this. A parameter listed twice could not have one index equal to both its positions.
- ModuleParameterCollection.cs and ParameterDefinitionCollection.cs only pick the element class. The collection modelled is their base.
- Module resolution (`Module.Resolve`, `TypeReference.Resolve`) is metadata lookup in code that is not part of this model. It is a parameter: a resolver function, or the `World` and `TypeFacts` records.
- `MetadataResolver.MethodsMatch` and `MetadataResolver.AreSame` are not part of this model. They are parameters of the `World`, and so are `GetMethods`, `GetBaseType`, `GetOverrides` and `GetInterfaces`.
- `GenericParameter.ApplyTypeArguments` is not part of this model. A generic parameter is replaced by its binding in the context's map, or kept when unbound.
- FunctionPointerType has no ApplyTypeArguments of its own; the source leaves a TODO there. The model hands a function pointer back unchanged.
- `Mixin.GetEnumUnderlyingType` is a foreign call. GetEnumUnderlyingType takes it as a function parameter.
- The base-interface recursion in InterfaceMethodMapper.cs (lines 82-89) is commented out and not modelled.
- Metadata tokens and element-type tags are encoder bookkeeping. They decide nothing here.
- The trivial setters (`PropertyType`, `EventType`, `ModifierType`) only store a value. They are left out.
- The AssemblyReader side of `ReceiveParameters` is left out. The model keeps only the rule that the first call creates the list and later calls return the same list.
- Lazy argument lists (`GenericInstanceType.GenericArguments`, `GenericInstanceMethod.GenericArguments`) are values in the model, with absent meaning empty. Whether the list object is the same from one read to the next is not modelled. `ModuleMethodReference.GenericParameters` is modelled with its lazy creation.
- Lazy initialisation is not thread-safe in the source. Concurrency is out of scope.
- HasImplicitThis has no contract of its own. It is a predicate used by ParameterReference.Sequence and SequenceFollowsPosition.
- TypeNodes.NewFunctionPointer: takes the return type as a parameter. In the source a new FunctionPointerType's return type is null until it is set, so FullName, Module, Scope and ContainsGenericParameter on a fresh instance throw NullReferenceException; a function pointer here always has a return type, and those failures are not modelled.
- TypeDefinitionRocks.InterfaceMappingOf and TypeDefinitionRocks.GetInterfaceMapping: they run the corrected pre-flight checks, so a null interface type with a present `self` gives ArgumentNull rather than the source's NullReference. TypeDefinitionRocks.InterfaceMappingAsWrittenOf states the source's order and relates the two.
- Events.RuntimeView, Events.RuntimeViewOfSelf and Events.MixinGetRuntimeReference: they decide over the corrected generic-parameter test, which also asks the event type. The source's decision is Events.RuntimeViewOfSelfAsWritten, and Events.CorrectedAgreesOnClosedEventTypes states where the two differ.
- Methods.ConstructedGetParameters: builds only the parameters' types. The names, the owner of each new parameter, and the failure on a null ParameterType are not modelled.
- TypeDefinitionRocks.GetConstructors and TypeDefinitionRocks.GetMethods: their own contracts state only the null and empty cases. Which methods they return is stated by ConstructorsAndMethodsPartition and by Where.

## Findings

| source | as written | input that shows it | evidently intended | confidence | as-written member | corrected member |
|---|---|---|---|---|---|---|
| Mono.Cecil/MethodReference.cs:208-211 | `IsVarArg` tests `(CallingConvention & VarArg) != 0` with VarArg = 5 | a method with calling convention C (1), ThisCall (3) or FastCall (4) is reported as vararg | the calling kind (the low four bits, section II.23.2.3 of ECMA-335) equals VarArg | high, not executed | Signatures.IsVarArgAsWrittenAcceptsOthers | Signatures.IsVarArgExactlyVarArg |
| Mono.Cecil/ModuleMethodReference.cs:71-75 | the two-argument constructor passes `returnType` to the base constructor, whose second parameter is the declaring type (Mono.Cecil/MethodReference.cs:134-140) | `new ModuleMethodReference("M", Int32)` has declaring type `System.Int32` | the return type fills only the return type, and there is no declaring type | medium, not executed | MethodParameters.NewModuleMethodReferenceAsWritten | MethodParameters.NewModuleMethodReference |
| Mono.Cecil/EventReference.cs:77-81 | the generic-parameter test of `GetRuntimeReference(ctx)` is the inherited member test; the event type is never consulted, unlike in FieldReference.cs:28-30 and PropertyReference.cs:32-46 | `Foo<CancelEventArgs>.FooEvent` of type `EventHandler<T>` is handed back itself, keeping the open type `EventHandler<T>` | the test also asks the event type, so the event is viewed as `EventHandler<CancelEventArgs>` | medium (the inherited test is in MemberReference, which is not part of this model), not executed | Events.AsWrittenKeepsOpenEventType | Events.CorrectedAgreesOnClosedEventTypes |
| rocks/Mono.Cecil.Rocks/TypeDefinitionRocks.cs:27-34 | `interfaceType.Resolve()` runs before the null check on `interfaceType` | `GetInterfaceMapping(t, null)` throws NullReferenceException, and the ArgumentNullException on line 34 can never be thrown | both arguments are checked for null before anything is resolved | high, not executed | TypeDefinitionRocks.PreflightAsWrittenMissesNullCheck | TypeDefinitionRocks.Preflight |
