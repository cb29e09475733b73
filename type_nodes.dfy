/** The type-specification tree of ECMA-335 Partition II, sections 23.1.16 and 23.2:
    named types, generic parameters and the composite signature elements Ptr,
    Pinned, Sentinel, CModOpt, CModReqD, GenericInst and FnPtr, with their names,
    flags, constructor checks and the setters that refuse to work. */
module TypeNodes {
  import opened Wrappers
  import opened Text

  /** MethodCallingConvention values are one byte wide. */
  type CallingConvention = bv8

  /** Whether a generic parameter belongs to a type or to a method. */
  datatype ProviderKind = TypeProvider | MethodProvider

  datatype TypeNode =
      /** A type named in metadata; its own FullName rule is not part of this model,
          see README. */
    | Named(namespaceName: string, name: string, declaringType: Option<TypeNode>, isValueType: bool)
      /** Position `position` of the provider with identity `owner`. */
    | GenericParam(provider: ProviderKind, owner: nat, position: nat, name: string)
      /** `hasGenericParameters` is the node's own TypeReference.HasGenericParameters,
          the guard the three simple specifications test before substituting. */
    | Pointer(element: TypeNode, hasGenericParameters: bool)
    | Pinned(element: TypeNode, hasGenericParameters: bool)
    | Sentinel(element: TypeNode, hasGenericParameters: bool)
    | OptionalModifier(modifier: TypeNode, element: TypeNode)
    | RequiredModifier(modifier: TypeNode, element: TypeNode)
      /** `isValueType` is copied from the element when the node is built. */
    | GenericInstance(element: TypeNode, arguments: seq<TypeNode>, isValueType: bool)
    | FunctionPointer(signature: FunctionSig)

  /** The method a function pointer wraps: its calling convention, return type and
      parameter types. It has no declaring type. */
  datatype FunctionSig = FunctionSig(
    name: string,
    hasThis: bool,
    explicitThis: bool,
    callingConvention: CallingConvention,
    returnType: TypeNode,
    parameters: seq<TypeNode>)

  /** True iff the node is a generic parameter or some part of it contains one. */
  predicate ContainsGenericParameter(t: TypeNode)
  {
    match t
    case Named(_, _, decl, _) =>
      // the MemberReference rule: a type nested in a generic type mentions its parameters
      decl.Some? && ContainsGenericParameter(decl.value)
    case GenericParam(_, _, _, _) => true
    case Pointer(e, _) => ContainsGenericParameter(e)
    case Pinned(e, _) => ContainsGenericParameter(e)
    case Sentinel(e, _) => ContainsGenericParameter(e)
    case OptionalModifier(m, e) => ContainsGenericParameter(m) || ContainsGenericParameter(e)
    case RequiredModifier(m, e) => ContainsGenericParameter(m) || ContainsGenericParameter(e)
    case GenericInstance(e, args, _) =>
      (exists i :: 0 <= i < |args| && ContainsGenericParameter(args[i])) || ContainsGenericParameter(e)
    case FunctionPointer(f) =>
      ContainsGenericParameter(f.returnType)
      || exists i :: 0 <= i < |f.parameters| && ContainsGenericParameter(f.parameters[i])
  }

  function Name(t: TypeNode): string
  {
    match t
    case Named(_, n, _, _) => n
    case GenericParam(_, _, _, n) => n
    case Pointer(e, _) => Name(e) + "*"
    case Pinned(e, _) => Name(e)
    case Sentinel(e, _) => Name(e)
    case OptionalModifier(m, e) => Name(e) + ModOptSuffix(FullName(m))
    case RequiredModifier(m, e) => Name(e) + ModReqSuffix(FullName(m))
    case GenericInstance(e, _, _) => Name(e)
    case FunctionPointer(f) => f.name
  }

  function FullName(t: TypeNode): string
  {
    match t
    case Named(ns, n, decl, _) =>
      if decl.Some? then FullName(decl.value) + "/" + n
      else if ns == "" then n
      else ns + "." + n
    case GenericParam(_, _, _, n) => n
    case Pointer(e, _) => FullName(e) + "*"
    case Pinned(e, _) => FullName(e)
    case Sentinel(e, _) => FullName(e)
    case OptionalModifier(m, e) => FullName(e) + ModOptSuffix(FullName(m))
    case RequiredModifier(m, e) => FullName(e) + ModReqSuffix(FullName(m))
    case GenericInstance(e, args, _) =>
      FullName(e) + "<" + CommaList(seq(|args|, i requires 0 <= i < |args| => FullName(args[i]))) + ">"
    case FunctionPointer(f) =>
      f.name + " " + FullName(f.returnType) + " *"
      + SignatureText(seq(|f.parameters|, i requires 0 <= i < |f.parameters| => ParamText(f.parameters[i].Sentinel?, FullName(f.parameters[i]))))
  }

  function ModOptSuffix(modifier: string): string { " modopt(" + modifier + ")" }
  function ModReqSuffix(modifier: string): string { " modreq(" + modifier + ")" }

  /** What MethodSignatureFullName needs to know of one parameter. */
  datatype ParamText = ParamText(isSentinel: bool, fullName: string)

  function ParamTextOf(t: TypeNode): ParamText
  {
    ParamText(t.Sentinel?, FullName(t))
  }

  function ParamTextsOf(ts: seq<TypeNode>): (r: seq<ParamText>)
    ensures |r| == |ts|
    ensures forall i :: 0 <= i < |ts| ==> r[i] == ParamTextOf(ts[i])
  {
    seq(|ts|, i requires 0 <= i < |ts| => ParamTextOf(ts[i]))
  }

  /** A sentinel-typed parameter is written with "...," in front of its type. */
  function Decorated(p: ParamText): string
  {
    (if p.isSentinel then "...," else "") + p.fullName
  }

  /** The parenthesised parameter list MethodSignatureFullName appends. */
  function SignatureText(ps: seq<ParamText>): string
  {
    "(" + CommaList(seq(|ps|, i requires 0 <= i < |ps| => Decorated(ps[i]))) + ")"
  }

  function IsValueType(t: TypeNode): bool
  {
    match t
    case Named(_, _, _, v) => v
    case GenericInstance(_, _, v) => v
    case _ => false
  }

  /** The declaring type a node reports: a generic instance reports its element's. */
  function DeclaringType(t: TypeNode): Option<TypeNode>
  {
    match t
    case Named(_, _, decl, _) => decl
    case GenericInstance(e, _, _) => DeclaringType(e)
    case _ => None
  }

  /** The DeclaringType setter: derived on a generic instance, so it refuses there. */
  function SetDeclaringType(t: TypeNode, decl: Option<TypeNode>): (r: Result<TypeNode>)
    requires t.Named? || t.GenericInstance?
    ensures t.GenericInstance? <==> r == Err(NotSupported)
    ensures r.Ok? ==> DeclaringType(r.value) == decl && Name(r.value) == Name(t) && IsValueType(r.value) == IsValueType(t)
  {
    match t
    case GenericInstance(_, _, _) => Err(NotSupported)
    case Named(ns, n, _, v) => Ok(Named(ns, n, decl, v))
  }

  /** The IsValueType setter: pointers, pinned types, sentinels and modifiers are never
      value types and refuse the write. */
  function SetIsValueType(t: TypeNode, v: bool): (r: Result<TypeNode>)
    requires t.Named? || t.GenericInstance? || t.Pointer? || t.Pinned? || t.Sentinel?
          || t.OptionalModifier? || t.RequiredModifier?
    ensures r.Err? <==> !(t.Named? || t.GenericInstance?)
    ensures r.Err? ==> r.error == InvalidOperation
    ensures r.Ok? ==> IsValueType(r.value) == v
  {
    match t
    case Named(ns, n, decl, _) => Ok(Named(ns, n, decl, v))
    case GenericInstance(e, args, _) => Ok(GenericInstance(e, args, v))
    case _ => Err(InvalidOperation)
  }

  // ---- constructors, with their argument checks ----

  /** `new PointerType(type)`: Mixin.CheckType refuses a null element. */
  function NewPointer(element: Option<TypeNode>): (r: Result<TypeNode>)
    ensures element.None? <==> r == Err(ArgumentNull)
    ensures r.Ok? ==> (r.value.Pointer? && r.value.element == element.value
                  && FullName(r.value) == FullName(element.value) + "*"
                  && Name(r.value) == Name(element.value) + "*"
                  && !IsValueType(r.value))
  {
    if element.None? then Err(ArgumentNull) else Ok(Pointer(element.value, false))
  }

  function NewPinned(element: Option<TypeNode>): (r: Result<TypeNode>)
    ensures element.None? <==> r == Err(ArgumentNull)
    ensures r.Ok? ==> (r.value.Pinned? && r.value.element == element.value
                  && FullName(r.value) == FullName(element.value) && !IsValueType(r.value))
  {
    if element.None? then Err(ArgumentNull) else Ok(Pinned(element.value, false))
  }

  function NewSentinel(element: Option<TypeNode>): (r: Result<TypeNode>)
    ensures element.None? <==> r == Err(ArgumentNull)
    ensures r.Ok? ==> (r.value.Sentinel? && r.value.element == element.value
                  && FullName(r.value) == FullName(element.value) && !IsValueType(r.value))
  {
    if element.None? then Err(ArgumentNull) else Ok(Sentinel(element.value, false))
  }

  /** `new OptionalModifierType(modifierType, type)`: the modifier is checked first. */
  function NewOptionalModifier(modifier: Option<TypeNode>, element: Option<TypeNode>): (r: Result<TypeNode>)
    ensures r.Err? <==> modifier.None? || element.None?
    ensures r.Err? ==> r.error == ArgumentNull
    ensures r.Ok? ==> r == Ok(OptionalModifier(modifier.value, element.value))
  {
    if modifier.None? || element.None? then Err(ArgumentNull)
    else Ok(OptionalModifier(modifier.value, element.value))
  }

  function NewRequiredModifier(modifier: Option<TypeNode>, element: Option<TypeNode>): (r: Result<TypeNode>)
    ensures r.Err? <==> modifier.None? || element.None?
    ensures r.Err? ==> r.error == ArgumentNull
    ensures r.Ok? ==> r == Ok(RequiredModifier(modifier.value, element.value))
  {
    if modifier.None? || element.None? then Err(ArgumentNull)
    else Ok(RequiredModifier(modifier.value, element.value))
  }

  /** `new GenericInstanceType(type, typeArguments)`: reading `type.IsValueType` fails
      on a null element; a null argument list leaves the instance without arguments. */
  function NewGenericInstance(element: Option<TypeNode>, arguments: Option<seq<TypeNode>>): (r: Result<TypeNode>)
    ensures element.None? <==> r == Err(NullReference)
    ensures r.Ok? ==> (r.value.GenericInstance? && r.value.element == element.value
                  && IsValueType(r.value) == IsValueType(element.value)
                  && r.value.arguments == arguments.GetOr([])
                  && DeclaringType(r.value) == DeclaringType(element.value))
  {
    if element.None? then Err(NullReference)
    else Ok(GenericInstance(element.value, arguments.GetOr([]), IsValueType(element.value)))
  }

  /** HasGenericArguments: false when the list is absent or empty. */
  predicate HasGenericArguments(t: TypeNode)
    requires t.GenericInstance?
  {
    |t.arguments| > 0
  }

  // ---- FunctionPointerType: a type whose properties read and write the wrapped method ----

  /** `new FunctionPointerType()` wraps a method named "method" with no parameters.
      The source leaves the return type null until it is set; a TypeNode always has
      one, so here it is the parameter `returnType`. */
  function NewFunctionPointer(returnType: TypeNode): (r: TypeNode)
    ensures r.FunctionPointer? && Name(r) == "method" && r.signature.returnType == returnType
    ensures r.signature.parameters == [] && !r.signature.hasThis && !r.signature.explicitThis
  {
    FunctionPointer(FunctionSig("method", false, false, 0, returnType, []))
  }

  /** The Namespace getter of a function pointer. */
  function FunctionPointerNamespace(t: TypeNode): (r: string)
    requires t.FunctionPointer?
    ensures r == ""
  {
    ""
  }

  /** Setting Name, Namespace or Scope on a function pointer throws. */
  function SetFunctionPointerName(t: TypeNode, name: string): (r: Result<TypeNode>)
    requires t.FunctionPointer?
    ensures r == Err(InvalidOperation)
  {
    Err(InvalidOperation)
  }

  /** Writes of HasThis, ExplicitThis, CallingConvention and ReturnType land on the
      wrapped method; `which` names the property written. */
  datatype FunctionProperty =
    | HasThisProp(b: bool)
    | ExplicitThisProp(b: bool)
    | CallingConventionProp(c: CallingConvention)
    | ReturnTypeProp(t: TypeNode)

  function SetFunctionPointerProperty(t: TypeNode, p: FunctionProperty): (r: TypeNode)
    requires t.FunctionPointer?
    ensures r.FunctionPointer? && r.signature.name == t.signature.name
    ensures r.signature.parameters == t.signature.parameters
    ensures r.signature.hasThis == (if p.HasThisProp? then p.b else t.signature.hasThis)
    ensures r.signature.explicitThis == (if p.ExplicitThisProp? then p.b else t.signature.explicitThis)
    ensures r.signature.callingConvention == (if p.CallingConventionProp? then p.c else t.signature.callingConvention)
    ensures r.signature.returnType == (if p.ReturnTypeProp? then p.t else t.signature.returnType)
  {
    var f := t.signature;
    match p
    case HasThisProp(b) => FunctionPointer(f.(hasThis := b))
    case ExplicitThisProp(b) => FunctionPointer(f.(explicitThis := b))
    case CallingConventionProp(c) => FunctionPointer(f.(callingConvention := c))
    case ReturnTypeProp(rt) => FunctionPointer(f.(returnType := rt))
  }

  /** Resolve of a function pointer finds no definition. */
  function FunctionPointerResolve(t: TypeNode): (r: Option<nat>)
    requires t.FunctionPointer?
    ensures r.None?
  {
    None
  }

  /** GetElementType: a function pointer is its own element type; every other
      specification unwraps to the innermost element. */
  function GetElementType(t: TypeNode): (r: TypeNode)
    ensures t.FunctionPointer? ==> r == t
    ensures t.Named? || t.GenericParam? ==> r == t
    ensures !r.Pointer? && !r.Pinned? && !r.Sentinel? && !r.OptionalModifier?
         && !r.RequiredModifier? && !r.GenericInstance?
  {
    match t
    case Pointer(e, _) => GetElementType(e)
    case Pinned(e, _) => GetElementType(e)
    case Sentinel(e, _) => GetElementType(e)
    case OptionalModifier(_, e) => GetElementType(e)
    case RequiredModifier(_, e) => GetElementType(e)
    case GenericInstance(e, _, _) => GetElementType(e)
    case _ => t
  }

  // ---- lemmas about the names ----

  /** An optional and a required modifier over the same parts always print differently. */
  lemma ModifierNamesDiffer(m: TypeNode, e: TypeNode)
    ensures FullName(OptionalModifier(m, e)) != FullName(RequiredModifier(m, e))
    ensures Name(OptionalModifier(m, e)) != Name(RequiredModifier(m, e))
  {
    var k := |FullName(e)| + 4;
    assert FullName(OptionalModifier(m, e))[k] == 'o';
    assert FullName(RequiredModifier(m, e))[k] == 'r';
    var j := |Name(e)| + 4;
    assert Name(OptionalModifier(m, e))[j] == 'o';
    assert Name(RequiredModifier(m, e))[j] == 'r';
  }

  /** A modifier's full name is its element's full name followed by " modopt(" or
      " modreq(", the modifier's full name and ")". */
  lemma ModifierFullNameShape(m: TypeNode, e: TypeNode)
    ensures var s := FullName(OptionalModifier(m, e));
      |s| == |FullName(e)| + |FullName(m)| + 9 && s[..|FullName(e)|] == FullName(e)
      && s[|FullName(e)|..] == ModOptSuffix(FullName(m))
      && s[|FullName(e)|..|FullName(e)| + 8] == " modopt(" && s[|s| - 1] == ')'
    ensures var s := FullName(RequiredModifier(m, e));
      |s| == |FullName(e)| + |FullName(m)| + 9 && s[..|FullName(e)|] == FullName(e)
      && s[|FullName(e)|..] == ModReqSuffix(FullName(m))
      && s[|FullName(e)|..|FullName(e)| + 8] == " modreq(" && s[|s| - 1] == ')'
  {
    assert FullName(OptionalModifier(m, e)) == FullName(e) + ModOptSuffix(FullName(m));
    SuffixShape(FullName(e), " modopt(", FullName(m));
    assert FullName(RequiredModifier(m, e)) == FullName(e) + ModReqSuffix(FullName(m));
    SuffixShape(FullName(e), " modreq(", FullName(m));
  }

  /** Where the parts of `head + tag + inner + ")"` stand, for an eight-letter tag. */
  lemma SuffixShape(head: string, tag: string, inner: string)
    requires |tag| == 8
    ensures var s := head + (tag + inner + ")");
      |s| == |head| + |inner| + 9 && s[..|head|] == head && s[|head|..] == tag + inner + ")"
      && s[|head|..|head| + 8] == tag && s[|s| - 1] == ')'
  {
    var s := head + (tag + inner + ")");
    assert s[|head|..] == tag + inner + ")";
    assert s[|head|..|head| + 8] == (tag + inner + ")")[..8];
  }

  /** The full names of a generic instance's arguments, in order. */
  function ArgumentNames(args: seq<TypeNode>): (r: seq<string>)
    ensures |r| == |args| && forall i :: 0 <= i < |args| ==> r[i] == FullName(args[i])
  {
    seq(|args|, i requires 0 <= i < |args| => FullName(args[i]))
  }

  /** `s` is `head`, then "<", the names separated by commas and ">": the length is
      theirs with one comma between neighbouring names, no names leave `head<>` and
      one name `n` gives exactly `head<n>`. */
  ghost predicate AngleListed(s: string, head: string, names: seq<string>)
  {
    |s| == |head| + 2 + TotalLength(names) + (if |names| == 0 then 0 else |names| - 1)
    && s[..|head|] == head && s[|head|] == '<' && s[|head| + 1..|s| - 1] == CommaList(names) && s[|s| - 1] == '>'
    && (|names| == 0 ==> s == head + "<>")
    && (|names| == 1 ==> s == head + "<" + names[0] + ">")
  }

  /** A generic instance prints its element, then its arguments' full names in order,
      separated by commas, between angle brackets. */
  lemma GenericInstanceFullNameShape(e: TypeNode, args: seq<TypeNode>, v: bool)
    ensures AngleListed(FullName(GenericInstance(e, args, v)), FullName(e), ArgumentNames(args))
  {
    var names := ArgumentNames(args);
    assert names == seq(|args|, i requires 0 <= i < |args| => FullName(args[i]));
    assert FullName(GenericInstance(e, args, v)) == FullName(e) + "<" + CommaList(names) + ">";
    AngleListShape(FullName(e), names);
  }

  /** Every such concatenation has the AngleListed shape. */
  lemma AngleListShape(head: string, names: seq<string>)
    ensures AngleListed(head + "<" + CommaList(names) + ">", head, names)
  {
    var s := head + "<" + CommaList(names) + ">";
    CommaListLength(names);
    assert s[..|head|] == head;
    assert s[|head| + 1..|s| - 1] == CommaList(names);
    if |names| == 1 {
      CommaListSingle(names[0]);
    }
  }

  /** One more argument goes in front of the closing ">", after a comma unless it is
      the first: the arguments stand in the name in their order. */
  lemma GenericInstanceSnoc(e: TypeNode, args: seq<TypeNode>, a: TypeNode, v: bool)
    ensures FullName(GenericInstance(e, args + [a], v))
      == FullName(GenericInstance(e, args, v))[..|FullName(GenericInstance(e, args, v))| - 1]
         + (if |args| > 0 then "," else "") + FullName(a) + ">"
  {
    var names := ArgumentNames(args);
    assert names == seq(|args|, i requires 0 <= i < |args| => FullName(args[i]));
    var longer := args + [a];
    assert ArgumentNames(longer) == names + [FullName(a)];
    assert ArgumentNames(longer) == seq(|longer|, i requires 0 <= i < |longer| => FullName(longer[i]));
    CommaListSnoc(names, FullName(a));
    var text := FullName(e) + "<" + CommaList(names) + ">";
    assert FullName(GenericInstance(e, args, v)) == text;
    assert text[..|text| - 1] == FullName(e) + "<" + CommaList(names);
  }

  /** A function pointer prints its method's name, its return type and " *", then the
      parameter list MethodSignatureFullName writes for its parameter types. */
  lemma FunctionPointerFullNameShape(f: FunctionSig)
    ensures FullName(FunctionPointer(f))
            == f.name + " " + FullName(f.returnType) + " *" + SignatureText(ParamTextsOf(f.parameters))
    ensures |FullName(FunctionPointer(f))| > |f.name| + |FullName(f.returnType)| + 2
  {
    assert ParamTextsOf(f.parameters)
           == seq(|f.parameters|, i requires 0 <= i < |f.parameters| => ParamText(f.parameters[i].Sentinel?, FullName(f.parameters[i])));
  }
}
