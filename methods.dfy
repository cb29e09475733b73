/** Method references as values: a reference held in a module (ModuleMethodReference),
    a generic instance of one (GenericInstanceMethod), and the runtime view of one under
    a generic context (ConstructedMethodReference). The two specifications read
    everything through to the method they wrap and refuse writes. */
module Methods {
  import opened Wrappers
  import opened Text
  import opened TypeNodes
  import opened Substitution
  import Members

  /** Object identity, for the `ctx == this` test; wrappers built here get the ids
      their caller supplies. */
  type ObjectId = nat

  /** The module a reference belongs to. */
  type ModuleId = nat

  datatype MethodRef =
      /** The fields a ModuleMethodReference stores itself. */
    | ModuleMethod(
        id: ObjectId,
        name: string,
        hasThis: bool,
        explicitThis: bool,
        callingConvention: CallingConvention,
        declaringType: Option<TypeNode>,
        returnType: Option<TypeNode>,
        parameters: seq<TypeNode>,
        genericParameters: seq<TypeNode>,
        moduleId: Option<ModuleId>)
    | GenericInstanceMethod(id: ObjectId, element: MethodRef, genericArguments: seq<TypeNode>)
    | Constructed(id: ObjectId, element: MethodRef, ctx: Context)

  /** What a module's resolver finds for a reference: here, only its overrides. */
  datatype MethodDefinition = MethodDefinition(overrides: seq<MethodRef>)

  /** Module.Resolve(MethodReference), which is not part of this model. */
  type Resolver = (ModuleId, MethodRef) -> Option<MethodDefinition>

  // ---- the read-through getters ----

  function Name(m: MethodRef): string
  {
    if m.ModuleMethod? then m.name else Name(m.element)
  }

  function HasThis(m: MethodRef): bool
  {
    if m.ModuleMethod? then m.hasThis else HasThis(m.element)
  }

  function ExplicitThis(m: MethodRef): bool
  {
    if m.ModuleMethod? then m.explicitThis else ExplicitThis(m.element)
  }

  function CallingConventionOf(m: MethodRef): CallingConvention
  {
    if m.ModuleMethod? then m.callingConvention else CallingConventionOf(m.element)
  }

  function ModuleOf(m: MethodRef): Option<ModuleId>
  {
    if m.ModuleMethod? then m.moduleId else ModuleOf(m.element)
  }

  /** A constructed view reports its context's instance type when there is one. */
  function DeclaringType(m: MethodRef): Option<TypeNode>
  {
    match m
    case ModuleMethod(_, _, _, _, _, decl, _, _, _, _) => decl
    case GenericInstanceMethod(_, e, _) => DeclaringType(e)
    case Constructed(_, e, ctx) => if ctx.instanceType.Some? then ctx.instanceType else DeclaringType(e)
  }

  /** A constructed view substitutes its element's return type; a null one stays null. */
  function ReturnType(m: MethodRef): Option<TypeNode>
  {
    match m
    case ModuleMethod(_, _, _, _, _, _, rt, _, _, _) => rt
    case GenericInstanceMethod(_, e, _) => ReturnType(e)
    case Constructed(_, e, ctx) =>
      match ReturnType(e)
      case None => None
      case Some(t) => Some(Applied(t, ctx))
  }

  /** The parameter types GetParameters() hands out, in order. */
  function ParameterTypes(m: MethodRef): seq<TypeNode>
  {
    match m
    case ModuleMethod(_, _, _, _, _, _, _, ps, _, _) => ps
    case GenericInstanceMethod(_, e, _) => ParameterTypes(e)
    case Constructed(_, e, ctx) =>
      var ps := ParameterTypes(e);
      seq(|ps|, i requires 0 <= i < |ps| => Applied(ps[i], ctx))
  }

  /** HasParameters: a specification asks the method it wraps. */
  predicate HasParameters(m: MethodRef)
  {
    if m.ModuleMethod? then |m.parameters| > 0 else HasParameters(m.element)
  }

  function ParameterCount(m: MethodRef): nat
  {
    if m.ModuleMethod? then (if |m.parameters| == 0 then 0 else |m.parameters|)
    else ParameterCount(m.element)
  }

  /** HasGenericParameters: a specification never gets generic parameters of its own. */
  predicate HasGenericParameters(m: MethodRef)
  {
    m.ModuleMethod? && |m.genericParameters| > 0
  }

  /** IsGenericInstance: only a GenericInstanceMethod says yes. */
  predicate IsGenericInstance(m: MethodRef)
  {
    m.GenericInstanceMethod?
  }

  /** Whether a method reference is one whose wrappers are all read-through
      GenericInstanceMethods, with no constructed view among them. */
  predicate Unconstructed(m: MethodRef)
  {
    match m
    case ModuleMethod(_, _, _, _, _, _, _, _, _, _) => true
    case GenericInstanceMethod(_, e, _) => Unconstructed(e)
    case Constructed(_, _, _) => false
  }

  /** GetElementMethod: a specification asks the method it wraps, so the answer is
      always the innermost ModuleMethodReference, and a plain reference is its own. */
  function GetElementMethod(m: MethodRef): (r: MethodRef)
    ensures r.ModuleMethod?
    ensures m.ModuleMethod? ==> r == m
    ensures !IsGenericInstance(r)
  {
    if m.ModuleMethod? then m else GetElementMethod(m.element)
  }

  /** The signature flags, the name and the module of every reference are those of
      its element method; without a constructed view in between, so are its declaring
      type, return type and parameters. */
  lemma {:induction false} ReadsThroughToElement(m: MethodRef)
    ensures var e := GetElementMethod(m);
      Name(m) == e.name && HasThis(m) == e.hasThis && ExplicitThis(m) == e.explicitThis
      && CallingConventionOf(m) == e.callingConvention && ModuleOf(m) == e.moduleId
      && HasParameters(m) == (|e.parameters| > 0)
    ensures var e := GetElementMethod(m);
      Unconstructed(m) ==> DeclaringType(m) == e.declaringType && ReturnType(m) == e.returnType
                           && ParameterTypes(m) == e.parameters
  {
    if !m.ModuleMethod? {
      ReadsThroughToElement(m.element);
    }
  }

  /** HasParameters, ParameterCount and GetParameters agree for every reference, also
      for a constructed view, whose parameter list has its element's length. */
  lemma {:induction false} ParameterViewsAgree(m: MethodRef)
    ensures ParameterCount(m) == |ParameterTypes(m)|
    ensures HasParameters(m) <==> ParameterCount(m) > 0
  {
    if !m.ModuleMethod? {
      ParameterViewsAgree(m.element);
    }
  }

  // ---- the setters ----

  /** A write to one of the six properties a specification forwards. */
  datatype MethodUpdate =
    | SetName(n: string)
    | SetHasThis(b: bool)
    | SetExplicitThis(b: bool)
    | SetCallingConvention(c: CallingConvention)
    | SetReturnType(t: Option<TypeNode>)
    | SetDeclaringType(t: Option<TypeNode>)

  /** The property `u` writes reads back the value written. */
  predicate Shows(m: MethodRef, u: MethodUpdate)
  {
    match u
    case SetName(n) => Name(m) == n
    case SetHasThis(b) => HasThis(m) == b
    case SetExplicitThis(b) => ExplicitThis(m) == b
    case SetCallingConvention(c) => CallingConventionOf(m) == c
    case SetReturnType(t) => ReturnType(m) == t
    case SetDeclaringType(t) => DeclaringType(m) == t
  }

  /** Every property of `a` other than the one `u` writes is the same in `b`. */
  predicate SameOtherwise(a: MethodRef, b: MethodRef, u: MethodUpdate)
  {
    a.ModuleMethod? && b.ModuleMethod?
    && a.id == b.id && a.parameters == b.parameters
    && a.genericParameters == b.genericParameters && a.moduleId == b.moduleId
    && (u.SetName? || a.name == b.name)
    && (u.SetHasThis? || a.hasThis == b.hasThis)
    && (u.SetExplicitThis? || a.explicitThis == b.explicitThis)
    && (u.SetCallingConvention? || a.callingConvention == b.callingConvention)
    && (u.SetReturnType? || a.returnType == b.returnType)
    && (u.SetDeclaringType? || a.declaringType == b.declaringType)
  }

  /** A ModuleMethodReference stores what it is given; a GenericInstanceMethod refuses
      every write with InvalidOperationException, and so does a constructed view,
      except for DeclaringType and ReturnType, which it refuses with
      NotSupportedException. */
  function Update(m: MethodRef, u: MethodUpdate): (r: Result<MethodRef>)
    ensures r.Ok? <==> m.ModuleMethod?
    ensures m.GenericInstanceMethod? ==> r == Err(InvalidOperation)
    ensures m.Constructed? ==>
      r == Err(if u.SetReturnType? || u.SetDeclaringType? then NotSupported else InvalidOperation)
    ensures r.Ok? ==> Shows(r.value, u) && SameOtherwise(m, r.value, u)
  {
    match m
    case GenericInstanceMethod(_, _, _) => Err(InvalidOperation)
    case Constructed(_, _, _) =>
      if u.SetReturnType? || u.SetDeclaringType? then Err(NotSupported) else Err(InvalidOperation)
    case ModuleMethod(id, n, ht, et, cc, decl, rt, ps, gps, mid) =>
      match u
      case SetName(v) => Ok(ModuleMethod(id, v, ht, et, cc, decl, rt, ps, gps, mid))
      case SetHasThis(v) => Ok(ModuleMethod(id, n, v, et, cc, decl, rt, ps, gps, mid))
      case SetExplicitThis(v) => Ok(ModuleMethod(id, n, ht, v, cc, decl, rt, ps, gps, mid))
      case SetCallingConvention(v) => Ok(ModuleMethod(id, n, ht, et, v, decl, rt, ps, gps, mid))
      case SetReturnType(v) => Ok(ModuleMethod(id, n, ht, et, cc, decl, v, ps, gps, mid))
      case SetDeclaringType(v) => Ok(ModuleMethod(id, n, ht, et, cc, v, rt, ps, gps, mid))
  }

  /** ReceiveParameters: only a ModuleMethodReference takes parameters from the reader;
      a specification throws NotSupportedException. */
  function ReceiveParameters(m: MethodRef): (r: Result<ObjectId>)
    ensures r.Ok? <==> m.ModuleMethod?
    ensures r.Err? ==> r.error == NotSupported
  {
    if m.ModuleMethod? then Ok(m.id) else Err(NotSupported)
  }

  // ---- constructors of the specifications ----

  /** `new GenericInstanceMethod(method)`: Mixin.CheckMethod refuses a null method; the
      argument list starts out empty. */
  function NewGenericInstanceMethod(id: ObjectId, target: Option<MethodRef>): (r: Result<MethodRef>)
    ensures target.None? <==> r == Err(ArgumentNull)
    ensures r.Ok? ==> IsGenericInstance(r.value) && r.value.element == target.value
                      && !HasGenericArguments(r.value) && GenericArguments(r.value) == Some([])
                      && GetElementMethod(r.value) == GetElementMethod(target.value)
  {
    if target.None? then Err(ArgumentNull) else Ok(GenericInstanceMethod(id, target.value, []))
  }

  /** `new ConstructedMethodReference(r, ctx)`: the same null check. */
  function NewConstructed(id: ObjectId, target: Option<MethodRef>, ctx: Context): (r: Result<MethodRef>)
    ensures target.None? <==> r == Err(ArgumentNull)
    ensures r.Ok? ==> r.value.Constructed? && r.value.element == target.value && r.value.ctx == ctx
                      && Name(r.value) == Name(target.value)
                      && GetElementMethod(r.value) == GetElementMethod(target.value)
  {
    if target.None? then Err(ArgumentNull) else Ok(Constructed(id, target.value, ctx))
  }

  // ---- ContainsGenericParameter ----

  /** ContainsGenericParameter. A ModuleMethodReference asks its return type first,
      which fails when there is none, then its declaring type, then every parameter
      type. A generic instance asks its arguments, then its element. A constructed
      view answers for its element, not for its own substituted types. */
  function ContainsGenericParameter(m: MethodRef): (r: Result<bool>)
    ensures r.Err? ==> r.error == NullReference
  {
    match m
    case ModuleMethod(_, _, _, _, _, decl, rt, ps, _, _) =>
      if rt.None? then Err(NullReference)
      else Ok(TypeNodes.ContainsGenericParameter(rt.value)
              || (decl.Some? && TypeNodes.ContainsGenericParameter(decl.value))
              || exists i :: 0 <= i < |ps| && TypeNodes.ContainsGenericParameter(ps[i]))
    case GenericInstanceMethod(_, e, args) =>
      if exists i :: 0 <= i < |args| && TypeNodes.ContainsGenericParameter(args[i]) then Ok(true)
      else ContainsGenericParameter(e)
    case Constructed(_, e, _) => ContainsGenericParameter(e)
  }

  /** The early-exit loops the source runs over the parameters and over the generic
      arguments. */
  method ScanContainsGenericParameter(m: MethodRef) returns (r: Result<bool>)
    ensures r == ContainsGenericParameter(m)
    decreases m
  {
    match m
    case ModuleMethod(_, _, _, _, _, decl, rt, ps, _, _) =>
      if rt.None? {
        return Err(NullReference);
      }
      if TypeNodes.ContainsGenericParameter(rt.value)
         || (decl.Some? && TypeNodes.ContainsGenericParameter(decl.value)) {
        return Ok(true);
      }
      if |ps| == 0 {
        return Ok(false);
      }
      var i := 0;
      while i < |ps|
        invariant 0 <= i <= |ps|
        invariant forall k :: 0 <= k < i ==> !TypeNodes.ContainsGenericParameter(ps[k])
      {
        if TypeNodes.ContainsGenericParameter(ps[i]) {
          return Ok(true);
        }
        i := i + 1;
      }
      return Ok(false);
    case GenericInstanceMethod(_, e, args) =>
      var i := 0;
      while i < |args|
        invariant 0 <= i <= |args|
        invariant forall k :: 0 <= k < i ==> !TypeNodes.ContainsGenericParameter(args[k])
      {
        if TypeNodes.ContainsGenericParameter(args[i]) {
          return Ok(true);
        }
        i := i + 1;
      }
      r := ScanContainsGenericParameter(e);
    case Constructed(_, e, _) =>
      r := ScanContainsGenericParameter(e);
  }

  /** A reference that reports no generic parameter has closed parameter and return
      types, which substitution then leaves alone; a constructed view reports exactly
      what its element reports. */
  lemma {:induction false} ClosedMethodHasClosedSignature(m: MethodRef, ctx: Context)
    requires Unconstructed(m)
    requires ContainsGenericParameter(m) == Ok(false)
    ensures ReturnType(m).Some? && !TypeNodes.ContainsGenericParameter(ReturnType(m).value)
    ensures forall i :: 0 <= i < |ParameterTypes(m)| ==> Apply(ParameterTypes(m)[i], ctx).None?
    ensures Apply(ReturnType(m).value, ctx).None?
  {
    if m.GenericInstanceMethod? {
      ClosedMethodHasClosedSignature(m.element, ctx);
    } else {
      ClosedIsUnchanged(m.returnType.value, ctx);
      forall i | 0 <= i < |m.parameters| ensures Apply(m.parameters[i], ctx).None? {
        ClosedIsUnchanged(m.parameters[i], ctx);
      }
    }
  }

  // ---- the method as a generic context ----

  /** IGenericContext.Type: the element type of a generic-instance declaring type,
      otherwise the declaring type; a GenericInstanceMethod gives its element's. */
  function ContextType(m: MethodRef): (r: Option<TypeNode>)
    ensures !m.GenericInstanceMethod? && DeclaringType(m).Some? && DeclaringType(m).value.GenericInstance?
            ==> r == Some(DeclaringType(m).value.element)
    ensures !m.GenericInstanceMethod? && !(DeclaringType(m).Some? && DeclaringType(m).value.GenericInstance?)
            ==> r == DeclaringType(m)
  {
    if m.GenericInstanceMethod? then ContextType(m.element)
    else
      var d := DeclaringType(m);
      if d.Some? && d.value.GenericInstance? then Some(d.value.element) else d
  }

  /** IGenericContext.Method: the reference itself, or a GenericInstanceMethod's element. */
  function ContextMethod(m: MethodRef): (r: MethodRef)
    ensures r == (if m.GenericInstanceMethod? then m.element else m)
    ensures !IsGenericInstance(m) ==> r == m
  {
    if m.GenericInstanceMethod? then m.element else m
  }

  /** IGenericContext.InstanceType: the declaring type when it is a generic instance. */
  function ContextInstanceType(m: MethodRef): (r: Option<TypeNode>)
    ensures r.Some? <==> DeclaringType(m).Some? && DeclaringType(m).value.GenericInstance?
    ensures r.Some? ==> r == DeclaringType(m)
  {
    var d := DeclaringType(m);
    if d.Some? && d.value.GenericInstance? then d else None
  }

  /** IGenericContext.InstanceMethod: the reference itself when it is an IGenericInstance,
      which both specifications are. */
  function ContextInstanceMethod(m: MethodRef): (r: Option<MethodRef>)
    ensures r.Some? <==> !m.ModuleMethod?
    ensures r.Some? ==> r.value == m
  {
    if m.ModuleMethod? then None else Some(m)
  }

  /** The reference as the context a substitution runs under; `bindings` stands for
      what its generic parameters resolve to, which is not part of this model. */
  function AsContext(m: MethodRef, bindings: map<TypeNode, TypeNode>): (c: Context)
    ensures c.self == MethodObject(m.id)
    ensures c.instanceType == ContextInstanceType(m)
  {
    Context(MethodObject(m.id), ContextInstanceType(m), bindings)
  }

  // ---- the runtime view ----

  /** GetRuntimeReference(ctx): the reference itself when the context is this very
      object and nothing generic is left in it; otherwise a new constructed view
      under `ctx`. */
  function GetRuntimeReference(m: MethodRef, ctx: Context, newId: ObjectId): (r: Result<MethodRef>)
    ensures r == Ok(m) <==> ctx.self == MethodObject(m.id) && ContainsGenericParameter(m) == Ok(false)
    ensures r.Err? <==> ctx.self == MethodObject(m.id) && ContainsGenericParameter(m).Err?
    ensures r.Err? ==> r.error == NullReference
    ensures r.Ok? && r.value != m ==> r.value == Constructed(newId, m, ctx)
  {
    if ctx.self == MethodObject(m.id) then
      match ContainsGenericParameter(m)
      case Err(e) => Err(e)
      case Ok(c) =>
        if c then
          WrapperIsNew(m, newId, ctx);
          Ok(Constructed(newId, m, ctx))
        else Ok(m)
    else
      WrapperIsNew(m, newId, ctx);
      Ok(Constructed(newId, m, ctx))
  }

  /** How many specifications wrap the innermost reference. */
  function Depth(m: MethodRef): nat
  {
    if m.ModuleMethod? then 0 else 1 + Depth(m.element)
  }

  /** A wrapper is never the reference it wraps. */
  lemma WrapperIsNew(m: MethodRef, id: ObjectId, ctx: Context)
    ensures Constructed(id, m, ctx) != m
    ensures GenericInstanceMethod(id, m, []) != m
  {
    assert Depth(Constructed(id, m, ctx)) == Depth(m) + 1;
    assert Depth(GenericInstanceMethod(id, m, [])) == Depth(m) + 1;
  }

  /** GetRuntimeReference(): the reference itself unless it or its declaring type is
      a generic instance, and otherwise its runtime view under itself as the context.
      Asking a non-generic-instance reference without a declaring type fails. */
  function GetRuntimeReferenceOfSelf(m: MethodRef, bindings: map<TypeNode, TypeNode>, newId: ObjectId): (r: Result<MethodRef>)
    ensures !IsGenericInstance(m) && DeclaringType(m).None? ==> r == Err(NullReference)
    ensures !IsGenericInstance(m) && DeclaringType(m).Some? && !DeclaringType(m).value.GenericInstance? ==> r == Ok(m)
    ensures IsGenericInstance(m) || (DeclaringType(m).Some? && DeclaringType(m).value.GenericInstance?) ==>
      r == GetRuntimeReference(m, AsContext(m, bindings), newId)
  {
    if IsGenericInstance(m) then GetRuntimeReference(m, AsContext(m, bindings), newId)
    else
      match DeclaringType(m)
      case None => Err(NullReference)
      case Some(d) => if !d.GenericInstance? then Ok(m) else GetRuntimeReference(m, AsContext(m, bindings), newId)
  }

  /** A reference with nothing generic left in it is its own runtime view, whichever
      path GetRuntimeReference() takes. */
  lemma ClosedMethodIsOwnRuntimeView(m: MethodRef, bindings: map<TypeNode, TypeNode>, newId: ObjectId)
    requires DeclaringType(m).Some? || IsGenericInstance(m)
    requires ContainsGenericParameter(m) == Ok(false)
    ensures GetRuntimeReferenceOfSelf(m, bindings, newId) == Ok(m)
  {
  }

  /** The runtime view of a method of a generic-instance type is declared by that
      same instance, and its parameters are the method's own parameters substituted
      under it. */
  lemma RuntimeViewOfGenericTypeMember(m: MethodRef, bindings: map<TypeNode, TypeNode>, newId: ObjectId)
    requires !IsGenericInstance(m) && DeclaringType(m).Some? && DeclaringType(m).value.GenericInstance?
    requires ContainsGenericParameter(m) == Ok(true)
    ensures var r := GetRuntimeReferenceOfSelf(m, bindings, newId);
      r.Ok? && r.value.Constructed? && DeclaringType(r.value) == DeclaringType(m)
      && Name(r.value) == Name(m)
      && |ParameterTypes(r.value)| == |ParameterTypes(m)|
      && forall i :: 0 <= i < |ParameterTypes(m)| ==>
           ParameterTypes(r.value)[i] == Applied(ParameterTypes(m)[i], AsContext(m, bindings))
  {
    var r := GetRuntimeReferenceOfSelf(m, bindings, newId);
    assert r == Ok(Constructed(newId, m, AsContext(m, bindings)));
  }

  // ---- Resolve and GetOverrides ----

  /** Resolve: without a module there is nothing to resolve against
      (NotSupportedException); a constructed view resolves its element. */
  function Resolve(m: MethodRef, resolver: Resolver): (r: Result<Option<MethodDefinition>>)
    ensures r.Err? <==> ModuleOf(m).None?
    ensures r.Err? ==> r.error == NotSupported
    ensures !m.Constructed? && r.Ok? ==> r.value == resolver(ModuleOf(m).value, m)
  {
    match m
    case Constructed(_, e, _) => Resolve(e, resolver)
    case _ =>
      match ModuleOf(m)
      case None => Err(NotSupported)
      case Some(mid) => Ok(resolver(mid, m))
  }

  /** GetOverrides: the resolved definition's overrides, failing when Resolve fails or
      finds nothing. A constructed view maps its element's overrides one to one, in
      order, to their runtime views under its own context; the i-th new view gets
      the object id newId + i. */
  function GetOverrides(m: MethodRef, resolver: Resolver, newId: ObjectId): (r: Result<seq<MethodRef>>)
    ensures ModuleOf(m).None? ==> r == Err(NotSupported)
    ensures !m.Constructed? && r.Ok? ==> Resolve(m, resolver) == Ok(Some(MethodDefinition(r.value)))
    ensures !m.Constructed? && Resolve(m, resolver) == Ok(None) ==> r == Err(NullReference)
    ensures m.Constructed? && r.Ok? ==>
      var inner := GetOverrides(m.element, resolver, newId);
      inner.Ok? && |r.value| == |inner.value|
      && forall i :: 0 <= i < |r.value| ==> GetRuntimeReference(inner.value[i], m.ctx, newId + i) == Ok(r.value[i])
  {
    match m
    case Constructed(_, e, ctx) =>
      (match GetOverrides(e, resolver, newId)
       case Err(x) => Err(x)
       case Ok(os) =>
         var views := seq(|os|, i requires 0 <= i < |os| => GetRuntimeReference(os[i], ctx, newId + i));
         if exists i :: 0 <= i < |os| && views[i].Err? then Err(NullReference)
         else Ok(seq(|os|, i requires 0 <= i < |os| => views[i].value)))
    case _ =>
      match Resolve(m, resolver)
      case Err(x) => Err(x)
      case Ok(None) => Err(NullReference)
      case Ok(Some(d)) => Ok(d.overrides)
  }

  // ---- the constructed view's parameters ----

  /** ConstructedMethodReference.GetParameters, as the loop the source runs: one new
      parameter per parameter of the element, of its type substituted under the
      view's context. */
  method ConstructedGetParameters(m: MethodRef) returns (ps: seq<TypeNode>)
    requires m.Constructed?
    ensures |ps| == |ParameterTypes(m.element)|
    ensures forall i :: 0 <= i < |ps| ==> ps[i] == Applied(ParameterTypes(m.element)[i], m.ctx)
    ensures ps == ParameterTypes(m)
  {
    var baseParams := ParameterTypes(m.element);
    if |baseParams| == 0 {
      return baseParams;
    }
    ps := [];
    var i := 0;
    while i < |baseParams|
      invariant 0 <= i <= |baseParams|
      invariant |ps| == i
      invariant forall k :: 0 <= k < i ==> ps[k] == Applied(baseParams[k], m.ctx)
    {
      ps := ps + [Applied(baseParams[i], m.ctx)];
      i := i + 1;
    }
  }

  // ---- generic arguments ----

  /** GenericArguments: a GenericInstanceMethod's own list; a constructed view's
      element's, when that element is itself a generic instance, and null otherwise. */
  function GenericArguments(m: MethodRef): (r: Option<seq<TypeNode>>)
    ensures m.GenericInstanceMethod? ==> r == Some(m.genericArguments)
    ensures m.ModuleMethod? || (m.Constructed? && m.element.ModuleMethod?) ==> r.None?
  {
    match m
    case ModuleMethod(_, _, _, _, _, _, _, _, _, _) => None
    case GenericInstanceMethod(_, _, args) => Some(args)
    case Constructed(_, e, _) => if e.ModuleMethod? then None else GenericArguments(e)
  }

  /** HasGenericArguments: false when the list is absent or empty. */
  predicate HasGenericArguments(m: MethodRef)
  {
    match m
    case ModuleMethod(_, _, _, _, _, _, _, _, _, _) => false
    case GenericInstanceMethod(_, _, args) => |args| > 0
    case Constructed(_, e, _) => !e.ModuleMethod? && HasGenericArguments(e)
  }

  lemma {:induction false} HasGenericArgumentsMeansNonEmpty(m: MethodRef)
    ensures HasGenericArguments(m) <==> GenericArguments(m).Some? && |GenericArguments(m).value| > 0
  {
    if m.Constructed? && !m.element.ModuleMethod? {
      HasGenericArgumentsMeansNonEmpty(m.element);
    }
  }

  // ---- names ----

  /** The angle-bracketed list GenericInstanceFullName and GenericParametersFullName
      append. */
  function GenericArgumentText(ts: seq<TypeNode>): string
  {
    "<" + CommaList(seq(|ts|, i requires 0 <= i < |ts| => TypeNodes.FullName(ts[i]))) + ">"
  }

  /** The member name of MemberReference: the declaring type's full name and "::",
      when there is a declaring type, then the name. */
  function BaseMemberFullName(m: MethodRef): string
  {
    Members.MemberFullName(DeclaringType(m), Name(m))
  }

  /** MemberFullName. A GenericInstanceMethod adds its arguments. A constructed view
      adds its element's arguments when the element is a generic instance, which fails
      when that element has no list; otherwise it adds the element's generic
      parameters when it has any. */
  function MemberFullName(m: MethodRef): (r: Result<string>)
    ensures r.Err? ==> r.error == NullReference && m.Constructed? && !m.element.ModuleMethod?
    ensures r.Ok? ==> |r.value| >= |BaseMemberFullName(m)|
                      && r.value[..|BaseMemberFullName(m)|] == BaseMemberFullName(m)
    ensures m.ModuleMethod? ==> r == Ok(BaseMemberFullName(m))
    ensures m.Constructed? && m.element.ModuleMethod? && !HasGenericParameters(m.element)
            ==> r == Ok(BaseMemberFullName(m))
  {
    var base := BaseMemberFullName(m);
    match m
    case ModuleMethod(_, _, _, _, _, _, _, _, _, _) => Ok(base)
    case GenericInstanceMethod(_, _, args) => Ok(base + GenericArgumentText(args))
    case Constructed(_, e, _) =>
      if !e.ModuleMethod? then
        match GenericArguments(e)
        case None => Err(NullReference)
        case Some(args) => Ok(base + GenericArgumentText(args))
      else if HasGenericParameters(e) then Ok(base + GenericArgumentText(e.genericParameters))
      else Ok(base)
  }

  /** The return type's full name and a space, when there is a return type. */
  function ReturnTypePrefix(m: MethodRef): string
  {
    match ReturnType(m)
    case None => ""
    case Some(t) => TypeNodes.FullName(t) + " "
  }

  /** FullName: the return type prefix, the member name, then the parameter list. */
  function FullName(m: MethodRef): (r: Result<string>)
    ensures r.Err? <==> MemberFullName(m).Err?
    ensures r.Ok? ==>
      var prefix := ReturnTypePrefix(m);
      var sig := SignatureText(ParamTextsOf(ParameterTypes(m)));
      var member := MemberFullName(m).value;
      |r.value| == |prefix| + |member| + |sig|
      && r.value[..|prefix|] == prefix
      && r.value[|prefix|..|prefix| + |member|] == member
      && r.value[|r.value| - |sig|..] == sig
  {
    match MemberFullName(m)
    case Err(e) => Err(e)
    case Ok(member) =>
      Ok(ReturnTypePrefix(m) + member + SignatureText(ParamTextsOf(ParameterTypes(m))))
  }

  /** A GenericInstanceMethod's member name ends in ">", after the argument list. */
  lemma GenericInstanceMemberNameEndsWithArguments(m: MethodRef)
    requires m.GenericInstanceMethod?
    ensures MemberFullName(m).Ok?
    ensures var s := MemberFullName(m).value;
      var t := GenericArgumentText(m.genericArguments);
      |s| == |BaseMemberFullName(m)| + |t| && s[|s| - |t|..] == t && s[|s| - 1] == '>'
  {
  }
}
