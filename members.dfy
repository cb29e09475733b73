/** What fields, properties, events and methods share as MemberReferences: the member
    name, the member kinds, a type used as a generic context, and the decision
    GetRuntimeReference makes between the member itself and a constructed view. */
module Members {
  import opened Wrappers
  import opened TypeNodes
  import opened Substitution

  /** MemberDefinitionType, as far as this model reports it. */
  datatype MemberDefinitionType = FieldMember | PropertyMember | EventMember | MethodMember

  /** MemberFullName: the declaring type's full name and "::" in front of the name, or
      the name alone when there is no declaring type. */
  function MemberFullName(declaringType: Option<TypeNode>, name: string): (r: string)
    ensures declaringType.None? ==> r == name
    ensures var prefix := if declaringType.Some? then FullName(declaringType.value) + "::" else "";
      |r| == |prefix| + |name| && r[..|prefix|] == prefix && r[|prefix|..] == name
  {
    match declaringType
    case None => name
    case Some(d) => FullName(d) + "::" + name
  }

  /** MemberReference.ContainsGenericParameter, the part every member adds to its own
      test: whether the declaring type mentions a generic parameter. */
  predicate MemberContainsGenericParameter(declaringType: Option<TypeNode>)
  {
    declaringType.Some? && ContainsGenericParameter(declaringType.value)
  }

  /** A type reference as the context of a substitution: the type object itself and,
      for a generic instance, that instance as the instance type. `bindings` stands for
      what its arguments bind, which is not part of this model. */
  function TypeContext(t: TypeNode, bindings: map<TypeNode, TypeNode>): (c: Context)
    ensures c.self == TypeObject(t)
    ensures c.instanceType.Some? <==> t.GenericInstance?
    ensures c.instanceType.Some? ==> c.instanceType.value == t
  {
    Context(TypeObject(t), if t.GenericInstance? then Some(t) else None, bindings)
  }

  /** What GetRuntimeReference decides for a field, property or event: the member
      itself, a new constructed view under a context, or the exception it throws. */
  datatype RuntimeView = Same | ConstructedUnder(ctx: Context) | Fails(error: Error)

  /** GetRuntimeReference(ctx): the member itself exactly when the context is the member's
      own declaring-type object and the member mentions no generic parameter; the
      generic-parameter test runs only in that case, and its failure is the call's. */
  function RuntimeViewUnder(declaringType: Option<TypeNode>, contains: Result<bool>, ctx: Context): (v: RuntimeView)
    ensures v == Same <==> declaringType.Some? && ctx.self == TypeObject(declaringType.value) && contains == Ok(false)
    ensures v.Fails? <==> declaringType.Some? && ctx.self == TypeObject(declaringType.value) && contains.Err?
    ensures v.Fails? ==> v.error == contains.error
    ensures !v.Same? && !v.Fails? ==> v == ConstructedUnder(ctx)
  {
    if declaringType.Some? && ctx.self == TypeObject(declaringType.value) then
      match contains
      case Err(e) => Fails(e)
      case Ok(c) => if c then ConstructedUnder(ctx) else Same
    else ConstructedUnder(ctx)
  }

  /** GetRuntimeReference(): the member itself unless its declaring type is a generic
      instance, and otherwise the decision under that declaring type as the context.
      A member without a declaring type fails on the IsGenericInstance test. */
  function RuntimeViewOfSelf(declaringType: Option<TypeNode>, contains: Result<bool>, bindings: map<TypeNode, TypeNode>): (v: RuntimeView)
    ensures declaringType.None? ==> v == Fails(NullReference)
    ensures declaringType.Some? && !declaringType.value.GenericInstance? ==> v == Same
    ensures declaringType.Some? && declaringType.value.GenericInstance? ==>
      v == RuntimeViewUnder(declaringType, contains, TypeContext(declaringType.value, bindings))
  {
    match declaringType
    case None => Fails(NullReference)
    case Some(d) =>
      if !d.GenericInstance? then Same
      else RuntimeViewUnder(declaringType, contains, TypeContext(d, bindings))
  }

  /** A member of a generic instance is handed back itself by GetRuntimeReference()
      exactly when it mentions no generic parameter, and is otherwise viewed under its
      declaring type, which then becomes the view's instance type. */
  lemma RuntimeViewOfInstanceMember(declaringType: TypeNode, contains: Result<bool>, bindings: map<TypeNode, TypeNode>)
    requires declaringType.GenericInstance?
    ensures var v := RuntimeViewOfSelf(Some(declaringType), contains, bindings);
      (v == Same <==> contains == Ok(false))
      && (contains == Ok(true) ==> v.ConstructedUnder? && v.ctx.instanceType == Some(declaringType))
  {
  }
}
