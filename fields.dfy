/** Field references: a FieldReference and the ConstructedFieldReference that views one
    under a generic context. A constructed view keeps the reference it wraps, reads and
    writes its name through it and resolves through it; its own field type and
    declaring type are the substituted ones. */
module Fields {
  import opened Wrappers
  import opened TypeNodes
  import opened Substitution
  import opened Members
  import Methods

  /** ModuleDefinition.Resolve for a field: the field definition found for a reference,
      or none. */
  type FieldResolver = (Methods.ModuleId, Methods.ObjectId) -> Option<Methods.ObjectId>

  class FieldReference {
    /** Object identity. */
    const id: Methods.ObjectId
    /** The reference a ConstructedFieldReference wraps; null for a plain FieldReference. */
    const underlying: FieldReference?
    /** How many wrappers lie above the plain reference at the bottom. */
    ghost const depth: nat

    /** The name field of this object; a constructed view answers with its wrapped
        reference's name instead (see Name). */
    var name: string
    var fieldType: Option<TypeNode>
    var declaringType: Option<TypeNode>
    /** The module of the declaring type, when there is one. */
    var moduleId: Option<Methods.ModuleId>

    /** The chain of wrapped references ends in a plain reference. */
    ghost predicate Chained()
      decreases depth
    {
      (underlying == null ==> depth == 0)
      && (underlying != null ==> underlying.depth < depth && underlying.Chained())
    }

    /** The plain reference at the bottom of the chain of wrapped references. */
    function Root(): (r: FieldReference)
      requires Chained()
      ensures r.underlying == null && r.Chained()
      ensures underlying == null ==> r == this
      decreases depth
    {
      if underlying == null then this else underlying.Root()
    }

    /** A plain reference with the given parts. */
    constructor (id: Methods.ObjectId, name: string, fieldType: Option<TypeNode>, declaringType: Option<TypeNode>, moduleId: Option<Methods.ModuleId>)
      ensures this.id == id && this.name == name && this.fieldType == fieldType
      ensures this.declaringType == declaringType && this.moduleId == moduleId
      ensures underlying == null && Chained()
    {
      this.id := id;
      this.underlying := null;
      this.depth := 0;
      this.name := name;
      this.fieldType := fieldType;
      this.declaringType := declaringType;
      this.moduleId := moduleId;
    }

    /** The ConstructedFieldReference constructor, once its base constructor has checked
        the wrapped reference's field type and declaring type: the declaring type is the
        context's instance type when it has one, the field type is substituted. */
    constructor Wrap(id: Methods.ObjectId, f: FieldReference, ctx: Context)
      requires f.Chained() && f.fieldType.Some? && f.declaringType.Some?
      ensures IsViewOf(f, ctx) && Chained()
      ensures this.id == id && name == f.Root().name && moduleId == f.moduleId
    {
      this.id := id;
      this.underlying := f;
      this.depth := f.depth + 1;
      this.name := f.Root().name;
      this.fieldType := Some(Applied(f.fieldType.value, ctx));
      this.declaringType := if ctx.instanceType.Some? then ctx.instanceType else f.declaringType;
      this.moduleId := f.moduleId;
    }

    /** This reference is a constructed view of `f` under `ctx`. */
    ghost predicate IsViewOf(f: FieldReference, ctx: Context)
      reads this, f
    {
      underlying == f
      && f.fieldType.Some?
      && fieldType == Some(Applied(f.fieldType.value, ctx))
      && declaringType == (if ctx.instanceType.Some? then ctx.instanceType else f.declaringType)
    }

    /** Name: a constructed view answers with the name of the reference it wraps, so
        every reference in a chain answers with the name of the plain one at the bottom. */
    function Name(): (r: string)
      requires Chained()
      reads Root()
      ensures underlying == null ==> r == name
      ensures underlying != null ==> r == underlying.Name()
      ensures r == Root().name
      decreases depth
    {
      if underlying == null then name else underlying.Name()
    }

    /** The Name setter: a constructed view writes the name of the reference it wraps;
        no other part of the plain reference changes, and neither do the view's own
        fields. */
    method SetName(v: string)
      requires Chained()
      modifies Root()
      ensures Name() == v
      ensures Root().name == v
      ensures Root().fieldType == old(Root().fieldType) && Root().declaringType == old(Root().declaringType)
              && Root().moduleId == old(Root().moduleId)
      ensures this != Root() ==>
        name == old(name) && fieldType == old(fieldType)
        && declaringType == old(declaringType) && moduleId == old(moduleId)
    {
      var r := Root();
      r.name := v;
    }

    /** The FieldType setter. */
    method SetFieldType(v: Option<TypeNode>)
      modifies this
      ensures fieldType == v
      ensures name == old(name) && declaringType == old(declaringType) && moduleId == old(moduleId)
    {
      fieldType := v;
    }

    /** MemberType: always a field. */
    function MemberType(): (r: MemberDefinitionType)
      ensures r == FieldMember
    {
      FieldMember
    }

    /** FullName: the field type's full name, a space, then the member name; reading
        the field type of a reference without one fails. */
    function FullName(): (r: Result<string>)
      requires Chained()
      reads this, Root()
      ensures r.Err? <==> fieldType.None?
      ensures r.Err? ==> r.error == NullReference
      ensures r.Ok? ==> var prefix := TypeNodes.FullName(fieldType.value) + " ";
                        var member := MemberFullName(declaringType, Name());
                        r.value == prefix + member
                        && r.value[..|prefix|] == prefix
                        && r.value[|r.value| - |Name()|..] == Name()
    {
      match fieldType
      case None => Err(NullReference)
      case Some(t) => Ok(TypeNodes.FullName(t) + " " + MemberFullName(declaringType, Name()))
    }

    /** ContainsGenericParameter: the field type's, or else the member's (its declaring
        type's); reading the field type of a reference without one fails. */
    function ContainsGenericParameter(): (r: Result<bool>)
      reads this
      ensures r.Err? <==> fieldType.None?
      ensures r.Err? ==> r.error == NullReference
      ensures r == Ok(false) <==>
        fieldType.Some? && !TypeNodes.ContainsGenericParameter(fieldType.value)
        && (declaringType.None? || !TypeNodes.ContainsGenericParameter(declaringType.value))
    {
      match fieldType
      case None => Err(NullReference)
      case Some(t) =>
        Ok(TypeNodes.ContainsGenericParameter(t)
           || MemberContainsGenericParameter(declaringType))
    }

    /** Resolve: a constructed view resolves the reference it wraps, so a chain resolves
        its plain reference, which needs a module. */
    function Resolve(resolver: FieldResolver): (r: Result<Option<Methods.ObjectId>>)
      requires Chained()
      reads Root()
      ensures r.Err? <==> Root().moduleId.None?
      ensures r.Err? ==> r.error == NotSupported
      ensures r.Ok? ==> r.value == resolver(Root().moduleId.value, Root().id)
      ensures underlying != null ==> r == underlying.Resolve(resolver)
      decreases depth
    {
      if underlying != null then underlying.Resolve(resolver)
      else if moduleId.None? then Err(NotSupported)
      else Ok(resolver(moduleId.value, id))
    }

    /** GetRuntimeReference(ctx): the shared decision, where building the view fails
        with ArgumentNull when the field type or the declaring type is missing. */
    function RuntimeView(ctx: Context): (v: RuntimeView)
      reads this
      ensures v == Same <==>
        declaringType.Some? && ctx.self == TypeObject(declaringType.value) && ContainsGenericParameter() == Ok(false)
      ensures v == Fails(NullReference) <==>
        declaringType.Some? && ctx.self == TypeObject(declaringType.value) && fieldType.None?
      ensures v == Fails(ArgumentNull) <==>
        !(declaringType.Some? && ctx.self == TypeObject(declaringType.value)) && (fieldType.None? || declaringType.None?)
      ensures v.ConstructedUnder? ==> v.ctx == ctx && fieldType.Some? && declaringType.Some?
    {
      var v := RuntimeViewUnder(declaringType, ContainsGenericParameter(), ctx);
      if v.ConstructedUnder? && (fieldType.None? || declaringType.None?) then Fails(ArgumentNull) else v
    }

    /** GetRuntimeReference(): this reference unless its declaring type is a generic
        instance, and otherwise the decision under that declaring type. */
    function RuntimeViewOfSelf(bindings: map<TypeNode, TypeNode>): (v: RuntimeView)
      reads this
      ensures declaringType.None? ==> v == Fails(NullReference)
      ensures declaringType.Some? && !declaringType.value.GenericInstance? ==> v == Same
      ensures declaringType.Some? && declaringType.value.GenericInstance? ==>
        v == RuntimeView(TypeContext(declaringType.value, bindings))
    {
      match declaringType
      case None => Fails(NullReference)
      case Some(d) => if !d.GenericInstance? then Same else RuntimeView(TypeContext(d, bindings))
    }

    /** GetRuntimeReference(ctx), building the view when the decision asks for one. */
    method GetRuntimeReference(ctx: Context, newId: Methods.ObjectId) returns (r: Result<FieldReference>)
      requires Chained()
      ensures RuntimeView(ctx) == Same ==> r == Ok(this)
      ensures RuntimeView(ctx).Fails? ==> r == Err(RuntimeView(ctx).error)
      ensures RuntimeView(ctx).ConstructedUnder? ==>
        r.Ok? && fresh(r.value) && r.value.id == newId && r.value.IsViewOf(this, ctx) && r.value.Chained()
    {
      if declaringType.Some? && ctx.self == TypeObject(declaringType.value) {
        var contains := ContainsGenericParameter();
        if contains.Err? {
          return Err(contains.error);
        }
        if !contains.value {
          return Ok(this);
        }
      }
      r := Construct(this, ctx, newId);
    }

    /** GetRuntimeReference(). */
    method GetRuntimeReferenceOfSelf(bindings: map<TypeNode, TypeNode>, newId: Methods.ObjectId) returns (r: Result<FieldReference>)
      requires Chained()
      ensures RuntimeViewOfSelf(bindings) == Same ==> r == Ok(this)
      ensures RuntimeViewOfSelf(bindings).Fails? ==> r == Err(RuntimeViewOfSelf(bindings).error)
      ensures RuntimeViewOfSelf(bindings).ConstructedUnder? ==>
        r.Ok? && fresh(r.value) && r.value.id == newId && r.value.Chained()
        && r.value.IsViewOf(this, RuntimeViewOfSelf(bindings).ctx)
    {
      match declaringType
      case None => return Err(NullReference);
      case Some(d) =>
        if !d.GenericInstance? {
          return Ok(this);
        }
        r := GetRuntimeReference(TypeContext(d, bindings), newId);
    }
  }

  /** new ConstructedFieldReference(f, ctx): the base constructor refuses a missing
      field type or declaring type; otherwise a new view of `f`. Nothing of `f` changes. */
  method Construct(f: FieldReference, ctx: Context, newId: Methods.ObjectId) returns (r: Result<FieldReference>)
    requires f.Chained()
    ensures r.Err? <==> f.fieldType.None? || f.declaringType.None?
    ensures r.Err? ==> r.error == ArgumentNull
    ensures r.Ok? ==> fresh(r.value) && r.value.id == newId && r.value.IsViewOf(f, ctx) && r.value.Chained()
  {
    if f.fieldType.None? || f.declaringType.None? {
      return Err(ArgumentNull);
    }
    var w := new FieldReference.Wrap(newId, f, ctx);
    return Ok(w);
  }

  /** The FieldReference(name, fieldType) constructor: a missing field type is refused;
      there is no declaring type yet. */
  method NewFieldReference(id: Methods.ObjectId, name: string, fieldType: Option<TypeNode>) returns (r: Result<FieldReference>)
    ensures r.Err? <==> fieldType.None?
    ensures r.Err? ==> r.error == ArgumentNull
    ensures r.Ok? ==> fresh(r.value) && r.value.Chained() && r.value.underlying == null
                      && r.value.id == id && r.value.name == name && r.value.fieldType == fieldType
                      && r.value.declaringType.None? && r.value.moduleId.None?
  {
    if fieldType.None? {
      return Err(ArgumentNull);
    }
    var f := new FieldReference(id, name, fieldType, None, None);
    return Ok(f);
  }

  /** The FieldReference(name, fieldType, declaringType) constructor: the field type is
      checked first, then the declaring type. */
  method NewFieldReferenceIn(id: Methods.ObjectId, name: string, fieldType: Option<TypeNode>, declaringType: Option<TypeNode>, moduleId: Option<Methods.ModuleId>)
    returns (r: Result<FieldReference>)
    ensures r.Err? <==> fieldType.None? || declaringType.None?
    ensures r.Err? ==> r.error == ArgumentNull
    ensures r.Ok? ==> fresh(r.value) && r.value.Chained() && r.value.underlying == null
                      && r.value.id == id && r.value.name == name && r.value.fieldType == fieldType
                      && r.value.declaringType == declaringType && r.value.moduleId == moduleId
  {
    if fieldType.None? || declaringType.None? {
      return Err(ArgumentNull);
    }
    var f := new FieldReference(id, name, fieldType, declaringType, moduleId);
    return Ok(f);
  }

  /** The Mixin converter: it ignores the context it is handed and asks the reference
      for GetRuntimeReference(). */
  method MixinGetRuntimeReference(f: FieldReference, useContext: Context, bindings: map<TypeNode, TypeNode>, newId: Methods.ObjectId)
    returns (r: Result<FieldReference>)
    requires f.Chained()
    ensures f.RuntimeViewOfSelf(bindings) == Same ==> r == Ok(f)
    ensures f.RuntimeViewOfSelf(bindings).Fails? ==> r == Err(f.RuntimeViewOfSelf(bindings).error)
    ensures f.RuntimeViewOfSelf(bindings).ConstructedUnder? ==>
      r.Ok? && fresh(r.value) && r.value.Chained() && r.value.IsViewOf(f, f.RuntimeViewOfSelf(bindings).ctx)
  {
    r := f.GetRuntimeReferenceOfSelf(bindings, newId);
  }

  /** GetRuntimeReference() never reaches the ArgumentNull of the view's constructor:
      it builds a view only under the field's own declaring type, where a missing field
      type has already failed the generic-parameter test. Its decision is the shared
      one for members. */
  lemma {:induction false} SelfViewIsSharedDecision(f: FieldReference, bindings: map<TypeNode, TypeNode>)
    ensures f.RuntimeViewOfSelf(bindings) != Fails(ArgumentNull)
    ensures f.RuntimeViewOfSelf(bindings) == Members.RuntimeViewOfSelf(f.declaringType, f.ContainsGenericParameter(), bindings)
  {
    if f.declaringType.Some? && f.declaringType.value.GenericInstance? {
      var ctx := TypeContext(f.declaringType.value, bindings);
      assert ctx.self == TypeObject(f.declaringType.value);
    }
  }

  /** A field of a generic instance that mentions no generic parameter is its own
      runtime view; one whose type does is viewed under its declaring type, which the
      view keeps as its declaring type, with the field type substituted. */
  lemma FieldOfInstanceView(f: FieldReference, bindings: map<TypeNode, TypeNode>)
    requires f.declaringType.Some? && f.declaringType.value.GenericInstance?
    requires f.fieldType.Some?
    ensures !TypeNodes.ContainsGenericParameter(f.fieldType.value)
            && !TypeNodes.ContainsGenericParameter(f.declaringType.value)
            ==> f.RuntimeViewOfSelf(bindings) == Same
    ensures TypeNodes.ContainsGenericParameter(f.fieldType.value) ==>
      var v := f.RuntimeViewOfSelf(bindings);
      v.ConstructedUnder? && v.ctx.instanceType == f.declaringType
  {
  }
}
