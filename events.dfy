/** Event references: the constructor check, the full name and the runtime-view
    decision. EventReference has no generic-parameter test of its own, so as written it
    inherits the member's, which looks only at the declaring type; the corrected test
    also asks the event type, as fields and properties do. */
module Events {
  import opened Wrappers
  import opened TypeNodes
  import opened Substitution
  import opened Members

  /** An EventReference: its name, its event type and its declaring type; either type
      may be null. */
  datatype EventRef = EventRef(name: string, eventType: Option<TypeNode>, declaringType: Option<TypeNode>)

  /** The EventReference constructor: a missing event type is refused. */
  function NewEventRef(name: string, eventType: Option<TypeNode>): (r: Result<EventRef>)
    ensures r.Err? <==> eventType.None?
    ensures r.Err? ==> r.error == ArgumentNull
    ensures r.Ok? ==> r.value.name == name && r.value.eventType == eventType && r.value.declaringType.None?
  {
    if eventType.None? then Err(ArgumentNull) else Ok(EventRef(name, eventType, None))
  }

  /** MemberType: always an event. */
  function MemberType(e: EventRef): (r: MemberDefinitionType)
    ensures r == EventMember
  {
    EventMember
  }

  /** FullName: the event type's full name, a space, then the member name; reading a
      null event type fails. */
  function FullNameOf(e: EventRef): (r: Result<string>)
    ensures r.Err? <==> e.eventType.None?
    ensures r.Err? ==> r.error == NullReference
    ensures r.Ok? ==> var prefix := TypeNodes.FullName(e.eventType.value) + " ";
                      |r.value| == |prefix| + |MemberFullName(e.declaringType, e.name)|
                      && r.value[..|prefix|] == prefix
                      && r.value[|prefix|..] == MemberFullName(e.declaringType, e.name)
                      && r.value[|r.value| - |e.name|..] == e.name
  {
    match e.eventType
    case None => Err(NullReference)
    case Some(t) => Ok(TypeNodes.FullName(t) + " " + MemberFullName(e.declaringType, e.name))
  }

  // ---- ContainsGenericParameter, as written and corrected ----

  /** ContainsGenericParameter as written: the inherited member test of the declaring
      type alone; the event type is never consulted. */
  predicate ContainsGenericParameterAsWritten(e: EventRef)
  {
    MemberContainsGenericParameter(e.declaringType)
  }

  /** GetRuntimeReference() as written: the shared decision over the inherited test. */
  function RuntimeViewOfSelfAsWritten(e: EventRef, bindings: map<TypeNode, TypeNode>): RuntimeView
  {
    Members.RuntimeViewOfSelf(e.declaringType, Ok(ContainsGenericParameterAsWritten(e)), bindings)
  }

  /** The inherited test makes GetRuntimeReference() hand back an event of a closed
      generic instance unchanged whatever its type mentions: Foo<CancelEventArgs>.FooEvent
      keeps the event type EventHandler<T>, while a view under the declaring type would
      have EventHandler<CancelEventArgs>. */
  lemma AsWrittenKeepsOpenEventType()
    ensures var T := GenericParam(TypeProvider, 1, 0, "T");
      var cancel := Named("System.ComponentModel", "CancelEventArgs", None, false);
      var foo := GenericInstance(Named("", "Foo`1", None, false), [cancel], false);
      var handler := Named("System", "EventHandler`1", None, false);
      var e := EventRef("FooEvent", Some(GenericInstance(handler, [T], false)), Some(foo));
      var closed := GenericInstance(handler, [cancel], false);
      RuntimeViewOfSelfAsWritten(e, map[T := cancel]) == Same
      && ContainsGenericParameter(e.eventType.value)
      && RuntimeViewOfSelf(e, map[T := cancel]) == ConstructedUnder(TypeContext(foo, map[T := cancel]))
      && Applied(e.eventType.value, TypeContext(foo, map[T := cancel])) == closed
  {
    var T := GenericParam(TypeProvider, 1, 0, "T");
    var cancel := Named("System.ComponentModel", "CancelEventArgs", None, false);
    var handler := Named("System", "EventHandler`1", None, false);
    var open := GenericInstance(handler, [T], false);
    var foo := GenericInstance(Named("", "Foo`1", None, false), [cancel], false);
    var ctx := TypeContext(foo, map[T := cancel]);
    assert ContainsGenericParameter(open) by { assert ContainsGenericParameter(open.arguments[0]); }
    assert !ContainsGenericParameter(foo) by {
      assert forall i :: 0 <= i < |foo.arguments| ==> foo.arguments[i] == cancel;
    }
    assert Apply(T, ctx) == Some(cancel);
    var results := seq(1, i requires 0 <= i < 1 => Apply(open.arguments[i], ctx));
    assert results == [Some(cancel)];
    assert seq(1, i requires 0 <= i < 1 => results[i].GetOr(open.arguments[i])) == [cancel];
  }

  /** ContainsGenericParameter as intended: the event type, or else the member, like the
      field and property tests; reading a null event type fails. */
  function ContainsGenericParameterOf(e: EventRef): (r: Result<bool>)
    ensures r.Err? <==> e.eventType.None?
    ensures r.Err? ==> r.error == NullReference
    ensures r == Ok(false) <==>
      e.eventType.Some? && !ContainsGenericParameter(e.eventType.value) && !ContainsGenericParameterAsWritten(e)
  {
    match e.eventType
    case None => Err(NullReference)
    case Some(t) => Ok(ContainsGenericParameter(t) || MemberContainsGenericParameter(e.declaringType))
  }

  // ---- GetRuntimeReference ----

  /** GetRuntimeReference(ctx) over the corrected test ContainsGenericParameterOf (as
      written the test is ContainsGenericParameterAsWritten): the event itself exactly
      when the context is its own declaring-type object and it mentions no generic
      parameter; a new constructed view under `ctx` otherwise, unless reading the event
      type fails. */
  function RuntimeView(e: EventRef, ctx: Context): (v: RuntimeView)
    ensures v == Same <==>
      e.declaringType.Some? && ctx.self == TypeObject(e.declaringType.value) && ContainsGenericParameterOf(e) == Ok(false)
    ensures v.Fails? <==> e.declaringType.Some? && ctx.self == TypeObject(e.declaringType.value) && e.eventType.None?
    ensures v.Fails? ==> v.error == NullReference
    ensures v.ConstructedUnder? ==> v.ctx == ctx
  {
    RuntimeViewUnder(e.declaringType, ContainsGenericParameterOf(e), ctx)
  }

  /** GetRuntimeReference() over the corrected test (the source's is
      RuntimeViewOfSelfAsWritten): the event itself unless its declaring type is a
      generic instance, and otherwise the decision under the declaring type. */
  function RuntimeViewOfSelf(e: EventRef, bindings: map<TypeNode, TypeNode>): (v: RuntimeView)
    ensures e.declaringType.None? ==> v == Fails(NullReference)
    ensures e.declaringType.Some? && !e.declaringType.value.GenericInstance? ==> v == Same
    ensures e.declaringType.Some? && e.declaringType.value.GenericInstance? ==>
      v == RuntimeView(e, TypeContext(e.declaringType.value, bindings))
  {
    Members.RuntimeViewOfSelf(e.declaringType, ContainsGenericParameterOf(e), bindings)
  }

  /** The corrected decision differs from the one as written only where the event type
      mentions a generic parameter: there it builds a view instead of handing back the
      event. */
  lemma CorrectedAgreesOnClosedEventTypes(e: EventRef, bindings: map<TypeNode, TypeNode>)
    requires e.eventType.Some?
    ensures !ContainsGenericParameter(e.eventType.value) ==>
      RuntimeViewOfSelf(e, bindings) == RuntimeViewOfSelfAsWritten(e, bindings)
    ensures ContainsGenericParameter(e.eventType.value) && e.declaringType.Some? && e.declaringType.value.GenericInstance? ==>
      RuntimeViewOfSelf(e, bindings).ConstructedUnder?
      && RuntimeViewOfSelf(e, bindings).ctx.instanceType == e.declaringType
  {
  }

  /** The Mixin converter, over the corrected test; it hands its context on: with the
      event's own generic-instance declaring type as the context it agrees with
      GetRuntimeReference(), and any other context always builds a view under it. */
  function MixinGetRuntimeReference(e: EventRef, ctx: Context): (v: RuntimeView)
    ensures e.declaringType.Some? && e.declaringType.value.GenericInstance?
            && ctx == TypeContext(e.declaringType.value, ctx.bindings)
            ==> v == RuntimeViewOfSelf(e, ctx.bindings)
    ensures !(e.declaringType.Some? && ctx.self == TypeObject(e.declaringType.value)) ==> v == ConstructedUnder(ctx)
  {
    RuntimeView(e, ctx)
  }
}
