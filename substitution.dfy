/** ApplyTypeArguments: replacing bound generic parameters in a type-specification
    tree. A node whose substitution changes nothing hands back itself, and callers
    compare the result with the original by reference to see whether anything
    happened; here that answer is explicit: `None` means "the node itself",
    `Some(n)` means "a newly built node n". */
module Substitution {
  import opened Wrappers
  import opened TypeNodes

  /** The object that plays the generic context, for the identity tests
      `ctx == this` and `ctx == DeclaringType` of the member references. */
  datatype CtxSelf = TypeObject(t: TypeNode) | MethodObject(id: nat) | OtherObject(id: nat)

  /** An IGenericContext: which object it is, its InstanceType, and the arguments it
      supplies for generic parameters. How a GenericParameter finds its argument is
      not part of this model: `bindings` stands for that lookup, and a parameter it
      does not bind is handed back unchanged. */
  datatype Context = Context(self: CtxSelf, instanceType: Option<TypeNode>, bindings: map<TypeNode, TypeNode>)

  /** The substitution of every node kind. Only a node that contains a generic
      parameter is ever rebuilt, and a rebuilt node keeps its kind; a rebuilt generic
      instance keeps its element and the number of its arguments. */
  function Apply(t: TypeNode, ctx: Context): (r: Option<TypeNode>)
    ensures r.Some? ==> ContainsGenericParameter(t)
    ensures r.Some? ==> !t.Named? && !t.FunctionPointer?
    ensures r.Some? && t.Pointer? ==> r.value.Pointer?
    ensures r.Some? && t.Pinned? ==> r.value.Pinned?
    ensures r.Some? && t.Sentinel? ==> r.value.Sentinel?
    ensures r.Some? && t.OptionalModifier? ==> r.value.OptionalModifier?
    ensures r.Some? && t.RequiredModifier? ==> r.value.RequiredModifier?
    ensures r.Some? && t.GenericInstance? ==>
      r.value.GenericInstance? && r.value.element == t.element && |r.value.arguments| == |t.arguments|
  {
    match t
    case Named(_, _, _, _) => None
    case GenericParam(_, _, _, _) =>
      if t in ctx.bindings then Some(ctx.bindings[t]) else None
    case Pointer(e, hasGenericParameters) =>
      if !hasGenericParameters then None
      else (match Apply(e, ctx) case None => None case Some(e2) => Some(Pointer(e2, false)))
    case Pinned(e, hasGenericParameters) =>
      if !hasGenericParameters then None
      else (match Apply(e, ctx) case None => None case Some(e2) => Some(Pinned(e2, false)))
    case Sentinel(e, hasGenericParameters) =>
      if !hasGenericParameters then None
      else (match Apply(e, ctx) case None => None case Some(e2) => Some(Sentinel(e2, false)))
    case OptionalModifier(m, e) =>
      if !ContainsGenericParameter(t) then None
      else
        var e2 := Apply(e, ctx);
        var m2 := Apply(m, ctx);
        if e2.None? && m2.None? then None
        else Some(OptionalModifier(m2.GetOr(m), e2.GetOr(e)))
    case RequiredModifier(m, e) =>
      if !ContainsGenericParameter(t) then None
      else
        var e2 := Apply(e, ctx);
        var m2 := Apply(m, ctx);
        if e2.None? && m2.None? then None
        else Some(RequiredModifier(m2.GetOr(m), e2.GetOr(e)))
    case GenericInstance(e, args, _) =>
      if !ContainsGenericParameter(t) then None
      else
        var results := seq(|args|, i requires 0 <= i < |args| => Apply(args[i], ctx));
        if forall i :: 0 <= i < |args| ==> results[i].None? then None
        else Some(GenericInstance(e, seq(|args|, i requires 0 <= i < |args| => results[i].GetOr(args[i])), IsValueType(e)))
    case FunctionPointer(_) =>
      // FunctionPointerType has no override of its own; see README
      None
  }

  /** The node a caller gets back: the substituted node, or the original itself. */
  function Applied(t: TypeNode, ctx: Context): TypeNode
  {
    Apply(t, ctx).GetOr(t)
  }

  /** GenericInstanceType.ApplyTypeArguments, as the loop the source runs: map every
      argument, remember whether any came back different, and build a new instance
      over the same element only if one did. */
  method ApplyGenericInstanceType(t: TypeNode, ctx: Context) returns (r: Option<TypeNode>)
    requires t.GenericInstance?
    ensures r == Apply(t, ctx)
    ensures !ContainsGenericParameter(t) ==> r.None?
    ensures r.None? <==> !ContainsGenericParameter(t)
                         || forall i :: 0 <= i < |t.arguments| ==> Apply(t.arguments[i], ctx).None?
    ensures r.Some? ==> r.value.GenericInstance? && r.value.element == t.element
                        && IsValueType(r.value) == IsValueType(t.element)
                        && |r.value.arguments| == |t.arguments|
                        && forall i :: 0 <= i < |t.arguments| ==> r.value.arguments[i] == Applied(t.arguments[i], ctx)
  {
    if !ContainsGenericParameter(t) {
      return None;
    }
    var args := t.arguments;
    var anyDifferent := false;
    var newArguments: seq<TypeNode> := [];
    var i := 0;
    while i < |args|
      invariant 0 <= i <= |args|
      invariant |newArguments| == i
      invariant forall k :: 0 <= k < i ==> newArguments[k] == Applied(args[k], ctx)
      invariant anyDifferent <==> exists k :: 0 <= k < i && Apply(args[k], ctx).Some?
    {
      var mapped := Apply(args[i], ctx);
      newArguments := newArguments + [mapped.GetOr(args[i])];
      if mapped.Some? {
        anyDifferent := true;
      }
      i := i + 1;
    }
    ghost var results := seq(|args|, k requires 0 <= k < |args| => Apply(args[k], ctx));
    if !anyDifferent {
      assert forall k :: 0 <= k < |args| ==> results[k].None?;
      return None;
    }
    assert newArguments == seq(|args|, k requires 0 <= k < |args| => results[k].GetOr(args[k]));
    r := Some(GenericInstance(t.element, newArguments, IsValueType(t.element)));
  }

  // ---- properties of the substitution ----

  /** Identity preservation: a node that mentions no generic parameter is handed back
      itself under every context. */
  lemma {:induction false} ClosedIsUnchanged(t: TypeNode, ctx: Context)
    requires !ContainsGenericParameter(t)
    ensures Apply(t, ctx) == None
  {
    match t
    case Pointer(e, _) => ClosedIsUnchanged(e, ctx);
    case Pinned(e, _) => ClosedIsUnchanged(e, ctx);
    case Sentinel(e, _) => ClosedIsUnchanged(e, ctx);
    case _ =>
  }

  /** Idempotence: once the result of a substitution mentions no generic parameter,
      applying the same or any other context to it hands it back unchanged. */
  lemma ClosedResultIsStable(t: TypeNode, ctx: Context, ctx2: Context)
    requires !ContainsGenericParameter(Applied(t, ctx))
    ensures Apply(Applied(t, ctx), ctx2) == None
    ensures Applied(Applied(t, ctx), ctx2) == Applied(t, ctx)
  {
    ClosedIsUnchanged(Applied(t, ctx), ctx2);
  }

  /** A context that binds no parameter changes nothing, at any depth. */
  lemma {:induction false} EmptyContextIsUnchanged(t: TypeNode, ctx: Context)
    requires ctx.bindings == map[]
    ensures Apply(t, ctx) == None
  {
    match t
    case Pointer(e, _) => EmptyContextIsUnchanged(e, ctx);
    case Pinned(e, _) => EmptyContextIsUnchanged(e, ctx);
    case Sentinel(e, _) => EmptyContextIsUnchanged(e, ctx);
    case OptionalModifier(m, e) =>
      EmptyContextIsUnchanged(m, ctx);
      EmptyContextIsUnchanged(e, ctx);
    case RequiredModifier(m, e) =>
      EmptyContextIsUnchanged(m, ctx);
      EmptyContextIsUnchanged(e, ctx);
    case GenericInstance(e, args, _) =>
      forall i | 0 <= i < |args| ensures Apply(args[i], ctx) == None {
        EmptyContextIsUnchanged(args[i], ctx);
      }
    case _ =>
  }

  /** A modifier node is rebuilt exactly when its element or its modifier changed,
      from the substituted parts; ModifierType and ElementType are substituted
      independently. */
  lemma ModifierSubstitution(m: TypeNode, e: TypeNode, ctx: Context)
    ensures Apply(OptionalModifier(m, e), ctx).Some? <==> Apply(m, ctx).Some? || Apply(e, ctx).Some?
    ensures Apply(OptionalModifier(m, e), ctx).Some? ==>
      Apply(OptionalModifier(m, e), ctx).value == OptionalModifier(Applied(m, ctx), Applied(e, ctx))
    ensures Apply(RequiredModifier(m, e), ctx).Some? <==> Apply(m, ctx).Some? || Apply(e, ctx).Some?
    ensures Apply(RequiredModifier(m, e), ctx).Some? ==>
      Apply(RequiredModifier(m, e), ctx).value == RequiredModifier(Applied(m, ctx), Applied(e, ctx))
  {
    if !ContainsGenericParameter(m) { ClosedIsUnchanged(m, ctx); }
    if !ContainsGenericParameter(e) { ClosedIsUnchanged(e, ctx); }
  }

  /** Pointer, pinned and sentinel nodes test their own HasGenericParameters, not
      ContainsGenericParameter: with the flag clear they are handed back even when
      their element mentions a bound parameter. With the flag set, a changed element
      gives a new node of the same kind over the substituted element. */
  lemma SimpleSpecificationGuard(e: TypeNode, ctx: Context)
    ensures Apply(Pointer(e, false), ctx) == None
    ensures Apply(Pinned(e, false), ctx) == None
    ensures Apply(Sentinel(e, false), ctx) == None
    ensures Apply(Pointer(e, true), ctx) == (if Apply(e, ctx).Some? then Some(Pointer(Applied(e, ctx), false)) else None)
    ensures Apply(Pinned(e, true), ctx) == (if Apply(e, ctx).Some? then Some(Pinned(Applied(e, ctx), false)) else None)
    ensures Apply(Sentinel(e, true), ctx) == (if Apply(e, ctx).Some? then Some(Sentinel(Applied(e, ctx), false)) else None)
  {
  }

  /** `Pointer(T)` under `T -> int32`: a pointer whose own HasGenericParameters is set
      becomes a new `int32*`; one without it is handed back unchanged. */
  lemma PointerExample()
    ensures var T := GenericParam(TypeProvider, 0, 0, "T");
            var int32 := Named("System", "Int32", None, true);
            var ctx := Context(OtherObject(0), None, map[T := int32]);
            Apply(Pointer(T, true), ctx) == Some(Pointer(int32, false))
            && FullName(Pointer(int32, false)) == "System.Int32*"
            && Apply(Pointer(T, false), ctx) == None
  {
  }

  /** `Pair<T,U>` under a context that binds only `U`: a new instance over the same
      element whose first slot is the original `T` node. */
  lemma PartialBindingExample()
    ensures var T := GenericParam(TypeProvider, 7, 0, "T");
            var U := GenericParam(TypeProvider, 7, 1, "U");
            var str := Named("System", "String", None, false);
            var pair := Named("", "Pair`2", None, false);
            var ctx := Context(OtherObject(0), None, map[U := str]);
            var r := Apply(GenericInstance(pair, [T, U], false), ctx);
            r.Some? && r.value.element == pair && r.value.arguments == [T, str]
  {
    var T := GenericParam(TypeProvider, 7, 0, "T");
    var U := GenericParam(TypeProvider, 7, 1, "U");
    var str := Named("System", "String", None, false);
    var pair := Named("", "Pair`2", None, false);
    var ctx := Context(OtherObject(0), None, map[U := str]);
    var t := GenericInstance(pair, [T, U], false);
    assert ContainsGenericParameter(t) by { assert ContainsGenericParameter(t.arguments[0]); }
    assert T != U;
    assert Apply(T, ctx) == None;
    assert Apply(U, ctx) == Some(str);
    var results := seq(2, i requires 0 <= i < 2 => Apply(t.arguments[i], ctx));
    assert results == [None, Some(str)];
    assert seq(2, i requires 0 <= i < 2 => results[i].GetOr(t.arguments[i])) == [T, str];
    assert !(forall i :: 0 <= i < 2 ==> results[i].None?) by { assert results[1].Some?; }
    assert Apply(t, ctx) == Some(GenericInstance(pair, [T, str], false));
  }
}
