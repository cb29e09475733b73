/** Property references: their generic-parameter test over the property type, the
    declaring type and the parameters, their full name with its parameter list, and
    the runtime-view decision. */
module Properties {
  import opened Wrappers
  import opened Text
  import opened TypeNodes
  import opened Substitution
  import opened Members

  /** A PropertyReference: its name, its property type, its declaring type, and the
      parameter type of every parameter GetParameters() reports (an indexer has some).
      Any of the types may be null. */
  datatype PropertyRef = PropertyRef(
    name: string,
    propertyType: Option<TypeNode>,
    declaringType: Option<TypeNode>,
    parameterTypes: seq<Option<TypeNode>>)

  /** HasParameters: whether GetParameters() reports any parameter. */
  predicate HasParameters(p: PropertyRef)
  {
    |p.parameterTypes| > 0
  }

  /** The PropertyReference constructor: a missing property type is refused; the
      parameters are the ones the concrete property reports. */
  function NewPropertyRef(name: string, propertyType: Option<TypeNode>, parameterTypes: seq<Option<TypeNode>>): (r: Result<PropertyRef>)
    ensures r.Err? <==> propertyType.None?
    ensures r.Err? ==> r.error == ArgumentNull
    ensures r.Ok? ==> r.value.name == name && r.value.propertyType == propertyType
                      && r.value.declaringType.None? && r.value.parameterTypes == parameterTypes
  {
    if propertyType.None? then Err(ArgumentNull)
    else Ok(PropertyRef(name, propertyType, None, parameterTypes))
  }

  // ---- ContainsGenericParameter ----

  /** The parameter loop of ContainsGenericParameter, first to last: the first parameter
      whose type mentions a generic parameter answers true, and a null parameter type
      met before one fails. */
  function ParametersContain(ps: seq<Option<TypeNode>>): (r: Result<bool>)
    ensures r.Err? ==> r.error == NullReference
  {
    if |ps| == 0 then Ok(false)
    else match ps[0]
      case None => Err(NullReference)
      case Some(t) => if ContainsGenericParameter(t) then Ok(true) else ParametersContain(ps[1..])
  }

  /** The loop answers false exactly when every parameter type is there and mentions no
      generic parameter, and fails exactly when a null type comes before any parameter
      type that mentions one. */
  lemma {:induction false} ParametersContainMeaning(ps: seq<Option<TypeNode>>)
    ensures ParametersContain(ps) == Ok(false) <==>
      forall i :: 0 <= i < |ps| ==> ps[i].Some? && !ContainsGenericParameter(ps[i].value)
    ensures ParametersContain(ps).Err? <==>
      exists i :: 0 <= i < |ps| && ps[i].None?
        && forall j :: 0 <= j < i ==> ps[j].Some? && !ContainsGenericParameter(ps[j].value)
    ensures ParametersContain(ps).Err? ==> ParametersContain(ps).error == NullReference
  {
    if |ps| > 0 {
      ParametersContainMeaning(ps[1..]);
      if ps[0].Some? && !ContainsGenericParameter(ps[0].value) {
        if ParametersContain(ps[1..]).Err? {
          var i :| 0 <= i < |ps[1..]| && ps[1..][i].None?
                   && forall j :: 0 <= j < i ==> ps[1..][j].Some? && !ContainsGenericParameter(ps[1..][j].value);
          assert ps[i + 1].None?;
          assert forall j :: 0 <= j < i + 1 ==> ps[j].Some? && !ContainsGenericParameter(ps[j].value) by {
            forall j | 0 <= j < i + 1
              ensures ps[j].Some? && !ContainsGenericParameter(ps[j].value)
            {
              if j > 0 { assert ps[j] == ps[1..][j - 1]; }
            }
          }
        }
        if exists i :: 0 <= i < |ps| && ps[i].None?
                       && forall j :: 0 <= j < i ==> ps[j].Some? && !ContainsGenericParameter(ps[j].value) {
          var i :| 0 <= i < |ps| && ps[i].None?
                   && forall j :: 0 <= j < i ==> ps[j].Some? && !ContainsGenericParameter(ps[j].value);
          assert i > 0;
          assert ps[1..][i - 1].None?;
          assert forall j :: 0 <= j < i - 1 ==> ps[1..][j].Some? && !ContainsGenericParameter(ps[1..][j].value) by {
            forall j | 0 <= j < i - 1
              ensures ps[1..][j].Some? && !ContainsGenericParameter(ps[1..][j].value)
            {
              assert ps[1..][j] == ps[j + 1];
            }
          }
        }
      }
    }
  }

  /** ContainsGenericParameter: the property type or the member first, then, when there
      are parameters, their types. Reading a null property type fails. */
  function ContainsGenericParameterOf(p: PropertyRef): (r: Result<bool>)
    ensures r.Err? ==> r.error == NullReference
  {
    match p.propertyType
    case None => Err(NullReference)
    case Some(t) =>
      if ContainsGenericParameter(t) || MemberContainsGenericParameter(p.declaringType) then Ok(true)
      else if HasParameters(p) then ParametersContain(p.parameterTypes)
      else Ok(false)
  }

  /** A property mentions no generic parameter exactly when none of its typed parts
      does, and the test fails only on a missing type. */
  lemma ContainsGenericParameterMeaning(p: PropertyRef)
    ensures ContainsGenericParameterOf(p) == Ok(false) <==>
      p.propertyType.Some? && !ContainsGenericParameter(p.propertyType.value)
      && !MemberContainsGenericParameter(p.declaringType)
      && forall i :: 0 <= i < |p.parameterTypes| ==>
           p.parameterTypes[i].Some? && !ContainsGenericParameter(p.parameterTypes[i].value)
    ensures ContainsGenericParameterOf(p).Err? ==>
      ContainsGenericParameterOf(p).error == NullReference
      && (p.propertyType.None? || exists i :: 0 <= i < |p.parameterTypes| && p.parameterTypes[i].None?)
  {
    ParametersContainMeaning(p.parameterTypes);
  }

  /** The getter, as the loop the source runs. */
  method ScanContainsGenericParameter(p: PropertyRef) returns (r: Result<bool>)
    ensures r == ContainsGenericParameterOf(p)
  {
    if p.propertyType.None? {
      return Err(NullReference);
    }
    if ContainsGenericParameter(p.propertyType.value) || MemberContainsGenericParameter(p.declaringType) {
      return Ok(true);
    }
    if HasParameters(p) {
      var ps := p.parameterTypes;
      var i := 0;
      while i < |ps|
        invariant 0 <= i <= |ps|
        invariant ParametersContain(ps) == ParametersContain(ps[i..])
      {
        assert ps[i..][0] == ps[i];
        match ps[i]
        case None =>
          return Err(NullReference);
        case Some(t) =>
          if ContainsGenericParameter(t) {
            return Ok(true);
          }
        assert ps[i..][1..] == ps[i + 1..];
        i := i + 1;
      }
    }
    return Ok(false);
  }

  // ---- FullName ----

  /** The parameter types, once every one of them is there. */
  function PresentTypes(ps: seq<Option<TypeNode>>): (r: seq<TypeNode>)
    requires forall i :: 0 <= i < |ps| ==> ps[i].Some?
    ensures |r| == |ps| && forall i :: 0 <= i < |ps| ==> r[i] == ps[i].value
  {
    seq(|ps|, i requires 0 <= i < |ps| => ps[i].value)
  }

  /** The full names of the parameter types. */
  function ParameterNames(ps: seq<Option<TypeNode>>): seq<string>
    requires forall i :: 0 <= i < |ps| ==> ps[i].Some?
  {
    seq(|ps|, i requires 0 <= i < |ps| => TypeNodes.FullName(ps[i].value))
  }

  /** The property type's text (its FullName), a space, the member name, then the
      parameter types' full names between parentheses, separated by commas. Reading a
      null property type or parameter type fails. */
  function FullNameOf(p: PropertyRef): Result<string>
  {
    if p.propertyType.None? || exists i :: 0 <= i < |p.parameterTypes| && p.parameterTypes[i].None? then
      Err(NullReference)
    else
      Ok(TypeNodes.FullName(p.propertyType.value) + " " + MemberFullName(p.declaringType, p.name)
         + "(" + CommaList(ParameterNames(p.parameterTypes)) + ")")
  }

  /** FullName, as the StringBuilder loop the source runs: the parameter part is
      appended piece by piece after the "(". */
  method BuildFullName(p: PropertyRef) returns (r: Result<string>)
    ensures r == FullNameOf(p)
  {
    if p.propertyType.None? {
      return Err(NullReference);
    }
    var head := TypeNodes.FullName(p.propertyType.value) + " " + MemberFullName(p.declaringType, p.name) + "(";
    var list := "";
    ghost var names: seq<string> := [];
    var ps := p.parameterTypes;
    if HasParameters(p) {
      var i := 0;
      while i < |ps|
        invariant 0 <= i <= |ps|
        invariant forall k :: 0 <= k < i ==> ps[k].Some?
        invariant |names| == i
        invariant forall k :: 0 <= k < i ==> names[k] == TypeNodes.FullName(ps[k].value)
        invariant list == CommaList(names)
      {
        if ps[i].None? {
          assert FullNameOf(p).Err? by { assert ps[i].None?; }
          return Err(NullReference);
        }
        var n := TypeNodes.FullName(ps[i].value);
        CommaListSnoc(names, n);
        if i > 0 {
          list := list + ",";
        }
        list := list + n;
        names := names + [n];
        i := i + 1;
      }
    }
    assert names == ParameterNames(ps);
    return Ok(head + list + ")");
  }

  /** `s` is `prefix`, then `member`, then "(", the names separated by commas and
      ")": the parts stand at these offsets, the length is theirs with one comma
      between neighbouring names, an empty list leaves "()", and a non-empty one opens
      with the first name. */
  ghost predicate ListedName(s: string, prefix: string, member: string, names: seq<string>)
  {
    var open := |prefix| + |member|;
    |s| == open + 2 + TotalLength(names) + (if |names| == 0 then 0 else |names| - 1)
    && s[..|prefix|] == prefix && s[|prefix|..open] == member
    && s[open] == '(' && s[open + 1..|s| - 1] == CommaList(names) && s[|s| - 1] == ')'
    && (|names| == 0 ==> s[open..] == "()")
    && (|names| > 0 ==> |names[0]| <= |s| - open - 2 && s[open + 1..open + 1 + |names[0]|] == names[0])
  }

  /** A full name is the property type and a space, then the member name, then "(",
      the parameter types' full names separated by commas and ")": it is "...()" for a
      property without parameters, and otherwise the list opens with the first
      parameter type's full name. */
  lemma FullNameShape(p: PropertyRef)
    requires FullNameOf(p).Ok?
    ensures ListedName(FullNameOf(p).value, TypeNodes.FullName(p.propertyType.value) + " ",
                       MemberFullName(p.declaringType, p.name), ParameterNames(p.parameterTypes))
  {
    var prefix := TypeNodes.FullName(p.propertyType.value) + " ";
    var member := MemberFullName(p.declaringType, p.name);
    var names := ParameterNames(p.parameterTypes);
    assert FullNameOf(p).value == prefix + member + "(" + CommaList(names) + ")";
    ListedNameShape(prefix, member, names);
  }

  /** Every such concatenation has the ListedName shape. */
  lemma ListedNameShape(prefix: string, member: string, names: seq<string>)
    ensures ListedName(prefix + member + "(" + CommaList(names) + ")", prefix, member, names)
  {
    var list := CommaList(names);
    var s := prefix + member + "(" + list + ")";
    var open := |prefix| + |member|;
    CommaListLength(names);
    ParenthesisedSlices(prefix, member, list);
    if |names| == 0 {
      assert list == "";
    } else {
      CommaListStartsWithFirst(names);
      assert s[open + 1..open + 1 + |names[0]|] == s[open + 1..|s| - 1][..|names[0]|];
    }
  }

  /** Where each part of `prefix + member + "(" + list + ")"` stands. */
  lemma ParenthesisedSlices(prefix: string, member: string, list: string)
    ensures var s := prefix + member + "(" + list + ")";
      var open := |prefix| + |member|;
      |s| == open + |list| + 2 && s[..|prefix|] == prefix && s[|prefix|..open] == member
      && s[open..] == "(" + list + ")" && s[open] == '(' && s[open + 1..|s| - 1] == list && s[|s| - 1] == ')'
  {
    var s := prefix + member + "(" + list + ")";
    var open := |prefix| + |member|;
    assert s == (prefix + member) + ("(" + list + ")");
    assert s[..open] == prefix + member;
    assert s[..|prefix|] == s[..open][..|prefix|];
    assert s[|prefix|..open] == s[..open][|prefix|..];
    assert s[open..] == "(" + list + ")";
    assert s[open + 1..|s| - 1] == s[open..][1..|list| + 1];
  }

  /** Without sentinel-typed parameters, the parameter list is the one a method
      signature with the same parameter types writes. */
  lemma FullNameListsParametersAsSignature(p: PropertyRef)
    requires FullNameOf(p).Ok?
    requires forall i :: 0 <= i < |p.parameterTypes| ==> !p.parameterTypes[i].value.Sentinel?
    ensures FullNameOf(p).value
        == TypeNodes.FullName(p.propertyType.value) + " " + MemberFullName(p.declaringType, p.name)
           + SignatureText(ParamTextsOf(PresentTypes(p.parameterTypes)))
  {
    var ps := p.parameterTypes;
    var types := PresentTypes(ps);
    var texts := ParamTextsOf(types);
    forall i | 0 <= i < |texts|
      ensures Decorated(texts[i]) == ParameterNames(ps)[i]
    {
      assert texts[i] == ParamText(false, TypeNodes.FullName(ps[i].value));
      assert "" + TypeNodes.FullName(ps[i].value) == TypeNodes.FullName(ps[i].value);
    }
    assert seq(|texts|, i requires 0 <= i < |texts| => Decorated(texts[i])) == ParameterNames(ps);
    var list := CommaList(ParameterNames(ps));
    assert SignatureText(texts) == "(" + list + ")";
    var a := TypeNodes.FullName(p.propertyType.value) + " " + MemberFullName(p.declaringType, p.name);
    assert FullNameOf(p).value == a + "(" + list + ")";
    assert a + "(" + list + ")" == a + SignatureText(texts);
  }

  // ---- GetRuntimeReference ----

  /** GetRuntimeReference(ctx): the property itself exactly when the context is its own
      declaring-type object and it mentions no generic parameter; a new constructed
      view under `ctx` otherwise, unless the generic-parameter test fails. */
  function RuntimeView(p: PropertyRef, ctx: Context): (v: RuntimeView)
    ensures v == Same <==>
      p.declaringType.Some? && ctx.self == TypeObject(p.declaringType.value) && ContainsGenericParameterOf(p) == Ok(false)
    ensures v.Fails? ==> v.error == NullReference
    ensures v.ConstructedUnder? ==> v.ctx == ctx
    ensures !(p.declaringType.Some? && ctx.self == TypeObject(p.declaringType.value)) ==> v == ConstructedUnder(ctx)
  {
    RuntimeViewUnder(p.declaringType, ContainsGenericParameterOf(p), ctx)
  }

  /** GetRuntimeReference(): the property itself unless its declaring type is a generic
      instance, and otherwise the decision under the declaring type. */
  function RuntimeViewOfSelf(p: PropertyRef, bindings: map<TypeNode, TypeNode>): (v: RuntimeView)
    ensures p.declaringType.None? ==> v == Fails(NullReference)
    ensures p.declaringType.Some? && !p.declaringType.value.GenericInstance? ==> v == Same
    ensures p.declaringType.Some? && p.declaringType.value.GenericInstance? ==>
      v == RuntimeView(p, TypeContext(p.declaringType.value, bindings))
  {
    Members.RuntimeViewOfSelf(p.declaringType, ContainsGenericParameterOf(p), bindings)
  }

  /** The Mixin converter hands its context on: converting with the property's own
      declaring type as the context agrees with GetRuntimeReference() for a generic
      instance, and any other context always builds a view under that context. */
  function MixinGetRuntimeReference(p: PropertyRef, ctx: Context): (v: RuntimeView)
    ensures p.declaringType.Some? && p.declaringType.value.GenericInstance?
            && ctx == TypeContext(p.declaringType.value, ctx.bindings)
            ==> v == RuntimeViewOfSelf(p, ctx.bindings)
    ensures !(p.declaringType.Some? && ctx.self == TypeObject(p.declaringType.value)) ==> v == ConstructedUnder(ctx)
  {
    RuntimeView(p, ctx)
  }

  /** An indexer of a generic instance whose own type mentions no generic parameter is
      still viewed under its declaring type when one of its parameter types mentions
      one and no parameter before it lacks a type. */
  lemma IndexerOfInstanceView(p: PropertyRef, bindings: map<TypeNode, TypeNode>, k: nat)
    requires p.declaringType.Some? && p.declaringType.value.GenericInstance?
    requires p.propertyType.Some?
    requires k < |p.parameterTypes| && p.parameterTypes[k].Some? && ContainsGenericParameter(p.parameterTypes[k].value)
    requires forall j :: 0 <= j < k ==> p.parameterTypes[j].Some?
    ensures var v := RuntimeViewOfSelf(p, bindings);
      v.ConstructedUnder? && v.ctx.instanceType == p.declaringType
  {
    var ps := p.parameterTypes;
    if !ContainsGenericParameter(p.propertyType.value) && !MemberContainsGenericParameter(p.declaringType) {
      ParametersContainMeaning(ps);
      assert ParametersContain(ps) != Ok(false) by { assert !(ps[k].Some? && !ContainsGenericParameter(ps[k].value)); }
      assert ParametersContain(ps).Ok? && ParametersContain(ps).value;
      assert HasParameters(p);
    }
    assert ContainsGenericParameterOf(p) == Ok(true);
  }
}
