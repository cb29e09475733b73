/** InterfaceMethodMapper: for every method of an interface, the method of a type that
    implements it, the equivalent of the runtime's GetInterfaceMapping. The metadata it
    consults (a type's methods and base type, method resolution, overrides, signature
    matching) is the world it is handed. */
module InterfaceMapper {
  import opened Wrappers

  /** What a method reference resolves to, as far as the mapper asks. */
  datatype MethodFacts = MethodFacts(isPublic: bool, isPrivate: bool, hasOverrides: bool)

  /** The metadata the mapper reads, for method references of type M and type
      references of type T:
      - `methodsOf`: TypeReference.GetMethods();
      - `baseTypeOf`: GetBaseType(), none at the top of the hierarchy;
      - `rank`: the depth of a type in its hierarchy, which only decreases towards the base;
      - `resolve`: MethodReference.Resolve(), none when it finds no definition;
      - `overridesOf`: GetOverrides();
      - `containsGenericParameter`: MethodReference.ContainsGenericParameter;
      - `runtimeView`: GetRuntimeReference under the method's own declaring type;
      - `declaringType`: DeclaringType, which may be null;
      - `areSame`: MetadataResolver.AreSame on two type references;
      - `methodsMatch`: MetadataResolver.MethodsMatch with its third argument true. */
  datatype World<!M, !T> = World(
    methodsOf: T -> seq<M>,
    baseTypeOf: T -> Option<T>,
    rank: T -> nat,
    resolve: M -> Option<MethodFacts>,
    overridesOf: M -> seq<M>,
    containsGenericParameter: M -> bool,
    runtimeView: M -> Result<M>,
    declaringType: M -> Option<T>,
    areSame: (Option<T>, Option<T>) -> bool,
    methodsMatch: (M, M) -> bool)

  /** Base-type chains end: every base type is shallower than the type it is the base of. */
  ghost predicate Acyclic<M, T(!new)>(w: World<M, T>)
  {
    forall t :: w.baseTypeOf(t).Some? ==> w.rank(w.baseTypeOf(t).value) < w.rank(t)
  }

  // ---- FindInterfaceImplementation as a specification ----

  /** After one candidate: return it at once, or go on with this implicit candidate. */
  datatype Step<M> = ReturnNow(found: M) | KeepGoing(implicitImpl: Option<M>)

  /** The override an explicit implementation is compared by: its first override, seen
      under its own declaring type when it mentions a generic parameter. */
  function ComparedOverride<M, T(!new)>(w: World<M, T>, tmethod: M): (r: Result<M>)
    ensures |w.overridesOf(tmethod)| == 0 ==> r == Err(IndexOutOfRange)
    ensures |w.overridesOf(tmethod)| > 0 && !w.containsGenericParameter(w.overridesOf(tmethod)[0])
            ==> r == Ok(w.overridesOf(tmethod)[0])
    ensures |w.overridesOf(tmethod)| > 0 && w.containsGenericParameter(w.overridesOf(tmethod)[0])
            ==> r == w.runtimeView(w.overridesOf(tmethod)[0])
  {
    var overrides := w.overridesOf(tmethod);
    if |overrides| == 0 then Err(IndexOutOfRange)
    else if w.containsGenericParameter(overrides[0]) then w.runtimeView(overrides[0])
    else Ok(overrides[0])
  }

  /** Whether a private method explicitly implements `imethod`. */
  predicate ExplicitlyImplements<M, T(!new)>(w: World<M, T>, imethod: M, overridden: M)
  {
    w.areSame(w.declaringType(overridden), w.declaringType(imethod)) && w.methodsMatch(overridden, imethod)
  }

  /** One turn of the loop over the type's methods. A public method becomes the
      implicit candidate when there is none yet and it matches; a private method with
      overrides, when explicit implementations are allowed, is returned at once when
      its compared override implements `imethod`; every other method is passed over.
      A method that does not resolve fails on the visibility test. */
  function Visit<M, T(!new)>(w: World<M, T>, imethod: M, allowExplicit: bool, tmethod: M, implicitImpl: Option<M>): Result<Step<M>>
  {
    match w.resolve(tmethod)
    case None => Err(NullReference)
    case Some(d) =>
      if d.isPublic then
        Ok(KeepGoing(if implicitImpl.None? && w.methodsMatch(imethod, tmethod) then Some(tmethod) else implicitImpl))
      else if allowExplicit && d.isPrivate && d.hasOverrides then
        match ComparedOverride(w, tmethod)
        case Err(e) => Err(e)
        case Ok(o) => if ExplicitlyImplements(w, imethod, o) then Ok(ReturnNow(tmethod)) else Ok(KeepGoing(implicitImpl))
      else Ok(KeepGoing(implicitImpl))
  }

  /** The loop over `ms`, first to last, starting from an implicit candidate. */
  function Scan<M, T(!new)>(w: World<M, T>, imethod: M, allowExplicit: bool, ms: seq<M>, implicitImpl: Option<M>): Result<Step<M>>
    decreases |ms|
  {
    if |ms| == 0 then Ok(KeepGoing(implicitImpl))
    else match Visit(w, imethod, allowExplicit, ms[0], implicitImpl)
      case Err(e) => Err(e)
      case Ok(ReturnNow(m)) => Ok(ReturnNow(m))
      case Ok(KeepGoing(next)) => Scan(w, imethod, allowExplicit, ms[1..], next)
  }

  /** FindInterfaceImplementation: an explicit implementation returned by the loop; else
      the implicit candidate; else the answer for the base type; else none. */
  function FindImpl<M, T(!new)>(w: World<M, T>, t: T, imethod: M, allowExplicit: bool): Result<Option<M>>
    requires Acyclic(w)
    decreases w.rank(t)
  {
    match Scan(w, imethod, allowExplicit, w.methodsOf(t), None)
    case Err(e) => Err(e)
    case Ok(ReturnNow(m)) => Ok(Some(m))
    case Ok(KeepGoing(Some(m))) => Ok(Some(m))
    case Ok(KeepGoing(None)) =>
      match w.baseTypeOf(t)
      case None => Ok(None)
      case Some(b) => FindImpl(w, b, imethod, allowExplicit)
  }

  /** FindInterfaceImplementation, as the loop and the recursion the source runs. */
  method FindInterfaceImplementation<M, T(!new)>(w: World<M, T>, t: T, imethod: M, allowExplicit: bool) returns (r: Result<Option<M>>)
    requires Acyclic(w)
    ensures r == FindImpl(w, t, imethod, allowExplicit)
    decreases w.rank(t)
  {
    var implicitImpl: Option<M> := None;
    var tmethods := w.methodsOf(t);
    var i := 0;
    while i < |tmethods|
      invariant 0 <= i <= |tmethods|
      invariant Scan(w, imethod, allowExplicit, tmethods, None) == Scan(w, imethod, allowExplicit, tmethods[i..], implicitImpl)
    {
      var tmethod := tmethods[i];
      assert tmethods[i..][0] == tmethod;
      assert tmethods[i..][1..] == tmethods[i + 1..];
      var d := w.resolve(tmethod);
      if d.None? {
        return Err(NullReference);
      }
      if d.value.isPublic {
        if implicitImpl.None? && w.methodsMatch(imethod, tmethod) {
          implicitImpl := Some(tmethod);
        }
      } else if allowExplicit && d.value.isPrivate && d.value.hasOverrides {
        var overrides := w.overridesOf(tmethod);
        if |overrides| == 0 {
          return Err(IndexOutOfRange);
        }
        var overridden := overrides[0];
        if w.containsGenericParameter(overridden) {
          var view := w.runtimeView(overridden);
          if view.Err? {
            return Err(view.error);
          }
          overridden := view.value;
        }
        if w.areSame(w.declaringType(overridden), w.declaringType(imethod)) && w.methodsMatch(overridden, imethod) {
          return Ok(Some(tmethod));
        }
      }
      i := i + 1;
    }
    if implicitImpl.Some? {
      return Ok(implicitImpl);
    }
    var baseType := w.baseTypeOf(t);
    if baseType.Some? {
      r := FindInterfaceImplementation(w, baseType.value, imethod, allowExplicit);
      return;
    }
    return Ok(None);
  }

  // ---- properties of the search ----

  /** Whether `m` is a public method that implicitly matches `imethod`. */
  predicate PublicMatch<M, T(!new)>(w: World<M, T>, imethod: M, m: M)
  {
    w.resolve(m).Some? && w.resolve(m).value.isPublic && w.methodsMatch(imethod, m)
  }

  /** Whether `m` is a private method with overrides whose compared override explicitly
      implements `imethod`. */
  predicate ExplicitMatch<M, T(!new)>(w: World<M, T>, imethod: M, m: M)
  {
    w.resolve(m).Some? && !w.resolve(m).value.isPublic && w.resolve(m).value.isPrivate
    && w.resolve(m).value.hasOverrides
    && ComparedOverride(w, m).Ok? && ExplicitlyImplements(w, imethod, ComparedOverride(w, m).value)
  }

  /** Whether visiting `m` goes on without failing, whatever the implicit candidate. */
  predicate Passes<M, T(!new)>(w: World<M, T>, imethod: M, allowExplicit: bool, m: M)
  {
    w.resolve(m).Some?
    && (allowExplicit && !w.resolve(m).value.isPublic && w.resolve(m).value.isPrivate && w.resolve(m).value.hasOverrides
        ==> ComparedOverride(w, m).Ok?)
  }

  /** What the loop finds, when every method visited passes and none is an explicit
      match: the implicit candidate it started with if it had one, and otherwise the
      first public match in declaration order, or none if there is none. */
  lemma {:induction false} FirstPublicMatchWins<M, T(!new)>(w: World<M, T>, imethod: M, allowExplicit: bool, ms: seq<M>)
    requires forall i :: 0 <= i < |ms| ==> Passes(w, imethod, allowExplicit, ms[i])
    requires !allowExplicit || forall i :: 0 <= i < |ms| ==> !ExplicitMatch(w, imethod, ms[i])
    ensures Scan(w, imethod, allowExplicit, ms, None).Ok? && Scan(w, imethod, allowExplicit, ms, None).value.KeepGoing?
    ensures var c := Scan(w, imethod, allowExplicit, ms, None).value.implicitImpl;
      (c.None? <==> forall i :: 0 <= i < |ms| ==> !PublicMatch(w, imethod, ms[i]))
      && (c.Some? ==> exists i :: 0 <= i < |ms| && ms[i] == c.value && PublicMatch(w, imethod, ms[i])
                                 && forall j :: 0 <= j < i ==> !PublicMatch(w, imethod, ms[j]))
  {
    if |ms| > 0 {
      var d := w.resolve(ms[0]).value;
      if allowExplicit && !d.isPublic && d.isPrivate && d.hasOverrides {
        assert !ExplicitMatch(w, imethod, ms[0]);
      }
      FirstPublicMatchWins(w, imethod, allowExplicit, ms[1..]);
      forall i | 0 <= i < |ms[1..]| ensures ms[1..][i] == ms[i + 1] { }
      if PublicMatch(w, imethod, ms[0]) {
        KeptCandidate(w, imethod, allowExplicit, ms[1..], ms[0]);
        assert Scan(w, imethod, allowExplicit, ms, None) == Scan(w, imethod, allowExplicit, ms[1..], Some(ms[0]));
      } else {
        assert Scan(w, imethod, allowExplicit, ms, None) == Scan(w, imethod, allowExplicit, ms[1..], None);
        var c := Scan(w, imethod, allowExplicit, ms, None).value.implicitImpl;
        if c.Some? {
          var i :| 0 <= i < |ms[1..]| && ms[1..][i] == c.value && PublicMatch(w, imethod, ms[1..][i])
                   && forall j :: 0 <= j < i ==> !PublicMatch(w, imethod, ms[1..][j]);
          assert ms[i + 1] == c.value;
          assert forall j :: 0 <= j < i + 1 ==> !PublicMatch(w, imethod, ms[j]) by {
            forall j | 0 <= j < i + 1 ensures !PublicMatch(w, imethod, ms[j]) {
              if j > 0 { assert ms[j] == ms[1..][j - 1]; }
            }
          }
        }
      }
    }
  }

  /** Once there is an implicit candidate, passing methods that are not explicit
      matches keep it. */
  lemma {:induction false} KeptCandidate<M, T(!new)>(w: World<M, T>, imethod: M, allowExplicit: bool, ms: seq<M>, c: M)
    requires forall i :: 0 <= i < |ms| ==> Passes(w, imethod, allowExplicit, ms[i])
    requires !allowExplicit || forall i :: 0 <= i < |ms| ==> !ExplicitMatch(w, imethod, ms[i])
    ensures Scan(w, imethod, allowExplicit, ms, Some(c)) == Ok(KeepGoing(Some(c)))
  {
    if |ms| > 0 {
      var d := w.resolve(ms[0]).value;
      if allowExplicit && !d.isPublic && d.isPrivate && d.hasOverrides {
        assert !ExplicitMatch(w, imethod, ms[0]);
      }
      assert Visit(w, imethod, allowExplicit, ms[0], Some(c)) == Ok(KeepGoing(Some(c)));
      KeptCandidate(w, imethod, allowExplicit, ms[1..], c);
    }
  }

  /** Explicit precedence: a private explicit implementation at position k is returned
      when every earlier method passes and none of them is one, even when a public match
      came before it. */
  lemma {:induction false} ExplicitTakesPrecedence<M, T(!new)>(w: World<M, T>, imethod: M, ms: seq<M>, k: nat, start: Option<M>)
    requires k < |ms| && ExplicitMatch(w, imethod, ms[k])
    requires forall i :: 0 <= i < k ==> Passes(w, imethod, true, ms[i]) && !ExplicitMatch(w, imethod, ms[i])
    ensures Scan(w, imethod, true, ms, start) == Ok(ReturnNow(ms[k]))
  {
    var d := w.resolve(ms[0]).value;
    if k == 0 {
      assert Visit(w, imethod, true, ms[0], start) == Ok(ReturnNow(ms[0]));
    } else {
      if !d.isPublic && d.isPrivate && d.hasOverrides {
        assert !ExplicitMatch(w, imethod, ms[0]);
      }
      var next := Visit(w, imethod, true, ms[0], start);
      assert next.Ok? && next.value.KeepGoing?;
      forall i | 0 <= i < k - 1
        ensures Passes(w, imethod, true, ms[1..][i]) && !ExplicitMatch(w, imethod, ms[1..][i])
      {
        assert ms[1..][i] == ms[i + 1];
      }
      ExplicitTakesPrecedence(w, imethod, ms[1..], k - 1, next.value.implicitImpl);
    }
  }

  /** Only public methods and private methods with overrides can be selected: a method
      returned early is an explicit match, which needs explicit implementations to be
      allowed, and a kept candidate is the starting one or a public match of the type. */
  lemma {:induction false} OnlyPublicOrExplicitSelected<M, T(!new)>(w: World<M, T>, imethod: M, allowExplicit: bool, ms: seq<M>, start: Option<M>)
    requires start.Some? ==> PublicMatch(w, imethod, start.value)
    ensures var s := Scan(w, imethod, allowExplicit, ms, start);
      s.Ok? && s.value.ReturnNow? ==> allowExplicit && s.value.found in ms && ExplicitMatch(w, imethod, s.value.found)
    ensures var s := Scan(w, imethod, allowExplicit, ms, start);
      s.Ok? && s.value.KeepGoing? && s.value.implicitImpl.Some? ==>
        PublicMatch(w, imethod, s.value.implicitImpl.value)
        && (s.value.implicitImpl == start || s.value.implicitImpl.value in ms)
  {
    if |ms| > 0 {
      var v := Visit(w, imethod, allowExplicit, ms[0], start);
      if v.Ok? && v.value.KeepGoing? {
        OnlyPublicOrExplicitSelected(w, imethod, allowExplicit, ms[1..], v.value.implicitImpl);
        var s := Scan(w, imethod, allowExplicit, ms[1..], v.value.implicitImpl);
        if s.Ok? && s.value.ReturnNow? {
          assert s.value.found in ms[1..];
        }
        if s.Ok? && s.value.KeepGoing? && s.value.implicitImpl.Some? && s.value.implicitImpl.value in ms[1..] {
          assert s.value.implicitImpl.value in ms;
        }
      }
    }
  }

  /** When the type's own loop neither returns a method nor keeps a candidate, the
      search is the base type's search, and ends with none at the top. */
  lemma BaseFallback<M, T(!new)>(w: World<M, T>, t: T, imethod: M, allowExplicit: bool)
    requires Acyclic(w)
    requires Scan(w, imethod, allowExplicit, w.methodsOf(t), None) == Ok(KeepGoing(None))
    ensures w.baseTypeOf(t).None? ==> FindImpl(w, t, imethod, allowExplicit) == Ok(None)
    ensures w.baseTypeOf(t).Some? ==>
      FindImpl(w, t, imethod, allowExplicit) == FindImpl(w, w.baseTypeOf(t).value, imethod, allowExplicit)
  {
  }

  // ---- the mapper ----

  /** The implementations of `imethods` in `t`, in order; the first failure is the
      answer. */
  function MappingsOf<M, T(!new)>(w: World<M, T>, t: T, imethods: seq<M>): (r: Result<seq<Option<M>>>)
    requires Acyclic(w)
    ensures r.Ok? ==> |r.value| == |imethods|
                      && forall i :: 0 <= i < |imethods| ==> FindImpl(w, t, imethods[i], true) == Ok(r.value[i])
    ensures r.Err? <==> exists i :: 0 <= i < |imethods| && FindImpl(w, t, imethods[i], true).Err?
    decreases |imethods|
  {
    if |imethods| == 0 then Ok([])
    else
      var last := FindImpl(w, t, imethods[|imethods| - 1], true);
      match MappingsOf(w, t, imethods[..|imethods| - 1])
      case Err(e) => Err(e)
      case Ok(front) =>
        match last
        case Err(e) => Err(e)
        case Ok(m) => Ok(front + [m])
  }

  class InterfaceMethodMapper<M, T(!new)> {
    /** The interface methods mapped so far. */
    var imethodlist: seq<M>
    /** Slot i holds the implementation of imethodlist[i], or none. */
    var tmethodlist: seq<Option<M>>

    ghost predicate Valid()
      reads this
    {
      |imethodlist| == |tmethodlist|
    }

    constructor ()
      ensures Valid() && imethodlist == [] && tmethodlist == []
    {
      imethodlist := [];
      tmethodlist := [];
    }

    /** GetMethodMappings: looks up every method of the interface in `t` and appends the
        interface methods and their implementations, null slots included. A failing
        lookup leaves both lists as they were. */
    method GetMethodMappings(w: World<M, T>, t: T, iface: T) returns (failure: Option<Error>)
      requires Acyclic(w) && Valid()
      modifies this
      ensures Valid()
      ensures var mapped := MappingsOf(w, t, w.methodsOf(iface));
        (failure.None? <==> mapped.Ok?)
        && (mapped.Ok? ==> imethodlist == old(imethodlist) + w.methodsOf(iface)
                            && tmethodlist == old(tmethodlist) + mapped.value)
        && (mapped.Err? ==> failure == Some(mapped.error)
                            && imethodlist == old(imethodlist) && tmethodlist == old(tmethodlist))
    {
      var imethods := w.methodsOf(iface);
      var tmethods := new Option<M>[|imethods|](_ => None);
      var i := 0;
      while i < |imethods|
        invariant 0 <= i <= |imethods|
        invariant MappingsOf(w, t, imethods[..i]) == Ok(tmethods[..i])
        modifies tmethods
      {
        var tmethod := FindInterfaceImplementation(w, t, imethods[i], true);
        assert imethods[..i + 1][..i] == imethods[..i];
        if tmethod.Err? {
          MappingsFailFromHere(w, t, imethods, i);
          return Some(tmethod.error);
        }
        tmethods[i] := tmethod.value;
        assert tmethods[..i + 1] == tmethods[..i] + [tmethod.value];
        i := i + 1;
      }
      assert imethods[..i] == imethods;
      imethodlist := imethodlist + imethods;
      tmethodlist := tmethodlist + tmethods[..];
      return None;
    }

    /** FindMappings: the interface's own methods only; the methods of the interfaces it
        inherits from are not mapped. */
    method FindMappings(w: World<M, T>, t: T, iface: T) returns (failure: Option<Error>)
      requires Acyclic(w) && Valid()
      modifies this
      ensures Valid()
      ensures var mapped := MappingsOf(w, t, w.methodsOf(iface));
        (failure.None? <==> mapped.Ok?)
        && (mapped.Ok? ==> imethodlist == old(imethodlist) + w.methodsOf(iface)
                            && tmethodlist == old(tmethodlist) + mapped.value)
        && (mapped.Err? ==> failure == Some(mapped.error)
                            && imethodlist == old(imethodlist) && tmethodlist == old(tmethodlist))
    {
      failure := GetMethodMappings(w, t, iface);
    }
  }

  /** When the first i lookups succeed and lookup i fails, the whole mapping fails with
      that failure. */
  lemma {:induction false} MappingsFailFromHere<M, T(!new)>(w: World<M, T>, t: T, imethods: seq<M>, i: nat)
    requires Acyclic(w)
    requires i < |imethods|
    requires MappingsOf(w, t, imethods[..i]).Ok?
    requires FindImpl(w, t, imethods[i], true).Err?
    ensures MappingsOf(w, t, imethods) == Err(FindImpl(w, t, imethods[i], true).error)
    decreases |imethods|
  {
    if i == |imethods| - 1 {
      assert imethods[..|imethods| - 1] == imethods[..i];
    } else {
      var front := imethods[..|imethods| - 1];
      assert front[..i] == imethods[..i];
      assert front[i] == imethods[i];
      MappingsFailFromHere(w, t, front, i);
    }
  }
}
