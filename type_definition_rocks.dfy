/** TypeDefinitionRocks: GetInterfaceMapping with its pre-flight checks, and the
    queries over a type definition's methods, fields and properties. */
module TypeDefinitionRocks {
  import opened Wrappers
  import opened InterfaceMapper

  // ---- GetInterfaceMapping ----

  /** A resolved TypeDefinition, as far as GetInterfaceMapping asks; `id` is its identity. */
  datatype TypeDefFacts = TypeDefFacts(id: nat, isInterface: bool, hasGenericParameters: bool)

  /** The type metadata GetInterfaceMapping reads, for type references of type T:
      `resolveType` is TypeReference.Resolve(), none when nothing is found;
      `interfacesOf` is GetInterfaces(); `moduleOf` is a reference's module, which may
      be null. */
  datatype TypeFacts<!T> = TypeFacts(
    resolveType: T -> Option<TypeDefFacts>,
    isGenericParameter: T -> bool,
    isArray: T -> bool,
    interfacesOf: T -> seq<T>,
    moduleOf: T -> Option<nat>)

  /** The four-field result record. */
  datatype TypeInterfaceMapping<M, T> = TypeInterfaceMapping(
    interfaceType: T,
    interfaceMethods: seq<M>,
    targetType: T,
    targetMethods: seq<Option<M>>)

  /** The checks after the interface type has resolved to `def`, in the source's order. */
  function CheckResolved<T>(f: TypeFacts<T>, self: T, def: Option<TypeDefFacts>): (r: Result<TypeDefFacts>)
    ensures r.Ok? <==> def.Some? && !f.isGenericParameter(self) && def.value.isInterface
                       && !(def.value.hasGenericParameters && f.isArray(self))
    ensures r.Ok? ==> r == Ok(def.value)
    ensures r.Err? ==> r.error == (if def.None? || f.isGenericParameter(self) then InvalidOperation else Argument)
  {
    match def
    case None => Err(InvalidOperation)
    case Some(d) =>
      if f.isGenericParameter(self) then Err(InvalidOperation)
      else if !d.isInterface then Err(Argument)
      else if d.hasGenericParameters && f.isArray(self) then Err(Argument)
      else Ok(d)
  }

  /** The pre-flight checks as written: the interface type is resolved before it is
      tested for null, so a null interface type fails with NullReference on the Resolve
      call and its ArgumentNull check is never reached. */
  function PreflightAsWritten<T>(f: TypeFacts<T>, self: Option<T>, interfaceType: Option<T>): Result<TypeDefFacts>
  {
    if self.None? then Err(ArgumentNull)
    else if interfaceType.None? then Err(NullReference)
    else CheckResolved(f, self.value, f.resolveType(interfaceType.value))
  }

  /** The pre-flight checks as intended: both arguments are tested for null first. */
  function Preflight<T>(f: TypeFacts<T>, self: Option<T>, interfaceType: Option<T>): (r: Result<TypeDefFacts>)
    ensures self.None? || interfaceType.None? <==> r == Err(ArgumentNull)
    ensures r.Ok? ==> f.resolveType(interfaceType.value) == Some(r.value) && r.value.isInterface
  {
    if self.None? || interfaceType.None? then Err(ArgumentNull)
    else CheckResolved(f, self.value, f.resolveType(interfaceType.value))
  }

  /** The two differ exactly on a null interface type with a non-null `self`: as
      written that is a NullReference, as intended an ArgumentNull. */
  lemma PreflightAsWrittenMissesNullCheck<T>(f: TypeFacts<T>, self: Option<T>, interfaceType: Option<T>)
    ensures self.Some? && interfaceType.None? ==>
      PreflightAsWritten(f, self, interfaceType) == Err(NullReference)
      && Preflight(f, self, interfaceType) == Err(ArgumentNull)
    ensures self.None? || interfaceType.Some? ==> PreflightAsWritten(f, self, interfaceType) == Preflight(f, self, interfaceType)
  {
  }

  /** Some interface of `self` that has a module resolves to the definition `def`. */
  predicate Implements<T>(f: TypeFacts<T>, self: T, def: TypeDefFacts)
  {
    exists i :: 0 <= i < |f.interfacesOf(self)| && ListedAs(f, f.interfacesOf(self)[i], def)
  }

  /** An interface reference that has a module and resolves to the definition `def`. */
  predicate ListedAs<T>(f: TypeFacts<T>, intf: T, def: TypeDefFacts)
  {
    f.moduleOf(intf).Some? && f.resolveType(intf).Some? && f.resolveType(intf).value.id == def.id
  }

  /** The interface_valid loop: interfaces without a module are skipped, and the loop
      stops at the first one that resolves to the definition. */
  method InterfaceValid<T>(f: TypeFacts<T>, self: T, def: TypeDefFacts) returns (valid: bool)
    ensures valid <==> Implements(f, self, def)
  {
    valid := false;
    var interfaces := f.interfacesOf(self);
    var i := 0;
    while i < |interfaces|
      invariant 0 <= i <= |interfaces|
      invariant forall j :: 0 <= j < i ==> !ListedAs(f, interfaces[j], def)
    {
      var intf := interfaces[i];
      if f.moduleOf(intf).None? {
        i := i + 1;
        continue;
      }
      var resolved := f.resolveType(intf);
      if resolved.Some? && resolved.value.id == def.id {
        valid := true;
        break;
      }
      i := i + 1;
    }
  }

  /** GetInterfaceMapping with the corrected pre-flight checks (Preflight; the source's
      order is InterfaceMappingAsWrittenOf), the check that `self` implements the
      interface, then the mapper's two lists; the mapper's failure is the call's. The
      result pairs the interface's methods, in order, with their implementations. */
  function InterfaceMappingOf<M, T(!new)>(w: World<M, T>, f: TypeFacts<T>, self: Option<T>, interfaceType: Option<T>)
    : (r: Result<TypeInterfaceMapping<M, T>>)
    requires Acyclic(w)
    ensures Preflight(f, self, interfaceType).Err? ==> r == Err(Preflight(f, self, interfaceType).error)
    ensures Preflight(f, self, interfaceType).Ok? && !Implements(f, self.value, Preflight(f, self, interfaceType).value)
            ==> r == Err(Argument)
    ensures r.Ok? ==>
      r.value.interfaceType == interfaceType.value && r.value.targetType == self.value
      && r.value.interfaceMethods == w.methodsOf(interfaceType.value)
      && |r.value.targetMethods| == |r.value.interfaceMethods|
      && forall i :: 0 <= i < |r.value.targetMethods| ==>
           FindImpl(w, self.value, r.value.interfaceMethods[i], true) == Ok(r.value.targetMethods[i])
  {
    match Preflight(f, self, interfaceType)
    case Err(e) => Err(e)
    case Ok(def) =>
      if !Implements(f, self.value, def) then Err(Argument)
      else
        match MappingsOf(w, self.value, w.methodsOf(interfaceType.value))
        case Err(e) => Err(e)
        case Ok(targets) =>
          Ok(TypeInterfaceMapping(interfaceType.value, w.methodsOf(interfaceType.value), self.value, targets))
  }

  /** GetInterfaceMapping with the pre-flight checks in the source's order: once those
      checks pass, the rest is InterfaceMappingOf's. The two results differ only when
      `self` is present and the interface type is null, where the source fails with
      NullReference and the corrected checks with ArgumentNull. */
  function InterfaceMappingAsWrittenOf<M, T(!new)>(w: World<M, T>, f: TypeFacts<T>, self: Option<T>, interfaceType: Option<T>)
    : (r: Result<TypeInterfaceMapping<M, T>>)
    requires Acyclic(w)
    ensures self.Some? && interfaceType.None? ==>
      r == Err(NullReference) && InterfaceMappingOf(w, f, self, interfaceType) == Err(ArgumentNull)
    ensures self.None? || interfaceType.Some? ==> r == InterfaceMappingOf(w, f, self, interfaceType)
  {
    PreflightAsWrittenMissesNullCheck(f, self, interfaceType);
    match PreflightAsWritten(f, self, interfaceType)
    case Err(e) => Err(e)
    case Ok(_) => InterfaceMappingOf(w, f, self, interfaceType)
  }

  /** GetInterfaceMapping with the corrected pre-flight checks (see Preflight; the
      source's order is InterfaceMappingAsWrittenOf): the checks, the interface loop,
      then a new mapper whose lists become the result's arrays. */
  method GetInterfaceMapping<M, T(!new)>(w: World<M, T>, f: TypeFacts<T>, self: Option<T>, interfaceType: Option<T>)
    returns (r: Result<TypeInterfaceMapping<M, T>>)
    requires Acyclic(w)
    ensures r == InterfaceMappingOf(w, f, self, interfaceType)
  {
    var checked := Preflight(f, self, interfaceType);
    if checked.Err? {
      return Err(checked.error);
    }
    var valid := InterfaceValid(f, self.value, checked.value);
    if !valid {
      return Err(Argument);
    }
    var mapper := new InterfaceMethodMapper<M, T>();
    var failure := mapper.FindMappings(w, self.value, interfaceType.value);
    if failure.Some? {
      return Err(failure.value);
    }
    var imethods := mapper.imethodlist;
    var tmethods := mapper.tmethodlist;
    assert imethods == w.methodsOf(interfaceType.value);
    MappingOfMapped(w, f, self, interfaceType, tmethods);
    r := Ok(TypeInterfaceMapping(interfaceType.value, imethods, self.value, tmethods));
  }

  /** The success case of InterfaceMappingOf, unfolded. */
  lemma MappingOfMapped<M, T(!new)>(w: World<M, T>, f: TypeFacts<T>, self: Option<T>, interfaceType: Option<T>, targets: seq<Option<M>>)
    requires Acyclic(w)
    requires Preflight(f, self, interfaceType).Ok? && Implements(f, self.value, Preflight(f, self, interfaceType).value)
    requires MappingsOf(w, self.value, w.methodsOf(interfaceType.value)).Ok?
    requires MappingsOf(w, self.value, w.methodsOf(interfaceType.value)).value == targets
    ensures InterfaceMappingOf(w, f, self, interfaceType)
            == Ok(TypeInterfaceMapping(interfaceType.value, w.methodsOf(interfaceType.value), self.value, targets))
  {
  }

  // ---- queries over a type definition ----

  /** A MethodDefinition, as far as the queries ask. */
  datatype MethodDef = MethodDef(name: string, isConstructor: bool, isStatic: bool)

  /** A FieldDefinition or PropertyDefinition, as far as the queries ask. */
  datatype NamedDef = NamedDef(id: nat, name: string)

  /** A TypeDefinition, as far as the queries ask. */
  datatype TypeDef = TypeDef(methods: seq<MethodDef>, fields: seq<NamedDef>, properties: seq<NamedDef>, isEnum: bool)

  predicate IsConstructor(m: MethodDef) { m.isConstructor }
  predicate IsNotConstructor(m: MethodDef) { !m.isConstructor }
  predicate IsStatic(m: MethodDef) { m.isStatic }

  /** `ys` is what is left of `xs` once some of its elements are dropped: the
      elements of `ys` stand in `xs` in the same order. */
  predicate IsSubsequence<X(==)>(ys: seq<X>, xs: seq<X>)
    decreases |xs|
  {
    |ys| == 0
    || (|xs| > 0 && ((ys[0] == xs[0] && IsSubsequence(ys[1..], xs[1..])) || IsSubsequence(ys, xs[1..])))
  }

  /** Enumerable.Where: the elements that satisfy `p`, in their order. */
  function Where<X(==)>(xs: seq<X>, p: X -> bool): (r: seq<X>)
    ensures |r| <= |xs|
    ensures IsSubsequence(r, xs)
    ensures forall i :: 0 <= i < |r| ==> p(r[i]) && r[i] in xs
    ensures forall i :: 0 <= i < |xs| && p(xs[i]) ==> xs[i] in r
  {
    if |xs| == 0 then []
    else
      var rest := Where(xs[1..], p);
      var r := (if p(xs[0]) then [xs[0]] else []) + rest;
      assert IsSubsequence(r, xs) by {
        if p(xs[0]) { assert r[0] == xs[0] && r[1..] == rest; } else { assert r == rest; }
      }
      r
  }

  /** Two complementary filters split a sequence between them, element for element. */
  lemma {:induction false} WherePartition<X>(xs: seq<X>, p: X -> bool, q: X -> bool)
    requires forall x :: q(x) == !p(x)
    ensures multiset(Where(xs, p)) + multiset(Where(xs, q)) == multiset(xs)
    ensures |Where(xs, p)| + |Where(xs, q)| == |xs|
  {
    if |xs| > 0 {
      WherePartition(xs[1..], p, q);
      assert xs == [xs[0]] + xs[1..];
    }
  }

  /** Enumerable.FirstOrDefault: the first element that satisfies `p`, or none. */
  function FirstWhere<X>(xs: seq<X>, p: X -> bool): (r: Option<X>)
    ensures r.None? <==> forall i :: 0 <= i < |xs| ==> !p(xs[i])
    ensures r.Some? ==> exists i :: 0 <= i < |xs| && xs[i] == r.value && p(xs[i])
                                    && forall j :: 0 <= j < i ==> !p(xs[j])
  {
    if |xs| == 0 then None
    else if p(xs[0]) then Some(xs[0])
    else
      var rest := FirstWhere(xs[1..], p);
      assert rest.Some? ==> exists i :: 0 <= i < |xs| && xs[i] == rest.value && p(xs[i])
                                        && forall j :: 0 <= j < i ==> !p(xs[j]) by {
        if rest.Some? {
          var i :| 0 <= i < |xs[1..]| && xs[1..][i] == rest.value && p(xs[1..][i])
                   && forall j :: 0 <= j < i ==> !p(xs[1..][j]);
          assert xs[i + 1] == rest.value;
          forall j | 0 <= j < i + 1 ensures !p(xs[j]) {
            if j > 0 { assert xs[j] == xs[1..][j - 1]; }
          }
        }
      }
      assert rest.None? ==> forall i :: 0 <= i < |xs| ==> !p(xs[i]) by {
        if rest.None? {
          forall i | 0 <= i < |xs| ensures !p(xs[i]) {
            if i > 0 { assert xs[i] == xs[1..][i - 1]; }
          }
        }
      }
      rest
  }

  /** GetConstructors: the constructors among the methods, none when there are none. */
  function GetConstructors(self: Option<TypeDef>): (r: Result<seq<MethodDef>>)
    ensures r.Err? <==> self.None?
    ensures r.Err? ==> r.error == ArgumentNull
    ensures r.Ok? && |self.value.methods| == 0 ==> r.value == []
  {
    match self
    case None => Err(ArgumentNull)
    case Some(t) => if |t.methods| == 0 then Ok([]) else Ok(Where(t.methods, IsConstructor))
  }

  /** GetMethods: the methods that are not constructors, none when there are none. */
  function GetMethods(self: Option<TypeDef>): (r: Result<seq<MethodDef>>)
    ensures r.Err? <==> self.None?
    ensures r.Err? ==> r.error == ArgumentNull
    ensures r.Ok? && |self.value.methods| == 0 ==> r.value == []
  {
    match self
    case None => Err(ArgumentNull)
    case Some(t) => if |t.methods| == 0 then Ok([]) else Ok(Where(t.methods, IsNotConstructor))
  }

  /** GetConstructors and GetMethods split the methods by IsConstructor: every method
      is in exactly one of them, as often as it is a method. */
  lemma ConstructorsAndMethodsPartition(t: TypeDef)
    ensures var cs := GetConstructors(Some(t)).value;
      var ms := GetMethods(Some(t)).value;
      multiset(cs) + multiset(ms) == multiset(t.methods)
      && (forall i :: 0 <= i < |cs| ==> cs[i].isConstructor)
      && (forall i :: 0 <= i < |ms| ==> !ms[i].isConstructor)
  {
    if |t.methods| > 0 {
      WherePartition(t.methods, IsConstructor, IsNotConstructor);
    }
  }

  predicate IsStaticConstructor(m: MethodDef) { m.isConstructor && m.isStatic }

  /** The first element of a filtered sequence that passes a second filter is the first
      element of the whole sequence that passes both. */
  lemma {:induction false} FirstOfFiltered<X>(xs: seq<X>, p: X -> bool, q: X -> bool, both: X -> bool)
    requires forall x :: both(x) == (p(x) && q(x))
    ensures FirstWhere(Where(xs, p), q) == FirstWhere(xs, both)
  {
    if |xs| > 0 {
      var rest := Where(xs[1..], p);
      FirstOfFiltered(xs[1..], p, q, both);
      if p(xs[0]) {
        var w := [xs[0]] + rest;
        assert Where(xs, p) == w;
        assert w[0] == xs[0] && w[1..] == rest;
        if !q(xs[0]) {
          assert FirstWhere(w, q) == FirstWhere(rest, q);
        }
      } else {
        assert Where(xs, p) == [] + rest == rest;
      }
    }
  }

  /** GetStaticConstructor: the first method that is a static constructor, or none. */
  function GetStaticConstructor(self: Option<TypeDef>): (r: Result<Option<MethodDef>>)
    ensures r.Err? <==> self.None?
    ensures r.Err? ==> r.error == ArgumentNull
    ensures r.Ok? ==> r.value == FirstWhere(self.value.methods, IsStaticConstructor)
    ensures r.Ok? && r.value.Some? ==>
      exists i :: 0 <= i < |self.value.methods| && self.value.methods[i] == r.value.value
                  && IsStaticConstructor(r.value.value)
                  && forall j :: 0 <= j < i ==> !IsStaticConstructor(self.value.methods[j])
    ensures r.Ok? && r.value.None? ==>
      forall i :: 0 <= i < |self.value.methods| ==> !IsStaticConstructor(self.value.methods[i])
  {
    match self
    case None => Err(ArgumentNull)
    case Some(t) =>
      if |t.methods| == 0 then Ok(None)
      else
        FirstOfFiltered(t.methods, IsConstructor, IsStatic, IsStaticConstructor);
        Ok(FirstWhere(GetConstructors(self).value, IsStatic))
  }

  /** The first of `defs` named `name`, or none: the shared shape of GetField and
      GetProperty. */
  function FirstNamed(defs: seq<NamedDef>, name: string): (r: Option<NamedDef>)
    ensures r.None? <==> forall i :: 0 <= i < |defs| ==> defs[i].name != name
    ensures r.Some? ==> exists i :: 0 <= i < |defs| && defs[i] == r.value && defs[i].name == name
                                    && forall j :: 0 <= j < i ==> defs[j].name != name
  {
    FirstWhere(defs, (d: NamedDef) => d.name == name)
  }

  /** GetField: the first field with that name, or none. */
  function GetField(self: Option<TypeDef>, name: string): (r: Result<Option<NamedDef>>)
    ensures r.Err? <==> self.None?
    ensures r.Err? ==> r.error == ArgumentNull
    ensures r.Ok? ==> r.value == FirstNamed(self.value.fields, name)
  {
    match self
    case None => Err(ArgumentNull)
    case Some(t) => if |t.fields| == 0 then Ok(None) else Ok(FirstNamed(t.fields, name))
  }

  /** GetProperty: the first property with that name, or none. */
  function GetProperty(self: Option<TypeDef>, name: string): (r: Result<Option<NamedDef>>)
    ensures r.Err? <==> self.None?
    ensures r.Err? ==> r.error == ArgumentNull
    ensures r.Ok? ==> r.value == FirstNamed(self.value.properties, name)
  {
    match self
    case None => Err(ArgumentNull)
    case Some(t) => if |t.properties| == 0 then Ok(None) else Ok(FirstNamed(t.properties, name))
  }

  /** GetEnumUnderlyingType: refuses a type that is not an enum; otherwise the answer
      of the lookup it is handed. */
  function GetEnumUnderlyingType<U>(self: Option<TypeDef>, underlyingOf: TypeDef -> U): (r: Result<U>)
    ensures self.None? <==> r == Err(ArgumentNull)
    ensures self.Some? && !self.value.isEnum <==> r == Err(Argument)
    ensures self.Some? && self.value.isEnum ==> r == Ok(underlyingOf(self.value))
  {
    match self
    case None => Err(ArgumentNull)
    case Some(t) => if !t.isEnum then Err(Argument) else Ok(underlyingOf(t))
  }
}
