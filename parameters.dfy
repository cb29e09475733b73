/** The objects whose fields change in place: parameter references, the collection
    that owns them and keeps each one's index and owner in step with its position, and
    the module method reference that creates that collection on demand. */
module MethodParameters {
  import opened Wrappers
  import opened TypeNodes
  import opened Signatures
  import Methods

  /** A parameter: its name and type, its position in the owner's list (-1 when it is
      in none) and the method that owns it. */
  class ParameterReference {
    var name: string
    var index: int
    var parameterType: TypeNode
    var owner: ModuleMethodReference?

    /** Every parameter starts outside any list. */
    constructor (name: string, parameterType: TypeNode)
      ensures this.name == name && this.parameterType == parameterType
      ensures index == -1 && owner == null
    {
      this.name := name;
      this.parameterType := parameterType;
      index := -1;
      owner := null;
    }

    /** Sequence: the position counted the way the metadata counts it, where an
        implicit `this` takes number 0; -1 for a parameter nobody owns. */
    function Sequence(): (r: int)
      reads this, owner
      ensures owner == null ==> r == -1
      ensures owner != null && HasImplicitThis(owner.hasThis, owner.explicitThis) ==> r == index + 1
      ensures owner != null && !HasImplicitThis(owner.hasThis, owner.explicitThis) ==> r == index
    {
      if owner == null then -1
      else if HasImplicitThis(owner.hasThis, owner.explicitThis) then index + 1
      else index
    }

    /** ToString: "name type" for a named parameter, the type alone otherwise; the type
        is written as its full name. */
    function ToString(): (r: string)
      reads this
      ensures var t := FullName(parameterType);
        |r| >= |t| && r[|r| - |t|..] == t
      ensures name != "" ==> |r| == |name| + 1 + |FullName(parameterType)|
                             && r[..|name| + 1] == name + " "
      ensures name == "" ==> r == FullName(parameterType)
    {
      if name != "" then name + " " + FullName(parameterType) else FullName(parameterType)
    }
  }

  /** `new …ParameterReference(name, parameterType)`: a null type is refused and a null
      name becomes the empty string. */
  method NewParameterReference(name: Option<string>, parameterType: Option<TypeNode>)
    returns (r: Result<ParameterReference>)
    ensures parameterType.None? ==> r == Err(ArgumentNull)
    ensures parameterType.Some? ==>
      r.Ok? && fresh(r.value) && r.value.parameterType == parameterType.value
      && r.value.name == name.GetOr("") && r.value.index == -1 && r.value.owner == null
      && r.value.Sequence() == -1
  {
    if parameterType.None? {
      return Err(ArgumentNull);
    }
    var p := new ParameterReference(name.GetOr(""), parameterType.value);
    return Ok(p);
  }

  /** ParameterReferenceCollection: a list of parameters that all belong to `owner`.
      Each hook runs before the list storage shifts, as the collection it extends
      calls them. */
  class ParameterCollection {
    const owner: ModuleMethodReference
    var items: seq<ParameterReference>

    /** Every parameter appears once, knows its own position and knows its owner. */
    predicate Valid()
      reads this, items
    {
      (forall i, j :: 0 <= i < j < |items| ==> items[i] != items[j])
      && (forall i :: 0 <= i < |items| ==> items[i].index == i && items[i].owner == owner)
    }

    constructor (owner: ModuleMethodReference)
      ensures this.owner == owner && items == [] && Valid()
    {
      this.owner := owner;
      items := [];
    }

    /** Add: OnAdd gives the parameter the owner and the position at the end, then
        it is stored there. */
    method Add(item: ParameterReference)
      requires Valid()
      requires item !in items
      modifies this, item
      ensures items == old(items) + [item]
      ensures item.owner == owner && item.index == |old(items)|
      ensures item.name == old(item.name) && item.parameterType == old(item.parameterType)
      ensures Valid()
    {
      item.owner := owner;
      item.index := |items|;
      items := items + [item];
    }

    /** Insert: OnInsert gives the parameter the owner and the insert position and
        moves every later parameter's index one up; then the storage shifts. A position
        past the end is refused and nothing changes. */
    method Insert(index: int, item: ParameterReference) returns (failure: Option<Error>)
      requires Valid()
      requires item !in items
      modifies this, item, items
      ensures !(0 <= index <= |old(items)|) ==> failure == Some(ArgumentOutOfRange) && items == old(items)
                                                && item.owner == old(item.owner) && item.index == old(item.index)
      ensures 0 <= index <= |old(items)| ==>
        failure.None? && items == old(items)[..index] + [item] + old(items)[index..]
        && item.owner == owner && item.index == index
      ensures item.name == old(item.name) && item.parameterType == old(item.parameterType)
      ensures forall p :: p in old(items) ==> p.name == old(p.name) && p.parameterType == old(p.parameterType)
      ensures Valid()
    {
      if index < 0 || index > |items| {
        return Some(ArgumentOutOfRange);
      }
      item.owner := owner;
      item.index := index;
      var ps := items;
      Renumber(ps, index, 1);
      items := ps[..index] + [item] + ps[index..];
      return None;
    }

    /** The indexer's setter: OnSet detaches the parameter in that slot (no owner,
        index -1) and attaches the new one with the slot's index; then it is stored. */
    method Set(index: int, item: ParameterReference) returns (failure: Option<Error>)
      requires Valid()
      requires forall j :: 0 <= j < |items| && j != index ==> items[j] != item
      modifies this, item, items
      ensures !(0 <= index < |old(items)|) ==> failure == Some(ArgumentOutOfRange) && items == old(items)
                                               && item.owner == old(item.owner) && item.index == old(item.index)
      ensures 0 <= index < |old(items)| ==>
        failure.None? && items == old(items)[index := item]
        && item.owner == owner && item.index == index
        && (old(items)[index] != item ==> old(items)[index].owner == null && old(items)[index].index == -1)
      ensures item.name == old(item.name) && item.parameterType == old(item.parameterType)
      ensures forall p :: p in old(items) ==> p.name == old(p.name) && p.parameterType == old(p.parameterType)
      ensures Valid()
    {
      if index < 0 || index >= |items| {
        return Some(ArgumentOutOfRange);
      }
      var oldItem := items[index];
      oldItem.owner := null;
      oldItem.index := -1;
      item.owner := owner;
      item.index := index;
      items := items[index := item];
      return None;
    }

    /** RemoveAt: OnRemove detaches the parameter (no owner, index -1) and moves every
        later parameter's index one down; then the storage shifts. */
    method RemoveAt(index: int) returns (failure: Option<Error>)
      requires Valid()
      modifies this, items
      ensures !(0 <= index < |old(items)|) ==> failure == Some(ArgumentOutOfRange) && items == old(items)
      ensures 0 <= index < |old(items)| ==>
        failure.None? && items == old(items)[..index] + old(items)[index + 1..]
        && old(items)[index].owner == null && old(items)[index].index == -1
      ensures forall p :: p in old(items) ==> p.name == old(p.name) && p.parameterType == old(p.parameterType)
      ensures Valid()
    {
      if index < 0 || index >= |items| {
        return Some(ArgumentOutOfRange);
      }
      var ps := items;
      var removed := ps[index];
      removed.owner := null;
      removed.index := -1;
      Renumber(ps, index + 1, -1);
      items := ps[..index] + ps[index + 1..];
      return None;
    }

    /** IParameterReferenceReceiver.AddParameter: one new, unnamed parameter of the
        given type, appended at the end. */
    method AddParameter(parameterType: Option<TypeNode>) returns (r: Result<ParameterReference>)
      requires Valid()
      modifies this
      ensures parameterType.None? ==> r == Err(ArgumentNull) && items == old(items)
      ensures parameterType.Some? ==>
        r.Ok? && fresh(r.value) && items == old(items) + [r.value]
        && r.value.parameterType == parameterType.value && r.value.name == ""
        && r.value.owner == owner && r.value.index == |old(items)|
      ensures Valid()
    {
      r := NewParameterReference(None, parameterType);
      if r.Ok? {
        Add(r.value);
      }
    }
  }

  /** The renumbering loop of OnInsert and OnRemove: every parameter from position
      `from` on gets the index its position will have once the storage has shifted by
      `delta`; nothing else about any parameter changes. */
  method Renumber(ps: seq<ParameterReference>, from: nat, delta: int)
    requires from <= |ps|
    requires forall i, j :: 0 <= i < j < |ps| ==> ps[i] != ps[j]
    modifies set k | from <= k < |ps| :: ps[k]
    ensures forall k :: from <= k < |ps| ==> ps[k].index == k + delta
    ensures forall k :: from <= k < |ps| ==>
      ps[k].owner == old(ps[k].owner) && ps[k].name == old(ps[k].name)
      && ps[k].parameterType == old(ps[k].parameterType)
  {
    var i := from;
    while i < |ps|
      invariant from <= i <= |ps|
      invariant forall k :: from <= k < i ==> ps[k].index == k + delta
      invariant forall k :: from <= k < |ps| ==>
        ps[k].owner == old(ps[k].owner) && ps[k].name == old(ps[k].name)
        && ps[k].parameterType == old(ps[k].parameterType)
    {
      ps[i].index := i + delta;
      i := i + 1;
    }
  }

  /** In a well-kept list, a parameter's Sequence is its position, shifted by one when
      the owner passes `this` implicitly. */
  lemma SequenceFollowsPosition(c: ParameterCollection, i: int)
    requires c.Valid()
    requires 0 <= i < |c.items|
    ensures c.items[i].Sequence()
            == i + (if HasImplicitThis(c.owner.hasThis, c.owner.explicitThis) then 1 else 0)
  {
  }

  /** ModuleMethodReference: a reference to a method defined in another module. Its
      parameter list is made on the first ReceiveParameters call. */
  class ModuleMethodReference {
    const id: Methods.ObjectId
    var name: string
    var hasThis: bool
    var explicitThis: bool
    var callingConvention: CallingConvention
    var declaringType: Option<TypeNode>
    var returnType: Option<TypeNode>
    var parameters: ParameterCollection?
    var genericParameters: Option<seq<TypeNode>>

    /** The parameters in order; none while the list has not been made. */
    function ParameterList(): seq<ParameterReference>
      reads this, parameters
    {
      if parameters == null then [] else parameters.items
    }

    /** The list, once made, belongs to this method and is well kept. */
    predicate Valid()
      reads this, parameters, ParameterList()
    {
      parameters != null ==> parameters.owner == this && parameters.Valid()
    }

    /** `new ModuleMethodReference()`: nothing set. */
    constructor (id: Methods.ObjectId)
      ensures this.id == id && name == "" && !hasThis && !explicitThis && callingConvention == 0
      ensures declaringType.None? && returnType.None? && parameters == null && genericParameters.None?
      ensures Valid()
    {
      this.id := id;
      name := "";
      hasThis := false;
      explicitThis := false;
      callingConvention := 0;
      declaringType := None;
      returnType := None;
      parameters := null;
      genericParameters := None;
    }

    /** HasParameters: false when the list is absent or empty. */
    predicate HasParameters()
      reads this, parameters
      ensures HasParameters() <==> |ParameterList()| > 0
    {
      parameters != null && |parameters.items| > 0
    }

    /** ParameterCount: 0 without parameters, otherwise the size of the list. */
    function ParameterCount(): (r: nat)
      reads this, parameters
      ensures r == |ParameterList()|
      ensures r == 0 <==> !HasParameters()
    {
      if !HasParameters() then 0 else |parameters.items|
    }

    /** GetParameters: a new array, empty when there are no parameters, otherwise
        holding the parameters in order. */
    method GetParameters() returns (a: array<ParameterReference>)
      ensures fresh(a)
      ensures a[..] == ParameterList()
      ensures a.Length == ParameterCount()
    {
      if parameters == null || |parameters.items| == 0 {
        a := new ParameterReference[0];
        return;
      }
      var ps := parameters.items;
      a := new ParameterReference[|ps|](i requires 0 <= i < |ps| => ps[i]);
    }

    /** ReceiveParameters: the first call makes the list, every later call hands back
        that same list. `numParameters` is only a capacity hint. */
    method ReceiveParameters(numParameters: int) returns (r: ParameterCollection)
      requires Valid()
      modifies this
      ensures old(parameters) != null ==> r == old(parameters) && parameters == r
      ensures old(parameters) == null ==> fresh(r) && parameters == r && r.items == []
      ensures r.owner == this && r.Valid() && Valid()
      ensures name == old(name) && returnType == old(returnType) && declaringType == old(declaringType)
      ensures hasThis == old(hasThis) && explicitThis == old(explicitThis)
      ensures callingConvention == old(callingConvention) && genericParameters == old(genericParameters)
    {
      if parameters == null {
        parameters := new ParameterCollection(this);
      }
      r := parameters;
    }

    /** The ReturnType setter: the getter returns the last value set. */
    method SetReturnType(value: Option<TypeNode>)
      modifies this
      ensures returnType == value
      ensures name == old(name) && declaringType == old(declaringType) && parameters == old(parameters)
      ensures hasThis == old(hasThis) && explicitThis == old(explicitThis)
      ensures callingConvention == old(callingConvention) && genericParameters == old(genericParameters)
    {
      returnType := value;
    }

    /** HasGenericParameters: false when the list is absent or empty. */
    predicate HasGenericParameters()
      reads this
      ensures HasGenericParameters() <==> genericParameters.Some? && |genericParameters.value| > 0
    {
      genericParameters.Some? && |genericParameters.value| > 0
    }

    /** The GenericParameters getter: the first read makes an empty list, every later
        read returns the same list. */
    method GenericParameters() returns (r: seq<TypeNode>)
      modifies this
      ensures old(genericParameters).Some? ==> genericParameters == old(genericParameters)
      ensures old(genericParameters).None? ==> genericParameters == Some([])
      ensures r == genericParameters.value
      ensures HasGenericParameters() == old(HasGenericParameters())
      ensures name == old(name) && declaringType == old(declaringType) && parameters == old(parameters)
      ensures returnType == old(returnType) && hasThis == old(hasThis) && explicitThis == old(explicitThis)
      ensures callingConvention == old(callingConvention)
    {
      if genericParameters.None? {
        genericParameters := Some([]);
      }
      r := genericParameters.value;
    }

    /** The method as a value, for the name and runtime-view rules. The module of a
        reference is not part of this model. */
    function View(): (m: Methods.MethodRef)
      reads this, parameters, ParameterList()
      ensures m.ModuleMethod? && m.id == id && Methods.Name(m) == name
      ensures Methods.HasThis(m) == hasThis && Methods.ExplicitThis(m) == explicitThis
      ensures Methods.ReturnType(m) == returnType && Methods.DeclaringType(m) == declaringType
      ensures Methods.ParameterCount(m) == ParameterCount()
      ensures forall i :: 0 <= i < |ParameterList()| ==>
                Methods.ParameterTypes(m)[i] == ParameterList()[i].parameterType
    {
      var ps := ParameterList();
      Methods.ModuleMethod(id, name, hasThis, explicitThis, callingConvention, declaringType, returnType,
        seq(|ps|, i requires 0 <= i < |ps| reads ps => ps[i].parameterType),
        genericParameters.GetOr([]), None)
    }
  }

  /** `new ModuleMethodReference(name, returnType)` as written: the return type goes to
      the base constructor whose second argument is the declaring type, so it is
      null-checked as a declaring type and becomes the declaring type as well. */
  method NewModuleMethodReferenceAsWritten(id: Methods.ObjectId, name: string, returnType: Option<TypeNode>)
    returns (r: Result<ModuleMethodReference>)
    ensures returnType.None? ==> r == Err(ArgumentNull)
    ensures returnType.Some? ==>
      r.Ok? && fresh(r.value) && r.value.Valid() && r.value.name == name
      && r.value.returnType == returnType && r.value.declaringType == returnType
  {
    if returnType.None? {
      return Err(ArgumentNull);
    }
    var m := new ModuleMethodReference(id);
    m.name := name;
    m.declaringType := returnType;
    m.returnType := returnType;
    return Ok(m);
  }

  /** The constructor as intended: a checked return type, and no declaring type. */
  method NewModuleMethodReference(id: Methods.ObjectId, name: string, returnType: Option<TypeNode>)
    returns (r: Result<ModuleMethodReference>)
    ensures returnType.None? ==> r == Err(ArgumentNull)
    ensures returnType.Some? ==>
      r.Ok? && fresh(r.value) && r.value.Valid() && r.value.name == name
      && r.value.returnType == returnType && r.value.declaringType.None?
      && r.value.parameters == null
  {
    if returnType.None? {
      return Err(ArgumentNull);
    }
    var m := new ModuleMethodReference(id);
    m.name := name;
    m.returnType := returnType;
    return Ok(m);
  }

  /** `new ModuleMethodReference(name, returnType, declaringType)`: the two-argument
      constructor first, then a null declaring type is refused and the given one is
      stored. */
  method NewModuleMethodReferenceIn(id: Methods.ObjectId, name: string, returnType: Option<TypeNode>,
                                    declaringType: Option<TypeNode>)
    returns (r: Result<ModuleMethodReference>)
    ensures returnType.None? || declaringType.None? <==> r == Err(ArgumentNull)
    ensures r.Ok? ==>
      fresh(r.value) && r.value.Valid() && r.value.name == name
      && r.value.returnType == returnType && r.value.declaringType == declaringType
  {
    r := NewModuleMethodReference(id, name, returnType);
    if r.Err? {
      return;
    }
    if declaringType.None? {
      return Err(ArgumentNull);
    }
    r.value.declaringType := declaringType;
  }

  /** The two constructors part ways on `new ModuleMethodReference("M", Int32)`: both
      store System.Int32 as the return type, but as written it also becomes the
      declaring type. */
  method ConstructorDeclaringTypeDiffers()
    returns (asWritten: Result<ModuleMethodReference>, intended: Result<ModuleMethodReference>)
    ensures asWritten.Ok? && intended.Ok? && asWritten.value != intended.value
    ensures var int32 := Named("System", "Int32", None, true);
      asWritten.value.returnType == Some(int32) && intended.value.returnType == Some(int32)
      && asWritten.value.declaringType == Some(int32) && intended.value.declaringType.None?
  {
    var int32 := Named("System", "Int32", None, true);
    asWritten := NewModuleMethodReferenceAsWritten(1, "M", Some(int32));
    intended := NewModuleMethodReference(2, "M", Some(int32));
  }
}
