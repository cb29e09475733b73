/** The IMethodSignature helpers: implicit `this`, the parameter-list text,
    the sentinel position and the vararg test. */
module Signatures {
  import opened TypeNodes
  import opened Text

  /** An instance method receives `this` implicitly unless the signature lists it. */
  predicate HasImplicitThis(hasThis: bool, explicitThis: bool)
  {
    hasThis && !explicitThis
  }

  /** MethodSignatureFullName, as the loop the source runs over GetParameters():
      "(" first, "," before every parameter but the first, "...," before a sentinel-typed
      one, then the parameter type's FullName, and ")" last. */
  method MethodSignatureFullName(parameterTypes: seq<TypeNode>) returns (s: string)
    ensures s == SignatureText(ParamTextsOf(parameterTypes))
  {
    s := "(";
    ghost var pieces: seq<string> := [];
    var i := 0;
    while i < |parameterTypes|
      invariant 0 <= i <= |parameterTypes|
      invariant |pieces| == i
      invariant forall k :: 0 <= k < i ==> pieces[k] == Decorated(ParamTextOf(parameterTypes[k]))
      invariant s == "(" + CommaList(pieces)
    {
      var p := parameterTypes[i];
      CommaListSnoc(pieces, Decorated(ParamTextOf(p)));
      if i > 0 {
        s := s + ",";
      }
      if p.Sentinel? {
        s := s + "...,";
      }
      s := s + FullName(p);
      pieces := pieces + [Decorated(ParamTextOf(p))];
      i := i + 1;
    }
    var ps := ParamTextsOf(parameterTypes);
    assert pieces == seq(|ps|, k requires 0 <= k < |ps| => Decorated(ps[k]));
    s := s + ")";
  }

  /** The list always opens with "(" and closes with ")", is exactly "()" for a
      signature without parameters, and holds one comma between each pair of
      neighbouring parameters besides the parameters' own text. One more parameter
      goes in front of the closing ")", after a comma unless it is the first, so
      the parameters' texts stand in the list in their order. */
  lemma SignatureTextShape(ps: seq<ParamText>)
    ensures |SignatureText(ps)| >= 2
    ensures SignatureText(ps)[0] == '(' && SignatureText(ps)[|SignatureText(ps)| - 1] == ')'
    ensures |ps| == 0 ==> SignatureText(ps) == "()"
    ensures var names := seq(|ps|, i requires 0 <= i < |ps| => Decorated(ps[i]));
      |SignatureText(ps)| == 2 + TotalLength(names) + (if |ps| == 0 then 0 else |ps| - 1)
    ensures forall p: ParamText ::
      SignatureText(ps + [p])
        == SignatureText(ps)[..|SignatureText(ps)| - 1] + (if |ps| > 0 then "," else "") + Decorated(p) + ")"
  {
    var names := seq(|ps|, i requires 0 <= i < |ps| => Decorated(ps[i]));
    CommaListLength(names);
    forall p: ParamText
      ensures SignatureText(ps + [p])
        == SignatureText(ps)[..|SignatureText(ps)| - 1] + (if |ps| > 0 then "," else "") + Decorated(p) + ")"
    {
      SignatureTextSnoc(ps, p);
    }
  }

  /** One more parameter goes in front of the closing ")". */
  lemma SignatureTextSnoc(ps: seq<ParamText>, p: ParamText)
    ensures SignatureText(ps + [p])
      == SignatureText(ps)[..|SignatureText(ps)| - 1] + Piece(|ps|, Decorated(p)) + ")"
  {
    var names := seq(|ps|, i requires 0 <= i < |ps| => Decorated(ps[i]));
    var longer := ps + [p];
    var names' := seq(|longer|, i requires 0 <= i < |longer| => Decorated(longer[i]));
    assert names' == names + [Decorated(p)];
    CommaListSnoc(names, Decorated(p));
    var text := "(" + CommaList(names) + ")";
    assert SignatureText(ps) == text;
    assert text[..|text| - 1] == "(" + CommaList(names);
  }

  /** A non-empty parameter list starts with the first parameter, with no separator in
      front of it, and a sentinel-typed one carries the "...," prefix. */
  lemma SignatureTextStartsWithFirst(ps: seq<ParamText>)
    requires |ps| > 0
    ensures var first := Decorated(ps[0]);
      |SignatureText(ps)| > |first| && SignatureText(ps)[1..|first| + 1] == first
    ensures ps[0].isSentinel ==> SignatureText(ps)[1..5] == "...,"
  {
    var names := seq(|ps|, i requires 0 <= i < |ps| => Decorated(ps[i]));
    CommaListStartsWithFirst(names);
    var body := CommaList(names);
    assert SignatureText(ps) == "(" + body + ")";
    assert SignatureText(ps)[1..|names[0]| + 1] == body[..|names[0]|];
  }

  /** GetSentinelPosition: the index of the first sentinel-typed parameter, or -1 when
      there are no parameters or none is a sentinel. */
  method GetSentinelPosition(parameterTypes: seq<TypeNode>) returns (r: int)
    ensures -1 <= r < |parameterTypes|
    ensures r == -1 <==> forall i :: 0 <= i < |parameterTypes| ==> !parameterTypes[i].Sentinel?
    ensures r >= 0 ==> parameterTypes[r].Sentinel?
                       && forall j :: 0 <= j < r ==> !parameterTypes[j].Sentinel?
  {
    if |parameterTypes| == 0 {
      return -1;
    }
    var i := 0;
    while i < |parameterTypes|
      invariant 0 <= i <= |parameterTypes|
      invariant forall j :: 0 <= j < i ==> !parameterTypes[j].Sentinel?
    {
      if parameterTypes[i].Sentinel? {
        return i;
      }
      i := i + 1;
    }
    return -1;
  }

  /** The VarArg member of MethodCallingConvention. */
  const VarArg: CallingConvention := 5

  /** IsVarArg as written: a bitwise AND with VarArg (5), which is non-zero for every
      calling convention that shares a bit with 5. */
  predicate IsVarArgAsWritten(callingConvention: CallingConvention)
  {
    callingConvention & VarArg != 0
  }

  /** The calling conventions this test accepts besides VarArg itself: C (1),
      ThisCall (3) and FastCall (4) are all reported as vararg. */
  lemma IsVarArgAsWrittenAcceptsOthers()
    ensures IsVarArgAsWritten(1) && IsVarArgAsWritten(3) && IsVarArgAsWritten(4)
    ensures !IsVarArgAsWritten(0) && !IsVarArgAsWritten(2)
    ensures IsVarArg(1) != IsVarArgAsWritten(1)
  {
  }

  /** IsVarArg as intended: the calling kind, the low four bits of the convention
      (section II.23.2.3 of ECMA-335), equals VARARG. */
  predicate IsVarArg(callingConvention: CallingConvention)
  {
    callingConvention & 0x0F == VarArg
  }

  /** The intended test accepts VarArg whatever flags (Generic 0x10, HasThis 0x20,
      ExplicitThis 0x40) are set above it, rejects every other calling kind, and only
      narrows the test as written. */
  lemma IsVarArgExactlyVarArg(c: CallingConvention)
    ensures IsVarArg(c) ==> IsVarArgAsWritten(c)
    ensures IsVarArg(c) == IsVarArg(c & 0x0F)
    ensures IsVarArg(VarArg) && IsVarArg(VarArg | 0x10) && IsVarArg(VarArg | 0x20)
    ensures forall k: CallingConvention :: k < 0x10 && k != VarArg ==> !IsVarArg(k)
  {
  }
}
