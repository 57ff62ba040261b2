/**
 * JNI type signatures as produced at compile time by the `TypeSignature` and
 * `FunctionSignature` templates of the JNI helper header.
 *
 * A signature is derived from a C++ type: primitives give one letter, object
 * types give `L<class>;`, an array type gives `[` followed by its component's
 * signature, `void` gives `V`, and a function type gives `(params)ret`,
 * assembled by a right-nested pairwise concatenation. The partner of the
 * printer is a reader (`ParseFunctionSignature`) and the round trip between
 * them shows that the printed signature determines the C++ type it came from.
 */
module JniSignatures {
  import opened Wrappers

  datatype Primitive = Boolean | Byte | Char | Short | Int | Long | Float | Double

  /** A component type: a primitive or a Java class named in internal form (`java/lang/String`). */
  datatype Component = Prim(p: Primitive) | Class(name: string)

  /** A C++ type that has a signature: `TYPE` or its array type `TYPE##Array`. */
  datatype JniType = Plain(component: Component) | ArrayOf(element: Component)

  /** A return type: `void` or a type that has a signature. */
  datatype ReturnType = Void | Returns(t: JniType)

  // The internal object types of the header.
  const JObject: Component := Class("java/lang/Object")
  const JClass: Component := Class("java/lang/Class")
  const JThrowable: Component := Class("java/lang/Throwable")
  const JString: Component := Class("java/lang/String")

  /** A class name that can appear between `L` and `;`. */
  predicate ValidClassName(name: string) { ';' !in name }

  predicate ValidComponent(c: Component) { c.Class? ==> ValidClassName(c.name) }

  predicate ValidType(t: JniType)
  {
    match t
    case Plain(c) => ValidComponent(c)
    case ArrayOf(c) => ValidComponent(c)
  }

  predicate ValidReturn(r: ReturnType) { r.Returns? ==> ValidType(r.t) }

  predicate AllValid(ps: seq<JniType>) { forall i :: 0 <= i < |ps| ==> ValidType(ps[i]) }

  /** The one-letter signature of a primitive: one of `ZBCSIJFD`, never a marker letter. */
  function PrimitiveLetter(p: Primitive): (c: char)
    ensures c in "ZBCSIJFD"
    ensures c != 'L' && c != '[' && c != 'V' && c != '(' && c != ')'
  {
    match p
    case Boolean => 'Z'
    case Byte => 'B'
    case Char => 'C'
    case Short => 'S'
    case Int => 'I'
    case Long => 'J'
    case Float => 'F'
    case Double => 'D'
  }

  /** The inverse of `PrimitiveLetter`. */
  function PrimitiveOfLetter(c: char): (r: Option<Primitive>)
    ensures r.Some? ==> PrimitiveLetter(r.value) == c
    ensures forall p: Primitive :: PrimitiveLetter(p) == c ==> r == Some(p)
  {
    match c
    case 'Z' => Some(Boolean)
    case 'B' => Some(Byte)
    case 'C' => Some(Char)
    case 'S' => Some(Short)
    case 'I' => Some(Int)
    case 'J' => Some(Long)
    case 'F' => Some(Float)
    case 'D' => Some(Double)
    case _ => None
  }

  /** A primitive gives its letter; a class gives `L<name>;`. */
  function ComponentSignature(c: Component): (s: string)
    ensures c.Prim? ==> s == [PrimitiveLetter(c.p)]
    ensures c.Class? ==> |s| == |c.name| + 2 && s[0] == 'L' && s[|s| - 1] == ';' && s[1..|s| - 1] == c.name
    ensures |s| >= 1 && s[0] != '[' && s[0] != 'V' && s[0] != ')'
  {
    match c
    case Prim(p) => [PrimitiveLetter(p)]
    case Class(name) => "L" + name + ";"
  }

  /** A type signature is never empty, starts with `[` exactly for an array type, and never starts with `V` or `)`. */
  function TypeSignature(t: JniType): (s: string)
    ensures |s| >= 1 && s[0] != 'V' && s[0] != ')'
    ensures s[0] == '[' <==> t.ArrayOf?
    ensures t.ArrayOf? ==> s[1..] == ComponentSignature(t.element)
  {
    match t
    case Plain(c) => ComponentSignature(c)
    case ArrayOf(c) => "[" + ComponentSignature(c)
  }

  /** `V` is the return signature of `void` and of nothing else. */
  function ReturnSignature(r: ReturnType): (s: string)
    ensures |s| >= 1
    ensures s == "V" <==> r.Void?
  {
    match r
    case Void => "V"
    case Returns(t) => TypeSignature(t)
  }

  function Concat(ss: seq<string>): string
  {
    if ss == [] then "" else ss[0] + Concat(ss[1..])
  }

  /**
   * The header's `SignatureBuilder<s1, s2, ..., sn>`: two strings are joined by
   * `ConcatenateStrings`; a longer list joins its head with the builder of its tail.
   */
  function SignatureBuilder(strs: seq<string>): (s: string)
    requires |strs| >= 2
    ensures s == Concat(strs)
  {
    if |strs| == 2 then
      assert strs[1..][1..] == [];
      assert Concat(strs[1..]) == strs[1] + Concat(strs[1..][1..]);
      strs[0] + strs[1]
    else
      strs[0] + SignatureBuilder(strs[1..])
  }

  function Signatures(ps: seq<JniType>): (r: seq<string>)
    ensures |r| == |ps|
  {
    if ps == [] then [] else [TypeSignature(ps[0])] + Signatures(ps[1..])
  }

  /**
   * `FunctionSignature<Ret(Params...)>::value`: `(`, the parameter signatures
   * in order, `)` and the return signature.
   */
  function FunctionSignature(params: seq<JniType>, ret: ReturnType): (s: string)
    ensures s == "(" + Concat(Signatures(params)) + ")" + ReturnSignature(ret)
  {
    BracketedConcat(Signatures(params), ReturnSignature(ret));
    SignatureBuilder(["("] + Signatures(params) + [")", ReturnSignature(ret)])
  }

  /** Joining `(`, some strings, `)` and a last string brackets the strings' concatenation. */
  lemma BracketedConcat(sigs: seq<string>, last: string)
    ensures Concat(["("] + sigs + [")", last]) == "(" + Concat(sigs) + ")" + last
  {
    ConcatAppend(["("] + sigs, [")", last]);
    ConcatAppend(["("], sigs);
    assert Concat([")", last]) == ")" + last by {
      assert [")", last][1..] == [last];
      assert [last][1..] == [];
    }
  }

  lemma {:induction false} ConcatAppend(a: seq<string>, b: seq<string>)
    ensures Concat(a + b) == Concat(a) + Concat(b)
  {
    if a == [] {
      assert a + b == b;
    } else {
      assert (a + b)[1..] == a[1..] + b;
      ConcatAppend(a[1..], b);
    }
  }

  // ----- The reader -----

  /** Reads a class name up to and including its terminating `;`. */
  function ParseClassName(s: string): (r: Option<(string, string)>)
    ensures r.Some? ==> |r.value.1| < |s| && ValidClassName(r.value.0)
    ensures r.Some? ==> s == r.value.0 + ";" + r.value.1
  {
    if s == [] then None
    else if s[0] == ';' then Some(("", s[1..]))
    else match ParseClassName(s[1..])
      case None => None
      case Some((n, rest)) => Some(([s[0]] + n, rest))
  }

  function ParseComponent(s: string): (r: Option<(Component, string)>)
    ensures r.Some? ==> |r.value.1| < |s|
  {
    if s == [] then None
    else if s[0] == 'L' then
      match ParseClassName(s[1..])
      case None => None
      case Some((n, rest)) => Some((Class(n), rest))
    else match PrimitiveOfLetter(s[0])
      case None => None
      case Some(p) => Some((Prim(p), s[1..]))
  }

  function ParseType(s: string): (r: Option<(JniType, string)>)
    ensures r.Some? ==> |r.value.1| < |s|
  {
    if s != [] && s[0] == '[' then
      match ParseComponent(s[1..])
      case None => None
      case Some((c, rest)) => Some((ArrayOf(c), rest))
    else
      match ParseComponent(s)
      case None => None
      case Some((c, rest)) => Some((Plain(c), rest))
  }

  /** Reads parameter signatures up to and including the closing `)`. */
  function ParseParams(s: string): Option<(seq<JniType>, string)>
    decreases |s|
  {
    if s == [] then None
    else if s[0] == ')' then Some(([], s[1..]))
    else match ParseType(s)
      case None => None
      case Some((t, rest)) =>
        match ParseParams(rest)
        case None => None
        case Some((ts, rest')) => Some(([t] + ts, rest'))
  }

  function ParseReturn(s: string): Option<ReturnType>
  {
    if s == "V" then Some(Void)
    else match ParseType(s)
      case Some((t, rest)) => if rest == [] then Some(Returns(t)) else None
      case None => None
  }

  function ParseFunctionSignature(s: string): Option<(seq<JniType>, ReturnType)>
  {
    if s == [] || s[0] != '(' then None
    else match ParseParams(s[1..])
      case None => None
      case Some((ps, rest)) =>
        match ParseReturn(rest)
        case None => None
        case Some(r) => Some((ps, r))
  }

  lemma {:induction false} ParseClassNameOf(name: string, rest: string)
    requires ValidClassName(name)
    ensures ParseClassName(name + ";" + rest) == Some((name, rest))
  {
    var s := name + ";" + rest;
    if name == [] {
      assert s == [';'] + rest;
    } else {
      assert s[1..] == name[1..] + ";" + rest;
      ParseClassNameOf(name[1..], rest);
      assert [s[0]] + name[1..] == name;
    }
  }

  lemma ParseComponentOf(c: Component, rest: string)
    requires ValidComponent(c)
    ensures ParseComponent(ComponentSignature(c) + rest) == Some((c, rest))
  {
    var s := ComponentSignature(c) + rest;
    match c
    case Prim(p) =>
      assert s[0] == PrimitiveLetter(p) && s[1..] == rest;
    case Class(name) =>
      assert s[1..] == name + ";" + rest;
      ParseClassNameOf(name, rest);
  }

  lemma ParseTypeOf(t: JniType, rest: string)
    requires ValidType(t)
    ensures ParseType(TypeSignature(t) + rest) == Some((t, rest))
  {
    match t
    case Plain(c) =>
      ParseComponentOf(c, rest);
    case ArrayOf(c) =>
      var s := TypeSignature(t) + rest;
      assert s[1..] == ComponentSignature(c) + rest;
      ParseComponentOf(c, rest);
  }

  /** After a type, the parameter reader goes on with what follows it. */
  lemma ParseParamsCons(s: string, t: JniType, tail: string)
    requires s != [] && s[0] != ')' && ParseType(s) == Some((t, tail))
    ensures ParseParams(tail).Some? ==>
      ParseParams(s) == Some(([t] + ParseParams(tail).value.0, ParseParams(tail).value.1))
  {
  }

  lemma {:induction false} ParseParamsOf(ps: seq<JniType>, rest: string)
    requires AllValid(ps)
    ensures ParseParams(Concat(Signatures(ps)) + ")" + rest) == Some((ps, rest))
  {
    var s := Concat(Signatures(ps)) + ")" + rest;
    if ps == [] {
      assert s == [')'] + rest;
    } else {
      var sig := TypeSignature(ps[0]);
      var tail := Concat(Signatures(ps[1..])) + ")" + rest;
      assert Signatures(ps)[0] == sig && Signatures(ps)[1..] == Signatures(ps[1..]);
      assert s == sig + tail;
      assert s[0] == sig[0];
      ParseTypeOf(ps[0], tail);
      assert AllValid(ps[1..]) by {
        forall i | 0 <= i < |ps[1..]| ensures ValidType(ps[1..][i]) {
          assert ps[1..][i] == ps[i + 1];
        }
      }
      ParseParamsOf(ps[1..], rest);
      ParseParamsCons(s, ps[0], tail);
      assert [ps[0]] + ps[1..] == ps;
    }
  }

  lemma ParseReturnOf(r: ReturnType)
    requires ValidReturn(r)
    ensures ParseReturn(ReturnSignature(r)) == Some(r)
  {
    match r
    case Void =>
    case Returns(t) =>
      ParseTypeOf(t, "");
      assert TypeSignature(t) + "" == TypeSignature(t);
  }

  /** Reading back a printed function signature gives the parameter and return types it was built from. */
  lemma FunctionSignatureRoundTrip(params: seq<JniType>, ret: ReturnType)
    requires AllValid(params) && ValidReturn(ret)
    ensures ParseFunctionSignature(FunctionSignature(params, ret)) == Some((params, ret))
  {
    var s := FunctionSignature(params, ret);
    assert s[1..] == Concat(Signatures(params)) + ")" + ReturnSignature(ret);
    ParseParamsOf(params, ReturnSignature(ret));
    ParseReturnOf(ret);
  }

  /** Two C++ function types with well-formed class names never share a signature. */
  lemma FunctionSignatureInjective(p1: seq<JniType>, r1: ReturnType, p2: seq<JniType>, r2: ReturnType)
    requires AllValid(p1) && ValidReturn(r1) && AllValid(p2) && ValidReturn(r2)
    requires FunctionSignature(p1, r1) == FunctionSignature(p2, r2)
    ensures p1 == p2 && r1 == r2
  {
    FunctionSignatureRoundTrip(p1, r1);
    FunctionSignatureRoundTrip(p2, r2);
  }
}
