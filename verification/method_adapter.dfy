/**
 * `MethodAdapter`: a method seen only through its signature (name, resolved return type,
 * resolved parameter types), with `equals` and `hashCode` over that signature and no
 * regard to the class that declares the method.
 */
module MethodAdapters {
  import opened Java
  import opened Descriptors

  datatype Adapter = Adapter(name: string, returnType: JType, parameterTypes: seq<JType>)

  /** What `equals(Object)` may be handed: another adapter, some other object, or `null`. */
  datatype Other = AnAdapter(a: Adapter) | NotAnAdapter | NullObject

  function MapTypes(resolve: JType -> JType, ts: seq<JType>): (r: seq<JType>)
    ensures |r| == |ts|
    ensures forall i | 0 <= i < |ts| :: r[i] == resolve(ts[i])
  {
    if |ts| == 0 then [] else [resolve(ts[0])] + MapTypes(resolve, ts[1..])
  }

  /**
   * `new MethodAdapter(method, declaringType)`: `resolve` stands for the generic
   * resolution of a type against `declaringType`.
   */
  function AdapterOf(m: Method, resolve: JType -> JType): (r: Adapter)
    ensures r.name == m.name
    ensures |r.parameterTypes| == |m.params|
  {
    Adapter(m.name, resolve(m.ret), MapTypes(resolve, m.params))
  }

  /**
   * `equals`: true on identity; false for `null` and for any object that is not an
   * adapter; otherwise name, return type and every parameter type must agree.
   */
  predicate AdapterEquals(a: Adapter, other: Other) {
    match other
    case AnAdapter(b) =>
      a.name == b.name && a.returnType == b.returnType
      && |a.parameterTypes| == |b.parameterTypes|
      && forall i | 0 <= i < |a.parameterTypes| :: a.parameterTypes[i] == b.parameterTypes[i]
    case NotAnAdapter => false
    case NullObject => false
  }

  /** The 31-polynomial of `Arrays.hashCode`, over already computed element hashes. */
  function Poly31(hs: seq<int>): int
    decreases |hs|
  {
    if |hs| == 0 then 1 else 31 * Poly31(hs[..|hs| - 1]) + hs[|hs| - 1]
  }

  function TypeHashes(typeHash: JType -> int, ts: seq<JType>): (r: seq<int>)
    ensures |r| == |ts|
    ensures forall i | 0 <= i < |ts| :: r[i] == Wrap32(typeHash(ts[i]))
  {
    if |ts| == 0 then [] else [Wrap32(typeHash(ts[0]))] + TypeHashes(typeHash, ts[1..])
  }

  /**
   * `hashCode`: `Objects.hash(name, returnType, Arrays.hashCode(parameterTypes))`, each a
   * 31-polynomial in `int` arithmetic; `typeHash` stands for the types' own hash codes.
   */
  function AdapterHash(typeHash: JType -> int, a: Adapter): (h: int)
    ensures IsInt32(h)
  {
    var arrayHash := Wrap32(Poly31(TypeHashes(typeHash, a.parameterTypes)));
    Wrap32(Poly31([StringHash(a.name), Wrap32(typeHash(a.returnType)), arrayHash]))
  }

  /** Componentwise agreement is exactly equality of the two signatures. */
  lemma EqualsIsSameSignature(a: Adapter, b: Adapter)
    ensures AdapterEquals(a, AnAdapter(b)) <==> a == b
  {
    if AdapterEquals(a, AnAdapter(b)) {
      assert a.parameterTypes == b.parameterTypes;
    }
  }

  /** An adapter equals itself, and never `null` or an object of another class. */
  lemma EqualsReflexive(a: Adapter)
    ensures AdapterEquals(a, AnAdapter(a))
    ensures !AdapterEquals(a, NotAnAdapter) && !AdapterEquals(a, NullObject)
  {
  }

  /** `equals` is symmetric and transitive among adapters. */
  lemma EqualsEquivalence(a: Adapter, b: Adapter, c: Adapter)
    ensures AdapterEquals(a, AnAdapter(b)) ==> AdapterEquals(b, AnAdapter(a))
    ensures AdapterEquals(a, AnAdapter(b)) && AdapterEquals(b, AnAdapter(c)) ==> AdapterEquals(a, AnAdapter(c))
  {
    EqualsIsSameSignature(a, b);
    EqualsIsSameSignature(b, a);
    EqualsIsSameSignature(b, c);
    EqualsIsSameSignature(a, c);
  }

  /** Equal adapters have equal hash codes, whatever the types' hash codes are. */
  lemma EqualAdaptersHashAlike(typeHash: JType -> int, a: Adapter, b: Adapter)
    requires AdapterEquals(a, AnAdapter(b))
    ensures AdapterHash(typeHash, a) == AdapterHash(typeHash, b)
  {
    EqualsIsSameSignature(a, b);
  }

  /**
   * Two methods declared in different interfaces but with the same name, return type and
   * parameter types give equal adapters.
   */
  lemma DeclaringClassIgnored(m: Method, owner: string, resolve: JType -> JType)
    ensures AdapterEquals(AdapterOf(m, resolve), AnAdapter(AdapterOf(m.(owner := owner), resolve)))
  {
  }

  /** Methods differing in name, or in the number of parameters, are never equal. */
  lemma DifferentSignaturesDiffer(m: Method, n: Method, resolve: JType -> JType)
    requires m.name != n.name || |m.params| != |n.params|
    ensures !AdapterEquals(AdapterOf(m, resolve), AnAdapter(AdapterOf(n, resolve)))
  {
  }
}
