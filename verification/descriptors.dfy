/**
 * Reflection replaced by data: a `java.lang.reflect.Method` becomes a descriptor record
 * and an interface becomes a node of a finite, acyclic super-interface tree (a
 * super-interface shared by two parents simply appears twice, as in a diamond).
 */
module Descriptors {
  import opened Wrappers
  import opened Java

  /** The annotations the core inspects on a method, with their attribute values. */
  datatype Annotation =
    | Transient                                     // @Transient
    | NodeKey                                       // @NodeKey
    | Setting(path: string, nodeFromParent: bool)   // @Setting(value, nodeFromParent)
    | Marker(name: string)                          // any other annotation type

  /** An annotation type, as `isAnnotationPresent` asks about it. */
  datatype AnnotationKind = TransientKind | NodeKeyKind | SettingKind | MarkerKind(name: string)

  function KindOf(a: Annotation): AnnotationKind {
    match a
    case Transient => TransientKind
    case NodeKey => NodeKeyKind
    case Setting(_, _) => SettingKind
    case Marker(n) => MarkerKind(n)
  }

  /**
   * A method of an interface. `ret` and `params` are the types as resolved against the
   * interface being scanned; `owner` is the name of the declaring interface.
   */
  datatype Method = Method(
    name: string,
    owner: string,
    params: seq<JType>,
    ret: JType,
    isDefault: bool,
    isStatic: bool,
    isSynthetic: bool,
    annotations: seq<Annotation>)

  /** `method.isAnnotationPresent(kind)`. */
  predicate HasAnnotation(m: Method, kind: AnnotationKind) {
    exists i | 0 <= i < |m.annotations| :: KindOf(m.annotations[i]) == kind
  }

  /** `method.getAnnotation(Setting.class)`: the first `@Setting`, if any. */
  function SettingOf(anns: seq<Annotation>): (r: Option<Annotation>)
    ensures r.Some? ==> r.value.Setting? && r.value in anns
    ensures r.None? ==> forall i | 0 <= i < |anns| :: !anns[i].Setting?
  {
    if |anns| == 0 then None
    else if anns[0].Setting? then Some(anns[0])
    else SettingOf(anns[1..])
  }

  /** The three method names a `@Style` annotation overrides. */
  datatype Style = Style(toStringName: string, equalsName: string, hashCodeName: string)

  /** `@Style` with every attribute left at its declared default. */
  const DEFAULT_STYLE: Style := Style("stringify", "equalTo", "hash")

  /**
   * An interface: its binary name, its declared methods in `getDeclaredMethods` order
   * (which Java leaves unspecified; the list fixes one), its direct super-interfaces in
   * `extends` order, and its `@Style` annotation if present.
   */
  datatype Iface = Iface(name: string, declared: seq<Method>, supers: seq<Iface>, style: Option<Style>)

  /** `Class.toString()` of an interface. */
  function ClassString(i: Iface): string {
    "interface " + i.name
  }

  function Names(ifaces: seq<Iface>): (r: seq<string>)
    ensures |r| == |ifaces|
    ensures forall k | 0 <= k < |r| :: r[k] == ifaces[k].name
  {
    if |ifaces| == 0 then [] else [ifaces[0].name] + Names(ifaces[1..])
  }

  /** The run-time class of a proxy implementing `ifaces`. */
  function ProxyClassOf(ifaces: seq<Iface>): JType {
    ProxyClass(Names(ifaces))
  }

  /** `iface.getDeclaredMethod(name, params)`: a declared (not inherited) method, if any. */
  function FindDeclared(declared: seq<Method>, name: string, params: seq<JType>): (r: Option<Method>)
    ensures r.Some? ==> r.value in declared && r.value.name == name && r.value.params == params
    ensures r.None? ==> forall k | 0 <= k < |declared| :: declared[k].name != name || declared[k].params != params
  {
    if |declared| == 0 then None
    else if declared[0].name == name && declared[0].params == params then Some(declared[0])
    else FindDeclared(declared[1..], name, params)
  }

  /**
   * The super-interfaces of `t` in pre-order: each direct super-interface, in `extends`
   * order, immediately followed by its own ancestors. Nothing is deduplicated.
   */
  function Ancestors(t: Iface): seq<Iface>
    decreases t, 1
  {
    AncestorsFrom(t, 0)
  }

  function AncestorsFrom(t: Iface, i: nat): seq<Iface>
    decreases t, 0, |t.supers| - i
  {
    if i >= |t.supers| then [] else [t.supers[i]] + Ancestors(t.supers[i]) + AncestorsFrom(t, i + 1)
  }

  /** The scanned interface followed by all of its ancestors. */
  function Hierarchy(t: Iface): (r: seq<Iface>)
    ensures |r| > 0 && r[0] == t
  {
    [t] + Ancestors(t)
  }
}
