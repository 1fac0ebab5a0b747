/**
 * The pure decisions inside the built-in invokers of `MethodInvokers`: which calls they
 * claim, where the `@Style` override name comes from, how a styled method is looked
 * up, and the synthesized `toString`, `equals` and `hashCode` fallbacks.
 */
module MethodInvokers {
  import opened Wrappers
  import opened Java
  import opened Descriptors
  import opened Store

  /** The three `Object` contract methods a proxy can synthesize. */
  datatype Contract = ToStringContract | EqualsContract | HashCodeContract

  /** `methodNotEquals`: false exactly for the method with this name and these parameter types. */
  predicate MethodNotEquals(m: Method, name: string, params: seq<JType>) {
    m.name != name || m.params != params
  }

  /** The Java method name and parameter list each contract method is claimed by. */
  function ContractName(c: Contract): string {
    match c
    case ToStringContract => "toString"
    case EqualsContract => "equals"
    case HashCodeContract => "hashCode"
  }

  function ContractParams(c: Contract): seq<JType> {
    if c.EqualsContract? then [OBJECT] else []
  }

  /** `findStyle`: the `@Style` of the proxy's first interface; none without interfaces. */
  function FindStyle(ifaces: seq<Iface>): (r: Option<Style>)
    ensures |ifaces| == 0 ==> r.None?
    ensures |ifaces| > 0 ==> r == ifaces[0].style
  {
    if |ifaces| == 0 then None else ifaces[0].style
  }

  function StyleField(s: Style, c: Contract): string {
    match c
    case ToStringContract => s.toStringName
    case EqualsContract => s.equalsName
    case HashCodeContract => s.hashCodeName
  }

  /** The name of the default method a contract call is delegated to. */
  function StyleName(ifaces: seq<Iface>, c: Contract): (name: string)
    ensures FindStyle(ifaces).None? ==> name == StyleField(DEFAULT_STYLE, c)
    ensures FindStyle(ifaces).Some? ==> name == StyleField(FindStyle(ifaces).value, c)
  {
    match FindStyle(ifaces)
    case Some(s) => StyleField(s, c)
    case None => StyleField(DEFAULT_STYLE, c)
  }

  /** `Arrays.toString(interfaces)`. */
  function ClassArrayString(ifaces: seq<Iface>): string {
    "[" + Join(", ", ClassStrings(ifaces)) + "]"
  }

  function ClassStrings(ifaces: seq<Iface>): (r: seq<string>)
    ensures |r| == |ifaces|
  {
    if |ifaces| == 0 then [] else [ClassString(ifaces[0])] + ClassStrings(ifaces[1..])
  }

  /** `String.join(sep, parts)` / `Collectors.joining(sep)`. */
  function Join(sep: string, parts: seq<string>): string {
    if |parts| == 0 then ""
    else if |parts| == 1 then parts[0]
    else parts[0] + sep + Join(sep, parts[1..])
  }

  /** The message of the `IllegalStateException` for a styled method that is not default. */
  function NotDefaultMessage(name: string, ifaces: seq<Iface>): string {
    "Cannot call '" + name + "' on '" + ClassArrayString(ifaces) + "', because '" + name
    + "' doesn't have 'default' keyword"
  }

  /** How `invokeDefaultMethod` resolves a styled name, before any body runs. */
  datatype StyledTarget =
    | NoStyledMethod                  // NoSuchMethodException: the fallback is used
    | NotDefault(message: string)     // IllegalStateException
    | DefaultBody(target: Method)     // the default body is invoked

  /**
   * `invokeDefaultMethod`'s lookup: only the methods the first interface itself declares
   * are searched; a match must be `default`.
   */
  function ResolveStyled(ifaces: seq<Iface>, name: string, params: seq<JType>): (r: StyledTarget)
    ensures |ifaces| == 0 ==> r.NoStyledMethod?
    ensures |ifaces| > 0 ==> (r.NoStyledMethod? <==> FindDeclared(ifaces[0].declared, name, params).None?)
    ensures r.NotDefault? ==> r.message == NotDefaultMessage(name, ifaces)
    ensures r.NotDefault? ==> exists m | m in ifaces[0].declared :: m.name == name && m.params == params && !m.isDefault
    ensures r.DefaultBody? ==> r.target in ifaces[0].declared && r.target.isDefault
    ensures r.DefaultBody? ==> r.target.name == name && r.target.params == params
  {
    if |ifaces| == 0 then NoStyledMethod
    else match FindDeclared(ifaces[0].declared, name, params)
      case None => NoStyledMethod
      case Some(m) => if m.isDefault then DefaultBody(m) else NotDefault(NotDefaultMessage(name, ifaces))
  }

  // ------------------------------------------------------------------ toString

  /** `Objects.toString(v)`; references render through `show`. */
  function Render(show: nat -> string, v: Value): string {
    match v
    case Null => "null"
    case Bool(b) => if b then "true" else "false"
    case Int(i) => IntToString(i)
    case Long(l) => IntToString(l)
    case Str(s) => s
    case Ref(id) => show(id)
  }

  function EntryStrings(show: nat -> string, s: Store): (r: seq<string>)
    ensures |r| == |s|
    ensures forall i | 0 <= i < |s| :: r[i] == s[i].key + "=" + Render(show, s[i].value)
  {
    if |s| == 0 then [] else [s[0].key + "=" + Render(show, s[0].value)] + EntryStrings(show, s[1..])
  }

  /**
   * The synthesized `toString`: the proxy's interfaces as `Arrays.toString` prints them,
   * then `{key=value, ...}` over the store in its iteration order.
   */
  function ToStringFallback(show: nat -> string, ifaces: seq<Iface>, s: Store): string {
    ClassArrayString(ifaces) + "{" + Join(", ", EntryStrings(show, s)) + "}"
  }

  // ------------------------------------------------------------------ equals

  /** `list.contains(v)` with `Objects.equals` on the elements. */
  function Contains(xs: seq<Value>, v: Value): (r: bool) {
    if |xs| == 0 then false else xs[0] == v || Contains(xs[1..], v)
  }

  /** `xs.containsAll(ys)`. */
  function ContainsAll(xs: seq<Value>, ys: seq<Value>): bool {
    if |ys| == 0 then true else Contains(xs, ys[0]) && ContainsAll(xs, ys[1..])
  }

  /**
   * The comparison the synthesized `equals` makes between the two value lists: equal
   * sizes and each list contains every element of the other.
   */
  function SameFieldValues(objectFields: seq<Value>, proxyFields: seq<Value>): bool {
    |objectFields| == |proxyFields|
    && ContainsAll(objectFields, proxyFields)
    && ContainsAll(proxyFields, objectFields)
  }

  // ------------------------------------------------------------------ hashCode

  /** `List.hashCode()` before truncation: `h = 31 * h + hash(e)` from `h = 1`. */
  function ListPoly(refHash: nat -> int, xs: seq<Value>): int
    decreases |xs|
  {
    if |xs| == 0 then 1 else 31 * ListPoly(refHash, xs[..|xs| - 1]) + HashOf(refHash, xs[|xs| - 1])
  }

  /**
   * `Objects.hash(list)`: the list is the single varargs element, so the result is
   * `31 * 1 + list.hashCode()` in `int` arithmetic.
   */
  function ObjectsHashOfList(refHash: nat -> int, xs: seq<Value>): int {
    Wrap32(31 + Wrap32(ListPoly(refHash, xs)))
  }
}
