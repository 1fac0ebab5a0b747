/**
 * `InterfaceMethodDiscoverer` and `ProxyMethodFilter`: which declared methods of a
 * configuration interface and its super-interfaces become fields, in which order, and
 * which invoker chain the resulting instance factory carries.
 */
module Discovery {
  import opened Wrappers
  import opened Java
  import opened Descriptors
  import opened ProxyInstances

  /**
   * A `ProxyMethodFilter`: `true` keeps the method for further filters, `false` ignores
   * it. `Custom` is a user filter; it may throw.
   */
  datatype Filter =
    | Synthetic                  // method.isSynthetic()
    | Static                     // Modifier.isStatic(method.getModifiers())
    | NotTransientDefault        // !method.isDefault() || !method.isAnnotationPresent(Transient.class)
    | AccessorShape              // the setter / parameter check of the default builder
    | Reverse(inner: Filter)     // filter.reverse()
    | CustomFilter(test: (Method, Iface) -> Result<bool>)

  /** The message of the exception for a method with parameters and no body. */
  function ParametersMessage(described: string): string {
    "Interface methods should not have parameters: '" + described + "'"
  }

  /**
   * `filter.test(method, type)`, where `type` is the interface being scanned and
   * `describe` stands for `Method.toGenericString()`.
   */
  function Test(f: Filter, m: Method, t: Iface, describe: Method -> string): (r: Result<bool>)
    ensures f.Reverse? ==> (r.Ok? <==> Test(f.inner, m, t, describe).Ok?)
    ensures f.Reverse? && r.Ok? ==> r.value == !Test(f.inner, m, t, describe).value
    ensures f.Reverse? && r.Err? ==> r == Test(f.inner, m, t, describe)
  {
    match f
    case Synthetic => Ok(m.isSynthetic)
    case Static => Ok(m.isStatic)
    case NotTransientDefault => Ok(!m.isDefault || !HasAnnotation(m, TransientKind))
    case AccessorShape =>
      if |m.params| == 1 && (m.ret == Class(t.name) || m.ret == Void) then Ok(false)
      else if |m.params| != 0 && !m.isDefault then Err(Serialization(ParametersMessage(describe(m))))
      else Ok(true)
    case Reverse(g) =>
      (match Test(g, m, t, describe)
       case Ok(b) => Ok(!b)
       case Err(e) => Err(e))
    case CustomFilter(test) => test(m, t)
  }

  /**
   * `shouldBeIgnored`: the filters in order, stopping at the first that rejects the
   * method. A `SerializationException` from a filter is rethrown wrapped in a
   * `RuntimeException`; anything else a filter throws propagates as it is.
   */
  function ShouldBeIgnored(filters: seq<Filter>, m: Method, t: Iface, describe: Method -> string): (r: Result<bool>)
    ensures r == Ok(false) <==> forall i | 0 <= i < |filters| :: Test(filters[i], m, t, describe) == Ok(true)
  {
    if |filters| == 0 then Ok(false)
    else
      match Test(filters[0], m, t, describe)
      case Err(e) => Err(if e.Serialization? then Runtime(e) else e)
      case Ok(keep) => if !keep then Ok(true) else ShouldBeIgnored(filters[1..], m, t, describe)
  }

  /** What a `FieldCollector` receives for one method: its name, return type and method. */
  datatype Field = Field(name: string, ret: JType, accessor: Method)

  function FieldOf(m: Method): (f: Field)
    ensures f.name == m.name && f.accessor == m
  {
    Field(m.name, m.ret, m)
  }

  /** `collectMethods` over the declared methods still to scan, in `getDeclaredMethods` order. */
  function Collect(filters: seq<Filter>, t: Iface, declared: seq<Method>, describe: Method -> string): (r: Result<seq<Field>>)
    ensures r.Ok? ==> forall f | f in r.value :: f.accessor in declared && f.name == f.accessor.name
    ensures r.Ok? ==> forall f | f in r.value :: ShouldBeIgnored(filters, f.accessor, t, describe) == Ok(false)
  {
    if |declared| == 0 then Ok([])
    else
      match ShouldBeIgnored(filters, declared[0], t, describe)
      case Err(e) => Err(e)
      case Ok(ignored) =>
        var rest := Collect(filters, t, declared[1..], describe);
        if rest.Err? then rest
        else if ignored then rest
        else Ok([FieldOf(declared[0])] + rest.value)
  }

  /** `collectMethods` for each scanned interface in turn. */
  function CollectAll(filters: seq<Filter>, types: seq<Iface>, describe: Method -> string): (r: Result<seq<Field>>)
    ensures r.Ok? ==> forall f | f in r.value :: exists i | 0 <= i < |types| :: f.accessor in types[i].declared
  {
    if |types| == 0 then Ok([])
    else
      match Collect(filters, types[0], types[0].declared, describe)
      case Err(e) => Err(e)
      case Ok(fs) =>
        var rest := CollectAll(filters, types[1..], describe);
        if rest.Err? then rest
        else
          assert forall f | f in rest.value :: exists i | 0 <= i < |types| :: f.accessor in types[i].declared by {
            forall f | f in rest.value ensures exists i | 0 <= i < |types| :: f.accessor in types[i].declared {
              var i :| 0 <= i < |types[1..]| && f.accessor in types[1..][i].declared;
              assert f.accessor in types[i + 1].declared;
            }
          }
          Ok(fs + rest.value)
  }

  /** The erased type a `FieldDiscoverer` is asked about. */
  datatype Target = InterfaceTarget(iface: Iface) | ClassTarget(name: string)

  datatype Discovered =
    | NotApplicable                                          // discover returned null
    | Discovered(fields: seq<Field>, factory: InstanceFactory)

  /** A built `InterfaceMethodDiscoverer`. */
  datatype Discoverer = Discoverer(filters: seq<Filter>, invokers: seq<Invoker>)

  /**
   * `discover(target, collector)`: nothing for a class; for an interface the fields of the
   * interface itself, then of each ancestor in `getInterfaces` order, and a factory for
   * the interface carrying this discoverer's invoker chain.
   */
  function Discover(d: Discoverer, target: Target, describe: Method -> string): (r: Result<Discovered>)
    ensures target.ClassTarget? ==> r == Ok(NotApplicable)
    ensures target.InterfaceTarget? && r.Ok? ==>
      r.value.Discovered? && r.value.factory == InstanceFactory(target.iface, d.invokers)
  {
    match target
    case ClassTarget(_) => Ok(NotApplicable)
    case InterfaceTarget(iface) =>
      match CollectAll(d.filters, Hierarchy(iface), describe)
      case Err(e) => Err(e)
      case Ok(fields) => Ok(Discovered(fields, InstanceFactory(iface, d.invokers)))
  }

  // ------------------------------------------------------------------ the builder

  /** `InterfaceMethodDiscoverer.Builder`: filters and invokers in insertion order. */
  datatype Builder = Builder(filters: seq<Filter>, invokers: seq<Invoker>)

  function NewBuilder(): (b: Builder)
    ensures b.filters == [] && b.invokers == []
  {
    Builder([], [])
  }

  /**
   * `filter(f)`: a method is kept exactly when the earlier filters keep it and `f` accepts
   * it; the invokers are untouched.
   */
  function AddFilter(b: Builder, f: Filter): (r: Builder)
    ensures forall m, t, describe ::
      ShouldBeIgnored(r.filters, m, t, describe) == Ok(false)
      <==> ShouldBeIgnored(b.filters, m, t, describe) == Ok(false) && Test(f, m, t, describe) == Ok(true)
    ensures r.invokers == b.invokers
  {
    var r := b.(filters := b.filters + [f]);
    assert r.filters[|b.filters|] == f;
    assert forall i | 0 <= i < |b.filters| :: r.filters[i] == b.filters[i];
    r
  }

  /**
   * `reverseFilter(f)`: a method is kept exactly when the earlier filters keep it and `f`
   * itself rejects it, without an error; the invokers are untouched.
   */
  function AddReverseFilter(b: Builder, f: Filter): (r: Builder)
    ensures forall m, t, describe ::
      ShouldBeIgnored(r.filters, m, t, describe) == Ok(false)
      <==> ShouldBeIgnored(b.filters, m, t, describe) == Ok(false) && Test(f, m, t, describe) == Ok(false)
    ensures r.invokers == b.invokers
  {
    var r := b.(filters := b.filters + [Reverse(f)]);
    assert r.filters[|b.filters|] == Reverse(f);
    assert forall i | 0 <= i < |b.filters| :: r.filters[i] == b.filters[i];
    r
  }

  /**
   * Running the chain `after` is running `before`, and only when no invoker of `before`
   * settled the call, asking `inv` on the heap `before` left.
   */
  ghost predicate ChainThen(before: seq<Invoker>, inv: Invoker, after: seq<Invoker>) {
    forall fuel: nat, env: Env, heap: Heap, self: nat, m: Method, args: seq<Value>
      | self in heap && |args| == |m.params| ::
      var r := RunChain(fuel, env, before, heap, self, m, args);
      RunChain(fuel, env, after, heap, self, m, args)
      == if Settles(r) then r else RunChain(fuel, env, [inv], r.heap, self, m, args)
  }

  /** `invoker(inv)`: `inv` is asked only after every earlier invoker declined; the filters are untouched. */
  function AddInvoker(b: Builder, inv: Invoker): (r: Builder)
    ensures ChainThen(b.invokers, inv, r.invokers)
    ensures r.filters == b.filters
  {
    var r := b.(invokers := b.invokers + [inv]);
    assert ChainThen(b.invokers, inv, r.invokers) by {
      forall fuel: nat, env: Env, heap: Heap, self: nat, m: Method, args: seq<Value>
        | self in heap && |args| == |m.params|
        ensures var c := RunChain(fuel, env, b.invokers, heap, self, m, args);
          RunChain(fuel, env, r.invokers, heap, self, m, args)
          == if Settles(c) then c else RunChain(fuel, env, [inv], c.heap, self, m, args)
      {
        ChainAppend(fuel, env, b.invokers, [inv], heap, self, m, args);
      }
    }
    r
  }

  /**
   * `invoker(A, inv)`: `inv` wrapped so that it answers only for methods carrying `A`,
   * asked only after every earlier invoker declined; the filters are untouched.
   */
  function AddAnnotatedInvoker(b: Builder, a: AnnotationKind, inv: Invoker): (r: Builder)
    ensures ChainThen(b.invokers, Annotated(a, inv), r.invokers)
    ensures r.filters == b.filters
  {
    AddInvoker(b, Annotated(a, inv))
  }

  function Build(b: Builder): Discoverer {
    Discoverer(b.filters, b.invokers)
  }

  /** `defaultBuilder()`. */
  function DefaultBuilder(): Builder {
    var b := AddReverseFilter(NewBuilder(), Synthetic);
    var b := AddReverseFilter(b, Static);
    var b := AddFilter(b, NotTransientDefault);
    var b := AddFilter(b, AccessorShape);
    var b := AddInvoker(b, Setter);
    var b := AddInvoker(b, ToStringInvoker);
    var b := AddInvoker(b, EqualsInvoker);
    AddInvoker(b, HashCodeInvoker)
  }

  const DEFAULT_FILTERS: seq<Filter> := [Reverse(Synthetic), Reverse(Static), NotTransientDefault, AccessorShape]
  const DEFAULT_INVOKERS: seq<Invoker> := [Setter, ToStringInvoker, EqualsInvoker, HashCodeInvoker]

  /** The default chain with both corrections of the findings applied. */
  const CORRECTED_INVOKERS: seq<Invoker> := [FluentSetter, ToStringInvoker, KeyedEqualsInvoker, HashCodeInvoker]

  /** `InterfaceMethodDiscoverer.INSTANCE`. */
  function DefaultDiscoverer(): (d: Discoverer)
    ensures d.filters == DEFAULT_FILTERS && d.invokers == DEFAULT_INVOKERS
  {
    Build(DefaultBuilder())
  }
}
