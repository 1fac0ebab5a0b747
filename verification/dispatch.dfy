/**
 * Calls on a synthesized instance (`ProxyInstanceFactory` and the invokers of
 * `MethodInvokers`, `ProxyMethodInvoker`).
 *
 * Every live instance sits in a heap: its proxy class (the interfaces it implements) and
 * its intermediate store. A call runs the ordered invoker chain; the first invoker that
 * returns a non-null value wins. An unclaimed call falls back to the default body, a
 * cached primitive zero, or the stored value.
 *
 * The synthesized `equals` and `hashCode` read field values through `Method.invoke`,
 * which re-enters dispatch. `fuel` bounds that re-entry. Running out of fuel raises
 * `StackExhausted`, the counterpart of the `StackOverflowError` unbounded re-entry would
 * raise.
 */
module ProxyInstances {
  import opened Wrappers
  import opened Java
  import opened Descriptors
  import opened Store
  import opened MethodInvokers

  /**
   * A synthesized instance: its proxy class's interfaces, its intermediate store, and the
   * invoker chain of the factory that completed it, which its invocation handler runs.
   */
  datatype Instance = Instance(interfaces: seq<Iface>, store: Store, invokers: seq<Invoker>)

  /** Live objects by identity. */
  type Heap = map<nat, Instance>

  /**
   * What lies outside the model: running a default method body on an instance
   * (`ProxyDefaultMethodInvoker`), `Types.defaultValue`, and `toString` / `hashCode` of
   * references stored as field values.
   */
  datatype Env = Env(
    runDefault: (Heap, nat, Method, seq<Value>) -> Result<Value>,
    zero: JType -> Value,
    show: nat -> string,
    refHash: nat -> int)

  /** What a custom invoker returns: its result (null to decline) and the store it leaves. */
  datatype Reply = Reply(result: Result<Value>, store: Store)

  /** A `ProxyMethodInvoker`: the built-in ones, `annotated(A)`, or user code. */
  datatype Invoker =
    | TransientDefault
    | Setter
    | ToStringInvoker
    | EqualsInvoker
    | HashCodeInvoker
    | Annotated(annotation: AnnotationKind, base: Invoker)
    | FluentSetter          // `Setter` accepting any implemented interface as return type
    | KeyedEqualsInvoker    // `EqualsInvoker` comparing keys and values in order
    | Custom(run: (nat, Method, seq<Value>, Store) -> Reply)

  function InvokerDepth(inv: Invoker): nat {
    if inv.Annotated? then 1 + InvokerDepth(inv.base) else 0
  }

  /** The result of a call together with the heap it leaves behind. */
  datatype Step = Step(result: Result<Value>, heap: Heap)

  datatype FieldsStep = FieldsStep(result: Result<seq<Value>>, heap: Heap)

  /** No object is created or destroyed, and none changes class or handler; only stores change. */
  ghost predicate SameObjects(h: Heap, h': Heap) {
    h'.Keys == h.Keys
    && forall id | id in h :: h'[id].interfaces == h[id].interfaces && h'[id].invokers == h[id].invokers
  }

  function WithStore(heap: Heap, id: nat, s: Store): (h: Heap)
    requires id in heap
    ensures SameObjects(heap, h)
    ensures h[id].store == s
    ensures forall o | o in heap && o != id :: h[o] == heap[o]
  {
    heap[id := heap[id].(store := s)]
  }

  /** `Object.toString()` and `Object.hashCode()`, which every proxy class declares. */
  const OBJECT_TO_STRING: Method :=
    Method("toString", "java.lang.Object", [], Class("java.lang.String"), false, false, false, [])
  const OBJECT_HASH_CODE: Method :=
    Method("hashCode", "java.lang.Object", [], Prim(PInt), false, false, false, [])
  const OBJECT_EQUALS: Method :=
    Method("equals", "java.lang.Object", [OBJECT], Prim(PBoolean), false, false, false, [])

  /** An instance method without parameters named `key`: what `getDeclaredMethod(key)` finds. */
  predicate IsAccessorFor(m: Method, key: string) {
    m.name == key && m.params == [] && !m.isStatic
  }

  /** Some interface of `ifaces` declares an accessor for `key`. */
  predicate DeclaresAccessor(ifaces: seq<Iface>, key: string) {
    exists t, m | t in ifaces && m in t.declared :: IsAccessorFor(m, key)
  }

  /** The first instance method without parameters named `key` in `ifaces`. */
  function FindAccessor(ifaces: seq<Iface>, key: string): (r: Option<Method>)
    ensures r.Some? ==> IsAccessorFor(r.value, key) && exists t | t in ifaces :: r.value in t.declared
    ensures r.Some? <==> DeclaresAccessor(ifaces, key)
  {
    if |ifaces| == 0 then None
    else
      match FindInstanceMethod(ifaces[0].declared, key)
      case Some(m) => Some(m)
      case None => FindAccessor(ifaces[1..], key)
  }

  function FindInstanceMethod(declared: seq<Method>, key: string): (r: Option<Method>)
    ensures r.Some? ==> IsAccessorFor(r.value, key) && r.value in declared
    ensures r.None? <==> forall m | m in declared :: !IsAccessorFor(m, key)
  {
    if |declared| == 0 then None
    else if declared[0].name == key && declared[0].params == [] && !declared[0].isStatic then Some(declared[0])
    else FindInstanceMethod(declared[1..], key)
  }

  /**
   * `proxy.getClass().getDeclaredMethod(key)`: a proxy class declares `Object`'s
   * `hashCode`, `equals` and `toString` first, then the instance methods of its
   * interfaces and their ancestors.
   */
  function ProxyAccessor(interfaces: seq<Iface>, key: string): (r: Option<Method>)
    ensures r.Some? ==> r.value.params == [] && r.value.name == key
    ensures key == "toString" ==> r == Some(OBJECT_TO_STRING)
    ensures key == "hashCode" ==> r == Some(OBJECT_HASH_CODE)
    ensures key != "toString" && key != "hashCode" ==> (r.Some? <==> DeclaresAccessor(Flatten(interfaces), key))
  {
    if key == "toString" then Some(OBJECT_TO_STRING)
    else if key == "hashCode" then Some(OBJECT_HASH_CODE)
    else FindAccessor(Flatten(interfaces), key)
  }

  function Flatten(interfaces: seq<Iface>): seq<Iface> {
    if |interfaces| == 0 then [] else Hierarchy(interfaces[0]) + Flatten(interfaces[1..])
  }

  /**
   * When the setter claims a call: one argument, and a return type that is `void` or
   * equal to the proxy's run-time class. No declared method can return a generated
   * proxy class, so in effect only `void` setters are claimed.
   */
  predicate SetterAccepts(interfaces: seq<Iface>, m: Method, args: seq<Value>) {
    |args| == 1 && (m.ret == ProxyClassOf(interfaces) || m.ret == Void)
  }

  /** The corrected rule: a return type the proxy is an instance of also qualifies. */
  predicate FluentSetterAccepts(interfaces: seq<Iface>, m: Method, args: seq<Value>) {
    |args| == 1
    && (m.ret == ProxyClassOf(interfaces) || m.ret == Void || (m.ret.Class? && m.ret.name in Names(Flatten(interfaces))))
  }

  /** Same run-time class: a proxy class is determined by its interface list. */
  predicate SameClass(heap: Heap, self: nat, other: Value)
    requires self in heap
  {
    other.Ref? && other.id in heap && ProxyClassOf(heap[other.id].interfaces) == ProxyClassOf(heap[self].interfaces)
  }

  /**
   * `invokeDefaultMethod(proxy, name, args, params)` as the contract invokers call it:
   * `None` when the fallback must be synthesized (a `NoSuchMethodException`), otherwise
   * the outcome of delegating.
   */
  function Styled(env: Env, heap: Heap, self: nat, name: string, args: seq<Value>, params: seq<JType>): Option<Result<Value>>
    requires self in heap
  {
    match ResolveStyled(heap[self].interfaces, name, params)
    case NoStyledMethod => None
    case NotDefault(message) => Some(Err(IllegalState(message)))
    case DefaultBody(target) =>
      var r := env.runDefault(heap, self, target, args);
      if r.Err? && r.error.NoSuchMethod? then None else Some(r)
  }

  /** The setter's write-back: `args[0]` under the method name, on `self` only. */
  ghost predicate StoredArgument(heap: Heap, r: Step, self: nat, m: Method, args: seq<Value>)
    requires self in heap && |args| == 1
  {
    && r.result == Ok(Ref(self))
    && r.heap.Keys == heap.Keys
    && Get(r.heap[self].store, m.name) == args[0]
    && (forall k | k != m.name :: Get(r.heap[self].store, k) == Get(heap[self].store, k))
    && (forall o | o in heap && o != self :: r.heap[o] == heap[o])
  }

  /**
   * One invoker's answer to a call; `Ok(Null)` declines. `transientDefaultInvoker` claims
   * only default `@Transient` methods and never writes; the setters claim what they accept
   * and store the argument; the `Object` method invokers claim only their own method;
   * `annotated(A)` declines without `A`; a custom invoker writes only its own store.
   */
  function Invoke(fuel: nat, env: Env, inv: Invoker, heap: Heap, self: nat, m: Method, args: seq<Value>): (r: Step)
    requires self in heap
    requires |args| == |m.params|
    ensures SameObjects(heap, r.heap)
    ensures inv.TransientDefault? ==> r.heap == heap && (r.result == Ok(Null) || (m.isDefault && HasAnnotation(m, TransientKind)))
    ensures inv.Setter? ==>
      (SetterAccepts(heap[self].interfaces, m, args) ==> StoredArgument(heap, r, self, m, args))
      && (!SetterAccepts(heap[self].interfaces, m, args) ==> r == Step(Ok(Null), heap))
    ensures inv.FluentSetter? ==>
      (FluentSetterAccepts(heap[self].interfaces, m, args) ==> StoredArgument(heap, r, self, m, args))
      && (!FluentSetterAccepts(heap[self].interfaces, m, args) ==> r == Step(Ok(Null), heap))
    ensures inv.ToStringInvoker? && MethodNotEquals(m, ContractName(ToStringContract), ContractParams(ToStringContract))
      ==> r == Step(Ok(Null), heap)
    ensures (inv.EqualsInvoker? || inv.KeyedEqualsInvoker?)
      && MethodNotEquals(m, ContractName(EqualsContract), ContractParams(EqualsContract))
      ==> r == Step(Ok(Null), heap)
    ensures inv.HashCodeInvoker? && MethodNotEquals(m, ContractName(HashCodeContract), ContractParams(HashCodeContract))
      ==> r == Step(Ok(Null), heap)
    ensures inv.Annotated? && !HasAnnotation(m, inv.annotation) ==> r == Step(Ok(Null), heap)
    ensures inv.Custom? ==> forall o | o in heap && o != self :: r.heap[o] == heap[o]
    decreases fuel, 3, InvokerDepth(inv)
  {
    match inv
    case TransientDefault =>
      if !m.isDefault || !HasAnnotation(m, TransientKind) then Step(Ok(Null), heap)
      else Step(env.runDefault(heap, self, m, args), heap)
    case Setter =>
      if !SetterAccepts(heap[self].interfaces, m, args) then Step(Ok(Null), heap)
      else Step(Ok(Ref(self)), WithStore(heap, self, Put(heap[self].store, m.name, args[0])))
    case FluentSetter =>
      if !FluentSetterAccepts(heap[self].interfaces, m, args) then Step(Ok(Null), heap)
      else Step(Ok(Ref(self)), WithStore(heap, self, Put(heap[self].store, m.name, args[0])))
    case ToStringInvoker => ContractCall(fuel, env, ToStringContract, false, heap, self, m, args)
    case EqualsInvoker => ContractCall(fuel, env, EqualsContract, false, heap, self, m, args)
    case KeyedEqualsInvoker => ContractCall(fuel, env, EqualsContract, true, heap, self, m, args)
    case HashCodeInvoker => ContractCall(fuel, env, HashCodeContract, false, heap, self, m, args)
    case Annotated(a, base) =>
      if !HasAnnotation(m, a) then Step(Ok(Null), heap)
      else Invoke(fuel, env, base, heap, self, m, args)
    case Custom(run) =>
      var reply := run(self, m, args, heap[self].store);
      Step(reply.result, WithStore(heap, self, reply.store))
  }

  /**
   * The `toString`, `equals` and `hashCode` invokers: each claims only its own `Object`
   * method, then delegates to the `@Style` method of the first interface, or synthesizes
   * the result when that method is not declared. `keyed` selects the corrected `equals`.
   */
  function ContractCall(fuel: nat, env: Env, c: Contract, keyed: bool, heap: Heap, self: nat, m: Method, args: seq<Value>): (r: Step)
    requires self in heap
    requires |args| == |m.params|
    ensures SameObjects(heap, r.heap)
    decreases fuel, 2, 1
  {
    if MethodNotEquals(m, ContractName(c), ContractParams(c)) then Step(Ok(Null), heap)
    else
      var ifaces := heap[self].interfaces;
      match Styled(env, heap, self, StyleName(ifaces, c), args, ContractParams(c))
      case Some(r) => Step(r, heap)
      case None => Synthesized(fuel, env, c, keyed, heap, self, args)
  }

  /** The result a contract invoker synthesizes when no styled method is declared. */
  function Synthesized(fuel: nat, env: Env, c: Contract, keyed: bool, heap: Heap, self: nat, args: seq<Value>): (r: Step)
    requires self in heap
    requires |args| == |ContractParams(c)|
    ensures SameObjects(heap, r.heap)
    ensures Settles(r)
    decreases fuel, 2, 0
  {
    match c
    case ToStringContract => Step(Ok(Str(ToStringFallback(env.show, heap[self].interfaces, heap[self].store))), heap)
    case EqualsContract => EqualsFallback(fuel, env, keyed, heap, self, args[0])
    case HashCodeContract => HashFallback(fuel, env, heap, self)
  }

  /**
   * The synthesized `equals`: identity, then the run-time class, then the values both
   * objects return for the receiver's keys (the other object's first). As written the two
   * value lists are compared by mutual containment; `keyed` selects the corrected
   * comparison, which also asks for the same keys and compares the values in key order.
   */
  function EqualsFallback(fuel: nat, env: Env, keyed: bool, heap: Heap, self: nat, other: Value): (r: Step)
    requires self in heap
    ensures SameObjects(heap, r.heap)
    ensures r.result.Ok? ==> r.result.value.Bool?
    ensures r.result.Err? ==> !IsReflective(r.result.error)
    decreases fuel, 1, 1
  {
    if other == Ref(self) then Step(Ok(Bool(true)), heap)
    else if !SameClass(heap, self, other) then Step(Ok(Bool(false)), heap)
    else
      var keys := Keys(heap[self].store);
      var a := Fields(fuel, env, heap, other.id, keys);
      if a.result.Err? then Step(Err(a.result.error), a.heap)
      else
        var b := Fields(fuel, env, a.heap, self, keys);
        if b.result.Err? then Step(Err(b.result.error), b.heap)
        else if keyed then Step(Ok(Bool(Keys(heap[other.id].store) == keys && a.result.value == b.result.value)), b.heap)
        else Step(Ok(Bool(SameFieldValues(a.result.value, b.result.value))), b.heap)
  }

  /** The synthesized `hashCode`: `Objects.hash` of the values for the receiver's keys. */
  function HashFallback(fuel: nat, env: Env, heap: Heap, self: nat): (r: Step)
    requires self in heap
    ensures SameObjects(heap, r.heap)
    ensures r.result.Ok? ==> r.result.value.Int? && IsInt32(r.result.value.i)
    ensures r.result.Err? ==> !IsReflective(r.result.error)
    decreases fuel, 1, 1
  {
    var f := Fields(fuel, env, heap, self, Keys(heap[self].store));
    if f.result.Err? then Step(Err(f.result.error), f.heap)
    else Step(Ok(Int(ObjectsHashOfList(env.refHash, f.result.value))), f.heap)
  }

  /**
   * `fields(obj, keys)`: each key's accessor invoked reflectively on `obj`, in key order,
   * which enters `obj`'s own handler and so runs `obj`'s own invoker chain. A missing
   * accessor or a failing call becomes a `RuntimeException`.
   */
  function Fields(fuel: nat, env: Env, heap: Heap, obj: nat, keys: seq<string>): (r: FieldsStep)
    requires obj in heap
    ensures SameObjects(heap, r.heap)
    ensures r.result.Ok? ==> |r.result.value| == |keys|
    ensures r.result.Err? ==> !IsReflective(r.result.error)
    decreases fuel, 0, |keys|
  {
    if |keys| == 0 then FieldsStep(Ok([]), heap)
    else
      match ProxyAccessor(heap[obj].interfaces, keys[0])
      case None => FieldsStep(Err(Runtime(NoSuchMethod(keys[0]))), heap)
      case Some(accessor) =>
        if fuel == 0 then FieldsStep(Err(StackExhausted), heap)
        else
          var s := Dispatch(fuel - 1, env, heap, obj, accessor, []);
          if s.result.Err? then FieldsStep(Err(Runtime(InvocationTarget(s.result.error))), s.heap)
          else
            var rest := Fields(fuel, env, s.heap, obj, keys[1..]);
            if rest.result.Err? then rest
            else FieldsStep(Ok([s.result.value] + rest.result.value), rest.heap)
  }

  /**
   * Whether an invoker's answer ends the chain: a non-null value, or an exception outside
   * the `ReflectiveOperationException` family (which propagates out of the call).
   */
  predicate Settles(s: Step) {
    match s.result
    case Ok(v) => v != Null
    case Err(e) => !IsReflective(e)
  }

  /**
   * `chooseInvocationResult` over the invokers still to consult, `todo`: each is asked in
   * order and the first answer that settles is the result; a declining answer (null, or a
   * `ReflectiveOperationException`) passes on to the next.
   */
  function RunChain(fuel: nat, env: Env, todo: seq<Invoker>, heap: Heap, self: nat, m: Method, args: seq<Value>): (r: Step)
    requires self in heap
    requires |args| == |m.params|
    ensures SameObjects(heap, r.heap)
    ensures Settles(r) || r.result == Ok(Null)
    decreases fuel, 4, |todo|
  {
    if |todo| == 0 then Step(Ok(Null), heap)
    else
      var s := Invoke(fuel, env, todo[0], heap, self, m, args);
      if Settles(s) then s
      else RunChain(fuel, env, todo[1..], s.heap, self, m, args)
  }

  /**
   * Running `a + b` is running `a`, and only when no invoker of `a` settled the call,
   * running `b` on the heap `a` left: an invoker after the first settling one is never
   * consulted.
   */
  lemma {:induction false} ChainAppend(fuel: nat, env: Env, a: seq<Invoker>, b: seq<Invoker>,
                                       heap: Heap, self: nat, m: Method, args: seq<Value>)
    requires self in heap
    requires |args| == |m.params|
    ensures var r := RunChain(fuel, env, a, heap, self, m, args);
      RunChain(fuel, env, a + b, heap, self, m, args)
      == if Settles(r) then r else RunChain(fuel, env, b, r.heap, self, m, args)
    decreases |a|
  {
    if |a| == 0 {
      assert a + b == b;
    } else {
      assert (a + b)[0] == a[0];
      assert (a + b)[1..] == a[1..] + b;
      var s := Invoke(fuel, env, a[0], heap, self, m, args);
      if !Settles(s) {
        ChainAppend(fuel, env, a[1..], b, s.heap, self, m, args);
      }
    }
  }

  /**
   * The invocation handler of a synthesized instance: it runs the instance's own invoker
   * chain. The store value is read before the chain runs and drives the fallbacks: the default body when it is null, then the
   * cached zero of a primitive return type, then the value itself.
   */
  function Dispatch(fuel: nat, env: Env, heap: Heap, self: nat, m: Method, args: seq<Value>): (r: Step)
    requires self in heap
    requires |args| == |m.params|
    ensures SameObjects(heap, r.heap)
    decreases fuel, 5, 0
  {
    var stored := Get(heap[self].store, m.name);
    var c := RunChain(fuel, env, heap[self].invokers, heap, self, m, args);
    if c.result.Err? || c.result.value != Null then c
    else if stored == Null && m.isDefault then Step(env.runDefault(c.heap, self, m, args), c.heap)
    else if stored == Null && IsPrimitive(m.ret) then
      var cached := ComputeIfAbsent(c.heap[self].store, m.name, env.zero(m.ret));
      Step(Ok(cached.0), WithStore(c.heap, self, cached.1))
    else Step(Ok(stored), c.heap)
  }

  // ------------------------------------------------------------------ the factory

  /** A `ProxyInstanceFactory`: the mapped interface and the shared invoker chain. */
  datatype InstanceFactory = InstanceFactory(target: Iface, invokers: seq<Invoker>)

  /** `begin()`: a fresh, empty intermediate store. */
  function Begin(f: InstanceFactory): (s: Store)
    ensures Valid(s) && Keys(s) == []
    ensures forall k :: Get(s, k) == Null
  {
    Empty()
  }

  /** `canCreateInstances()`. */
  function CanCreateInstances(f: InstanceFactory): bool {
    true
  }

  /**
   * `complete(store)`: a new object, `id`, whose proxy class implements exactly the
   * mapped interface and whose calls read and write `store`.
   */
  function Complete(f: InstanceFactory, heap: Heap, id: nat, s: Store): (r: (Value, Heap))
    requires id !in heap
    ensures r.0 == Ref(id)
    ensures r.1.Keys == heap.Keys + {id}
    ensures r.1[id].interfaces == [f.target] && r.1[id].store == s && r.1[id].invokers == f.invokers
    ensures forall o | o in heap :: r.1[o] == heap[o]
    ensures CanCreateInstances(f)
  {
    (Ref(id), heap[id := Instance([f.target], s, f.invokers)])
  }
}
