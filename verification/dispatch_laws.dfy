/**
 * What a call on a synthesized instance does, stated against the store rather than
 * against the handler's code: the chain's first-answer rule, getters reading the store,
 * setters writing it, cached primitive zeros, and the synthesized `Object` contract.
 */
module DispatchLaws {
  import opened Wrappers
  import opened Java
  import opened Descriptors
  import opened Store
  import opened MethodInvokers
  import opened ProxyInstances
  import opened Discovery

  // ------------------------------------------------------------------ the chain

  /**
   * An invoker that throws a `ReflectiveOperationException` is passed over like one that
   * returns null: the chain goes on with the next invoker, on the store the failing
   * invoker left.
   */
  lemma ReflectiveFailureDeclines(fuel: nat, env: Env, rest: seq<Invoker>, heap: Heap, self: nat,
                                  m: Method, args: seq<Value>, e: Error, left: Store)
    requires self in heap
    requires |args| == |m.params|
    requires IsReflective(e)
    ensures var failing := Custom((_, _, _, _) => Reply(Err(e), left));
      RunChain(fuel, env, [failing] + rest, heap, self, m, args)
      == RunChain(fuel, env, rest, WithStore(heap, self, left), self, m, args)
  {
    var failing := Custom((_, _, _, _) => Reply(Err(e), left));
    assert ([failing] + rest)[1..] == rest;
  }

  /**
   * `annotated(A)`: without `A` on the method the wrapper is skipped and the store is
   * untouched; with `A` the call goes exactly as if the base invoker stood in its place.
   */
  lemma AnnotatedInChain(fuel: nat, env: Env, a: AnnotationKind, base: Invoker, rest: seq<Invoker>,
                         heap: Heap, self: nat, m: Method, args: seq<Value>)
    requires self in heap
    requires |args| == |m.params|
    ensures !HasAnnotation(m, a) ==>
      RunChain(fuel, env, [Annotated(a, base)] + rest, heap, self, m, args)
      == RunChain(fuel, env, rest, heap, self, m, args)
    ensures HasAnnotation(m, a) ==>
      RunChain(fuel, env, [Annotated(a, base)] + rest, heap, self, m, args)
      == RunChain(fuel, env, [base] + rest, heap, self, m, args)
  {
    assert ([Annotated(a, base)] + rest)[1..] == rest;
    assert ([base] + rest)[1..] == rest;
  }

  /**
   * `annotatedInvoker(A, inv)` on the builder: the extended chain answers as before when
   * the old chain settled the call or the method lacks `A`; otherwise `inv` gets the call
   * on the store the old chain left, and a reflective failure of it still declines.
   */
  lemma AnnotatedInvokerAdded(fuel: nat, env: Env, b: Builder, a: AnnotationKind, inv: Invoker,
                              heap: Heap, self: nat, m: Method, args: seq<Value>)
    requires self in heap
    requires |args| == |m.params|
    ensures var before := RunChain(fuel, env, b.invokers, heap, self, m, args);
      var after := RunChain(fuel, env, AddAnnotatedInvoker(b, a, inv).invokers, heap, self, m, args);
      && (Settles(before) || !HasAnnotation(m, a) ==> after == before)
      && (!Settles(before) && HasAnnotation(m, a) ==>
            var s := Invoke(fuel, env, inv, before.heap, self, m, args);
            after == Step(if Settles(s) then s.result else Ok(Null), s.heap))
  {
    var before := RunChain(fuel, env, b.invokers, heap, self, m, args);
    ChainAppend(fuel, env, b.invokers, [Annotated(a, inv)], heap, self, m, args);
    AnnotatedInChain(fuel, env, a, inv, [], before.heap, self, m, args);
    assert [Annotated(a, inv)] + [] == [Annotated(a, inv)];
    assert [inv] + [] == [inv];
  }

  /** An invoker that declines without touching the store hands the call to the next one. */
  lemma ChainSkip(fuel: nat, env: Env, todo: seq<Invoker>, heap: Heap, self: nat, m: Method, args: seq<Value>)
    requires self in heap
    requires |args| == |m.params|
    requires |todo| > 0
    requires Invoke(fuel, env, todo[0], heap, self, m, args) == Step(Ok(Null), heap)
    ensures RunChain(fuel, env, todo, heap, self, m, args) == RunChain(fuel, env, todo[1..], heap, self, m, args)
  {
  }

  /**
   * `transientDefaultInvoker` at the head of a chain: a method that is not both default
   * and `@Transient` passes it by; one that is has its body run, and a non-null result or
   * a non-reflective exception of the body ends the call without touching the store.
   */
  lemma TransientDefaultInChain(fuel: nat, env: Env, rest: seq<Invoker>,
                                heap: Heap, self: nat, m: Method, args: seq<Value>)
    requires self in heap
    requires |args| == |m.params|
    ensures !(m.isDefault && HasAnnotation(m, TransientKind)) ==>
      RunChain(fuel, env, [TransientDefault] + rest, heap, self, m, args)
      == RunChain(fuel, env, rest, heap, self, m, args)
    ensures m.isDefault && HasAnnotation(m, TransientKind) && Settles(Step(env.runDefault(heap, self, m, args), heap)) ==>
      RunChain(fuel, env, [TransientDefault] + rest, heap, self, m, args)
      == Step(env.runDefault(heap, self, m, args), heap)
  {
    assert ([TransientDefault] + rest)[1..] == rest;
  }

  // ------------------------------------------------------------------ the default chain

  /** The default chain, or the default chain with the findings corrected. */
  function Standard(corrected: bool): seq<Invoker> {
    if corrected then CORRECTED_INVOKERS else DEFAULT_INVOKERS
  }

  /** The position of a contract's invoker in a standard chain. */
  function ContractIndex(c: Contract): (i: nat)
    ensures 1 <= i <= 3
  {
    match c
    case ToStringContract => 1
    case EqualsContract => 2
    case HashCodeContract => 3
  }

  /** Whether a standard chain's invoker for `c` uses the corrected comparison. */
  function Keyed(c: Contract, corrected: bool): bool {
    corrected && c.EqualsContract?
  }

  /** Whether the setter at the head of a standard chain claims a call. */
  predicate SetterClaims(corrected: bool, interfaces: seq<Iface>, m: Method, args: seq<Value>) {
    if corrected then FluentSetterAccepts(interfaces, m, args) else SetterAccepts(interfaces, m, args)
  }

  /** The invoker at a contract's position in a standard chain answers with `ContractCall`. */
  lemma ContractInvokerAt(fuel: nat, env: Env, corrected: bool, c: Contract, heap: Heap, self: nat, m: Method, args: seq<Value>)
    requires self in heap
    requires |args| == |m.params|
    ensures var chain := Standard(corrected);
      Invoke(fuel, env, chain[ContractIndex(c)], heap, self, m, args)
      == ContractCall(fuel, env, c, Keyed(c, corrected), heap, self, m, args)
  {
    var chain := Standard(corrected);
    match c
    case ToStringContract => assert chain[1] == ToStringInvoker;
    case EqualsContract =>
      if corrected {
        assert chain[2] == KeyedEqualsInvoker;
      } else {
        assert chain[2] == EqualsInvoker;
      }
    case HashCodeContract => assert chain[3] == HashCodeInvoker;
  }

  /** A call the setter does not claim passes on to the `toString` invoker. */
  lemma SkipSetter(fuel: nat, env: Env, corrected: bool, heap: Heap, self: nat, m: Method, args: seq<Value>)
    requires self in heap
    requires |args| == |m.params|
    requires !SetterClaims(corrected, heap[self].interfaces, m, args)
    ensures var chain := Standard(corrected);
      RunChain(fuel, env, chain, heap, self, m, args) == RunChain(fuel, env, chain[1..], heap, self, m, args)
  {
    var chain := Standard(corrected);
    if corrected {
      assert chain[0] == FluentSetter;
    } else {
      assert chain[0] == Setter;
    }
    ChainSkip(fuel, env, chain, heap, self, m, args);
  }

  /** A call that is not a contract's `Object` method passes that contract's invoker by. */
  lemma SkipContract(fuel: nat, env: Env, corrected: bool, c: Contract, heap: Heap, self: nat, m: Method, args: seq<Value>)
    requires self in heap
    requires |args| == |m.params|
    requires MethodNotEquals(m, ContractName(c), ContractParams(c))
    ensures var chain := Standard(corrected);
      var i := ContractIndex(c);
      RunChain(fuel, env, chain[i..], heap, self, m, args) == RunChain(fuel, env, chain[i + 1..], heap, self, m, args)
  {
    var chain := Standard(corrected);
    var i := ContractIndex(c);
    ContractInvokerAt(fuel, env, corrected, c, heap, self, m, args);
    assert chain[i..][0] == chain[i];
    ChainSkip(fuel, env, chain[i..], heap, self, m, args);
    assert chain[i..][1..] == chain[i + 1..];
  }

  /** A call none of the four invokers of a standard chain claims. */
  predicate ChainIgnores(corrected: bool, interfaces: seq<Iface>, m: Method, args: seq<Value>) {
    && !SetterClaims(corrected, interfaces, m, args)
    && MethodNotEquals(m, "toString", [])
    && MethodNotEquals(m, "equals", [OBJECT])
    && MethodNotEquals(m, "hashCode", [])
  }

  /** A call no invoker of a standard chain claims comes back null, with the heap unchanged. */
  lemma ChainDeclines(fuel: nat, env: Env, corrected: bool, heap: Heap, self: nat, m: Method, args: seq<Value>)
    requires self in heap
    requires |args| == |m.params|
    requires ChainIgnores(corrected, heap[self].interfaces, m, args)
    ensures var chain := Standard(corrected);
      RunChain(fuel, env, chain, heap, self, m, args) == Step(Ok(Null), heap)
  {
    var chain := Standard(corrected);
    SkipSetter(fuel, env, corrected, heap, self, m, args);
    SkipContract(fuel, env, corrected, ToStringContract, heap, self, m, args);
    SkipContract(fuel, env, corrected, EqualsContract, heap, self, m, args);
    SkipContract(fuel, env, corrected, HashCodeContract, heap, self, m, args);
    assert chain[4..] == [];
  }

  /**
   * A call no standard invoker claims is answered from the value stored under the
   * method's name before the chain ran: that value when it is non-null, otherwise the
   * default body, otherwise the cached zero of a primitive return type, otherwise null.
   */
  lemma UnclaimedCall(fuel: nat, env: Env, corrected: bool, heap: Heap, self: nat, m: Method, args: seq<Value>)
    requires self in heap
    requires |args| == |m.params|
    requires heap[self].invokers == Standard(corrected)
    requires ChainIgnores(corrected, heap[self].interfaces, m, args)
    ensures var stored := Get(heap[self].store, m.name);
      var r := Dispatch(fuel, env, heap, self, m, args);
      && (stored != Null ==> r == Step(Ok(stored), heap))
      && (stored == Null && m.isDefault ==> r == Step(env.runDefault(heap, self, m, args), heap))
      && (stored == Null && !m.isDefault && !IsPrimitive(m.ret) ==> r == Step(Ok(Null), heap))
      && (stored == Null && !m.isDefault && IsPrimitive(m.ret) ==>
            && r.result == Ok(env.zero(m.ret))
            && r.heap == if env.zero(m.ret) == Null then heap
                         else WithStore(heap, self, Put(heap[self].store, m.name, env.zero(m.ret))))
  {
    ChainDeclines(fuel, env, corrected, heap, self, m, args);
  }

  /** A getter: an instance method without parameters that is not `toString` or `hashCode`. */
  predicate PlainGetter(m: Method) {
    m.params == [] && m.name != "toString" && m.name != "hashCode"
  }

  /**
   * Reading an absent primitive property stores the type's zero value; reading it again
   * returns the cached value and changes nothing.
   */
  lemma PrimitiveZeroCached(fuel: nat, env: Env, heap: Heap, self: nat, m: Method)
    requires self in heap
    requires heap[self].invokers == DEFAULT_INVOKERS
    requires PlainGetter(m) && !m.isDefault && IsPrimitive(m.ret)
    requires Get(heap[self].store, m.name) == Null
    requires env.zero(m.ret) != Null
    ensures var first := Dispatch(fuel, env, heap, self, m, []);
      && first.result == Ok(env.zero(m.ret))
      && self in first.heap
      && Get(first.heap[self].store, m.name) == env.zero(m.ret)
      && Dispatch(fuel, env, first.heap, self, m, []) == Step(Ok(env.zero(m.ret)), first.heap)
  {
    UnclaimedCall(fuel, env, false, heap, self, m, []);
    var first := Dispatch(fuel, env, heap, self, m, []);
    assert first.heap[self].interfaces == heap[self].interfaces && first.heap[self].invokers == DEFAULT_INVOKERS;
    UnclaimedCall(fuel, env, false, first.heap, self, m, []);
  }

  /**
   * A call the setter of a standard chain claims stores its argument, even null, under the
   * method's name and returns the proxy; no later invoker is consulted.
   */
  lemma ClaimedSetterStores(fuel: nat, env: Env, corrected: bool, heap: Heap, self: nat, m: Method, args: seq<Value>)
    requires self in heap
    requires |args| == |m.params|
    requires heap[self].invokers == Standard(corrected)
    requires SetterClaims(corrected, heap[self].interfaces, m, args)
    ensures Dispatch(fuel, env, heap, self, m, args)
      == Step(Ok(Ref(self)), WithStore(heap, self, Put(heap[self].store, m.name, args[0])))
  {
    var c := Standard(corrected);
    var expected := Step(Ok(Ref(self)), WithStore(heap, self, Put(heap[self].store, m.name, args[0])));
    if corrected {
      assert c[0] == FluentSetter;
    } else {
      assert c[0] == Setter;
    }
    assert Invoke(fuel, env, c[0], heap, self, m, args) == expected;
    assert RunChain(fuel, env, c, heap, self, m, args) == expected;
  }

  /** A `void` setter stores its argument, even null, under its name and returns the proxy. */
  lemma VoidSetterStores(fuel: nat, env: Env, heap: Heap, self: nat, m: Method, v: Value)
    requires self in heap
    requires heap[self].invokers == DEFAULT_INVOKERS
    requires |m.params| == 1 && m.ret == Void
    ensures Dispatch(fuel, env, heap, self, m, [v])
      == Step(Ok(Ref(self)), WithStore(heap, self, Put(heap[self].store, m.name, v)))
  {
    ClaimedSetterStores(fuel, env, false, heap, self, m, [v]);
  }

  /**
   * Setting then getting: after `name(v)` with a non-null `v`, the getter `name()` returns
   * `v`, and every other getter returns what it returned before the setter ran.
   */
  lemma SetThenGet(fuel: nat, env: Env, heap: Heap, self: nat, setter: Method, getter: Method, other: Method, v: Value)
    requires self in heap
    requires heap[self].invokers == DEFAULT_INVOKERS
    requires |setter.params| == 1 && setter.ret == Void
    requires PlainGetter(getter) && getter.name == setter.name
    requires PlainGetter(other) && other.name != setter.name && !other.isDefault
    requires v != Null
    ensures var h := Dispatch(fuel, env, heap, self, setter, [v]).heap;
      && self in h
      && Dispatch(fuel, env, h, self, getter, []).result == Ok(v)
      && Dispatch(fuel, env, h, self, other, []).result
         == Dispatch(fuel, env, heap, self, other, []).result
  {
    VoidSetterStores(fuel, env, heap, self, setter, v);
    var h := WithStore(heap, self, Put(heap[self].store, setter.name, v));
    assert h[self].interfaces == heap[self].interfaces && h[self].invokers == DEFAULT_INVOKERS;
    assert Get(h[self].store, getter.name) == v;
    assert Get(h[self].store, other.name) == Get(heap[self].store, other.name);
    UnclaimedCall(fuel, env, false, h, self, getter, []);
    UnclaimedCall(fuel, env, false, h, self, other, []);
    UnclaimedCall(fuel, env, false, heap, self, other, []);
  }
}
