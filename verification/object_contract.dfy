/**
 * `toString`, `equals` and `hashCode` on a synthesized instance: when the call goes to a
 * `@Style` method of the first interface, when it fails, and what the synthesized
 * fallbacks compute from the stored values.
 */
module ObjectContract {
  import opened Wrappers
  import opened Java
  import opened Descriptors
  import opened Store
  import opened MethodInvokers
  import opened ProxyInstances
  import opened Discovery
  import opened DispatchLaws

  // ------------------------------------------------------------------ delegation

  /** The `Object` method each contract invoker claims, as the proxy passes it to the handler. */
  function ContractMethod(c: Contract): (m: Method)
    ensures m.name == ContractName(c) && m.params == ContractParams(c)
  {
    match c
    case ToStringContract => OBJECT_TO_STRING
    case EqualsContract => OBJECT_EQUALS
    case HashCodeContract => OBJECT_HASH_CODE
  }

  /** When the instance's own chain settles a call, the handler returns the chain's answer. */
  lemma DispatchSettled(fuel: nat, env: Env, heap: Heap, self: nat, m: Method, args: seq<Value>)
    requires self in heap
    requires |args| == |m.params|
    requires Settles(RunChain(fuel, env, heap[self].invokers, heap, self, m, args))
    ensures Dispatch(fuel, env, heap, self, m, args) == RunChain(fuel, env, heap[self].invokers, heap, self, m, args)
  {
  }

  /** An invoker whose answer settles the call is the last one consulted. */
  lemma SettledFirst(fuel: nat, env: Env, todo: seq<Invoker>, heap: Heap, self: nat, m: Method, args: seq<Value>)
    requires self in heap
    requires |args| == |m.params|
    requires |todo| > 0 && Settles(Invoke(fuel, env, todo[0], heap, self, m, args))
    ensures RunChain(fuel, env, todo, heap, self, m, args) == Invoke(fuel, env, todo[0], heap, self, m, args)
  {
  }

  /** The invokers before a contract's own invoker all pass its `Object` method on. */
  lemma ReachContract(fuel: nat, env: Env, corrected: bool, heap: Heap, self: nat, c: Contract, args: seq<Value>)
    requires self in heap
    requires |args| == |ContractParams(c)|
    ensures var chain := Standard(corrected);
      var m := ContractMethod(c);
      RunChain(fuel, env, chain, heap, self, m, args)
      == RunChain(fuel, env, chain[ContractIndex(c)..], heap, self, m, args)
  {
    var m := ContractMethod(c);
    SkipSetter(fuel, env, corrected, heap, self, m, args);
    if !c.ToStringContract? {
      SkipContract(fuel, env, corrected, ToStringContract, heap, self, m, args);
      if c.HashCodeContract? {
        SkipContract(fuel, env, corrected, EqualsContract, heap, self, m, args);
      }
    }
  }

  /** When the contract invoker's answer settles the call, the handler returns it. */
  lemma ContractReturned(fuel: nat, env: Env, corrected: bool, heap: Heap, self: nat, c: Contract, args: seq<Value>)
    requires self in heap && heap[self].invokers == Standard(corrected)
    requires |args| == |ContractParams(c)|
    requires Settles(ContractCall(fuel, env, c, Keyed(c, corrected), heap, self, ContractMethod(c), args))
    ensures Dispatch(fuel, env, heap, self, ContractMethod(c), args)
         == ContractCall(fuel, env, c, Keyed(c, corrected), heap, self, ContractMethod(c), args)
  {
    var chain := Standard(corrected);
    var m := ContractMethod(c);
    var i := ContractIndex(c);
    ReachContract(fuel, env, corrected, heap, self, c, args);
    ContractInvokerAt(fuel, env, corrected, c, heap, self, m, args);
    assert chain[i..][0] == chain[i];
    SettledFirst(fuel, env, chain[i..], heap, self, m, args);
    DispatchSettled(fuel, env, heap, self, m, args);
  }

  /**
   * How `invokeDefaultMethod` ends for a styled name: the fallback (`None`) exactly when
   * the first interface does not declare it or its default body is missing.
   */
  lemma StyledOutcome(env: Env, heap: Heap, self: nat, name: string, args: seq<Value>, params: seq<JType>)
    requires self in heap
    ensures var r := Styled(env, heap, self, name, args, params);
      match ResolveStyled(heap[self].interfaces, name, params)
      case NoStyledMethod => r.None?
      case NotDefault(message) => r == Some(Err(IllegalState(message)))
      case DefaultBody(target) =>
        var out := env.runDefault(heap, self, target, args);
        r == if out.Err? && out.error.NoSuchMethod? then None else Some(out)
  {
  }

  /**
   * `toString()`, `equals(o)` and `hashCode()` go to the `@Style` method of the first
   * interface when that interface itself declares it with a `default` body, fail with an
   * `IllegalStateException` when it declares it without one, and are synthesized when it
   * does not declare it (or its default body turns out to be missing).
   */
  lemma ContractDelegation(fuel: nat, env: Env, corrected: bool, heap: Heap, self: nat, c: Contract, args: seq<Value>)
    requires self in heap && heap[self].invokers == Standard(corrected)
    requires |args| == |ContractParams(c)|
    ensures var ifaces := heap[self].interfaces;
      var fallback := Synthesized(fuel, env, c, Keyed(c, corrected), heap, self, args);
      var r := Dispatch(fuel, env, heap, self, ContractMethod(c), args);
      match ResolveStyled(ifaces, StyleName(ifaces, c), ContractParams(c))
      case NoStyledMethod => r == fallback
      case NotDefault(message) => r == Step(Err(IllegalState(message)), heap)
      case DefaultBody(target) =>
        var out := env.runDefault(heap, self, target, args);
        && (out.Err? && out.error.NoSuchMethod? ==> r == fallback)
        && (Settles(Step(out, heap)) ==> r == Step(out, heap))
  {
    var ifaces := heap[self].interfaces;
    StyledOutcome(env, heap, self, StyleName(ifaces, c), args, ContractParams(c));
    var answer := ContractCall(fuel, env, c, Keyed(c, corrected), heap, self, ContractMethod(c), args);
    if Settles(answer) {
      ContractReturned(fuel, env, corrected, heap, self, c, args);
    }
  }

  /** Identity: `x.equals(x)` holds whenever `equals` is not styled. */
  lemma EqualsReflexive(fuel: nat, env: Env, corrected: bool, heap: Heap, self: nat)
    requires self in heap && heap[self].invokers == Standard(corrected)
    requires var ifaces := heap[self].interfaces;
      ResolveStyled(ifaces, StyleName(ifaces, EqualsContract), [OBJECT]).NoStyledMethod?
    ensures Dispatch(fuel, env, heap, self, OBJECT_EQUALS, [Ref(self)]) == Step(Ok(Bool(true)), heap)
  {
    ContractDelegation(fuel, env, corrected, heap, self, EqualsContract, [Ref(self)]);
  }

  /**
   * Null, a value of another type, or an instance of a different proxy class is never
   * equal to an instance, and the comparison reads no field.
   */
  lemma EqualsOtherClass(fuel: nat, env: Env, corrected: bool, heap: Heap, self: nat, other: Value)
    requires self in heap && heap[self].invokers == Standard(corrected)
    requires var ifaces := heap[self].interfaces;
      ResolveStyled(ifaces, StyleName(ifaces, EqualsContract), [OBJECT]).NoStyledMethod?
    requires other != Ref(self) && !SameClass(heap, self, other)
    ensures Dispatch(fuel, env, heap, self, OBJECT_EQUALS, [other]) == Step(Ok(Bool(false)), heap)
  {
    ContractDelegation(fuel, env, corrected, heap, self, EqualsContract, [other]);
  }

  // ------------------------------------------------------------------ reading fields

  /** The handler of `obj` runs one of the two standard chains, as written or corrected. */
  ghost predicate StandardChain(heap: Heap, obj: nat) {
    obj in heap && (heap[obj].invokers == DEFAULT_INVOKERS || heap[obj].invokers == CORRECTED_INVOKERS)
  }

  /** An accessor whose unclaimed call answers null when nothing is stored: no default body, no primitive zero. */
  predicate PlainAccessor(m: Method) {
    !m.isDefault && !IsPrimitive(m.ret)
  }

  /**
   * Key `k` of `obj` reads back its stored value, null included: `obj` runs a standard
   * chain, its proxy class declares an accessor for `k` that is not one of `Object`'s
   * methods, and either a value is stored or the accessor answers null for a missing one.
   */
  ghost predicate ReadsStored(heap: Heap, obj: nat, k: string) {
    StandardChain(heap, obj)
    && ProxyAccessor(heap[obj].interfaces, k).Some?
    && k != "toString" && k != "hashCode"
    && (Get(heap[obj].store, k) != Null || PlainAccessor(ProxyAccessor(heap[obj].interfaces, k).value))
  }

  ghost predicate StoreReadable(heap: Heap, obj: nat, keys: seq<string>) {
    forall i | 0 <= i < |keys| :: ReadsStored(heap, obj, keys[i])
  }

  /** The stored values for `keys`, in key order. */
  function StoredValues(s: Store, keys: seq<string>): (r: seq<Value>)
    ensures |r| == |keys|
    ensures forall i | 0 <= i < |keys| :: r[i] == Get(s, keys[i])
  {
    seq(|keys|, i requires 0 <= i < |keys| => Get(s, keys[i]))
  }

  lemma StoredValuesCons(s: Store, keys: seq<string>)
    requires |keys| > 0
    ensures StoredValues(s, keys) == [Get(s, keys[0])] + StoredValues(s, keys[1..])
  {
    var r := [Get(s, keys[0])] + StoredValues(s, keys[1..]);
    assert forall i | 0 <= i < |keys| :: r[i] == StoredValues(s, keys)[i] by {
      forall i | 0 <= i < |keys| ensures r[i] == StoredValues(s, keys)[i] {
        if i > 0 {
          assert r[i] == StoredValues(s, keys[1..])[i - 1];
        }
      }
    }
  }

  /** Calling the accessor of a readable key returns its stored value and changes nothing. */
  lemma ReadOne(fuel: nat, env: Env, heap: Heap, obj: nat, k: string)
    requires ReadsStored(heap, obj, k)
    ensures var accessor := ProxyAccessor(heap[obj].interfaces, k).value;
      Dispatch(fuel, env, heap, obj, accessor, []) == Step(Ok(Get(heap[obj].store, k)), heap)
  {
    var accessor := ProxyAccessor(heap[obj].interfaces, k).value;
    var corrected := heap[obj].invokers == CORRECTED_INVOKERS;
    UnclaimedCall(fuel, env, corrected, heap, obj, accessor, []);
  }

  /** Every key's accessor, called on `obj`, returns the stored value and changes nothing. */
  ghost predicate ReadsThrough(fuel: nat, env: Env, heap: Heap, obj: nat, keys: seq<string>) {
    forall i | 0 <= i < |keys| ::
      ReadsStored(heap, obj, keys[i])
      && Dispatch(fuel, env, heap, obj, ProxyAccessor(heap[obj].interfaces, keys[i]).value, [])
         == Step(Ok(Get(heap[obj].store, keys[i])), heap)
  }

  lemma StandardReadsThrough(fuel: nat, env: Env, heap: Heap, obj: nat, keys: seq<string>)
    requires StoreReadable(heap, obj, keys)
    ensures ReadsThrough(fuel, env, heap, obj, keys)
  {
    forall i | 0 <= i < |keys|
      ensures ReadsStored(heap, obj, keys[i])
      ensures Dispatch(fuel, env, heap, obj, ProxyAccessor(heap[obj].interfaces, keys[i]).value, [])
              == Step(Ok(Get(heap[obj].store, keys[i])), heap)
    {
      ReadOne(fuel, env, heap, obj, keys[i]);
    }
  }

  /** `fields` on a first key whose accessor reads its stored value: that value, then the rest. */
  lemma FieldsCons(fuel: nat, env: Env, heap: Heap, obj: nat, keys: seq<string>)
    requires fuel >= 1 && |keys| > 0
    requires ReadsStored(heap, obj, keys[0])
    requires Dispatch(fuel - 1, env, heap, obj, ProxyAccessor(heap[obj].interfaces, keys[0]).value, [])
             == Step(Ok(Get(heap[obj].store, keys[0])), heap)
    ensures var rest := Fields(fuel, env, heap, obj, keys[1..]);
      Fields(fuel, env, heap, obj, keys)
      == if rest.result.Err? then rest else FieldsStep(Ok([Get(heap[obj].store, keys[0])] + rest.result.value), rest.heap)
  {
  }

  /** `fields(obj, keys)` returns the stored values in key order and changes nothing. */
  lemma {:induction false} FieldsReadThrough(fuel: nat, env: Env, heap: Heap, obj: nat, keys: seq<string>)
    requires fuel >= 1 && obj in heap
    requires ReadsThrough(fuel - 1, env, heap, obj, keys)
    ensures Fields(fuel, env, heap, obj, keys) == FieldsStep(Ok(StoredValues(heap[obj].store, keys)), heap)
    decreases |keys|
  {
    if |keys| > 0 {
      var s := heap[obj].store;
      var rest := StoredValues(s, keys[1..]);
      assert Fields(fuel, env, heap, obj, keys[1..]) == FieldsStep(Ok(rest), heap) by {
        assert ReadsThrough(fuel - 1, env, heap, obj, keys[1..]) by {
          forall i | 0 <= i < |keys[1..]| ensures keys[1..][i] == keys[i + 1] { }
        }
        FieldsReadThrough(fuel, env, heap, obj, keys[1..]);
      }
      FieldsCons(fuel, env, heap, obj, keys);
      StoredValuesCons(s, keys);
    }
  }

  /** `fields` on a readable first key: its stored value, then the rest. */
  lemma FieldsFirstRead(fuel: nat, env: Env, heap: Heap, obj: nat, keys: seq<string>)
    requires fuel >= 1 && |keys| > 0
    requires ReadsStored(heap, obj, keys[0])
    ensures var rest := Fields(fuel, env, heap, obj, keys[1..]);
      Fields(fuel, env, heap, obj, keys)
      == if rest.result.Err? then rest else FieldsStep(Ok([Get(heap[obj].store, keys[0])] + rest.result.value), rest.heap)
  {
    var accessor := ProxyAccessor(heap[obj].interfaces, keys[0]).value;
    assert Dispatch(fuel - 1, env, heap, obj, accessor, []) == Step(Ok(Get(heap[obj].store, keys[0])), heap) by {
      ReadOne(fuel - 1, env, heap, obj, keys[0]);
    }
    FieldsCons(fuel, env, heap, obj, keys);
  }

  lemma ReadableTail(heap: Heap, obj: nat, keys: seq<string>, i: nat)
    requires 0 < i <= |keys|
    requires StoreReadable(heap, obj, keys[..i])
    ensures ReadsStored(heap, obj, keys[0])
    ensures StoreReadable(heap, obj, keys[1..][..i - 1])
  {
    assert keys[..i][0] == keys[0];
    assert keys[1..][..i - 1] == keys[..i][1..];
  }

  /**
   * `fields` fails at the first key no interface of the proxy class declares an accessor
   * for: `getDeclaredMethod` throws `NoSuchMethodException`, which comes out re-wrapped in a
   * `RuntimeException`, and the keys before it are read without changing anything.
   */
  lemma {:induction false} FieldsMissingAccessor(fuel: nat, env: Env, heap: Heap, obj: nat, keys: seq<string>, i: nat)
    requires fuel >= 1 && obj in heap && i < |keys|
    requires StoreReadable(heap, obj, keys[..i])
    requires keys[i] != "toString" && keys[i] != "hashCode"
    requires !DeclaresAccessor(Flatten(heap[obj].interfaces), keys[i])
    ensures Fields(fuel, env, heap, obj, keys) == FieldsStep(Err(Runtime(NoSuchMethod(keys[i]))), heap)
    decreases i
  {
    if i == 0 {
      assert ProxyAccessor(heap[obj].interfaces, keys[0]).None?;
    } else {
      var rest := keys[1..];
      ReadableTail(heap, obj, keys, i);
      assert rest[i - 1] == keys[i];
      assert Fields(fuel, env, heap, obj, rest) == FieldsStep(Err(Runtime(NoSuchMethod(keys[i]))), heap) by {
        FieldsMissingAccessor(fuel, env, heap, obj, rest, i - 1);
      }
      FieldsFirstRead(fuel, env, heap, obj, keys);
    }
  }

  /** `fields(obj, keys)` on readable keys returns their stored values, null included. */
  lemma {:induction false} FieldsReadStore(fuel: nat, env: Env, heap: Heap, obj: nat, keys: seq<string>)
    requires fuel >= 1 && obj in heap
    requires StoreReadable(heap, obj, keys)
    ensures Fields(fuel, env, heap, obj, keys) == FieldsStep(Ok(StoredValues(heap[obj].store, keys)), heap)
    decreases |keys|
  {
    if |keys| > 0 {
      var s := heap[obj].store;
      assert Fields(fuel, env, heap, obj, keys[1..]) == FieldsStep(Ok(StoredValues(s, keys[1..])), heap) by {
        assert StoreReadable(heap, obj, keys[1..]) by {
          forall i | 0 <= i < |keys[1..]| ensures keys[1..][i] == keys[i + 1] { }
        }
        FieldsReadStore(fuel, env, heap, obj, keys[1..]);
      }
      FieldsFirstRead(fuel, env, heap, obj, keys);
      StoredValuesCons(s, keys);
    }
  }

  /**
   * The synthesized `equals` on two distinct instances of one proxy class compares the
   * other's values with the receiver's, both read for the receiver's keys and each through
   * its own handler: as written by mutual containment, corrected (`keyed`) by keys and
   * then values in order.
   */
  lemma EqualsOfStores(fuel: nat, env: Env, keyed: bool, heap: Heap, self: nat, other: nat)
    requires fuel >= 1 && self in heap && other in heap && other != self
    requires SameClass(heap, self, Ref(other))
    requires StoreReadable(heap, other, Keys(heap[self].store)) && StoreReadable(heap, self, Keys(heap[self].store))
    ensures var keys := Keys(heap[self].store);
      var xs := StoredValues(heap[other].store, keys);
      var ys := StoredValues(heap[self].store, keys);
      EqualsFallback(fuel, env, keyed, heap, self, Ref(other))
      == Step(Ok(Bool(if keyed then Keys(heap[other].store) == keys && xs == ys else SameFieldValues(xs, ys))), heap)
  {
    var keys := Keys(heap[self].store);
    FieldsReadStore(fuel, env, heap, other, keys);
    FieldsReadStore(fuel, env, heap, self, keys);
  }

  /** The synthesized `hashCode` is `Objects.hash` of the stored values in key order, nulls included. */
  lemma HashOfStore(fuel: nat, env: Env, heap: Heap, self: nat)
    requires fuel >= 1 && self in heap
    requires StoreReadable(heap, self, Keys(heap[self].store))
    ensures var s := heap[self].store;
      HashFallback(fuel, env, heap, self)
      == Step(Ok(Int(ObjectsHashOfList(env.refHash, StoredValues(s, Keys(s))))), heap)
  {
    FieldsReadStore(fuel, env, heap, self, Keys(heap[self].store));
  }

  /** Neither `equals` nor `hashCode` is styled on the first interface. */
  predicate Unstyled(ifaces: seq<Iface>) {
    ResolveStyled(ifaces, StyleName(ifaces, EqualsContract), [OBJECT]).NoStyledMethod?
    && ResolveStyled(ifaces, StyleName(ifaces, HashCodeContract), []).NoStyledMethod?
  }

  /** With the corrected comparison, a distinct instance that `x` reports equal holds the same keys. */
  lemma KeyedEqualsMeansSameKeys(fuel: nat, env: Env, heap: Heap, x: nat, y: nat)
    requires x in heap && y in heap && x != y
    requires heap[x].invokers == CORRECTED_INVOKERS
    requires Unstyled(heap[x].interfaces)
    requires Dispatch(fuel, env, heap, x, OBJECT_EQUALS, [Ref(y)]).result == Ok(Bool(true))
    ensures Keys(heap[y].store) == Keys(heap[x].store)
  {
    ContractDelegation(fuel, env, true, heap, x, EqualsContract, [Ref(y)]);
  }

  /**
   * With the corrected comparison, a distinct instance that `x` reports equal holds the
   * same keys, in the same order, with the same values, nulls included.
   */
  lemma KeyedEqualsMeansSameStore(fuel: nat, env: Env, heap: Heap, x: nat, y: nat)
    requires fuel >= 1 && x in heap && y in heap && x != y
    requires heap[x].invokers == CORRECTED_INVOKERS
    requires StoreReadable(heap, x, Keys(heap[x].store)) && StoreReadable(heap, y, Keys(heap[x].store))
    requires Unstyled(heap[x].interfaces)
    requires Dispatch(fuel, env, heap, x, OBJECT_EQUALS, [Ref(y)]).result == Ok(Bool(true))
    ensures var keys := Keys(heap[x].store);
      Keys(heap[y].store) == keys && StoredValues(heap[y].store, keys) == StoredValues(heap[x].store, keys)
  {
    ContractDelegation(fuel, env, true, heap, x, EqualsContract, [Ref(y)]);
    if !SameClass(heap, x, Ref(y)) {
      assert false;
    }
    EqualsOfStores(fuel, env, true, heap, x, y);
  }

  /** The synthesized `hashCode` of an unstyled instance that runs a standard chain. */
  lemma HashDispatch(fuel: nat, env: Env, heap: Heap, x: nat)
    requires fuel >= 1 && StandardChain(heap, x)
    requires StoreReadable(heap, x, Keys(heap[x].store))
    requires Unstyled(heap[x].interfaces)
    ensures var s := heap[x].store;
      Dispatch(fuel, env, heap, x, OBJECT_HASH_CODE, []).result
      == Ok(Int(ObjectsHashOfList(env.refHash, StoredValues(s, Keys(s)))))
  {
    ContractDelegation(fuel, env, heap[x].invokers == CORRECTED_INVOKERS, heap, x, HashCodeContract, []);
    HashOfStore(fuel, env, heap, x);
  }

  /**
   * With the corrected comparison, instances that are equal have equal hash codes, the
   * property `Object.hashCode` requires; the other instance may run either standard chain.
   */
  lemma KeyedEqualsAgreesWithHash(fuel: nat, env: Env, heap: Heap, x: nat, y: nat)
    requires fuel >= 1 && x in heap && StandardChain(heap, y)
    requires heap[x].invokers == CORRECTED_INVOKERS
    requires StoreReadable(heap, x, Keys(heap[x].store)) && StoreReadable(heap, y, Keys(heap[y].store))
    requires Unstyled(heap[x].interfaces) && Unstyled(heap[y].interfaces)
    requires Dispatch(fuel, env, heap, x, OBJECT_EQUALS, [Ref(y)]).result == Ok(Bool(true))
    ensures Dispatch(fuel, env, heap, x, OBJECT_HASH_CODE, []).result
         == Dispatch(fuel, env, heap, y, OBJECT_HASH_CODE, []).result
  {
    if x != y {
      KeyedEqualsMeansSameKeys(fuel, env, heap, x, y);
      KeyedEqualsMeansSameStore(fuel, env, heap, x, y);
      HashDispatch(fuel, env, heap, x);
      HashDispatch(fuel, env, heap, y);
    }
  }
}
