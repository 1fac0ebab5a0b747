/**
 * Two places where the built-in invokers disagree with what the rest of the core
 * evidently intends, each shown on the chain as written and proved away on the
 * corrected chain.
 *
 * 1. Discovery skips every one-parameter method returning the scanned interface as a
 *    setter, but the setter invoker only claims methods returning `void` or the
 *    generated proxy class, which no declared method can name. A fluent setter is
 *    therefore never stored: the handler answers with whatever was stored before, which
 *    the proxy's cast to the declared return type rejects with `ClassCastException`
 *    unless it is null.
 * 2. The synthesized `equals` compares the two value lists by mutual containment, but the
 *    synthesized `hashCode` hashes the list in order, so two equal instances can have
 *    different hash codes.
 */
module Findings {
  import opened Wrappers
  import opened Java
  import opened Descriptors
  import opened Store
  import opened MethodInvokers
  import opened ProxyInstances
  import opened Discovery
  import opened DispatchLaws
  import opened ObjectContract

  // ------------------------------------------------------------------ fluent setters

  /** A one-parameter method returning the interface it is declared in: `Person name(String)`. */
  predicate FluentShape(target: Iface, m: Method) {
    |m.params| == 1 && m.ret == Class(target.name) && !m.isDefault
    && m.name != "toString" && m.name != "equals" && m.name != "hashCode"
  }

  /**
   * As written: discovery skips a fluent setter without error, yet calling it stores
   * nothing; the handler answers with the value stored before, and the heap is unchanged.
   */
  lemma FluentSetterIgnored(fuel: nat, env: Env, heap: Heap, self: nat, target: Iface, m: Method, v: Value,
                            describe: Method -> string)
    requires self in heap && heap[self].interfaces == [target] && heap[self].invokers == DEFAULT_INVOKERS
    requires FluentShape(target, m)
    ensures Test(AccessorShape, m, target, describe) == Ok(false)
    ensures Dispatch(fuel, env, heap, self, m, [v]) == Step(Ok(Get(heap[self].store, m.name)), heap)
  {
    assert !SetterAccepts(heap[self].interfaces, m, [v]);
    UnclaimedCall(fuel, env, false, heap, self, m, [v]);
  }

  /** The interface a method is declared in, as a `Person` with a `name` property. */
  const PERSON_NAME: Method := Method("name", "Person", [], Class("java.lang.String"), false, false, false, [])
  const PERSON_SET_NAME: Method := Method("name", "Person", [Class("java.lang.String")], Class("Person"), false, false, false, [])
  const PERSON: Iface := Iface("Person", [PERSON_NAME, PERSON_SET_NAME], [], None)

  /**
   * As written, on an instance holding `name = "old"`: the handler of `person.name("new")`
   * leaves the store as it was and answers "old", a `String` that the proxy's cast to
   * `Person` rejects with `ClassCastException`; `person.name()` still returns "old".
   */
  lemma FluentSetterExample(fuel: nat, env: Env, describe: Method -> string)
    ensures var heap := map[0 := Instance([PERSON], [Entry("name", Str("old"))], DEFAULT_INVOKERS)];
      var written := Dispatch(fuel, env, heap, 0, PERSON_SET_NAME, [Str("new")]);
      && Test(AccessorShape, PERSON_SET_NAME, PERSON, describe) == Ok(false)
      && written == Step(Ok(Str("old")), heap)
      && Dispatch(fuel, env, written.heap, 0, PERSON_NAME, []).result == Ok(Str("old"))
  {
    var heap := map[0 := Instance([PERSON], [Entry("name", Str("old"))], DEFAULT_INVOKERS)];
    assert Get(heap[0].store, "name") == Str("old");
    FluentSetterIgnored(fuel, env, heap, 0, PERSON, PERSON_SET_NAME, Str("new"), describe);
    UnclaimedCall(fuel, env, false, heap, 0, PERSON_NAME, []);
  }

  lemma FlattenSingle(target: Iface)
    ensures Flatten([target]) == Hierarchy(target)
  {
    assert [target][1..] == [];
  }

  /**
   * Corrected: every call discovery skips as a setter while scanning any interface of the
   * instance's hierarchy is claimed by the corrected setter.
   */
  lemma SkippedSettersAreClaimed(target: Iface, t: Iface, m: Method, args: seq<Value>, describe: Method -> string)
    requires t in Hierarchy(target)
    requires |args| == |m.params|
    requires Test(AccessorShape, m, t, describe) == Ok(false)
    ensures FluentSetterAccepts([target], m, args)
  {
    FlattenSingle(target);
    var k :| 0 <= k < |Hierarchy(target)| && Hierarchy(target)[k] == t;
    assert Names(Flatten([target]))[k] == t.name;
  }

  /**
   * Corrected: a fluent setter stores its argument under its name and returns the proxy,
   * exactly as a `void` setter does.
   */
  lemma FluentSetterStores(fuel: nat, env: Env, heap: Heap, self: nat, target: Iface, m: Method, v: Value)
    requires self in heap && heap[self].interfaces == [target] && heap[self].invokers == CORRECTED_INVOKERS
    requires FluentShape(target, m)
    ensures Dispatch(fuel, env, heap, self, m, [v])
         == Step(Ok(Ref(self)), WithStore(heap, self, Put(heap[self].store, m.name, v)))
  {
    FluentSetterClaimed(target, m, v);
    ClaimedSetterStores(fuel, env, true, heap, self, m, [v]);
  }

  lemma FluentSetterClaimed(target: Iface, m: Method, v: Value)
    requires FluentShape(target, m)
    ensures FluentSetterAccepts([target], m, [v])
  {
    FlattenSingle(target);
    assert Names(Flatten([target]))[0] == target.name;
  }

  // ------------------------------------------------------------------ equals and hashCode

  const PAIR_A: Method := Method("a", "Pair", [], Class("java.lang.Integer"), false, false, false, [])
  const PAIR_B: Method := Method("b", "Pair", [], Class("java.lang.Integer"), false, false, false, [])
  const PAIR: Iface := Iface("Pair", [PAIR_A, PAIR_B], [], None)

  /**
   * Two `Pair` instances completed by one factory: object 0 holds a = 1, b = 2 and
   * object 1 holds a = 2, b = 1.
   */
  function SwappedPairs(invokers: seq<Invoker>): (heap: Heap)
    ensures 0 in heap && 1 in heap
    ensures heap[0].invokers == invokers && heap[1].invokers == invokers
  {
    map[0 := Instance([PAIR], [Entry("a", Int(1)), Entry("b", Int(2))], invokers),
        1 := Instance([PAIR], [Entry("a", Int(2)), Entry("b", Int(1))], invokers)]
  }

  lemma PairAccessors()
    ensures ProxyAccessor([PAIR], "a") == Some(PAIR_A)
    ensures ProxyAccessor([PAIR], "b") == Some(PAIR_B)
  {
    assert Flatten([PAIR]) == [PAIR] by {
      FlattenSingle(PAIR);
      assert Ancestors(PAIR) == [];
    }
    assert PAIR.declared[1..] == [PAIR_B];
    assert FindInstanceMethod(PAIR.declared, "b") == FindInstanceMethod([PAIR_B], "b");
  }

  lemma PairInstanceReadable(heap: Heap, id: nat)
    requires StandardChain(heap, id) && heap[id].interfaces == [PAIR]
    requires Get(heap[id].store, "a") != Null && Get(heap[id].store, "b") != Null
    ensures StoreReadable(heap, id, ["a", "b"])
  {
    PairAccessors();
    assert ReadsStored(heap, id, "a") && ReadsStored(heap, id, "b");
  }

  lemma PairUnstyled()
    ensures Unstyled([PAIR])
  {
    assert PAIR.declared[1..] == [PAIR_B];
    assert FindDeclared(PAIR.declared, "equalTo", [OBJECT]).None?;
    assert FindDeclared(PAIR.declared, "hash", []).None?;
  }

  lemma PairReadable(heap: Heap, corrected: bool)
    requires heap == SwappedPairs(Standard(corrected))
    ensures Unstyled(heap[0].interfaces) && Unstyled(heap[1].interfaces)
    ensures Keys(heap[0].store) == ["a", "b"] && Keys(heap[1].store) == ["a", "b"]
    ensures StoreReadable(heap, 0, ["a", "b"]) && StoreReadable(heap, 1, ["a", "b"])
    ensures StoredValues(heap[0].store, ["a", "b"]) == [Int(1), Int(2)]
    ensures StoredValues(heap[1].store, ["a", "b"]) == [Int(2), Int(1)]
    ensures SameClass(heap, 0, Ref(1))
  {
    PairUnstyled();
    assert Keys(heap[0].store) == ["a", "b"];
    assert Keys(heap[1].store) == ["a", "b"];
    PairInstanceReadable(heap, 0);
    PairInstanceReadable(heap, 1);
  }

  /** `Objects.hash` of the two value lists. */
  lemma PairHashes(refHash: nat -> int)
    ensures ObjectsHashOfList(refHash, [Int(1), Int(2)]) == 1025
    ensures ObjectsHashOfList(refHash, [Int(2), Int(1)]) == 1055
  {
    assert [Int(1), Int(2)][..1] == [Int(1)];
    assert [Int(1)][..0] == [];
    assert ListPoly(refHash, [Int(1), Int(2)]) == 994;
    assert [Int(2), Int(1)][..1] == [Int(2)];
    assert [Int(2)][..0] == [];
    assert ListPoly(refHash, [Int(2), Int(1)]) == 1024;
  }

  lemma SwappedListsSame()
    ensures SameFieldValues([Int(2), Int(1)], [Int(1), Int(2)])
  {
    var xs, ys := [Int(2), Int(1)], [Int(1), Int(2)];
    assert xs[1..] == [Int(1)] && ys[1..] == [Int(2)];
    assert Contains(xs, Int(1)) && Contains(xs, Int(2));
    assert Contains(ys, Int(1)) && Contains(ys, Int(2));
  }

  /** As written: each value list contains the other's elements, so the instances are equal. */
  lemma SwappedPairsEqual(fuel: nat, env: Env)
    requires fuel >= 1
    ensures Dispatch(fuel, env, SwappedPairs(DEFAULT_INVOKERS), 0, OBJECT_EQUALS, [Ref(1)]).result == Ok(Bool(true))
  {
    var heap := SwappedPairs(DEFAULT_INVOKERS);
    PairReadable(heap, false);
    ContractDelegation(fuel, env, false, heap, 0, EqualsContract, [Ref(1)]);
    EqualsOfStores(fuel, env, false, heap, 0, 1);
    SwappedListsSame();
  }

  /**
   * As written: the two instances are equal, but their hash codes are 1025 and 1055.
   */
  lemma SwappedPairsAsWritten(fuel: nat, env: Env)
    requires fuel >= 1
    ensures var heap := SwappedPairs(DEFAULT_INVOKERS);
      && Dispatch(fuel, env, heap, 0, OBJECT_EQUALS, [Ref(1)]).result == Ok(Bool(true))
      && Dispatch(fuel, env, heap, 0, OBJECT_HASH_CODE, []).result == Ok(Int(1025))
      && Dispatch(fuel, env, heap, 1, OBJECT_HASH_CODE, []).result == Ok(Int(1055))
  {
    var heap := SwappedPairs(DEFAULT_INVOKERS);
    PairReadable(heap, false);
    SwappedPairsEqual(fuel, env);
    HashDispatch(fuel, env, heap, 0);
    HashDispatch(fuel, env, heap, 1);
    PairHashes(env.refHash);
  }

  /** Corrected: the same two instances are not equal, in agreement with their hash codes. */
  lemma SwappedPairsCorrected(fuel: nat, env: Env)
    requires fuel >= 1
    ensures Dispatch(fuel, env, SwappedPairs(CORRECTED_INVOKERS), 0, OBJECT_EQUALS, [Ref(1)]).result == Ok(Bool(false))
  {
    var heap := SwappedPairs(CORRECTED_INVOKERS);
    PairReadable(heap, true);
    ContractDelegation(fuel, env, true, heap, 0, EqualsContract, [Ref(1)]);
    EqualsOfStores(fuel, env, true, heap, 0, 1);
  }
}
