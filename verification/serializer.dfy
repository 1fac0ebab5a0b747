/**
 * `ProxyMethodSerializer`: how a loaded field value reaches the intermediate store that
 * becomes an instance, and how a field is read back from an instance when saving.
 */
module Serializers {
  import opened Java
  import opened Descriptors
  import opened Store
  import opened ProxyInstances
  import opened Discovery
  import opened DispatchLaws

  /** The serializer of one field: the accessor method and the key it stores under. */
  datatype Serializer = Serializer(accessor: Method, name: string)

  /**
   * `accept`: a non-null loaded value is stored under the field's key; a null one is
   * replaced by the implicit initializer's value, which may itself be null. Every other
   * key keeps its value.
   */
  function Accept(ser: Serializer, intermediate: Store, newValue: Value, implicitInitializer: Value): (r: Store)
    ensures Has(r, ser.name)
    ensures newValue != Null ==> Get(r, ser.name) == newValue
    ensures newValue == Null ==> Get(r, ser.name) == implicitInitializer
    ensures forall k | k != ser.name :: Get(r, k) == Get(intermediate, k)
    ensures forall k :: Has(r, k) <==> Has(intermediate, k) || k == ser.name
  {
    var stored := if newValue != Null then newValue else implicitInitializer;
    var r := Put(intermediate, ser.name, stored);
    assert forall k :: Has(r, k) <==> k in Keys(r);
    r
  }

  /** `accept` keeps the keys of the intermediate store distinct. */
  lemma AcceptValid(ser: Serializer, intermediate: Store, newValue: Value, implicitInitializer: Value)
    requires Valid(intermediate)
    ensures Valid(Accept(ser, intermediate, newValue, implicitInitializer))
  {
    PutValid(intermediate, ser.name, if newValue != Null then newValue else implicitInitializer);
  }

  /**
   * `apply(obj)`: `method.invoke(obj)` with no arguments. An accessor that takes
   * parameters fails with `IllegalArgumentException`; an exception of the call itself
   * comes back wrapped in `InvocationTargetException`.
   */
  function Apply(fuel: nat, env: Env, heap: Heap, obj: nat, ser: Serializer): (r: Step)
    requires obj in heap
    ensures SameObjects(heap, r.heap)
    ensures |ser.accessor.params| != 0 ==> r == Step(Err(IllegalArgument), heap)
    ensures r.result.Err? && |ser.accessor.params| == 0 ==> r.result.error.InvocationTarget?
  {
    if |ser.accessor.params| != 0 then Step(Err(IllegalArgument), heap)
    else
      var s := Dispatch(fuel, env, heap, obj, ser.accessor, []);
      match s.result
      case Ok(v) => Step(Ok(v), s.heap)
      case Err(e) => Step(Err(InvocationTarget(e)), s.heap)
  }

  /**
   * Loading then saving: an instance completed from a store that `accept` filled reads the
   * accepted value back through the field's getter, on either standard invoker chain.
   */
  lemma AcceptThenApply(fuel: nat, env: Env, f: InstanceFactory, heap: Heap, id: nat, ser: Serializer,
                        intermediate: Store, newValue: Value, implicitInitializer: Value)
    requires id !in heap
    requires f.invokers == DEFAULT_INVOKERS || f.invokers == CORRECTED_INVOKERS
    requires PlainGetter(ser.accessor) && ser.accessor.name == ser.name
    ensures var s := Accept(ser, intermediate, newValue, implicitInitializer);
      var accepted := if newValue != Null then newValue else implicitInitializer;
      var h := Complete(f, heap, id, s).1;
      accepted != Null ==> Apply(fuel, env, h, id, ser) == Step(Ok(accepted), h)
  {
    var s := Accept(ser, intermediate, newValue, implicitInitializer);
    var h := Complete(f, heap, id, s).1;
    UnclaimedCall(fuel, env, f.invokers == CORRECTED_INVOKERS, h, id, ser.accessor, []);
  }

  /** Accepting into one key leaves every other getter's reading as it was. */
  lemma AcceptFrames(fuel: nat, env: Env, f: InstanceFactory, heap: Heap, id: nat, ser: Serializer, other: Serializer,
                     intermediate: Store, newValue: Value, implicitInitializer: Value)
    requires id !in heap
    requires f.invokers == DEFAULT_INVOKERS || f.invokers == CORRECTED_INVOKERS
    requires PlainGetter(other.accessor) && other.accessor.name == other.name && other.name != ser.name
    requires Get(intermediate, other.name) != Null
    ensures var h := Complete(f, heap, id, Accept(ser, intermediate, newValue, implicitInitializer)).1;
      Apply(fuel, env, h, id, other) == Step(Ok(Get(intermediate, other.name)), h)
  {
    var s := Accept(ser, intermediate, newValue, implicitInitializer);
    var h := Complete(f, heap, id, s).1;
    UnclaimedCall(fuel, env, f.invokers == CORRECTED_INVOKERS, h, id, other.accessor, []);
  }
}
