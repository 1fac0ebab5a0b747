# ProximateConfigurate core, modelled in Dafny

This project models the object-mapping core of ProximateConfigurate. The library backs
configuration interfaces with proxies. Discovery scans the methods of an interface and
its super-interfaces. A chain of filters decides which methods are fields. The host
configuration library loads the field values into an intermediate store, one per
instance. A synthesized proxy then answers every call through an ordered chain of
invokers:

- the setter write-back;
- `toString`, `equals` and `hashCode`, optionally redirected by `@Style`;
- the fallbacks to the default body, a cached primitive zero, or the stored value.

Around this sit the serializer that writes the store, the signature-based
`MethodAdapter`, and the `__class__` discriminator of `InterfaceObjectMapperFactory`.
The small metadata rules are modelled too: constraints, comments, localization and node
resolvers. Finally, the `java.specification.version` parser picks how default bodies
are called.

Reflection is replaced by data:

- A method is a descriptor record.
- An interface is a finite tree of super-interfaces.
- A store is an association list with distinct keys. Its order stands for the fixed but
  arbitrary `HashMap` iteration order.
- Live proxies sit in a heap from identities to (interfaces, store).

Dispatch and the synthesized `equals`/`hashCode` are mutually recursive. The fallbacks
read fields by calling the accessors, which re-enters dispatch. A `fuel` argument bounds
that recursion.

Files:

- `java.dfy`: the Java platform slice. It covers exceptions, values, 32-bit `int`
  arithmetic, `hashCode` of boxed values and strings, and `Integer.parseInt`.
- `descriptors.dfy`: annotations, methods, interfaces and the `getInterfaces` walk.
- `store.dfy`: the intermediate `HashMap`.
- `method_invokers.dfy`: the pure parts of `MethodInvokers`.
- `dispatch.dfy`: the invocation handler of `ProxyInstanceFactory` and the invoker chain.
- `discovery.dfy`: `InterfaceMethodDiscoverer`, its filters and builder.
- `dispatch_laws.dfy`, `object_contract.dfy`, `invoker_laws.dfy` and
  `discovery_laws.dfy`: the properties.
- `serializer.dfy`: `ProxyMethodSerializer`.
- `method_adapter.dfy`: `MethodAdapter`.
- `java_version.dfy`: the `javaVersion` parser of `ProxyDefaultMethodInvoker`.
- `nodes.dfy` and `mapper_factory.dfy`: the node slice and `InterfaceObjectMapperFactory`.
- `meta.dfy`: `Localization`, `Constraints`, `Processors` and `NodeResolvers`.
- `findings.dfy`: the two findings below.

Parameters stand in for what lies outside the model:

- running a default method body;
- `Types.defaultValue`;
- the `toString` and `hashCode` of arbitrary referenced objects;
- `Method.toGenericString`;
- `Class.forName` and the subtype test;
- the regular expression engine and `MessageFormat`;
- the object mappers of the host library.

## Model

| member | source | states |
|---|---|---|
| Store.Get | common/src/main/java/com/bivashy/configurate/objectmapping/common/ProxyInstanceFactory.java:35 | reading a key that was never stored gives null; a stored key gives the value of its entry |
| Store.Put | common/src/main/java/com/bivashy/configurate/objectmapping/common/meta/MethodInvokers.java:40 | after `put(k, v)` the key is present and reads `v`, null included; every other key reads as before; an existing key keeps its place and a new key goes last |
| Store.PutValid | common/src/main/java/com/bivashy/configurate/objectmapping/common/meta/MethodInvokers.java:40 | `put` keeps the keys distinct and adds exactly the key it wrote |
| Store.ComputeIfAbsent | common/src/main/java/com/bivashy/configurate/objectmapping/common/ProxyInstanceFactory.java:44 | afterwards the key reads the returned value; every other key reads as before; a non-null stored value is returned with the map unchanged, otherwise the computed value is returned; a null result leaves the map unchanged; distinct keys stay distinct |
| Store.ComputeIfAbsentStable | common/src/main/java/com/bivashy/configurate/objectmapping/common/ProxyInstanceFactory.java:44 | once a non-null value is cached, a second `computeIfAbsent` returns the same value and leaves the map unchanged, whatever it would compute |
| ProxyInstances.Begin | common/src/main/java/com/bivashy/configurate/objectmapping/common/ProxyInstanceFactory.java:27-30 | `begin()` gives an empty store in which every key reads null |
| ProxyInstances.Complete | common/src/main/java/com/bivashy/configurate/objectmapping/common/ProxyInstanceFactory.java:32-57 | `complete` creates one new instance whose class implements exactly the mapped interface, holds the given store and answers through the factory's invoker chain; no other object changes; `canCreateInstances` holds |
| ProxyInstances.WithStore | common/src/main/java/com/bivashy/configurate/objectmapping/common/meta/MethodInvokers.java:40 | writing an instance's store changes that store only: no other object and no class changes |
| ProxyInstances.Dispatch | common/src/main/java/com/bivashy/configurate/objectmapping/common/ProxyInstanceFactory.java:34-47 | a call on an instance runs that instance's own invoker chain and neither creates nor removes an object nor changes any proxy class or chain; only stores change |
| ProxyInstances.RunChain | common/src/main/java/com/bivashy/configurate/objectmapping/common/ProxyInstanceFactory.java:59-71 | the chain ends in a non-null value, or an exception outside the reflective family, or a null meaning no invoker claimed the call |
| ProxyInstances.Fields | common/src/main/java/com/bivashy/configurate/objectmapping/common/meta/MethodInvokers.java:127-135 | `fields` gives one value per key, each read by calling the accessor through the object's own handler, or an exception re-wrapped in `RuntimeException` (never a reflective one) |
| ProxyInstances.EqualsFallback | common/src/main/java/com/bivashy/configurate/objectmapping/common/meta/MethodInvokers.java:75-82 | the synthesized `equals` answers a boolean, or fails with an unchecked exception from reading fields, each instance's through its own handler |
| ProxyInstances.HashFallback | common/src/main/java/com/bivashy/configurate/objectmapping/common/meta/MethodInvokers.java:94-95 | the synthesized `hashCode` answers an `int`, or fails with an unchecked exception from reading fields |
| ProxyInstances.Synthesized | common/src/main/java/com/bivashy/configurate/objectmapping/common/meta/MethodInvokers.java:52-62 | a synthesized contract answer always ends the chain |
| ProxyInstances.ProxyAccessor | common/src/main/java/com/bivashy/configurate/objectmapping/common/meta/MethodInvokers.java:130 | `getDeclaredMethod(key)` on the proxy class gives `Object`'s `toString`/`hashCode` for those names; for any other name it finds a parameterless method of that name exactly when some interface of the class or its ancestors declares a parameterless instance method so named |
| ProxyInstances.Invoke | common/src/main/java/com/bivashy/configurate/objectmapping/common/meta/MethodInvokers.java:22-98 | each built-in invoker's claim: `transientDefaultInvoker` answers only for default `@Transient` methods and never writes; the setter stores `args[0]` under the method name and returns the proxy exactly for the calls it accepts, touching no other key or object; the `toString`/`equals`/`hashCode` invokers decline every other method; `annotated(A)` declines without `A` |
| ProxyInstances.ChainAppend | common/src/main/java/com/bivashy/configurate/objectmapping/common/ProxyInstanceFactory.java:59-71 | invokers run in list order: a chain `a + b` answers as `a` when `a` settles the call, and otherwise goes on to `b` on the store `a` left |
| DispatchLaws.ReflectiveFailureDeclines | common/src/main/java/com/bivashy/configurate/objectmapping/common/ProxyInstanceFactory.java:62-67 | an invoker that throws a `ReflectiveOperationException` is passed over like one that returns null |
| DispatchLaws.AnnotatedInChain | api/src/main/java/com/bivashy/configurate/objectmapping/proxy/ProxyMethodInvoker.java:41-47 | `annotated(A)` without `A` on the method declines without touching the store; with `A` the call goes exactly as with the base invoker |
| DispatchLaws.ChainSkip | api/src/main/java/com/bivashy/configurate/objectmapping/proxy/ProxyMethodInvoker.java:21-22 | an invoker that returns null without touching the store hands the call to the next invoker |
| DispatchLaws.TransientDefaultInChain | common/src/main/java/com/bivashy/configurate/objectmapping/common/meta/MethodInvokers.java:22-30 | `transientDefaultInvoker` declines unless the method is both default and `@Transient`; when it is, the body's settling result is the call's answer |
| DispatchLaws.SkipSetter | common/src/main/java/com/bivashy/configurate/objectmapping/common/meta/MethodInvokers.java:34-38 | a call the setter does not claim goes on to the `toString` invoker as if the setter were absent |
| DispatchLaws.SkipContract | common/src/main/java/com/bivashy/configurate/objectmapping/common/meta/MethodInvokers.java:121-125 | a contract invoker passes by every method whose name or exact parameter list differs from its own |
| DispatchLaws.ChainDeclines | common/src/main/java/com/bivashy/configurate/objectmapping/common/ProxyInstanceFactory.java:36 | a call no standard invoker claims leaves the chain with null and the store unchanged |
| DispatchLaws.UnclaimedCall | common/src/main/java/com/bivashy/configurate/objectmapping/common/ProxyInstanceFactory.java:35-46 | an unclaimed call returns the value stored before the chain ran when non-null; otherwise the default body; otherwise, for a primitive return type, the cached zero; otherwise null, with the store unchanged |
| DispatchLaws.PrimitiveZeroCached | common/src/main/java/com/bivashy/configurate/objectmapping/common/ProxyInstanceFactory.java:43-44 | reading an absent primitive property stores its zero value, and reading again returns that cached value with nothing changed |
| DispatchLaws.ClaimedSetterStores | common/src/main/java/com/bivashy/configurate/objectmapping/common/meta/MethodInvokers.java:32-43 | a claimed setter call stores `args[0]` under the method name and returns the proxy |
| DispatchLaws.VoidSetterStores | common/src/main/java/com/bivashy/configurate/objectmapping/common/meta/MethodInvokers.java:34-41 | a one-argument `void` method stores its argument, even null, and returns the proxy |
| DispatchLaws.SetThenGet | common/src/main/java/com/bivashy/configurate/objectmapping/common/meta/MethodInvokers.java:40 | after a setter stores a non-null value the getter of that name returns it, and every other non-default getter returns what it returned before |
| ObjectContract.ContractReturned | common/src/main/java/com/bivashy/configurate/objectmapping/common/ProxyInstanceFactory.java:37-38 | when a contract invoker settles a `toString`/`equals`/`hashCode` call, that answer is the call's result |
| ObjectContract.StyledOutcome | common/src/main/java/com/bivashy/configurate/objectmapping/common/meta/MethodInvokers.java:109-119 | the styled lookup falls back to synthesis when the first interface does not declare the method or its body is missing; a declared method that is not default fails with `IllegalStateException`; otherwise the default body's answer is the result |
| ObjectContract.ContractDelegation | common/src/main/java/com/bivashy/configurate/objectmapping/common/meta/MethodInvokers.java:100-119 | the contract methods go to the `@Style` method of the first interface when it declares it with a default body, throw `IllegalStateException` naming it when it is not default, and are synthesized when it is not declared |
| ObjectContract.EqualsReflexive | common/src/main/java/com/bivashy/configurate/objectmapping/common/meta/MethodInvokers.java:76-77 | an unstyled `x.equals(x)` is true |
| ObjectContract.EqualsOtherClass | common/src/main/java/com/bivashy/configurate/objectmapping/common/meta/MethodInvokers.java:78-79 | null, a non-proxy value, or a proxy of another class is never equal, and no field is read |
| ObjectContract.FieldsReadThrough | common/src/main/java/com/bivashy/configurate/objectmapping/common/meta/MethodInvokers.java:127-135 | `fields(obj, keys)` returns the stored values in key order when every key reads through its accessor |
| ObjectContract.FieldsReadStore | common/src/main/java/com/bivashy/configurate/objectmapping/common/meta/MethodInvokers.java:127-135 | with a standard chain, `fields` over readable keys returns exactly their stored values, nulls included, and changes nothing |
| ObjectContract.FieldsMissingAccessor | common/src/main/java/com/bivashy/configurate/objectmapping/common/meta/MethodInvokers.java:127-135 | `fields` fails with `NoSuchMethodException` wrapped in `RuntimeException` at the first key no interface of the proxy class declares a parameterless accessor for, after reading the keys before it without changing anything |
| ObjectContract.EqualsOfStores | common/src/main/java/com/bivashy/configurate/objectmapping/common/meta/MethodInvokers.java:80-82 | the synthesized `equals` of two distinct same-class instances compares the value lists read for the receiver's keys, each instance through its own handler, nulls included: by mutual containment as written, by keys and ordered values when corrected |
| ObjectContract.HashOfStore | common/src/main/java/com/bivashy/configurate/objectmapping/common/meta/MethodInvokers.java:95 | the synthesized `hashCode` is `Objects.hash` of the receiver's stored values in key order, nulls included |
| ObjectContract.KeyedEqualsMeansSameStore | common/src/main/java/com/bivashy/configurate/objectmapping/common/meta/MethodInvokers.java:80-82 | under the corrected comparison, an instance reported equal holds the same keys in the same order with the same values, nulls included |
| ObjectContract.KeyedEqualsAgreesWithHash | common/src/test/java/com/bivashy/configurate/ObjectContractTest.java:77-85 | under the corrected comparison, equal instances have equal hash codes, whichever standard chain the other instance runs |
| InvokerLaws.ContainsAllSpec | common/src/main/java/com/bivashy/configurate/objectmapping/common/meta/MethodInvokers.java:82 | `xs.containsAll(ys)` holds exactly when every element of `ys` occurs in `xs` |
| InvokerLaws.SameFieldValuesSpec | common/src/main/java/com/bivashy/configurate/objectmapping/common/meta/MethodInvokers.java:82 | the `equals` comparison holds exactly for lists of equal length with the same set of elements |
| InvokerLaws.SameFieldValuesEquivalence | common/src/test/java/com/bivashy/configurate/ObjectContractTest.java:74-85 | the comparison is reflexive, symmetric and transitive |
| InvokerLaws.DuplicatesCompareEqual | common/src/main/java/com/bivashy/configurate/objectmapping/common/meta/MethodInvokers.java:82 | [1, 1, 2] and [1, 2, 2] compare equal though they are not permutations of each other |
| InvokerLaws.ListHashCode | common/src/main/java/com/bivashy/configurate/objectmapping/common/meta/MethodInvokers.java:95 | the `int` loop of `List.hashCode` equals the unbounded 31-polynomial wrapped once to 32 bits |
| InvokerLaws.ObjectsHash | common/src/main/java/com/bivashy/configurate/objectmapping/common/meta/MethodInvokers.java:95 | `Objects.hash` of the field list, computed with the `int` loop of `List.hashCode`, is `31 + list.hashCode()` wrapped to 32 bits, the list hash being the wrapped 31-polynomial over the values |
| InvokerLaws.EmptyHash | common/src/main/java/com/bivashy/configurate/objectmapping/common/meta/MethodInvokers.java:95 | an instance with an empty store hashes to 32 |
| InvokerLaws.JoinContains | common/src/main/java/com/bivashy/configurate/objectmapping/common/meta/MethodInvokers.java:59 | every part of a joined string occurs in it between the parts around it |
| InvokerLaws.ToStringListsEntries | common/src/main/java/com/bivashy/configurate/objectmapping/common/meta/MethodInvokers.java:53-62 | the synthesized `toString` is the bracketed interface list followed by braces holding `key=value` for every stored entry |
| InvokerLaws.StudentToString | common/src/test/java/com/bivashy/configurate/ObjectContractTest.java:58 | a student named Ben aged 17 renders as `[interface ...$StudentWithoutClass]{name=Ben, age=17}` |
| MethodInvokers.ResolveStyled | common/src/main/java/com/bivashy/configurate/objectmapping/common/meta/MethodInvokers.java:109-119 | only the first interface's own declared methods are searched; a match must be default, else the `IllegalStateException` message names it |
| MethodInvokers.EntryStrings | common/src/main/java/com/bivashy/configurate/objectmapping/common/meta/MethodInvokers.java:55-59 | each entry renders as `key=value`, in store order |
| Discovery.Test | api/src/main/java/com/bivashy/configurate/objectmapping/proxy/ProxyMethodFilter.java:32-34 | `reverse()` answers the negation of the filter and passes its exception through unchanged |
| Discovery.ShouldBeIgnored | common/src/main/java/com/bivashy/configurate/objectmapping/common/InterfaceMethodDiscoverer.java:99-106 | a method is kept exactly when every filter accepts it |
| Discovery.Collect | common/src/main/java/com/bivashy/configurate/objectmapping/common/InterfaceMethodDiscoverer.java:78-89 | every collected field is a declared method, keyed by its name, that no filter ignores |
| Discovery.Discover | common/src/main/java/com/bivashy/configurate/objectmapping/common/InterfaceMethodDiscoverer.java:62-76 | a class is not applicable; a discovered interface yields a factory for itself with the discoverer's invokers |
| Discovery.AddFilter | common/src/main/java/com/bivashy/configurate/objectmapping/common/InterfaceMethodDiscoverer.java:117-120 | after `filter(f)` a method is kept exactly when the earlier filters keep it and `f` accepts it; the invokers are untouched |
| Discovery.AddReverseFilter | common/src/main/java/com/bivashy/configurate/objectmapping/common/InterfaceMethodDiscoverer.java:122-125 | after `reverseFilter(f)` a method is kept exactly when the earlier filters keep it and `f` rejects it without an error; the invokers are untouched |
| Discovery.AddInvoker | common/src/main/java/com/bivashy/configurate/objectmapping/common/InterfaceMethodDiscoverer.java:127-130 | after `invoker(inv)` the chain answers as the earlier invokers did when they settled the call, and otherwise as `inv` on the store they left; the filters are untouched |
| Discovery.AddAnnotatedInvoker | common/src/main/java/com/bivashy/configurate/objectmapping/common/InterfaceMethodDiscoverer.java:132-135 | after `invoker(A, inv)` the chain answers as the earlier invokers did when they settled the call, and otherwise as `inv.annotated(A)` on the store they left; the filters are untouched |
| DispatchLaws.AnnotatedInvokerAdded | common/src/main/java/com/bivashy/configurate/objectmapping/common/InterfaceMethodDiscoverer.java:132-135 | after `invoker(A, inv)` the chain answers as before when the earlier invokers settled the call or the method lacks `A`; otherwise `inv` answers on the store they left, and a reflective failure of it still declines |
| Discovery.DefaultDiscoverer | common/src/main/java/com/bivashy/configurate/objectmapping/common/InterfaceMethodDiscoverer.java:40-60 | the default discoverer has the four default filters and the chain setter, toString, equals, hashCode |
| DiscoveryLaws.AncestorsAreReached | common/src/main/java/com/bivashy/configurate/objectmapping/common/InterfaceMethodDiscoverer.java:91-97 | `getInterfaces` lists every direct or inherited super-interface and nothing else |
| DiscoveryLaws.DiamondOrder | common/src/main/java/com/bivashy/configurate/objectmapping/common/InterfaceMethodDiscoverer.java:91-97 | a diamond `D extends B, C` (both extending `A`) is walked D, B, A, C, A: pre-order, with no deduplication |
| DiscoveryLaws.DoubleReverse | api/src/main/java/com/bivashy/configurate/objectmapping/proxy/ProxyMethodFilter.java:32-34 | `reverse().reverse()` agrees with the filter on every input, exceptions included |
| DiscoveryLaws.DefaultFiltersDecide | common/src/main/java/com/bivashy/configurate/objectmapping/common/InterfaceMethodDiscoverer.java:40-55 | the default filters ignore synthetic and static methods, default `@Transient` methods and one-parameter methods returning the scanned type or void; reject other methods with parameters and no body; keep the rest |
| DiscoveryLaws.DefaultFieldsKept | common/src/main/java/com/bivashy/configurate/objectmapping/common/InterfaceMethodDiscoverer.java:41-53 | no collected field is synthetic, static, a default `@Transient` method, or a non-default method with parameters |
| DiscoveryLaws.CollectSpec | common/src/main/java/com/bivashy/configurate/objectmapping/common/InterfaceMethodDiscoverer.java:78-89 | collection fails exactly when `shouldBeIgnored` throws for some declared method; otherwise a declared method becomes a field exactly when `shouldBeIgnored` keeps it |
| DiscoveryLaws.DiscoverOrder | common/src/main/java/com/bivashy/configurate/objectmapping/common/InterfaceMethodDiscoverer.java:70-73 | the fields are the interface's own, then those of each ancestor in `getInterfaces` order |
| DiscoveryLaws.ClassNotDiscovered | common/src/main/java/com/bivashy/configurate/objectmapping/common/InterfaceMethodDiscoverer.java:66-68 | a class target gives no instance factory |
| Serializers.Accept | common/src/main/java/com/bivashy/configurate/objectmapping/common/ProxyMethodSerializer.java:21-27 | a non-null value is stored under the key, a null one is replaced by the implicit initializer's value; other keys keep their values and presence |
| Serializers.AcceptValid | common/src/main/java/com/bivashy/configurate/objectmapping/common/ProxyMethodSerializer.java:21-27 | `accept` keeps the keys distinct |
| Serializers.Apply | common/src/main/java/com/bivashy/configurate/objectmapping/common/ProxyMethodSerializer.java:30-32 | `apply` reads the field by calling its accessor; an accessor with parameters fails with `IllegalArgumentException`, a failing call comes back as `InvocationTargetException` |
| Serializers.AcceptThenApply | common/src/main/java/com/bivashy/configurate/objectmapping/common/ProxyMethodSerializer.java:21-32 | on either standard chain, an instance built from a store `accept` filled reads the accepted non-null value back through the getter |
| Serializers.AcceptFrames | common/src/main/java/com/bivashy/configurate/objectmapping/common/ProxyMethodSerializer.java:21-27 | accepting one field leaves every other getter's reading unchanged |
| MethodAdapters.EqualsIsSameSignature | common/src/main/java/com/bivashy/configurate/objectmapping/common/MethodAdapter.java:26-35 | two adapters are equal exactly when name, return type and every parameter type agree |
| MethodAdapters.EqualsReflexive | common/src/main/java/com/bivashy/configurate/objectmapping/common/MethodAdapter.java:28-31 | an adapter equals itself and never null or an object of another class |
| MethodAdapters.EqualsEquivalence | common/src/main/java/com/bivashy/configurate/objectmapping/common/MethodAdapter.java:33-34 | adapter equality is symmetric and transitive |
| MethodAdapters.EqualAdaptersHashAlike | common/src/main/java/com/bivashy/configurate/objectmapping/common/MethodAdapter.java:37-40 | equal adapters have equal hash codes |
| MethodAdapters.DeclaringClassIgnored | common/src/main/java/com/bivashy/configurate/objectmapping/common/MethodAdapter.java:20-24 | the same signature declared by different interfaces gives equal adapters |
| MethodAdapters.DifferentSignaturesDiffer | common/src/main/java/com/bivashy/configurate/objectmapping/common/MethodAdapter.java:33-34 | methods with different names or parameter counts are never equal |
| MethodAdapters.AdapterHash | common/src/main/java/com/bivashy/configurate/objectmapping/common/MethodAdapter.java:38-40 | `hashCode` is an `int` |
| JavaVersion.SpecificationVersion | common/src/main/java/com/bivashy/configurate/objectmapping/common/ProxyDefaultMethodInvoker.java:45-52 | an unset property gives 6; a set one is `Integer.parseInt` of the text after a leading `1.`, or of the whole property; any result is an `int` and any failure a `NumberFormatException` |
| JavaVersion.SpecificationVersionSpec | common/src/main/java/com/bivashy/configurate/objectmapping/common/ProxyDefaultMethodInvoker.java:45-52 | a set property gives a version exactly when the text after a leading `1.`, or the whole property, is a signed decimal numeral inside the `int` range, the version being the numeral's value; anything else fails with `NumberFormatException` |
| JavaVersion.ModernVersionRoundTrip | common/src/main/java/com/bivashy/configurate/objectmapping/common/ProxyDefaultMethodInvoker.java:51 | a plain decimal version such as "17" reads back as itself |
| JavaVersion.LegacyVersionRoundTrip | common/src/main/java/com/bivashy/configurate/objectmapping/common/ProxyDefaultMethodInvoker.java:49-50 | "1.N" reads as N |
| JavaVersion.KnownVersions | common/src/main/java/com/bivashy/configurate/objectmapping/common/ProxyDefaultMethodInvoker.java:45-52 | "1.8" is 8 and legacy, "17" is 17, "9" takes `privateLookupIn`, and an unset property is legacy |
| JavaVersion.MalformedVersions | common/src/main/java/com/bivashy/configurate/objectmapping/common/ProxyDefaultMethodInvoker.java:49-51 | "1." and "9-ea" fail to parse |
| Java.ParseIntSpec | common/src/main/java/com/bivashy/configurate/objectmapping/common/ProxyDefaultMethodInvoker.java:50-51 | `Integer.parseInt` succeeds exactly on an optional sign followed by one or more digits whose value lies in the `int` range, giving that value; anything else fails with `NumberFormatException` naming the input |
| Java.ParseDecimal | common/src/main/java/com/bivashy/configurate/objectmapping/common/ProxyDefaultMethodInvoker.java:51 | `Integer.parseInt` reads back the decimal rendering of every non-negative `int` |
| Java.StringHashSnoc | common/src/main/java/com/bivashy/configurate/objectmapping/common/meta/MethodInvokers.java:95 | `String.hashCode` takes one `31 * h + c` step per UTF-16 code unit: one for a character of the Basic Multilingual Plane, one for each half of a surrogate pair otherwise |
| Java.SupplementaryStringHash | common/src/main/java/com/bivashy/configurate/objectmapping/common/meta/MethodInvokers.java:95 | a string holding U+1F600 hashes through its surrogate pair to 1772899 |
| Java.LongHash | common/src/main/java/com/bivashy/configurate/objectmapping/common/meta/MethodInvokers.java:95 | `Long.hashCode` of a non-negative value in `int` range is the value, and of a negative one its complement, so `-1L` hashes to 0 |
| MapperFactory.InstantiableType | common/src/main/java/com/bivashy/configurate/objectmapping/common/InterfaceObjectMapperFactory.java:79-101 | interfaces and concrete classes resolve to themselves; an abstract class fails with "No available configured type ...", "Unknown class of object <name>" or "Configured type <name> does not extend <canonical name>", and otherwise resolves to the configured class |
| MapperFactory.Deserialize | common/src/main/java/com/bivashy/configurate/objectmapping/common/InterfaceObjectMapperFactory.java:74-77 | a failed type resolution is the result; otherwise the node is loaded as the resolved type |
| MapperFactory.EmptyValue | common/src/main/java/com/bivashy/configurate/objectmapping/common/InterfaceObjectMapperFactory.java:125-133 | `emptyValue` never fails with a `SerializationException` (it gives null instead); any other outcome of loading an empty node is passed on |
| MapperFactory.DiscriminatorIgnored | common/src/main/java/com/bivashy/configurate/objectmapping/common/InterfaceObjectMapperFactory.java:83-100 | interfaces and concrete classes load as the requested type whatever `__class__` holds |
| MapperFactory.Serialize | common/src/main/java/com/bivashy/configurate/objectmapping/common/InterfaceObjectMapperFactory.java:103-123 | null clears the node and keeps exactly an attached `__class__` child; an interface or concrete type is saved as declared on the node unchanged; an abstract type is saved as the runtime class on the given node with its `__class__` child set to the runtime class name, key, value, comment and every other child kept |
| MapperFactory.SerializeNullKeepsDiscriminator | common/src/main/java/com/bivashy/configurate/objectmapping/common/InterfaceObjectMapperFactory.java:105-111 | serializing null clears the node but keeps an attached `__class__` child and nothing else, taking the child fetched before `node.set(null)` as still attached when the node held it |
| MapperFactory.ConcreteSaveUntagged | common/src/main/java/com/bivashy/configurate/objectmapping/common/InterfaceObjectMapperFactory.java:119-122 | an object of an interface or concrete declared type is saved by that type with no discriminator |
| MapperFactory.DiscriminatorRoundTrip | common/src/main/java/com/bivashy/configurate/objectmapping/common/InterfaceObjectMapperFactory.java:113-118 | an object saved under an abstract declared type carries its runtime class name and loads back as that class |
| MapperFactory.AbstractNeedsKnownSubtype | common/src/main/java/com/bivashy/configurate/objectmapping/common/InterfaceObjectMapperFactory.java:83-95 | an abstract class without `__class__`, or with a class that does not extend it, cannot be loaded |
| ConfigNodes.SetChild | common/src/main/java/com/bivashy/configurate/objectmapping/common/InterfaceObjectMapperFactory.java:117 | setting a child changes that child only; a null value detaches it |
| Localization.Key | common/src/main/java/com/bivashy/configurate/objectmapping/common/meta/Localization.java:22-28 | a key in the bundle gives its message; a missing key gives the key itself |
| Localization.CommentBundleExample | common/src/test/java/com/bivashy/configurate/objectmapping/ProcessorTest.java:75-76 | "configurate.test.comment.one" translates to "First property" and an unknown text passes through |
| Constraints.Required | common/src/main/java/com/bivashy/configurate/objectmapping/common/meta/Constraints.java:28-34 | fails with "A value is required for this field" exactly for null |
| Constraints.Pattern | common/src/main/java/com/bivashy/configurate/objectmapping/common/meta/Constraints.java:44-57 | null passes; a present value fails exactly when the whole string does not match, with the template formatted with the input and the pattern |
| Constraints.LocalizedPattern | common/src/main/java/com/bivashy/configurate/objectmapping/common/meta/Constraints.java:69-82 | null passes the localized check |
| Constraints.LocalizedIsTranslatedPattern | common/src/main/java/com/bivashy/configurate/objectmapping/common/meta/Constraints.java:69-82 | the localized check is the plain one with the bundle's translation as template, and accepts exactly the same values |
| Constraints.UntranslatedMessagePassesThrough | common/src/main/java/com/bivashy/configurate/objectmapping/common/meta/Constraints.java:72 | a message missing from the bundle is used verbatim |
| Processors.Comments | common/src/main/java/com/bivashy/configurate/objectmapping/common/meta/Processors.java:21-32 | a node without comment support is unchanged; otherwise only the comment changes: replaced when overriding, set only if absent otherwise |
| Processors.LocalizedIsTranslatedComments | common/src/main/java/com/bivashy/configurate/objectmapping/common/meta/Processors.java:45-59 | localized comments apply the same rule to the bundle's translation of the comment |
| Processors.CommentsIdempotent | common/src/main/java/com/bivashy/configurate/objectmapping/common/meta/Processors.java:21-32 | applying a comment twice is applying it once |
| Processors.ExistingCommentKept | common/src/main/java/com/bivashy/configurate/objectmapping/common/meta/Processors.java:27-28 | without `override` an existing comment is never replaced |
| Processors.LocalizedCommentExample | common/src/test/java/com/bivashy/configurate/objectmapping/ProcessorTest.java:75-76 | a commented node receives "First property" for the known key and the literal text for an unknown one |
| NodeResolvers.NodeKeyResolver | common/src/main/java/com/bivashy/configurate/objectmapping/common/meta/NodeResolvers.java:15-22 | `nodeKey` applies exactly to `@NodeKey` methods and declines otherwise |
| NodeResolvers.NodeFromParentResolver | common/src/main/java/com/bivashy/configurate/objectmapping/common/meta/NodeResolvers.java:24-32 | `nodeFromParent` applies exactly when the first `@Setting` sets `nodeFromParent`, and resolves to the node itself |
| NodeResolvers.KeyFromSettingResolver | common/src/main/java/com/bivashy/configurate/objectmapping/common/meta/NodeResolvers.java:34-44 | `keyFromSetting` applies exactly when `@Setting` names a non-empty path, and resolves to the child at it |
| NodeResolvers.Resolve | common/src/main/java/com/bivashy/configurate/objectmapping/common/meta/NodeResolvers.java:15-44 | the node-key resolver gives a fresh node holding the original node's key as its value; the parent resolver gives the node itself; the setting resolver gives the child at the configured key |
| NodeResolvers.ResolverExamples | common/src/test/java/com/bivashy/configurate/objectmapping/NodeResolverTest.java:37-45 | a `@NodeKey` getter on the node "test" reads "test"; `@Setting("something")` reads the child "something" |
| NodeResolvers.UnannotatedDeclined | common/src/main/java/com/bivashy/configurate/objectmapping/common/meta/NodeResolvers.java:20-42 | every registered factory declines a method with neither `@NodeKey` nor `@Setting` |
| Findings.FluentSetterIgnored | common/src/main/java/com/bivashy/configurate/objectmapping/common/meta/MethodInvokers.java:37 | as written: a fluent setter is skipped by discovery, yet its call stores nothing and the handler answers with the old stored value |
| Findings.FluentSetterExample | common/src/main/java/com/bivashy/configurate/objectmapping/common/meta/MethodInvokers.java:37 | as written: the handler of `person.name("new")` on a person named "old" answers "old", which the proxy's cast to `Person` rejects with `ClassCastException`, and `name()` still reads "old" |
| Findings.SkippedSettersAreClaimed | common/src/main/java/com/bivashy/configurate/objectmapping/common/InterfaceMethodDiscoverer.java:46-50 | corrected: every method discovery skips as a setter is claimed by the corrected setter |
| Findings.FluentSetterStores | common/src/main/java/com/bivashy/configurate/objectmapping/common/meta/MethodInvokers.java:37-41 | corrected: a fluent setter stores its argument and returns the proxy |
| Findings.SwappedPairsAsWritten | common/src/main/java/com/bivashy/configurate/objectmapping/common/meta/MethodInvokers.java:82 | as written: {a=1, b=2} equals {a=2, b=1}, yet their hash codes are 1025 and 1055 |
| Findings.SwappedPairsCorrected | common/src/main/java/com/bivashy/configurate/objectmapping/common/meta/MethodInvokers.java:95 | corrected: the two instances are not equal, in agreement with their hash codes |

## Left out

- Java reflection, dynamic proxies and method handles. Methods are descriptor records, and the default body is `Env.runDefault`. The `RuntimeException` wrapping of a failing body is part of that parameter.
- The `printStackTrace` of a declined reflective failure: it is output only.
- Generic type resolution (geantyref). Method return and parameter types are already resolved. `MethodAdapter` takes the resolution as a function.
- The host configuration library: object mapper load/save, field collection, node trees beyond key, value, children and comment, and HOCON. Load and save are parameters.
- `ConfigNodes.Node`: `set(null)` on a node keeps its comment. Non-scalar values read as no string.
- Node resolver query order: the host library queries the registered factories, so only their registration order (`NodeResolvers.REGISTERED`) is modelled.
- `Pattern.compile` failing on a malformed pattern: the engine is a total parameter.
- The `Locale` of `MessageFormat`, and `ResourceBundle` parent chains: a bundle is a finite map.
- Element equality inside `containsAll` is value equality. Nested proxies stored as field values are not re-dispatched: their `equals` is reference equality, and their `hashCode` and `toString` come from the `refHash` and `show` parameters.
- `ProxyInstances.Dispatch`: the re-entry of `equals`/`hashCode` into accessor calls is bounded by `fuel`. Exhausting it gives `StackExhausted`, where Java would throw `StackOverflowError` only on truly unbounded recursion.
- `Env.runDefault` reads the heap but cannot change it: a default body that calls setters on its own instance is not modelled.
- `MapperFactory.Applicable`: it is the annotation test itself and carries no further property.
- `MethodAdapters.AdapterHash`: `typeHash` stands for the hash of a resolved type, and only its agreement on equal adapters is proved.
- EqualsOfStores: a key whose stored value is null and whose accessor has a default body or a primitive return type is not covered, because the default body or the cached zero answers instead of the stored null.
- HashOfStore: same gap as `EqualsOfStores` for a null value behind a default or primitive accessor.
- KeyedEqualsMeansSameStore: same gap as `EqualsOfStores` for a null value behind a default or primitive accessor.
- KeyedEqualsAgreesWithHash: same gap as `EqualsOfStores` for a null value behind a default or primitive accessor.
- Java.ParseIntSpec: only the ASCII digits `0`-`9` are accepted, while `Integer.parseInt` also accepts other Unicode decimal digits.
- Serializers.Accept: `implicitInitializer` is passed as a value, so an exception thrown by `implicitInitializer.get()` (common/src/main/java/com/bivashy/configurate/objectmapping/common/ProxyMethodSerializer.java:25) is not modelled.
- Findings.FluentSetterIgnored: the dynamic proxy's cast of the handler's answer to the declared return type is not modelled; the lemma is about the handler, whose non-null answer the cast rejects with `ClassCastException`.
- Findings.FluentSetterExample: the same return-type cast is not modelled; `person.name("new")` itself throws `ClassCastException` where the handler answers "old".
- Java.HashOf: `Byte`, `Short`, `Character`, `Float` and `Double` values are references hashed through the `refHash` parameter, not by their own `hashCode`.
- MapperFactory.SerializeNullKeepsDiscriminator: that the `__class__` child fetched before `node.set(null)` is still attached when tested afterwards is assumed from the node abstraction; the host library's detach semantics are not part of this model.
- Invokers beyond the built-in ones are modelled as `Custom` functions of (proxy id, method, arguments, store) returning a result and a new store.

## Findings

| source | as written | input that shows it | evidently intended | confidence | as-written member | corrected member |
|---|---|---|---|---|---|---|
| common/src/main/java/com/bivashy/configurate/objectmapping/common/meta/MethodInvokers.java:37 | the setter claims a one-argument method only if its return type is `void` or equals `proxy.getClass()`, a generated proxy class no interface method can name | `Person name(String)` declared in `Person`: discovery skips it as a setter (common/src/main/java/com/bivashy/configurate/objectmapping/common/InterfaceMethodDiscoverer.java:46-50), but the call is unclaimed, the handler answers with the old stored value, and the proxy's cast of a stored `String` to `Person` throws `ClassCastException` | a fluent setter returning its interface stores its argument and returns the proxy | not executed | Findings.FluentSetterExample | Findings.FluentSetterStores |
| common/src/main/java/com/bivashy/configurate/objectmapping/common/meta/MethodInvokers.java:82 | the synthesized `equals` compares the value lists by size and mutual containment, while `hashCode` hashes the ordered list (line 95) | `Pair` with `a=1, b=2` and `a=2, b=1`: `equals` is true, hash codes are 1025 and 1055 | equal instances have equal hash codes, as `Object.hashCode` requires | not executed | Findings.SwappedPairsAsWritten | ObjectContract.KeyedEqualsAgreesWithHash |
