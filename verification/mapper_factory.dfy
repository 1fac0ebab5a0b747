/**
 * `InterfaceObjectMapperFactory` as a type serializer: which types it handles, how it
 * picks the concrete type to load from the `__class__` discriminator, how it writes that
 * discriminator back, and what it returns as the empty value. The object mappers it
 * delegates to (`get(type).load` / `save`) are parameters.
 */
module MapperFactory {
  import opened Wrappers
  import opened Java
  import opened ConfigNodes

  const CLASS_KEY: string := "__class__"

  const NO_CONFIGURED_TYPE: string := "No available configured type for instances of this type"

  /** An erased type, with what the factory asks of it. */
  datatype TypeInfo = TypeInfo(
    name: string,            // `getName()`
    canonicalName: string,   // `getCanonicalName()`
    isInterface: bool,
    isAbstract: bool,        // the `abstract` modifier
    configInterface: bool)   // annotated `@ConfigInterface`

  /** An object to save: its runtime class and the value itself. */
  datatype Object = Object(runtimeClass: TypeInfo, value: Value)

  /** The types that need a discriminator: abstract classes, but not interfaces. */
  predicate NeedsDiscriminator(t: TypeInfo) {
    !t.isInterface && t.isAbstract
  }

  /** `applicable(type)`: the factory serializes exactly the `@ConfigInterface` types. */
  predicate Applicable(t: TypeInfo) {
    t.configInterface
  }

  /**
   * `instantiableType`: the type to load. Interfaces and non-abstract classes load as
   * themselves; an abstract class needs a configured class name that `forName` knows and
   * that is a subtype, and fails with a distinct message for each missing piece.
   */
  function InstantiableType(t: TypeInfo, configuredName: Option<string>,
                            forName: string -> Option<TypeInfo>,
                            isSuperType: (TypeInfo, TypeInfo) -> bool): (r: Result<TypeInfo>)
    ensures !NeedsDiscriminator(t) ==> r == Ok(t)
    ensures NeedsDiscriminator(t) && configuredName.None? ==> r == Err(Serialization(NO_CONFIGURED_TYPE))
    ensures NeedsDiscriminator(t) && configuredName.Some? && forName(configuredName.value).None? ==>
      r == Err(Serialization("Unknown class of object " + configuredName.value))
    ensures NeedsDiscriminator(t) && configuredName.Some? && forName(configuredName.value).Some? ==>
      var c := forName(configuredName.value).value;
      r == if isSuperType(t, c) then Ok(c)
           else Err(Serialization("Configured type " + configuredName.value + " does not extend " + t.canonicalName))
  {
    if NeedsDiscriminator(t) then
      match configuredName
      case None => Err(Serialization(NO_CONFIGURED_TYPE))
      case Some(n) =>
        match forName(n)
        case None => Err(Serialization("Unknown class of object " + n))
        case Some(c) =>
          if !isSuperType(t, c) then Err(Serialization("Configured type " + n + " does not extend " + t.canonicalName))
          else Ok(c)
    else Ok(t)
  }

  /** `node.node(CLASS_KEY).getString()`. */
  function ConfiguredName(node: Node): Option<string> {
    ScalarString(Child(node, CLASS_KEY).raw)
  }

  /** `deserialize`: resolve the type to load, then load the node as that type. */
  function Deserialize(t: TypeInfo, node: Node, forName: string -> Option<TypeInfo>,
                       isSuperType: (TypeInfo, TypeInfo) -> bool,
                       load: (TypeInfo, Node) -> Result<Value>): (r: Result<Value>)
    ensures InstantiableType(t, ConfiguredName(node), forName, isSuperType).Err? ==>
      r == Err(InstantiableType(t, ConfiguredName(node), forName, isSuperType).error)
    ensures InstantiableType(t, ConfiguredName(node), forName, isSuperType).Ok? ==>
      r == load(InstantiableType(t, ConfiguredName(node), forName, isSuperType).value, node)
  {
    match InstantiableType(t, ConfiguredName(node), forName, isSuperType)
    case Err(e) => Err(e)
    case Ok(c) => load(c, node)
  }

  /**
   * `serialize`: a null object clears the node but keeps an attached `__class__` child; an
   * object of an abstract declared type is saved by its runtime class after its class name
   * is written to `__class__`; any other object is saved by the declared type as it is.
   * The `__class__` child is fetched before `node.set(null)` and tested for `virtual()`
   * after it; the model takes it as attached exactly when the node held it before the
   * clearing, which is the `ConfigNodes` reading of attachment rather than something the
   * host library's detach semantics are shown to give.
   */
  function Serialize(t: TypeInfo, obj: Option<Object>, node: Node,
                     save: (TypeInfo, Object, Node) -> Result<Node>): (r: Result<Node>)
    ensures obj.None? ==>
      && r.Ok? && r.value.raw == Null && r.value.key == node.key
      && r.value.children.Keys <= {CLASS_KEY}
      && (IsVirtualChild(r.value, CLASS_KEY) <==> IsVirtualChild(node, CLASS_KEY))
      && ConfiguredName(r.value) == ConfiguredName(node)
    ensures obj.Some? && !NeedsDiscriminator(t) ==> r == save(t, obj.value, node)
    ensures obj.Some? && NeedsDiscriminator(t) ==>
      r == save(obj.value.runtimeClass, obj.value, SetChild(node, CLASS_KEY, Str(obj.value.runtimeClass.name)))
  {
    match obj
    case None =>
      var clazz := Child(node, CLASS_KEY);
      var cleared := node.(raw := Null, children := map[]);
      if !IsVirtualChild(node, CLASS_KEY) then Ok(cleared.(children := map[CLASS_KEY := clazz]))
      else Ok(cleared)
    case Some(o) =>
      if NeedsDiscriminator(t) then save(o.runtimeClass, o, SetChild(node, CLASS_KEY, Str(o.runtimeClass.name)))
      else save(t, o, node)
  }

  /**
   * `emptyValue`: what loading an empty node gives, with a `SerializationException`
   * turned into null; any other exception still propagates.
   */
  function EmptyValue(t: TypeInfo, load: (TypeInfo, Node) -> Result<Value>): (r: Result<Value>)
    ensures r.Err? ==> !r.error.Serialization? && r == load(t, Root(Null))
    ensures load(t, Root(Null)).Ok? ==> r == load(t, Root(Null))
    ensures load(t, Root(Null)).Err? && load(t, Root(Null)).error.Serialization? ==> r == Ok(Null)
  {
    match load(t, Root(Null))
    case Ok(v) => Ok(v)
    case Err(e) => if e.Serialization? then Ok(Null) else Err(e)
  }

  // ------------------------------------------------------------------ laws

  /** Interfaces and concrete classes load as the requested type, whatever `__class__` holds. */
  lemma DiscriminatorIgnored(t: TypeInfo, node: Node, forName: string -> Option<TypeInfo>,
                             isSuperType: (TypeInfo, TypeInfo) -> bool, load: (TypeInfo, Node) -> Result<Value>)
    requires !NeedsDiscriminator(t)
    ensures Deserialize(t, node, forName, isSuperType, load) == load(t, node)
  {
  }

  /**
   * Serializing null keeps exactly the discriminator: the result has no value, and its
   * only child is the `__class__` child that was attached before, if there was one. That
   * the child fetched before `node.set(null)` still counts as attached afterwards is
   * assumed from the `ConfigNodes` abstraction, not derived from the host library.
   */
  lemma SerializeNullKeepsDiscriminator(t: TypeInfo, node: Node, save: (TypeInfo, Object, Node) -> Result<Node>)
    ensures var r := Serialize(t, None, node, save);
      && r.Ok? && r.value.raw == Null && r.value.key == node.key
      && r.value.children.Keys <= {CLASS_KEY}
      && (IsVirtualChild(r.value, CLASS_KEY) <==> IsVirtualChild(node, CLASS_KEY))
      && ConfiguredName(r.value) == ConfiguredName(node)
  {
  }

  /** Saving an object of an interface or concrete declared type writes no discriminator. */
  lemma ConcreteSaveUntagged(t: TypeInfo, o: Object, node: Node, save: (TypeInfo, Object, Node) -> Result<Node>)
    requires !NeedsDiscriminator(t)
    ensures Serialize(t, Some(o), node, save) == save(t, o, node)
  {
  }

  /**
   * Round trip of the discriminator: an object saved under an abstract declared type is
   * loaded back as its runtime class, provided the mapper's save leaves `__class__` alone,
   * the runtime class can be found by its name and extends the declared type.
   */
  lemma DiscriminatorRoundTrip(t: TypeInfo, o: Object, node: Node,
                               save: (TypeInfo, Object, Node) -> Result<Node>,
                               forName: string -> Option<TypeInfo>,
                               isSuperType: (TypeInfo, TypeInfo) -> bool,
                               load: (TypeInfo, Node) -> Result<Value>)
    requires NeedsDiscriminator(t)
    requires var tagged := SetChild(node, CLASS_KEY, Str(o.runtimeClass.name));
      var saved := save(o.runtimeClass, o, tagged);
      saved.Ok? ==> Child(saved.value, CLASS_KEY).raw == Child(tagged, CLASS_KEY).raw
    requires forName(o.runtimeClass.name) == Some(o.runtimeClass)
    requires isSuperType(t, o.runtimeClass)
    ensures var saved := Serialize(t, Some(o), node, save);
      saved.Ok? ==>
        && ConfiguredName(saved.value) == Some(o.runtimeClass.name)
        && Deserialize(t, saved.value, forName, isSuperType, load) == load(o.runtimeClass, saved.value)
  {
    var saved := Serialize(t, Some(o), node, save);
    if saved.Ok? {
      assert ConfiguredName(saved.value) == Some(o.runtimeClass.name);
    }
  }

  /** An abstract class whose discriminator is missing cannot be loaded, nor can a foreign one. */
  lemma AbstractNeedsKnownSubtype(t: TypeInfo, node: Node, forName: string -> Option<TypeInfo>,
                                  isSuperType: (TypeInfo, TypeInfo) -> bool, load: (TypeInfo, Node) -> Result<Value>)
    requires NeedsDiscriminator(t)
    ensures IsVirtualChild(node, CLASS_KEY) ==>
      Deserialize(t, node, forName, isSuperType, load) == Err(Serialization(NO_CONFIGURED_TYPE))
    ensures var r := Deserialize(t, node, forName, isSuperType, load);
      (ConfiguredName(node).Some? && forName(ConfiguredName(node).value).Some?
       && !isSuperType(t, forName(ConfiguredName(node).value).value)) ==> r.Err? && r.error.Serialization?
  {
  }
}
