/**
 * `Localization.key`: a message looked up in a resource bundle, with the key itself
 * standing in for a missing entry.
 */
module Localization {
  /** A resource bundle for one locale: keys to messages. */
  type Bundle = map<string, string>

  /** `key(bundle, key)`: total over every bundle and key; it never reports a missing entry. */
  function Key(bundle: Bundle, key: string): (r: string)
    ensures key in bundle ==> r == bundle[key]
    ensures key !in bundle ==> r == key
  {
    if key in bundle then bundle[key] else key
  }

  /**
   * The lookups the localized-comment test relies on: a bundle holding
   * `configurate.test.comment.one = First property` translates that key and passes an
   * unknown text through verbatim.
   */
  lemma CommentBundleExample(bundle: Bundle)
    requires bundle == map["configurate.test.comment.one" := "First property"]
    ensures Key(bundle, "configurate.test.comment.one") == "First property"
    ensures Key(bundle, "Missing comment passthrough") == "Missing comment passthrough"
  {
    assert "Missing comment passthrough" != "configurate.test.comment.one" by {
      assert "Missing comment passthrough"[0] != "configurate.test.comment.one"[0];
    }
  }

  /** Lookup in an empty bundle is the identity. */
  lemma EmptyBundlePassesThrough(key: string)
    ensures Key(map[], key) == key
  {
  }
}

/**
 * `Constraints`: `required` and the `@Matches` pattern checks, plain and localized. A
 * check answers with the exception it throws, or none when the value passes. The regular
 * expression engine and `MessageFormat` are parameters.
 */
module Constraints {
  import opened Wrappers
  import opened Java
  import Localization

  const REQUIRED_MESSAGE: string := "A value is required for this field"

  /** The attributes of `@Matches`: the pattern, its flags and the failure message template. */
  datatype MatchesData = MatchesData(pattern: string, flags: int, failureMessage: string)

  /**
   * The two operations taken from the platform: whether a whole input matches a pattern
   * compiled with the given flags (`Matcher.matches`, not `find`), and the formatting of a
   * message template with its positional arguments.
   */
  datatype Platform = Platform(
    fullMatch: (string, int, string) -> bool,
    format: (string, seq<string>) -> string)

  /** `required()`: rejects exactly the null value. */
  function Required(value: Value): (r: Option<Error>)
    ensures r.Some? <==> value == Null
    ensures r.Some? ==> r.value == Serialization(REQUIRED_MESSAGE)
  {
    if value == Null then Some(Serialization(REQUIRED_MESSAGE)) else None
  }

  /**
   * `pattern()`: accepts a missing value; rejects a present one the pattern does not
   * match as a whole, with the template formatted with the input as argument 0 and the
   * pattern as argument 1.
   */
  function Pattern(p: Platform, data: MatchesData, value: Option<string>): (r: Option<Error>)
    ensures value.None? ==> r.None?
    ensures value.Some? ==> (r.None? <==> p.fullMatch(data.pattern, data.flags, value.value))
    ensures r.Some? ==> r.value == Serialization(p.format(data.failureMessage, [value.value, data.pattern]))
  {
    match value
    case None => None
    case Some(v) =>
      if p.fullMatch(data.pattern, data.flags, v) then None
      else Some(Serialization(p.format(data.failureMessage, [v, data.pattern])))
  }

  /**
   * `localizedPattern(bundle)`: the same check, with the failure template looked up in
   * the bundle under the annotation's message.
   */
  function LocalizedPattern(bundle: Localization.Bundle, p: Platform, data: MatchesData, value: Option<string>): (r: Option<Error>)
    ensures value.None? ==> r.None?
  {
    var template := Localization.Key(bundle, data.failureMessage);
    match value
    case None => None
    case Some(v) =>
      if !p.fullMatch(data.pattern, data.flags, v) then Some(Serialization(p.format(template, [v, data.pattern])))
      else None
  }

  /**
   * The localized check accepts and rejects the same values as the plain one; it differs
   * only in the template, which is the bundle's translation of the annotation's message.
   */
  lemma LocalizedIsTranslatedPattern(bundle: Localization.Bundle, p: Platform, data: MatchesData, value: Option<string>)
    ensures LocalizedPattern(bundle, p, data, value)
         == Pattern(p, data.(failureMessage := Localization.Key(bundle, data.failureMessage)), value)
    ensures LocalizedPattern(bundle, p, data, value).None? <==> Pattern(p, data, value).None?
  {
  }

  /** With the message missing from the bundle, the localized check is the plain one. */
  lemma UntranslatedMessagePassesThrough(bundle: Localization.Bundle, p: Platform, data: MatchesData, value: Option<string>)
    requires data.failureMessage !in bundle
    ensures LocalizedPattern(bundle, p, data, value) == Pattern(p, data, value)
  {
    LocalizedIsTranslatedPattern(bundle, p, data, value);
    assert data.(failureMessage := Localization.Key(bundle, data.failureMessage)) == data;
  }

  /** `@Matches` alone never demands a value: null passes every pattern. */
  lemma PatternAcceptsMissing(bundle: Localization.Bundle, p: Platform, data: MatchesData)
    ensures Pattern(p, data, None).None? && LocalizedPattern(bundle, p, data, None).None?
    ensures Required(Null).Some?
  {
  }
}

/**
 * `Processors`: how `@Comment` reaches a saved node, directly or through a resource
 * bundle. Only nodes that support comments are touched.
 */
module Processors {
  import opened Wrappers
  import opened ConfigNodes
  import Localization

  /** The attributes of `@Comment`. */
  datatype CommentData = CommentData(value: string, override: bool)

  /**
   * `comments()` applied to a destination node: `comment(value)` when overriding,
   * `commentIfAbsent(value)` otherwise; a node without comment support is left alone.
   * Nothing but the comment changes.
   */
  function Comments(data: CommentData, dest: Node): (r: Node)
    ensures r.(comment := dest.comment) == dest
    ensures !dest.commented ==> r == dest
    ensures dest.commented && data.override ==> r.comment == Some(data.value)
    ensures dest.commented && !data.override ==> r.comment == Some(dest.comment.GetOr(data.value))
  {
    if !dest.commented then dest
    else if data.override then dest.(comment := Some(data.value))
    else if dest.comment.None? then dest.(comment := Some(data.value))
    else dest
  }

  /**
   * `localizedComments(source)` applied to a destination node: the comment value is
   * translated through the bundle once, when the processor is made, and then applied
   * under the same override rule.
   */
  function LocalizedComments(source: Localization.Bundle, data: CommentData, dest: Node): (r: Node)
    ensures r.(comment := dest.comment) == dest
  {
    var translated := Localization.Key(source, data.value);
    if !dest.commented then dest
    else if data.override then dest.(comment := Some(translated))
    else if dest.comment.None? then dest.(comment := Some(translated))
    else dest
  }

  /** The localized processor is the plain one applied to the translated comment. */
  lemma LocalizedIsTranslatedComments(source: Localization.Bundle, data: CommentData, dest: Node)
    ensures LocalizedComments(source, data, dest)
         == Comments(CommentData(Localization.Key(source, data.value), data.override), dest)
  {
  }

  /** Applying a comment twice is applying it once. */
  lemma CommentsIdempotent(data: CommentData, dest: Node)
    ensures Comments(data, Comments(data, dest)) == Comments(data, dest)
  {
  }

  /** Without `override`, a comment the node already has is never replaced. */
  lemma ExistingCommentKept(data: CommentData, dest: Node)
    requires !data.override && dest.comment.Some?
    ensures Comments(data, dest) == dest
  {
  }

  /**
   * The localized-comment test: with `configurate.test.comment.one = First property` in
   * the bundle, a commented node receives "First property" for that key and the literal
   * text for a key the bundle lacks.
   */
  lemma LocalizedCommentExample(source: Localization.Bundle, dest: Node)
    requires source == map["configurate.test.comment.one" := "First property"]
    requires dest.commented && dest.comment.None?
    ensures LocalizedComments(source, CommentData("configurate.test.comment.one", false), dest).comment == Some("First property")
    ensures LocalizedComments(source, CommentData("Missing comment passthrough", false), dest).comment
         == Some("Missing comment passthrough")
  {
    Localization.CommentBundleExample(source);
  }
}

/**
 * `NodeResolvers`: the three factories that decide, from a method's annotations, which
 * node a field is read from.
 */
module NodeResolvers {
  import opened Wrappers
  import opened Java
  import opened Descriptors
  import opened ConfigNodes

  /** The node resolvers a factory can hand out. */
  datatype Resolver =
    | KeyAsValue           // a fresh root whose value is the node's key
    | SameNode             // the node itself
    | ChildAt(key: string) // the child at the given key

  datatype ResolverFactory = NodeKeyFactory | NodeFromParentFactory | KeyFromSettingFactory

  /** The order in which the mapper factory registers them. */
  const REGISTERED: seq<ResolverFactory> := [NodeKeyFactory, KeyFromSettingFactory, NodeFromParentFactory]

  /** `nodeKey()`: applies to a method marked `@NodeKey`, declines (null) otherwise. */
  function NodeKeyResolver(m: Method): (r: Option<Resolver>)
    ensures r.Some? <==> HasAnnotation(m, NodeKeyKind)
    ensures r.Some? ==> r.value == KeyAsValue
  {
    if HasAnnotation(m, NodeKeyKind) then Some(KeyAsValue) else None
  }

  /** `nodeFromParent()`: applies when the method's `@Setting` has `nodeFromParent = true`. */
  function NodeFromParentResolver(m: Method): (r: Option<Resolver>)
    ensures r.Some? <==> SettingOf(m.annotations).Some? && SettingOf(m.annotations).value.nodeFromParent
    ensures r.Some? ==> r.value == SameNode
  {
    match SettingOf(m.annotations)
    case Some(s) => if s.nodeFromParent then Some(SameNode) else None
    case None => None
  }

  /** `keyFromSetting()`: applies when the method's `@Setting` names a non-empty path. */
  function KeyFromSettingResolver(m: Method): (r: Option<Resolver>)
    ensures r.Some? <==> SettingOf(m.annotations).Some? && SettingOf(m.annotations).value.path != ""
    ensures r.Some? ==> r == Some(ChildAt(SettingOf(m.annotations).value.path))
  {
    if HasAnnotation(m, SettingKind) then
      var s := SettingOf(m.annotations);
      if s.Some? && s.value.path != "" then Some(ChildAt(s.value.path)) else None
    else None
  }

  function Make(f: ResolverFactory, m: Method): Option<Resolver> {
    match f
    case NodeKeyFactory => NodeKeyResolver(m)
    case NodeFromParentFactory => NodeFromParentResolver(m)
    case KeyFromSettingFactory => KeyFromSettingResolver(m)
  }

  /** The node each resolver picks out of the node a field's container was read from. */
  function Resolve(r: Resolver, node: Node): (n: Node)
    ensures r.KeyAsValue? ==> n.raw == node.key && n.children == map[]
    ensures r.SameNode? ==> n == node
    ensures r.ChildAt? ==> n == Child(node, r.key)
  {
    match r
    case KeyAsValue => Root(node.key)
    case SameNode => node
    case ChildAt(k) => Child(node, k)
  }

  /**
   * The node-key test: a getter marked `@NodeKey` on the node at key "test" reads "test";
   * a getter with `@Setting("something")` reads the child "something".
   */
  lemma ResolverExamples(ownKey: Method, notSomething: Method, node: Node)
    requires ownKey.annotations == [NodeKey]
    requires notSomething.annotations == [Setting("something", false)]
    requires node.key == Str("test")
    ensures NodeKeyResolver(ownKey) == Some(KeyAsValue) && Resolve(KeyAsValue, node).raw == Str("test")
    ensures KeyFromSettingResolver(notSomething) == Some(ChildAt("something"))
    ensures NodeFromParentResolver(notSomething).None? && NodeKeyResolver(notSomething).None?
  {
    assert KindOf(ownKey.annotations[0]) == NodeKeyKind;
    assert SettingOf(notSomething.annotations) == Some(Setting("something", false));
    assert KindOf(notSomething.annotations[0]) == SettingKind;
  }

  /** A method without `@NodeKey` or `@Setting` is declined by every registered factory. */
  lemma UnannotatedDeclined(m: Method)
    requires !HasAnnotation(m, NodeKeyKind) && !HasAnnotation(m, SettingKind)
    ensures forall i | 0 <= i < |REGISTERED| :: Make(REGISTERED[i], m).None?
  {
  }
}
