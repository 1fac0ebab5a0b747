/**
 * The part of a configuration node tree the core touches: a node's key and scalar value,
 * its children by key, and its comment where the node kind supports comments. A child
 * that is absent from the map is virtual: asking for it yields a detached empty node.
 */
module ConfigNodes {
  import opened Wrappers
  import opened Java

  datatype Node = Node(
    key: Value,                  // `key()`: null for a root, the child's key otherwise
    raw: Value,                  // `raw()`: the scalar value, null when none
    children: map<string, Node>, // the attached children by key
    comment: Option<string>,     // `comment()` of a commented node
    commented: bool)             // whether the node is a commented node

  /** `BasicConfigurationNode.root()`: a root without value, children or comment support. */
  function Root(raw: Value): (n: Node)
    ensures n.key == Null && n.raw == raw && n.children == map[]
    ensures !n.commented && n.comment == None
  {
    Node(Null, raw, map[], None, false)
  }

  /** `node(key)`: the attached child, or a virtual one of the same node kind. */
  function Child(n: Node, k: string): (c: Node)
    ensures k in n.children ==> c == n.children[k]
    ensures k !in n.children ==> c.key == Str(k) && c.raw == Null && c.children == map[] && c.comment == None
  {
    if k in n.children then n.children[k] else Node(Str(k), Null, map[], None, n.commented)
  }

  /** `node(key).virtual()`. */
  predicate IsVirtualChild(n: Node, k: string) {
    k !in n.children
  }

  /** `node(key).set(v)` for a scalar: a null value detaches the child. */
  function SetChild(n: Node, k: string, v: Value): (r: Node)
    ensures r.key == n.key && r.raw == n.raw && r.comment == n.comment && r.commented == n.commented
    ensures v != Null ==> k in r.children && r.children[k].raw == v
    ensures v == Null ==> k !in r.children
    ensures forall o | o != k :: (o in r.children <==> o in n.children) && (o in n.children ==> r.children[o] == n.children[o])
  {
    if v == Null then n.(children := n.children - {k})
    else n.(children := n.children[k := Child(n, k).(raw := v, children := map[])])
  }

  /** `getString()`: the scalar rendered as a string, or none for a null value. */
  function ScalarString(v: Value): (r: Option<string>)
    ensures r.None? <==> v.Null? || v.Ref?
    ensures v.Str? ==> r == Some(v.s)
  {
    match v
    case Null => None
    case Bool(b) => Some(if b then "true" else "false")
    case Int(i) => Some(IntToString(i))
    case Long(l) => Some(IntToString(l))
    case Str(s) => Some(s)
    case Ref(_) => None
  }
}
