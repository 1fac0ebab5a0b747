/**
 * The intermediate store behind one synthesized instance: a `HashMap<String, Object>`
 * from method name to value. It is kept as a list of entries with distinct keys; the
 * list order stands for the map's iteration order, which is fixed for a given map but
 * otherwise unspecified.
 */
module Store {
  import opened Java

  datatype Entry = Entry(key: string, value: Value)

  type Store = seq<Entry>

  /** Keys are distinct, as in any `Map`. */
  predicate Valid(s: Store) {
    forall i, j | 0 <= i < j < |s| :: s[i].key != s[j].key
  }


  /** `keySet()` in iteration order. */
  function Keys(s: Store): seq<string> {
    seq(|s|, i requires 0 <= i < |s| => s[i].key)
  }

  lemma KeysCons(s: Store)
    requires |s| > 0
    ensures Keys(s) == [s[0].key] + Keys(s[1..])
  {
  }

  /** `containsKey(k)`. */
  predicate Has(s: Store, k: string) {
    k in Keys(s)
  }

  /** `get(k)`: the value stored under `k`, or `null` when `k` is absent. */
  function Get(s: Store, k: string): (v: Value)
    ensures !Has(s, k) ==> v == Null
    ensures Has(s, k) && Valid(s) ==> Entry(k, v) in s
  {
    if |s| == 0 then Null
    else
      KeysCons(s);
      if s[0].key == k then s[0].value else Get(s[1..], k)
  }

  /** `new HashMap<>()`. */
  function Empty(): (s: Store)
    ensures Valid(s) && Keys(s) == []
    ensures forall k :: !Has(s, k)
  {
    []
  }

  /**
   * `put(k, v)`: an existing entry keeps its position and takes the new value, a new key
   * is appended. `null` is stored like any other value.
   */
  function Put(s: Store, k: string, v: Value): (r: Store)
    ensures Has(r, k) && Get(r, k) == v
    ensures forall k' | k' != k :: Get(r, k') == Get(s, k')
    ensures Has(s, k) ==> Keys(r) == Keys(s)
    ensures !Has(s, k) ==> Keys(r) == Keys(s) + [k]
  {
    if |s| == 0 then
      var r := [Entry(k, v)];
      KeysCons(r);
      r
    else if s[0].key == k then
      var r := [Entry(k, v)] + s[1..];
      assert r[1..] == s[1..];
      KeysCons(r);
      KeysCons(s);
      r
    else
      var rest := Put(s[1..], k, v);
      var r := [s[0]] + rest;
      assert r[1..] == rest;
      KeysCons(r);
      KeysCons(s);
      r
  }

  /** `put` keeps keys distinct and changes no other key's presence. */
  lemma PutValid(s: Store, k: string, v: Value)
    requires Valid(s)
    ensures Valid(Put(s, k, v))
    ensures forall k' :: Has(Put(s, k, v), k') <==> Has(s, k') || k' == k
  {
    var r := Put(s, k, v);
    if !Has(s, k) {
      assert Keys(r) == Keys(s) + [k];
      forall i, j | 0 <= i < j < |r| ensures r[i].key != r[j].key {
        assert r[i].key == Keys(r)[i] && r[j].key == Keys(r)[j];
        if j == |s| {
          assert Keys(s)[i] in Keys(s);
        }
      }
    } else {
      assert Keys(r) == Keys(s);
      forall i, j | 0 <= i < j < |r| ensures r[i].key != r[j].key {
        assert r[i].key == Keys(r)[i] && r[j].key == Keys(r)[j];
        assert s[i].key == Keys(s)[i] && s[j].key == Keys(s)[j];
      }
    }
  }

  /**
   * `computeIfAbsent(k, _ -> computed)`: when `k` holds a non-null value it is returned and
   * the map is unchanged; otherwise `computed` is stored and returned, except that a
   * `null` result stores nothing.
   */
  function ComputeIfAbsent(s: Store, k: string, computed: Value): (r: (Value, Store))
    ensures Get(s, k) != Null ==> r.0 == Get(s, k) && r.1 == s
    ensures Get(s, k) == Null ==> r.0 == computed
    ensures Get(r.1, k) == r.0
    ensures forall o | o != k :: Get(r.1, o) == Get(s, o)
    ensures r.0 == Null ==> r.1 == s
    ensures Valid(s) ==> Valid(r.1)
  {
    var current := Get(s, k);
    if current != Null then (current, s)
    else if computed == Null then (Null, s)
    else
      assert Valid(s) ==> Valid(Put(s, k, computed)) by {
        if Valid(s) { PutValid(s, k, computed); }
      }
      (computed, Put(s, k, computed))
  }

  /**
   * Once `computeIfAbsent` has produced a non-null value, a second call returns that same
   * value and leaves the map as it is, whatever it would compute.
   */
  lemma ComputeIfAbsentStable(s: Store, k: string, computed: Value, again: Value)
    ensures var r := ComputeIfAbsent(s, k, computed);
      r.0 != Null ==> ComputeIfAbsent(r.1, k, again) == r
  {
  }
}
