/**
 * Laws of the synthesized fallbacks, stated independently of dispatch: what the
 * containment test of `equals` decides, the `int` arithmetic of `hashCode` as a loop,
 * and the shape of the `toString` text.
 */
module InvokerLaws {
  import opened Wrappers
  import opened Java
  import opened Descriptors
  import opened Store
  import opened MethodInvokers

  // ------------------------------------------------------------------ equals

  /** `list.contains(v)` is membership. */
  lemma {:induction false} ContainsSpec(xs: seq<Value>, v: Value)
    ensures Contains(xs, v) <==> v in xs
    decreases |xs|
  {
    if |xs| > 0 {
      ContainsSpec(xs[1..], v);
      assert xs == [xs[0]] + xs[1..];
    }
  }

  /** `xs.containsAll(ys)` is inclusion of the elements of `ys` in `xs`. */
  lemma {:induction false} ContainsAllSpec(xs: seq<Value>, ys: seq<Value>)
    ensures ContainsAll(xs, ys) <==> forall i | 0 <= i < |ys| :: ys[i] in xs
    decreases |ys|
  {
    if |ys| > 0 {
      ContainsSpec(xs, ys[0]);
      ContainsAllSpec(xs, ys[1..]);
      assert forall i | 1 <= i < |ys| :: ys[i] == ys[1..][i - 1];
    }
  }

  /**
   * The comparison of the synthesized `equals` holds exactly for lists of equal length
   * holding the same elements, with no regard to order or to how often each occurs.
   */
  lemma SameFieldValuesSpec(xs: seq<Value>, ys: seq<Value>)
    ensures SameFieldValues(xs, ys) <==> |xs| == |ys| && forall v :: v in xs <==> v in ys
  {
    ContainsAllSpec(xs, ys);
    ContainsAllSpec(ys, xs);
    if |xs| == |ys| && (forall v :: v in xs <==> v in ys) {
      assert forall i | 0 <= i < |ys| :: ys[i] in xs;
      assert forall i | 0 <= i < |xs| :: xs[i] in ys;
    }
    if SameFieldValues(xs, ys) {
      forall v ensures v in xs <==> v in ys {
        if v in xs {
          var i :| 0 <= i < |xs| && xs[i] == v;
        }
        if v in ys {
          var i :| 0 <= i < |ys| && ys[i] == v;
        }
      }
    }
  }

  /** The comparison is an equivalence relation. */
  lemma SameFieldValuesEquivalence(xs: seq<Value>, ys: seq<Value>, zs: seq<Value>)
    ensures SameFieldValues(xs, xs)
    ensures SameFieldValues(xs, ys) ==> SameFieldValues(ys, xs)
    ensures SameFieldValues(xs, ys) && SameFieldValues(ys, zs) ==> SameFieldValues(xs, zs)
  {
    SameFieldValuesSpec(xs, xs);
    SameFieldValuesSpec(xs, ys);
    SameFieldValuesSpec(ys, xs);
    SameFieldValuesSpec(ys, zs);
    SameFieldValuesSpec(xs, zs);
  }

  /**
   * Equal-length lists with the same elements need not be permutations of each other:
   * [1, 1, 2] and [1, 2, 2] compare equal.
   */
  lemma DuplicatesCompareEqual()
    ensures SameFieldValues([Int(1), Int(1), Int(2)], [Int(1), Int(2), Int(2)])
    ensures multiset([Int(1), Int(1), Int(2)]) != multiset([Int(1), Int(2), Int(2)])
  {
    var xs := [Int(1), Int(1), Int(2)];
    var ys := [Int(1), Int(2), Int(2)];
    SameFieldValuesSpec(xs, ys);
    forall v ensures v in xs <==> v in ys {
      assert v in xs <==> v == Int(1) || v == Int(2);
      assert v in ys <==> v == Int(1) || v == Int(2);
    }
    assert multiset(xs)[Int(1)] == 2;
    assert multiset(ys)[Int(1)] == 1;
  }

  // ------------------------------------------------------------------ hashCode

  lemma ListPolySnoc(refHash: nat -> int, xs: seq<Value>, i: nat)
    requires i < |xs|
    ensures ListPoly(refHash, xs[..i + 1]) == 31 * ListPoly(refHash, xs[..i]) + HashOf(refHash, xs[i])
  {
    assert xs[..i + 1][..i] == xs[..i];
  }

  /**
   * `List.hashCode()` as Java computes it: `h = 31 * h + hash(e)` from `h = 1`, wrapping
   * to `int` at every step. The result is the unbounded polynomial, wrapped once.
   */
  method ListHashCode(refHash: nat -> int, xs: seq<Value>) returns (h: int)
    ensures IsInt32(h)
    ensures h == Wrap32(ListPoly(refHash, xs))
  {
    h := 1;
    var i := 0;
    while i < |xs|
      invariant 0 <= i <= |xs|
      invariant h == Wrap32(ListPoly(refHash, xs[..i]))
    {
      WrapMulAdd(ListPoly(refHash, xs[..i]), HashOf(refHash, xs[i]));
      ListPolySnoc(refHash, xs, i);
      h := Wrap32(31 * h + HashOf(refHash, xs[i]));
      i := i + 1;
    }
    assert xs[..i] == xs;
  }

  /** `Objects.hash(list)`: `31 * 1 + list.hashCode()` in `int` arithmetic. */
  method ObjectsHash(refHash: nat -> int, xs: seq<Value>) returns (h: int)
    ensures IsInt32(h)
    ensures h == ObjectsHashOfList(refHash, xs)
  {
    var listHash := ListHashCode(refHash, xs);
    h := Wrap32(31 * 1 + listHash);
  }

  /** The hash of the empty value list, as for an instance with nothing stored. */
  lemma EmptyHash(refHash: nat -> int)
    ensures ObjectsHashOfList(refHash, []) == 32
  {
  }

  // ------------------------------------------------------------------ toString

  /** Every part of a joined string occurs in it, between the parts before and after it. */
  lemma {:induction false} JoinContains(sep: string, parts: seq<string>, i: nat)
    requires i < |parts|
    ensures exists before, after :: Join(sep, parts) == before + parts[i] + after
    decreases |parts|
  {
    if |parts| == 1 {
      assert Join(sep, parts) == "" + parts[0] + "";
    } else if i == 0 {
      assert Join(sep, parts) == "" + parts[0] + (sep + Join(sep, parts[1..]));
    } else {
      JoinContains(sep, parts[1..], i - 1);
      var before, after :| Join(sep, parts[1..]) == before + parts[1..][i - 1] + after;
      assert Join(sep, parts) == (parts[0] + sep + before) + parts[i] + after;
    }
  }

  /**
   * The synthesized `toString` shows the interfaces in brackets, then braces holding
   * `key=value` for every stored entry.
   */
  lemma ToStringListsEntries(show: nat -> string, ifaces: seq<Iface>, s: Store, k: nat)
    requires k < |s|
    ensures var text := ToStringFallback(show, ifaces, s);
      exists before, after ::
        text == ClassArrayString(ifaces) + "{" + (before + (s[k].key + "=" + Render(show, s[k].value)) + after) + "}"
  {
    var parts := EntryStrings(show, s);
    JoinContains(", ", parts, k);
    var before, after :| Join(", ", parts) == before + parts[k] + after;
    assert ToStringFallback(show, ifaces, s)
        == ClassArrayString(ifaces) + "{" + (before + (s[k].key + "=" + Render(show, s[k].value)) + after) + "}";
  }

  const STUDENT_NAME: string := "com.bivashy.configurate.ObjectContractTest$StudentWithoutClass"

  const STUDENT_WITHOUT_CLASS: Iface := Iface(
    STUDENT_NAME,
    [Method("name", STUDENT_NAME, [], Class("java.lang.String"), false, false, false, []),
     Method("age", STUDENT_NAME, [], Prim(PInt), false, false, false, [])],
    [], None)

  lemma StudentEntries(show: nat -> string)
    ensures Join(", ", EntryStrings(show, [Entry("name", Str("Ben")), Entry("age", Int(17))])) == "name=Ben, age=17"
  {
    var s := [Entry("name", Str("Ben")), Entry("age", Int(17))];
    assert IntToString(17) == "17" by {
      assert Decimal(17) == Decimal(1) + [DigitChar(7)];
    }
    var parts := EntryStrings(show, s);
    assert parts[0] == "name=Ben";
    assert parts[1] == "age=17";
    assert parts[1..] == ["age=17"];
  }

  /**
   * The rendering the object-contract test expects for a student named Ben, aged 17:
   * `[interface com.bivashy.configurate.ObjectContractTest$StudentWithoutClass]{name=Ben, age=17}`.
   */
  lemma StudentToString(show: nat -> string)
    ensures ToStringFallback(show, [STUDENT_WITHOUT_CLASS], [Entry("name", Str("Ben")), Entry("age", Int(17))])
         == "[" + ("interface " + STUDENT_NAME) + "]" + "{" + "name=Ben, age=17" + "}"
  {
    StudentEntries(show);
    assert ClassStrings([STUDENT_WITHOUT_CLASS]) == ["interface " + STUDENT_NAME];
  }
}
