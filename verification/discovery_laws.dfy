/**
 * What discovery decides, stated without the filter chain: the ancestors it scans and
 * their order, the verdict of the default filters on one method, the `reverse`
 * combinator, and which declared methods end up as fields.
 */
module DiscoveryLaws {
  import opened Wrappers
  import opened Java
  import opened Descriptors
  import opened ProxyInstances
  import opened Discovery

  // ------------------------------------------------------------------ ancestors

  /** `a` is a super-interface of `t`, directly or through other super-interfaces. */
  predicate Reaches(t: Iface, a: Iface)
    decreases t
  {
    exists i | 0 <= i < |t.supers| :: t.supers[i] == a || Reaches(t.supers[i], a)
  }

  lemma {:induction false} AncestorsFromMembers(t: Iface, i: nat, a: Iface)
    ensures a in AncestorsFrom(t, i) <==>
      exists j | i <= j < |t.supers| :: t.supers[j] == a || a in Ancestors(t.supers[j])
    decreases |t.supers| - i
  {
    if i < |t.supers| {
      AncestorsFromMembers(t, i + 1, a);
      var head := [t.supers[i]] + Ancestors(t.supers[i]);
      assert AncestorsFrom(t, i) == head + AncestorsFrom(t, i + 1);
      assert a in head <==> t.supers[i] == a || a in Ancestors(t.supers[i]);
    }
  }

  /** `getInterfaces` returns every super-interface, direct or inherited, and nothing else. */
  lemma {:induction false} AncestorsAreReached(t: Iface, a: Iface)
    ensures a in Ancestors(t) <==> Reaches(t, a)
    decreases t
  {
    AncestorsFromMembers(t, 0, a);
    forall j | 0 <= j < |t.supers|
      ensures a in Ancestors(t.supers[j]) <==> Reaches(t.supers[j], a)
    {
      AncestorsAreReached(t.supers[j], a);
    }
  }

  /** A single super-interface is followed immediately by its own ancestors. */
  lemma SingleSuper(t: Iface)
    requires |t.supers| == 1
    ensures Ancestors(t) == [t.supers[0]] + Ancestors(t.supers[0])
  {
    assert AncestorsFrom(t, 1) == [];
  }

  const DIAMOND_A: Iface := Iface("A", [], [], None)
  const DIAMOND_B: Iface := Iface("B", [], [DIAMOND_A], None)
  const DIAMOND_C: Iface := Iface("C", [], [DIAMOND_A], None)
  const DIAMOND_D: Iface := Iface("D", [], [DIAMOND_B, DIAMOND_C], None)

  /**
   * A diamond `D extends B, C` with `B extends A` and `C extends A` is scanned as D, B,
   * A, C, A: pre-order, and `A` twice.
   */
  lemma DiamondOrder()
    ensures Hierarchy(DIAMOND_D) == [DIAMOND_D, DIAMOND_B, DIAMOND_A, DIAMOND_C, DIAMOND_A]
  {
    assert Ancestors(DIAMOND_A) == [];
    SingleSuper(DIAMOND_B);
    SingleSuper(DIAMOND_C);
    assert Ancestors(DIAMOND_B) == [DIAMOND_A];
    assert Ancestors(DIAMOND_C) == [DIAMOND_A];
    assert AncestorsFrom(DIAMOND_D, 2) == [];
    assert AncestorsFrom(DIAMOND_D, 1) == [DIAMOND_C] + Ancestors(DIAMOND_C) + AncestorsFrom(DIAMOND_D, 2);
    assert Ancestors(DIAMOND_D) == [DIAMOND_B] + Ancestors(DIAMOND_B) + AncestorsFrom(DIAMOND_D, 1);
  }

  // ------------------------------------------------------------------ filters

  /** `reverse().reverse()` agrees with the filter on every method and interface, errors included. */
  lemma DoubleReverse(f: Filter, m: Method, t: Iface, describe: Method -> string)
    ensures Test(Reverse(Reverse(f)), m, t, describe) == Test(f, m, t, describe)
  {
  }

  /** The decision of the default filters, written as one table. */
  function DefaultDecision(m: Method, t: Iface, describe: Method -> string): (r: Result<bool>)
    ensures r.Err? ==> r.error == Runtime(Serialization(ParametersMessage(describe(m))))
  {
    if m.isSynthetic || m.isStatic then Ok(true)
    else if m.isDefault && HasAnnotation(m, TransientKind) then Ok(true)
    else if |m.params| == 1 && (m.ret == Class(t.name) || m.ret == Void) then Ok(true)
    else if |m.params| != 0 && !m.isDefault then Err(Runtime(Serialization(ParametersMessage(describe(m)))))
    else Ok(false)
  }

  /**
   * The default filter chain ignores synthetic and static methods, default methods marked
   * `@Transient`, and setter-shaped methods; it rejects any other method with parameters
   * and no body, after the earlier filters have had their say; and keeps the rest.
   */
  lemma DefaultFiltersDecide(m: Method, t: Iface, describe: Method -> string)
    ensures ShouldBeIgnored(DEFAULT_FILTERS, m, t, describe) == DefaultDecision(m, t, describe)
  {
    var fs := DEFAULT_FILTERS;
    var f1, f2, f3 := fs[1..], fs[2..], fs[3..];
    assert f1 == [Reverse(Static), NotTransientDefault, AccessorShape] && f1[1..] == f2;
    assert f2 == [NotTransientDefault, AccessorShape] && f2[1..] == f3;
    assert f3 == [AccessorShape] && f3[1..] == [];
    var last := ShouldBeIgnored(f3, m, t, describe);
    assert last == match Test(AccessorShape, m, t, describe)
      case Err(e) => Err(if e.Serialization? then Runtime(e) else e)
      case Ok(keep) => if !keep then Ok(true) else Ok(false);
    assert ShouldBeIgnored(f2, m, t, describe) == if m.isDefault && HasAnnotation(m, TransientKind) then Ok(true) else last;
    assert ShouldBeIgnored(f1, m, t, describe) == if m.isStatic then Ok(true) else ShouldBeIgnored(f2, m, t, describe);
    assert ShouldBeIgnored(fs, m, t, describe) == if m.isSynthetic then Ok(true) else ShouldBeIgnored(f1, m, t, describe);
  }

  /** What becomes a field under the default filters: only methods the table keeps. */
  lemma DefaultFieldsKept(t: Iface, describe: Method -> string)
    ensures var r := Collect(DEFAULT_FILTERS, t, t.declared, describe);
      r.Ok? ==> forall f | f in r.value ::
        && !f.accessor.isSynthetic && !f.accessor.isStatic
        && !(f.accessor.isDefault && HasAnnotation(f.accessor, TransientKind))
        && (|f.accessor.params| == 0 || f.accessor.isDefault)
  {
    var r := Collect(DEFAULT_FILTERS, t, t.declared, describe);
    if r.Ok? {
      forall f | f in r.value
        ensures !f.accessor.isSynthetic && !f.accessor.isStatic
        ensures !(f.accessor.isDefault && HasAnnotation(f.accessor, TransientKind))
        ensures |f.accessor.params| == 0 || f.accessor.isDefault
      {
        DefaultFiltersDecide(f.accessor, t, describe);
      }
    }
  }

  // ------------------------------------------------------------------ collection

  /**
   * `collectMethods` fails exactly when some declared method makes a filter throw; when
   * it succeeds, a declared method becomes a field exactly when no filter ignores it.
   */
  lemma {:induction false} CollectSpec(filters: seq<Filter>, t: Iface, declared: seq<Method>, describe: Method -> string)
    ensures var r := Collect(filters, t, declared, describe);
      && (r.Ok? <==> forall i | 0 <= i < |declared| :: ShouldBeIgnored(filters, declared[i], t, describe).Ok?)
      && (r.Ok? ==> forall i | 0 <= i < |declared| ::
            FieldOf(declared[i]) in r.value <==> ShouldBeIgnored(filters, declared[i], t, describe) == Ok(false))
    decreases |declared|
  {
    if |declared| > 0 {
      CollectSpec(filters, t, declared[1..], describe);
      assert forall i | 1 <= i < |declared| :: declared[i] == declared[1..][i - 1];
      var r := Collect(filters, t, declared, describe);
      if r.Ok? {
        forall i | 0 <= i < |declared|
          ensures FieldOf(declared[i]) in r.value <==> ShouldBeIgnored(filters, declared[i], t, describe) == Ok(false)
        {
          var f := FieldOf(declared[i]);
          if f in r.value {
            assert ShouldBeIgnored(filters, f.accessor, t, describe) == Ok(false);
          }
        }
      }
    }
  }

  /**
   * `discover` on an interface collects the interface's own methods first, then those of
   * each ancestor in the pre-order of `getInterfaces`.
   */
  lemma DiscoverOrder(d: Discoverer, iface: Iface, describe: Method -> string)
    ensures var r := Discover(d, InterfaceTarget(iface), describe);
      var own := Collect(d.filters, iface, iface.declared, describe);
      var inherited := CollectAll(d.filters, Ancestors(iface), describe);
      && (r.Ok? <==> own.Ok? && inherited.Ok?)
      && (r.Ok? ==> r.value.fields == own.value + inherited.value)
  {
    var h := Hierarchy(iface);
    assert h[0] == iface && h[1..] == Ancestors(iface);
  }

  /** A class is not discovered: no fields and no factory. */
  lemma ClassNotDiscovered(d: Discoverer, name: string, describe: Method -> string)
    ensures Discover(d, ClassTarget(name), describe) == Ok(NotApplicable)
  {
  }
}
