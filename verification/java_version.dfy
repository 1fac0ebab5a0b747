/**
 * How the default-method invoker reads the running Java version from the
 * `java.specification.version` property, and which `Lookup` route it takes for it.
 */
module JavaVersion {
  import opened Wrappers
  import opened Java

  /** The two ways of obtaining a `Lookup` that may call a default method's body. */
  datatype LookupRoute =
    | LegacyConstructor   // the private `Lookup(Class)` constructor, Java 8 and lower
    | PrivateLookupIn     // `MethodHandles.privateLookupIn`, Java 9 and above

  predicate StartsWith(s: string, prefix: string) {
    |prefix| <= |s| && s[..|prefix|] == prefix
  }

  /**
   * `javaVersion()`: 6 when the property is unset; the number after `1.` for the
   * pre-9 numbering ("1.8"); the whole property parsed otherwise ("17"). A property that
   * is not a number fails as `Integer.parseInt` does.
   */
  function SpecificationVersion(property: Option<string>): (r: Result<int>)
    ensures property.None? ==> r == Ok(6)
    ensures property.Some? ==> r == ParseInt(VersionText(property.value))
    ensures r.Ok? ==> IsInt32(r.value)
    ensures r.Err? ==> property.Some? && r.error.NumberFormat?
  {
    match property
    case None => Ok(6)
    case Some(v) => ParseInt(VersionText(v))
  }

  /** The part of the property that is parsed: what follows `1.`, or all of it. */
  function VersionText(v: string): string {
    if StartsWith(v, "1.") then v[2..] else v
  }

  /**
   * A set property is a version exactly when the text after a leading `1.`, or the whole
   * property, is a numeral inside the `int` range; anything else, "9-ea" or "1." among
   * them, fails with `NumberFormatException`.
   */
  lemma SpecificationVersionSpec(v: string)
    ensures var r := SpecificationVersion(Some(v));
      && (r.Ok? <==> IsNumeral(VersionText(v)) && IsInt32(NumeralValue(VersionText(v))))
      && (r.Ok? ==> r.value == NumeralValue(VersionText(v)))
      && (r.Err? ==> r.error == NumberFormat(VersionText(v)))
  {
    ParseIntSpec(VersionText(v));
  }

  /** Versions up to 8 take the legacy constructor; later ones `privateLookupIn`. */
  function RouteFor(version: int): (r: LookupRoute)
    ensures r == LegacyConstructor <==> version <= 8
  {
    if version <= 8 then LegacyConstructor else PrivateLookupIn
  }

  /** The route `invokeDefaultMethod` takes, or the parse failure it throws first. */
  function Route(property: Option<string>): (r: Result<LookupRoute>)
    ensures r.Err? <==> SpecificationVersion(property).Err?
    ensures r.Ok? ==> r.value == RouteFor(SpecificationVersion(property).value)
  {
    match SpecificationVersion(property)
    case Ok(v) => Ok(RouteFor(v))
    case Err(e) => Err(e)
  }

  /** A plain decimal version is read back as itself: "17" gives 17. */
  lemma ModernVersionRoundTrip(n: nat)
    requires n <= INT_MAX
    ensures SpecificationVersion(Some(Decimal(n))) == Ok(n)
    ensures Route(Some(Decimal(n))) == Ok(RouteFor(n))
  {
    var d := Decimal(n);
    assert !StartsWith(d, "1.") by {
      if 2 <= |d| {
        assert IsDigit(d[1]) && d[..2][1] == d[1];
      }
    }
    ParseDecimal(n);
  }

  /** The pre-9 numbering "1.N" is read as N: "1.8" gives 8. */
  lemma LegacyVersionRoundTrip(n: nat)
    requires n <= INT_MAX
    ensures SpecificationVersion(Some("1." + Decimal(n))) == Ok(n)
    ensures Route(Some("1." + Decimal(n))) == Ok(RouteFor(n))
  {
    var v := "1." + Decimal(n);
    assert v[..2] == "1." && v[2..] == Decimal(n);
    ParseDecimal(n);
  }

  /** The versions named in the source's comments: 1.6 to 1.8 are legacy, 9 and 17 are not. */
  lemma KnownVersions()
    ensures SpecificationVersion(Some("1.8")) == Ok(8)
    ensures SpecificationVersion(Some("17")) == Ok(17)
    ensures Route(Some("1.8")) == Ok(LegacyConstructor)
    ensures Route(Some("9")) == Ok(PrivateLookupIn)
    ensures Route(None) == Ok(LegacyConstructor)
  {
    LegacyEight();
    ModernSeventeen();
    ModernVersionRoundTrip(9);
  }

  lemma LegacyEight()
    ensures SpecificationVersion(Some("1.8")) == Ok(8)
    ensures Route(Some("1.8")) == Ok(LegacyConstructor)
  {
    LegacyVersionRoundTrip(8);
    assert "1." + Decimal(8) == "1.8";
  }

  lemma ModernSeventeen()
    ensures SpecificationVersion(Some("17")) == Ok(17)
  {
    ModernVersionRoundTrip(17);
    assert Decimal(17) == Decimal(1) + [DigitChar(7)];
    assert Decimal(1) == ['1'] && DigitChar(7) == '7';
    assert Decimal(17) == "17";
  }

  /** "1." with nothing after it, and a suffixed early-access string, fail to parse. */
  lemma MalformedVersions()
    ensures SpecificationVersion(Some("1.")) == Err(NumberFormat(""))
    ensures SpecificationVersion(Some("9-ea")) == Err(NumberFormat("9-ea"))
  {
    assert "1."[2..] == "";
    var ea := "9-ea";
    assert ea[0] == '9' && ea[..2][0] == '9';
    assert !IsDigit(ea[1]);
    assert !(|ea| > 0 && (ea[0] == '-' || ea[0] == '+'));
    assert !AllDigits(ea);
  }
}
