/**
 * The slice of the Java platform the object-mapping core relies on: the exceptions it
 * throws or catches, the values a proxy method can return, erased types, 32-bit `int`
 * arithmetic, the `hashCode` of boxed values and strings, and `Integer.parseInt`.
 */
module Java {

  /** The exceptions of the core, with the checked/unchecked family each belongs to. */
  datatype Error =
    | NoSuchMethod(name: string)        // java.lang.NoSuchMethodException
    | Reflective(detail: string)        // any other ReflectiveOperationException
    | InvocationTarget(cause: Error)    // InvocationTargetException thrown by Method.invoke
    | IllegalState(message: string)     // IllegalStateException
    | IllegalArgument                   // IllegalArgumentException, e.g. a wrong argument count
    | Serialization(message: string)    // configurate's SerializationException
    | Runtime(cause: Error)             // a RuntimeException wrapping a checked cause
    | NumberFormat(input: string)       // NumberFormatException from Integer.parseInt
    | StackExhausted                    // StackOverflowError of unbounded re-entry

  /** True for the `ReflectiveOperationException` family. */
  predicate IsReflective(e: Error) {
    e.NoSuchMethod? || e.Reflective? || e.InvocationTarget?
  }

  /** A computation that either returns a value or throws. */
  datatype Result<+T> = Ok(value: T) | Err(error: Error)

  /** The range of a Java `int`. */
  type Int32 = x: int | INT_MIN <= x <= INT_MAX

  /** The range of a Java `long`. */
  type Int64 = x: int | -0x8000_0000_0000_0000 <= x <= 0x7fff_ffff_ffff_ffff

  /**
   * The values that flow through a proxy: `null`, a `Boolean`, an `Integer`, a `Long`, a
   * `String`, or a reference to any other object. The other boxes (`Byte`, `Short`,
   * `Character`, `Float`, `Double`) and synthesized instances are references.
   */
  datatype Value = Null | Bool(b: bool) | Int(i: Int32) | Long(l: Int64) | Str(s: string) | Ref(id: nat)

  datatype PrimKind = PBoolean | PByte | PChar | PShort | PInt | PLong | PFloat | PDouble

  /**
   * An erased Java type (`Class<?>`). `ProxyClass` is the class `java.lang.reflect.Proxy`
   * generates at run time for a list of interfaces; no declared method can name it.
   */
  datatype JType =
    | Void
    | Prim(kind: PrimKind)
    | Class(name: string)
    | ProxyClass(interfaces: seq<string>)

  const OBJECT: JType := Class("java.lang.Object")

  /** `Class.isPrimitive()`: holds for the eight primitive types and for `void`. */
  predicate IsPrimitive(t: JType) {
    t.Void? || t.Prim?
  }

  // ---------------------------------------------------------------- 32-bit ints

  const TWO_32: int := 0x1_0000_0000
  const INT_MIN: int := -0x8000_0000
  const INT_MAX: int := 0x7fff_ffff

  predicate IsInt32(x: int) {
    INT_MIN <= x <= INT_MAX
  }

  /** Two's-complement truncation of an unbounded integer to a Java `int`. */
  function Wrap32(x: int): (r: int)
    ensures IsInt32(r)
    ensures IsInt32(x) ==> r == x
  {
    (x - INT_MIN) % TWO_32 + INT_MIN
  }

  /** `a % m == b % m` for the modulus of `int` arithmetic. */
  lemma ModShift(x: int, k: int)
    ensures (x + k * TWO_32) % TWO_32 == x % TWO_32
  {
    var q := x / TWO_32;
    var r := x % TWO_32;
    assert x + k * TWO_32 == (q + k) * TWO_32 + r;
    ModUnique(x + k * TWO_32, q + k, r);
  }

  lemma ModUnique(x: int, q: int, r: int)
    requires 0 <= r < TWO_32
    requires x == q * TWO_32 + r
    ensures x % TWO_32 == r
  {
    var q' := x / TWO_32;
    var r' := x % TWO_32;
    assert (q - q') * TWO_32 == r' - r;
  }

  /** Wrapping is insensitive to adding multiples of 2^32. */
  lemma WrapShift(x: int, k: int)
    ensures Wrap32(x + k * TWO_32) == Wrap32(x)
  {
    ModShift(x - INT_MIN, k);
    assert x + k * TWO_32 - INT_MIN == (x - INT_MIN) + k * TWO_32;
  }

  /** Every integer differs from its wrapped value by a multiple of 2^32. */
  lemma WrapDecompose(x: int) returns (k: int)
    ensures x == Wrap32(x) + k * TWO_32
  {
    k := (x - INT_MIN) / TWO_32;
  }

  /**
   * One step of Java's `31 * h + e` with `int` overflow gives the same result whether
   * `h` was wrapped before the step or not.
   */
  lemma WrapMulAdd(h: int, e: int)
    ensures Wrap32(31 * Wrap32(h) + e) == Wrap32(31 * h + e)
  {
    var k := WrapDecompose(h);
    assert 31 * h + e == (31 * Wrap32(h) + e) + (31 * k) * TWO_32;
    WrapShift(31 * Wrap32(h) + e, 31 * k);
  }

  // ---------------------------------------------------------------- hashCode

  /**
   * The UTF-16 code units of one character: the character itself inside the Basic
   * Multilingual Plane, otherwise its high surrogate followed by its low surrogate.
   */
  function CodeUnits(c: char): (u: seq<int>)
    ensures |u| == 1 <==> (c as int) < 0x10000
    ensures |u| == 1 ==> u[0] == c as int
    ensures |u| != 1 ==> |u| == 2
    ensures forall i | 0 <= i < |u| :: 0 <= u[i] < 0x10000
  {
    var v := c as int;
    if v < 0x10000 then [v] else [0xD800 + (v - 0x10000) / 0x400, 0xDC00 + (v - 0x10000) % 0x400]
  }

  /**
   * Outside the Basic Multilingual Plane the two code units are a high and a low
   * surrogate, and they decode back to the character.
   */
  lemma SurrogatePair(c: char)
    requires (c as int) >= 0x10000
    ensures var u := CodeUnits(c);
      && 0xD800 <= u[0] < 0xDC00 <= u[1] < 0xE000
      && 0x10000 + (u[0] - 0xD800) * 0x400 + (u[1] - 0xDC00) == c as int
  {
  }

  /** The `char[]` of a Java string: the UTF-16 code units of its characters, in order. */
  function Utf16(s: string): (u: seq<int>)
    ensures |u| >= |s|
    ensures forall i | 0 <= i < |u| :: 0 <= u[i] < 0x10000
    ensures (forall i | 0 <= i < |s| :: (s[i] as int) < 0x10000) ==>
      |u| == |s| && forall i | 0 <= i < |s| :: u[i] == s[i] as int
    decreases |s|
  {
    if |s| == 0 then [] else Utf16(s[..|s| - 1]) + CodeUnits(s[|s| - 1])
  }

  /** The unwrapped polynomial `u[0]*31^(n-1) + ... + u[n-1]` over code units. */
  function UnitsPoly(u: seq<int>): int
    decreases |u|
  {
    if |u| == 0 then 0 else 31 * UnitsPoly(u[..|u| - 1]) + u[|u| - 1]
  }

  /** `String.hashCode()`: the polynomial over the UTF-16 code units, in `int` arithmetic. */
  function StringHash(s: string): (h: int)
    ensures IsInt32(h)
  {
    Wrap32(UnitsPoly(Utf16(s)))
  }

  /**
   * Appending one character to a string takes `String.hashCode`'s loop `h = 31 * h + c`
   * one step per code unit: one step inside the Basic Multilingual Plane, and one for each
   * surrogate outside it.
   */
  lemma {:induction false} StringHashSnoc(s: string, c: char)
    ensures (c as int) < 0x10000 ==> StringHash(s + [c]) == Wrap32(31 * StringHash(s) + c as int)
    ensures (c as int) >= 0x10000 ==>
      var u := CodeUnits(c);
      StringHash(s + [c]) == Wrap32(31 * Wrap32(31 * StringHash(s) + u[0]) + u[1])
  {
    if (c as int) < 0x10000 {
      StringHashSnocPlain(s, c);
    } else {
      var u := CodeUnits(c);
      StringHashSnocPair(s, c, u[0], u[1]);
    }
  }

  lemma StringHashSnocPlain(s: string, c: char)
    requires (c as int) < 0x10000
    ensures StringHash(s + [c]) == Wrap32(31 * StringHash(s) + c as int)
  {
    var p := UnitsPoly(Utf16(s));
    assert UnitsPoly(Utf16(s + [c])) == 31 * p + c as int by {
      Utf16Snoc(s, c);
      assert CodeUnits(c) == [c as int];
      UnitsPolySnoc(Utf16(s), c as int);
    }
    WrapMulAdd(p, c as int);
  }

  lemma StringHashSnocPair(s: string, c: char, hi: int, lo: int)
    requires CodeUnits(c) == [hi, lo]
    ensures StringHash(s + [c]) == Wrap32(31 * Wrap32(31 * StringHash(s) + hi) + lo)
  {
    Utf16Snoc(s, c);
    UnitsHashPair(Utf16(s), hi, lo);
  }

  /** Two code units appended take two wrapped `31 * h + e` steps from the wrapped hash. */
  lemma UnitsHashPair(us: seq<int>, hi: int, lo: int)
    ensures Wrap32(UnitsPoly(us + [hi, lo])) == Wrap32(31 * Wrap32(31 * Wrap32(UnitsPoly(us)) + hi) + lo)
  {
    assert us + [hi, lo] == (us + [hi]) + [lo];
    UnitsHashSnoc(us + [hi], lo);
    UnitsHashSnoc(us, hi);
  }

  /** One code unit appended takes one wrapped `31 * h + e` step from the wrapped hash. */
  lemma UnitsHashSnoc(us: seq<int>, x: int)
    ensures Wrap32(UnitsPoly(us + [x])) == Wrap32(31 * Wrap32(UnitsPoly(us)) + x)
  {
    UnitsPolySnoc(us, x);
    WrapMulAdd(UnitsPoly(us), x);
  }

  lemma Utf16Snoc(s: string, c: char)
    ensures Utf16(s + [c]) == Utf16(s) + CodeUnits(c)
  {
    assert (s + [c])[..|s|] == s;
  }

  lemma UnitsPolySnoc(u: seq<int>, x: int)
    ensures UnitsPoly(u + [x]) == 31 * UnitsPoly(u) + x
  {
    assert (u + [x])[..|u|] == u;
  }

  /**
   * A character outside the Basic Multilingual Plane hashes through its surrogate pair:
   * U+1F600 is `\uD83D\uDE00`, so its string hashes to `0xD83D * 31 + 0xDE00`.
   */
  lemma SupplementaryStringHash()
    ensures StringHash("\U{1F600}") == 0xD83D * 31 + 0xDE00 == 1772899
  {
    StringHashSnoc("", '\U{1F600}');
    assert "" + ['\U{1F600}'] == "\U{1F600}";
  }

  // ---------------------------------------------------------------- Long.hashCode

  const TWO_64: int := TWO_32 * TWO_32

  function Pow2(n: nat): (p: nat)
    ensures p >= 1
  {
    if n == 0 then 1 else 2 * Pow2(n - 1)
  }

  lemma {:induction false} Pow2Add(a: nat, b: nat)
    ensures Pow2(a + b) == Pow2(a) * Pow2(b)
    decreases a
  {
    if a > 0 {
      Pow2Add(a - 1, b);
    }
  }

  lemma Pow2Of32()
    ensures Pow2(32) == TWO_32
  {
    assert Pow2(2) == 4;
    Pow2Add(2, 2);
    Pow2Add(4, 4);
    Pow2Add(8, 8);
    Pow2Add(16, 16);
  }

  /** The exclusive or of the low `n` bits of `a` and `b`. */
  function XorBits(a: nat, b: nat, n: nat): (r: nat)
    ensures r < Pow2(n)
  {
    if n == 0 then 0 else (if a % 2 == b % 2 then 0 else 1) + 2 * XorBits(a / 2, b / 2, n - 1)
  }

  lemma {:induction false} XorZero(a: nat, n: nat)
    requires a < Pow2(n)
    ensures XorBits(a, 0, n) == a
  {
    if n > 0 {
      XorZero(a / 2, n - 1);
    }
  }

  lemma {:induction false} XorOnes(a: nat, n: nat)
    requires a < Pow2(n)
    ensures XorBits(a, Pow2(n) - 1, n) == Pow2(n) - 1 - a
  {
    if n > 0 {
      assert (Pow2(n) - 1) / 2 == Pow2(n - 1) - 1 && (Pow2(n) - 1) % 2 == 1;
      XorOnes(a / 2, n - 1);
    }
  }

  lemma DivModUnique(x: int, q: int, r: int)
    requires 0 <= r < TWO_32
    requires x == q * TWO_32 + r
    ensures x / TWO_32 == q && x % TWO_32 == r
  {
    ModUnique(x, q, r);
  }

  /**
   * `Long.hashCode(v)`, that is `(int)(v ^ (v >>> 32))`: the exclusive or of the high and
   * low 32 bits of the two's-complement `long`, read as an `int`. A non-negative value in
   * `int` range hashes to itself; a negative one to its complement, so `-1L` hashes to 0.
   */
  function LongHash(l: Int64): (h: int)
    ensures IsInt32(h)
    ensures 0 <= l <= INT_MAX ==> h == l
    ensures INT_MIN <= l < 0 ==> h == -1 - l
  {
    Pow2Of32();
    var u := if l < 0 then l + TWO_64 else l;
    var hi := u / TWO_32;
    var lo := u % TWO_32;
    assert 0 <= l <= INT_MAX ==> XorBits(lo, hi, 32) == l by {
      if 0 <= l <= INT_MAX {
        DivModUnique(u, 0, l);
        XorZero(lo, 32);
      }
    }
    assert INT_MIN <= l < 0 ==> XorBits(lo, hi, 32) == -1 - l by {
      if INT_MIN <= l < 0 {
        DivModUnique(u, TWO_32 - 1, TWO_32 + l);
        XorOnes(lo, 32);
      }
    }
    Wrap32(XorBits(lo, hi, 32))
  }

  // ---------------------------------------------------------------- Objects.hashCode

  /**
   * `Objects.hashCode(v)`: 0 for null, 1231/1237 for `Boolean`, the value for `Integer`,
   * `Long.hashCode` for `Long`, `String.hashCode` for strings; other objects hash through
   * `refHash`.
   */
  function HashOf(refHash: nat -> int, v: Value): (h: int)
    ensures IsInt32(h)
  {
    match v
    case Null => 0
    case Bool(b) => if b then 1231 else 1237
    case Int(i) => i
    case Long(l) => LongHash(l)
    case Str(s) => StringHash(s)
    case Ref(id) => Wrap32(refHash(id))
  }

  // ---------------------------------------------------------------- decimal text

  function DigitChar(d: nat): char
    requires d < 10
  {
    "0123456789"[d]
  }

  predicate IsDigit(c: char) {
    '0' <= c <= '9'
  }

  predicate AllDigits(s: string) {
    forall i | 0 <= i < |s| :: IsDigit(s[i])
  }

  /** The decimal rendering of a natural number, without sign or leading zeros. */
  function Decimal(n: nat): (s: string)
    ensures |s| > 0
    ensures forall i | 0 <= i < |s| :: IsDigit(s[i])
    decreases n
  {
    if n < 10 then [DigitChar(n)] else Decimal(n / 10) + [DigitChar(n % 10)]
  }

  /** `Integer.toString(i)` / `String.valueOf(i)`. */
  function IntToString(i: int): string {
    if i < 0 then "-" + Decimal(-i) else Decimal(i)
  }

  /** The value of a non-empty run of ASCII digits. */
  function DigitsValue(s: string): nat
    requires AllDigits(s)
    decreases |s|
  {
    if |s| == 0 then 0
    else
      var last := s[|s| - 1];
      assert IsDigit(last);
      DigitsValue(s[..|s| - 1]) * 10 + ((last as int) - ('0' as int))
  }

  /** A radix-10 numeral: an optional leading `+` or `-`, then one or more ASCII digits. */
  predicate IsNumeral(s: string) {
    && |s| > 0
    && (IsDigit(s[0]) || ((s[0] == '-' || s[0] == '+') && |s| >= 2))
    && forall i | 1 <= i < |s| :: IsDigit(s[i])
  }

  /** The integer a numeral denotes. */
  function NumeralValue(s: string): int
    requires IsNumeral(s)
  {
    assert AllDigits(s[1..]) by {
      forall i | 0 <= i < |s[1..]| ensures IsDigit(s[1..][i]) {
        assert s[1..][i] == s[i + 1];
      }
    }
    var magnitude: int := if s[0] == '-' || s[0] == '+' then DigitsValue(s[1..]) else DigitsValue(s);
    if s[0] == '-' then -magnitude else magnitude
  }

  /**
   * `Integer.parseInt(s)` in radix 10 over ASCII digits: a numeral whose value lies in the
   * `int` range reads as that value; anything else, the empty string, a lone sign, a
   * stray character or an out-of-range value, is a `NumberFormatException` naming the input.
   */
  function ParseInt(s: string): (r: Result<int>)
    ensures r.Ok? ==> IsInt32(r.value)
    ensures |s| == 0 ==> r.Err?
    ensures r.Err? ==> r.error == NumberFormat(s)
  {
    var negative := |s| > 0 && s[0] == '-';
    var signed := |s| > 0 && (s[0] == '-' || s[0] == '+');
    var digits := if signed then s[1..] else s;
    if |digits| == 0 || !AllDigits(digits) then
      Err(NumberFormat(s))
    else
      var magnitude: int := DigitsValue(digits);
      var v := if negative then -magnitude else magnitude;
      if IsInt32(v) then Ok(v) else Err(NumberFormat(s))
  }

  /**
   * What `Integer.parseInt` accepts: exactly the numerals whose value lies in the `int`
   * range, each read as that value.
   */
  lemma ParseIntSpec(s: string)
    ensures ParseInt(s).Ok? <==> IsNumeral(s) && IsInt32(NumeralValue(s))
    ensures ParseInt(s).Ok? ==> ParseInt(s).value == NumeralValue(s)
  {
    var signed := |s| > 0 && (s[0] == '-' || s[0] == '+');
    var digits := if signed then s[1..] else s;
    if IsNumeral(s) {
      assert AllDigits(digits) by {
        forall i | 0 <= i < |digits| ensures IsDigit(digits[i]) {
          if signed { assert digits[i] == s[i + 1]; }
        }
      }
    }
    if |digits| > 0 && AllDigits(digits) {
      assert IsNumeral(s) by {
        forall i | 1 <= i < |s| ensures IsDigit(s[i]) {
          if signed { assert s[i] == digits[i - 1]; } else { assert s[i] == digits[i]; }
        }
      }
    }
  }

  /** Reading back the decimal rendering of a number gives the number. */
  lemma {:induction false} DigitsValueOfDecimal(n: nat)
    ensures DigitsValue(Decimal(n)) == n
    decreases n
  {
    var s := Decimal(n);
    if n >= 10 {
      DigitsValueOfDecimal(n / 10);
      assert s[..|s| - 1] == Decimal(n / 10);
    }
  }

  /** `Integer.parseInt(Integer.toString(n)) == n` for every non-negative `int`. */
  lemma ParseDecimal(n: nat)
    requires n <= INT_MAX
    ensures ParseInt(Decimal(n)) == Ok(n)
  {
    DigitsValueOfDecimal(n);
  }
}
