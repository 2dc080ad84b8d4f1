/**
 * How JavaScript resolves a value used in `array[key]`: the key is turned
 * into a property name (ToPropertyKey, section 7.1.19 of ECMA-262), and the
 * name addresses an array element exactly when it is an "array index"
 * (section 6.1.7): the canonical decimal form of an integer in
 * [0, 2^32 - 2]. Every other name addresses an ordinary named property of
 * the array object. So `inv[3]` and `inv["3"]` are the same element, while
 * `inv[-1]`, `inv["03"]` and `inv[undefined]` are named properties.
 */
module JsKeys {
  import opened Basics
  import opened Protocol

  /** 2^32 - 1: array indices are below this bound. */
  const ArrayIndexBound: nat := 0x1_0000_0000 - 1

  predicate IsDigit(c: char) {
    '0' <= c <= '9'
  }

  predicate AllDigits(s: string) {
    forall i :: 0 <= i < |s| ==> IsDigit(s[i])
  }

  function DigitChar(d: nat): (c: char)
    requires d < 10
    ensures IsDigit(c) && c as int - '0' as int == d
  {
    ('0' as int + d) as char
  }

  /** The decimal numeral of `n`, without leading zeros (Number::toString for integers). */
  function NatToString(n: nat): (s: string)
    ensures |s| >= 1 && AllDigits(s)
    ensures n == 0 ==> s == "0"
    ensures n > 0 ==> s[0] != '0'
    decreases n
  {
    if n < 10 then [DigitChar(n)] else NatToString(n / 10) + [DigitChar(n % 10)]
  }

  /** The decimal numeral of an integer; negative numbers get a leading minus sign. */
  function IntToString(n: int): (s: string)
    ensures n >= 0 ==> s == NatToString(n)
    ensures n < 0 ==> |s| >= 2 && s[0] == '-'
  {
    if n < 0 then "-" + NatToString(-n) else NatToString(n)
  }

  /** The value of a string of decimal digits. */
  function DigitsValue(s: string): nat
    requires AllDigits(s)
    decreases |s|
  {
    if |s| == 0 then 0 else DigitsValue(s[..|s| - 1]) * 10 + (s[|s| - 1] as int - '0' as int)
  }

  /** A numeral as `NatToString` writes it: digits only, no leading zero unless it is "0". */
  predicate Canonical(s: string) {
    |s| >= 1 && AllDigits(s) && (s[0] == '0' ==> |s| == 1)
  }

  lemma {:induction false} DigitsValueOfNatToString(n: nat)
    ensures DigitsValue(NatToString(n)) == n
    decreases n
  {
    var s := NatToString(n);
    if n >= 10 {
      DigitsValueOfNatToString(n / 10);
      assert s[..|s| - 1] == NatToString(n / 10);
    }
  }

  lemma {:induction false} DigitsValuePositive(s: string)
    requires |s| >= 1 && AllDigits(s) && s[0] != '0'
    ensures DigitsValue(s) >= 1
    decreases |s|
  {
    if |s| > 1 {
      DigitsValuePositive(s[..|s| - 1]);
    }
  }

  lemma {:induction false} NatToStringOfDigitsValue(s: string)
    requires Canonical(s)
    ensures NatToString(DigitsValue(s)) == s
    decreases |s|
  {
    var v := DigitsValue(s);
    var last := s[|s| - 1];
    if |s| == 1 {
      assert s[..|s| - 1] == [];
      assert DigitsValue(s[..|s| - 1]) == 0;
      assert v == last as int - '0' as int;
      assert s == [last];
    } else {
      var p := s[..|s| - 1];
      assert p[0] == s[0];
      DigitsValuePositive(p);
      NatToStringOfDigitsValue(p);
      assert v / 10 == DigitsValue(p) && v % 10 == last as int - '0' as int;
      assert DigitChar(v % 10) == last;
      assert s == p + [last];
    }
  }

  /** The array index a property name denotes, if it denotes one. */
  function ArrayIndexOf(name: string): (r: Option<nat>)
    ensures r.Some? ==> r.value < ArrayIndexBound && NatToString(r.value) == name
  {
    if Canonical(name) && DigitsValue(name) < ArrayIndexBound then
      NatToStringOfDigitsValue(name);
      Some(DigitsValue(name))
    else None
  }

  /** Every index below the bound is denoted by exactly its own numeral. */
  lemma ArrayIndexOfNatToString(n: nat)
    requires n < ArrayIndexBound
    ensures ArrayIndexOf(NatToString(n)) == Some(n)
  {
    DigitsValueOfNatToString(n);
  }

  /** ToPropertyKey: the property name a scalar denotes when used as a key. */
  function PropertyName(v: JsValue): string {
    match v
    case Undefined => "undefined"
    case Null => "null"
    case Bool(b) => if b then "true" else "false"
    case Num(n) => IntToString(n)
    case Str(s) => s
  }

  /** Where `array[key]` reads or writes: an element, or a named property. */
  datatype PropertyKey = ElementKey(index: nat) | NamedKey(name: string)

  function KeyOf(v: JsValue): (k: PropertyKey)
    ensures k.ElementKey? <==> ArrayIndexOf(PropertyName(v)).Some?
    ensures k.ElementKey? ==> k.index < ArrayIndexBound && NatToString(k.index) == PropertyName(v)
    ensures k.NamedKey? ==> k.name == PropertyName(v)
  {
    match ArrayIndexOf(PropertyName(v))
    case Some(i) => ElementKey(i)
    case None => NamedKey(PropertyName(v))
  }

  /** Two keys reach the same slot exactly when they have the same property name. */
  lemma KeyOfSameName(a: JsValue, b: JsValue)
    ensures KeyOf(a) == KeyOf(b) <==> PropertyName(a) == PropertyName(b)
  {
  }

  /**
   * A number in [0, 2^32 - 2] and its numeral as a string both address that
   * element; a negative number addresses a named property.
   */
  lemma NumberKeys(n: int)
    ensures 0 <= n < ArrayIndexBound ==> KeyOf(Num(n)) == ElementKey(n) && KeyOf(Str(NatToString(n))) == ElementKey(n)
    ensures n < 0 ==> KeyOf(Num(n)) == NamedKey(IntToString(n))
  {
    if 0 <= n < ArrayIndexBound {
      ArrayIndexOfNatToString(n);
    }
    if n < 0 {
      assert !IsDigit(IntToString(n)[0]);
    }
  }
}
