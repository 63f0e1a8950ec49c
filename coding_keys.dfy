/** Coding keys as the test suite builds and compares them. A Swift `CodingKey` is
    seen through two properties, a `stringValue` and an optional `intValue`; the
    suite has two conforming types, `TestCodingKey` (which never carries an
    integer) and `JSONKey` (which stores one or not), and compares keys of any
    type with `keysEqual`. */
module CodingKeys {
  import opened Wrappers
  import DecimalText

  const MinInt: int := -0x8000_0000_0000_0000
  const MaxInt: int := 0x7FFF_FFFF_FFFF_FFFF

  /** Swift's `Int` on a 64-bit platform. */
  type Int64 = n: int | MinInt <= n <= MaxInt

  /** A value of the `CodingKey` existential, tagged by its conforming type. A key
      of any other conforming type (a synthesized `CodingKeys` enum, the decoder's
      own keys) is represented by the `JSONKey` with the same `stringValue` and
      `intValue`, the only two properties `keysEqual` reads. */
  datatype CodingKey =
    | TestCodingKey(stringValue: string)
    | JSONKey(stringValue: string, storedIntValue: Option<Int64>)
  {
    /** The protocol's `intValue`: `TestCodingKey` computes nil, `JSONKey` returns its field. */
    function IntValue(): (r: Option<Int64>)
      ensures TestCodingKey? ==> r.None?
      ensures JSONKey? ==> r == storedIntValue
    {
      match this
      case TestCodingKey(_) => None
      case JSONKey(_, i) => i
    }
  }

  /** `TestCodingKey.init?(stringValue:)`: always succeeds and carries no integer. */
  function TestCodingKeyFromString(s: string): (r: Option<CodingKey>)
    ensures r.Some? && r.value.stringValue == s && r.value.IntValue().None?
  {
    Some(TestCodingKey(s))
  }

  /** `TestCodingKey.init?(intValue:)`: always fails. */
  function TestCodingKeyFromInt(n: Int64): (r: Option<CodingKey>)
    ensures r.None?
  {
    None
  }

  /** `JSONKey.init?(stringValue:)`: always succeeds and carries no integer. */
  function JSONKeyFromString(s: string): (r: Option<CodingKey>)
    ensures r.Some? && r.value.stringValue == s && r.value.IntValue().None?
  {
    Some(JSONKey(s, None))
  }

  /** `JSONKey.init?(intValue:)`: always succeeds; the string is the decimal
      numeral of the integer in Swift's form, so it reads back as that integer. */
  function JSONKeyFromInt(n: Int64): (r: Option<CodingKey>)
    ensures r.Some? && r.value.IntValue() == Some(n)
    ensures DecimalText.IsCanonical(r.value.stringValue)
    ensures DecimalText.ParseInt(r.value.stringValue) == Some(n as int)
  {
    Some(JSONKey(DecimalText.IntText(n), Some(n)))
  }

  /** `JSONKey.init(stringValue:intValue:)`: stores both parts as given. */
  function JSONKeyWith(s: string, i: Option<Int64>): (r: CodingKey)
    ensures r.stringValue == s && r.IntValue() == i
  {
    JSONKey(s, i)
  }

  const IndexPrefix: string := "Index "

  /** `JSONKey.init(index:)`: the string is `Index ` followed by the numeral of the
      index in Swift's form, which reads back as the index; the integer is the index. */
  function JSONKeyIndex(n: Int64): (r: CodingKey)
    ensures r.IntValue() == Some(n)
    ensures |r.stringValue| > |IndexPrefix| && r.stringValue[..|IndexPrefix|] == IndexPrefix
    ensures DecimalText.IsCanonical(r.stringValue[|IndexPrefix|..])
    ensures DecimalText.ParseInt(r.stringValue[|IndexPrefix|..]) == Some(n as int)
  {
    DecimalText.IntTextLead(n);
    var s := IndexPrefix + DecimalText.IntText(n);
    assert s[|IndexPrefix|..] == DecimalText.IntText(n);
    JSONKey(s, Some(n))
  }

  /** `JSONKey.super`: the key "super" without an integer. */
  function SuperKey(): (r: CodingKey)
    ensures r.stringValue == "super" && r.IntValue().None?
  {
    JSONKeyFromString("super").value
  }

  /** `keysEqual`: the strings match, or the left key has an integer and the right
      key has the same one; that is, both keys have integers and they agree. */
  predicate KeysEqual(lhs: CodingKey, rhs: CodingKey): (r: bool)
    ensures r <==>
      || lhs.stringValue == rhs.stringValue
      || (lhs.IntValue().Some? && rhs.IntValue().Some? && lhs.IntValue().value == rhs.IntValue().value)
  {
    lhs.stringValue == rhs.stringValue || (lhs.IntValue() != None && lhs.IntValue() == rhs.IntValue())
  }

  lemma KeysEqualReflexive(k: CodingKey)
    ensures KeysEqual(k, k)
  {
  }

  lemma KeysEqualSymmetric(a: CodingKey, b: CodingKey)
    ensures KeysEqual(a, b) <==> KeysEqual(b, a)
  {
  }

  /** When either key has no integer, only the strings decide. */
  lemma KeysEqualWithoutInt(a: CodingKey, b: CodingKey)
    requires a.IntValue().None? || b.IntValue().None?
    ensures KeysEqual(a, b) <==> a.stringValue == b.stringValue
  {
  }

  /** Two `TestCodingKey`s are equal exactly when their strings are. */
  lemma TestCodingKeysEqualIff(s: string, t: string)
    ensures KeysEqual(TestCodingKeyFromString(s).value, TestCodingKeyFromString(t).value) <==> s == t
  {
    KeysEqualWithoutInt(TestCodingKeyFromString(s).value, TestCodingKeyFromString(t).value);
  }

  /** Among keys without integers (every `TestCodingKey`), `keysEqual` is transitive. */
  lemma KeysEqualTransitiveWithoutInts(a: CodingKey, b: CodingKey, c: CodingKey)
    requires a.IntValue().None? && b.IntValue().None? && c.IntValue().None?
    requires KeysEqual(a, b) && KeysEqual(b, c)
    ensures KeysEqual(a, c)
  {
  }

  /** Keys made from integers are equal exactly when the integers are. */
  lemma IntKeysEqualIff(m: Int64, n: Int64)
    ensures KeysEqual(JSONKeyFromInt(m).value, JSONKeyFromInt(n).value) <==> m == n
  {
    DecimalText.IntTextInjective(m, n);
  }

  /** Index keys are equal exactly when the indices are. */
  lemma IndexKeysEqualIff(m: Int64, n: Int64)
    ensures KeysEqual(JSONKeyIndex(m), JSONKeyIndex(n)) <==> m == n
  {
  }

  /** An index key equals the key made from an integer exactly when index and
      integer agree: the strings never match, since a numeral does not start
      with `I`. */
  lemma IndexKeyMatchesIntKey(m: Int64, n: Int64)
    ensures KeysEqual(JSONKeyIndex(m), JSONKeyFromInt(n).value) <==> m == n
    ensures KeysEqual(JSONKeyFromInt(n).value, JSONKeyIndex(m)) <==> m == n
  {
    DecimalText.IntTextLead(n);
    assert JSONKeyIndex(m).stringValue[0] == 'I';
  }

  /** A key made from a string has no integer, so it matches an index key only
      through the string `Index n`. */
  lemma IndexKeyMatchesStringKey(n: Int64, s: string)
    ensures KeysEqual(JSONKeyIndex(n), JSONKeyFromString(s).value) <==> s == IndexPrefix + DecimalText.IntText(n)
  {
  }

  /** A key made from a string matches a key made from an integer only through the numeral. */
  lemma IntKeyMatchesStringKey(n: Int64, s: string)
    ensures KeysEqual(JSONKeyFromInt(n).value, JSONKeyFromString(s).value) <==> s == DecimalText.IntText(n)
  {
  }

  /** `JSONKey.super` matches exactly the keys whose string is "super". */
  lemma SuperKeyMatches(k: CodingKey)
    ensures KeysEqual(SuperKey(), k) <==> k.stringValue == "super"
    ensures KeysEqual(k, SuperKey()) <==> k.stringValue == "super"
  {
    KeysEqualWithoutInt(SuperKey(), k);
    KeysEqualWithoutInt(k, SuperKey());
  }

  /** For every index `n`: `Index n` equals the integer key `n`, which equals the
      string key of `n`'s numeral, but `Index n` does not equal that string key. */
  lemma KeysEqualChainBreaks(n: Int64)
    ensures KeysEqual(JSONKeyIndex(n), JSONKeyFromInt(n).value)
    ensures KeysEqual(JSONKeyFromInt(n).value, JSONKeyFromString(DecimalText.IntText(n)).value)
    ensures !KeysEqual(JSONKeyIndex(n), JSONKeyFromString(DecimalText.IntText(n)).value)
  {
    var t := DecimalText.IntText(n);
    assert |JSONKeyIndex(n).stringValue| == |IndexPrefix| + |t|;
  }

  /** `keysEqual` is not transitive. */
  lemma KeysEqualNotTransitive()
    ensures exists a, b, c :: KeysEqual(a, b) && KeysEqual(b, c) && !KeysEqual(a, c)
  {
    KeysEqualChainBreaks(0);
    var a, b, c := JSONKeyIndex(0), JSONKeyFromInt(0).value, JSONKeyFromString(DecimalText.IntText(0)).value;
    assert KeysEqual(a, b) && KeysEqual(b, c) && !KeysEqual(a, c);
  }
}
