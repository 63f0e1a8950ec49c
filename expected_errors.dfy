/** The failures the dictionary and array tests expect, written out as values, and
    what `DecodingError ==` makes of them. */
module ExpectedErrors {
  import opened CodingKeys
  import opened DecodingErrors

  const NoValueForA: string := "No value associated with a."
  const UnkeyedAtEnd: string := "Cannot get next value -- unkeyed container is at end."
  const NotAnArray: string := "Tried to unbox array, but it wasn't an array"

  const AnyType: TypeTag := TypeTag("Any")
  const AnyArrayType: TypeTag := TypeTag("[Any]")

  const KeyA: CodingKey := JSONKeyFromString("a").value
  const KeyValue: CodingKey := JSONKeyFromString("value").value

  /** `{"b": true}` decoded as `Test`. */
  const MissingAInObject: DecodingError := KeyNotFound(KeyA, Context([], NoValueForA))
  /** `{}` decoded as `Test`. */
  const MissingAInEmptyObject: DecodingError := KeyNotFound(KeyA, Context([], NoValueForA))
  /** `{"value": {}}` decoded as `TopLevelWrapper<Test>`. */
  const MissingAInWrappedEmptyObject: DecodingError := KeyNotFound(KeyA, Context([], NoValueForA))
  /** `{"value": {"b": true}}` decoded as `TopLevelWrapper<Test>`. */
  const MissingAInWrappedObject: DecodingError := KeyNotFound(KeyA, Context([KeyValue], NoValueForA))

  /** `[true]` decoded as the two-field `Test`: the index frame is kept. */
  const PastEndOfOneElement: DecodingError := ValueNotFound(AnyType, Context([JSONKeyIndex(0)], UnkeyedAtEnd))
  /** `[]` decoded as the two-field `Test`: no index frame. */
  const PastEndOfEmpty: DecodingError := ValueNotFound(AnyType, Context([], UnkeyedAtEnd))
  /** `{"value": [true]}` decoded as `TopLevelWrapper<Test>`. */
  const PastEndOfWrappedOneElement: DecodingError :=
    ValueNotFound(AnyType, Context([KeyValue, JSONKeyIndex(0)], UnkeyedAtEnd))
  /** `{"value": []}` decoded as `TopLevelWrapper<Test>`. */
  const PastEndOfWrappedEmpty: DecodingError := ValueNotFound(AnyType, Context([KeyValue], UnkeyedAtEnd))
  /** `{"a": 1}` decoded as `[Int]`. */
  const ObjectForArray: DecodingError := TypeMismatch(AnyArrayType, Context([KeyA], NotAnArray))

  /** The two top-level dictionary failures are the same error. */
  lemma TopLevelMissingKeyErrorsEqual()
    ensures ErrorsEqual(MissingAInObject, MissingAInEmptyObject)
    ensures ErrorsEqual(MissingAInEmptyObject, MissingAInObject)
  {
    ErrorsEqualReflexive(MissingAInObject);
  }

  /** The two wrapped dictionary failures differ: their paths are `[]` and `["value"]`. */
  lemma WrappedMissingKeyErrorsDiffer()
    ensures !ErrorsEqual(MissingAInWrappedEmptyObject, MissingAInWrappedObject)
    ensures !ErrorsEqual(MissingAInWrappedObject, MissingAInWrappedEmptyObject)
  {
    ErrorsEqualNeedsSameContextShape(MissingAInWrappedEmptyObject, MissingAInWrappedObject);
    ErrorsEqualNeedsSameContextShape(MissingAInWrappedObject, MissingAInWrappedEmptyObject);
  }

  /** The four past-the-end failures are pairwise distinct. */
  lemma PastEndErrorsDiffer()
    ensures !ErrorsEqual(PastEndOfOneElement, PastEndOfEmpty)
    ensures !ErrorsEqual(PastEndOfWrappedOneElement, PastEndOfWrappedEmpty)
    ensures !ErrorsEqual(PastEndOfOneElement, PastEndOfWrappedOneElement)
    ensures !ErrorsEqual(PastEndOfEmpty, PastEndOfWrappedEmpty)
    ensures !ErrorsEqual(PastEndOfOneElement, PastEndOfWrappedEmpty)
    ensures !ErrorsEqual(PastEndOfEmpty, PastEndOfWrappedOneElement)
  {
  }

  /** A past-the-end failure whose path names index 0 by any key with integer 0
      (here the integer key, whose string is "0") is accepted as the expected one. */
  lemma PastEndAcceptsAnyIndexZeroKey()
    ensures ErrorsEqual(PastEndOfOneElement, ValueNotFound(AnyType, Context([JSONKeyFromInt(0).value], UnkeyedAtEnd)))
    ensures ErrorsEqual(ValueNotFound(AnyType, Context([JSONKeyFromInt(0).value], UnkeyedAtEnd)), PastEndOfOneElement)
    ensures !ErrorsEqual(PastEndOfOneElement, ValueNotFound(AnyType, Context([JSONKeyFromString("0").value], UnkeyedAtEnd)))
  {
    var e := ValueNotFound(AnyType, Context([JSONKeyFromInt(0).value], UnkeyedAtEnd));
    var s := ValueNotFound(AnyType, Context([JSONKeyFromString("0").value], UnkeyedAtEnd));
    KeysEqualChainBreaks(0);
    assert DecimalText.IntText(0) == "0";
  }

  /** The type-mismatch failure differs from every other expected failure by kind. */
  lemma TypeMismatchDiffersFromOthers(e: DecodingError)
    requires e in [MissingAInObject, MissingAInEmptyObject, MissingAInWrappedEmptyObject, MissingAInWrappedObject,
                   PastEndOfOneElement, PastEndOfEmpty, PastEndOfWrappedOneElement, PastEndOfWrappedEmpty]
    ensures !ErrorsEqual(ObjectForArray, e) && !ErrorsEqual(e, ObjectForArray)
  {
    ErrorsOfDifferentKindsDiffer(ObjectForArray, e);
    ErrorsOfDifferentKindsDiffer(e, ObjectForArray);
  }
}
