# ZippyJSON decoder tests: structural equality of decoding failures

ZippyJSON is a fast JSON decoder for Swift. Its tests compare successful decodes
with Foundation's `JSONDecoder`, and compare thrown failures with expected
`DecodingError` values through an equality layer of their own. That equality is
deliberately loose: a key matches by its string or by its integer. This project
models that layer and proves what it does:

- coding keys: `TestCodingKey` and `JSONKey`, every initialiser (including
  `init(index:)` and `JSONKey.super`), and the protocol's `stringValue` /
  `intValue` view (a key of any other conforming type, such as a synthesized
  `CodingKeys` enum, is represented by the `JSONKey` with the same two
  properties, which are all that `keysEqual` reads), with Swift's `Int` as a 64-bit range (`CodingKeys.Int64`) and its
  `"\(n)"` rendering as a decimal numeral (`DecimalText.IntText`). The rendering
  is in canonical form (no leading zero, no `-0`) and reads back as `n`
  (`DecimalText.ParseInt`), and the canonical numeral that reads back as `n` is
  unique, so these two facts determine the rendering;
- `keysEqual`: strings equal, or the left key has an integer equal to the right
  key's integer;
- `DecodingError.Context ==`: equal path counts, then `zip` + `allSatisfy` over the
  paths with `keysEqual`, then identical messages. `zip` and `allSatisfy` are
  modelled as Swift defines them (`zip` stops at the shorter sequence);
- `DecodingError ==`: a four-way match; different kinds are unequal, the same kind
  compares the metatype (an opaque `TypeTag` compared by identity), or the key by
  `keysEqual`, and then the contexts. The source compares the right context with
  the left one (`rContext == lContext`), and the model does too;
- the failures the dictionary and array tests expect, written out as constants
  (`ExpectedErrors`), with what `==` makes of them.

Modules: `Wrappers` (Option), `DecimalText` (integer rendering), `CodingKeys`,
`DecodingErrors`, `ExpectedErrors`.

The expected missing-key message is "No value associated with a.", and the
expected failure for `{"value": {}}` decoded as `TopLevelWrapper<Test>` has the
empty path, while the one for `{"value": {"b": true}}` has the path
`["value"]`. The model shows that `==` tells these two failures apart, so the
test does check the difference.

## Model

| member | source | states |
|---|---|---|
| `DecimalText.IntText` | Tests/ZippyJSONTests/ZippyJSONDecoderTests.swift:62 | the rendering of any integer is a canonical numeral that reads back as that integer |
| `DecimalText.CanonicalTextUnique` | Tests/ZippyJSONTests/ZippyJSONDecoderTests.swift:62 | a canonical numeral that reads back as n is exactly the rendering of n |
| `DecimalText.IntTextInjective` | Tests/ZippyJSONTests/ZippyJSONDecoderTests.swift:62 | two integers are rendered as the same string exactly when they are equal |
| `DecimalText.IntTextLead` | Tests/ZippyJSONTests/ZippyJSONDecoderTests.swift:62 | a rendered integer is non-empty and starts with a digit or `-` |
| `CodingKeys.CodingKey.IntValue` | Tests/ZippyJSONTests/ZippyJSONDecoderTests.swift:13-15 | a `TestCodingKey` never has an integer; a `JSONKey` has the one it stores |
| `CodingKeys.TestCodingKeyFromString` | Tests/ZippyJSONTests/ZippyJSONDecoderTests.swift:9-15 | always succeeds, keeps the string and has no integer |
| `CodingKeys.TestCodingKeyFromInt` | Tests/ZippyJSONTests/ZippyJSONDecoderTests.swift:17-19 | always fails |
| `CodingKeys.JSONKeyFromString` | Tests/ZippyJSONTests/ZippyJSONDecoderTests.swift:56-59 | always succeeds, keeps the string and has no integer |
| `CodingKeys.JSONKeyFromInt` | Tests/ZippyJSONTests/ZippyJSONDecoderTests.swift:61-64 | always succeeds; the integer is kept and the string is a canonical numeral that reads back as it |
| `CodingKeys.JSONKeyWith` | Tests/ZippyJSONTests/ZippyJSONDecoderTests.swift:66-69 | stores the given string and optional integer |
| `CodingKeys.JSONKeyIndex` | Tests/ZippyJSONTests/ZippyJSONDecoderTests.swift:71-74 | the integer is the index; the string is `Index ` followed by a canonical numeral that reads back as the index |
| `CodingKeys.SuperKey` | Tests/ZippyJSONTests/ZippyJSONDecoderTests.swift:76 | the key "super" with no integer |
| `CodingKeys.KeysEqual` | Tests/ZippyJSONTests/ZippyJSONDecoderTests.swift:48-50 | keys are equal exactly when their strings match or both have integers and the integers agree (a symmetric reading of the left-nil test); properties in the `KeysEqual*` and `*Matches*` lemmas |
| `CodingKeys.KeysEqualReflexive` | Tests/ZippyJSONTests/ZippyJSONDecoderTests.swift:48-50 | every key equals itself |
| `CodingKeys.KeysEqualSymmetric` | Tests/ZippyJSONTests/ZippyJSONDecoderTests.swift:48-50 | key equality does not depend on argument order, although only the left integer is tested for nil |
| `CodingKeys.KeysEqualWithoutInt` | Tests/ZippyJSONTests/ZippyJSONDecoderTests.swift:48-50 | when either key has no integer, keys are equal exactly when their strings are |
| `CodingKeys.TestCodingKeysEqualIff` | Tests/ZippyJSONTests/ZippyJSONDecoderTests.swift:6-20 | two `TestCodingKey`s are equal exactly when their strings are |
| `CodingKeys.KeysEqualTransitiveWithoutInts` | Tests/ZippyJSONTests/ZippyJSONDecoderTests.swift:48-50 | among keys without integers key equality is transitive |
| `CodingKeys.IntKeysEqualIff` | Tests/ZippyJSONTests/ZippyJSONDecoderTests.swift:61-64 | keys built from integers are equal exactly when the integers are |
| `CodingKeys.IndexKeysEqualIff` | Tests/ZippyJSONTests/ZippyJSONDecoderTests.swift:71-74 | index keys are equal exactly when the indices are |
| `CodingKeys.IndexKeyMatchesIntKey` | Tests/ZippyJSONTests/ZippyJSONDecoderTests.swift:61-74 | an index key and an integer key are equal, either way round, exactly when index and integer agree |
| `CodingKeys.IndexKeyMatchesStringKey` | Tests/ZippyJSONTests/ZippyJSONDecoderTests.swift:56-74 | an index key equals a string key exactly when the string is `Index n` |
| `CodingKeys.IntKeyMatchesStringKey` | Tests/ZippyJSONTests/ZippyJSONDecoderTests.swift:56-64 | an integer key equals a string key exactly when the string is the integer's numeral |
| `CodingKeys.SuperKeyMatches` | Tests/ZippyJSONTests/ZippyJSONDecoderTests.swift:76 | `JSONKey.super` equals, either way round, exactly the keys whose string is "super" |
| `CodingKeys.KeysEqualChainBreaks` | Tests/ZippyJSONTests/ZippyJSONDecoderTests.swift:48-74 | for every n, `Index n` equals the integer key n, which equals the string key of n's numeral, yet `Index n` does not equal that string key |
| `CodingKeys.KeysEqualNotTransitive` | Tests/ZippyJSONTests/ZippyJSONDecoderTests.swift:48-50 | key equality is not transitive |
| `DecodingErrors.Zip` | Tests/ZippyJSONTests/ZippyJSONDecoderTests.swift:81 | the result is as long as the shorter path and holds the pairs of keys at equal positions |
| `DecodingErrors.AllSatisfy` | Tests/ZippyJSONTests/ZippyJSONDecoderTests.swift:81-83 | `allSatisfy` holds exactly when the closure holds of every element |
| `DecodingErrors.ZippedPathsIff` | Tests/ZippyJSONTests/ZippyJSONDecoderTests.swift:81-83 | for paths of equal length, the zipped check holds exactly when the keys agree position by position |
| `DecodingErrors.ContextsEqual` | Tests/ZippyJSONTests/ZippyJSONDecoderTests.swift:80-85 | contexts are equal exactly when their paths have equal length, agree key by key, and the messages are identical; the closure given to `allSatisfy` is `PairKeysEqual`; further properties in the `ContextsEqual*` lemmas and `ZipIgnoresLongerTail` |
| `DecodingErrors.ContextsEqualNeedsSameLength` | Tests/ZippyJSONTests/ZippyJSONDecoderTests.swift:81 | contexts whose paths differ in length are never equal |
| `DecodingErrors.ZipIgnoresLongerTail` | Tests/ZippyJSONTests/ZippyJSONDecoderTests.swift:81-83 | the zipped check alone accepts a path against any extension of it; with the count comparison the contexts are equal only when the extension is empty |
| `DecodingErrors.ContextsEqualReflexive` | Tests/ZippyJSONTests/ZippyJSONDecoderTests.swift:80-85 | every context equals itself |
| `DecodingErrors.ContextsEqualSymmetric` | Tests/ZippyJSONTests/ZippyJSONDecoderTests.swift:80-85 | context equality does not depend on argument order |
| `DecodingErrors.ErrorsEqual` | Tests/ZippyJSONTests/ZippyJSONDecoderTests.swift:23-45 | errors are equal exactly when they have the same kind, equal payloads (type identity, or key equality for `keyNotFound`) and equal contexts; further properties in the `ErrorsEqual*` and `ErrorsOfDifferentKindsDiffer` lemmas |
| `DecodingErrors.ErrorsOfDifferentKindsDiffer` | Tests/ZippyJSONTests/ZippyJSONDecoderTests.swift:23-45 | errors of different kinds are never equal |
| `DecodingErrors.ErrorsEqualNeedsSameContextShape` | Tests/ZippyJSONTests/ZippyJSONDecoderTests.swift:23-45 | errors whose paths differ in length or whose messages differ are never equal |
| `DecodingErrors.ErrorsEqualReflexive` | Tests/ZippyJSONTests/ZippyJSONDecoderTests.swift:23-45 | every error equals itself |
| `DecodingErrors.ErrorsEqualSymmetric` | Tests/ZippyJSONTests/ZippyJSONDecoderTests.swift:23-45 | error equality does not depend on argument order |
| `DecodingErrors.ErrorsEqualNotTransitive` | Tests/ZippyJSONTests/ZippyJSONDecoderTests.swift:33-36 | `keyNotFound` errors with keys `Index 0`, integer 0 and string "0" in one context form a chain that is not transitive |
| `ExpectedErrors.TopLevelMissingKeyErrorsEqual` | Tests/ZippyJSONTests/ZippyJSONDecoderTests.swift:186-187 | the expected failures for `{"b": true}` and `{}` are equal |
| `ExpectedErrors.WrappedMissingKeyErrorsDiffer` | Tests/ZippyJSONTests/ZippyJSONDecoderTests.swift:188-189 | the expected failures for `{"value": {}}` and `{"value": {"b": true}}` are unequal |
| `ExpectedErrors.PastEndErrorsDiffer` | Tests/ZippyJSONTests/ZippyJSONDecoderTests.swift:210-213 | the four expected past-the-end failures are pairwise unequal |
| `ExpectedErrors.PastEndAcceptsAnyIndexZeroKey` | Tests/ZippyJSONTests/ZippyJSONDecoderTests.swift:210 | the expected failure for `[true]` also matches a path holding the integer key 0, but not one holding the string key "0" |
| `ExpectedErrors.TypeMismatchDiffersFromOthers` | Tests/ZippyJSONTests/ZippyJSONDecoderTests.swift:186-219 | the expected type mismatch for `{"a": 1}` is unequal to every other expected failure |

## Left out

- The decoder itself (parser, document cursor, containers, strategies): ZippyJSONDecoder's source is not part of this model, so the failures it would throw are not derived, only the expected values are written out.
- `_testFailure`, `_testRoundTrip` and `assertEqualsApple`: control flow around `try`, `abort`, `fatalError` and `assert` on the external decoder.
- Fixture loading (`dataFromFile` and the lazy data properties): file-system I/O.
- `testCamelCase`, `convertKeyDecodingStrategy` and the comparisons with Foundation's `JSONDecoder`: calls into code that is not part of this model.
- `testDoubleParsing`: floating-point parsing divergence.
- `testRecursiveDecoding`: a callback that re-enters the external decoder.
- The `@unknown default` branch of `DecodingError ==`: it covers error kinds a future Swift may add; the model has exactly the four kinds there are.
- `DecodingError.Context.underlyingError` is not modelled: `Context ==` does not read it.
- String comparison: coding-key strings and messages are compared as sequences of Unicode characters, not under Swift's `String ==`, which also identifies canonically equivalent strings (a precomposed `é` and `e` followed by a combining acute accent). Keys or messages that differ only in normalisation are unequal in the model but equal in the source.
- Swift metatypes: `lType == rType` is modelled as identity of an opaque `TypeTag` name, not as real types.
