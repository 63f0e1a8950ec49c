/** The structural equality the test suite adds to `DecodingError` and to its
    `Context`, so that a thrown failure can be compared with the expected one. */
module DecodingErrors {
  import opened CodingKeys

  /** `DecodingError.Context`: the coding path at the failure and its message. */
  datatype Context = Context(codingPath: seq<CodingKey>, debugDescription: string)

  /** A Swift metatype such as `Any.self`, compared only for identity. */
  datatype TypeTag = TypeTag(name: string)

  /** The four kinds of `DecodingError`, each with its payload and context. */
  datatype DecodingError =
    | TypeMismatch(expectedType: TypeTag, context: Context)
    | ValueNotFound(expectedType: TypeTag, context: Context)
    | KeyNotFound(key: CodingKey, context: Context)
    | DataCorrupted(context: Context)

  /** Swift's `zip`: pairs up the elements at equal positions and stops at the
      end of the shorter sequence. */
  function Zip<A, B>(xs: seq<A>, ys: seq<B>): (r: seq<(A, B)>)
    ensures |r| == if |xs| <= |ys| then |xs| else |ys|
    ensures forall i :: 0 <= i < |r| ==> r[i] == (xs[i], ys[i])
    decreases |xs|
  {
    if |xs| == 0 || |ys| == 0 then [] else [(xs[0], ys[0])] + Zip(xs[1..], ys[1..])
  }

  /** Swift's `allSatisfy`: checks the elements front to back, and holds exactly
      when the closure holds of every element. */
  predicate AllSatisfy<T>(xs: seq<T>, p: T -> bool): (r: bool)
    ensures r <==> forall i :: 0 <= i < |xs| ==> p(xs[i])
    decreases |xs|
  {
    assert forall i :: 1 <= i < |xs| ==> xs[i] == xs[1..][i - 1];
    |xs| == 0 || (p(xs[0]) && AllSatisfy(xs[1..], p))
  }

  /** The closure handed to `allSatisfy`. */
  predicate PairKeysEqual(pair: (CodingKey, CodingKey)) {
    KeysEqual(pair.0, pair.1)
  }

  /** `Context ==`: the same number of path keys, pairwise `keysEqual` as `zip`
      and `allSatisfy` check them, and the same message. So contexts are equal
      exactly when their paths agree key by key and their messages are identical. */
  predicate ContextsEqual(lhs: Context, rhs: Context): (r: bool)
    ensures r <==> PathsPairwiseEqual(lhs.codingPath, rhs.codingPath) && lhs.debugDescription == rhs.debugDescription
  {
    ZippedPathsIff(lhs.codingPath, rhs.codingPath);
    var pathsEqual := |lhs.codingPath| == |rhs.codingPath| && AllSatisfy(Zip(lhs.codingPath, rhs.codingPath), PairKeysEqual);
    pathsEqual && lhs.debugDescription == rhs.debugDescription
  }

  /** Two paths agree key by key. */
  ghost predicate PathsPairwiseEqual(p: seq<CodingKey>, q: seq<CodingKey>) {
    |p| == |q| && forall i :: 0 <= i < |p| ==> KeysEqual(p[i], q[i])
  }

  /** For paths of equal length, the zipped check holds exactly when the keys
      agree position by position. */
  lemma ZippedPathsIff(p: seq<CodingKey>, q: seq<CodingKey>)
    ensures |p| == |q| ==> (AllSatisfy(Zip(p, q), PairKeysEqual) <==> PathsPairwiseEqual(p, q))
  {
    var z := Zip(p, q);
    assert forall i :: 0 <= i < |z| ==> (PairKeysEqual(z[i]) <==> KeysEqual(p[i], q[i]));
  }

  /** Contexts whose paths differ in length are never equal, whatever their messages. */
  lemma ContextsEqualNeedsSameLength(lhs: Context, rhs: Context)
    requires |lhs.codingPath| != |rhs.codingPath|
    ensures !ContextsEqual(lhs, rhs)
  {
  }

  /** Without the count comparison, `zip` alone would accept a path against any
      extension of it: a longer path is cut off before `allSatisfy` sees it. */
  lemma ZipIgnoresLongerTail(p: seq<CodingKey>, tail: seq<CodingKey>, m: string)
    ensures AllSatisfy(Zip(p, p + tail), PairKeysEqual)
    ensures ContextsEqual(Context(p, m), Context(p + tail, m)) <==> tail == []
  {
    var z := Zip(p, p + tail);
    assert forall i :: 0 <= i < |z| ==> z[i] == (p[i], p[i]);
  }

  lemma ContextsEqualReflexive(c: Context)
    ensures ContextsEqual(c, c)
  {
    forall i | 0 <= i < |c.codingPath| ensures KeysEqual(c.codingPath[i], c.codingPath[i]) {
      KeysEqualReflexive(c.codingPath[i]);
    }
  }

  lemma ContextsEqualSymmetric(a: Context, b: Context)
    ensures ContextsEqual(a, b) <==> ContextsEqual(b, a)
  {
    forall i | 0 <= i < |a.codingPath| && i < |b.codingPath|
      ensures KeysEqual(a.codingPath[i], b.codingPath[i]) <==> KeysEqual(b.codingPath[i], a.codingPath[i])
    {
      KeysEqualSymmetric(a.codingPath[i], b.codingPath[i]);
    }
  }

  /** `DecodingError ==`: errors of different kinds are never equal; errors of the
      same kind compare their type (or, for `keyNotFound`, their key by
      `keysEqual`) and then the right context against the left one. So errors are
      equal exactly when they are of the same kind with equal payloads and equal
      contexts. */
  predicate ErrorsEqual(lhs: DecodingError, rhs: DecodingError): (r: bool)
    ensures r <==> Kind(lhs) == Kind(rhs) && PayloadsEqual(lhs, rhs) && ContextsEqual(lhs.context, rhs.context)
  {
    ContextsEqualSymmetric(lhs.context, rhs.context);
    match lhs
    case TypeMismatch(lType, lContext) =>
      (match rhs
       case TypeMismatch(rType, rContext) => lType == rType && ContextsEqual(rContext, lContext)
       case _ => false)
    case ValueNotFound(lType, lContext) =>
      (match rhs
       case ValueNotFound(rType, rContext) => lType == rType && ContextsEqual(rContext, lContext)
       case _ => false)
    case KeyNotFound(lKey, lContext) =>
      (match rhs
       case KeyNotFound(rKey, rContext) => KeysEqual(lKey, rKey) && ContextsEqual(rContext, lContext)
       case _ => false)
    case DataCorrupted(lContext) =>
      (match rhs
       case DataCorrupted(rContext) => ContextsEqual(rContext, lContext)
       case _ => false)
  }

  /** The kind of an error, without its payload. */
  datatype ErrorKind = TypeMismatchKind | ValueNotFoundKind | KeyNotFoundKind | DataCorruptedKind

  function Kind(e: DecodingError): ErrorKind {
    match e
    case TypeMismatch(_, _) => TypeMismatchKind
    case ValueNotFound(_, _) => ValueNotFoundKind
    case KeyNotFound(_, _) => KeyNotFoundKind
    case DataCorrupted(_) => DataCorruptedKind
  }

  /** Same-kind payload comparison: types by identity, keys by `keysEqual`. */
  predicate PayloadsEqual(lhs: DecodingError, rhs: DecodingError)
    requires Kind(lhs) == Kind(rhs)
  {
    if lhs.KeyNotFound? then KeysEqual(lhs.key, rhs.key)
    else if lhs.DataCorrupted? then true
    else lhs.expectedType == rhs.expectedType
  }

  /** Errors of different kinds are never equal. */
  lemma ErrorsOfDifferentKindsDiffer(lhs: DecodingError, rhs: DecodingError)
    requires Kind(lhs) != Kind(rhs)
    ensures !ErrorsEqual(lhs, rhs)
  {
  }

  /** Errors whose paths differ in length, or whose messages differ, are never equal. */
  lemma ErrorsEqualNeedsSameContextShape(lhs: DecodingError, rhs: DecodingError)
    requires |lhs.context.codingPath| != |rhs.context.codingPath|
          || lhs.context.debugDescription != rhs.context.debugDescription
    ensures !ErrorsEqual(lhs, rhs)
  {
  }

  lemma ErrorsEqualReflexive(e: DecodingError)
    ensures ErrorsEqual(e, e)
  {
    ContextsEqualReflexive(e.context);
  }

  lemma ErrorsEqualSymmetric(a: DecodingError, b: DecodingError)
    ensures ErrorsEqual(a, b) <==> ErrorsEqual(b, a)
  {
    ContextsEqualSymmetric(a.context, b.context);
  }

  /** Error equality inherits the broken transitivity of `keysEqual`: three
      `keyNotFound` errors with one context, whose keys are `Index 0`, the
      integer key 0 and the string key "0". */
  lemma ErrorsEqualNotTransitive(c: Context)
    ensures ErrorsEqual(KeyNotFound(JSONKeyIndex(0), c), KeyNotFound(JSONKeyFromInt(0).value, c))
    ensures ErrorsEqual(KeyNotFound(JSONKeyFromInt(0).value, c), KeyNotFound(JSONKeyFromString("0").value, c))
    ensures !ErrorsEqual(KeyNotFound(JSONKeyIndex(0), c), KeyNotFound(JSONKeyFromString("0").value, c))
  {
    KeysEqualChainBreaks(0);
    assert DecimalText.IntText(0) == "0";
    ContextsEqualReflexive(c);
  }
}
