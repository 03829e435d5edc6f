/**
 * The four overrides of `SubtleCrypto` that route each call without any state:
 * `exportKey`, `sign` and `verify` decide on the identity of the key, `importKey`
 * on the algorithm argument and on how the native `importKey` settles.
 *
 * Each override is a function from its arguments and the native function's
 * behaviour to the route the call takes. The partner of each is `Unpatched`, what
 * the host does without the polyfill: every call the polyfill does not claim
 * behaves as it would there.
 */
module Routing {
  import opened WebCrypto

  /** The override of `SubtleCrypto#exportKey`. */
  function ExportKey<V(==)>(format: KeyFormat, key: Key, native: Native<V>): (r: Route<V>)
    ensures r.CallPolyfill? <==> IsPolyfilledKey(key)
    ensures r.CallPolyfill? ==> r.call == ExportKeyPolyfill(format, key)
    ensures r.ThrowTypeError? <==> !IsPolyfilledKey(key) && native.Absent?
    ensures r == CallNative <==> !IsPolyfilledKey(key) && native.Present?
    ensures !IsPolyfilledKey(key) && native.Present? ==> Observe(r, native) == Unpatched(native)
    ensures !IsPolyfilledKey(key) ==> SameShape(Observe(r, native), Unpatched(native))
  {
    if IsPolyfilledKey(key) then
      CallPolyfill(ExportKeyPolyfill(format, key))
    else if native.Present? then
      CallNative
    else
      ThrowTypeError(NoNativeMessage("exportKey"))
  }

  /**
   * The override of `SubtleCrypto#sign`. A polyfilled key goes to the polyfill
   * with every argument but the first (the algorithm).
   */
  function Sign<V(==)>(algorithm: Algorithm, key: Key, data: Bytes, native: Native<V>): (r: Route<V>)
    ensures r.CallPolyfill? <==> IsPolyfilledKey(key)
    ensures r.CallPolyfill? ==> r.call == SignPolyfill(key, data)
    ensures r.ThrowTypeError? <==> !IsPolyfilledKey(key) && native.Absent?
    ensures r == CallNative <==> !IsPolyfilledKey(key) && native.Present?
    ensures !IsPolyfilledKey(key) && native.Present? ==> Observe(r, native) == Unpatched(native)
    ensures !IsPolyfilledKey(key) ==> SameShape(Observe(r, native), Unpatched(native))
  {
    if IsPolyfilledKey(key) then
      CallPolyfill(SignPolyfill(key, data))
    else if native.Present? then
      CallNative
    else
      ThrowTypeError(NoNativeMessage("sign"))
  }

  /**
   * The override of `SubtleCrypto#verify`. A polyfilled key goes to the polyfill
   * with every argument but the first (the algorithm).
   */
  function Verify<V(==)>(algorithm: Algorithm, key: Key, signature: Bytes, data: Bytes, native: Native<V>): (r: Route<V>)
    ensures r.CallPolyfill? <==> IsPolyfilledKey(key)
    ensures r.CallPolyfill? ==> r.call == VerifyPolyfill(key, signature, data)
    ensures r.ThrowTypeError? <==> !IsPolyfilledKey(key) && native.Absent?
    ensures r == CallNative <==> !IsPolyfilledKey(key) && native.Present?
    ensures !IsPolyfilledKey(key) && native.Present? ==> Observe(r, native) == Unpatched(native)
    ensures !IsPolyfilledKey(key) ==> SameShape(Observe(r, native), Unpatched(native))
  {
    if IsPolyfilledKey(key) then
      CallPolyfill(VerifyPolyfill(key, signature, data))
    else if native.Present? then
      CallNative
    else
      ThrowTypeError(NoNativeMessage("verify"))
  }

  /** The one native rejection the importKey fallback recognises. */
  predicate RejectsAsNotSupported<V>(native: Native<V>) {
    native.Present? && native.settles.Rejected? && native.settles.error.name == NotSupportedError
  }

  /**
   * The override of `SubtleCrypto#importKey`. The polyfill takes the call exactly
   * when the algorithm is the string 'Ed25519' and the native function is either
   * missing or rejects with a `NotSupportedError`; every other call ends as the
   * native function (or its absence) ends it.
   */
  function ImportKey<V(==)>(format: KeyFormat, keyData: KeyData, algorithm: Algorithm, extractable: bool,
                        keyUsages: seq<string>, native: Native<V>): (r: Route<V>)
    ensures r.CallPolyfill? <==> IsEd25519Literal(algorithm) && (native.Absent? || RejectsAsNotSupported(native))
    ensures r.CallPolyfill? ==> r.call == ImportKeyPolyfill(format, keyData, extractable, keyUsages)
    ensures r.ThrowTypeError? <==> native.Absent? && !IsEd25519Literal(algorithm)
    ensures r.Rethrow? ==> native.Present? && native.settles == Rejected(r.error) && !RejectsAsNotSupported(native)
    ensures native.Present? && !r.CallPolyfill? ==> Observe(r, native) == Unpatched(native)
    ensures !r.CallPolyfill? ==> SameShape(Observe(r, native), Unpatched(native))
  {
    if native.Absent? then
      if IsEd25519Literal(algorithm) then
        CallPolyfill(ImportKeyPolyfill(format, keyData, extractable, keyUsages))
      else
        ThrowTypeError(NoNativeMessage("importKey"))
    else if IsEd25519Literal(algorithm) then
      match native.settles
      case Fulfilled(v) => ReturnValue(v)
      case Rejected(err) =>
        if err.name == NotSupportedError then
          CallPolyfill(ImportKeyPolyfill(format, keyData, extractable, keyUsages))
        else
          Rethrow(err)
    else
      CallNative
  }

  /**
   * sign and verify never look at the algorithm argument: two calls that differ
   * only in it take the same route.
   */
  lemma SignAndVerifyIgnoreAlgorithm<V>(a1: Algorithm, a2: Algorithm, key: Key, signature: Bytes, data: Bytes,
                                        native: Native<V>)
    ensures Sign(a1, key, data, native) == Sign(a2, key, data, native)
    ensures Verify(a1, key, signature, data, native) == Verify(a2, key, signature, data, native)
  {
  }

  /**
   * An algorithm object `{name: 'Ed25519'}` is not the string 'Ed25519': importKey
   * hands it to the native function, or throws when there is none.
   */
  lemma ImportKeyParamsObjectIsNotEd25519<V>(format: KeyFormat, keyData: KeyData, extractable: bool,
                                            keyUsages: seq<string>, native: Native<V>)
    ensures ImportKey(format, keyData, Params(Ed25519), extractable, keyUsages, native)
            == if native.Present? then CallNative else ThrowTypeError(NoNativeMessage("importKey"))
  {
  }
}
