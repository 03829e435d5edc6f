/**
 * Values that flow through the Ed25519 `SubtleCrypto` dispatcher: algorithm
 * identifiers, key handles, the behaviour of a native entry point, the route an
 * override takes, and what its caller finally observes.
 *
 * The native `SubtleCrypto` functions are not modelled: each call takes, as an
 * input, whether the native function exists and how it would settle.
 */
module WebCrypto {

  datatype Option<T> = None | Some(value: T)

  type Bytes = seq<bv8>

  /** A WebCrypto `AlgorithmIdentifier`: a bare string, or an object `{name: ...}`. */
  datatype Algorithm = Named(name: string) | Params(name: string)

  const Ed25519: string := "Ed25519"

  /**
   * The strict comparison `algorithm === 'Ed25519'`: only the bare string is
   * equal to it, so `{name: 'Ed25519'}` is not.
   */
  predicate IsEd25519Literal(a: Algorithm) {
    a == Named(Ed25519)
  }

  /** The `format` argument of `importKey` and `exportKey`. */
  datatype KeyFormat = Raw | Pkcs8 | Spki | Jwk

  /** The `keyData` argument of `importKey`: a byte buffer or a JSON Web Key object. */
  datatype KeyData = Buffer(bytes: Bytes) | JsonWebKey(fields: map<string, string>)

  /**
   * A key handle. Whether a handle was made by the polyfill is decided by a marker
   * private to the polyfill; here it is the constructor of the handle.
   */
  datatype Key = PolyfilledKey(handle: nat) | NativeKey(handle: nat)

  datatype KeyPair = KeyPair(privateKey: Key, publicKey: Key)

  /** `isPolyfilledKey(key)` */
  predicate IsPolyfilledKey(k: Key) {
    k.PolyfilledKey?
  }

  /** A JavaScript error object, with the `name` the importKey fallback inspects. */
  datatype JsError = JsError(name: string, message: string)

  const NotSupportedError: string := "NotSupportedError"
  const TypeError: string := "TypeError"

  /** How a native promise settles. */
  datatype Settlement<V> = Fulfilled(value: V) | Rejected(error: JsError)

  /**
   * The original native entry point captured at install time: absent (the
   * property was `undefined`), or present together with how it settles when it is
   * called with the arguments of the call under consideration.
   */
  datatype Native<V> = Absent | Present(settles: Settlement<V>)

  /** A call into the polyfill, with exactly the arguments it receives. */
  datatype PolyfillCall =
    | ExportKeyPolyfill(format: KeyFormat, key: Key)
    | GenerateKeyPolyfill(extractable: bool, keyUsages: seq<string>)
    | SignPolyfill(key: Key, data: Bytes)
    | VerifyPolyfill(key: Key, signature: Bytes, data: Bytes)
    | ImportKeyPolyfill(format: KeyFormat, keyData: KeyData, extractable: bool, keyUsages: seq<string>)

  /** What an override does with a call. */
  datatype Route<V> =
    | CallNative                        // hand the unchanged arguments to the native function and return what it settles to
    | CallPolyfill(call: PolyfillCall)  // return what the polyfill returns
    | ThrowTypeError(message: string)   // reject with a fresh `TypeError`
    | Rethrow(error: JsError)           // reject with an error the native function raised
    | ReturnValue(value: V)             // resolve with a value the native function already produced

  /** What the caller's promise settles to. */
  datatype Observation<V> =
    | Resolved(value: V)
    | PolyfillResolved(call: PolyfillCall)
    | Threw(error: JsError)

  /** The message of the `TypeError` thrown when no native function exists. */
  function NoNativeMessage(entry: string): string {
    "No native `" + entry + "` function exists to handle this call"
  }

  /** What JavaScript raises when a missing function is called. */
  const NotAFunction: JsError := JsError(TypeError, "the native function is not a function")

  /**
   * The caller's view of a route, given how the native function behaves. Calling
   * an absent native function is a `TypeError` in JavaScript, so `CallNative`
   * with `Absent` is what an unpatched `SubtleCrypto` does for a missing entry.
   * `Threw` does not say when the error arrives: the unpatched call throws at
   * once, while an override, being `async`, rejects the promise it returned.
   */
  function Observe<V>(r: Route<V>, native: Native<V>): Observation<V> {
    match r
    case CallNative =>
      (match native
       case Absent => Threw(NotAFunction)
       case Present(Fulfilled(v)) => Resolved(v)
       case Present(Rejected(e)) => Threw(e))
    case CallPolyfill(c) => PolyfillResolved(c)
    case ThrowTypeError(msg) => Threw(JsError(TypeError, msg))
    case Rethrow(e) => Threw(e)
    case ReturnValue(v) => Resolved(v)
  }

  /**
   * What the same call does on a `SubtleCrypto` the polyfill was never
   * installed on: the native function, or a `TypeError` if there is none. That
   * `TypeError` is thrown synchronously there; the overrides reject with theirs.
   */
  function Unpatched<V>(native: Native<V>): Observation<V> {
    Observe(CallNative, native)
  }

  /**
   * Two observations a caller cannot tell apart by value or by error kind: equal,
   * or both rejections with errors of the same `name` (only the message of a
   * `TypeError` may differ).
   */
  predicate SameShape<V(==)>(o1: Observation<V>, o2: Observation<V>) {
    o1 == o2 || (o1.Threw? && o2.Threw? && o1.error.name == o2.error.name)
  }
}
