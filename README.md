# Ed25519 `SubtleCrypto` dispatcher

A model of `@solana/webcrypto-ed25519-polyfill`'s dispatcher. When the package is loaded, it replaces five methods of `crypto.subtle`: `exportKey`, `generateKey`, `sign`, `verify` and `importKey`. Each replacement does one of three things with a call:
- passes it to the polyfill;
- passes it to the native function it saved at install time;
- throws a `TypeError`.

`generateKey` also runs a one-time probe for native Ed25519 support. The probe's state lives in a module-level cell, `originalGenerateKeySupportsEd25519`. The cell starts `undefined`. The first Ed25519 call puts a promise in it. The cell gets a boolean once a native probe call settles. A successful probe also puts the native function back into the `generateKey` slot.

The model has three modules:

- `WebCrypto` (`webcrypto.dfy`) holds the values that pass through the dispatcher.
  - `Algorithm` tells the string `'Ed25519'` apart from the object `{name: 'Ed25519'}`. The source compares with `===`, so only the string counts as Ed25519.
  - `Key` stands for a key handle. `IsPolyfilledKey` is the source's `isPolyfilledKey`.
  - `Native<V>` is the native function: `Absent`, or present together with how it settles on this call.
  - `Route<V>` is what an override does with the call.
  - `Observation<V>` is what the caller's promise settles to.
  - `Unpatched` gives the same call on a `SubtleCrypto` where the polyfill was never installed.
- `Routing` (`routing.dfy`) holds the four overrides that keep no state: `exportKey`, `sign`, `verify` and `importKey`. Each is a function from the call's arguments and the native behaviour to a `Route`. Its contract checks the route against `Unpatched`: every call the polyfill does not claim ends as it would without the polyfill, up to the message of the `TypeError` thrown when the native function is missing. When the native function exists, the result is exactly the unpatched one. One difference stays: the overrides are `async`, so where the unpatched call would throw at once, the override returns a promise that rejects.
- `GenerateKey` (`generate_key.dfy`) holds the generateKey override and its probe.
  - It is a state machine over `Machine` with three events:
    - `Call` runs an invocation up to its first `await`.
    - `ProbeSettles` runs the `.then` or `.catch` callback of the native probe call.
    - `Wake` resumes a call that was suspended on the probe promise.
  - `Step` is the specification. `Inv` is the invariant that every step preserves. The lemmas prove the source's promises over whole runs.
  - The class `GenerateKeyOverride` implements the same events with mutable fields: the cell, the promise, the slot and the calls in progress. Each method is proved to match `Step`.
  - A call can reach generateKey through the slot as it is now (`ThroughSlot`), or through a reference to the override saved before the slot was restored (`SavedOverride`).

Three behaviours of the code that are easy to miss:
- With no native function, `exportKey`, `sign` and `verify` (for a key that is not polyfilled), `importKey` (for any algorithm other than the string `'Ed25519'`) and `generateKey` (for any algorithm other than that string) throw a `TypeError` with the message "No native `…` function exists to handle this call". There is no separate unsupported-operation error.
- Without a native `generateKey` the cell never holds a boolean. The promise executor stores `false` (index.ts:51). The assignment of the promise itself (index.ts:49) then overwrites that `false`. So the cell keeps an already-resolved promise forever. Every Ed25519 call awaits that promise and falls back to the polyfill (`NoNativeMeansPolyfill`).
- A successful probe restores only the `crypto.subtle.generateKey` property. A caller that kept a reference to the override still runs it. That caller sees the cell holding `true` and makes a fresh native call.

## Model

| member | source | states |
|---|---|---|
| `Routing.ExportKey` | packages/webcrypto-ed25519-polyfill/src/index.ts:21-31 | A polyfilled key goes to `exportKeyPolyfill` with the unchanged `(format, key)`, and nothing else reaches the polyfill. Any other key goes to the native function if and only if it exists, and then the caller gets exactly the native result or rejection. It throws a `TypeError` exactly when there is none, which has the same error name as calling a missing function on an unpatched `SubtleCrypto`. |
| `Routing.Sign` | packages/webcrypto-ed25519-polyfill/src/index.ts:98-109 | A polyfilled key goes to `signPolyfill` with the algorithm argument dropped: `(key, data)`. Any other key goes to the native function if and only if it exists, and then the caller gets exactly the native result or rejection. Otherwise it throws a `TypeError`, which has the same error name as on an unpatched `SubtleCrypto`. |
| `Routing.Verify` | packages/webcrypto-ed25519-polyfill/src/index.ts:114-125 | A polyfilled key goes to `verifyPolyfill` with the algorithm argument dropped: `(key, signature, data)`. Any other key goes to the native function if and only if it exists, and then the caller gets exactly the native result or rejection. Otherwise it throws a `TypeError`, which has the same error name as on an unpatched `SubtleCrypto`. |
| `Routing.ImportKey` | packages/webcrypto-ed25519-polyfill/src/index.ts:130-170 | The polyfill gets `(format, keyData, extractable, keyUsages)` if and only if the algorithm is the string `'Ed25519'` and the native function is missing or rejects with a `NotSupportedError`. A `TypeError` is thrown if and only if native is missing and the algorithm is something else. A rethrown error is exactly the native rejection, and never a `NotSupportedError`. Every other call settles exactly as the native call does. |
| `Routing.SignAndVerifyIgnoreAlgorithm` | packages/webcrypto-ed25519-polyfill/src/index.ts:99-125 | sign and verify never look at the algorithm argument. Two calls that differ only in it take the same route. |
| `Routing.ImportKeyParamsObjectIsNotEd25519` | packages/webcrypto-ed25519-polyfill/src/index.ts:139-169 | `{name: 'Ed25519'}` does not pass the strict test `=== 'Ed25519'`. importKey hands it to the native function, or throws a `TypeError` when there is none. |
| `GenerateKey.StepPreservesInv` | packages/webcrypto-ed25519-polyfill/src/index.ts:37-93 | Every event preserves these facts. The cell is `undefined` exactly until the promise exists. A boolean in the cell is the value the promise resolved to. The slot is restored exactly when the probe resolved `true`. Only the creator's local ever holds a key pair. Every finished call agrees with the probe. |
| `GenerateKey.RunPreservesInv` | packages/webcrypto-ed25519-polyfill/src/index.ts:37-93 | The invariant holds after any sequence of events. |
| `GenerateKey.ReachableSatisfiesInv` | packages/webcrypto-ed25519-polyfill/src/index.ts:36-93 | Every state reachable from installation satisfies the invariant. |
| `GenerateKey.StepKeepsFrames` | packages/webcrypto-ed25519-polyfill/src/index.ts:38-92 | One event records at most one new call, the one it starts, under the next unused number. Every call already on record stays, with its arguments. Each invocation's locals are its own: a new call leaves every other call's record unchanged, a wake-up changes only the call it resumes, and the probe's callback writes only into the creator's `optimisticallyGeneratedKeyPair`. |
| `GenerateKey.CallsKeepTheirOwnFrames` | packages/webcrypto-ed25519-polyfill/src/index.ts:38-47 | Along any run, every call made before it stays on record with its arguments, and the calls of the run get fresh numbers, as many as there are `Call` events (`Run`). Which events may change a call's status is stated per step by `StepKeepsFrames`; what the creator's local receives is stated by `CreatorReceivesProbePair`. |
| `GenerateKey.PromiseCreatedAtMostOnce` | packages/webcrypto-ed25519-polyfill/src/index.ts:48-53 | Along any run the cell leaves `undefined` at most once, and never if it already has. Each native probe call is one of those departures. No probe call is made without a native generateKey. |
| `GenerateKey.ProbeIsCoalesced` | packages/webcrypto-ed25519-polyfill/src/index.ts:48-55 | From installation, under any interleaving of any number of calls, at most one promise is created and at most one native probe call is made, none when native generateKey is missing. As soon as the run contains an Ed25519 call, exactly one promise is created, and exactly one native probe call is made when native generateKey exists. |
| `GenerateKey.Ed25519CallCreatesPromise` | packages/webcrypto-ed25519-polyfill/src/index.ts:48-55 | While the cell is `undefined`, a later Ed25519 call in the run creates the promise, and issues the native probe call when native generateKey exists. |
| `GenerateKey.NonEd25519CallLeavesProbeAlone` | packages/webcrypto-ed25519-polyfill/src/index.ts:39-46 | A call whose algorithm is not the string `'Ed25519'` leaves the cell, the promise and the slot unchanged. It never reaches the polyfill. It finishes at once, at the native function or with a `TypeError`, just as on an unpatched `SubtleCrypto`. |
| `GenerateKey.SettleDecidesSupport` | packages/webcrypto-ed25519-polyfill/src/index.ts:54-74 | The probe resolves `true` if and only if the native call fulfils. Any rejection gives `false`, whatever the error name. On success the slot is restored and the creator's local receives the pair. No other call changes. |
| `GenerateKey.WakeFollowsVerdict` | packages/webcrypto-ed25519-polyfill/src/index.ts:77-92 | A resumed call follows the probe's result. On `false` it goes to `generateKeyPolyfill(extractable, keyUsages)` with its own arguments. On `true`, the creator returns the optimistically generated pair and every other call makes a fresh native call. |
| `GenerateKey.SlotRestoredOnlyOnSuccess` | packages/webcrypto-ed25519-polyfill/src/index.ts:66-68 | The slot changes from the override to the native function only when a pending probe fulfils. |
| `GenerateKey.SlotRestoreIsOneWay` | packages/webcrypto-ed25519-polyfill/src/index.ts:66-68 | Once the slot is restored, it stays restored after any further events. |
| `GenerateKey.CreatorReceivesProbePair` | packages/webcrypto-ed25519-polyfill/src/index.ts:47-83 | When the probe fulfils with `pair`, the call that started it returns exactly `pair` once it finishes, whatever events come in between. No other call ever returns a probe-generated pair. |
| `GenerateKey.FinishedCallsFollowProbe` | packages/webcrypto-ed25519-polyfill/src/index.ts:38-93 | In every state reachable from installation, every finished call agrees with the probe. A non-Ed25519 call went to native or threw a `TypeError`. An Ed25519 call finished only after the probe resolved. It went to the polyfill on `false`. On `true` it went to native, except the creator, which alone returned the optimistic pair. |
| `GenerateKey.NoNativeMeansPolyfill` | packages/webcrypto-ed25519-polyfill/src/index.ts:48-53 | Without a native generateKey, the cell never holds a boolean, only the promise already resolved to `false`. The slot is never restored. Every Ed25519 call ends in the polyfill and every other call in a `TypeError`. |
| `GenerateKey.GenerateKeyOverride.constructor` | packages/webcrypto-ed25519-polyfill/src/index.ts:36-38 | Installation leaves the cell `undefined`, no promise, the override in the slot, and the invariant established. |
| `GenerateKey.GenerateKeyOverride.GenerateKey` | packages/webcrypto-ed25519-polyfill/src/index.ts:38-81 | One invocation up to its first suspension, with the same branches as the source, including the executor's `false` being overwritten by the promise. The new state is `Step` of the old one for a `Call`, the invariant is kept, and the route is returned when the call finished at once. |
| `GenerateKey.GenerateKeyOverride.SettleProbe` | packages/webcrypto-ed25519-polyfill/src/index.ts:54-74 | The probe's `.then`/`.catch` callback, including the guarded slot restore. The new state is `Step` of the old one for `ProbeSettles`, and the invariant is kept. |
| `GenerateKey.GenerateKeyOverride.Resume` | packages/webcrypto-ed25519-polyfill/src/index.ts:77-92 | A suspended call continues after `await`. The new state is `Step` of the old one for `Wake`. The returned route is the one recorded for the call. |

## Left out

- The polyfill itself (`importKeyPolyfill`, `exportKeyPolyfill`, `generateKeyPolyfill`, `signPolyfill`, `verifyPolyfill`, `isPolyfilledKey`) is not part of this model. That includes Ed25519 arithmetic, key encodings and the key marker. A polyfill call is recorded with its arguments, and polyfilled keys are a separate constructor of `Key`.
- The native `SubtleCrypto` functions are not modelled. Each call takes as input whether the native function exists and how it settles. The native results of generateKey are all of type `KeyPair`, including for non-Ed25519 algorithms, where the native function may return a single key.
- The creation of `globalThis.crypto` and `crypto.subtle` (index.ts:14-16) is left out. So is the `__BROWSER__` / `isSecureContext` gate (index.ts:10). This is environment set-up.
- The installer's assignments of the `exportKey`, `sign`, `verify` and `importKey` slots are left out. Each happens once at load time and is never changed, so the model gives those overrides as functions and does not model the slots.
- The `console.warn` calls under `__DEV__` (index.ts:57-65, 149-157) are left out: they only log.
- Promise scheduling and microtask order are modelled as explicit `Call`, `ProbeSettles` and `Wake` events that any scheduler may interleave. Real concurrency is not modelled.
- `Routing.ImportKey` assumes a native rejection is an object with a `name`. JavaScript could reject with `undefined`, and then `err.name` itself would throw. The model does not cover that case.
- `Settlement` assumes a native function always returns a promise and never throws synchronously. Real `SubtleCrypto` methods report errors by rejecting. If `originalGenerateKey.apply(...)` threw inside the promise executor (index.ts:54-55), the probe promise would reject, neither callback would run, and every later Ed25519 call would reject with that error. `Cell` and `PromiseState` cannot represent that state. A synchronous throw from the native `importKey` (index.ts:146-147) would skip the `NotSupportedError` fallback. Neither case is modelled.
- `Observation` does not tell a synchronous throw from a rejected promise. On an unpatched `SubtleCrypto` a missing entry throws a `TypeError` at the call itself. The overrides are `async` functions (index.ts:22, 38, 99, 115, 131), so their `TypeError` (index.ts:29, 44, 107, 123, 143) rejects the returned promise instead. A caller can tell the two apart, and the model does not.
- The probe's `.catch` also runs if the `.then` callback itself throws. Nothing in that callback throws in the model, so that path is left out.
- The truthiness test on `optimisticallyGeneratedKeyPair` (index.ts:82) is modelled as "a pair was stored". A native key pair object is always truthy.
