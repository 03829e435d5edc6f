/**
 * The override of `SubtleCrypto#generateKey` and its one-time native-support
 * probe.
 *
 * The override closes over the module-level cell
 * `originalGenerateKeySupportsEd25519`, which starts `undefined`, receives the
 * probe promise on the first Ed25519 call, and receives a boolean when that
 * promise settles from a native call. On success the probe also puts the native
 * function back into the `generateKey` slot and hands the key pair it produced to
 * the call that started it.
 *
 * Asynchrony is modelled as explicit events: a `Call` runs an invocation up to its
 * first `await`, `ProbeSettles` runs the callback of the native probe, and `Wake`
 * resumes a call suspended on the probe promise. `Step` is the specification; the
 * class `GenerateKeyOverride` implements it on mutable fields.
 */
module GenerateKey {
  import opened WebCrypto

  /** The arguments of `generateKey(algorithm, extractable, keyUsages)`. */
  datatype GenerateArgs = GenerateArgs(algorithm: Algorithm, extractable: bool, keyUsages: seq<string>)

  /** The contents of `originalGenerateKeySupportsEd25519`. */
  datatype Cell = Undefined | HoldsPromise | HoldsBoolean(value: bool)

  datatype PromiseState = Pending | ResolvedTo(value: bool)

  /** The probe promise: not created yet, or created by the call numbered `creator`. */
  datatype Probe = NoPromise | Promise(creator: nat, state: PromiseState)

  /** What the `generateKey` property of `crypto.subtle` holds. */
  datatype Slot = Override | Original

  /**
   * How a caller reaches generateKey: through the property as it is now, or
   * through a reference to the override taken before the slot was restored.
   */
  datatype Reference = ThroughSlot | SavedOverride

  /**
   * A call in progress: suspended on the probe promise, with the value of its
   * local `optimisticallyGeneratedKeyPair`, or finished along a route.
   */
  datatype Status = Awaiting(optimistic: Option<KeyPair>) | Done(route: Route<KeyPair>)

  datatype Frame = Frame(args: GenerateArgs, status: Status)

  /**
   * The whole state: whether `originalGenerateKey` exists (fixed at install
   * time), the cell, the probe promise, the slot, and every call made so far.
   */
  datatype Machine = Machine(nativeExists: bool, cell: Cell, probe: Probe, slot: Slot,
                             frames: map<nat, Frame>, nextCall: nat)

  datatype Event =
    | Call(args: GenerateArgs, via: Reference)  // a caller invokes generateKey
    | ProbeSettles(outcome: Settlement<KeyPair>) // the native probe call settles
    | Wake(call: nat)                           // a call suspended on the probe promise resumes

  /** The state right after installation. */
  function Init(nativeExists: bool): Machine {
    Machine(nativeExists, Undefined, NoPromise, Override, map[], 0)
  }

  /** The native function, or a `TypeError` when there is none. */
  function NativeOrTypeError(nativeExists: bool): Route<KeyPair> {
    if nativeExists then CallNative else ThrowTypeError(NoNativeMessage("generateKey"))
  }

  /** The polyfill call an Ed25519 call falls back to. */
  function Fallback(args: GenerateArgs): PolyfillCall {
    GenerateKeyPolyfill(args.extractable, args.keyUsages)
  }

  /**
   * The decision an Ed25519 call takes once it knows whether native generation
   * is supported.
   */
  function Decide(supported: bool, optimistic: Option<KeyPair>, args: GenerateArgs, nativeExists: bool)
    : Route<KeyPair>
  {
    if supported then
      if optimistic.Some? then ReturnValue(optimistic.value) else NativeOrTypeError(nativeExists)
    else
      CallPolyfill(Fallback(args))
  }

  /** Whether a call made through `via` runs the override rather than the native function. */
  predicate ReachesOverride(m: Machine, via: Reference) {
    via == SavedOverride || m.slot == Override
  }

  predicate CanSettle(m: Machine) {
    m.probe.Promise? && m.probe.state.Pending?
  }

  predicate CanWake(m: Machine, id: nat) {
    id in m.frames && m.frames[id].status.Awaiting? && m.probe.Promise? && m.probe.state.ResolvedTo?
  }

  /** An invocation, run up to its first suspension. */
  function CallStep(m: Machine, args: GenerateArgs, via: Reference): Machine {
    var id := m.nextCall;
    var m1 := m.(nextCall := id + 1);
    if !ReachesOverride(m, via) then
      m1.(frames := m.frames[id := Frame(args, Done(CallNative))])
    else if !IsEd25519Literal(args.algorithm) then
      m1.(frames := m.frames[id := Frame(args, Done(NativeOrTypeError(m.nativeExists)))])
    else
      var m2 :=
        if m.cell.Undefined? then
          m1.(cell := HoldsPromise, probe := Promise(id, if m.nativeExists then Pending else ResolvedTo(false)))
        else m1;
      if m2.cell.HoldsBoolean? then
        m2.(frames := m.frames[id := Frame(args, Done(Decide(m2.cell.value, None, args, m.nativeExists)))])
      else
        m2.(frames := m.frames[id := Frame(args, Awaiting(None))])
  }

  /** The `.then` or `.catch` callback of the native probe call. */
  function SettleStep(m: Machine, outcome: Settlement<KeyPair>): Machine {
    if !CanSettle(m) then m
    else
      var c := m.probe.creator;
      match outcome
      case Fulfilled(pair) =>
        m.(slot := Original,
           frames := if c in m.frames && m.frames[c].status.Awaiting?
                     then m.frames[c := Frame(m.frames[c].args, Awaiting(Some(pair)))]
                     else m.frames,
           cell := HoldsBoolean(true),
           probe := Promise(c, ResolvedTo(true)))
      case Rejected(_) =>
        m.(cell := HoldsBoolean(false), probe := Promise(c, ResolvedTo(false)))
  }

  /** A suspended call resumes with the value of the probe promise. */
  function WakeStep(m: Machine, id: nat): Machine {
    if !CanWake(m, id) then m
    else
      var f := m.frames[id];
      m.(frames := m.frames[id := Frame(f.args, Done(Decide(m.probe.state.value, f.status.optimistic,
                                                            f.args, m.nativeExists)))])
  }

  /** One event; an event that cannot happen in the current state changes nothing. */
  function Step(m: Machine, e: Event): Machine {
    match e
    case Call(args, via) => CallStep(m, args, via)
    case ProbeSettles(outcome) => SettleStep(m, outcome)
    case Wake(id) => WakeStep(m, id)
  }

  /** A sequence of events, in order; every `Call` takes the next call number. */
  function Run(m: Machine, evs: seq<Event>): (r: Machine)
    ensures r.nativeExists == m.nativeExists
    ensures r.nextCall == m.nextCall + CallsIn(evs)
    decreases |evs|
  {
    if evs == [] then m else Run(Step(m, evs[0]), evs[1..])
  }

  /** How many invocations of generateKey a sequence of events holds. */
  function CallsIn(evs: seq<Event>): nat
    decreases |evs|
  {
    if evs == [] then 0 else (if evs[0].Call? then 1 else 0) + CallsIn(evs[1..])
  }

  // ----- The invariant -----

  /** The cell and the promise agree, and the slot is restored exactly on success. */
  ghost predicate CellMirrorsProbe(m: Machine) {
    && (m.cell.Undefined? <==> m.probe.NoPromise?)
    && (m.cell.HoldsBoolean? ==> m.probe.Promise? && m.probe.state == ResolvedTo(m.cell.value))
    && (m.probe.Promise? && m.probe.state.Pending? ==> m.nativeExists && m.cell.HoldsPromise?)
    && (m.probe.Promise? && m.probe.state == ResolvedTo(true) ==> m.nativeExists && m.cell == HoldsBoolean(true))
    && (!m.nativeExists ==> !m.cell.HoldsBoolean?)
    && (m.slot == Original <==> m.probe.Promise? && m.probe.state == ResolvedTo(true))
  }

  /** Every call on record has a number already handed out. */
  ghost predicate CallNumbersIssued(m: Machine) {
    forall id :: id in m.frames ==> id < m.nextCall
  }

  /** The calls on record, and what the probe's creator holds. */
  ghost predicate FramesWellFormed(m: Machine) {
    && CallNumbersIssued(m)
    && (m.probe.Promise? ==> m.probe.creator in m.frames)
    && (m.probe.Promise? && m.probe.state.Pending? ==> m.frames[m.probe.creator].status == Awaiting(None))
    && (forall id :: id in m.frames && m.frames[id].status.Awaiting? ==>
          IsEd25519Literal(m.frames[id].args.algorithm) && m.probe.Promise?)
    && (forall id :: id in m.frames && m.frames[id].status.Awaiting? && m.frames[id].status.optimistic.Some? ==>
          id == m.probe.creator && m.probe.state == ResolvedTo(true))
    && (m.probe.Promise? && m.probe.state == ResolvedTo(true) && m.frames[m.probe.creator].status.Awaiting? ==>
          m.frames[m.probe.creator].status.optimistic.Some?)
  }

  /**
   * What every finished call did: a non-Ed25519 call went to the native function
   * or threw; an Ed25519 call finished only after the probe resolved, and went to
   * the polyfill if it resolved false, otherwise to the native function, except
   * the creator of the probe, which received the key pair the probe produced.
   */
  ghost predicate OutcomesAgreeWithProbe(m: Machine) {
    forall id :: id in m.frames && m.frames[id].status.Done? ==>
      Outcome(m, id, m.frames[id].args, m.frames[id].status.route)
  }

  ghost predicate Outcome(m: Machine, id: nat, args: GenerateArgs, route: Route<KeyPair>) {
    if !IsEd25519Literal(args.algorithm) then
      route == NativeOrTypeError(m.nativeExists)
    else
      && m.probe.Promise? && m.probe.state.ResolvedTo?
      && (m.probe.state.value ==> if id == m.probe.creator then route.ReturnValue? else route == CallNative)
      && (!m.probe.state.value ==> route == CallPolyfill(Fallback(args)))
  }

  ghost predicate Inv(m: Machine) {
    CellMirrorsProbe(m) && FramesWellFormed(m) && OutcomesAgreeWithProbe(m)
  }

  // ----- The invariant holds in every reachable state -----

  lemma InitSatisfiesInv(nativeExists: bool)
    ensures Inv(Init(nativeExists))
  {
  }

  lemma CallPreservesInv(m: Machine, args: GenerateArgs, via: Reference)
    requires Inv(m)
    ensures Inv(CallStep(m, args, via))
  {
    var m' := CallStep(m, args, via);
    var id := m.nextCall;
    assert m'.frames == m.frames[id := m'.frames[id]];
    forall j | j in m'.frames && m'.frames[j].status.Done?
      ensures Outcome(m', j, m'.frames[j].args, m'.frames[j].status.route)
    {
      if j != id {
        assert Outcome(m, j, m.frames[j].args, m.frames[j].status.route);
      }
    }
  }

  lemma SettlePreservesInv(m: Machine, outcome: Settlement<KeyPair>)
    requires Inv(m)
    ensures Inv(SettleStep(m, outcome))
  {
    if CanSettle(m) {
      // while the probe is pending every Ed25519 call still awaits it
      forall j | j in m.frames && IsEd25519Literal(m.frames[j].args.algorithm)
        ensures m.frames[j].status.Awaiting?
      {
        assert m.frames[j].status.Done? ==> Outcome(m, j, m.frames[j].args, m.frames[j].status.route);
      }
    }
  }

  lemma WakePreservesInv(m: Machine, id: nat)
    requires Inv(m)
    ensures Inv(WakeStep(m, id))
  {
    if CanWake(m, id) {
      var m' := WakeStep(m, id);
      forall j | j in m'.frames && m'.frames[j].status.Done?
        ensures Outcome(m', j, m'.frames[j].args, m'.frames[j].status.route)
      {
        if j != id {
          assert Outcome(m, j, m.frames[j].args, m.frames[j].status.route);
        }
      }
    }
  }

  lemma StepPreservesInv(m: Machine, e: Event)
    requires Inv(m)
    ensures Inv(Step(m, e))
  {
    match e
    case Call(args, via) => CallPreservesInv(m, args, via);
    case ProbeSettles(outcome) => SettlePreservesInv(m, outcome);
    case Wake(id) => WakePreservesInv(m, id);
  }

  lemma {:induction false} RunPreservesInv(m: Machine, evs: seq<Event>)
    requires Inv(m)
    ensures Inv(Run(m, evs))
    decreases |evs|
  {
    if evs != [] {
      StepPreservesInv(m, evs[0]);
      RunPreservesInv(Step(m, evs[0]), evs[1..]);
    }
  }

  /** Every state reached from installation satisfies the invariant. */
  lemma ReachableSatisfiesInv(nativeExists: bool, evs: seq<Event>)
    ensures Inv(Run(Init(nativeExists), evs))
  {
    InitSatisfiesInv(nativeExists);
    RunPreservesInv(Init(nativeExists), evs);
  }

  /**
   * One event records at most the call it starts, under the next number, and
   * touches the locals of one call at most: a new call leaves every other call
   * alone, a wake-up changes only the call it resumes, and the probe's callback
   * writes only into the local of the call that created the probe.
   */
  lemma StepKeepsFrames(m: Machine, e: Event)
    requires CallNumbersIssued(m)
    ensures var m' := Step(m, e);
      && CallNumbersIssued(m')
      && (forall id :: id in m.frames ==> id in m'.frames && m'.frames[id].args == m.frames[id].args)
      && (forall id :: id in m'.frames && id !in m.frames ==> e.Call? && id == m.nextCall)
      && (e.Call? ==> forall id :: id in m.frames ==> m'.frames[id] == m.frames[id])
      && (e.Wake? ==> forall id :: id in m.frames && id != e.call ==> m'.frames[id] == m.frames[id])
      && (e.ProbeSettles? ==>
            forall id :: id in m.frames && !(m.probe.Promise? && id == m.probe.creator) ==>
              m'.frames[id] == m.frames[id])
  {
  }

  /**
   * Each invocation has its own locals: a later call is recorded under a fresh
   * number, so every call on record keeps its arguments and stays on record, and
   * the calls of the run are numbered after those made before it.
   */
  lemma {:induction false} CallsKeepTheirOwnFrames(m: Machine, evs: seq<Event>)
    requires CallNumbersIssued(m)
    ensures var r := Run(m, evs);
      && (forall id :: id in m.frames ==> id in r.frames && r.frames[id].args == m.frames[id].args)
      && (forall id :: id in r.frames && id !in m.frames ==> m.nextCall <= id < m.nextCall + CallsIn(evs))
    decreases |evs|
  {
    if evs != [] {
      var m1 := Step(m, evs[0]);
      StepKeepsFrames(m, evs[0]);
      CallsKeepTheirOwnFrames(m1, evs[1..]);
      assert m1.nextCall == m.nextCall + (if evs[0].Call? then 1 else 0);
    }
  }

  // ----- The probe starts at most once -----

  /** The step creates the probe promise (the assignment that leaves `undefined`). */
  predicate CreatesPromise(m: Machine, e: Event) {
    m.cell.Undefined? && !Step(m, e).cell.Undefined?
  }

  /** The step calls the native generateKey to probe for Ed25519 support. */
  predicate IssuesNativeProbe(m: Machine, e: Event) {
    e.Call? && ReachesOverride(m, e.via) && IsEd25519Literal(e.args.algorithm) && m.cell.Undefined? && m.nativeExists
  }

  function PromisesCreated(m: Machine, evs: seq<Event>): nat
    decreases |evs|
  {
    if evs == [] then 0
    else (if CreatesPromise(m, evs[0]) then 1 else 0) + PromisesCreated(Step(m, evs[0]), evs[1..])
  }

  function NativeProbesIssued(m: Machine, evs: seq<Event>): nat
    decreases |evs|
  {
    if evs == [] then 0
    else (if IssuesNativeProbe(m, evs[0]) then 1 else 0) + NativeProbesIssued(Step(m, evs[0]), evs[1..])
  }

  /**
   * Along any run the cell leaves `undefined` at most once (never if it already
   * has), each native probe call is one of those departures, and no probe call is
   * made when there is no native generateKey.
   */
  lemma {:induction false} PromiseCreatedAtMostOnce(m: Machine, evs: seq<Event>)
    ensures PromisesCreated(m, evs) <= (if m.cell.Undefined? then 1 else 0)
    ensures NativeProbesIssued(m, evs) <= PromisesCreated(m, evs)
    ensures !m.nativeExists ==> NativeProbesIssued(m, evs) == 0
    decreases |evs|
  {
    if evs != [] {
      PromiseCreatedAtMostOnce(Step(m, evs[0]), evs[1..]);
    }
  }

  /**
   * However many Ed25519 calls arrive, in whatever interleaving, one promise is
   * created and at most one native probe call is made, none without a native
   * generateKey.
   */
  lemma ProbeIsCoalesced(nativeExists: bool, evs: seq<Event>)
    ensures PromisesCreated(Init(nativeExists), evs) <= 1
    ensures NativeProbesIssued(Init(nativeExists), evs) <= (if nativeExists then 1 else 0)
    ensures HasEd25519Call(evs) ==>
              && PromisesCreated(Init(nativeExists), evs) == 1
              && NativeProbesIssued(Init(nativeExists), evs) == (if nativeExists then 1 else 0)
  {
    PromiseCreatedAtMostOnce(Init(nativeExists), evs);
    if HasEd25519Call(evs) {
      InitSatisfiesInv(nativeExists);
      Ed25519CallCreatesPromise(Init(nativeExists), evs);
    }
  }

  /** Some event of the run is a call whose algorithm is the string 'Ed25519'. */
  predicate HasEd25519Call(evs: seq<Event>) {
    exists i :: 0 <= i < |evs| && evs[i].Call? && IsEd25519Literal(evs[i].args.algorithm)
  }

  /**
   * While the cell is `undefined`, the first Ed25519 call reaches the override
   * (the slot is restored only after a promise exists), creates the promise and,
   * when a native generateKey exists, issues the native probe call.
   */
  lemma {:induction false} Ed25519CallCreatesPromise(m: Machine, evs: seq<Event>)
    requires Inv(m) && HasEd25519Call(evs)
    ensures m.cell.Undefined? ==> PromisesCreated(m, evs) >= 1
    ensures m.cell.Undefined? && m.nativeExists ==> NativeProbesIssued(m, evs) >= 1
    decreases |evs|
  {
    if m.cell.Undefined? {
      var e := evs[0];
      var i :| 0 <= i < |evs| && evs[i].Call? && IsEd25519Literal(evs[i].args.algorithm);
      if e.Call? && IsEd25519Literal(e.args.algorithm) {
        assert CreatesPromise(m, e);
      } else {
        assert evs[1..][i - 1] == evs[i];
        StepPreservesInv(m, e);
        Ed25519CallCreatesPromise(Step(m, e), evs[1..]);
      }
    }
  }

  // ----- One step at a time -----

  /**
   * A call whose algorithm is not the string 'Ed25519' leaves the cell, the
   * promise and the slot alone, never reaches the polyfill, and ends as the same
   * call ends on an unpatched `SubtleCrypto`.
   */
  lemma NonEd25519CallLeavesProbeAlone(m: Machine, args: GenerateArgs, via: Reference, native: Native<KeyPair>)
    requires Inv(m)
    requires !IsEd25519Literal(args.algorithm)
    requires native.Present? == m.nativeExists
    ensures var m' := Step(m, Call(args, via));
      && m'.cell == m.cell && m'.probe == m.probe && m'.slot == m.slot
      && m'.frames == m.frames[m.nextCall := Frame(args, Done(NativeOrTypeError(m.nativeExists)))]
      && SameShape(Observe(NativeOrTypeError(m.nativeExists), native), Unpatched(native))
  {
  }

  /**
   * The probe resolves true exactly when the native call fulfils. On success the
   * slot is restored and the creator's local receives the key pair; on any
   * rejection, whatever its error, the cell becomes false. No other call changes.
   */
  lemma SettleDecidesSupport(m: Machine, outcome: Settlement<KeyPair>)
    requires Inv(m) && CanSettle(m)
    ensures var m' := Step(m, ProbeSettles(outcome));
      var c := m.probe.creator;
      && m'.probe == Promise(c, ResolvedTo(outcome.Fulfilled?))
      && m'.cell == HoldsBoolean(outcome.Fulfilled?)
      && m'.slot == (if outcome.Fulfilled? then Original else Override)
      && m'.frames == (if outcome.Fulfilled?
                       then m.frames[c := Frame(m.frames[c].args, Awaiting(Some(outcome.value)))]
                       else m.frames)
  {
  }

  /**
   * A suspended call resumes along the probe's verdict: false sends it to the
   * polyfill with its own `extractable` and `keyUsages`; true gives the creator the
   * key pair the probe produced and every other call a fresh native call.
   */
  lemma WakeFollowsVerdict(m: Machine, id: nat)
    requires Inv(m) && CanWake(m, id)
    ensures var f := m.frames[id];
      Step(m, Wake(id)).frames
        == m.frames[id := Frame(f.args, Done(
             if !m.probe.state.value then CallPolyfill(Fallback(f.args))
             else if id == m.probe.creator then ReturnValue(f.status.optimistic.value)
             else CallNative))]
  {
  }

  // ----- The slot swap -----

  /**
   * The slot is restored to the native function only by a successful probe, and
   * once restored it stays restored whatever happens next.
   */
  lemma SlotRestoredOnlyOnSuccess(m: Machine, e: Event)
    requires m.slot == Override && Step(m, e).slot == Original
    ensures e.ProbeSettles? && e.outcome.Fulfilled? && CanSettle(m)
  {
  }

  lemma {:induction false} SlotRestoreIsOneWay(m: Machine, evs: seq<Event>)
    requires m.slot == Original
    ensures Run(m, evs).slot == Original
    decreases |evs|
  {
    if evs != [] {
      SlotRestoreIsOneWay(Step(m, evs[0]), evs[1..]);
    }
  }

  // ----- The optimistic key pair -----

  /** The creator still holds the pair, or has returned it. */
  ghost predicate CreatorHoldsPair(m: Machine, c: nat, pair: KeyPair) {
    && m.probe == Promise(c, ResolvedTo(true))
    && c in m.frames
    && (m.frames[c].status == Awaiting(Some(pair)) || m.frames[c].status == Done(ReturnValue(pair)))
  }

  lemma StepKeepsCreatorPair(m: Machine, e: Event, c: nat, pair: KeyPair)
    requires Inv(m) && CreatorHoldsPair(m, c, pair)
    ensures CreatorHoldsPair(Step(m, e), c, pair)
  {
  }

  lemma {:induction false} RunKeepsCreatorPair(m: Machine, evs: seq<Event>, c: nat, pair: KeyPair)
    requires Inv(m) && CreatorHoldsPair(m, c, pair)
    ensures CreatorHoldsPair(Run(m, evs), c, pair)
    decreases |evs|
  {
    if evs != [] {
      StepPreservesInv(m, evs[0]);
      StepKeepsCreatorPair(m, evs[0], c, pair);
      RunKeepsCreatorPair(Step(m, evs[0]), evs[1..], c, pair);
    }
  }

  /**
   * When the probe fulfils with `pair`, the call that started it returns exactly
   * `pair` once it finishes, whatever happens in between, and no other call ever
   * returns a pair the probe produced.
   */
  lemma CreatorReceivesProbePair(m: Machine, pair: KeyPair, evs: seq<Event>)
    requires Inv(m) && CanSettle(m)
    ensures var m' := Run(Step(m, ProbeSettles(Fulfilled(pair))), evs);
      var c := m.probe.creator;
      && c in m'.frames
      && (m'.frames[c].status.Done? ==> m'.frames[c].status.route == ReturnValue(pair))
      && (forall id :: id in m'.frames && m'.frames[id].status.Done? && m'.frames[id].status.route.ReturnValue? ==> id == c)
  {
    var m1 := Step(m, ProbeSettles(Fulfilled(pair)));
    StepPreservesInv(m, ProbeSettles(Fulfilled(pair)));
    RunKeepsCreatorPair(m1, evs, m.probe.creator, pair);
    RunPreservesInv(m1, evs);
  }

  // ----- Whole runs from installation -----

  /**
   * Every finished call followed the probe: a non-Ed25519 call went to the native
   * function or threw; an Ed25519 call went to the polyfill if the probe resolved
   * false, and otherwise received the probe's key pair if it started the probe or
   * made a fresh native call if it did not.
   */
  lemma FinishedCallsFollowProbe(nativeExists: bool, evs: seq<Event>)
    ensures var m := Run(Init(nativeExists), evs);
      forall id :: id in m.frames && m.frames[id].status.Done? ==>
        var f := m.frames[id];
        if !IsEd25519Literal(f.args.algorithm) then
          f.status.route == NativeOrTypeError(nativeExists)
        else
          && m.probe.Promise? && m.probe.state.ResolvedTo?
          && (!m.probe.state.value ==> f.status.route == CallPolyfill(Fallback(f.args)))
          && (m.probe.state.value && id != m.probe.creator ==> f.status.route == CallNative)
          && (m.probe.state.value && id == m.probe.creator ==> f.status.route.ReturnValue?)
  {
    ReachableSatisfiesInv(nativeExists, evs);
  }

  /**
   * Without a native generateKey the cell keeps the already-resolved promise and
   * never holds the boolean `false` that the executor assigned first; yet every
   * Ed25519 call ends in the polyfill and every other call in a `TypeError`.
   */
  lemma NoNativeMeansPolyfill(evs: seq<Event>)
    ensures var m := Run(Init(false), evs);
      && !m.cell.HoldsBoolean?
      && (m.probe.Promise? ==> m.cell == HoldsPromise && m.probe.state == ResolvedTo(false))
      && m.slot == Override
      && forall id :: id in m.frames && m.frames[id].status.Done? ==>
           m.frames[id].status.route
             == if IsEd25519Literal(m.frames[id].args.algorithm) then CallPolyfill(Fallback(m.frames[id].args))
                else ThrowTypeError(NoNativeMessage("generateKey"))
  {
    ReachableSatisfiesInv(false, evs);
  }

  // ----- The override on mutable state -----

  /**
   * The installed generateKey override with the state it closes over. Each
   * method runs one event and is proved to match `Step`.
   */
  class GenerateKeyOverride {
    /** Whether `originalGenerateKey` was defined when the override was installed. */
    const nativeExists: bool
    /** `originalGenerateKeySupportsEd25519` */
    var cell: Cell
    var probe: Probe
    /** `originalSubtleCrypto.generateKey` */
    var slot: Slot
    var frames: map<nat, Frame>
    var nextCall: nat

    function State(): Machine
      reads this
    {
      Machine(nativeExists, cell, probe, slot, frames, nextCall)
    }

    ghost predicate Valid()
      reads this
    {
      Inv(State())
    }

    /** Installation: the slot holds the override and the cell is `undefined`. */
    constructor (nativeExists: bool)
      ensures Valid() && State() == Init(nativeExists)
    {
      this.nativeExists := nativeExists;
      cell := Undefined;
      probe := NoPromise;
      slot := Override;
      frames := map[];
      nextCall := 0;
    }

    /**
     * `crypto.subtle.generateKey(...args)` (or a call through a saved reference
     * to the override), run until it returns or suspends on the probe promise.
     */
    method GenerateKey(args: GenerateArgs, via: Reference) returns (id: nat, route: Option<Route<KeyPair>>)
      requires Valid()
      modifies this
      ensures Valid() && State() == Step(old(State()), Call(args, via))
      ensures id == old(nextCall) && id in frames && frames[id].args == args
      ensures route.Some? <==> frames[id].status.Done?
      ensures route.Some? ==> route.value == frames[id].status.route
    {
      ghost var before := State();
      id := nextCall;
      nextCall := nextCall + 1;
      if via == ThroughSlot && slot == Original {
        // the slot holds the native function itself
        route := Some(CallNative);
      } else if !IsEd25519Literal(args.algorithm) {
        route := Some(NativeOrTypeError(nativeExists));
      } else {
        if cell == Undefined {
          if !nativeExists {
            // the promise executor runs at once and stores false ...
            cell := HoldsBoolean(false);
            probe := Promise(id, ResolvedTo(false));
          } else {
            // ... or starts the native probe call with this call's arguments
            probe := Promise(id, Pending);
          }
          // ... and the assignment of the promise itself comes last
          cell := HoldsPromise;
        }
        if cell.HoldsBoolean? {
          route := Some(Decide(cell.value, None, args, nativeExists));
        } else {
          route := None;
        }
      }
      frames := frames[id := Frame(args, if route.Some? then Done(route.value) else Awaiting(None))];
      CallPreservesInv(before, args, via);
    }

    /** The callback of the native probe call, when the probe is pending. */
    method SettleProbe(outcome: Settlement<KeyPair>)
      requires Valid() && CanSettle(State())
      modifies this
      ensures Valid() && State() == Step(old(State()), ProbeSettles(outcome))
    {
      ghost var before := State();
      var c := probe.creator;
      match outcome {
        case Fulfilled(pair) =>
          if slot != Original {
            slot := Original;
          }
          if c in frames && frames[c].status.Awaiting? {
            frames := frames[c := Frame(frames[c].args, Awaiting(Some(pair)))];
          }
          cell := HoldsBoolean(true);
          probe := Promise(c, ResolvedTo(true));
        case Rejected(_) =>
          cell := HoldsBoolean(false);
          probe := Promise(c, ResolvedTo(false));
      }
      SettlePreservesInv(before, outcome);
    }

    /** A call suspended on the probe promise resumes once it has resolved. */
    method Resume(id: nat) returns (route: Route<KeyPair>)
      requires Valid() && CanWake(State(), id)
      modifies this
      ensures Valid() && State() == Step(old(State()), Wake(id))
      ensures id in frames && frames[id].status == Done(route)
    {
      ghost var before := State();
      var f := frames[id];
      var supported := probe.state.value;
      if supported {
        if f.status.optimistic.Some? {
          route := ReturnValue(f.status.optimistic.value);
        } else if nativeExists {
          route := CallNative;
        } else {
          route := ThrowTypeError(NoNativeMessage("generateKey"));
        }
      } else {
        route := CallPolyfill(GenerateKeyPolyfill(f.args.extractable, f.args.keyUsages));
      }
      frames := frames[id := Frame(f.args, Done(route))];
      WakePreservesInv(before, id);
    }
  }
}
