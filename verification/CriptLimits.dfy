/**
  How far the promises of `CriptSafety` go: which functions of the Cript a
  transaction can still run after it failed, or after one of its own callbacks
  disabled them.  Bundles are the matter of `CriptBundles`.
  The answers are about transactions the host can have, from an entry point and
  with registered hooks only.
 */
module CriptLimits {
  import opened Cripts
  import opened CriptRuns
  import opened CriptSafety

  /** The bit that stands for a function in the masks. */
  function Own(fn: Fn): Mask {
    match fn
    case DoRemap => DO_REMAP
    case DoPostRemap => DO_POST_REMAP
    case DoCacheLookup => DO_CACHE_LOOKUP
    case DoSendRequest => DO_SEND_REQUEST
    case DoReadResponse => DO_READ_RESPONSE
    case DoSendResponse => DO_SEND_RESPONSE
    case DoTxnClose => DO_TXN_CLOSE
    case GlbTxnStart => GLB_TXN_START
    case GlbReadRequest => GLB_READ_REQUEST
    case GlbPreRemap => GLB_PRE_REMAP
    case GlbPostRemap => GLB_POST_REMAP
    case GlbCacheLookup => GLB_CACHE_LOOKUP
    case GlbSendRequest => GLB_SEND_REQUEST
    case GlbReadResponse => GLB_READ_RESPONSE
    case GlbSendResponse => GLB_SEND_RESPONSE
    case GlbTxnClose => GLB_TXN_CLOSE
  }

  lemma BlockedByOwnBit(enabled: Mask, fn: Fn)
    requires !Has(enabled, Own(fn)) && fn != GlbReadRequest
    requires fn == DoCacheLookup ==> !Has(enabled, GLB_CACHE_LOOKUP)
    ensures AllBlocked(enabled, {fn})
  {
  }

  // ---------------------------------------------------------------------------
  // Both promises over real transactions

  /** What the rest of a transaction adds: the hooks `after`, and the close. */
  function Later(s: State, env: Env, after: seq<Hook>): seq<Action> {
    var t := Deliver(s, env, after + [TxnClose]).trace;
    if |s.trace| <= |t| then t[|s.trace|..] else []
  }

  /** The mask a transaction starts with. */
  function FirstMask(entry: Entry, env: Env): Mask {
    if entry == AtRemap then NewRemap(env).enabled else NewGlobal(env).enabled
  }

  /** A transaction the host can have after an entry point left `start`: `before` was delivered, `after` and the close are still to come. */
  ghost predicate Possible(start: (State, bool), before: seq<Hook>, after: seq<Hook>) {
    start.1 && Deliverable(start, before + after)
  }

  function Between(start: (State, bool), env: Env, before: seq<Hook>): State {
    Deliver(start.0, env, before)
  }

  /** A callback of the transaction disabled `fn`, and `fn` runs later all the same; `first` is the mask it
      started with, and `lookup` tells whether the global lookup bit is still set. */
  ghost predicate RunsDisabled(start: (State, bool), env: Env, first: Mask, before: seq<Hook>, after: seq<Hook>,
                               fn: Fn, lookup: bool)
  {
    var s := Between(start, env, before);
    && Possible(start, before, after)
    && Has(first, Own(fn)) && !Has(s.enabled, Own(fn))
    && Has(s.enabled, GLB_CACHE_LOOKUP) == lookup
    && RunCript(fn) in Later(s, env, after)
  }

  /** The transaction failed, and `fn` runs later all the same. */
  ghost predicate RunsFailed(start: (State, bool), env: Env, before: seq<Hook>, after: seq<Hook>, fn: Fn) {
    var s := Between(start, env, before);
    && Possible(start, before, after)
    && s.failed && RunCript(fn) in Later(s, env, after)
  }

  lemma NotLater(s: State, env: Env, after: seq<Hook>, fn: Fn)
    requires AllBlocked(s.enabled, {fn})
    ensures RunCript(fn) !in Later(s, env, after)
  {
    BlockedStaysQuiet(s, env, after + [TxnClose], {fn});
    var t := Deliver(s, env, after + [TxnClose]).trace;
    forall i | 0 <= i < |Later(s, env, after)| ensures Later(s, env, after)[i] != RunCript(fn) {
      assert Later(s, env, after)[i] == t[|s.trace| + i];
    }
  }

  lemma LaterAfterFailure(s: State, env: Env, after: seq<Hook>, a: Action)
    requires s.failed && a in Later(s, env, after)
    ensures AfterFailure(a)
  {
    FailureIsLatched(s, env, after + [TxnClose]);
    var t := Deliver(s, env, after + [TxnClose]).trace;
    var i :| 0 <= i < |Later(s, env, after)| && Later(s, env, after)[i] == a;
    assert a == t[|s.trace| + i];
  }

  /** Whatever comes first in the next event is part of what the rest of the transaction adds. */
  lemma FirstThing(s: State, env: Env, after: seq<Hook>, a: Action)
    requires
      var s1 := Handle(s, env, (after + [TxnClose])[0]);
      |s.trace| < |s1.trace| && s1.trace[|s.trace|] == a
    ensures a in Later(s, env, after)
  {
    var hooks := after + [TxnClose];
    var s1 := Handle(s, env, hooks[0]);
    BlockedStaysQuiet(s1, env, hooks[1..], {});
    var t := Deliver(s, env, hooks).trace;
    assert t[|s.trace|] == s1.trace[|s.trace|] == a;
    assert Later(s, env, after)[0] == a;
  }

  lemma OneHook(start: (State, bool), hook: Hook)
    requires start.1 && hook != TxnClose && Registered(start.0, hook)
    ensures Possible(start, [], [hook])
  {
    assert [] + [hook] == [hook];
  }

  // ---------------------------------------------------------------------------
  // Disabled callbacks

  /** A global transaction whose start callback disables `bits`. */
  function Disabling(mask: Mask, bits: Mask, fn: Fn): Env {
    Env([], mask, {GlbTxnStart, fn}, (n: nat) => Effect(false, bits, false, false))
  }

  lemma DisablingStarts(mask: Mask, bits: Mask, fn: Fn)
    requires mask != 0
    ensures
      var s := TxnStart(Disabling(mask, bits, fn)).0;
      s.enabled == Without(mask, bits) && !s.failed && TxnStart(Disabling(mask, bits, fn)).1
  {
    var env := Disabling(mask, bits, fn);
    assert EffectOf(env, 0) == Effect(false, bits, false, false);
    RegisterGlobalAfter(OfferToCript(NewGlobal(env), env, GlbTxnStart), mask);
  }

  function ReadRequestMask(lookup: bool): Mask {
    if lookup then GLB_READ_REQUEST | GLB_CACHE_LOOKUP else GLB_READ_REQUEST
  }

  lemma ReadRequestBits(lookup: bool)
    ensures
      var m := ReadRequestMask(lookup);
      && m != 0 && Has(m, GLB_READ_REQUEST) && !Has(Without(m, GLB_READ_REQUEST), GLB_READ_REQUEST)
      && Has(Without(m, GLB_READ_REQUEST), GLB_CACHE_LOOKUP) == lookup
  {
  }

  lemma ReadRequestStillRuns(lookup: bool)
    ensures
      var env := Disabling(ReadRequestMask(lookup), GLB_READ_REQUEST, GlbReadRequest);
      RunsDisabled(Begin(AtTxnStart, env), env, FirstMask(AtTxnStart, env), [], [ReadRequest], GlbReadRequest, lookup)
  {
    var m := ReadRequestMask(lookup);
    var env := Disabling(m, GLB_READ_REQUEST, GlbReadRequest);
    ReadRequestBits(lookup);
    DisablingStarts(m, GLB_READ_REQUEST, GlbReadRequest);
    TxnStartRegisters(env, ReadRequest);
    ReadRequestRuns(TxnStart(env).0, env);
    StillRuns(Begin(AtTxnStart, env), env, FirstMask(AtTxnStart, env), ReadRequest, GlbReadRequest);
  }

  /** A transaction whose start disabled `fn` and whose next event runs it. */
  lemma StillRuns(start: (State, bool), env: Env, first: Mask, hook: Hook, fn: Fn)
    requires start.1 && hook != TxnClose && Registered(start.0, hook)
    requires Has(first, Own(fn)) && !Has(start.0.enabled, Own(fn))
    requires
      var t := Handle(start.0, env, hook).trace;
      |start.0.trace| < |t| && t[|start.0.trace|] == RunCript(fn)
    ensures RunsDisabled(start, env, first, [], [hook], fn, Has(start.0.enabled, GLB_CACHE_LOOKUP))
  {
    OneHook(start, hook);
    FirstThing(start.0, env, [hook], RunCript(fn));
  }

  lemma ReadRequestRuns(s: State, env: Env)
    requires !s.failed && env.bundles == [] && GlbReadRequest in env.defined
    ensures
      var t := Handle(s, env, ReadRequest).trace;
      |s.trace| < |t| && t[|s.trace|] == RunCript(GlbReadRequest)
  {
  }

  lemma LookupBits()
    ensures
      var m := DO_CACHE_LOOKUP | GLB_CACHE_LOOKUP;
      && m != 0 && Has(m, DO_CACHE_LOOKUP) && Has(m, GLB_CACHE_LOOKUP)
      && !Has(Without(m, DO_CACHE_LOOKUP), DO_CACHE_LOOKUP) && Has(Without(m, DO_CACHE_LOOKUP), GLB_CACHE_LOOKUP)
  {
  }

  lemma LookupStillRuns()
    ensures
      var env := Disabling(DO_CACHE_LOOKUP | GLB_CACHE_LOOKUP, DO_CACHE_LOOKUP, DoCacheLookup);
      RunsDisabled(Begin(AtTxnStart, env), env, FirstMask(AtTxnStart, env), [], [CacheLookup], DoCacheLookup, true)
  {
    var m := DO_CACHE_LOOKUP | GLB_CACHE_LOOKUP;
    var env := Disabling(m, DO_CACHE_LOOKUP, DoCacheLookup);
    LookupBits();
    DisablingStarts(m, DO_CACHE_LOOKUP, DoCacheLookup);
    TxnStartRegisters(env, CacheLookup);
    LookupRuns(TxnStart(env).0, env);
    StillRuns(Begin(AtTxnStart, env), env, FirstMask(AtTxnStart, env), CacheLookup, DoCacheLookup);
  }

  lemma LookupRuns(s: State, env: Env)
    requires !s.failed && env.bundles == [] && DoCacheLookup in env.defined && Has(s.enabled, GLB_CACHE_LOOKUP)
    ensures
      var t := Handle(s, env, CacheLookup).trace;
      |s.trace| < |t| && t[|s.trace|] == RunCript(DoCacheLookup)
  {
  }

  /** There is a transaction in which a callback disables `fn` and the Cript runs its `fn` later, with the
      global lookup bit set or clear as `lookup` says, if and only if `fn` is the global read-request function,
      or the lookup function and the global lookup bit is set. */
  lemma DisabledRunsIff(fn: Fn, lookup: bool)
    ensures
      (exists entry, env, before, after ::
         RunsDisabled(Begin(entry, env), env, FirstMask(entry, env), before, after, fn, lookup)) <==>
      fn == GlbReadRequest || (fn == DoCacheLookup && lookup)
  {
    if fn == GlbReadRequest {
      ReadRequestStillRuns(lookup);
    } else if fn == DoCacheLookup && lookup {
      LookupStillRuns();
    } else {
      forall entry, env, before, after
        ensures !RunsDisabled(Begin(entry, env), env, FirstMask(entry, env), before, after, fn, lookup)
      {
        var s := Between(Begin(entry, env), env, before);
        if !Has(s.enabled, Own(fn)) && Has(s.enabled, GLB_CACHE_LOOKUP) == lookup {
          BlockedByOwnBit(s.enabled, fn);
          NotLater(s, env, after, fn);
        }
      }
    }
  }

  // ---------------------------------------------------------------------------
  // Failed transactions

  /** A global transaction that its start callback fails. */
  function FailingStart(mask: Mask, fn: Fn): Env {
    Env([], mask, {GlbTxnStart, fn}, (n: nat) => Effect(true, 0, false, false))
  }

  lemma FailingStarts(mask: Mask, fn: Fn)
    requires mask != 0
    ensures
      var s := TxnStart(FailingStart(mask, fn)).0;
      s.enabled == mask && s.failed && TxnStart(FailingStart(mask, fn)).1
  {
    var env := FailingStart(mask, fn);
    assert EffectOf(env, 0) == Effect(true, 0, false, false);
    WithoutNothing(mask);
    RegisterGlobalAfter(OfferToCript(NewGlobal(env), env, GlbTxnStart), mask);
  }

  lemma WithoutNothing(mask: Mask)
    ensures Without(mask, 0) == mask
  {
  }

  /** A remap that changes the cache key, where setting the key fails: the context is kept all the same. */
  function FailingKey(fn: Fn): Env {
    Env([], 0, {DoRemap, fn}, (n: nat) => Effect(n == 1, 0, false, n == 0))
  }

  lemma FailingKeyCallbacks(fn: Fn, bit: Mask)
    requires fn != DoRemap && AllCallbacks(FailingKey(fn)) == bit
    ensures
      var env := FailingKey(fn);
      var s := RemapCallbacks(NewRemap(env), env);
      !s.failed && s.enabled == bit && s.cacheModified && EffectOf(env, s.calls).fail
  {
    var env := FailingKey(fn);
    assert EffectOf(env, 0) == Effect(false, 0, false, true) && EffectOf(env, 1) == Effect(true, 0, false, false);
    WithoutNothing(bit);
    assert RemapCallbacks(NewRemap(env), env) == Called(NewRemap(env), env, RunCript(DoRemap));
  }

  lemma FailingKeys(fn: Fn, bit: Mask)
    requires fn != DoRemap && AllCallbacks(FailingKey(fn)) == bit && AnyLater(bit)
    ensures
      var s := Remap(FailingKey(fn)).0;
      s.enabled == bit && s.failed && Remap(FailingKey(fn)).1
      && RemapCallbacks(NewRemap(FailingKey(fn)), FailingKey(fn)).enabled == bit
  {
    var env := FailingKey(fn);
    FailingKeyCallbacks(fn, bit);
    KeepsContext(RemapCallbacks(NewRemap(env), env), env);
  }

  lemma FlushOutcome(s: State, env: Env)
    requires !s.failed
    ensures
      var s' := FlushBoth(s, env);
      s'.enabled == s.enabled && s'.failed == (s.cacheModified && EffectOf(env, s.calls).fail)
  {
  }

  /** A remap whose callbacks did not fail it keeps its context, even if setting the cache key fails. */
  lemma KeepsContext(s: State, env: Env)
    requires !s.failed && AnyLater(s.enabled)
    ensures
      var (s', kept) := FinishRemap(s, env);
      kept && s'.enabled == s.enabled && s'.failed == (s.cacheModified && EffectOf(env, s.calls).fail)
  {
    FlushOutcome(s, env);
    var s1 := FlushBoth(s, env);
    RegisterRemapAfter(s1);
    assert FinishRemap(s, env) == (Did(After(s1, RemapSetup(s1.enabled)), Execute), true);
  }

  lemma RemapBits()
    ensures AllCallbacks(FailingKey(DoPostRemap)) == DO_POST_REMAP && AllCallbacks(FailingKey(DoTxnClose)) == DO_TXN_CLOSE
    ensures AnyLater(DO_POST_REMAP) && AnyLater(DO_TXN_CLOSE) && Has(DO_POST_REMAP, DO_POST_REMAP)
  {
  }

  /** In a failed transaction without bundles, what a hook around the remap or the close does first. */
  lemma FailedHookFirst(s: State, env: Env, hook: Hook, fn: Fn)
    requires s.failed && fn in env.defined
    requires
      || (hook == PreRemap && fn == GlbPreRemap && s.enabled == GLB_PRE_REMAP)
      || (hook == PostRemap && fn == DoPostRemap && s.enabled == DO_POST_REMAP)
      || (hook == PostRemap && fn == GlbPostRemap && s.enabled == GLB_POST_REMAP)
      || (hook == TxnClose && fn == DoTxnClose && s.enabled == DO_TXN_CLOSE)
      || (hook == TxnClose && fn == GlbTxnClose && s.enabled == GLB_TXN_CLOSE)
    ensures
      var t := Handle(s, env, hook).trace;
      |s.trace| < |t| && t[|s.trace|] == RunCript(fn)
  {
  }

  lemma FailedStartRuns(fn: Fn, bit: Mask, hook: Hook)
    requires
      || (hook == PreRemap && fn == GlbPreRemap && bit == GLB_PRE_REMAP)
      || (hook == PostRemap && fn == GlbPostRemap && bit == GLB_POST_REMAP)
    ensures RunsFailed(Begin(AtTxnStart, FailingStart(bit, fn)), FailingStart(bit, fn), [], [hook], fn)
  {
    var env := FailingStart(bit, fn);
    FailingStarts(bit, fn);
    TxnStartRegisters(env, hook);
    OneHook(Begin(AtTxnStart, env), hook);
    FailedHookFirst(TxnStart(env).0, env, hook, fn);
    FirstThing(TxnStart(env).0, env, [hook], RunCript(fn));
  }

  lemma FailedStartCloses()
    ensures
      var env := FailingStart(GLB_TXN_CLOSE, GlbTxnClose);
      RunsFailed(Begin(AtTxnStart, env), env, [], [], GlbTxnClose)
  {
    var env := FailingStart(GLB_TXN_CLOSE, GlbTxnClose);
    FailingStarts(GLB_TXN_CLOSE, GlbTxnClose);
    FailedHookFirst(TxnStart(env).0, env, TxnClose, GlbTxnClose);
    FirstThing(TxnStart(env).0, env, [], RunCript(GlbTxnClose));
  }

  lemma FailedRemapRuns()
    ensures RunsFailed(Begin(AtRemap, FailingKey(DoPostRemap)), FailingKey(DoPostRemap), [], [PostRemap], DoPostRemap)
  {
    var env := FailingKey(DoPostRemap);
    RemapBits();
    FailingKeys(DoPostRemap, DO_POST_REMAP);
    RegisteredByMask(env, PostRemap);
    OneHook(Begin(AtRemap, env), PostRemap);
    FailedHookFirst(Remap(env).0, env, PostRemap, DoPostRemap);
    FirstThing(Remap(env).0, env, [PostRemap], RunCript(DoPostRemap));
  }

  lemma FailedRemapCloses()
    ensures RunsFailed(Begin(AtRemap, FailingKey(DoTxnClose)), FailingKey(DoTxnClose), [], [], DoTxnClose)
  {
    var env := FailingKey(DoTxnClose);
    RemapBits();
    FailingKeys(DoTxnClose, DO_TXN_CLOSE);
    FailedHookFirst(Remap(env).0, env, TxnClose, DoTxnClose);
    FirstThing(Remap(env).0, env, [], RunCript(DoTxnClose));
  }

  /** There is a transaction that fails and runs `fn` later if and only if `fn` is one of the functions around
      the remap or at the close. */
  lemma FailedRunsIff(fn: Fn)
    ensures
      (exists entry, env, before, after :: RunsFailed(Begin(entry, env), env, before, after, fn)) <==>
      fn in {GlbPreRemap, DoPostRemap, GlbPostRemap, DoTxnClose, GlbTxnClose}
  {
    match fn {
      case GlbPreRemap => FailedStartRuns(fn, GLB_PRE_REMAP, PreRemap);
      case GlbPostRemap => FailedStartRuns(fn, GLB_POST_REMAP, PostRemap);
      case GlbTxnClose => FailedStartCloses();
      case DoPostRemap => FailedRemapRuns();
      case DoTxnClose => FailedRemapCloses();
      case _ =>
        forall entry, env, before, after ensures !RunsFailed(Begin(entry, env), env, before, after, fn) {
          var s := Between(Begin(entry, env), env, before);
          if s.failed && RunCript(fn) in Later(s, env, after) {
            LaterAfterFailure(s, env, after, RunCript(fn));
          }
        }
    }
  }
}
