/**
  The Cripts hook machinery of `include/cripts/Epilogue.hpp`, with the transaction
  state of `Transaction.hpp`, the failure latch of `Error.hpp` and the callback
  masks of `Instance.hpp` and `Bundle.hpp`.

  A Cript and its bundles are foreign code: what the n-th callback of a
  transaction does (fail it, disable callbacks, change URLs) is whatever the
  environment's `script` says, for any script.  The functions of this module say
  what each entry point does to the transaction state; the classes of
  `CriptContext` do the same in place, the way the program does.
 */
module Cripts {

  type Mask = bv32

  const DO_REMAP: Mask := 0x1
  const DO_POST_REMAP: Mask := 0x2
  const DO_CACHE_LOOKUP: Mask := 0x4
  const DO_SEND_REQUEST: Mask := 0x8
  const DO_READ_RESPONSE: Mask := 0x10
  const DO_SEND_RESPONSE: Mask := 0x20
  const DO_TXN_CLOSE: Mask := 0x40
  const GLB_TXN_START: Mask := 0x80
  const GLB_READ_REQUEST: Mask := 0x100
  const GLB_PRE_REMAP: Mask := 0x200
  const GLB_POST_REMAP: Mask := 0x400
  const GLB_CACHE_LOOKUP: Mask := 0x800
  const GLB_SEND_REQUEST: Mask := 0x1000
  const GLB_READ_RESPONSE: Mask := 0x2000
  const GLB_SEND_RESPONSE: Mask := 0x4000
  const GLB_TXN_CLOSE: Mask := 0x8000

  /** Some bit of `bits` is set in `mask`. */
  predicate Has(mask: Mask, bits: Mask) {
    mask & bits != 0
  }

  /** `mask` with the bits of `bits` cleared. */
  function Without(mask: Mask, bits: Mask): Mask {
    mask & !bits
  }

  /** The functions a Cript may define.  Bundles have the first seven. */
  datatype Fn =
    | DoRemap | DoPostRemap | DoCacheLookup | DoSendRequest | DoReadResponse | DoSendResponse | DoTxnClose
    | GlbTxnStart | GlbReadRequest | GlbPreRemap | GlbPostRemap | GlbCacheLookup
    | GlbSendRequest | GlbReadResponse | GlbSendResponse | GlbTxnClose

  /** The hooks at which the transaction continuation can be called. */
  datatype Hook =
    | ReadRequest | PreRemap | PostRemap | CacheLookup | SendRequest | ReadResponse | SendResponse | TxnClose

  /** What an outside observer of one transaction sees. */
  datatype Action =
    | RunBundle(index: nat, fn: Fn)
    | RunCript(fn: Fn)
    | UpdateCacheUrl
    | UpdateRequestUrl
    | CreateCont
    | AddHook(hook: Hook)
    | Execute
    | DestroyCont
    | Release
    | Reenable

  /** What a callback does to its transaction. */
  datatype Effect = Effect(fail: bool, disable: Mask, modifiesRequest: bool, modifiesCache: bool)

  /** An instance with its bundles' masks, the functions its Cript defines, and the callbacks' behaviour. */
  datatype Env = Env(bundles: seq<Mask>, instanceMask: Mask, defined: set<Fn>, script: nat -> Effect)

  datatype State = State(
    enabled: Mask, failed: bool, requestModified: bool, cacheModified: bool, calls: nat, trace: seq<Action>)

  // ---------------------------------------------------------------------------
  // Pieces of the event handlers

  function Did(s: State, a: Action): State {
    s.(trace := s.trace + [a])
  }

  /** What the n-th callback of the transaction does. */
  function EffectOf(env: Env, n: nat): Effect {
    env.script(n)
  }

  function Changed(s: State, e: Effect): State {
    State(Without(s.enabled, e.disable), s.failed || e.fail, s.requestModified || e.modifiesRequest,
          s.cacheModified || e.modifiesCache, s.calls + 1, s.trace)
  }

  /** A callback runs, as the next one of the script. */
  function Called(s: State, env: Env, a: Action): State {
    Changed(Did(s, a), EffectOf(env, s.calls))
  }

  /** The bundles from `i` on whose own mask selects the hook run `fn`, in order. */
  function RunBundles(s: State, env: Env, select: Mask, fn: Fn, i: nat): State
    requires i <= |env.bundles|
    decreases |env.bundles| - i
  {
    if i == |env.bundles| then s
    else
      RunBundles(if Has(env.bundles[i], select) then Called(s, env, RunBundle(i, fn)) else s, env, select, fn, i + 1)
  }

  /** Bundles run unless the transaction has failed, and only if the instance's mask selects the hook. */
  function OfferToBundles(s: State, env: Env, select: Mask, fn: Fn): State {
    if !s.failed && Has(env.instanceMask, select) then RunBundles(s, env, select, fn, 0) else s
  }

  function OfferToCript(s: State, env: Env, fn: Fn): State {
    if fn in env.defined then Called(s, env, RunCript(fn)) else s
  }

  /** The Cript's remap function if it is enabled, else its global one if that is. */
  function OfferEnabled(s: State, env: Env, doBit: Mask, doFn: Fn, glbBit: Mask, glbFn: Fn): State {
    if Has(s.enabled, doBit) then OfferToCript(s, env, doFn)
    else if Has(s.enabled, glbBit) then OfferToCript(s, env, glbFn)
    else s
  }

  function FlushRequest(s: State): State {
    if s.requestModified then Did(s, UpdateRequestUrl) else s
  }

  /** Setting the cache key can fail the transaction. */
  function FlushCache(s: State, env: Env): State {
    if s.cacheModified then
      Did(s, UpdateCacheUrl).(cacheModified := false, failed := s.failed || EffectOf(env, s.calls).fail, calls := s.calls + 1)
    else s
  }

  function FlushBoth(s: State, env: Env): State {
    if s.failed then s else FlushRequest(FlushCache(s, env))
  }

  // ---------------------------------------------------------------------------
  // The transaction continuation

  function OnReadRequest(s: State, env: Env): State {
    if s.failed then s
    else
      FlushRequest(OfferToCript(OfferToBundles(s, env, GLB_READ_REQUEST, DoSendRequest), env, GlbReadRequest))
  }

  function OnSendRequest(s: State, env: Env): State {
    if s.failed then s
    else
      var s1 := OfferToBundles(s, env, DO_SEND_REQUEST | GLB_SEND_REQUEST, DoSendRequest);
      FlushRequest(OfferEnabled(s1, env, DO_SEND_REQUEST, DoSendRequest, GLB_SEND_REQUEST, GlbSendRequest))
  }

  function OnReadResponse(s: State, env: Env): State {
    if s.failed then s
    else
      var s1 := OfferToBundles(s, env, DO_READ_RESPONSE | GLB_READ_RESPONSE, DoReadResponse);
      OfferEnabled(s1, env, DO_READ_RESPONSE, DoReadResponse, GLB_READ_RESPONSE, GlbReadResponse)
  }

  function OnSendResponse(s: State, env: Env): State {
    if s.failed then s
    else
      var s1 := OfferToBundles(s, env, DO_SEND_RESPONSE | GLB_SEND_RESPONSE, DoSendResponse);
      OfferEnabled(s1, env, DO_SEND_RESPONSE, DoSendResponse, GLB_SEND_RESPONSE, GlbSendResponse)
  }

  /** The global bit, too, leads to the remap function. */
  function OnCacheLookup(s: State, env: Env): State {
    if s.failed then s
    else
      var s1 := OfferToBundles(s, env, DO_CACHE_LOOKUP | GLB_CACHE_LOOKUP, DoCacheLookup);
      OfferEnabled(s1, env, DO_CACHE_LOOKUP, DoCacheLookup, GLB_CACHE_LOOKUP, DoCacheLookup)
  }

  function OnPreRemap(s: State, env: Env): State {
    var s1 := OfferToBundles(s, env, GLB_PRE_REMAP, DoPostRemap);
    var s2 := if Has(s1.enabled, GLB_PRE_REMAP) then OfferToCript(s1, env, GlbPreRemap) else s1;
    FlushBoth(s2, env)
  }

  function OnPostRemap(s: State, env: Env): State {
    var s1 := OfferToBundles(s, env, DO_POST_REMAP | GLB_POST_REMAP, DoPostRemap);
    FlushBoth(OfferEnabled(s1, env, DO_POST_REMAP, DoPostRemap, GLB_POST_REMAP, GlbPostRemap), env)
  }

  function OnTxnClose(s: State, env: Env): State {
    var s2 :=
      if Has(s.enabled, DO_TXN_CLOSE | GLB_TXN_CLOSE) then
        var s1 := OfferToBundles(s, env, DO_TXN_CLOSE | GLB_TXN_CLOSE, DoTxnClose);
        OfferEnabled(s1, env, DO_TXN_CLOSE, DoTxnClose, GLB_TXN_CLOSE, GlbTxnClose)
      else s;
    Did(Did(s2, DestroyCont), Release)
  }

  /** Cached handles are dropped before every event, and with them pending URL changes. */
  function Reset(s: State): State {
    s.(requestModified := false, cacheModified := false)
  }

  function OnHook(s: State, env: Env, hook: Hook): State {
    match hook
    case ReadRequest => OnReadRequest(s, env)
    case PreRemap => OnPreRemap(s, env)
    case PostRemap => OnPostRemap(s, env)
    case CacheLookup => OnCacheLookup(s, env)
    case SendRequest => OnSendRequest(s, env)
    case ReadResponse => OnReadResponse(s, env)
    case SendResponse => OnSendResponse(s, env)
    case TxnClose => OnTxnClose(s, env)
  }

  /** `http_txn_cont`. */
  function Handle(s: State, env: Env, hook: Hook): State {
    Did(OnHook(Reset(s), env, hook), Reenable)
  }

  // ---------------------------------------------------------------------------
  // The entry points

  function Bit(fn: Fn, bit: Mask, defined: set<Fn>): Mask {
    if fn in defined then bit else 0
  }

  /** The callbacks a remap Cript defines. */
  function RemapMask(defined: set<Fn>): Mask {
    Bit(DoPostRemap, DO_POST_REMAP, defined) | Bit(DoCacheLookup, DO_CACHE_LOOKUP, defined) |
    Bit(DoSendRequest, DO_SEND_REQUEST, defined) | Bit(DoReadResponse, DO_READ_RESPONSE, defined) |
    Bit(DoSendResponse, DO_SEND_RESPONSE, defined) | Bit(DoTxnClose, DO_TXN_CLOSE, defined)
  }

  /** A hook asked for if its bit is set. */
  function Maybe(mask: Mask, bit: Mask, hook: Hook): seq<Action> {
    if Has(mask, bit) then [AddHook(hook)] else []
  }

  function AddIf(s: State, mask: Mask, bit: Mask, hook: Hook): State {
    s.(trace := s.trace + Maybe(mask, bit, hook))
  }

  function RegisterRemap(s: State): State {
    var m := s.enabled;
    var s1 := AddIf(Did(s, CreateCont), m, DO_POST_REMAP, PostRemap);
    var s2 := AddIf(s1, m, DO_SEND_RESPONSE, SendResponse);
    var s3 := AddIf(s2, m, DO_SEND_REQUEST, SendRequest);
    var s4 := AddIf(s3, m, DO_READ_RESPONSE, ReadResponse);
    Did(AddIf(s4, m, DO_CACHE_LOOKUP, CacheLookup), AddHook(TxnClose))
  }

  /** The remap callbacks: every bundle, whatever its mask, then the Cript unless it failed. */
  function RemapCallbacks(s: State, env: Env): State {
    if DoRemap in env.defined || Has(env.instanceMask, DO_REMAP) then
      var s1 := RunAllBundles(s, env, 0);
      if s1.failed then s1 else OfferToCript(s1, env, DoRemap)
    else s
  }

  function RunAllBundles(s: State, env: Env, i: nat): State
    requires i <= |env.bundles|
    decreases |env.bundles| - i
  {
    if i == |env.bundles| then s else RunAllBundles(Called(s, env, RunBundle(i, DoRemap)), env, i + 1)
  }

  /** What the Cript defines and what its instance asks for. */
  function AllCallbacks(env: Env): Mask {
    RemapMask(env.defined) | env.instanceMask
  }

  function NewRemap(env: Env): State {
    State(AllCallbacks(env), false, false, false, 0, [])
  }

  /** The program's test for a callback after the remap. */
  predicate AnyLater(mask: Mask) {
    mask >= DO_POST_REMAP
  }

  /** What follows the remap callbacks: the state, and whether the context is kept for later hooks. */
  function FinishRemap(s: State, env: Env): (State, bool) {
    var kept := !s.failed && AnyLater(s.enabled);
    var s1 := FlushBoth(s, env);
    var s2 := if kept then RegisterRemap(s1) else s1;
    var s3 := Did(s2, Execute);
    (if kept then s3 else Did(s3, Release), kept)
  }

  /** `TSRemapDoRemap`. */
  function Remap(env: Env): (State, bool) {
    FinishRemap(RemapCallbacks(NewRemap(env), env), env)
  }

  function RegisterGlobal(s: State, m: Mask): State {
    var s1 := AddIf(Did(s, CreateCont), m, GLB_READ_REQUEST, ReadRequest);
    var s2 := AddIf(s1, m, GLB_PRE_REMAP, PreRemap);
    var s3 := AddIf(s2, m, GLB_POST_REMAP, PostRemap);
    var s4 := AddIf(s3, m, GLB_CACHE_LOOKUP, CacheLookup);
    var s5 := AddIf(s4, m, GLB_SEND_REQUEST, SendRequest);
    var s6 := AddIf(s5, m, GLB_READ_RESPONSE, ReadResponse);
    Did(AddIf(s6, m, GLB_SEND_RESPONSE, SendResponse), AddHook(TxnClose))
  }

  function NewGlobal(env: Env): State {
    State(env.instanceMask, false, false, false, 0, [])
  }

  /** `global_cont` at the start of a transaction.  Hooks are chosen by the instance's mask, whatever the
      start callback disabled. */
  function TxnStart(env: Env): (State, bool) {
    var s1 := OfferToCript(NewGlobal(env), env, GlbTxnStart);
    var kept := env.instanceMask != 0;
    var s2 := if kept then RegisterGlobal(s1, env.instanceMask) else Did(s1, Release);
    (Did(s2, Reenable), kept)
  }
}
