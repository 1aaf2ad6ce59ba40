/**
  What an event calls of its bundles.  Which bundles run is decided by the
  instance's mask and their own, not by the callbacks that are still enabled, so
  that disabling a callback stops the Cript's function and not the bundles'.
 */
module CriptBundles {
  import opened Cripts
  import opened CriptRuns
  import opened CriptInstance
  import opened CriptSafety
  import opened CriptLimits

  /** The function bundles are called with at a hook. */
  function BundleFn(hook: Hook): Fn {
    match hook
    case ReadRequest => DoSendRequest
    case PreRemap => DoPostRemap
    case PostRemap => DoPostRemap
    case CacheLookup => DoCacheLookup
    case SendRequest => DoSendRequest
    case ReadResponse => DoReadResponse
    case SendResponse => DoSendResponse
    case TxnClose => DoTxnClose
  }

  /** The bits that select bundles at a hook. */
  function Select(hook: Hook): Mask {
    match hook
    case ReadRequest => GLB_READ_REQUEST
    case PreRemap => GLB_PRE_REMAP
    case PostRemap => DO_POST_REMAP | GLB_POST_REMAP
    case CacheLookup => DO_CACHE_LOOKUP | GLB_CACHE_LOOKUP
    case SendRequest => DO_SEND_REQUEST | GLB_SEND_REQUEST
    case ReadResponse => DO_READ_RESPONSE | GLB_READ_RESPONSE
    case SendResponse => DO_SEND_RESPONSE | GLB_SEND_RESPONSE
    case TxnClose => DO_TXN_CLOSE | GLB_TXN_CLOSE
  }

  /** The bundle calls of a trace. */
  function BundleCalls(t: seq<Action>): seq<Action> {
    if t == [] then [] else (if t[0].RunBundle? then [t[0]] else []) + BundleCalls(t[1..])
  }

  /** What happened on the way from `s` to `s'`. */
  function Added(s: State, s': State): seq<Action> {
    if |s.trace| <= |s'.trace| then s'.trace[|s.trace|..] else []
  }

  /** The bundles are reached: always before the close, and at the close if a close callback is enabled. */
  predicate Reached(s: State, env: Env, hook: Hook) {
    !s.failed && Has(env.instanceMask, Select(hook)) && (hook == TxnClose ==> Has(s.enabled, Select(TxnClose)))
  }

  function CallsAt(s: State, env: Env, hook: Hook): seq<Action> {
    if Reached(s, env, hook) then Wanted(env.bundles, Select(hook), BundleFn(hook), 0) else []
  }

  // ---------------------------------------------------------------------------
  // One event

  /** From `s` to `s'` no bundle was called. */
  ghost predicate NoBundles(s: State, s': State) {
    s.trace <= s'.trace && forall i :: |s.trace| <= i < |s'.trace| ==> !s'.trace[i].RunBundle?
  }

  lemma NoBundlesTransitive(a: State, b: State, c: State)
    requires NoBundles(a, b) && NoBundles(b, c)
    ensures NoBundles(a, c)
  {
    assert forall i :: 0 <= i < |b.trace| ==> c.trace[i] == b.trace[i];
  }

  lemma CriptCallsNoBundles(s: State, env: Env, fn: Fn)
    ensures NoBundles(s, OfferToCript(s, env, fn))
  {
  }

  lemma EnabledCallsNoBundles(s: State, env: Env, doBit: Mask, doFn: Fn, glbBit: Mask, glbFn: Fn)
    ensures NoBundles(s, OfferEnabled(s, env, doBit, doFn, glbBit, glbFn))
  {
    CriptCallsNoBundles(s, env, doFn);
    CriptCallsNoBundles(s, env, glbFn);
  }

  lemma FlushCallsNoBundles(s: State, env: Env)
    ensures NoBundles(s, FlushRequest(s)) && NoBundles(s, FlushBoth(s, env))
  {
    var s1 := FlushCache(s, env);
    assert NoBundles(s, s1) && NoBundles(s1, FlushRequest(s1));
    NoBundlesTransitive(s, s1, FlushRequest(s1));
  }

  /** The bundles' part of an event. */
  function BundlePart(s: State, env: Env, hook: Hook): State {
    if hook == TxnClose && !Has(s.enabled, Select(TxnClose)) then s
    else OfferToBundles(s, env, Select(hook), BundleFn(hook))
  }

  lemma BundlePartCalls(s: State, env: Env, hook: Hook)
    ensures BundlePart(s, env, hook).trace == s.trace + CallsAt(s, env, hook)
  {
    RunBundlesWanted(s, env, Select(hook), BundleFn(hook), 0);
    assert s.trace + [] == s.trace;
  }

  /** The Cript's part of a hook with two functions. */
  lemma UsualPart(s: State, env: Env, doBit: Mask, doFn: Fn, glbBit: Mask, glbFn: Fn)
    ensures
      var s2 := OfferEnabled(s, env, doBit, doFn, glbBit, glbFn);
      NoBundles(s, s2) && NoBundles(s, FlushRequest(s2)) && NoBundles(s, FlushBoth(s2, env))
  {
    var s2 := OfferEnabled(s, env, doBit, doFn, glbBit, glbFn);
    EnabledCallsNoBundles(s, env, doBit, doFn, glbBit, glbFn);
    FlushCallsNoBundles(s2, env);
    NoBundlesTransitive(s, s2, FlushRequest(s2));
    NoBundlesTransitive(s, s2, FlushBoth(s2, env));
  }

  lemma ReadRequestPart(s: State, env: Env)
    ensures NoBundles(s, FlushRequest(OfferToCript(s, env, GlbReadRequest)))
  {
    var s2 := OfferToCript(s, env, GlbReadRequest);
    CriptCallsNoBundles(s, env, GlbReadRequest);
    FlushCallsNoBundles(s2, env);
    NoBundlesTransitive(s, s2, FlushRequest(s2));
  }

  lemma PreRemapPart(s: State, env: Env)
    ensures NoBundles(s, FlushBoth(if Has(s.enabled, GLB_PRE_REMAP) then OfferToCript(s, env, GlbPreRemap) else s, env))
  {
    var s2 := if Has(s.enabled, GLB_PRE_REMAP) then OfferToCript(s, env, GlbPreRemap) else s;
    CriptCallsNoBundles(s, env, GlbPreRemap);
    FlushCallsNoBundles(s2, env);
    NoBundlesTransitive(s, s2, FlushBoth(s2, env));
  }

  lemma ClosePart(s: State, env: Env)
    ensures NoBundles(BundlePart(s, env, TxnClose), OnTxnClose(s, env))
  {
    var s1 := BundlePart(s, env, TxnClose);
    if Has(s.enabled, Select(TxnClose)) {
      var s2 := OfferEnabled(s1, env, DO_TXN_CLOSE, DoTxnClose, GLB_TXN_CLOSE, GlbTxnClose);
      EnabledCallsNoBundles(s1, env, DO_TXN_CLOSE, DoTxnClose, GLB_TXN_CLOSE, GlbTxnClose);
      NoBundlesTransitive(s1, s2, Did(Did(s2, DestroyCont), Release));
    }
  }

  /** After the bundles' part no bundle is called. */
  lemma RestCallsNoBundles(s: State, env: Env, hook: Hook)
    ensures NoBundles(BundlePart(s, env, hook), OnHook(s, env, hook))
  {
    var s1 := BundlePart(s, env, hook);
    match hook
    case ReadRequest => ReadRequestPart(s1, env);
    case PreRemap => PreRemapPart(s1, env);
    case PostRemap => UsualPart(s1, env, DO_POST_REMAP, DoPostRemap, GLB_POST_REMAP, GlbPostRemap);
    case CacheLookup => UsualPart(s1, env, DO_CACHE_LOOKUP, DoCacheLookup, GLB_CACHE_LOOKUP, DoCacheLookup);
    case SendRequest => UsualPart(s1, env, DO_SEND_REQUEST, DoSendRequest, GLB_SEND_REQUEST, GlbSendRequest);
    case ReadResponse => UsualPart(s1, env, DO_READ_RESPONSE, DoReadResponse, GLB_READ_RESPONSE, GlbReadResponse);
    case SendResponse => UsualPart(s1, env, DO_SEND_RESPONSE, DoSendResponse, GLB_SEND_RESPONSE, GlbSendResponse);
    case TxnClose => ClosePart(s, env);
  }

  /** An event calls its bundles first: its trace is theirs and then one without bundle calls. */
  lemma EventSplits(s: State, env: Env, hook: Hook) returns (rest: seq<Action>)
    ensures Handle(s, env, hook).trace == s.trace + CallsAt(s, env, hook) + rest
    ensures forall i :: 0 <= i < |rest| ==> !rest[i].RunBundle?
  {
    var s0 := Reset(s);
    var s1, s2 := BundlePart(s0, env, hook), OnHook(s0, env, hook);
    BundlePartCalls(s0, env, hook);
    RestCallsNoBundles(s0, env, hook);
    rest := RestOf(s1, s2);
  }

  lemma RestOf(s1: State, s2: State) returns (rest: seq<Action>)
    requires NoBundles(s1, s2)
    ensures Did(s2, Reenable).trace == s1.trace + rest
    ensures forall i :: 0 <= i < |rest| ==> !rest[i].RunBundle?
  {
    rest := s2.trace[|s1.trace|..] + [Reenable];
    assert s2.trace == s1.trace + s2.trace[|s1.trace|..];
  }

  lemma {:induction false} CallsOfRest(rest: seq<Action>)
    requires forall i :: 0 <= i < |rest| ==> !rest[i].RunBundle?
    ensures BundleCalls(rest) == []
  {
    if rest != [] {
      CallsOfRest(rest[1..]);
    }
  }

  lemma {:induction false} CallsOfBoth(calls: seq<Action>, rest: seq<Action>)
    requires forall i :: 0 <= i < |calls| ==> calls[i].RunBundle?
    requires forall i :: 0 <= i < |rest| ==> !rest[i].RunBundle?
    ensures BundleCalls(calls + rest) == calls
    decreases |calls|
  {
    if calls == [] {
      CallsOfRest(rest);
      assert calls + rest == rest;
    } else {
      CallsOfBoth(calls[1..], rest);
      assert (calls + rest)[1..] == calls[1..] + rest;
      assert [calls[0]] + calls[1..] == calls;
    }
  }

  lemma CallsAreBundles(s: State, env: Env, hook: Hook)
    ensures forall i :: 0 <= i < |CallsAt(s, env, hook)| ==>
      CallsAt(s, env, hook)[i].RunBundle? && CallsAt(s, env, hook)[i].fn == BundleFn(hook)
  {
    WantedExactly(env.bundles, Select(hook), BundleFn(hook), 0);
    var w := Wanted(env.bundles, Select(hook), BundleFn(hook), 0);
    assert forall i :: 0 <= i < |w| ==> Wants(w[i], env.bundles, Select(hook), BundleFn(hook), 0);
  }

  /** At every hook, the bundles called are exactly those whose own mask selects it, in order, if the
      transaction has not failed and the instance's mask selects the hook.  The enabled callbacks play no part
      in this before the close; at the close the bundles are reached only if a close callback is enabled. */
  lemma EventCallsBundles(s: State, env: Env, hook: Hook)
    ensures s.trace <= Handle(s, env, hook).trace
    ensures BundleCalls(Added(s, Handle(s, env, hook))) == CallsAt(s, env, hook)
  {
    var rest := EventSplits(s, env, hook);
    var calls := CallsAt(s, env, hook);
    CallsAreBundles(s, env, hook);
    Regroup(s.trace, calls, rest);
    assert Added(s, Handle(s, env, hook)) == calls + rest;
    CallsOfBoth(calls, rest);
  }

  /** Disabling callbacks, any of them, changes no bundle call of an event before the close. */
  lemma DisablingSparesBundles(s: State, env: Env, hook: Hook, bits: Mask)
    requires hook != TxnClose
    ensures
      var s' := s.(enabled := Without(s.enabled, bits));
      BundleCalls(Added(s', Handle(s', env, hook))) == BundleCalls(Added(s, Handle(s, env, hook)))
  {
    EventCallsBundles(s, env, hook);
    EventCallsBundles(s.(enabled := Without(s.enabled, bits)), env, hook);
  }

  // ---------------------------------------------------------------------------
  // Bundles of a disabled callback, over real transactions

  /** A bundle call among what hooks add comes from one of them, and from the close only if a close callback
      was enabled before. */
  lemma {:induction false} BundleCalledAt(s: State, env: Env, hooks: seq<Hook>, i: nat, fn: Fn) returns (k: nat)
    requires RunBundle(i, fn) in Added(s, Deliver(s, env, hooks))
    ensures k < |hooks| && fn == BundleFn(hooks[k])
    ensures hooks[k] == TxnClose ==> Has(s.enabled, Select(TxnClose))
    decreases |hooks|
  {
    var s1, s' := Handle(s, env, hooks[0]), Deliver(s, env, hooks);
    HandleGrows(s, env, hooks[0], {});
    BlockedStaysQuiet(s1, env, hooks[1..], {});
    if RunBundle(i, fn) in Added(s, s1) {
      k := 0;
      CalledInEvent(s, env, hooks[0], RunBundle(i, fn));
    } else {
      AddedLater(s, s1, s', RunBundle(i, fn));
      k := BundleCalledAt(s1, env, hooks[1..], i, fn);
      k := k + 1;
      if !Has(s.enabled, Select(TxnClose)) {
        SubmaskLacks(s1.enabled, s.enabled, Select(TxnClose));
      }
    }
  }

  lemma AddedLater(s: State, s1: State, s': State, a: Action)
    requires s.trace <= s1.trace <= s'.trace && a in Added(s, s') && a !in Added(s, s1)
    ensures a in Added(s1, s')
  {
    var j :| 0 <= j < |Added(s, s')| && Added(s, s')[j] == a;
    var n := |s1.trace| - |s.trace|;
    assert forall i :: 0 <= i < n ==> Added(s, s1)[i] == Added(s, s')[i];
    assert j >= n && Added(s1, s')[j - n] == a;
  }

  lemma CalledInEvent(s: State, env: Env, hook: Hook, a: Action)
    requires a.RunBundle? && a in Added(s, Handle(s, env, hook))
    ensures a.fn == BundleFn(hook) && Reached(s, env, hook)
  {
    var rest := EventSplits(s, env, hook);
    var calls := CallsAt(s, env, hook);
    CallsAreBundles(s, env, hook);
    Regroup(s.trace, calls, rest);
    assert Added(s, Handle(s, env, hook)) == calls + rest;
    assert a !in rest;
    assert a in calls;
  }

  /** A callback of the transaction disabled `fn`, and bundle `i` runs it later all the same; `closing` tells
      whether the global close bit is still set. */
  ghost predicate BundleRunsDisabled(start: (State, bool), env: Env, first: Mask, before: seq<Hook>, after: seq<Hook>,
                                     i: nat, fn: Fn, closing: bool)
  {
    var s := Between(start, env, before);
    && Possible(start, before, after)
    && Has(first, Own(fn)) && !Has(s.enabled, Own(fn))
    && Has(s.enabled, GLB_TXN_CLOSE) == closing
    && RunBundle(i, fn) in Later(s, env, after)
  }

  /** The functions bundles have for the hooks before the close. */
  predicate BeforeClose(fn: Fn) {
    fn in {DoPostRemap, DoCacheLookup, DoSendRequest, DoReadResponse, DoSendResponse}
  }

  lemma CloseSelects(enabled: Mask)
    ensures Has(enabled, Select(TxnClose)) <==> Has(enabled, DO_TXN_CLOSE) || Has(enabled, GLB_TXN_CLOSE)
  {
    HasJoin(DO_TXN_CLOSE, GLB_TXN_CLOSE, enabled);
    assert forall a: Mask, b: Mask :: Has(a, b) <==> Has(b, a);
  }

  lemma OnlyTheseRun(start: (State, bool), env: Env, first: Mask, before: seq<Hook>, after: seq<Hook>, i: nat, fn: Fn,
                     closing: bool)
    requires BundleRunsDisabled(start, env, first, before, after, i, fn, closing)
    ensures BeforeClose(fn) || (fn == DoTxnClose && closing)
  {
    var s := Between(start, env, before);
    var k := BundleCalledAt(s, env, after + [TxnClose], i, fn);
    CloseSelects(s.enabled);
  }

  /** The first thing an event does is to call its only bundle, if that is reached and selected. */
  lemma OnlyBundleFirst(s: State, env: Env, hook: Hook)
    requires Reached(s, env, hook) && |env.bundles| == 1 && Has(env.bundles[0], Select(hook))
    ensures
      var t := Handle(s, env, hook).trace;
      |s.trace| < |t| && t[|s.trace|] == RunBundle(0, BundleFn(hook))
  {
    var rest := EventSplits(s, env, hook);
    assert CallsAt(s, env, hook)[0] == RunBundle(0, BundleFn(hook));
  }

  /** The hook at which bundles run a function under its own bit. */
  function HookOf(fn: Fn): Hook {
    match fn
    case DoPostRemap => PostRemap
    case DoCacheLookup => CacheLookup
    case DoSendRequest => SendRequest
    case DoReadResponse => ReadResponse
    case DoSendResponse => SendResponse
    case _ => TxnClose
  }

  function HooksOf(fn: Fn): seq<Hook> {
    if fn == DoTxnClose then [] else [HookOf(fn)]
  }

  function Closing(closing: bool): Mask {
    if closing then GLB_TXN_CLOSE else 0
  }

  /** The functions in question, given whether the global close bit stays set. */
  predicate InQuestion(fn: Fn, closing: bool) {
    BeforeClose(fn) || (fn == DoTxnClose && closing)
  }

  /** A state in which `fn` is disabled and its bundle is still reached. */
  ghost predicate Ready(s: State, env: Env, fn: Fn, closing: bool) {
    && !s.failed && env.bundles == [Own(fn)] && Has(env.instanceMask, Select(HookOf(fn)))
    && !Has(s.enabled, Own(fn)) && Has(s.enabled, GLB_TXN_CLOSE) == closing
  }

  lemma OwnSelects(fn: Fn)
    requires BeforeClose(fn) || fn == DoTxnClose
    ensures Has(Own(fn), Select(HookOf(fn))) && BundleFn(HookOf(fn)) == fn
  {
  }

  lemma ReadyRuns(s: State, env: Env, fn: Fn, closing: bool)
    requires InQuestion(fn, closing) && Ready(s, env, fn, closing)
    ensures RunBundle(0, fn) in Later(s, env, HooksOf(fn))
  {
    var hook := HookOf(fn);
    OwnSelects(fn);
    CloseSelects(s.enabled);
    OnlyBundleFirst(s, env, hook);
    assert (HooksOf(fn) + [TxnClose])[0] == hook;
    FirstThing(s, env, HooksOf(fn), RunBundle(0, fn));
  }

  /** An entry point, or an entry point and one event, that leads to such a state with `fn`'s hook registered. */
  lemma BundleStillRuns(start: (State, bool), env: Env, first: Mask, before: seq<Hook>, fn: Fn, closing: bool)
    requires InQuestion(fn, closing) && Possible(start, before, HooksOf(fn))
    requires Has(first, Own(fn)) && Ready(Between(start, env, before), env, fn, closing)
    ensures BundleRunsDisabled(start, env, first, before, HooksOf(fn), 0, fn, closing)
  {
    ReadyRuns(Between(start, env, before), env, fn, closing);
  }

  // From the start of a global transaction: the start callback disables the function.

  function GlobalMask(fn: Fn, closing: bool): Mask {
    Own(fn) | GlobalBit(HookOf(fn)) | Closing(closing)
  }

  function GlobalEnv(fn: Fn, mask: Mask): Env {
    Env([Own(fn)], mask, {GlbTxnStart}, (n: nat) => Effect(false, Own(fn), false, false))
  }

  /** Disabling `fn` in `mask` takes its bit and leaves the close's as asked. */
  predicate Disables(mask: Mask, fn: Fn, closing: bool) {
    && Has(mask, Own(fn)) && !Has(Without(mask, Own(fn)), Own(fn))
    && Has(Without(mask, Own(fn)), GLB_TXN_CLOSE) == closing
  }

  lemma GlobalMaskFits(fn: Fn, closing: bool)
    requires InQuestion(fn, closing)
    ensures
      var mask := GlobalMask(fn, closing);
      && mask != 0 && Disables(mask, fn, closing) && Has(mask, Select(HookOf(fn)))
      && (fn != DoTxnClose ==> Has(mask, GlobalBit(HookOf(fn))))
  {
    match fn
    case DoPostRemap =>
    case DoCacheLookup =>
    case DoSendRequest =>
    case DoReadResponse =>
    case DoSendResponse =>
    case DoTxnClose =>
  }

  lemma GlobalStarts(fn: Fn, mask: Mask)
    requires mask != 0
    ensures
      var (s, kept) := TxnStart(GlobalEnv(fn, mask));
      kept && !s.failed && s.enabled == Without(mask, Own(fn))
  {
    var env := GlobalEnv(fn, mask);
    assert EffectOf(env, 0) == Effect(false, Own(fn), false, false);
    RegisterGlobalAfter(OfferToCript(NewGlobal(env), env, GlbTxnStart), mask);
  }

  /** The hook of `fn` is registered, where it needs to be. */
  predicate HookRegistered(s: State, fn: Fn) {
    fn != DoTxnClose ==> Registered(s, HookOf(fn))
  }

  lemma HooksPossible(start: (State, bool), fn: Fn)
    requires (BeforeClose(fn) || fn == DoTxnClose) && start.1 && HookRegistered(start.0, fn)
    ensures Possible(start, [], HooksOf(fn))
  {
    if fn != DoTxnClose {
      OneHook(start, HookOf(fn));
    }
  }

  lemma GlobalIsPossible(fn: Fn, closing: bool)
    requires InQuestion(fn, closing)
    ensures Possible(TxnStart(GlobalEnv(fn, GlobalMask(fn, closing))), [], HooksOf(fn))
  {
    GlobalMaskFits(fn, closing);
    RegistersHook(GlobalEnv(fn, GlobalMask(fn, closing)), fn);
    HooksPossible(TxnStart(GlobalEnv(fn, GlobalMask(fn, closing))), fn);
  }

  lemma RegistersHook(env: Env, fn: Fn)
    requires env.instanceMask != 0 && (fn != DoTxnClose ==> Has(env.instanceMask, GlobalBit(HookOf(fn))))
    ensures TxnStart(env).1 && HookRegistered(TxnStart(env).0, fn)
  {
    TxnStartRegisters(env, HookOf(fn));
  }

  lemma GlobalIsReady(fn: Fn, closing: bool)
    requires InQuestion(fn, closing)
    ensures
      var env := GlobalEnv(fn, GlobalMask(fn, closing));
      Has(FirstMask(AtTxnStart, env), Own(fn)) && Ready(Between(Begin(AtTxnStart, env), env, []), env, fn, closing)
  {
    GlobalMaskFits(fn, closing);
    GlobalStarts(fn, GlobalMask(fn, closing));
  }

  lemma GlobalBundleRuns(fn: Fn, closing: bool)
    requires InQuestion(fn, closing)
    ensures
      var env := GlobalEnv(fn, GlobalMask(fn, closing));
      BundleRunsDisabled(Begin(AtTxnStart, env), env, FirstMask(AtTxnStart, env), [], HooksOf(fn), 0, fn, closing)
  {
    var env := GlobalEnv(fn, GlobalMask(fn, closing));
    GlobalIsPossible(fn, closing);
    GlobalIsReady(fn, closing);
    BundleStillRuns(Begin(AtTxnStart, env), env, FirstMask(AtTxnStart, env), [], fn, closing);
  }

  // From a remap: the Cript's function at another hook disables it.

  function OtherFn(fn: Fn): Fn {
    if fn == DoPostRemap then DoSendRequest else DoPostRemap
  }

  function RemapEnv(fn: Fn, inst: Mask): Env {
    Env([Own(fn)], inst, {OtherFn(fn)}, (n: nat) => Effect(false, Own(fn), false, false))
  }

  function InstanceOf(fn: Fn, closing: bool): Mask {
    Own(fn) | Closing(closing)
  }

  lemma InstanceFits(fn: Fn, closing: bool)
    requires InQuestion(fn, closing)
    ensures
      var inst := InstanceOf(fn, closing);
      && Has(inst, Select(HookOf(fn))) && !Has(inst, Select(HookOf(OtherFn(fn)))) && !Has(inst, DO_REMAP)
  {
    match fn
    case DoPostRemap =>
    case DoCacheLookup =>
    case DoSendRequest =>
    case DoReadResponse =>
    case DoSendResponse =>
    case DoTxnClose =>
  }

  /** The mask the transaction starts with. */
  function WholeMask(fn: Fn, closing: bool): Mask {
    Own(OtherFn(fn)) | InstanceOf(fn, closing)
  }

  lemma WholeMaskIs(fn: Fn, closing: bool)
    requires InQuestion(fn, closing)
    ensures AllCallbacks(RemapEnv(fn, InstanceOf(fn, closing))) == WholeMask(fn, closing)
  {
    OneFunctionMask();
  }

  lemma OneFunctionMask()
    ensures RemapMask({DoPostRemap}) == DO_POST_REMAP && RemapMask({DoSendRequest}) == DO_SEND_REQUEST
  {
  }

  lemma WholeMaskFits(fn: Fn, closing: bool)
    requires InQuestion(fn, closing)
    ensures
      var mask := WholeMask(fn, closing);
      && Disables(mask, fn, closing) && AnyLater(mask)
      && Has(mask, Own(OtherFn(fn))) && Has(mask, RemapBit(HookOf(OtherFn(fn))))
      && (fn != DoTxnClose ==> Has(mask, RemapBit(HookOf(fn))))
  {
    match fn
    case DoPostRemap =>
    case DoCacheLookup =>
    case DoSendRequest =>
    case DoReadResponse =>
    case DoSendResponse =>
    case DoTxnClose =>
  }

  lemma RemapStarts(fn: Fn, inst: Mask, mask: Mask)
    requires AllCallbacks(RemapEnv(fn, inst)) == mask && !Has(inst, DO_REMAP) && AnyLater(mask)
    ensures
      var env := RemapEnv(fn, inst);
      var (s, kept) := Remap(env);
      kept && !s.failed && s.enabled == mask && RemapCallbacks(NewRemap(env), env).enabled == mask
  {
    var env := RemapEnv(fn, inst);
    assert RemapCallbacks(NewRemap(env), env) == NewRemap(env);
    KeepsContext(NewRemap(env), env);
  }

  /** The Cript's function at the other hook disables `fn`, and nothing else happens to the state. */
  lemma OtherDisables(s: State, inst: Mask, fn: Fn)
    requires !s.failed && !Has(inst, Select(HookOf(OtherFn(fn)))) && Has(s.enabled, Own(OtherFn(fn)))
    ensures
      var s' := Handle(s, RemapEnv(fn, inst), HookOf(OtherFn(fn)));
      !s'.failed && s'.enabled == Without(s.enabled, Own(fn))
  {
    var env := RemapEnv(fn, inst);
    assert EffectOf(env, s.calls) == Effect(false, Own(fn), false, false);
  }

  lemma OneBefore(start: (State, bool), env: Env, hook: Hook)
    ensures Between(start, env, [hook]) == Handle(start.0, env, hook)
  {
    assert [hook][1..] == [] && Deliver(Handle(start.0, env, hook), env, []) == Handle(start.0, env, hook);
  }

  /** The hooks of the transaction are registered. */
  predicate BothRegistered(s: State, fn: Fn) {
    Registered(s, HookOf(OtherFn(fn))) && HookRegistered(s, fn)
  }

  lemma BothPossible(start: (State, bool), fn: Fn)
    requires (BeforeClose(fn) || fn == DoTxnClose) && start.1 && BothRegistered(start.0, fn)
    ensures Possible(start, [HookOf(OtherFn(fn))], HooksOf(fn))
  {
  }

  lemma RegistersBoth(env: Env, fn: Fn)
    requires Remap(env).1
    requires
      var m := RemapCallbacks(NewRemap(env), env).enabled;
      Has(m, RemapBit(HookOf(OtherFn(fn)))) && (fn != DoTxnClose ==> Has(m, RemapBit(HookOf(fn))))
    ensures BothRegistered(Remap(env).0, fn)
  {
    RegisteredByMask(env, HookOf(OtherFn(fn)));
    RegisteredByMask(env, HookOf(fn));
  }

  lemma RemapIsPossible(fn: Fn, closing: bool)
    requires InQuestion(fn, closing)
    ensures Possible(Remap(RemapEnv(fn, InstanceOf(fn, closing))), [HookOf(OtherFn(fn))], HooksOf(fn))
  {
    WholeMaskIs(fn, closing);
    WholeMaskFits(fn, closing);
    InstanceFits(fn, closing);
    RemapStarts(fn, InstanceOf(fn, closing), WholeMask(fn, closing));
    RegistersBoth(RemapEnv(fn, InstanceOf(fn, closing)), fn);
    BothPossible(Remap(RemapEnv(fn, InstanceOf(fn, closing))), fn);
  }

  lemma RemapIsReady(fn: Fn, closing: bool)
    requires InQuestion(fn, closing)
    ensures
      var env := RemapEnv(fn, InstanceOf(fn, closing));
      && Has(FirstMask(AtRemap, env), Own(fn))
      && Ready(Between(Begin(AtRemap, env), env, [HookOf(OtherFn(fn))]), env, fn, closing)
  {
    var env := RemapEnv(fn, InstanceOf(fn, closing));
    WholeMaskIs(fn, closing);
    WholeMaskFits(fn, closing);
    InstanceFits(fn, closing);
    RemapStarts(fn, InstanceOf(fn, closing), WholeMask(fn, closing));
    OtherDisables(Remap(env).0, InstanceOf(fn, closing), fn);
    OneBefore(Begin(AtRemap, env), env, HookOf(OtherFn(fn)));
  }

  lemma RemapBundleRuns(fn: Fn, closing: bool)
    requires InQuestion(fn, closing)
    ensures
      var env := RemapEnv(fn, InstanceOf(fn, closing));
      BundleRunsDisabled(Begin(AtRemap, env), env, FirstMask(AtRemap, env), [HookOf(OtherFn(fn))], HooksOf(fn), 0, fn,
                         closing)
  {
    var env := RemapEnv(fn, InstanceOf(fn, closing));
    RemapIsPossible(fn, closing);
    RemapIsReady(fn, closing);
    BundleStillRuns(Begin(AtRemap, env), env, FirstMask(AtRemap, env), [HookOf(OtherFn(fn))], fn, closing);
  }

  /** From either entry point there is a transaction in which a callback disables `fn` and a bundle runs it
      later, with the global close bit set or clear as `closing` says, if and only if `fn` belongs to a hook
      before the close, or is the close function and the global close bit is set. */
  lemma BundleRunsDisabledIff(entry: Entry, fn: Fn, closing: bool)
    ensures
      (exists env, before, after, i ::
         BundleRunsDisabled(Begin(entry, env), env, FirstMask(entry, env), before, after, i, fn, closing)) <==>
      fn in {DoPostRemap, DoCacheLookup, DoSendRequest, DoReadResponse, DoSendResponse} || (fn == DoTxnClose && closing)
  {
    if InQuestion(fn, closing) {
      match entry {
        case AtRemap => RemapBundleRuns(fn, closing);
        case AtTxnStart => GlobalBundleRuns(fn, closing);
      }
    } else {
      forall env, before, after, i
        ensures !BundleRunsDisabled(Begin(entry, env), env, FirstMask(entry, env), before, after, i, fn, closing)
      {
        if BundleRunsDisabled(Begin(entry, env), env, FirstMask(entry, env), before, after, i, fn, closing) {
          OnlyTheseRun(Begin(entry, env), env, FirstMask(entry, env), before, after, i, fn, closing);
        }
      }
    }
  }
}
