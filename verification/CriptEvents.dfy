/**
  Exactly what every event and both entry points do, in terms of the script alone:
  which bundles and which function of the Cript run, and which URL updates follow.
 */
module CriptEvents {
  import opened Cripts
  import opened CriptRuns
  import opened CriptInstance
  import opened CriptScript
  import opened CriptSafety
  import opened CriptLimits
  import opened CriptBundles
  import opened Options

  // ---------------------------------------------------------------------------
  // The tables

  function Either(enabled: Mask, doBit: Mask, doFn: Fn, glbBit: Mask, glbFn: Fn): Option<Fn> {
    if Has(enabled, doBit) then Some(doFn) else if Has(enabled, glbBit) then Some(glbFn) else None
  }

  /** The function of the Cript that an event is for, given whether the transaction had failed and the
      callbacks that the bundles left enabled. */
  function Chosen(hook: Hook, failed: bool, enabled: Mask): Option<Fn> {
    match hook
    case ReadRequest => if failed then None else Some(GlbReadRequest)
    case PreRemap => if Has(enabled, GLB_PRE_REMAP) then Some(GlbPreRemap) else None
    case PostRemap => Either(enabled, DO_POST_REMAP, DoPostRemap, GLB_POST_REMAP, GlbPostRemap)
    case CacheLookup =>
      if failed then None else Either(enabled, DO_CACHE_LOOKUP, DoCacheLookup, GLB_CACHE_LOOKUP, DoCacheLookup)
    case SendRequest =>
      if failed then None else Either(enabled, DO_SEND_REQUEST, DoSendRequest, GLB_SEND_REQUEST, GlbSendRequest)
    case ReadResponse =>
      if failed then None else Either(enabled, DO_READ_RESPONSE, DoReadResponse, GLB_READ_RESPONSE, GlbReadResponse)
    case SendResponse =>
      if failed then None else Either(enabled, DO_SEND_RESPONSE, DoSendResponse, GLB_SEND_RESPONSE, GlbSendResponse)
    case TxnClose => Either(enabled, DO_TXN_CLOSE, DoTxnClose, GLB_TXN_CLOSE, GlbTxnClose)
  }

  /** The Cript's call of an event: the chosen function, if the Cript defines it. */
  function CriptCall(s: State, env: Env, hook: Hook): seq<Action> {
    match Chosen(hook, s.failed, Left(s.enabled, env, s.calls, |CallsAt(s, env, hook)|))
    case Some(fn) => if fn in env.defined then [RunCript(fn)] else []
    case None => []
  }

  /** The callbacks an event makes. */
  function CallsMade(s: State, env: Env, hook: Hook): nat {
    |CallsAt(s, env, hook)| + |CriptCall(s, env, hook)|
  }

  /** The transaction has failed once the event's callbacks are made. */
  ghost predicate FailedAfter(s: State, env: Env, hook: Hook) {
    s.failed || Fails(env, s.calls, CallsMade(s, env, hook))
  }

  /** The cache key is updated around the remap, if a callback of the event changed it and none failed. */
  ghost predicate UpdatesCache(s: State, env: Env, hook: Hook) {
    && hook in {PreRemap, PostRemap} && !FailedAfter(s, env, hook)
    && ChangesCache(env, s.calls, CallsMade(s, env, hook))
  }

  /** The request URL is updated if a callback of the event changed it: at the two request hooks whatever the
      callbacks did, around the remap if none failed. */
  ghost predicate UpdatesRequest(s: State, env: Env, hook: Hook) {
    && (if hook in {ReadRequest, SendRequest} then !s.failed
        else hook in {PreRemap, PostRemap} && !FailedAfter(s, env, hook))
    && ChangesRequest(env, s.calls, CallsMade(s, env, hook))
  }

  function When(b: bool, a: Action): seq<Action> {
    if b then [a] else []
  }

  function Ending(hook: Hook): seq<Action> {
    if hook == TxnClose then [DestroyCont, Release, Reenable] else [Reenable]
  }

  /** Everything an event does, in order. */
  ghost function EventActions(s: State, env: Env, hook: Hook): seq<Action> {
    CallsAt(s, env, hook) + CriptCall(s, env, hook) + When(UpdatesCache(s, env, hook), UpdateCacheUrl) +
    When(UpdatesRequest(s, env, hook), UpdateRequestUrl) + Ending(hook)
  }

  // ---------------------------------------------------------------------------
  // The parts of an event

  /** `s'` is `s` after `n` callbacks with the actions `calls`. */
  ghost predicate Step(s: State, s': State, env: Env, n: nat, calls: seq<Action>) {
    Ran(s, s', env, n) && s'.trace == s.trace + calls
  }

  lemma StepBoth(a: State, b: State, c: State, env: Env, n: nat, m: nat, x: seq<Action>, y: seq<Action>)
    requires Step(a, b, env, n, x) && Step(b, c, env, m, y)
    ensures Step(a, c, env, n + m, x + y)
  {
    RanBoth(a, b, c, env, n, m);
    Regroup(a.trace, x, y);
  }

  lemma BundleStep(s: State, env: Env, hook: Hook)
    ensures Step(s, BundlePart(s, env, hook), env, |CallsAt(s, env, hook)|, CallsAt(s, env, hook))
  {
    BundlePartCalls(s, env, hook);
    RanNone(s, env);
    BundlesRan(s, env, Select(hook), BundleFn(hook), 0);
  }

  function CallOf(fn: Option<Fn>, defined: set<Fn>): seq<Action> {
    if fn.Some? && fn.value in defined then [RunCript(fn.value)] else []
  }

  lemma CriptStep(s: State, env: Env, fn: Fn)
    ensures Step(s, OfferToCript(s, env, fn), env, |CallOf(Some(fn), env.defined)|, CallOf(Some(fn), env.defined))
  {
    RanNone(s, env);
    RanOne(s, env, RunCript(fn));
    assert s.trace + [] == s.trace;
  }

  lemma NoStep(s: State, env: Env)
    ensures Step(s, s, env, 0, [])
  {
    RanNone(s, env);
    assert s.trace + [] == s.trace;
  }

  lemma EitherStep(s: State, env: Env, doBit: Mask, doFn: Fn, glbBit: Mask, glbFn: Fn)
    ensures
      var call := CallOf(Either(s.enabled, doBit, doFn, glbBit, glbFn), env.defined);
      Step(s, OfferEnabled(s, env, doBit, doFn, glbBit, glbFn), env, |call|, call)
  {
    CriptStep(s, env, doFn);
    CriptStep(s, env, glbFn);
    NoStep(s, env);
  }

  /** The callbacks of an event, without the updates. */
  function CallbackPart(s: State, env: Env, hook: Hook): State {
    var s1 := BundlePart(s, env, hook);
    match hook
    case ReadRequest => if s.failed then s1 else OfferToCript(s1, env, GlbReadRequest)
    case PreRemap => if Has(s1.enabled, GLB_PRE_REMAP) then OfferToCript(s1, env, GlbPreRemap) else s1
    case PostRemap => OfferEnabled(s1, env, DO_POST_REMAP, DoPostRemap, GLB_POST_REMAP, GlbPostRemap)
    case CacheLookup =>
      if s.failed then s1 else OfferEnabled(s1, env, DO_CACHE_LOOKUP, DoCacheLookup, GLB_CACHE_LOOKUP, DoCacheLookup)
    case SendRequest =>
      if s.failed then s1 else OfferEnabled(s1, env, DO_SEND_REQUEST, DoSendRequest, GLB_SEND_REQUEST, GlbSendRequest)
    case ReadResponse =>
      if s.failed then s1 else OfferEnabled(s1, env, DO_READ_RESPONSE, DoReadResponse, GLB_READ_RESPONSE, GlbReadResponse)
    case SendResponse =>
      if s.failed then s1 else OfferEnabled(s1, env, DO_SEND_RESPONSE, DoSendResponse, GLB_SEND_RESPONSE, GlbSendResponse)
    case TxnClose => OfferEnabled(s1, env, DO_TXN_CLOSE, DoTxnClose, GLB_TXN_CLOSE, GlbTxnClose)
  }

  lemma ChosenStep(s: State, env: Env, hook: Hook)
    ensures
      var s1 := BundlePart(s, env, hook);
      var call := CallOf(Chosen(hook, s.failed, s1.enabled), env.defined);
      Step(s1, CallbackPart(s, env, hook), env, |call|, call)
  {
    var s1 := BundlePart(s, env, hook);
    NoStep(s1, env);
    match hook
    case ReadRequest => CriptStep(s1, env, GlbReadRequest);
    case PreRemap => CriptStep(s1, env, GlbPreRemap);
    case PostRemap => EitherStep(s1, env, DO_POST_REMAP, DoPostRemap, GLB_POST_REMAP, GlbPostRemap);
    case CacheLookup => EitherStep(s1, env, DO_CACHE_LOOKUP, DoCacheLookup, GLB_CACHE_LOOKUP, DoCacheLookup);
    case SendRequest => EitherStep(s1, env, DO_SEND_REQUEST, DoSendRequest, GLB_SEND_REQUEST, GlbSendRequest);
    case ReadResponse => EitherStep(s1, env, DO_READ_RESPONSE, DoReadResponse, GLB_READ_RESPONSE, GlbReadResponse);
    case SendResponse => EitherStep(s1, env, DO_SEND_RESPONSE, DoSendResponse, GLB_SEND_RESPONSE, GlbSendResponse);
    case TxnClose => EitherStep(s1, env, DO_TXN_CLOSE, DoTxnClose, GLB_TXN_CLOSE, GlbTxnClose);
  }

  lemma CallbackStep(s: State, env: Env, hook: Hook)
    ensures Step(s, CallbackPart(s, env, hook), env, CallsMade(s, env, hook),
                 CallsAt(s, env, hook) + CriptCall(s, env, hook))
  {
    var s1 := BundlePart(s, env, hook);
    BundleStep(s, env, hook);
    ChosenStep(s, env, hook);
    var call := CallOf(Chosen(hook, s.failed, s1.enabled), env.defined);
    assert call == CriptCall(s, env, hook);
    StepBoth(s, s1, CallbackPart(s, env, hook), env, |CallsAt(s, env, hook)|, |call|, CallsAt(s, env, hook), call);
  }

  /** An event in its two parts: the callbacks, and what is done about the URLs or at the end. */
  lemma EventParts(s: State, env: Env, hook: Hook)
    ensures
      var c := CallbackPart(s, env, hook);
      OnHook(s, env, hook) ==
        if hook in {PreRemap, PostRemap} then FlushBoth(c, env)
        else if hook in {ReadRequest, SendRequest} then (if s.failed then c else FlushRequest(c))
        else if hook == TxnClose then Did(Did(c, DestroyCont), Release)
        else c
  {
    if hook == TxnClose {
      CloseSelects(s.enabled);
    }
  }

  lemma RequestPart(c: State, updates: bool)
    requires c.requestModified == updates
    ensures FlushRequest(c) == c.(trace := c.trace + When(updates, UpdateRequestUrl))
  {
    assert c.trace + [] == c.trace;
  }

  /** The updates around the remap. */
  lemma BothParts(c: State, env: Env, cache: bool, request: bool)
    requires cache == (!c.failed && c.cacheModified) && request == (!c.failed && c.requestModified)
    ensures
      var c' := FlushBoth(c, env);
      && c'.trace == c.trace + When(cache, UpdateCacheUrl) + When(request, UpdateRequestUrl)
      && c'.enabled == c.enabled && c'.calls == c.calls + |When(cache, UpdateCacheUrl)|
      && c'.failed == (c.failed || (cache && EffectOf(env, c.calls).fail))
      && c'.requestModified == c.requestModified && c'.cacheModified == (c.cacheModified && !cache)
  {
    assert c.trace + [] == c.trace;
  }

  /** What an event does before its end. */
  lemma BeforeEnding(s: State, env: Env, hook: Hook)
    requires s == Reset(s)
    ensures
      var s' := OnHook(s, env, hook);
      var t := s.trace + (CallsAt(s, env, hook) + CriptCall(s, env, hook)) +
        When(UpdatesCache(s, env, hook), UpdateCacheUrl) + When(UpdatesRequest(s, env, hook), UpdateRequestUrl);
      s'.trace == if hook == TxnClose then t + [DestroyCont] + [Release] else t
  {
    var c := CallbackPart(s, env, hook);
    CallbackStep(s, env, hook);
    EventParts(s, env, hook);
    assert c.failed == FailedAfter(s, env, hook);
    assert c.trace + [] == c.trace;
    if hook in {PreRemap, PostRemap} {
      BothParts(c, env, UpdatesCache(s, env, hook), UpdatesRequest(s, env, hook));
    } else if hook in {ReadRequest, SendRequest} && !s.failed {
      RequestPart(c, UpdatesRequest(s, env, hook));
    }
  }

  /** Every event does exactly this: the bundles that the masks select, the one function of the Cript that the
      hook and the bits left after those call for, the updates of URLs that a callback of this event changed, and
      the end. */
  lemma EventTrace(s: State, env: Env, hook: Hook)
    ensures Handle(s, env, hook).trace == s.trace + EventActions(s, env, hook)
  {
    var s0 := Reset(s);
    BeforeEnding(s0, env, hook);
    var calls := CallsAt(s, env, hook) + CriptCall(s, env, hook);
    var cache, request := When(UpdatesCache(s, env, hook), UpdateCacheUrl), When(UpdatesRequest(s, env, hook), UpdateRequestUrl);
    assert CallsAt(s0, env, hook) == CallsAt(s, env, hook) && CriptCall(s0, env, hook) == CriptCall(s, env, hook);
    assert UpdatesCache(s0, env, hook) == UpdatesCache(s, env, hook);
    assert UpdatesRequest(s0, env, hook) == UpdatesRequest(s, env, hook);
    if hook == TxnClose {
      assert [DestroyCont] + [Release] + [Reenable] == Ending(hook);
      RegroupEnd(s.trace, calls, cache, request, [DestroyCont], [Release], [Reenable]);
    } else {
      RegroupParts(s.trace, calls, cache, request, Ending(hook));
    }
  }

  lemma RegroupParts(t: seq<Action>, a: seq<Action>, b: seq<Action>, c: seq<Action>, d: seq<Action>)
    ensures t + a + b + c + d == t + (a + b + c + d)
  {
  }

  lemma RegroupEnd(t: seq<Action>, a: seq<Action>, b: seq<Action>, c: seq<Action>, d: seq<Action>, e: seq<Action>,
                   f: seq<Action>)
    ensures t + a + b + c + d + e + f == t + (a + b + c + (d + e + f))
  {
  }

  /** Every event leaves exactly this state: the bits that its callbacks left, the failure if one of them or
      setting the cache key failed, and the script where it stopped. */
  lemma EventState(s: State, env: Env, hook: Hook)
    ensures
      var s' := Handle(s, env, hook);
      var n := CallsMade(s, env, hook);
      && s'.enabled == Left(s.enabled, env, s.calls, n)
      && s'.failed == (FailedAfter(s, env, hook) || (UpdatesCache(s, env, hook) && EffectOf(env, s.calls + n).fail))
      && s'.calls == s.calls + n + |When(UpdatesCache(s, env, hook), UpdateCacheUrl)|
      && s'.requestModified == ChangesRequest(env, s.calls, n)
      && s'.cacheModified == (ChangesCache(env, s.calls, n) && !UpdatesCache(s, env, hook))
  {
    var s0 := Reset(s);
    StateBeforeEnding(s0, env, hook);
    assert CallsMade(s0, env, hook) == CallsMade(s, env, hook);
    assert UpdatesCache(s0, env, hook) == UpdatesCache(s, env, hook);
  }

  lemma StateBeforeEnding(s: State, env: Env, hook: Hook)
    requires s == Reset(s)
    ensures
      var s' := OnHook(s, env, hook);
      var n := CallsMade(s, env, hook);
      && s'.enabled == Left(s.enabled, env, s.calls, n)
      && s'.failed == (FailedAfter(s, env, hook) || (UpdatesCache(s, env, hook) && EffectOf(env, s.calls + n).fail))
      && s'.calls == s.calls + n + |When(UpdatesCache(s, env, hook), UpdateCacheUrl)|
      && s'.requestModified == ChangesRequest(env, s.calls, n)
      && s'.cacheModified == (ChangesCache(env, s.calls, n) && !UpdatesCache(s, env, hook))
  {
    var c := CallbackPart(s, env, hook);
    CallbackStep(s, env, hook);
    EventParts(s, env, hook);
    if hook in {PreRemap, PostRemap} {
      BothParts(c, env, UpdatesCache(s, env, hook), UpdatesRequest(s, env, hook));
    }
  }

  lemma CountWhen(b: bool, x: Action, a: Action)
    ensures Count(When(b, x), a) == if b && a == x then 1 else 0
  {
    CountOne(x, a);
  }

  /** A URL is updated once in an event that has to, and not at all in any other. */
  lemma UpdatedOnce(s: State, env: Env, hook: Hook)
    ensures
      var t := EventActions(s, env, hook);
      && Count(t, UpdateCacheUrl) == (if UpdatesCache(s, env, hook) then 1 else 0)
      && Count(t, UpdateRequestUrl) == (if UpdatesRequest(s, env, hook) then 1 else 0)
  {
    CountUpdates(s, env, hook, UpdateCacheUrl);
    CountUpdates(s, env, hook, UpdateRequestUrl);
  }

  lemma CountUpdates(s: State, env: Env, hook: Hook, a: Action)
    requires a.UpdateCacheUrl? || a.UpdateRequestUrl?
    ensures Count(EventActions(s, env, hook), a) ==
      (if UpdatesCache(s, env, hook) && a.UpdateCacheUrl? then 1 else 0) +
      (if UpdatesRequest(s, env, hook) && a.UpdateRequestUrl? then 1 else 0)
  {
    var w, x := CallsAt(s, env, hook), CriptCall(s, env, hook);
    var y, z := When(UpdatesCache(s, env, hook), UpdateCacheUrl), When(UpdatesRequest(s, env, hook), UpdateRequestUrl);
    CallsAreBundles(s, env, hook);
    CountAbsent(w, a);
    CountAbsent(x, a);
    CountAbsent(Ending(hook), a);
    CountWhen(UpdatesCache(s, env, hook), UpdateCacheUrl, a);
    CountWhen(UpdatesRequest(s, env, hook), UpdateRequestUrl, a);
    CountConcat(w, x, a);
    CountConcat(w + x, y, a);
    CountConcat(w + x + y, z, a);
    CountConcat(w + x + y + z, Ending(hook), a);
  }

  // ---------------------------------------------------------------------------
  // The entry points

  /** The remap's callbacks fail the transaction. */
  ghost predicate RemapFails(env: Env) {
    Fails(env, 0, |RemapCalls(env)|)
  }

  ghost predicate RemapUpdatesCache(env: Env) {
    !RemapFails(env) && ChangesCache(env, 0, |RemapCalls(env)|)
  }

  ghost predicate RemapUpdatesRequest(env: Env) {
    !RemapFails(env) && ChangesRequest(env, 0, |RemapCalls(env)|)
  }

  ghost predicate Kept(env: Env) {
    !RemapFails(env) && Has(MaskLeft(env), !DO_REMAP)
  }

  /** Everything a remap does, in order. */
  ghost function RemapActions(env: Env): seq<Action> {
    RemapCalls(env) + When(RemapUpdatesCache(env), UpdateCacheUrl) + When(RemapUpdatesRequest(env), UpdateRequestUrl) +
    (if Kept(env) then RemapSetup(MaskLeft(env)) + [Execute] else [Execute, Release])
  }

  lemma FinishTrace(s: State, env: Env)
    ensures
      var s1 := FlushBoth(s, env);
      FinishRemap(s, env).0.trace == s1.trace +
        if FinishRemap(s, env).1 then RemapSetup(s1.enabled) + [Execute] else [Execute, Release]
  {
    var s1 := FlushBoth(s, env);
    if FinishRemap(s, env).1 {
      RegisterRemapAfter(s1);
      DidAfter(s1, RemapSetup(s1.enabled), Execute);
    } else {
      assert s1.trace + [Execute] + [Release] == s1.trace + [Execute, Release];
    }
  }

  /** Every remap does exactly this: all bundles and the Cript if the remap is asked for, the updates of URLs
      that a callback changed if none failed, and the hooks of the callbacks that are left. */
  lemma RemapTrace(env: Env)
    ensures Remap(env).0.trace == RemapActions(env) && Remap(env).1 == Kept(env)
  {
    var s := RemapCallbacks(NewRemap(env), env);
    RemapCallsMade(env);
    RemapKeeps(env);
    BothParts(s, env, RemapUpdatesCache(env), RemapUpdatesRequest(env));
    FinishTrace(s, env);
  }

  /** The remap reports a changed URL exactly if one of its callbacks changed it. */
  lemma RemapReports(env: Env)
    ensures Remap(env).0.requestModified == ChangesRequest(env, 0, |RemapCalls(env)|)
  {
    var s := RemapCallbacks(NewRemap(env), env);
    RemapCallsMade(env);
    BothParts(s, env, RemapUpdatesCache(env), RemapUpdatesRequest(env));
    RegisterRemapAfter(FlushBoth(s, env));
  }

  /** Everything the start of a global transaction does. */
  function StartActions(env: Env): seq<Action> {
    CallOf(Some(GlbTxnStart), env.defined) +
    (if env.instanceMask != 0 then GlobalSetup(env.instanceMask) else [Release]) + [Reenable]
  }

  lemma StartTrace(env: Env)
    ensures TxnStart(env).0.trace == StartActions(env)
    ensures TxnStart(env).0.enabled == Left(env.instanceMask, env, 0, |CallOf(Some(GlbTxnStart), env.defined)|)
  {
    var s := NewGlobal(env);
    var s1 := OfferToCript(s, env, GlbTxnStart);
    CriptStep(s, env, GlbTxnStart);
    assert [] + CallOf(Some(GlbTxnStart), env.defined) == CallOf(Some(GlbTxnStart), env.defined);
    RegisterGlobalAfter(s1, env.instanceMask);
  }

  /** The functions a remap Cript has, next to its remap function. */
  predicate RemapFn(fn: Fn) {
    fn in {DoPostRemap, DoCacheLookup, DoSendRequest, DoReadResponse, DoSendResponse, DoTxnClose}
  }

  /** A remap starts with a callback enabled exactly if the Cript defines its function or the instance asks. */
  lemma FirstMaskIff(env: Env, fn: Fn)
    ensures Has(AllCallbacks(env), Own(fn)) <==> (RemapFn(fn) && fn in env.defined) || Has(env.instanceMask, Own(fn))
  {
    DefinedMask(env.defined, fn);
    HasEither(RemapMask(env.defined), env.instanceMask, Own(fn), AllCallbacks(env));
  }

  lemma HasEither(a: Mask, b: Mask, bits: Mask, all: Mask)
    requires all == a | b
    ensures Has(all, bits) <==> Has(a, bits) || Has(b, bits)
  {
    HasJoin(a, b, bits);
  }

  lemma DefinedMask(defined: set<Fn>, fn: Fn)
    ensures Has(RemapMask(defined), Own(fn)) <==> RemapFn(fn) && fn in defined
  {
  }
}
