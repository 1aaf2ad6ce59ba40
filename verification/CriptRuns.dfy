/**
  What holds of every run of the Cripts hook machinery, whatever the bundles, the
  callbacks' behaviour and the order of events: the host delivers hooks that were
  registered, in any order and any number of times, and the close of the
  transaction once, last, if the continuation exists.
 */
module CriptRuns {
  import opened Cripts

  // ---------------------------------------------------------------------------
  // Runs

  /** The continuation is called for each hook in turn. */
  function Deliver(s: State, env: Env, hooks: seq<Hook>): State
    decreases |hooks|
  {
    if hooks == [] then s else Deliver(Handle(s, env, hooks[0]), env, hooks[1..])
  }

  /** A whole transaction: what an entry point left, the delivered hooks, and the close if it was asked for. */
  function Whole(start: (State, bool), env: Env, hooks: seq<Hook>): State {
    if start.1 then Handle(Deliver(start.0, env, hooks), env, TxnClose) else start.0
  }

  predicate Registered(s: State, hook: Hook) {
    AddHook(hook) in s.trace
  }

  /** Hooks the host may deliver before the close. */
  ghost predicate Deliverable(start: (State, bool), hooks: seq<Hook>) {
    forall i :: 0 <= i < |hooks| ==> start.1 && hooks[i] != TxnClose && Registered(start.0, hooks[i])
  }

  // ---------------------------------------------------------------------------
  // What callbacks can do

  /** Callbacks and what they cause, as opposed to the life of context, continuation and hooks. */
  predicate IsWork(a: Action) {
    a.RunBundle? || a.RunCript? || a.UpdateCacheUrl? || a.UpdateRequestUrl?
  }

  /** Work in which the Cript's functions in `banned` have no part. */
  predicate IsWorkBut(a: Action, banned: set<Fn>) {
    IsWork(a) && (a.RunCript? ==> a.fn !in banned)
  }

  /** Every bit of `a` is in `b`. */
  predicate Submask(a: Mask, b: Mask) {
    a & b == a
  }

  lemma SubmaskTransitive(a: Mask, b: Mask, c: Mask)
    requires Submask(a, b) && Submask(b, c)
    ensures Submask(a, c)
  {
  }

  lemma SubmaskOfSelf(a: Mask, d: Mask)
    ensures Submask(a, a) && Submask(Without(a, d), a)
  {
  }

  lemma SubmaskLacks(a: Mask, b: Mask, bits: Mask)
    requires Submask(a, b) && !Has(b, bits)
    ensures !Has(a, bits)
  {
    assert a & bits == (a & b) & bits;
    assert (a & b) & bits == a & (b & bits);
  }

  /** From `s` to `s'` only callbacks and their consequences happened, none of them in `banned`; the failure
      is latched and callbacks only get disabled. */
  ghost predicate Works(s: State, s': State, banned: set<Fn>) {
    && s.trace <= s'.trace
    && (forall i :: |s.trace| <= i < |s'.trace| ==> IsWorkBut(s'.trace[i], banned))
    && (s.failed ==> s'.failed)
    && Submask(s'.enabled, s.enabled)
  }

  lemma WorksTransitive(a: State, b: State, c: State, banned: set<Fn>)
    requires Works(a, b, banned) && Works(b, c, banned)
    ensures Works(a, c, banned)
  {
    SubmaskTransitive(c.enabled, b.enabled, a.enabled);
    assert forall i :: 0 <= i < |b.trace| ==> c.trace[i] == b.trace[i];
  }

  lemma WorksRefl(s: State, banned: set<Fn>)
    ensures Works(s, s, banned) && Works(s, Reset(s), banned) && Works(s, FlushRequest(s), banned)
  {
    SubmaskOfSelf(s.enabled, 0);
  }

  lemma CalledWorks(s: State, env: Env, a: Action, banned: set<Fn>)
    requires IsWorkBut(a, banned)
    ensures Works(s, Called(s, env, a), banned)
  {
    var s' := Called(s, env, a);
    assert Submask(s'.enabled, s.enabled) by {
      SubmaskOfSelf(s.enabled, EffectOf(env, s.calls).disable);
    }
    assert s'.trace == s.trace + [a];
  }

  lemma {:induction false} RunBundlesWorks(s: State, env: Env, select: Mask, fn: Fn, i: nat, banned: set<Fn>)
    requires i <= |env.bundles|
    ensures Works(s, RunBundles(s, env, select, fn, i), banned)
    decreases |env.bundles| - i
  {
    WorksRefl(s, banned);
    if i < |env.bundles| {
      var s1 := if Has(env.bundles[i], select) then Called(s, env, RunBundle(i, fn)) else s;
      CalledWorks(s, env, RunBundle(i, fn), banned);
      RunBundlesWorks(s1, env, select, fn, i + 1, banned);
      WorksTransitive(s, s1, RunBundles(s1, env, select, fn, i + 1), banned);
    }
  }

  lemma OfferToBundlesWorks(s: State, env: Env, select: Mask, fn: Fn, banned: set<Fn>)
    ensures Works(s, OfferToBundles(s, env, select, fn), banned)
  {
    WorksRefl(s, banned);
    RunBundlesWorks(s, env, select, fn, 0, banned);
  }

  lemma OfferToCriptWorks(s: State, env: Env, fn: Fn, banned: set<Fn>)
    requires fn !in banned
    ensures Works(s, OfferToCript(s, env, fn), banned)
  {
    WorksRefl(s, banned);
    CalledWorks(s, env, RunCript(fn), banned);
  }

  /** A function is kept from running at an event by its enabling bit being clear. */
  predicate KeptOff(enabled: Mask, bit: Mask, fn: Fn, banned: set<Fn>) {
    fn in banned ==> !Has(enabled, bit)
  }

  lemma OfferEnabledWorks(s: State, env: Env, doBit: Mask, doFn: Fn, glbBit: Mask, glbFn: Fn, banned: set<Fn>)
    requires KeptOff(s.enabled, doBit, doFn, banned) && KeptOff(s.enabled, glbBit, glbFn, banned)
    ensures Works(s, OfferEnabled(s, env, doBit, doFn, glbBit, glbFn), banned)
  {
    WorksRefl(s, banned);
    if Has(s.enabled, doBit) {
      OfferToCriptWorks(s, env, doFn, banned);
    } else if Has(s.enabled, glbBit) {
      OfferToCriptWorks(s, env, glbFn, banned);
    }
  }

  lemma FlushBothWorks(s: State, env: Env, banned: set<Fn>)
    ensures Works(s, FlushBoth(s, env), banned) && FlushBoth(s, env).enabled == s.enabled
  {
    WorksRefl(s, banned);
    var s1 := FlushCache(s, env);
    assert Works(s, s1, banned);
    WorksRefl(s1, banned);
    WorksTransitive(s, s1, FlushRequest(s1), banned);
  }

  /** The bundles' half of an event, the Cript's half, and the flush, one after the other. */
  lemma TwoStepsWork(s: State, a: State, b: State, banned: set<Fn>)
    requires Works(s, a, banned) && Works(a, b, banned)
    ensures Works(s, b, banned) && Works(s, FlushRequest(b), banned)
  {
    WorksTransitive(s, a, b, banned);
    WorksRefl(b, banned);
    WorksTransitive(s, b, FlushRequest(b), banned);
  }

  /** One hook of the usual kind: bundles, then the Cript. */
  function Usual(s: State, env: Env, doBit: Mask, doFn: Fn, glbBit: Mask, glbFn: Fn): State {
    OfferEnabled(OfferToBundles(s, env, doBit | glbBit, doFn), env, doBit, doFn, glbBit, glbFn)
  }

  lemma KeptOffLater(s: State, s': State, bit: Mask, fn: Fn, banned: set<Fn>)
    requires Works(s, s', banned) && KeptOff(s.enabled, bit, fn, banned)
    ensures KeptOff(s'.enabled, bit, fn, banned)
  {
    if fn in banned {
      SubmaskLacks(s'.enabled, s.enabled, bit);
    }
  }

  lemma UsualWorks(s: State, env: Env, doBit: Mask, doFn: Fn, glbBit: Mask, glbFn: Fn, banned: set<Fn>)
    requires KeptOff(s.enabled, doBit, doFn, banned) && KeptOff(s.enabled, glbBit, glbFn, banned)
    ensures Works(s, Usual(s, env, doBit, doFn, glbBit, glbFn), banned)
    ensures Works(s, FlushRequest(Usual(s, env, doBit, doFn, glbBit, glbFn)), banned)
  {
    var s1 := OfferToBundles(s, env, doBit | glbBit, doFn);
    OfferToBundlesWorks(s, env, doBit | glbBit, doFn, banned);
    KeptOffLater(s, s1, doBit, doFn, banned);
    KeptOffLater(s, s1, glbBit, glbFn, banned);
    OfferEnabledWorks(s1, env, doBit, doFn, glbBit, glbFn, banned);
    TwoStepsWork(s, s1, Usual(s, env, doBit, doFn, glbBit, glbFn), banned);
  }

  /** No event can run a function in `banned`: its bit is clear, and for the lookup function the global bit
      too.  The global lookup function is never run, the remap and start functions only by the entry points,
      and nothing holds back the global read-request function. */
  predicate AllBlocked(enabled: Mask, banned: set<Fn>) {
    && GlbReadRequest !in banned
    && KeptOff(enabled, DO_POST_REMAP, DoPostRemap, banned)
    && KeptOff(enabled, DO_CACHE_LOOKUP, DoCacheLookup, banned)
    && KeptOff(enabled, GLB_CACHE_LOOKUP, DoCacheLookup, banned)
    && KeptOff(enabled, DO_SEND_REQUEST, DoSendRequest, banned)
    && KeptOff(enabled, DO_READ_RESPONSE, DoReadResponse, banned)
    && KeptOff(enabled, DO_SEND_RESPONSE, DoSendResponse, banned)
    && KeptOff(enabled, DO_TXN_CLOSE, DoTxnClose, banned)
    && KeptOff(enabled, GLB_PRE_REMAP, GlbPreRemap, banned)
    && KeptOff(enabled, GLB_POST_REMAP, GlbPostRemap, banned)
    && KeptOff(enabled, GLB_SEND_REQUEST, GlbSendRequest, banned)
    && KeptOff(enabled, GLB_READ_RESPONSE, GlbReadResponse, banned)
    && KeptOff(enabled, GLB_SEND_RESPONSE, GlbSendResponse, banned)
    && KeptOff(enabled, GLB_TXN_CLOSE, GlbTxnClose, banned)
  }

  /** At every hook but the close only callbacks and their consequences happen, and no blocked one. */
  lemma OnHookWorks(s: State, env: Env, hook: Hook, banned: set<Fn>)
    requires hook != TxnClose && AllBlocked(s.enabled, banned)
    ensures Works(s, OnHook(s, env, hook), banned)
  {
    WorksRefl(s, banned);
    match hook
    case ReadRequest => ReadRequestWorks(s, env, banned);
    case SendRequest =>
      UsualWorks(s, env, DO_SEND_REQUEST, DoSendRequest, GLB_SEND_REQUEST, GlbSendRequest, banned);
    case ReadResponse =>
      UsualWorks(s, env, DO_READ_RESPONSE, DoReadResponse, GLB_READ_RESPONSE, GlbReadResponse, banned);
    case SendResponse =>
      UsualWorks(s, env, DO_SEND_RESPONSE, DoSendResponse, GLB_SEND_RESPONSE, GlbSendResponse, banned);
    case CacheLookup =>
      UsualWorks(s, env, DO_CACHE_LOOKUP, DoCacheLookup, GLB_CACHE_LOOKUP, DoCacheLookup, banned);
    case PreRemap => PreRemapWorks(s, env, banned);
    case PostRemap =>
      var s2 := Usual(s, env, DO_POST_REMAP, DoPostRemap, GLB_POST_REMAP, GlbPostRemap);
      UsualWorks(s, env, DO_POST_REMAP, DoPostRemap, GLB_POST_REMAP, GlbPostRemap, banned);
      FlushBothWorks(s2, env, banned);
      WorksTransitive(s, s2, FlushBoth(s2, env), banned);
  }

  lemma ReadRequestWorks(s: State, env: Env, banned: set<Fn>)
    requires GlbReadRequest !in banned
    ensures Works(s, OnReadRequest(s, env), banned)
  {
    WorksRefl(s, banned);
    var s1 := OfferToBundles(s, env, GLB_READ_REQUEST, DoSendRequest);
    OfferToBundlesWorks(s, env, GLB_READ_REQUEST, DoSendRequest, banned);
    OfferToCriptWorks(s1, env, GlbReadRequest, banned);
    TwoStepsWork(s, s1, OfferToCript(s1, env, GlbReadRequest), banned);
  }

  lemma PreRemapWorks(s: State, env: Env, banned: set<Fn>)
    requires KeptOff(s.enabled, GLB_PRE_REMAP, GlbPreRemap, banned)
    ensures Works(s, OnPreRemap(s, env), banned)
  {
    var s1 := OfferToBundles(s, env, GLB_PRE_REMAP, DoPostRemap);
    OfferToBundlesWorks(s, env, GLB_PRE_REMAP, DoPostRemap, banned);
    KeptOffLater(s, s1, GLB_PRE_REMAP, GlbPreRemap, banned);
    var s2 := if Has(s1.enabled, GLB_PRE_REMAP) then OfferToCript(s1, env, GlbPreRemap) else s1;
    WorksRefl(s1, banned);
    if Has(s1.enabled, GLB_PRE_REMAP) {
      OfferToCriptWorks(s1, env, GlbPreRemap, banned);
    }
    TwoStepsWork(s, s1, s2, banned);
    FlushBothWorks(s2, env, banned);
    WorksTransitive(s, s2, FlushBoth(s2, env), banned);
  }

  /** The part of the close that precedes the end of the continuation. */
  function BeforeEnd(s: State, env: Env): State {
    if Has(s.enabled, DO_TXN_CLOSE | GLB_TXN_CLOSE)
    then Usual(s, env, DO_TXN_CLOSE, DoTxnClose, GLB_TXN_CLOSE, GlbTxnClose)
    else s
  }

  lemma CloseWorks(s: State, env: Env, banned: set<Fn>)
    requires AllBlocked(s.enabled, banned)
    ensures Works(s, BeforeEnd(s, env), banned)
    ensures OnTxnClose(s, env) == Did(Did(BeforeEnd(s, env), DestroyCont), Release)
  {
    WorksRefl(s, banned);
    UsualWorks(s, env, DO_TXN_CLOSE, DoTxnClose, GLB_TXN_CLOSE, GlbTxnClose, banned);
  }

  // ---------------------------------------------------------------------------
  // The life of a transaction: its trace without the callbacks

  function Life(trace: seq<Action>): seq<Action> {
    if trace == [] then []
    else
      var n := |trace| - 1;
      Life(trace[..n]) + if IsWork(trace[n]) then [] else [trace[n]]
  }

  lemma LifeExtend(trace: seq<Action>, a: Action)
    requires !IsWork(a)
    ensures Life(trace + [a]) == Life(trace) + [a]
  {
    assert (trace + [a])[..|trace|] == trace;
  }

  lemma {:induction false} LifeOfWork(trace: seq<Action>, n: nat)
    requires n <= |trace| && forall i :: n <= i < |trace| ==> IsWork(trace[i])
    ensures Life(trace) == Life(trace[..n])
    decreases |trace|
  {
    if n == |trace| {
      assert trace[..n] == trace;
    } else {
      var m := |trace| - 1;
      LifeOfWork(trace[..m], n);
      assert trace[..m][..n] == trace[..n];
      assert Life(trace) == Life(trace[..m]) + [];
    }
  }

  lemma LifeWorks(s: State, s': State, banned: set<Fn>)
    requires Works(s, s', banned)
    ensures Life(s'.trace) == Life(s.trace)
  {
    LifeOfWork(s'.trace, |s.trace|);
    assert s'.trace[..|s.trace|] == s.trace;
  }

  ghost predicate NoWork(trace: seq<Action>) {
    forall i :: 0 <= i < |trace| ==> !IsWork(trace[i])
  }

  lemma TakeOneMore(t: seq<Action>, more: seq<Action>, n: nat)
    requires n < |more|
    ensures t + more[..n] + [more[n]] == t + more[..n + 1]
  {
  }

  lemma {:induction false} LifeAppend(trace: seq<Action>, more: seq<Action>, n: nat)
    requires NoWork(more) && n <= |more|
    ensures Life(trace + more[..n]) == Life(trace) + more[..n]
  {
    if n == 0 {
      assert trace + more[..0] == trace;
    } else {
      LifeAppend(trace, more, n - 1);
      LifeExtend(trace + more[..n - 1], more[n - 1]);
      TakeOneMore(trace, more, n - 1);
      TakeOneMore(Life(trace), more, n - 1);
    }
  }

  lemma Regroup(a: seq<Action>, b: seq<Action>, c: seq<Action>)
    ensures a + b + c == a + (b + c)
  {
  }

  function Reenables(n: nat): seq<Action> {
    if n == 0 then [] else [Reenable] + Reenables(n - 1)
  }

  /** How the close ends. */
  function End(): seq<Action> {
    [DestroyCont, Release, Reenable]
  }

  lemma CloseLife(s: State, env: Env)
    ensures Life(Handle(s, env, TxnClose).trace) == Life(s.trace) + End()
  {
    var s0 := Reset(s);
    CloseWorks(s0, env, {});
    var e := BeforeEnd(s0, env);
    LifeWorks(s0, e, {});
    assert e.trace + [DestroyCont] + [Release] + [Reenable] == e.trace + End();
    LifeAppend(e.trace, End(), 3);
    assert End()[..3] == End();
  }

  lemma HookLife(s: State, env: Env, hook: Hook)
    requires hook != TxnClose
    ensures Life(Handle(s, env, hook).trace) == Life(s.trace) + [Reenable]
  {
    var s0 := Reset(s);
    OnHookWorks(s0, env, hook, {});
    LifeWorks(s0, OnHook(s0, env, hook), {});
    LifeExtend(OnHook(s0, env, hook).trace, Reenable);
  }

  lemma {:induction false} DeliverLife(s: State, env: Env, hooks: seq<Hook>)
    requires TxnClose !in hooks
    ensures Life(Deliver(s, env, hooks).trace) == Life(s.trace) + Reenables(|hooks|)
    decreases |hooks|
  {
    if hooks != [] {
      HookLife(s, env, hooks[0]);
      DeliverLife(Handle(s, env, hooks[0]), env, hooks[1..]);
      Regroup(Life(s.trace), [Reenable], Reenables(|hooks| - 1));
    }
  }

  // ---------------------------------------------------------------------------
  // How transactions begin

  /** What a remap asks of the host, in order. */
  function RemapSetup(m: Mask): seq<Action> {
    [CreateCont] + Maybe(m, DO_POST_REMAP, PostRemap) + Maybe(m, DO_SEND_RESPONSE, SendResponse) +
    Maybe(m, DO_SEND_REQUEST, SendRequest) + Maybe(m, DO_READ_RESPONSE, ReadResponse) +
    Maybe(m, DO_CACHE_LOOKUP, CacheLookup) + [AddHook(TxnClose)]
  }

  function GlobalSetup(m: Mask): seq<Action> {
    [CreateCont] + Maybe(m, GLB_READ_REQUEST, ReadRequest) + Maybe(m, GLB_PRE_REMAP, PreRemap) +
    Maybe(m, GLB_POST_REMAP, PostRemap) + Maybe(m, GLB_CACHE_LOOKUP, CacheLookup) +
    Maybe(m, GLB_SEND_REQUEST, SendRequest) + Maybe(m, GLB_READ_RESPONSE, ReadResponse) +
    Maybe(m, GLB_SEND_RESPONSE, SendResponse) + [AddHook(TxnClose)]
  }

  /** `s` with `more` appended to its trace. */
  function After(s: State, more: seq<Action>): State {
    s.(trace := s.trace + more)
  }

  lemma DidAfter(s: State, more: seq<Action>, a: Action)
    ensures Did(After(s, more), a) == After(s, more + [a])
  {
    Regroup(s.trace, more, [a]);
  }

  lemma AddIfAfter(s: State, more: seq<Action>, m: Mask, bit: Mask, hook: Hook)
    ensures AddIf(After(s, more), m, bit, hook) == After(s, more + Maybe(m, bit, hook))
  {
    Regroup(s.trace, more, Maybe(m, bit, hook));
  }

  lemma RegisterRemapAfter(s: State)
    ensures RegisterRemap(s) == After(s, RemapSetup(s.enabled))
  {
    var m := s.enabled;
    var t0 := [CreateCont];
    AddIfAfter(s, t0, m, DO_POST_REMAP, PostRemap);
    var t1 := t0 + Maybe(m, DO_POST_REMAP, PostRemap);
    AddIfAfter(s, t1, m, DO_SEND_RESPONSE, SendResponse);
    var t2 := t1 + Maybe(m, DO_SEND_RESPONSE, SendResponse);
    AddIfAfter(s, t2, m, DO_SEND_REQUEST, SendRequest);
    var t3 := t2 + Maybe(m, DO_SEND_REQUEST, SendRequest);
    AddIfAfter(s, t3, m, DO_READ_RESPONSE, ReadResponse);
    var t4 := t3 + Maybe(m, DO_READ_RESPONSE, ReadResponse);
    AddIfAfter(s, t4, m, DO_CACHE_LOOKUP, CacheLookup);
    DidAfter(s, t4 + Maybe(m, DO_CACHE_LOOKUP, CacheLookup), AddHook(TxnClose));
  }

  lemma RegisterGlobalAfter(s: State, m: Mask)
    ensures RegisterGlobal(s, m) == After(s, GlobalSetup(m))
  {
    var t0 := [CreateCont];
    AddIfAfter(s, t0, m, GLB_READ_REQUEST, ReadRequest);
    var t1 := t0 + Maybe(m, GLB_READ_REQUEST, ReadRequest);
    AddIfAfter(s, t1, m, GLB_PRE_REMAP, PreRemap);
    var t2 := t1 + Maybe(m, GLB_PRE_REMAP, PreRemap);
    AddIfAfter(s, t2, m, GLB_POST_REMAP, PostRemap);
    var t3 := t2 + Maybe(m, GLB_POST_REMAP, PostRemap);
    AddIfAfter(s, t3, m, GLB_CACHE_LOOKUP, CacheLookup);
    var t4 := t3 + Maybe(m, GLB_CACHE_LOOKUP, CacheLookup);
    AddIfAfter(s, t4, m, GLB_SEND_REQUEST, SendRequest);
    var t5 := t4 + Maybe(m, GLB_SEND_REQUEST, SendRequest);
    AddIfAfter(s, t5, m, GLB_READ_RESPONSE, ReadResponse);
    var t6 := t5 + Maybe(m, GLB_READ_RESPONSE, ReadResponse);
    AddIfAfter(s, t6, m, GLB_SEND_RESPONSE, SendResponse);
    DidAfter(s, t6 + Maybe(m, GLB_SEND_RESPONSE, SendResponse), AddHook(TxnClose));
  }

  /** A continuation is created and then added to hooks. */
  ghost predicate IsSetup(t: seq<Action>) {
    t != [] && t[0] == CreateCont && forall i :: 1 <= i < |t| ==> t[i].AddHook?
  }

  lemma SetupGrows(t: seq<Action>, m: Mask, bit: Mask, hook: Hook)
    requires IsSetup(t)
    ensures IsSetup(t + Maybe(m, bit, hook)) && IsSetup(t + [AddHook(hook)])
  {
  }

  lemma RemapSetupIsSetup(m: Mask)
    ensures IsSetup(RemapSetup(m))
  {
    var t0 := [CreateCont];
    var t1 := t0 + Maybe(m, DO_POST_REMAP, PostRemap);
    SetupGrows(t0, m, DO_POST_REMAP, PostRemap);
    var t2 := t1 + Maybe(m, DO_SEND_RESPONSE, SendResponse);
    SetupGrows(t1, m, DO_SEND_RESPONSE, SendResponse);
    var t3 := t2 + Maybe(m, DO_SEND_REQUEST, SendRequest);
    SetupGrows(t2, m, DO_SEND_REQUEST, SendRequest);
    var t4 := t3 + Maybe(m, DO_READ_RESPONSE, ReadResponse);
    SetupGrows(t3, m, DO_READ_RESPONSE, ReadResponse);
    SetupGrows(t4, m, DO_CACHE_LOOKUP, CacheLookup);
    SetupGrows(t4 + Maybe(m, DO_CACHE_LOOKUP, CacheLookup), m, DO_CACHE_LOOKUP, TxnClose);
  }

  lemma GlobalSetupIsSetup(m: Mask)
    ensures IsSetup(GlobalSetup(m))
  {
    var t0 := [CreateCont];
    var t1 := t0 + Maybe(m, GLB_READ_REQUEST, ReadRequest);
    SetupGrows(t0, m, GLB_READ_REQUEST, ReadRequest);
    var t2 := t1 + Maybe(m, GLB_PRE_REMAP, PreRemap);
    SetupGrows(t1, m, GLB_PRE_REMAP, PreRemap);
    var t3 := t2 + Maybe(m, GLB_POST_REMAP, PostRemap);
    SetupGrows(t2, m, GLB_POST_REMAP, PostRemap);
    var t4 := t3 + Maybe(m, GLB_CACHE_LOOKUP, CacheLookup);
    SetupGrows(t3, m, GLB_CACHE_LOOKUP, CacheLookup);
    var t5 := t4 + Maybe(m, GLB_SEND_REQUEST, SendRequest);
    SetupGrows(t4, m, GLB_SEND_REQUEST, SendRequest);
    var t6 := t5 + Maybe(m, GLB_READ_RESPONSE, ReadResponse);
    SetupGrows(t5, m, GLB_READ_RESPONSE, ReadResponse);
    SetupGrows(t6, m, GLB_SEND_RESPONSE, SendResponse);
    SetupGrows(t6 + Maybe(m, GLB_SEND_RESPONSE, SendResponse), m, GLB_SEND_RESPONSE, TxnClose);
  }

  /** A state without a life yet takes on the life `setup`, then `last`. */
  lemma FirstLife(s: State, setup: seq<Action>, last: Action)
    requires Life(s.trace) == [] && IsSetup(setup) && !IsWork(last)
    ensures Life(Did(After(s, setup), last).trace) == setup + [last]
  {
    LifeAppend(s.trace, setup, |setup|);
    assert setup[..|setup|] == setup;
    assert [] + setup == setup;
    LifeExtend(s.trace + setup, last);
  }

  lemma PairOf(a: Action, b: Action)
    ensures [] + [a] == [a] && [a] + [b] == [a, b]
  {
  }

  lemma TwoActs(t: seq<Action>, a: Action, b: Action)
    requires Life(t) == [] && !IsWork(a) && !IsWork(b)
    ensures Life(t + [a] + [b]) == [a, b]
  {
    var u := t + [a];
    PairOf(a, b);
    assert Life(u) == [a] by {
      LifeExtend(t, a);
    }
    LifeExtend(u, b);
  }

  lemma {:induction false} RunAllBundlesWorks(s: State, env: Env, i: nat, banned: set<Fn>)
    requires i <= |env.bundles|
    ensures Works(s, RunAllBundles(s, env, i), banned)
    decreases |env.bundles| - i
  {
    WorksRefl(s, banned);
    if i < |env.bundles| {
      var s1 := Called(s, env, RunBundle(i, DoRemap));
      CalledWorks(s, env, RunBundle(i, DoRemap), banned);
      RunAllBundlesWorks(s1, env, i + 1, banned);
      WorksTransitive(s, s1, RunAllBundles(s1, env, i + 1), banned);
    }
  }

  lemma RemapCallbacksWork(s: State, env: Env, banned: set<Fn>)
    requires DoRemap !in banned
    ensures Works(s, RemapCallbacks(s, env), banned)
  {
    WorksRefl(s, banned);
    var s1 := RunAllBundles(s, env, 0);
    RunAllBundlesWorks(s, env, 0, banned);
    OfferToCriptWorks(s1, env, DoRemap, banned);
    WorksTransitive(s, s1, OfferToCript(s1, env, DoRemap), banned);
  }

  /** The remap as far as the URL updates. */
  function RemapWork(env: Env): State {
    FlushBoth(RemapCallbacks(NewRemap(env), env), env)
  }

  lemma RemapWorks(env: Env, banned: set<Fn>)
    requires DoRemap !in banned
    ensures Works(NewRemap(env), RemapWork(env), banned)
    ensures RemapWork(env).enabled == RemapCallbacks(NewRemap(env), env).enabled
    ensures Life(RemapWork(env).trace) == []
  {
    var s0 := NewRemap(env);
    var s1 := RemapCallbacks(s0, env);
    RemapCallbacksWork(s0, env, banned);
    FlushBothWorks(s1, env, banned);
    WorksTransitive(s0, s1, RemapWork(env), banned);
    LifeWorks(s0, RemapWork(env), banned);
  }

  /** What a kept remap does with the host, up to its return. */
  function RemapStart(m: Mask): seq<Action> {
    RemapSetup(m) + [Execute]
  }

  lemma FinishLife(s: State, env: Env)
    requires Life(FlushBoth(s, env).trace) == []
    ensures Life(FinishRemap(s, env).0.trace) ==
      if FinishRemap(s, env).1 then RemapStart(FlushBoth(s, env).enabled) else [Execute, Release]
  {
    var s1 := FlushBoth(s, env);
    if FinishRemap(s, env).1 {
      RegisterRemapAfter(s1);
      RemapSetupIsSetup(s1.enabled);
      FirstLife(s1, RemapSetup(s1.enabled), Execute);
    } else {
      TwoActs(s1.trace, Execute, Release);
    }
  }

  lemma RemapLife(env: Env)
    ensures Life(Remap(env).0.trace) ==
      if Remap(env).1 then RemapStart(RemapWork(env).enabled) else [Execute, Release]
  {
    RemapWorks(env, {});
    FinishLife(RemapCallbacks(NewRemap(env), env), env);
  }

  function GlobalStart(m: Mask): seq<Action> {
    GlobalSetup(m) + [Reenable]
  }

  lemma StartedLife(s: State, m: Mask)
    requires Life(s.trace) == []
    ensures Life(Did(RegisterGlobal(s, m), Reenable).trace) == GlobalStart(m)
  {
    RegisterGlobalAfter(s, m);
    GlobalSetupIsSetup(m);
    FirstLife(s, GlobalSetup(m), Reenable);
  }

  lemma TxnStartLife(env: Env)
    ensures Life(TxnStart(env).0.trace) ==
      if TxnStart(env).1 then GlobalStart(env.instanceMask) else [Release, Reenable]
  {
    var s0 := NewGlobal(env);
    var s := OfferToCript(s0, env, GlbTxnStart);
    OfferToCriptWorks(s0, env, GlbTxnStart, {});
    LifeWorks(s0, s, {});
    StartedLife(s, env.instanceMask);
    TwoActs(s.trace, Release, Reenable);
  }
}
