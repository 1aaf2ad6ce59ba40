/**
  The promises the hook machinery keeps over whole transactions, for both entry
  points: what is created is destroyed, a failed transaction stays failed, a
  disabled callback stays quiet, and where each of these stops short.
 */
module CriptSafety {
  import opened Cripts
  import opened CriptRuns
  import opened CriptScript

  // ---------------------------------------------------------------------------
  // Counting actions

  function Count(t: seq<Action>, a: Action): nat {
    if t == [] then 0 else Count(t[..|t| - 1], a) + if t[|t| - 1] == a then 1 else 0
  }

  lemma {:induction false} CountOfLife(t: seq<Action>, a: Action)
    requires !IsWork(a)
    ensures Count(Life(t), a) == Count(t, a)
  {
    if t != [] {
      var n := |t| - 1;
      CountOfLife(t[..n], a);
      if !IsWork(t[n]) {
        assert (Life(t[..n]) + [t[n]])[..|Life(t[..n])|] == Life(t[..n]);
      } else {
        assert Life(t) == Life(t[..n]);
      }
    }
  }

  lemma {:induction false} CountConcat(t: seq<Action>, u: seq<Action>, a: Action)
    ensures Count(t + u, a) == Count(t, a) + Count(u, a)
    decreases |u|
  {
    if u == [] {
      assert t + u == t;
    } else {
      var n := |u| - 1;
      CountConcat(t, u[..n], a);
      assert (t + u)[..|t + u| - 1] == t + u[..n];
    }
  }

  lemma {:induction false} CountAbsent(t: seq<Action>, a: Action)
    requires a !in t
    ensures Count(t, a) == 0
  {
    if t != [] {
      CountAbsent(t[..|t| - 1], a);
    }
  }

  lemma {:induction false} CountReenables(n: nat, a: Action)
    ensures Count(Reenables(n), a) == if a == Reenable then n else 0
  {
    if n != 0 {
      CountReenables(n - 1, a);
      CountConcat([Reenable], Reenables(n - 1), a);
      CountOne(Reenable, a);
    }
  }

  lemma CountOne(x: Action, a: Action)
    ensures Count([x], a) == if a == x then 1 else 0
  {
    assert [x][..0] == [];
  }

  lemma CountEnd(a: Action)
    ensures Count(End(), a) == if a in End() then 1 else 0
  {
    assert End() == [DestroyCont] + [Release] + [Reenable];
    CountConcat([DestroyCont] + [Release], [Reenable], a);
    CountConcat([DestroyCont], [Release], a);
    CountOne(DestroyCont, a);
    CountOne(Release, a);
    CountOne(Reenable, a);
  }

  lemma CountSetup(t: seq<Action>, a: Action)
    requires IsSetup(t) && !a.AddHook?
    ensures Count(t, a) == if a == CreateCont then 1 else 0
  {
    assert t == [CreateCont] + t[1..];
    CountConcat([CreateCont], t[1..], a);
    CountOne(CreateCont, a);
    CountAbsent(t[1..], a);
  }

  // ---------------------------------------------------------------------------
  // Clean runs

  datatype Entry = AtRemap | AtTxnStart

  function Begin(entry: Entry, env: Env): (State, bool) {
    match entry
    case AtRemap => Remap(env)
    case AtTxnStart => TxnStart(env)
  }

  function Ones(b: bool): nat {
    if b then 1 else 0
  }

  /** How often a transaction deals with the context, the continuation and the host. */
  function Tally(a: Action, entry: Entry, kept: bool, events: nat): nat {
    match a
    case Release => 1
    case CreateCont => Ones(kept)
    case DestroyCont => Ones(kept)
    case Execute => Ones(entry == AtRemap)
    case Reenable => (if kept then events + 1 else 0) + Ones(entry == AtTxnStart)
    case _ => 0
  }

  /** Once the context is released, the only thing left to do is to let the host go on. */
  ghost predicate ReleasedAt(t: seq<Action>, n: nat) {
    && n < |t| && t[n] == Release
    && (forall i :: 0 <= i < n ==> t[i] != Release)
    && (forall i :: n < i < |t| ==> t[i] == Reenable)
  }

  lemma CountKept(setup: seq<Action>, last: Action, n: nat, a: Action)
    requires IsSetup(setup) && !a.AddHook?
    ensures Count(setup + [last] + Reenables(n) + End(), a) ==
      Ones(a == CreateCont) + Ones(a == last) + (if a == Reenable then n else 0) + Ones(a in End())
  {
    CountConcat(setup + [last] + Reenables(n), End(), a);
    CountConcat(setup + [last], Reenables(n), a);
    CountConcat(setup, [last], a);
    CountSetup(setup, a);
    CountOne(last, a);
    CountReenables(n, a);
    CountEnd(a);
  }

  lemma CountPair(x: Action, y: Action, a: Action)
    ensures Count([x, y], a) == Ones(a == x) + Ones(a == y)
  {
    assert [x, y] == [x] + [y];
    CountConcat([x], [y], a);
    CountOne(x, a);
    CountOne(y, a);
  }

  /** The life of a transaction whose hooks were set up by `setup`. */
  function WholeLifeOf(setup: seq<Action>, entry: Entry, kept: bool, events: nat): seq<Action> {
    if kept then setup + [if entry == AtRemap then Execute else Reenable] + Reenables(events) + End()
    else if entry == AtRemap then [Execute, Release]
    else [Release, Reenable]
  }

  lemma TallyOfLife(setup: seq<Action>, entry: Entry, kept: bool, events: nat, t: seq<Action>, a: Action)
    requires IsSetup(setup) && !IsWork(a) && !a.AddHook?
    requires Life(t) == WholeLifeOf(setup, entry, kept, events)
    ensures Count(t, a) == Tally(a, entry, kept, events)
  {
    CountOfLife(t, a);
    if kept {
      CountKept(setup, if entry == AtRemap then Execute else Reenable, events, a);
    } else if entry == AtRemap {
      CountPair(Execute, Release, a);
    } else {
      CountPair(Release, Reenable, a);
    }
  }

  lemma WholeLife(entry: Entry, env: Env, hooks: seq<Hook>) returns (setup: seq<Action>)
    requires Deliverable(Begin(entry, env), hooks)
    ensures IsSetup(setup)
    ensures Life(Whole(Begin(entry, env), env, hooks).trace) ==
      WholeLifeOf(setup, entry, Begin(entry, env).1, |hooks|)
  {
    var start := Begin(entry, env);
    match entry {
      case AtRemap =>
        RemapLife(env);
        setup := RemapSetup(RemapWork(env).enabled);
        RemapSetupIsSetup(RemapWork(env).enabled);
      case AtTxnStart =>
        TxnStartLife(env);
        setup := GlobalSetup(env.instanceMask);
        GlobalSetupIsSetup(env.instanceMask);
    }
    if start.1 {
      assert TxnClose !in hooks;
      DeliverLife(start.0, env, hooks);
      CloseLife(Deliver(start.0, env, hooks), env);
    }
  }

  /** Every transaction, however it starts, whatever its callbacks do and whichever hooks arrive: the context
      is released exactly once; a continuation that is created is destroyed, once; and the host is told to go
      on exactly once for every event it delivered. */
  lemma EveryRunIsBalanced(entry: Entry, env: Env, hooks: seq<Hook>, a: Action)
    requires Deliverable(Begin(entry, env), hooks) && !IsWork(a) && !a.AddHook?
    ensures Count(Whole(Begin(entry, env), env, hooks).trace, a) == Tally(a, entry, Begin(entry, env).1, |hooks|)
  {
    var setup := WholeLife(entry, env, hooks);
    TallyOfLife(setup, entry, Begin(entry, env).1, |hooks|, Whole(Begin(entry, env), env, hooks).trace, a);
  }

  lemma {:induction false} CountPresent(t: seq<Action>, a: Action)
    requires a in t
    ensures Count(t, a) >= 1
  {
    var n := |t| - 1;
    if t[n] != a {
      CountPresent(t[..n], a);
    }
  }

  lemma ReleasedOnce(before: seq<Action>, tail: seq<Action>)
    requires Count(before + [Release] + tail, Release) == 1
    ensures Release !in before
  {
    CountConcat(before + [Release], tail, Release);
    CountConcat(before, [Release], Release);
    CountOne(Release, Release);
    if Release in before {
      CountPresent(before, Release);
    }
  }

  lemma ReleaseThen(before: seq<Action>, tail: seq<Action>)
    requires Release !in before && forall i :: 0 <= i < |tail| ==> tail[i] == Reenable
    ensures ReleasedAt(before + [Release] + tail, |before|)
  {
  }

  /** How the trace ends: a close ends with the release and the go-ahead, and so does a start without hooks. */
  lemma WholeEnds(entry: Entry, env: Env, hooks: seq<Hook>) returns (before: seq<Action>, tail: seq<Action>)
    ensures Whole(Begin(entry, env), env, hooks).trace == before + [Release] + tail
    ensures forall i :: 0 <= i < |tail| ==> tail[i] == Reenable
  {
    var start := Begin(entry, env);
    if start.1 {
      var s := Reset(Deliver(start.0, env, hooks));
      CloseWorks(s, env, {});
      before := BeforeEnd(s, env).trace + [DestroyCont];
      tail := [Reenable];
    } else if entry == AtRemap {
      before := RemapWork(env).trace + [Execute];
      tail := [];
    } else {
      before := OfferToCript(NewGlobal(env), env, GlbTxnStart).trace;
      tail := [Reenable];
    }
  }

  /** In the trace of every transaction nothing but the reenabling of the host follows the release. */
  lemma NothingAfterRelease(entry: Entry, env: Env, hooks: seq<Hook>) returns (n: nat)
    requires Deliverable(Begin(entry, env), hooks)
    ensures ReleasedAt(Whole(Begin(entry, env), env, hooks).trace, n)
  {
    EveryRunIsBalanced(entry, env, hooks, Release);
    var before, tail := WholeEnds(entry, env, hooks);
    ReleasedOnce(before, tail);
    ReleaseThen(before, tail);
    n := |before|;
  }

  // ---------------------------------------------------------------------------
  // Registration

  /** The bit a remap registers a hook for; none for the hooks it never asks for. */
  function RemapBit(hook: Hook): Mask {
    match hook
    case PostRemap => DO_POST_REMAP
    case SendResponse => DO_SEND_RESPONSE
    case SendRequest => DO_SEND_REQUEST
    case ReadResponse => DO_READ_RESPONSE
    case CacheLookup => DO_CACHE_LOOKUP
    case _ => 0
  }

  lemma SomeLaterBit(m: Mask)
    ensures AnyLater(m) <==> Has(m, !DO_REMAP)
  {
  }

  lemma {:induction false} InLife(t: seq<Action>, a: Action)
    requires !IsWork(a)
    ensures a in Life(t) <==> a in t
  {
    if t != [] {
      var n := |t| - 1;
      InLife(t[..n], a);
      assert t == t[..n] + [t[n]];
    }
  }

  lemma InMaybe(a: seq<Action>, m: Mask, bit: Mask, hook: Hook, h: Hook)
    ensures AddHook(h) in a + Maybe(m, bit, hook) <==> AddHook(h) in a || (h == hook && Has(m, bit))
  {
  }

  lemma InRemapSetup(m: Mask, h: Hook)
    ensures AddHook(h) in RemapSetup(m) <==> h == TxnClose || Has(m, RemapBit(h))
  {
    var t0 := [CreateCont];
    var t1 := t0 + Maybe(m, DO_POST_REMAP, PostRemap);
    InMaybe(t0, m, DO_POST_REMAP, PostRemap, h);
    var t2 := t1 + Maybe(m, DO_SEND_RESPONSE, SendResponse);
    InMaybe(t1, m, DO_SEND_RESPONSE, SendResponse, h);
    var t3 := t2 + Maybe(m, DO_SEND_REQUEST, SendRequest);
    InMaybe(t2, m, DO_SEND_REQUEST, SendRequest, h);
    var t4 := t3 + Maybe(m, DO_READ_RESPONSE, ReadResponse);
    InMaybe(t3, m, DO_READ_RESPONSE, ReadResponse, h);
    InMaybe(t4, m, DO_CACHE_LOOKUP, CacheLookup, h);
  }

  lemma RegisteredByMask(env: Env, h: Hook)
    ensures
      var m := RemapCallbacks(NewRemap(env), env).enabled;
      Registered(Remap(env).0, h) <==> Remap(env).1 && (h == TxnClose || Has(m, RemapBit(h)))
  {
    RemapLife(env);
    RemapWorks(env, {});
    InLife(Remap(env).0.trace, AddHook(h));
    InRemapSetup(RemapWork(env).enabled, h);
  }

  /** What the remap's callbacks leave of the mask the transaction starts with. */
  ghost function MaskLeft(env: Env): Mask {
    Left(AllCallbacks(env), env, 0, |RemapCalls(env)|)
  }

  /** A remap keeps its context iff none of its callbacks fails the transaction and they leave some callback
      after the remap enabled. */
  lemma RemapKeeps(env: Env)
    ensures Remap(env).1 <==> !Fails(env, 0, |RemapCalls(env)|) && Has(MaskLeft(env), !DO_REMAP)
  {
    RemapCallsMade(env);
    SomeLaterBit(RemapCallbacks(NewRemap(env), env).enabled);
  }

  /** A remap that keeps its context registers the close, and each other hook iff its callback is still
      enabled; one that does not registers nothing. */
  lemma RemapRegisters(env: Env, h: Hook)
    ensures Registered(Remap(env).0, h) <==> Remap(env).1 && (h == TxnClose || Has(MaskLeft(env), RemapBit(h)))
  {
    RemapCallsMade(env);
    RegisteredByMask(env, h);
  }

  /** The bit a global transaction registers a hook for. */
  function GlobalBit(hook: Hook): Mask {
    match hook
    case ReadRequest => GLB_READ_REQUEST
    case PreRemap => GLB_PRE_REMAP
    case PostRemap => GLB_POST_REMAP
    case CacheLookup => GLB_CACHE_LOOKUP
    case SendRequest => GLB_SEND_REQUEST
    case ReadResponse => GLB_READ_RESPONSE
    case SendResponse => GLB_SEND_RESPONSE
    case TxnClose => 0
  }

  lemma InGlobalSetup(m: Mask, h: Hook)
    ensures AddHook(h) in GlobalSetup(m) <==> h == TxnClose || Has(m, GlobalBit(h))
  {
    var t0 := [CreateCont];
    var t1 := t0 + Maybe(m, GLB_READ_REQUEST, ReadRequest);
    InMaybe(t0, m, GLB_READ_REQUEST, ReadRequest, h);
    var t2 := t1 + Maybe(m, GLB_PRE_REMAP, PreRemap);
    InMaybe(t1, m, GLB_PRE_REMAP, PreRemap, h);
    var t3 := t2 + Maybe(m, GLB_POST_REMAP, PostRemap);
    InMaybe(t2, m, GLB_POST_REMAP, PostRemap, h);
    var t4 := t3 + Maybe(m, GLB_CACHE_LOOKUP, CacheLookup);
    InMaybe(t3, m, GLB_CACHE_LOOKUP, CacheLookup, h);
    var t5 := t4 + Maybe(m, GLB_SEND_REQUEST, SendRequest);
    InMaybe(t4, m, GLB_SEND_REQUEST, SendRequest, h);
    var t6 := t5 + Maybe(m, GLB_READ_RESPONSE, ReadResponse);
    InMaybe(t5, m, GLB_READ_RESPONSE, ReadResponse, h);
    InMaybe(t6, m, GLB_SEND_RESPONSE, SendResponse, h);
  }

  /** A global transaction keeps its context iff its instance has any callback.  It then registers the close,
      and each other hook iff the instance asks for it, whatever the start callback disabled. */
  lemma TxnStartRegisters(env: Env, h: Hook)
    ensures TxnStart(env).1 <==> env.instanceMask != 0
    ensures Registered(TxnStart(env).0, h) <==>
      TxnStart(env).1 && (h == TxnClose || Has(env.instanceMask, GlobalBit(h)))
  {
    TxnStartLife(env);
    InLife(TxnStart(env).0.trace, AddHook(h));
    InGlobalSetup(env.instanceMask, h);
  }

  /** The close is registered exactly if the context is kept, so that what is kept is closed. */
  lemma CloseIsRegistered(entry: Entry, env: Env)
    ensures Registered(Begin(entry, env).0, TxnClose) <==> Begin(entry, env).1
  {
    match entry {
      case AtRemap => RemapRegisters(env, TxnClose);
      case AtTxnStart => TxnStartRegisters(env, TxnClose);
    }
  }

  // ---------------------------------------------------------------------------
  // Failed transactions

  /** What may still happen in a failed transaction: no bundle, no URL update, and of the Cript only the
      functions around the remap and at the close. */
  predicate AfterFailure(a: Action) {
    || a == Reenable || a == DestroyCont || a == Release
    || (a.RunCript? && a.fn in {GlbPreRemap, DoPostRemap, GlbPostRemap, DoTxnClose, GlbTxnClose})
  }

  ghost predicate Latched(s: State, s': State) {
    && s'.failed && s.trace <= s'.trace
    && forall i :: |s.trace| <= i < |s'.trace| ==> AfterFailure(s'.trace[i])
  }

  lemma FailedHook(s: State, env: Env, hook: Hook)
    requires s.failed
    ensures Latched(s, Handle(s, env, hook))
  {
  }

  /** Failure is for good: whatever hooks arrive, and however often, no bundle runs, no URL is updated and no
      request or response callback is made any more. */
  lemma {:induction false} FailureIsLatched(s: State, env: Env, hooks: seq<Hook>)
    requires s.failed
    ensures Latched(s, Deliver(s, env, hooks))
    decreases |hooks|
  {
    if hooks != [] {
      var s1 := Handle(s, env, hooks[0]);
      FailedHook(s, env, hooks[0]);
      FailureIsLatched(s1, env, hooks[1..]);
      var s' := Deliver(s, env, hooks);
      assert forall i :: 0 <= i < |s1.trace| ==> s'.trace[i] == s1.trace[i];
    }
  }

  /** Of the two functions of a hook, the one to run is defined. */
  predicate Offered(enabled: Mask, defined: set<Fn>, doBit: Mask, doFn: Fn, glbBit: Mask, glbFn: Fn) {
    if Has(enabled, doBit) then doFn in defined else Has(enabled, glbBit) && glbFn in defined
  }

  /** Whether a hook of a failed transaction still has a callback to run. */
  predicate StillOffered(enabled: Mask, defined: set<Fn>, hook: Hook) {
    match hook
    case PreRemap => Has(enabled, GLB_PRE_REMAP) && GlbPreRemap in defined
    case PostRemap => Offered(enabled, defined, DO_POST_REMAP, DoPostRemap, GLB_POST_REMAP, GlbPostRemap)
    case TxnClose =>
      Has(enabled, DO_TXN_CLOSE | GLB_TXN_CLOSE) &&
      Offered(enabled, defined, DO_TXN_CLOSE, DoTxnClose, GLB_TXN_CLOSE, GlbTxnClose)
    case _ => false
  }

  lemma OfferedRuns(s: State, env: Env, doBit: Mask, doFn: Fn, glbBit: Mask, glbFn: Fn)
    ensures OfferEnabled(s, env, doBit, doFn, glbBit, glbFn).calls != s.calls <==>
      Offered(s.enabled, env.defined, doBit, doFn, glbBit, glbFn)
    ensures s.failed ==> OfferEnabled(s, env, doBit, doFn, glbBit, glbFn).failed
  {
  }

  lemma FailedPostRemap(s: State, env: Env)
    requires s.failed
    ensures OnPostRemap(s, env).calls != s.calls <==> StillOffered(s.enabled, env.defined, PostRemap)
  {
    OfferedRuns(s, env, DO_POST_REMAP, DoPostRemap, GLB_POST_REMAP, GlbPostRemap);
  }

  lemma FailedTxnClose(s: State, env: Env)
    requires s.failed
    ensures OnTxnClose(s, env).calls != s.calls <==> StillOffered(s.enabled, env.defined, TxnClose)
  {
    OfferedRuns(s, env, DO_TXN_CLOSE, DoTxnClose, GLB_TXN_CLOSE, GlbTxnClose);
  }

  /** A failed transaction still runs a callback at a hook exactly if the hook is the one before or after the
      remap, or the close, and its function is enabled and defined. */
  lemma FailedHookRuns(s: State, env: Env, hook: Hook)
    requires s.failed
    ensures Handle(s, env, hook).calls != s.calls <==> StillOffered(s.enabled, env.defined, hook)
  {
    var s0 := Reset(s);
    match hook {
      case PostRemap => FailedPostRemap(s0, env);
      case TxnClose => FailedTxnClose(s0, env);
      case _ =>
    }
  }

  // ---------------------------------------------------------------------------
  // Disabled callbacks

  /** Events took the state from `s` to `s'` without running a function in `banned`. */
  ghost predicate Grows(s: State, s': State, banned: set<Fn>) {
    && s.trace <= s'.trace
    && (forall i :: |s.trace| <= i < |s'.trace| && s'.trace[i].RunCript? ==> s'.trace[i].fn !in banned)
    && Submask(s'.enabled, s.enabled)
  }

  lemma HandleGrows(s: State, env: Env, hook: Hook, banned: set<Fn>)
    requires AllBlocked(s.enabled, banned)
    ensures Grows(s, Handle(s, env, hook), banned)
  {
    var s0 := Reset(s);
    if hook == TxnClose {
      CloseWorks(s0, env, banned);
    } else {
      OnHookWorks(s0, env, hook, banned);
    }
  }

  lemma StillKeptOff(e': Mask, e: Mask, bit: Mask, fn: Fn, banned: set<Fn>)
    requires Submask(e', e) && KeptOff(e, bit, fn, banned)
    ensures KeptOff(e', bit, fn, banned)
  {
    if fn in banned {
      SubmaskLacks(e', e, bit);
    }
  }

  lemma StillBlocked(e': Mask, e: Mask, banned: set<Fn>)
    requires Submask(e', e) && AllBlocked(e, banned)
    ensures AllBlocked(e', banned)
  {
    StillKeptOff(e', e, DO_POST_REMAP, DoPostRemap, banned);
    StillKeptOff(e', e, DO_CACHE_LOOKUP, DoCacheLookup, banned);
    StillKeptOff(e', e, GLB_CACHE_LOOKUP, DoCacheLookup, banned);
    StillKeptOff(e', e, DO_SEND_REQUEST, DoSendRequest, banned);
    StillKeptOff(e', e, DO_READ_RESPONSE, DoReadResponse, banned);
    StillKeptOff(e', e, DO_SEND_RESPONSE, DoSendResponse, banned);
    StillKeptOff(e', e, DO_TXN_CLOSE, DoTxnClose, banned);
    StillKeptOff(e', e, GLB_PRE_REMAP, GlbPreRemap, banned);
    StillKeptOff(e', e, GLB_POST_REMAP, GlbPostRemap, banned);
    StillKeptOff(e', e, GLB_SEND_REQUEST, GlbSendRequest, banned);
    StillKeptOff(e', e, GLB_READ_RESPONSE, GlbReadResponse, banned);
    StillKeptOff(e', e, GLB_SEND_RESPONSE, GlbSendResponse, banned);
    StillKeptOff(e', e, GLB_TXN_CLOSE, GlbTxnClose, banned);
  }

  lemma GrowsTransitive(a: State, b: State, c: State, banned: set<Fn>)
    requires Grows(a, b, banned) && Grows(b, c, banned)
    ensures Grows(a, c, banned)
  {
    SubmaskTransitive(c.enabled, b.enabled, a.enabled);
    assert forall i :: 0 <= i < |b.trace| ==> c.trace[i] == b.trace[i];
  }

  /** A blocked function of the Cript stays quiet for the rest of the transaction. */
  lemma {:induction false} BlockedStaysQuiet(s: State, env: Env, hooks: seq<Hook>, banned: set<Fn>)
    requires AllBlocked(s.enabled, banned)
    ensures Grows(s, Deliver(s, env, hooks), banned)
    decreases |hooks|
  {
    if hooks == [] {
      SubmaskOfSelf(s.enabled, 0);
    } else {
      var s1 := Handle(s, env, hooks[0]);
      HandleGrows(s, env, hooks[0], banned);
      StillBlocked(s1.enabled, s.enabled, banned);
      BlockedStaysQuiet(s1, env, hooks[1..], banned);
      GrowsTransitive(s, s1, Deliver(s, env, hooks), banned);
    }
  }

  lemma NotInSetup(before: seq<Action>, setup: seq<Action>, last: Action, fn: Fn)
    requires RunCript(fn) !in before && IsSetup(setup) && !IsWork(last)
    ensures RunCript(fn) !in before + setup + [last]
  {
  }

  lemma NotInWork(s: State, s': State, fn: Fn)
    requires Works(s, s', {fn}) && s.trace == []
    ensures RunCript(fn) !in s'.trace
  {
  }

  lemma StaysAbsent(s: State, s': State, fn: Fn)
    requires Grows(s, s', {fn}) && RunCript(fn) !in s.trace
    ensures RunCript(fn) !in s'.trace
  {
    var t := s'.trace;
    forall i | 0 <= i < |t| ensures t[i] != RunCript(fn) {
      if i < |s.trace| {
        assert t[i] == s.trace[i];
      }
    }
  }

  lemma NotAtFinish(s: State, env: Env, fn: Fn)
    requires RunCript(fn) !in FlushBoth(s, env).trace
    ensures RunCript(fn) !in FinishRemap(s, env).0.trace
  {
    var s1 := FlushBoth(s, env);
    if FinishRemap(s, env).1 {
      RegisterRemapAfter(s1);
      RemapSetupIsSetup(s1.enabled);
      NotInSetup(s1.trace, RemapSetup(s1.enabled), Execute, fn);
    }
  }

  lemma NotAtRemap(env: Env, fn: Fn)
    requires fn != DoRemap
    ensures RunCript(fn) !in Remap(env).0.trace
  {
    RemapWorks(env, {fn});
    NotInWork(NewRemap(env), RemapWork(env), fn);
    NotAtFinish(RemapCallbacks(NewRemap(env), env), env, fn);
  }

  lemma NotAtTxnStart(env: Env, fn: Fn)
    requires fn != GlbTxnStart
    ensures RunCript(fn) !in TxnStart(env).0.trace
  {
    var s := OfferToCript(NewGlobal(env), env, GlbTxnStart);
    OfferToCriptWorks(NewGlobal(env), env, GlbTxnStart, {fn});
    NotInWork(NewGlobal(env), s, fn);
    if TxnStart(env).1 {
      RegisterGlobalAfter(s, env.instanceMask);
      GlobalSetupIsSetup(env.instanceMask);
      NotInSetup(s.trace, GlobalSetup(env.instanceMask), Reenable, fn);
    }
  }

  /** No transaction ever runs the global lookup function, even though its bit registers the lookup hook. */
  lemma GlobalLookupNeverRuns(entry: Entry, env: Env, hooks: seq<Hook>)
    ensures RunCript(GlbCacheLookup) !in Deliver(Begin(entry, env).0, env, hooks).trace
  {
    var s := Begin(entry, env).0;
    match entry {
      case AtRemap => NotAtRemap(env, GlbCacheLookup);
      case AtTxnStart => NotAtTxnStart(env, GlbCacheLookup);
    }
    BlockedStaysQuiet(s, env, hooks, {GlbCacheLookup});
    StaysAbsent(s, Deliver(s, env, hooks), GlbCacheLookup);
  }
}
