/**
  The hook machinery of `Cripts` in place: a context that the entry points
  allocate, the events update and the close frees, and the host it reports to.

  The fields of a context exist while it is allocated and are gone once it is
  released: every access to one is an obligation to show that the context is
  still there.  The host is not part of the context; like the transaction handle
  of the program it is passed along.
 */
module CriptContext {
  import opened Cripts

  /** The side of the proxy a transaction is seen from. */
  class Host {
    var log: seq<Action>

    constructor ()
      ensures log == []
    {
      log := [];
    }

    method Note(a: Action)
      modifies this
      ensures log == old(log) + [a]
    {
      log := log + [a];
    }
  }

  /** The memory of a context.  `env` is the instance it belongs to. */
  datatype Memory =
    | Freed
    | Live(env: Env, enabled: Mask, failed: bool, requestModified: bool, cacheModified: bool, calls: nat)

  lemma FlushKeepsMask(s: State, env: Env)
    ensures FlushBoth(s, env).enabled == s.enabled
  {
  }

  class Context {
    var memory: Memory

    ghost function Now(host: Host): State
      requires memory.Live?
      reads this, host
    {
      State(memory.enabled, memory.failed, memory.requestModified, memory.cacheModified, memory.calls, host.log)
    }

    /** The context is allocated for `env` and, with what the host saw, in state `s`. */
    ghost predicate Shows(host: Host, env: Env, s: State)
      reads this, host
    {
      memory.Live? && memory.env == env && Now(host) == s
    }

    constructor (env: Env, mask: Mask)
      ensures memory == Live(env, mask, false, false, false, 0)
    {
      memory := Live(env, mask, false, false, false, 0);
    }

    method DisableCallback(cb: Mask)
      requires memory.Live?
      modifies this
      ensures memory == old(memory).(enabled := Without(old(memory).enabled, cb))
    {
      memory := memory.(enabled := Without(memory.enabled, cb));
    }

    method Mark(fail: bool, changesRequest: bool, changesCache: bool)
      requires memory.Live?
      modifies this
      ensures memory == old(memory).(
          failed := old(memory).failed || fail, requestModified := old(memory).requestModified || changesRequest,
          cacheModified := old(memory).cacheModified || changesCache, calls := old(memory).calls + 1)
    {
      memory := memory.(failed := memory.failed || fail);
      memory := memory.(requestModified := memory.requestModified || changesRequest);
      memory := memory.(cacheModified := memory.cacheModified || changesCache);
      memory := memory.(calls := memory.calls + 1);
    }

    method Release(host: Host)
      requires memory.Live?
      modifies this, host
      ensures memory == Freed && host.log == old(host.log) + [Cripts.Release]
    {
      host.Note(Cripts.Release);
      memory := Freed;
    }

    /** Foreign code uses the context. */
    method Undergo(host: Host, e: Effect)
      requires memory.Live?
      modifies this
      ensures Shows(host, old(memory.env), Changed(old(Now(host)), e))
    {
      Mark(e.fail, e.modifiesRequest, e.modifiesCache);
      DisableCallback(e.disable);
    }

    /** The next callback runs. */
    method Call(host: Host, a: Action)
      requires memory.Live?
      modifies this, host
      ensures Shows(host, old(memory.env), Called(old(Now(host)), old(memory.env), a))
    {
      host.Note(a);
      var e := EffectOf(memory.env, memory.calls);
      Undergo(host, e);
    }

    method CallBundles(host: Host, select: Mask, fn: Fn)
      requires memory.Live?
      modifies this, host
      ensures Shows(host, old(memory.env), OfferToBundles(old(Now(host)), old(memory.env), select, fn))
    {
      var env := memory.env;
      if !memory.failed && Has(env.instanceMask, select) {
        var i := 0;
        while i < |env.bundles|
          invariant 0 <= i <= |env.bundles| && memory.Live? && memory.env == env
          invariant RunBundles(Now(host), env, select, fn, i) == RunBundles(old(Now(host)), env, select, fn, 0)
        {
          if Has(env.bundles[i], select) {
            Call(host, RunBundle(i, fn));
          }
          i := i + 1;
        }
      }
    }

    /** At the remap every bundle is called. */
    method CallAllBundles(host: Host)
      requires memory.Live?
      modifies this, host
      ensures Shows(host, old(memory.env), RunAllBundles(old(Now(host)), old(memory.env), 0))
    {
      var env := memory.env;
      var i := 0;
      while i < |env.bundles|
        invariant 0 <= i <= |env.bundles| && memory.Live? && memory.env == env
        invariant RunAllBundles(Now(host), env, i) == RunAllBundles(old(Now(host)), env, 0)
      {
        Call(host, RunBundle(i, DoRemap));
        i := i + 1;
      }
    }

    method CallCript(host: Host, fn: Fn)
      requires memory.Live?
      modifies this, host
      ensures Shows(host, old(memory.env), OfferToCript(old(Now(host)), old(memory.env), fn))
    {
      if fn in memory.env.defined {
        Call(host, RunCript(fn));
      }
    }

    method CallEither(host: Host, first: bool, doFn: Fn, second: bool, glbFn: Fn)
      requires memory.Live?
      modifies this, host
      ensures first ==> Shows(host, old(memory.env), OfferToCript(old(Now(host)), old(memory.env), doFn))
      ensures !first && second ==> Shows(host, old(memory.env), OfferToCript(old(Now(host)), old(memory.env), glbFn))
      ensures !first && !second ==> Shows(host, old(memory.env), old(Now(host)))
    {
      if first {
        CallCript(host, doFn);
      } else if second {
        CallCript(host, glbFn);
      }
    }

    method CallEnabled(host: Host, doBit: Mask, doFn: Fn, glbBit: Mask, glbFn: Fn)
      requires memory.Live?
      modifies this, host
      ensures Shows(host, old(memory.env), OfferEnabled(old(Now(host)), old(memory.env), doBit, doFn, glbBit, glbFn))
    {
      CallEither(host, Has(memory.enabled, doBit), doFn, Has(memory.enabled, glbBit), glbFn);
    }

    method UpdateRequest(host: Host)
      requires memory.Live?
      modifies host
      ensures Shows(host, old(memory.env), FlushRequest(old(Now(host))))
    {
      if memory.requestModified {
        host.Note(UpdateRequestUrl);
      }
    }

    /** Setting the cache key is a call that may fail. */
    method UpdateCache(host: Host)
      requires memory.Live?
      modifies this, host
      ensures Shows(host, old(memory.env), FlushCache(old(Now(host)), old(memory.env)))
    {
      if memory.cacheModified {
        host.Note(UpdateCacheUrl);
        var e := EffectOf(memory.env, memory.calls);
        memory := memory.(cacheModified := false);
        memory := memory.(failed := memory.failed || e.fail);
        memory := memory.(calls := memory.calls + 1);
      }
    }

    method UpdateBoth(host: Host)
      requires memory.Live?
      modifies this, host
      ensures Shows(host, old(memory.env), FlushBoth(old(Now(host)), old(memory.env)))
    {
      if !memory.failed {
        UpdateCache(host);
        UpdateRequest(host);
      }
    }

    // The hooks of `http_txn_cont`.

    method HookReadRequest(host: Host)
      requires memory.Live?
      modifies this, host
      ensures Shows(host, old(memory.env), OnReadRequest(old(Now(host)), old(memory.env)))
    {
      if !memory.failed {
        CallBundles(host, GLB_READ_REQUEST, DoSendRequest);
        CallCript(host, GlbReadRequest);
        UpdateRequest(host);
      }
    }

    method HookSendRequest(host: Host)
      requires memory.Live?
      modifies this, host
      ensures Shows(host, old(memory.env), OnSendRequest(old(Now(host)), old(memory.env)))
    {
      if !memory.failed {
        CallBundles(host, DO_SEND_REQUEST | GLB_SEND_REQUEST, DoSendRequest);
        CallEnabled(host, DO_SEND_REQUEST, DoSendRequest, GLB_SEND_REQUEST, GlbSendRequest);
        UpdateRequest(host);
      }
    }

    method HookReadResponse(host: Host)
      requires memory.Live?
      modifies this, host
      ensures Shows(host, old(memory.env), OnReadResponse(old(Now(host)), old(memory.env)))
    {
      if !memory.failed {
        CallBundles(host, DO_READ_RESPONSE | GLB_READ_RESPONSE, DoReadResponse);
        CallEnabled(host, DO_READ_RESPONSE, DoReadResponse, GLB_READ_RESPONSE, GlbReadResponse);
      }
    }

    method HookSendResponse(host: Host)
      requires memory.Live?
      modifies this, host
      ensures Shows(host, old(memory.env), OnSendResponse(old(Now(host)), old(memory.env)))
    {
      if !memory.failed {
        CallBundles(host, DO_SEND_RESPONSE | GLB_SEND_RESPONSE, DoSendResponse);
        CallEnabled(host, DO_SEND_RESPONSE, DoSendResponse, GLB_SEND_RESPONSE, GlbSendResponse);
      }
    }

    method HookCacheLookup(host: Host)
      requires memory.Live?
      modifies this, host
      ensures Shows(host, old(memory.env), OnCacheLookup(old(Now(host)), old(memory.env)))
    {
      if !memory.failed {
        CallBundles(host, DO_CACHE_LOOKUP | GLB_CACHE_LOOKUP, DoCacheLookup);
        CallEnabled(host, DO_CACHE_LOOKUP, DoCacheLookup, GLB_CACHE_LOOKUP, DoCacheLookup);
      }
    }

    method HookPreRemap(host: Host)
      requires memory.Live?
      modifies this, host
      ensures Shows(host, old(memory.env), OnPreRemap(old(Now(host)), old(memory.env)))
    {
      CallBundles(host, GLB_PRE_REMAP, DoPostRemap);
      if Has(memory.enabled, GLB_PRE_REMAP) {
        CallCript(host, GlbPreRemap);
      }
      UpdateBoth(host);
    }

    method HookPostRemap(host: Host)
      requires memory.Live?
      modifies this, host
      ensures Shows(host, old(memory.env), OnPostRemap(old(Now(host)), old(memory.env)))
    {
      CallBundles(host, DO_POST_REMAP | GLB_POST_REMAP, DoPostRemap);
      CallEnabled(host, DO_POST_REMAP, DoPostRemap, GLB_POST_REMAP, GlbPostRemap);
      UpdateBoth(host);
    }

    /** After the close there is no context, only what the host saw. */
    method HookTxnClose(host: Host)
      requires memory.Live?
      modifies this, host
      ensures memory == Freed && host.log == OnTxnClose(old(Now(host)), old(memory.env)).trace
    {
      if Has(memory.enabled, DO_TXN_CLOSE | GLB_TXN_CLOSE) {
        CallBundles(host, DO_TXN_CLOSE | GLB_TXN_CLOSE, DoTxnClose);
        CallEnabled(host, DO_TXN_CLOSE, DoTxnClose, GLB_TXN_CLOSE, GlbTxnClose);
      }
      host.Note(DestroyCont);
      Release(host);
    }

    /** The continuation: one event, of a context that is still there. */
    method HttpTxnCont(host: Host, hook: Hook)
      requires memory.Live?
      modifies this, host
      ensures hook == TxnClose ==> memory == Freed
      ensures hook != TxnClose ==> Shows(host, old(memory.env), Handle(old(Now(host)), old(memory.env), hook))
      ensures host.log == Handle(old(Now(host)), old(memory.env), hook).trace
    {
      memory := memory.(requestModified := false, cacheModified := false);
      match hook {
        case ReadRequest => HookReadRequest(host);
        case PreRemap => HookPreRemap(host);
        case PostRemap => HookPostRemap(host);
        case CacheLookup => HookCacheLookup(host);
        case SendRequest => HookSendRequest(host);
        case ReadResponse => HookReadResponse(host);
        case SendResponse => HookSendResponse(host);
        case TxnClose => HookTxnClose(host);
      }
      host.Note(Reenable);
    }

    method CallRemap(host: Host)
      requires memory.Live?
      modifies this, host
      ensures Shows(host, old(memory.env), RemapCallbacks(old(Now(host)), old(memory.env)))
    {
      if DoRemap in memory.env.defined || Has(memory.env.instanceMask, DO_REMAP) {
        CallAllBundles(host);
        if !memory.failed {
          CallCript(host, DoRemap);
        }
      }
    }

    method AddHookIf(host: Host, mask: Mask, bit: Mask, hook: Hook)
      requires memory.Live?
      modifies host
      ensures Shows(host, old(memory.env), AddIf(old(Now(host)), mask, bit, hook))
    {
      if Has(mask, bit) {
        host.Note(AddHook(hook));
      } else {
        assert host.log + [] == host.log;
      }
    }

    method AddRemapHooks(host: Host)
      requires memory.Live?
      modifies host
      ensures Shows(host, old(memory.env), RegisterRemap(old(Now(host))))
    {
      host.Note(CreateCont);
      AddHookIf(host, memory.enabled, DO_POST_REMAP, PostRemap);
      AddHookIf(host, memory.enabled, DO_SEND_RESPONSE, SendResponse);
      AddHookIf(host, memory.enabled, DO_SEND_REQUEST, SendRequest);
      AddHookIf(host, memory.enabled, DO_READ_RESPONSE, ReadResponse);
      AddHookIf(host, memory.enabled, DO_CACHE_LOOKUP, CacheLookup);
      host.Note(AddHook(TxnClose));
    }

    method AddGlobalHooks(host: Host, mask: Mask)
      requires memory.Live?
      modifies host
      ensures Shows(host, old(memory.env), RegisterGlobal(old(Now(host)), mask))
    {
      host.Note(CreateCont);
      AddHookIf(host, mask, GLB_READ_REQUEST, ReadRequest);
      AddHookIf(host, mask, GLB_PRE_REMAP, PreRemap);
      AddHookIf(host, mask, GLB_POST_REMAP, PostRemap);
      AddHookIf(host, mask, GLB_CACHE_LOOKUP, CacheLookup);
      AddHookIf(host, mask, GLB_SEND_REQUEST, SendRequest);
      AddHookIf(host, mask, GLB_READ_RESPONSE, ReadResponse);
      AddHookIf(host, mask, GLB_SEND_RESPONSE, SendResponse);
      host.Note(AddHook(TxnClose));
    }

    /** Whether the URL was changed has to be read before the context may be gone. */
    method FinishRemap(host: Host) returns (didRemap: bool)
      requires memory.Live?
      modifies this, host
      ensures
        var (s, kept) := Cripts.FinishRemap(old(Now(host)), old(memory.env));
        && (if kept then Shows(host, old(memory.env), s) else memory == Freed)
        && host.log == s.trace && didRemap == s.requestModified
    {
      var keep := false;
      FlushKeepsMask(Now(host), memory.env);
      if !memory.failed {
        UpdateBoth(host);
        if AnyLater(memory.enabled) {
          AddRemapHooks(host);
          keep := true;
        }
      }
      host.Note(Execute);
      didRemap := memory.requestModified;
      if !keep {
        Release(host);
      }
    }
  }

  /** `TSRemapDoRemap`. */
  method DoRemapTxn(env: Env, host: Host) returns (context: Context, didRemap: bool)
    requires host.log == []
    modifies host
    ensures fresh(context)
    ensures if Remap(env).1 then context.Shows(host, env, Remap(env).0) else context.memory == Freed
    ensures host.log == Remap(env).0.trace && didRemap == Remap(env).0.requestModified
  {
    context := new Context(env, AllCallbacks(env));
    context.CallRemap(host);
    didRemap := context.FinishRemap(host);
  }

  /** `global_cont` at the start of a transaction. */
  method StartTxn(env: Env, host: Host) returns (context: Context)
    requires host.log == []
    modifies host
    ensures fresh(context)
    ensures if TxnStart(env).1 then context.Shows(host, env, TxnStart(env).0) else context.memory == Freed
    ensures host.log == TxnStart(env).0.trace
  {
    context := new Context(env, env.instanceMask);
    context.CallCript(host, GlbTxnStart);
    if env.instanceMask != 0 {
      context.AddGlobalHooks(host, env.instanceMask);
    } else {
      context.Release(host);
    }
    host.Note(Reenable);
  }
}
