/**
  A whole transaction in place: the host calls an entry point, delivers the hooks
  and, if the close was registered, the close.
 */
module CriptTransaction {
  import opened Cripts
  import opened CriptRuns
  import opened CriptSafety
  import opened CriptContext

  /** Any transaction ends with its context freed, having used no part of it after that, and shows the host
      exactly what the specification says. */
  method RunTransaction(entry: Entry, env: Env, hooks: seq<Hook>, host: Host) returns (context: Context)
    requires host.log == [] && Deliverable(Begin(entry, env), hooks)
    modifies host
    ensures fresh(context) && context.memory == Freed
    ensures host.log == Whole(Begin(entry, env), env, hooks).trace
  {
    match entry {
      case AtRemap =>
        var didRemap;
        context, didRemap := DoRemapTxn(env, host);
      case AtTxnStart =>
        context := StartTxn(env, host);
    }
    CloseIsRegistered(entry, env);
    if AddHook(TxnClose) in host.log {
      ghost var start := Begin(entry, env).0;
      for i := 0 to |hooks|
        invariant context.memory.Live? && context.memory.env == env
        invariant Deliver(context.Now(host), env, hooks[i..]) == Deliver(start, env, hooks)
      {
        assert hooks[i..][1..] == hooks[i + 1..];
        context.HttpTxnCont(host, hooks[i]);
      }
      context.HttpTxnCont(host, TxnClose);
    }
  }
}
