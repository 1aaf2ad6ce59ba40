/**
  Instances of a Cript and the two-level filter over their bundles.  An instance
  collects the callback masks of its bundles when it is created
  (`TSRemapNewInstance`), so that an event can skip all bundles at once.
 */
module CriptInstance {
  import opened Cripts
  import opened CriptRuns

  /** A bundle as its instance sees it: its mask, and what validating it says. */
  datatype Bundle = Bundle(callbacks: Mask, valid: bool, errors: nat)

  // ---------------------------------------------------------------------------
  // Creating an instance

  function Join(a: Mask, b: Mask): Mask {
    a | b
  }

  /** The callbacks of the instance once the first `n` bundles were looked at. */
  function Collected(base: Mask, bundles: seq<Bundle>, n: nat): Mask
    requires n <= |bundles|
  {
    if n == 0 then base
    else
      var m := Collected(base, bundles, n - 1);
      if bundles[n - 1].valid then Join(m, bundles[n - 1].callbacks) else m
  }

  function Errors(bundles: seq<Bundle>, n: nat): nat
    requires n <= |bundles|
  {
    if n == 0 then 0 else Errors(bundles, n - 1) + bundles[n - 1].errors
  }

  lemma {:induction false} NoErrors(bundles: seq<Bundle>, n: nat)
    requires n <= |bundles|
    ensures Errors(bundles, n) == 0 <==> forall k :: 0 <= k < n ==> bundles[k].errors == 0
  {
    if n != 0 {
      NoErrors(bundles, n - 1);
    }
  }

  class Instance {
    var callbacks: Mask
    var failed: bool
    const bundles: seq<Bundle>

    constructor (bundles: seq<Bundle>)
      ensures this.bundles == bundles && callbacks == 0 && !failed
    {
      this.bundles := bundles;
      callbacks := 0;
      failed := false;
    }

    method NeedCallback(cbs: Mask)
      modifies `callbacks
      ensures callbacks == Join(old(callbacks), cbs)
    {
      callbacks := Join(callbacks, cbs);
    }

    /** The end of `TSRemapNewInstance`, after the Cript's own set-up: true if the instance can be used. */
    method CollectCallbacks() returns (ok: bool)
      modifies `callbacks
      ensures ok <==> !failed && forall k :: 0 <= k < |bundles| ==> bundles[k].errors == 0
      ensures callbacks == if failed then old(callbacks) else Collected(old(callbacks), bundles, |bundles|)
    {
      if failed {
        return false;
      }
      var errors := 0;
      var i := 0;
      while i < |bundles|
        invariant 0 <= i <= |bundles|
        invariant callbacks == Collected(old(callbacks), bundles, i)
        invariant errors == Errors(bundles, i)
      {
        errors := errors + bundles[i].errors;
        if bundles[i].valid {
          NeedCallback(bundles[i].callbacks);
        }
        i := i + 1;
      }
      NoErrors(bundles, i);
      ok := errors == 0;
    }
  }

  lemma HasJoin(a: Mask, b: Mask, bits: Mask)
    ensures Has(Join(a, b), bits) <==> Has(a, bits) || Has(b, bits)
  {
    assert (a | b) & bits == (a & bits) | (b & bits);
  }

  /** The instance asks for a callback exactly if it did so itself or a valid bundle does. */
  lemma {:induction false} CollectedIsUnion(base: Mask, bundles: seq<Bundle>, n: nat, bits: Mask)
    requires n <= |bundles|
    ensures Has(Collected(base, bundles, n), bits) <==>
      Has(base, bits) || exists k :: 0 <= k < n && bundles[k].valid && Has(bundles[k].callbacks, bits)
  {
    if n != 0 {
      CollectedIsUnion(base, bundles, n - 1, bits);
      HasJoin(Collected(base, bundles, n - 1), bundles[n - 1].callbacks, bits);
    }
  }

  // ---------------------------------------------------------------------------
  // The filter

  /** The calls that the bundles' own masks ask for. */
  function Wanted(bundles: seq<Mask>, select: Mask, fn: Fn, i: nat): seq<Action>
    requires i <= |bundles|
    decreases |bundles| - i
  {
    if i == |bundles| then []
    else (if Has(bundles[i], select) then [RunBundle(i, fn)] else []) + Wanted(bundles, select, fn, i + 1)
  }

  predicate Wants(a: Action, bundles: seq<Mask>, select: Mask, fn: Fn, i: nat) {
    a.RunBundle? && a.fn == fn && i <= a.index < |bundles| && Has(bundles[a.index], select)
  }

  /** `w` has exactly the bundles from `i` on whose mask has a selected bit, each once, in order. */
  ghost predicate IsSelection(w: seq<Action>, bundles: seq<Mask>, select: Mask, fn: Fn, i: nat) {
    && (forall j :: 0 <= j < |w| ==> Wants(w[j], bundles, select, fn, i))
    && (forall j, k :: 0 <= j < k < |w| ==> w[j].index < w[k].index)
    && (forall k :: i <= k < |bundles| && Has(bundles[k], select) ==> RunBundle(k, fn) in w)
  }

  lemma {:induction false} WantedExactly(bundles: seq<Mask>, select: Mask, fn: Fn, i: nat)
    requires i <= |bundles|
    ensures IsSelection(Wanted(bundles, select, fn, i), bundles, select, fn, i)
    decreases |bundles| - i
  {
    if i < |bundles| {
      var rest := Wanted(bundles, select, fn, i + 1);
      WantedExactly(bundles, select, fn, i + 1);
      if Has(bundles[i], select) {
        SelectMore(rest, bundles, select, fn, i);
      } else {
        SelectNoMore(rest, bundles, select, fn, i);
        assert [] + rest == rest;
      }
    }
  }

  lemma SelectNoMore(rest: seq<Action>, bundles: seq<Mask>, select: Mask, fn: Fn, i: nat)
    requires i < |bundles| && !Has(bundles[i], select) && IsSelection(rest, bundles, select, fn, i + 1)
    ensures IsSelection(rest, bundles, select, fn, i)
  {
  }

  lemma SelectMore(rest: seq<Action>, bundles: seq<Mask>, select: Mask, fn: Fn, i: nat)
    requires i < |bundles| && Has(bundles[i], select) && IsSelection(rest, bundles, select, fn, i + 1)
    ensures IsSelection([RunBundle(i, fn)] + rest, bundles, select, fn, i)
  {
    var w := [RunBundle(i, fn)] + rest;
    assert forall j :: 1 <= j < |w| ==> w[j] == rest[j - 1] && Wants(rest[j - 1], bundles, select, fn, i + 1);
  }

  /** What one bundle does, even failing the transaction, does not keep the later ones from their call. */
  lemma {:induction false} RunBundlesWanted(s: State, env: Env, select: Mask, fn: Fn, i: nat)
    requires i <= |env.bundles|
    ensures RunBundles(s, env, select, fn, i).trace == s.trace + Wanted(env.bundles, select, fn, i)
    decreases |env.bundles| - i
  {
    if i < |env.bundles| {
      if Has(env.bundles[i], select) {
        RunBundlesWanted(Called(s, env, RunBundle(i, fn)), env, select, fn, i + 1);
        Regroup(s.trace, [RunBundle(i, fn)], Wanted(env.bundles, select, fn, i + 1));
      } else {
        RunBundlesWanted(s, env, select, fn, i + 1);
        assert [] + Wanted(env.bundles, select, fn, i + 1) == Wanted(env.bundles, select, fn, i + 1);
      }
    }
  }

  /** The instance's mask is no obstacle: it selects the hook, or no bundle does. */
  ghost predicate Covered(env: Env, select: Mask) {
    Has(env.instanceMask, select) || forall k :: 0 <= k < |env.bundles| ==> !Has(env.bundles[k], select)
  }

  lemma NothingWanted(bundles: seq<Mask>, select: Mask, fn: Fn)
    ensures Wanted(bundles, select, fn, 0) == [] <==> forall k :: 0 <= k < |bundles| ==> !Has(bundles[k], select)
  {
    WantedExactly(bundles, select, fn, 0);
    var w := Wanted(bundles, select, fn, 0);
    if w != [] {
      assert Wants(w[0], bundles, select, fn, 0);
    }
  }

  /** The two-level filter calls what the bundles ask for, exactly if the instance's mask covers theirs. */
  lemma FilterIsExact(s: State, env: Env, select: Mask, fn: Fn)
    requires !s.failed
    ensures OfferToBundles(s, env, select, fn).trace == s.trace + Wanted(env.bundles, select, fn, 0) <==>
      Covered(env, select)
  {
    RunBundlesWanted(s, env, select, fn, 0);
    NothingWanted(env.bundles, select, fn);
    if !Has(env.instanceMask, select) && Wanted(env.bundles, select, fn, 0) != [] {
      assert |s.trace + Wanted(env.bundles, select, fn, 0)| > |s.trace|;
    }
  }

  function Masks(bundles: seq<Bundle>): seq<Mask> {
    seq(|bundles|, i requires 0 <= i < |bundles| => bundles[i].callbacks)
  }

  /** An instance whose bundles are all valid covers them at every hook. */
  lemma InstanceCovers(base: Mask, bundles: seq<Bundle>, env: Env, select: Mask)
    requires forall k :: 0 <= k < |bundles| ==> bundles[k].valid
    requires env.bundles == Masks(bundles) && env.instanceMask == Collected(base, bundles, |bundles|)
    ensures Covered(env, select)
  {
    CollectedIsUnion(base, bundles, |bundles|, select);
    if !Has(env.instanceMask, select) {
      forall k | 0 <= k < |env.bundles| ensures !Has(env.bundles[k], select) {
        assert env.bundles[k] == bundles[k].callbacks;
      }
    }
  }
}
