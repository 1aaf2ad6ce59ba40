/**
  What a number of callbacks in a row do to a transaction, read off the script
  that says what each callback does.
 */
module CriptScript {
  import opened Cripts
  import opened CriptRuns
  import opened CriptInstance

  /** One of the `n` callbacks from number `from` on fails the transaction. */
  ghost predicate Fails(env: Env, from: nat, n: nat) {
    exists k :: from <= k < from + n && EffectOf(env, k).fail
  }

  ghost predicate ChangesRequest(env: Env, from: nat, n: nat) {
    exists k :: from <= k < from + n && EffectOf(env, k).modifiesRequest
  }

  ghost predicate ChangesCache(env: Env, from: nat, n: nat) {
    exists k :: from <= k < from + n && EffectOf(env, k).modifiesCache
  }

  /** What `n` callbacks leave of `mask`. */
  function Left(mask: Mask, env: Env, from: nat, n: nat): Mask
    decreases n
  {
    if n == 0 then mask else Left(Without(mask, EffectOf(env, from).disable), env, from + 1, n - 1)
  }

  predicate SingleBit(bit: Mask) {
    bit != 0 && bit & (bit - 1) == 0
  }

  lemma WithoutKeeps(mask: Mask, bits: Mask, bit: Mask)
    requires SingleBit(bit)
    ensures Has(Without(mask, bits), bit) <==> Has(mask, bit) && !Has(bits, bit)
  {
    if Has(bits, bit) {
      OneOrNone(bits, bit);
      ClearedAt(mask, bits, bit);
    } else {
      KeptAt(mask, bits, bit);
    }
  }

  lemma OneOrNone(mask: Mask, bit: Mask)
    requires SingleBit(bit)
    ensures mask & bit == 0 || mask & bit == bit
  {
  }

  lemma ClearedAt(mask: Mask, bits: Mask, bit: Mask)
    requires bits & bit == bit
    ensures !Has(Without(mask, bits), bit)
  {
  }

  lemma KeptAt(mask: Mask, bits: Mask, bit: Mask)
    requires !Has(bits, bit)
    ensures Has(Without(mask, bits), bit) <==> Has(mask, bit)
  {
    var x := Without(mask, bits) & bit;
    assert x == mask & bit by {
      KeptBits(mask, bits, bit);
    }
  }

  lemma KeptBits(mask: Mask, bits: Mask, bit: Mask)
    requires bits & bit == 0
    ensures (mask & !bits) & bit == mask & bit
  {
  }

  /** A bit is left exactly if it was set and no callback disabled it. */
  lemma {:induction false} LeftIff(mask: Mask, env: Env, from: nat, n: nat, bit: Mask)
    requires SingleBit(bit)
    ensures Has(Left(mask, env, from, n), bit) <==>
      Has(mask, bit) && forall k :: from <= k < from + n ==> !Has(EffectOf(env, k).disable, bit)
    decreases n
  {
    if n != 0 {
      var d := EffectOf(env, from).disable;
      WithoutKeeps(mask, d, bit);
      LeftIff(Without(mask, d), env, from + 1, n - 1, bit);
    }
  }

  lemma {:induction false} LeftInTwo(mask: Mask, env: Env, from: nat, n: nat, m: nat)
    ensures Left(mask, env, from, n + m) == Left(Left(mask, env, from, n), env, from + n, m)
    decreases n
  {
    if n != 0 {
      LeftInTwo(Without(mask, EffectOf(env, from).disable), env, from + 1, n - 1, m);
    }
  }

  /** From `s` to `s'` exactly `n` callbacks ran, the next ones of the script. */
  ghost predicate Ran(s: State, s': State, env: Env, n: nat) {
    && s'.calls == s.calls + n
    && s'.enabled == Left(s.enabled, env, s.calls, n)
    && s'.failed == (s.failed || Fails(env, s.calls, n))
    && s'.requestModified == (s.requestModified || ChangesRequest(env, s.calls, n))
    && s'.cacheModified == (s.cacheModified || ChangesCache(env, s.calls, n))
  }

  lemma RanNone(s: State, env: Env)
    ensures Ran(s, s, env, 0)
  {
  }

  lemma RanOne(s: State, env: Env, a: Action)
    ensures Ran(s, Called(s, env, a), env, 1)
  {
    var k := s.calls;
    assert Left(s.enabled, env, k, 1) == Left(Without(s.enabled, EffectOf(env, k).disable), env, k + 1, 0);
    assert Fails(env, k, 1) == EffectOf(env, k).fail;
    assert ChangesRequest(env, k, 1) == EffectOf(env, k).modifiesRequest;
    assert ChangesCache(env, k, 1) == EffectOf(env, k).modifiesCache;
  }

  lemma SomeInTwo(env: Env, from: nat, n: nat, m: nat)
    ensures Fails(env, from, n + m) == (Fails(env, from, n) || Fails(env, from + n, m))
    ensures ChangesRequest(env, from, n + m) == (ChangesRequest(env, from, n) || ChangesRequest(env, from + n, m))
    ensures ChangesCache(env, from, n + m) == (ChangesCache(env, from, n) || ChangesCache(env, from + n, m))
  {
  }

  lemma RanBoth(a: State, b: State, c: State, env: Env, n: nat, m: nat)
    requires Ran(a, b, env, n) && Ran(b, c, env, m)
    ensures Ran(a, c, env, n + m)
  {
    LeftInTwo(a.enabled, env, a.calls, n, m);
    SomeInTwo(env, a.calls, n, m);
  }

  lemma {:induction false} BundlesRan(s: State, env: Env, select: Mask, fn: Fn, i: nat)
    requires i <= |env.bundles|
    ensures Ran(s, RunBundles(s, env, select, fn, i), env, |Wanted(env.bundles, select, fn, i)|)
    decreases |env.bundles| - i
  {
    if i == |env.bundles| {
      RanNone(s, env);
    } else {
      var rest := |Wanted(env.bundles, select, fn, i + 1)|;
      if Has(env.bundles[i], select) {
        var s1 := Called(s, env, RunBundle(i, fn));
        RanOne(s, env, RunBundle(i, fn));
        BundlesRan(s1, env, select, fn, i + 1);
        RanBoth(s, s1, RunBundles(s1, env, select, fn, i + 1), env, 1, rest);
      } else {
        BundlesRan(s, env, select, fn, i + 1);
      }
    }
  }

  // ---------------------------------------------------------------------------
  // The remap callbacks

  /** The Cript has a remap function, or its instance asks for the remap. */
  predicate RemapAsked(env: Env) {
    DoRemap in env.defined || Has(env.instanceMask, DO_REMAP)
  }

  /** The remap function of every bundle, in order. */
  function EveryBundle(n: nat): seq<Action> {
    seq(n, (k: nat) => RunBundle(k, DoRemap))
  }

  /** The callbacks of a remap: every bundle, then the Cript unless a bundle failed the transaction. */
  ghost function RemapCalls(env: Env): seq<Action> {
    if !RemapAsked(env) then []
    else
      EveryBundle(|env.bundles|) +
      if DoRemap in env.defined && !Fails(env, 0, |env.bundles|) then [RunCript(DoRemap)] else []
  }

  lemma {:induction false} AllBundlesRan(s: State, env: Env, i: nat)
    requires i <= |env.bundles|
    ensures Ran(s, RunAllBundles(s, env, i), env, |env.bundles| - i)
    ensures RunAllBundles(s, env, i).trace == s.trace + EveryBundle(|env.bundles|)[i..]
    decreases |env.bundles| - i
  {
    var n := |env.bundles|;
    if i == n {
      RanNone(s, env);
      assert s.trace + [] == s.trace;
    } else {
      var s1 := Called(s, env, RunBundle(i, DoRemap));
      RanOne(s, env, RunBundle(i, DoRemap));
      AllBundlesRan(s1, env, i + 1);
      RanBoth(s, s1, RunAllBundles(s1, env, i + 1), env, 1, n - i - 1);
      assert EveryBundle(n)[i..] == [RunBundle(i, DoRemap)] + EveryBundle(n)[i + 1..];
      Regroup(s.trace, [RunBundle(i, DoRemap)], EveryBundle(n)[i + 1..]);
    }
  }

  /** The remap makes exactly these callbacks. */
  lemma RemapCallsMade(env: Env)
    ensures
      var s, s' := NewRemap(env), RemapCallbacks(NewRemap(env), env);
      s'.trace == RemapCalls(env) && Ran(s, s', env, |RemapCalls(env)|)
  {
    var s := NewRemap(env);
    var n := |env.bundles|;
    if RemapAsked(env) {
      var s1 := RunAllBundles(s, env, 0);
      AllBundlesRan(s, env, 0);
      assert EveryBundle(n)[0..] == EveryBundle(n) && s1.trace == EveryBundle(n);
      if DoRemap in env.defined && !Fails(env, 0, n) {
        RanOne(s1, env, RunCript(DoRemap));
        RanBoth(s, s1, Called(s1, env, RunCript(DoRemap)), env, n, 1);
      } else {
        assert EveryBundle(n) + [] == EveryBundle(n);
      }
    } else {
      RanNone(s, env);
    }
  }
}
