/**
  The lock-free bit of `include/tscore/AtomicBit.h`: any number of threads run
  `compare_exchange` on one shared byte.

  A call loads the byte, computes the byte it wants, returns false when the two
  agree, and otherwise tries a weak compare-and-swap, starting over when that
  fails.  Loads and swaps of different threads interleave freely and a weak swap
  may fail for no reason.  The state also carries its history: `log` holds one
  entry per call that has taken effect, in the order the calls took effect.
 */
module AtomicBit {

  type Byte = bv8

  datatype Call = Call(mask: Byte, val: bool)

  /** The byte `call` wants, given the byte it sees. */
  function Target(call: Call, byte: Byte): Byte {
    if call.val then byte | call.mask else byte & !call.mask
  }

  /** One call's effect: who made it, what it asked for and what it reported. */
  datatype Effect = Effect(thread: nat, call: Call, result: bool)

  /** A finished call: it was invoked when the log had `since` entries, took effect as entry
      `point`, and returned when the log had `until` entries. */
  datatype Finished = Finished(thread: nat, call: Call, result: bool, since: nat, point: nat, until: nat)

  datatype Phase =
    | Trying(call: Call, since: nat)
    | Loaded(call: Call, since: nat, seen: Byte, at: nat)
    | Done(call: Call, since: nat, point: nat, result: bool)

  /** A thread that is not in `threads` has no call in progress. */
  datatype State = State(byte: Byte, threads: map<nat, Phase>, log: seq<Effect>, finished: seq<Finished>)

  datatype Step =
    | Invoke(t: nat, call: Call)
    | Load(t: nat)
    | Swap(t: nat, spurious: bool)
    | Return(t: nat)

  predicate Enabled(s: State, step: Step) {
    match step
    case Invoke(t, _) => t !in s.threads
    case Load(t) => t in s.threads && s.threads[t].Trying?
    case Swap(t, _) => t in s.threads && s.threads[t].Loaded?
    case Return(t) => t in s.threads && s.threads[t].Done?
  }

  function Apply(s: State, step: Step): State
    requires Enabled(s, step)
  {
    match step
    case Invoke(t, call) =>
      s.(threads := s.threads[t := Trying(call, |s.log|)])
    case Load(t) =>
      var p := s.threads[t];
      if Target(p.call, s.byte) == s.byte then
        s.(threads := s.threads[t := Done(p.call, p.since, |s.log|, false)],
           log := s.log + [Effect(t, p.call, false)])
      else
        s.(threads := s.threads[t := Loaded(p.call, p.since, s.byte, |s.log|)])
    case Swap(t, spurious) =>
      var p := s.threads[t];
      if s.byte == p.seen && !spurious then
        s.(byte := Target(p.call, p.seen),
           threads := s.threads[t := Done(p.call, p.since, |s.log|, true)],
           log := s.log + [Effect(t, p.call, true)])
      else
        s.(threads := s.threads[t := Trying(p.call, p.since)])
    case Return(t) =>
      var p := s.threads[t];
      s.(threads := s.threads - {t},
         finished := s.finished + [Finished(t, p.call, p.result, p.since, p.point, |s.log|)])
  }

  predicate ValidRun(s: State, steps: seq<Step>)
    decreases |steps|
  {
    steps == [] || (Enabled(s, steps[0]) && ValidRun(Apply(s, steps[0]), steps[1..]))
  }

  function Run(s: State, steps: seq<Step>): State
    requires ValidRun(s, steps)
    decreases |steps|
  {
    if steps == [] then s else Run(Apply(s, steps[0]), steps[1..])
  }

  function Init(byte: Byte): State {
    State(byte, map[], [], [])
  }

  // ---------------------------------------------------------------------------
  // The reference: calls made one at a time.

  /** The byte after the calls of `log` are made one after the other. */
  function Replay(byte: Byte, log: seq<Effect>): Byte {
    if log == [] then byte else Target(log[|log| - 1].call, Replay(byte, log[..|log| - 1]))
  }

  /** Every call of `log` reports whether it changed the byte, when made one after the other. */
  ghost predicate Legal(byte: Byte, log: seq<Effect>) {
    forall i :: 0 <= i < |log| ==>
      log[i].result == (Replay(byte, log[..i + 1]) != Replay(byte, log[..i]))
  }

  lemma ReplayExtend(byte: Byte, log: seq<Effect>, e: Effect)
    ensures Replay(byte, log + [e]) == Target(e.call, Replay(byte, log))
  {
    assert (log + [e])[..|log|] == log;
  }

  lemma LegalExtend(byte: Byte, log: seq<Effect>, e: Effect)
    requires Legal(byte, log)
    requires e.result == (Target(e.call, Replay(byte, log)) != Replay(byte, log))
    ensures Legal(byte, log + [e])
  {
    var log' := log + [e];
    ReplayExtend(byte, log, e);
    forall i | 0 <= i < |log'|
      ensures log'[i].result == (Replay(byte, log'[..i + 1]) != Replay(byte, log'[..i]))
    {
      if i < |log| {
        assert log'[..i] == log[..i] && log'[..i + 1] == log[..i + 1];
      } else {
        assert log'[..i] == log && log'[..i + 1] == log';
      }
    }
  }

  // ---------------------------------------------------------------------------
  // What every step keeps.

  ghost predicate PhaseOk(byte: Byte, log: seq<Effect>, t: nat, p: Phase) {
    match p
    case Trying(_, since) =>
      since <= |log|
    case Loaded(call, since, seen, at) =>
      && since <= at <= |log|
      && seen == Replay(byte, log[..at])
      && Target(call, seen) != seen
      && (forall i :: at <= i < |log| ==> log[i].thread != t)
    case Done(call, since, point, result) =>
      since <= point < |log| && log[point] == Effect(t, call, result)
  }

  ghost predicate FinishedOk(log: seq<Effect>, f: Finished) {
    f.since <= f.point < f.until <= |log| && log[f.point] == Effect(f.thread, f.call, f.result)
  }

  /** Entry `i` belongs to a finished call or to one about to return. */
  ghost predicate Claimed(s: State, i: nat)
    requires i < |s.log|
  {
    || (exists k :: 0 <= k < |s.finished| && s.finished[k].point == i)
    || (var t := s.log[i].thread; t in s.threads && s.threads[t].Done? && s.threads[t].point == i)
  }

  ghost predicate Inv(byte: Byte, s: State) {
    && Legal(byte, s.log)
    && s.byte == Replay(byte, s.log)
    && (forall t :: t in s.threads ==> PhaseOk(byte, s.log, t, s.threads[t]))
    && (forall k :: 0 <= k < |s.finished| ==> FinishedOk(s.log, s.finished[k]))
    && (forall i :: 0 <= i < |s.log| ==> Claimed(s, i))
    && (forall k, l :: 0 <= k < l < |s.finished| ==> s.finished[k].point != s.finished[l].point)
    && (forall k, t :: 0 <= k < |s.finished| && t in s.threads && s.threads[t].Done? ==>
          s.finished[k].point != s.threads[t].point)
  }

  /** Appending an effect of thread `t`, which then waits to return it, keeps the invariant. */
  lemma EffectKeepsInv(byte: Byte, s: State, t: nat, result: bool, byte': Byte)
    requires Inv(byte, s) && t in s.threads && !s.threads[t].Done?
    requires byte' == Target(s.threads[t].call, s.byte) && result == (byte' != s.byte)
    ensures
      var p := s.threads[t];
      Inv(byte, State(byte', s.threads[t := Done(p.call, p.since, |s.log|, result)],
                      s.log + [Effect(t, p.call, result)], s.finished))
  {
    var p := s.threads[t];
    var e := Effect(t, p.call, result);
    var s' := State(byte', s.threads[t := Done(p.call, p.since, |s.log|, result)], s.log + [e], s.finished);
    LegalExtend(byte, s.log, e);
    ReplayExtend(byte, s.log, e);
    forall u | u in s'.threads
      ensures PhaseOk(byte, s'.log, u, s'.threads[u])
    {
      assert PhaseOk(byte, s.log, u, s.threads[u]);
      if u != t {
        PhaseOutlives(byte, s.log, u, s.threads[u], e);
      }
    }
    forall k | 0 <= k < |s'.finished|
      ensures FinishedOk(s'.log, s'.finished[k])
    {
      assert FinishedOk(s.log, s.finished[k]);
    }
    forall i | 0 <= i < |s'.log|
      ensures Claimed(s', i)
    {
      if i < |s.log| {
        assert Claimed(s, i);
        ClaimOutlives(s, s', i, t);
      }
    }
  }

  /** An effect of another thread leaves a thread's phase in order. */
  lemma PhaseOutlives(byte: Byte, log: seq<Effect>, u: nat, p: Phase, e: Effect)
    requires PhaseOk(byte, log, u, p) && e.thread != u
    ensures PhaseOk(byte, log + [e], u, p)
  {
    if p.Loaded? {
      assert (log + [e])[..p.at] == log[..p.at];
    }
  }

  lemma ClaimOutlives(s: State, s': State, i: nat, t: nat)
    requires i < |s.log| && Claimed(s, i) && s.log <= s'.log && s'.finished == s.finished
    requires t in s.threads && !s.threads[t].Done?
    requires forall u :: u in s.threads && u != t ==> u in s'.threads && s'.threads[u] == s.threads[u]
    ensures Claimed(s', i)
  {
    assert s'.log[i] == s.log[i];
  }

  lemma ReturnKeepsInv(byte: Byte, s: State, t: nat)
    requires Inv(byte, s) && Enabled(s, Return(t))
    ensures Inv(byte, Apply(s, Return(t)))
  {
    var s' := Apply(s, Return(t));
    var p := s.threads[t];
    assert PhaseOk(byte, s.log, t, p);
    assert s'.finished[|s.finished|].point == p.point;
    forall i | 0 <= i < |s'.log|
      ensures Claimed(s', i)
    {
      assert Claimed(s, i);
      if k :| 0 <= k < |s.finished| && s.finished[k].point == i {
        assert s'.finished[k].point == i;
      }
    }
    forall k, u | 0 <= k < |s'.finished| && u in s'.threads && s'.threads[u].Done?
      ensures s'.finished[k].point != s'.threads[u].point
    {
      assert PhaseOk(byte, s.log, u, s.threads[u]);
    }
  }

  /** Moving a thread to a phase that has not taken effect keeps the invariant. */
  lemma PhaseChangeKeepsInv(byte: Byte, s: State, t: nat, p: Phase)
    requires Inv(byte, s) && (t in s.threads ==> !s.threads[t].Done?)
    requires !p.Done? && PhaseOk(byte, s.log, t, p)
    ensures Inv(byte, s.(threads := s.threads[t := p]))
  {
    var s' := s.(threads := s.threads[t := p]);
    forall i | 0 <= i < |s'.log|
      ensures Claimed(s', i)
    {
      assert Claimed(s, i);
    }
  }

  lemma StepKeepsInv(byte: Byte, s: State, step: Step)
    requires Inv(byte, s) && Enabled(s, step)
    ensures Inv(byte, Apply(s, step))
  {
    var t := step.t;
    if step.Return? {
      ReturnKeepsInv(byte, s, t);
    } else if step.Invoke? {
      PhaseChangeKeepsInv(byte, s, t, Trying(step.call, |s.log|));
    } else {
      var p, s' := s.threads[t], Apply(s, step);
      assert PhaseOk(byte, s.log, t, p);
      assert s.log[..|s.log|] == s.log;
      if s'.threads[t].Done? {
        EffectKeepsInv(byte, s, t, step.Swap?, s'.byte);
      } else {
        PhaseChangeKeepsInv(byte, s, t, s'.threads[t]);
      }
    }
  }

  lemma {:induction false} RunKeepsInv(byte: Byte, s: State, steps: seq<Step>)
    requires Inv(byte, s) && ValidRun(s, steps)
    ensures Inv(byte, Run(s, steps))
    decreases |steps|
  {
    if steps != [] {
      StepKeepsInv(byte, s, steps[0]);
      RunKeepsInv(byte, Apply(s, steps[0]), steps[1..]);
    }
  }

  // ---------------------------------------------------------------------------
  // Main results.

  /** Every run is linearizable.  The effects, replayed one at a time from the initial byte, give
      the final byte and every result that was reported.  Each finished call is exactly one entry,
      made between its invocation and its return; a call not yet returned has at most one. */
  lemma Linearizable(byte: Byte, steps: seq<Step>)
    requires ValidRun(Init(byte), steps)
    ensures
      var s := Run(Init(byte), steps);
      && s.byte == Replay(byte, s.log)
      && Legal(byte, s.log)
      && (forall k :: 0 <= k < |s.finished| ==> FinishedOk(s.log, s.finished[k]))
      && (forall k, l :: 0 <= k < l < |s.finished| ==> s.finished[k].point != s.finished[l].point)
      && (forall i :: 0 <= i < |s.log| ==> Claimed(s, i))
  {
    RunKeepsInv(byte, Init(byte), steps);
  }

  lemma {:induction false} RunSplit(s: State, a: seq<Step>, b: seq<Step>)
    requires ValidRun(s, a + b)
    ensures ValidRun(s, a) && ValidRun(Run(s, a), b) && Run(s, a + b) == Run(Run(s, a), b)
    decreases |a|
  {
    if a == [] {
      assert a + b == b;
    } else {
      assert (a + b)[1..] == a[1..] + b;
      RunSplit(Apply(s, a[0]), a[1..], b);
    }
  }

  /** The state before step `n` of a run. */
  ghost function At(byte: Byte, steps: seq<Step>, n: nat): State
    requires ValidRun(Init(byte), steps) && n <= |steps|
  {
    assert steps == steps[..n] + steps[n..];
    RunSplit(Init(byte), steps[..n], steps[n..]);
    Run(Init(byte), steps[..n])
  }

  lemma AtLater(byte: Byte, steps: seq<Step>, n: nat, m: nat)
    requires ValidRun(Init(byte), steps) && n <= m <= |steps|
    ensures ValidRun(At(byte, steps, n), steps[n..m])
    ensures At(byte, steps, m) == Run(At(byte, steps, n), steps[n..m])
  {
    assert steps == steps[..m] + steps[m..];
    RunSplit(Init(byte), steps[..m], steps[m..]);
    assert steps[..m] == steps[..n] + steps[n..m];
    RunSplit(Init(byte), steps[..n], steps[n..m]);
  }

  lemma AtNext(byte: Byte, steps: seq<Step>, n: nat)
    requires ValidRun(Init(byte), steps) && n < |steps|
    ensures Enabled(At(byte, steps, n), steps[n])
    ensures At(byte, steps, n + 1) == Apply(At(byte, steps, n), steps[n])
  {
    AtLater(byte, steps, n, n + 1);
    assert steps[n..n + 1] == [steps[n]];
    assert [steps[n]][1..] == [];
  }

  lemma {:induction false} HistoryGrows(s: State, steps: seq<Step>)
    requires ValidRun(s, steps)
    ensures s.log <= Run(s, steps).log && s.finished <= Run(s, steps).finished
    decreases |steps|
  {
    if steps != [] {
      HistoryGrows(Apply(s, steps[0]), steps[1..]);
    }
  }

  predicate Invokes(step: Step, t: nat) {
    step.Invoke? && step.t == t
  }

  /** A call in progress that was not invoked on the way was in progress all along. */
  lemma {:induction false} SameCall(s: State, steps: seq<Step>, t: nat)
    requires ValidRun(s, steps) && t in Run(s, steps).threads
    requires forall m :: 0 <= m < |steps| ==> !Invokes(steps[m], t)
    ensures t in s.threads && Run(s, steps).threads[t].since == s.threads[t].since
    ensures Run(s, steps).threads[t].call == s.threads[t].call
    decreases |steps|
  {
    if steps != [] {
      assert !Invokes(steps[0], t);
      SameCall(Apply(s, steps[0]), steps[1..], t);
    }
  }

  /** Step `j` invokes a call and step `r` returns it. */
  ghost predicate IsCall(steps: seq<Step>, j: nat, r: nat) {
    && j < r < |steps| && steps[j].Invoke? && steps[r] == Return(steps[j].t)
    && forall m :: j < m < r ==> !Invokes(steps[m], steps[j].t)
  }

  /** The call that step `r` returns is entry `l` of the finished calls. */
  lemma ReturnRecords(byte: Byte, steps: seq<Step>, r: nat) returns (l: nat)
    requires ValidRun(Init(byte), steps) && r < |steps| && steps[r].Return?
    ensures l == |At(byte, steps, r).finished| < |Run(Init(byte), steps).finished|
    ensures steps[r].t in At(byte, steps, r).threads
    ensures
      var s, f := At(byte, steps, r), Run(Init(byte), steps).finished[l];
      var p := s.threads[steps[r].t];
      p.Done? && f == Finished(steps[r].t, p.call, p.result, p.since, p.point, |s.log|)
  {
    l := |At(byte, steps, r).finished|;
    AtNext(byte, steps, r);
    AtLater(byte, steps, r + 1, |steps|);
    assert steps[..|steps|] == steps;
    HistoryGrows(At(byte, steps, r + 1), steps[r + 1..|steps|]);
  }

  /** The call invoked by step `j` and returned by step `r` is recorded with what it asked for and with the
      length the log had when it was invoked. */
  lemma CallRecords(byte: Byte, steps: seq<Step>, j: nat, r: nat) returns (l: nat)
    requires ValidRun(Init(byte), steps) && IsCall(steps, j, r)
    ensures l == |At(byte, steps, r).finished| < |Run(Init(byte), steps).finished|
    ensures
      var f := Run(Init(byte), steps).finished[l];
      f.thread == steps[j].t && f.call == steps[j].call && f.since == |At(byte, steps, j).log|
  {
    l := ReturnRecords(byte, steps, r);
    AtNext(byte, steps, j);
    AtLater(byte, steps, j + 1, r);
    var between := steps[j + 1..r];
    assert forall m :: 0 <= m < |between| ==> between[m] == steps[j + 1 + m];
    SameCall(At(byte, steps, j + 1), between, steps[j].t);
  }

  /** A call that returned, by step `i`, before another was invoked, by step `j`, took effect before it. */
  lemma RealTimeOrder(byte: Byte, steps: seq<Step>, i: nat, j: nat, r: nat)
    requires ValidRun(Init(byte), steps) && i < j && IsCall(steps, j, r) && steps[i].Return?
    ensures
      var f := Run(Init(byte), steps).finished;
      var k, l := |At(byte, steps, i).finished|, |At(byte, steps, r).finished|;
      && k < |f| && f[k].thread == steps[i].t
      && l < |f| && f[l].thread == steps[j].t && f[l].call == steps[j].call
      && f[k].point < f[l].point
  {
    var k := ReturnRecords(byte, steps, i);
    var l := CallRecords(byte, steps, j, r);
    AtLater(byte, steps, i, j);
    HistoryGrows(At(byte, steps, i), steps[i..j]);
    Linearizable(byte, steps);
    var s := Run(Init(byte), steps);
    assert FinishedOk(s.log, s.finished[k]) && FinishedOk(s.log, s.finished[l]);
  }

  /** Two prefixes of a legal log that replay to different bytes are separated by a change. */
  lemma {:induction false} ChangedBetween(byte: Byte, log: seq<Effect>, at: nat) returns (i: nat)
    requires at <= |log| && Legal(byte, log) && Replay(byte, log[..at]) != Replay(byte, log)
    ensures at <= i < |log| && log[i].result
    decreases |log| - at
  {
    assert log[..|log|] == log;
    if Replay(byte, log[..at + 1]) != Replay(byte, log[..at]) {
      i := at;
    } else {
      i := ChangedBetween(byte, log, at + 1);
    }
  }

  /** A swap that is not spurious fails only because another thread changed the byte since the load. */
  lemma SwapFailureMeansProgress(byte: Byte, steps: seq<Step>, t: nat)
    requires ValidRun(Init(byte), steps) && Enabled(Run(Init(byte), steps), Swap(t, false))
    requires !Apply(Run(Init(byte), steps), Swap(t, false)).threads[t].Done?
    ensures
      var s := Run(Init(byte), steps);
      exists i :: s.threads[t].at <= i < |s.log| && s.log[i].thread != t && s.log[i].result
  {
    RunKeepsInv(byte, Init(byte), steps);
    var s := Run(Init(byte), steps);
    assert PhaseOk(byte, s.log, t, s.threads[t]);
    var i := ChangedBetween(byte, s.log, s.threads[t].at);
  }

  /** A call that is left alone for a load and a swap is done: the byte is what it wants, and it reports whether
      that is a change. */
  lemma AloneIsDone(s: State, t: nat)
    requires t in s.threads && s.threads[t].Trying?
    ensures
      var call := s.threads[t].call;
      var s1 := Apply(s, Load(t));
      var s2 := if s1.threads[t].Loaded? then Apply(s1, Swap(t, false)) else s1;
      && s2.byte == Target(call, s.byte)
      && s2.threads[t].Done? && s2.threads[t].result == (Target(call, s.byte) != s.byte)
  {
  }

  // ---------------------------------------------------------------------------
  // One bit of the byte.

  predicate SingleBit(mask: Byte) {
    mask != 0 && mask & (mask - 1) == 0
  }

  /** `call` is about bits inside `mask` or about bits outside it. */
  predicate InOrOut(call: Call, mask: Byte) {
    call.mask & mask == 0 || call.mask & mask == call.mask
  }

  ghost predicate Respects(log: seq<Effect>, mask: Byte) {
    forall i :: 0 <= i < |log| ==> InOrOut(log[i].call, mask)
  }

  predicate Elsewhere(call: Call, mask: Byte) {
    call.mask & mask == 0
  }

  /** Every call of `log` is about exactly `mask` or about other bits. */
  ghost predicate OnlyMask(log: seq<Effect>, mask: Byte) {
    forall i :: 0 <= i < |log| ==> log[i].call.mask == mask || Elsewhere(log[i].call, mask)
  }

  /** Every call of `log` sets `mask` or is about other bits. */
  ghost predicate OnlySets(log: seq<Effect>, mask: Byte) {
    forall i :: 0 <= i < |log| ==> log[i].call == Call(mask, true) || Elsewhere(log[i].call, mask)
  }

  function BitOf(byte: Byte, mask: Byte): int {
    if byte & mask == 0 then 0 else 1
  }

  /** Successful sets minus successful clears of `mask` in `log`. */
  function NetSets(log: seq<Effect>, mask: Byte): int {
    if log == [] then 0
    else
      var e := log[|log| - 1];
      NetSets(log[..|log| - 1], mask) +
      if e.result && e.call.mask == mask then (if e.call.val then 1 else -1) else 0
  }

  function CountWins(log: seq<Effect>, mask: Byte): nat {
    if log == [] then 0
    else CountWins(log[..|log| - 1], mask) + if log[|log| - 1].result && log[|log| - 1].call.mask == mask then 1 else 0
  }

  lemma OneBitStep(byte: Byte, call: Call, mask: Byte)
    requires SingleBit(mask) && (call.mask == mask || Elsewhere(call, mask))
    ensures
      var byte' := Target(call, byte);
      BitOf(byte', mask) - BitOf(byte, mask) ==
      if call.mask == mask && byte' != byte then (if call.val then 1 else -1) else 0
    ensures call.mask == mask ==> BitOf(Target(call, byte), mask) == if call.val then 1 else 0
  {
    if call.mask == mask {
      SingleBitIsAllOrNothing(byte, mask);
      if call.val {
        SetOne(byte, mask);
      } else {
        ClearOne(byte, mask);
      }
    } else {
      KeepOne(byte, call, mask);
    }
  }

  lemma SetOne(byte: Byte, mask: Byte)
    requires mask != 0 && (byte & mask == 0 || byte & mask == mask)
    ensures (byte | mask) & mask == mask
    ensures byte | mask == byte <==> byte & mask != 0
  {
  }

  lemma ClearOne(byte: Byte, mask: Byte)
    ensures (byte & !mask) & mask == 0
    ensures byte & !mask == byte <==> byte & mask == 0
  {
  }

  lemma KeepOne(byte: Byte, call: Call, mask: Byte)
    requires Elsewhere(call, mask)
    ensures Target(call, byte) & mask == byte & mask
  {
  }

  lemma SingleBitIsAllOrNothing(byte: Byte, mask: Byte)
    requires SingleBit(mask)
    ensures byte & mask == 0 || byte & mask == mask
  {
  }

  lemma LegalPrefix(byte: Byte, log: seq<Effect>, n: nat)
    requires Legal(byte, log) && n <= |log|
    ensures Legal(byte, log[..n])
  {
    forall i | 0 <= i < n
      ensures log[..n][i].result == (Replay(byte, log[..n][..i + 1]) != Replay(byte, log[..n][..i]))
    {
      assert log[..n][..i] == log[..i] && log[..n][..i + 1] == log[..i + 1];
    }
  }

  lemma {:induction false} NetSetsIsBitChange(byte: Byte, log: seq<Effect>, mask: Byte)
    requires Legal(byte, log) && SingleBit(mask) && OnlyMask(log, mask)
    ensures NetSets(log, mask) == BitOf(Replay(byte, log), mask) - BitOf(byte, mask)
    decreases |log|
  {
    if log != [] {
      var n := |log| - 1;
      LegalPrefix(byte, log, n);
      NetSetsIsBitChange(byte, log[..n], mask);
      OneBitStep(Replay(byte, log[..n]), log[n].call, mask);
      assert log[..n + 1] == log;
    }
  }

  /** Over any run, successful sets minus successful clears of a bit is its final minus its initial value. */
  lemma BitConservation(byte: Byte, steps: seq<Step>, mask: Byte)
    requires ValidRun(Init(byte), steps) && SingleBit(mask) && OnlyMask(Run(Init(byte), steps).log, mask)
    ensures
      var s := Run(Init(byte), steps);
      NetSets(s.log, mask) == BitOf(s.byte, mask) - BitOf(byte, mask)
  {
    Linearizable(byte, steps);
    NetSetsIsBitChange(byte, Run(Init(byte), steps).log, mask);
  }

  lemma {:induction false} OnlySetsLeaveBitSet(byte: Byte, log: seq<Effect>, mask: Byte, k: nat)
    requires SingleBit(mask) && OnlySets(log, mask)
    requires k < |log| && log[k].call == Call(mask, true)
    ensures BitOf(Replay(byte, log), mask) == 1
    decreases |log|
  {
    var n := |log| - 1;
    OneBitStep(Replay(byte, log[..n]), log[n].call, mask);
    if log[n].call != Call(mask, true) {
      OnlySetsLeaveBitSet(byte, log[..n], mask, k);
    }
  }

  lemma {:induction false} NetOfSetsIsWins(log: seq<Effect>, mask: Byte)
    requires SingleBit(mask) && OnlySets(log, mask)
    ensures NetSets(log, mask) == CountWins(log, mask)
    decreases |log|
  {
    if log != [] {
      NetOfSetsIsWins(log[..|log| - 1], mask);
      assert mask & mask == mask;
    }
  }

  /** Of any number of `test_and_set` calls racing on a clear bit that nobody clears, exactly one wins. */
  lemma ExactlyOneWinner(byte: Byte, steps: seq<Step>, mask: Byte, k: nat)
    requires ValidRun(Init(byte), steps) && SingleBit(mask) && BitOf(byte, mask) == 0
    requires OnlySets(Run(Init(byte), steps).log, mask)
    requires k < |Run(Init(byte), steps).log| && Run(Init(byte), steps).log[k].call == Call(mask, true)
    ensures CountWins(Run(Init(byte), steps).log, mask) == 1
  {
    BitConservation(byte, steps, mask);
    Linearizable(byte, steps);
    OnlySetsLeaveBitSet(byte, Run(Init(byte), steps).log, mask, k);
    NetOfSetsIsWins(Run(Init(byte), steps).log, mask);
  }

  /** The entries of `log` whose call is about bits inside `mask`. */
  function Within(log: seq<Effect>, mask: Byte): seq<Effect> {
    if log == [] then []
    else
      var n := |log| - 1;
      Within(log[..n], mask) + if log[n].call.mask & mask == 0 then [] else [log[n]]
  }

  lemma WithinStep(call: Call, a: Byte, b: Byte, a': Byte, b': Byte, mask: Byte)
    requires InOrOut(call, mask) && a & mask == b & mask
    requires a' == Target(call, a) && b' == if call.mask & mask == 0 then b else Target(call, b)
    ensures a' & mask == b' & mask
  {
  }

  lemma WithinLast(byte: Byte, log: seq<Effect>, mask: Byte)
    requires log != []
    ensures
      var e, rest := log[|log| - 1], Within(log[..|log| - 1], mask);
      Replay(byte, Within(log, mask)) ==
      if e.call.mask & mask == 0 then Replay(byte, rest) else Target(e.call, Replay(byte, rest))
  {
    var e, rest := log[|log| - 1], Within(log[..|log| - 1], mask);
    ReplayExtend(byte, rest, e);
    assert rest + [] == rest;
  }

  lemma WithinExtend(byte: Byte, log: seq<Effect>, mask: Byte)
    requires log != [] && Respects(log, mask)
    requires Replay(byte, log[..|log| - 1]) & mask == Replay(byte, Within(log[..|log| - 1], mask)) & mask
    ensures Replay(byte, log) & mask == Replay(byte, Within(log, mask)) & mask
  {
    var n := |log| - 1;
    WithinLast(byte, log, mask);
    WithinStep(log[n].call, Replay(byte, log[..n]), Replay(byte, Within(log[..n], mask)),
               Replay(byte, log), Replay(byte, Within(log, mask)), mask);
  }

  /** Calls on disjoint bits never lose each other's updates: the bits of `mask` end up as if only the
      calls about them had been made. */
  lemma {:induction false} ReplayWithin(byte: Byte, log: seq<Effect>, mask: Byte)
    requires Respects(log, mask)
    ensures Replay(byte, log) & mask == Replay(byte, Within(log, mask)) & mask
    decreases |log|
  {
    if log != [] {
      var n := |log| - 1;
      ReplayWithin(byte, log[..n], mask);
      WithinExtend(byte, log, mask);
    }
  }

  /** Calls on other bits do not disturb those on `mask`: its bits are what the calls within it alone leave. */
  lemma NoLostUpdates(byte: Byte, steps: seq<Step>, mask: Byte)
    requires ValidRun(Init(byte), steps) && Respects(Run(Init(byte), steps).log, mask)
    ensures
      var s := Run(Init(byte), steps);
      s.byte & mask == Replay(byte, Within(s.log, mask)) & mask
  {
    Linearizable(byte, steps);
    ReplayWithin(byte, Run(Init(byte), steps).log, mask);
  }
}
