/**
  The tracking allocator of `include/tscore/Allocator.h`: `alloc` and `free` of
  `TrackerClassAllocator`, run by any number of threads.

  `alloc` takes an object from the underlying allocator, adds the object's size
  to the counter of the calling symbol, and only then records object and symbol in
  `reverse_lookup` under the lock.  `free` looks the object up under the lock,
  subtracts its size from the recorded symbol and erases the record, and only then
  returns the object.  Between those points other threads run.

  The underlying allocator may hand out any address that is not out at the
  moment, in particular one that was just returned; see `FreeList`.
 */
module TrackerAllocator {

  type Addr = nat
  type Symbol = nat

  datatype Phase =
    | Allocated(p: Addr, sym: Symbol)     // object taken, not yet counted
    | Counted(p: Addr, sym: Symbol)       // counted, not yet in the lookup table
    | Freeing(p: Addr, taker: Symbol)        // about to take the lock in free; `taker` took the object
    | Erased(p: Addr)                     // record erased, object not yet returned

  datatype State = State(
    tracked: map<Symbol, int>,            // absent symbols count zero
    lookup: map<Addr, Symbol>,
    allocations: nat,
    threads: map<nat, Phase>,
    held: map<Addr, Symbol>,              // objects in the hands of callers, by the symbol that took them
    out: set<Addr>)                       // addresses the underlying allocator has out

  datatype Step =
    | Take(t: nat, p: Addr, sym: Symbol)
    | Count(t: nat)
    | Insert(t: nat)
    | Free(t: nat, p: Addr)
    | Erase(t: nat)
    | GiveBack(t: nat)

  predicate Enabled(s: State, step: Step) {
    match step
    case Take(t, p, _) => t !in s.threads && p !in s.out
    case Count(t) => t in s.threads && s.threads[t].Allocated?
    case Insert(t) => t in s.threads && s.threads[t].Counted?
    case Free(t, p) => t !in s.threads && p in s.held
    case Erase(t) => t in s.threads && s.threads[t].Freeing?
    case GiveBack(t) => t in s.threads && s.threads[t].Erased?
  }

  function Bytes(tracked: map<Symbol, int>, sym: Symbol): int {
    if sym in tracked then tracked[sym] else 0
  }

  function Apply(size: nat, s: State, step: Step): State
    requires Enabled(s, step)
  {
    match step
    case Take(t, p, sym) =>
      s.(threads := s.threads[t := Allocated(p, sym)], out := s.out + {p})
    case Count(t) =>
      var a := s.threads[t];
      s.(threads := s.threads[t := Counted(a.p, a.sym)], tracked := s.tracked[a.sym := Bytes(s.tracked, a.sym) + size])
    case Insert(t) =>
      var a := s.threads[t];
      s.(threads := s.threads - {t}, lookup := s.lookup[a.p := a.sym], allocations := s.allocations + 1,
         held := s.held[a.p := a.sym])
    case Free(t, p) =>
      s.(threads := s.threads[t := Freeing(p, s.held[p])], held := s.held - {p})
    case Erase(t) =>
      var p := s.threads[t].p;
      var s' := s.(threads := s.threads[t := Erased(p)]);
      if p in s.lookup then
        s'.(tracked := s.tracked[s.lookup[p] := Bytes(s.tracked, s.lookup[p]) - size], lookup := s.lookup - {p})
      else s'
    case GiveBack(t) =>
      s.(threads := s.threads - {t}, out := s.out - {s.threads[t].p})
  }

  predicate ValidRun(size: nat, s: State, steps: seq<Step>)
    decreases |steps|
  {
    steps == [] || (Enabled(s, steps[0]) && ValidRun(size, Apply(size, s, steps[0]), steps[1..]))
  }

  function Run(size: nat, s: State, steps: seq<Step>): State
    requires ValidRun(size, s, steps)
    decreases |steps|
  {
    if steps == [] then s else Run(size, Apply(size, s, steps[0]), steps[1..])
  }

  function Init(): State {
    State(map[], map[], 0, map[], map[], {})
  }

  // ---------------------------------------------------------------------------

  /** Objects recorded for `sym`. */
  ghost function Recorded(lookup: map<Addr, Symbol>, sym: Symbol): set<Addr> {
    set p | p in lookup && lookup[p] == sym
  }

  /** Threads that have counted an object for `sym` but not yet recorded it. */
  ghost function Pending(threads: map<nat, Phase>, sym: Symbol): set<nat> {
    set t | t in threads && threads[t].Counted? && threads[t].sym == sym
  }

  /** An address that is out is held by a caller or is in the hands of one thread, never two. */
  ghost predicate OwnersOk(s: State) {
    && (forall p :: p in s.held ==> p in s.out)
    && (forall t :: t in s.threads ==> s.threads[t].p in s.out && s.threads[t].p !in s.held)
    && (forall t, u :: t in s.threads && u in s.threads && t != u ==> s.threads[t].p != s.threads[u].p)
  }

  /** The table records the held objects, under the symbol that took them, and those about to be erased. */
  ghost predicate LookupOk(s: State) {
    && (forall p :: p in s.held ==> p in s.lookup && s.lookup[p] == s.held[p])
    && (forall t :: t in s.threads ==> (s.threads[t].p in s.lookup <==> s.threads[t].Freeing?))
    && (forall t :: t in s.threads && s.threads[t].Freeing? ==> s.lookup[s.threads[t].p] == s.threads[t].taker)
  }

  /** The table records nothing else. */
  ghost predicate NoStrays(s: State) {
    forall p :: p in s.lookup && p !in s.held ==> BeingFreed(s.threads, p)
  }

  ghost predicate BeingFreed(threads: map<nat, Phase>, p: Addr) {
    exists t :: t in threads && threads[t].Freeing? && threads[t].p == p
  }

  ghost predicate CountsOk(size: nat, s: State) {
    forall sym :: Bytes(s.tracked, sym) == size * (|Recorded(s.lookup, sym)| + |Pending(s.threads, sym)|)
  }

  ghost predicate Inv(size: nat, s: State) {
    OwnersOk(s) && LookupOk(s) && NoStrays(s) && CountsOk(size, s)
  }

  lemma OwnersKept(size: nat, s: State, step: Step)
    requires OwnersOk(s) && Enabled(s, step)
    ensures OwnersOk(Apply(size, s, step))
  {
  }

  lemma LookupKept(size: nat, s: State, step: Step)
    requires OwnersOk(s) && LookupOk(s) && NoStrays(s) && Enabled(s, step)
    ensures LookupOk(Apply(size, s, step))
  {
  }

  lemma NoStraysKept(size: nat, s: State, step: Step)
    requires OwnersOk(s) && LookupOk(s) && NoStrays(s) && Enabled(s, step)
    ensures NoStrays(Apply(size, s, step))
  {
    var s' := Apply(size, s, step);
    forall p | p in s'.lookup && p !in s'.held
      ensures BeingFreed(s'.threads, p)
    {
      if p !in s.held {
        assert BeingFreed(s.threads, p);
        var t :| t in s.threads && s.threads[t].Freeing? && s.threads[t].p == p;
        assert t in s'.threads && s'.threads[t].Freeing? && s'.threads[t].p == p;
      } else {
        assert s'.threads[step.t] == Freeing(p, s.held[p]);
      }
    }
  }

  lemma RecordedInsert(lookup: map<Addr, Symbol>, p: Addr, sym: Symbol, x: Symbol)
    requires p !in lookup
    ensures |Recorded(lookup[p := sym], x)| == |Recorded(lookup, x)| + if x == sym then 1 else 0
  {
    assert Recorded(lookup[p := sym], x) == Recorded(lookup, x) + if x == sym then {p} else {};
  }

  lemma RecordedErase(lookup: map<Addr, Symbol>, p: Addr, x: Symbol)
    requires p in lookup
    ensures |Recorded(lookup, x)| == |Recorded(lookup - {p}, x)| + if x == lookup[p] then 1 else 0
  {
    assert Recorded(lookup, x) == Recorded(lookup - {p}, x) + if x == lookup[p] then {p} else {};
  }

  lemma PendingEnter(threads: map<nat, Phase>, t: nat, p: Addr, sym: Symbol, x: Symbol)
    requires t in threads ==> !threads[t].Counted?
    ensures |Pending(threads[t := Counted(p, sym)], x)| == |Pending(threads, x)| + if x == sym then 1 else 0
  {
    assert Pending(threads[t := Counted(p, sym)], x) == Pending(threads, x) + if x == sym then {t} else {};
  }

  lemma PendingLeave(threads: map<nat, Phase>, t: nat, x: Symbol)
    requires t in threads && threads[t].Counted?
    ensures |Pending(threads, x)| == |Pending(threads - {t}, x)| + if x == threads[t].sym then 1 else 0
  {
    assert Pending(threads, x) == Pending(threads - {t}, x) + if x == threads[t].sym then {t} else {};
  }

  lemma Distribute(size: nat, n: int, d: int)
    ensures size * (n + d) == size * n + size * d
  {
  }

  /** One symbol's counter across one step. */
  lemma CountKept(size: nat, s: State, step: Step, x: Symbol)
    requires Enabled(s, step)
    requires step.Insert? ==> s.threads[step.t].p !in s.lookup
    requires step.Erase? ==> s.threads[step.t].p in s.lookup
    requires Bytes(s.tracked, x) == size * (|Recorded(s.lookup, x)| + |Pending(s.threads, x)|)
    ensures
      var s' := Apply(size, s, step);
      Bytes(s'.tracked, x) == size * (|Recorded(s'.lookup, x)| + |Pending(s'.threads, x)|)
  {
    var s' := Apply(size, s, step);
    var n := |Recorded(s.lookup, x)| + |Pending(s.threads, x)|;
    match step
    case Count(t) =>
      PendingEnter(s.threads, t, s.threads[t].p, s.threads[t].sym, x);
      Distribute(size, n, 1);
    case Insert(t) =>
      PendingLeave(s.threads, t, x);
      RecordedInsert(s.lookup, s.threads[t].p, s.threads[t].sym, x);
    case Erase(t) =>
      RecordedErase(s.lookup, s.threads[t].p, x);
      Distribute(size, n, -1);
      assert Pending(s'.threads, x) == Pending(s.threads, x);
    case _ =>
      assert Pending(s'.threads, x) == Pending(s.threads, x);
  }

  lemma CountsKept(size: nat, s: State, step: Step)
    requires LookupOk(s) && CountsOk(size, s) && Enabled(s, step)
    ensures CountsOk(size, Apply(size, s, step))
  {
    forall x
      ensures Bytes(Apply(size, s, step).tracked, x) ==
        size * (|Recorded(Apply(size, s, step).lookup, x)| + |Pending(Apply(size, s, step).threads, x)|)
    {
      CountKept(size, s, step, x);
    }
  }

  lemma {:induction false} RunKeepsInv(size: nat, s: State, steps: seq<Step>)
    requires Inv(size, s) && ValidRun(size, s, steps)
    ensures Inv(size, Run(size, s, steps))
    decreases |steps|
  {
    if steps != [] {
      OwnersKept(size, s, steps[0]);
      LookupKept(size, s, steps[0]);
      NoStraysKept(size, s, steps[0]);
      CountsKept(size, s, steps[0]);
      RunKeepsInv(size, Apply(size, s, steps[0]), steps[1..]);
    }
  }

  lemma InitOk(size: nat)
    ensures Inv(size, Init())
  {
    forall x
      ensures Bytes(Init().tracked, x) == size * (|Recorded(Init().lookup, x)| + |Pending(Init().threads, x)|)
    {
      assert Recorded(Init().lookup, x) == {} && Pending(Init().threads, x) == {};
    }
  }

  /** How many objects were recorded in the steps. */
  function Inserts(steps: seq<Step>): nat {
    if steps == [] then 0 else (if steps[0].Insert? then 1 else 0) + Inserts(steps[1..])
  }

  lemma {:induction false} AllocationsGrow(size: nat, s: State, steps: seq<Step>)
    requires ValidRun(size, s, steps)
    ensures Run(size, s, steps).allocations == s.allocations + Inserts(steps)
    decreases |steps|
  {
    if steps != [] {
      AllocationsGrow(size, Apply(size, s, steps[0]), steps[1..]);
    }
  }

  // ---------------------------------------------------------------------------
  // Main results

  /** The allocation count is the number of objects ever recorded. */
  lemma AllocationsCounted(size: nat, steps: seq<Step>)
    requires ValidRun(size, Init(), steps)
    ensures Run(size, Init(), steps).allocations == Inserts(steps)
  {
    AllocationsGrow(size, Init(), steps);
  }

  /** In every reachable state a symbol's counter is the object size times the objects recorded for it
      plus those counted and not yet recorded. */
  lemma TrackedBytesAgree(size: nat, steps: seq<Step>, sym: Symbol)
    requires ValidRun(size, Init(), steps)
    ensures
      var s := Run(size, Init(), steps);
      Bytes(s.tracked, sym) == size * (|Recorded(s.lookup, sym)| + |Pending(s.threads, sym)|)
  {
    InitOk(size);
    RunKeepsInv(size, Init(), steps);
  }

  /** With no call in progress the table is exactly the objects held, so every counter is the object
      size times the objects held that its symbol took. */
  lemma QuiescentAccounting(size: nat, steps: seq<Step>, sym: Symbol)
    requires ValidRun(size, Init(), steps) && Run(size, Init(), steps).threads == map[]
    ensures
      var s := Run(size, Init(), steps);
      s.lookup == s.held && Bytes(s.tracked, sym) == size * |Recorded(s.held, sym)|
  {
    InitOk(size);
    RunKeepsInv(size, Init(), steps);
    var s := Run(size, Init(), steps);
    assert s.lookup == s.held;
    assert Pending(s.threads, sym) == {};
  }

  /** A recorded object is never handed out again: when `alloc` records an address, the table holds no
      stale entry for it, and when `free` looks its object up, the entry is there and names the symbol
      that took it. */
  lemma NoStaleEntries(size: nat, steps: seq<Step>, t: nat)
    requires ValidRun(size, Init(), steps)
    ensures
      var s := Run(size, Init(), steps);
      && (Enabled(s, Insert(t)) ==> s.threads[t].p !in s.lookup)
      && (Enabled(s, Erase(t)) ==> s.threads[t].p in s.lookup && s.lookup[s.threads[t].p] == s.threads[t].taker)
      && (forall p :: p !in s.out ==> p !in s.lookup)
  {
    InitOk(size);
    RunKeepsInv(size, Init(), steps);
    var s := Run(size, Init(), steps);
    forall p | p in s.lookup
      ensures p in s.out
    {
      if p !in s.held {
        assert BeingFreed(s.threads, p);
      }
    }
  }
}
