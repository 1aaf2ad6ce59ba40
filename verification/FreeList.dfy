/**
  The lock-free free list of `src/tscore/ink_queue.cc`.

  Free blocks form a linked list threaded through their own first word; the head
  is one word holding a pointer and a version.  A pop loads the head, reads the
  first block's link and swaps in (link, version + 1).  A push writes the loaded
  head pointer into the last block of the chain it returns and swaps in (first
  block, version), leaving the version alone.  An empty list is refilled by
  pushing the blocks of a fresh chunk one at a time.

  Threads interleave at every load, link access and swap, and the owner of an
  allocated block may overwrite its link at any time.  Versions are stored modulo
  `w`.  `list`, `owner`, `pops` and `log` are history: what the list should be, who
  holds each block, how many pops succeeded, and the operations in the order they
  took effect.
 */
module FreeList {

  /** Block addresses; zero is the null pointer. */
  type Addr = nat

  datatype Owner = Listed | Client | InFlight(t: nat)

  datatype Phase =
    | PopStart
    | PopLoaded(p: Addr, v: nat, at: nat, snap: seq<Addr>)
    | PopRead(p: Addr, v: nat, next: Addr, at: nat, snap: seq<Addr>)
    | Refill(todo: seq<Addr>)
    | PushStart(chain: seq<Addr>, todo: seq<Addr>, refill: bool)
    | PushLoaded(chain: seq<Addr>, todo: seq<Addr>, refill: bool, h: Addr, hv: nat)
    | PushLinked(chain: seq<Addr>, todo: seq<Addr>, refill: bool, h: Addr, hv: nat)

  datatype Op = Popped(t: nat, block: Addr) | Pushed(t: nat, chain: seq<Addr>)

  datatype State = State(
    head: Addr,
    version: nat,
    link: map<Addr, Addr>,
    threads: map<nat, Phase>,
    list: seq<Addr>,
    owner: map<Addr, Owner>,
    pops: nat,
    log: seq<Op>)

  function Init(): State {
    State(0, 0, map[], map[], [], map[], 0, [])
  }

  // ---------------------------------------------------------------------------
  // Steps

  datatype Step =
    | New(t: nat)                                    // ink_freelist_new is called
    | LoadForPop(t: nat, chunk: seq<Addr>, junk: Addr)
    | ReadLink(t: nat)
    | SwapPop(t: nat)
    | FreeNext(t: nat)                               // next block of the fresh chunk
    | Free(t: nat, chain: seq<Addr>)                 // ink_freelist_free, ink_freelist_free_bulk
    | LoadForPush(t: nat)
    | WriteLink(t: nat)
    | SwapPush(t: nat)
    | Scribble(b: Addr, x: Addr)                     // the holder of a block writes to it

  predicate NoDuplicates(s: seq<Addr>) {
    forall i, j :: 0 <= i < j < |s| ==> s[i] != s[j]
  }

  /** A chain a caller may free: blocks it holds, linked in order. */
  predicate Freeable(s: State, chain: seq<Addr>) {
    && chain != [] && NoDuplicates(chain)
    && (forall i :: 0 <= i < |chain| ==> chain[i] in s.owner && s.owner[chain[i]] == Client && chain[i] in s.link)
    && (forall i :: 0 <= i < |chain| - 1 ==> s.link[chain[i]] == chain[i + 1])
  }

  /** Memory the system may hand out as a fresh chunk. */
  predicate Fresh(s: State, chunk: seq<Addr>) {
    && chunk != [] && NoDuplicates(chunk)
    && (forall i :: 0 <= i < |chunk| ==> chunk[i] != 0 && chunk[i] !in s.owner && chunk[i] !in s.link)
  }

  predicate Enabled(s: State, step: Step) {
    match step
    case New(t) => t !in s.threads
    case LoadForPop(t, chunk, _) => t in s.threads && s.threads[t].PopStart? && (s.head == 0 ==> Fresh(s, chunk))
    case ReadLink(t) => t in s.threads && s.threads[t].PopLoaded?
    case SwapPop(t) => t in s.threads && s.threads[t].PopRead?
    case FreeNext(t) => t in s.threads && s.threads[t].Refill?
    case Free(t, chain) => t !in s.threads && Freeable(s, chain)
    case LoadForPush(t) => t in s.threads && s.threads[t].PushStart?
    case WriteLink(t) => t in s.threads && s.threads[t].PushLoaded?
    case SwapPush(t) => t in s.threads && s.threads[t].PushLinked?
    case Scribble(b, _) => b in s.owner && s.owner[b] == Client
  }

  function Give(owner: map<Addr, Owner>, blocks: seq<Addr>, o: Owner): map<Addr, Owner> {
    map b | b in owner.Keys + (set x | x in blocks) :: if b in blocks then o else owner[b]
  }

  function First(blocks: seq<Addr>): Addr {
    if blocks == [] then 0 else blocks[0]
  }

  function Last(blocks: seq<Addr>): Addr {
    if blocks == [] then 0 else blocks[|blocks| - 1]
  }

  /** The element after position `i`, or null. */
  function After(blocks: seq<Addr>, i: nat): Addr {
    if i + 1 < |blocks| then blocks[i + 1] else 0
  }

  function Rest(blocks: seq<Addr>): seq<Addr> {
    if blocks == [] then [] else blocks[1..]
  }

  /** The link word of `b`; what an address outside every chunk holds does not matter. */
  function Peek(link: map<Addr, Addr>, b: Addr): Addr {
    if b in link then link[b] else 0
  }

  /** The successor of a version stored in a field that counts modulo `w`. */
  function NextVersion(w: nat, v: nat): nat {
    if v + 1 < w then v + 1 else 0
  }

  /** The stored version after `n` successful pops. */
  function VersionAfter(w: nat, n: nat): nat {
    if n == 0 then 0 else NextVersion(w, VersionAfter(w, n - 1))
  }

  function Apply(w: nat, s: State, step: Step): State
    requires w > 0 && Enabled(s, step)
  {
    match step
    case New(t) => s.(threads := s.threads[t := PopStart])
    case LoadForPop(t, chunk, junk) =>
      if s.head != 0 then
        s.(threads := s.threads[t := PopLoaded(s.head, s.version, s.pops, s.list)])
      else
        s.(threads := s.threads[t := Refill(chunk)],
           link := s.link + (map b | b in chunk :: junk),
           owner := Give(s.owner, chunk, InFlight(t)))
    case ReadLink(t) =>
      var p := s.threads[t];
      s.(threads := s.threads[t := PopRead(p.p, p.v, Peek(s.link, p.p), p.at, p.snap)])
    case SwapPop(t) =>
      var p := s.threads[t];
      if s.head == p.p && s.version == p.v then
        s.(head := p.next, version := NextVersion(w, p.v), threads := s.threads - {t},
           list := Rest(s.list),
           owner := s.owner[p.p := Client], pops := s.pops + 1, log := s.log + [Popped(t, p.p)])
      else
        s.(threads := s.threads[t := PopStart])
    case FreeNext(t) =>
      var p := s.threads[t];
      if p.todo == [] then s.(threads := s.threads[t := PopStart])
      else s.(threads := s.threads[t := PushStart([p.todo[0]], p.todo[1..], true)])
    case Free(t, chain) =>
      s.(threads := s.threads[t := PushStart(chain, [], false)], owner := Give(s.owner, chain, InFlight(t)))
    case LoadForPush(t) =>
      var p := s.threads[t];
      s.(threads := s.threads[t := PushLoaded(p.chain, p.todo, p.refill, s.head, s.version)])
    case WriteLink(t) =>
      var p := s.threads[t];
      s.(threads := s.threads[t := PushLinked(p.chain, p.todo, p.refill, p.h, p.hv)],
         link := s.link[Last(p.chain) := p.h])
    case SwapPush(t) =>
      var p := s.threads[t];
      if s.head == p.h && s.version == p.hv then
        s.(head := First(p.chain),
           threads := if p.refill then s.threads[t := Refill(p.todo)] else s.threads - {t},
           list := p.chain + s.list, owner := Give(s.owner, p.chain, Listed),
           log := s.log + [Pushed(t, p.chain)])
      else
        s.(threads := s.threads[t := PushStart(p.chain, p.todo, p.refill)])
    case Scribble(b, x) => s.(link := s.link[b := x])
  }

  predicate ValidRun(w: nat, s: State, steps: seq<Step>)
    requires w > 0
    decreases |steps|
  {
    steps == [] || (Enabled(s, steps[0]) && ValidRun(w, Apply(w, s, steps[0]), steps[1..]))
  }

  function Run(w: nat, s: State, steps: seq<Step>): State
    requires w > 0 && ValidRun(w, s, steps)
    decreases |steps|
  {
    if steps == [] then s else Run(w, Apply(w, s, steps[0]), steps[1..])
  }

  /** A pop attempts its swap before `w` other pops have succeeded since its load. */
  predicate TimelyStep(w: nat, s: State, step: Step)
    requires Enabled(s, step)
  {
    step.SwapPop? ==> s.pops < s.threads[step.t].at + w
  }

  predicate Timely(w: nat, s: State, steps: seq<Step>)
    requires w > 0 && ValidRun(w, s, steps)
    decreases |steps|
  {
    steps == [] || (TimelyStep(w, s, steps[0]) && Timely(w, Apply(w, s, steps[0]), steps[1..]))
  }

  // ---------------------------------------------------------------------------
  // The reference: a pool used one operation at a time.

  function Do(list: seq<Addr>, op: Op): seq<Addr> {
    match op
    case Popped(_, _) => Rest(list)
    case Pushed(_, chain) => chain + list
  }

  function Replay(log: seq<Op>): seq<Addr> {
    if log == [] then [] else Do(Replay(log[..|log| - 1]), log[|log| - 1])
  }

  /** A pop takes the block on top; a push adds blocks that are not in the pool. */
  ghost predicate LegalOp(list: seq<Addr>, op: Op) {
    match op
    case Popped(_, block) => list != [] && block == list[0]
    case Pushed(_, chain) => chain != [] && NoDuplicates(chain) && forall b :: b in chain ==> b !in list
  }

  ghost predicate Legal(log: seq<Op>) {
    forall i :: 0 <= i < |log| ==> LegalOp(Replay(log[..i]), log[i])
  }

  lemma LegalExtend(log: seq<Op>, op: Op)
    requires Legal(log) && LegalOp(Replay(log), op)
    ensures Legal(log + [op]) && Replay(log + [op]) == Do(Replay(log), op)
  {
    var log' := log + [op];
    assert log'[..|log|] == log;
    forall i | 0 <= i < |log'|
      ensures LegalOp(Replay(log'[..i]), log'[i])
    {
      assert i < |log| ==> log'[..i] == log[..i];
    }
  }

  // ---------------------------------------------------------------------------
  // What every step keeps.

  function Blocks(p: Phase): seq<Addr> {
    match p
    case Refill(todo) => todo
    case PushStart(chain, todo, _) => chain + todo
    case PushLoaded(chain, todo, _, _, _) => chain + todo
    case PushLinked(chain, todo, _, _, _) => chain + todo
    case _ => []
  }

  ghost predicate Suffix(a: seq<Addr>, b: seq<Addr>) {
    |a| <= |b| && a == b[|b| - |a|..]
  }

  ghost predicate ListOk(s: State) {
    && s.head == First(s.list)
    && NoDuplicates(s.list)
    && (forall i :: 0 <= i < |s.list| ==> s.list[i] in s.link && s.link[s.list[i]] == After(s.list, i))
  }

  ghost predicate OwnerOk(s: State) {
    && s.owner.Keys == s.link.Keys && 0 !in s.owner
    && (forall b :: b in s.list ==> b in s.owner && s.owner[b] == Listed)
    && (forall b :: b in s.owner && s.owner[b] == Listed ==> b in s.list)
    && (forall b :: b in s.owner && s.owner[b].InFlight? ==>
          s.owner[b].t in s.threads && b in Blocks(s.threads[s.owner[b].t]))
  }

  ghost predicate Private(s: State, t: nat, blocks: seq<Addr>) {
    NoDuplicates(blocks) && forall b :: b in blocks ==> b in s.owner && s.owner[b] == InFlight(t)
  }

  ghost predicate LoadOk(w: nat, s: State, p: Addr, v: nat, at: nat, snap: seq<Addr>)
    requires w > 0
  {
    && p in s.owner && at <= s.pops && v == VersionAfter(w, at)
    && snap != [] && snap[0] == p
    && (s.pops == at ==> Suffix(snap, s.list))
  }

  ghost predicate ChainOk(s: State, chain: seq<Addr>) {
    chain != [] && forall i :: 0 <= i < |chain| - 1 ==> Peek(s.link, chain[i]) == chain[i + 1]
  }

  ghost predicate PhaseOk(w: nat, s: State, p: Phase)
    requires w > 0
  {
    match p
    case PopStart => true
    case Refill(_) => true
    case PopLoaded(a, v, at, snap) => LoadOk(w, s, a, v, at, snap)
    case PopRead(a, v, next, at, snap) =>
      LoadOk(w, s, a, v, at, snap) && (s.pops == at ==> next == After(snap, 0))
    case PushStart(chain, todo, refill) => ChainOk(s, chain) && (refill || todo == [])
    case PushLoaded(chain, todo, refill, _, _) => ChainOk(s, chain) && (refill || todo == [])
    case PushLinked(chain, todo, refill, h, _) =>
      ChainOk(s, chain) && (refill || todo == []) && Peek(s.link, Last(chain)) == h
  }

  ghost predicate ThreadOk(w: nat, s: State, t: nat)
    requires w > 0 && t in s.threads
  {
    Private(s, t, Blocks(s.threads[t])) && PhaseOk(w, s, s.threads[t])
  }

  ghost predicate ThreadsOk(w: nat, s: State)
    requires w > 0
  {
    forall t :: t in s.threads ==> ThreadOk(w, s, t)
  }

  ghost predicate Inv(w: nat, s: State)
    requires w > 0
  {
    && ListOk(s) && OwnerOk(s) && ThreadsOk(w, s)
    && s.version == VersionAfter(w, s.pops)
    && Legal(s.log) && s.list == Replay(s.log)
  }

  /** What a step of another thread may do without disturbing thread `u`. */
  ghost predicate Undisturbed(s: State, s': State, u: nat) {
    && s.owner.Keys <= s'.owner.Keys && s.link.Keys <= s'.link.Keys
    && (forall b :: b in s.owner && b in s.link && s.owner[b] == InFlight(u) ==>
          s'.owner[b] == InFlight(u) && s'.link[b] == s.link[b])
    && s.pops <= s'.pops
    && (s.pops == s'.pops ==> Suffix(s.list, s'.list))
  }

  lemma SuffixTransitive(a: seq<Addr>, b: seq<Addr>, c: seq<Addr>)
    requires Suffix(a, b) && Suffix(b, c)
    ensures Suffix(a, c)
  {
  }

  lemma UndisturbedKeepsPhase(w: nat, s: State, s': State, u: nat, p: Phase)
    requires w > 0 && Undisturbed(s, s', u) && s.owner.Keys == s.link.Keys
    requires Private(s, u, Blocks(p)) && PhaseOk(w, s, p)
    ensures Private(s', u, Blocks(p)) && PhaseOk(w, s', p)
  {
    if (p.PopLoaded? || p.PopRead?) && s'.pops == p.at {
      SuffixTransitive(p.snap, s.list, s'.list);
    }
    if p.PushStart? || p.PushLoaded? || p.PushLinked? {
      forall i | 0 <= i < |p.chain|
        ensures Peek(s'.link, p.chain[i]) == Peek(s.link, p.chain[i])
      {
        assert p.chain[i] in Blocks(p);
      }
    }
  }

  ghost predicate SameOthers(s: State, s': State, t: nat) {
    && (forall u :: u in s.threads && u != t ==> u in s'.threads && s'.threads[u] == s.threads[u])
    && (forall u :: u in s'.threads && u != t ==> u in s.threads)
  }

  lemma OthersUndisturbed(w: nat, s: State, s': State, t: nat)
    requires w > 0 && ThreadsOk(w, s) && s.owner.Keys == s.link.Keys
    requires SameOthers(s, s', t)
    requires forall u :: u in s.threads && u != t ==> Undisturbed(s, s', u)
    requires t in s'.threads ==> ThreadOk(w, s', t)
    ensures ThreadsOk(w, s')
  {
    forall u | u in s'.threads
      ensures ThreadOk(w, s', u)
    {
      if u != t {
        assert ThreadOk(w, s, u);
        UndisturbedKeepsPhase(w, s, s', u, s.threads[u]);
      }
    }
  }

  /** A step that only moves thread `t` on, keeping the blocks it carries, keeps the invariant. */
  lemma QuietStepKeepsInv(w: nat, s: State, t: nat, p: Phase)
    requires w > 0 && Inv(w, s) && PhaseOk(w, s, p)
    requires Blocks(p) == if t in s.threads then Blocks(s.threads[t]) else []
    ensures Inv(w, s.(threads := s.threads[t := p]))
  {
    QuietOwnerOk(s, t, p);
    QuietThreadsOk(w, s, t, p);
  }

  lemma QuietOwnerOk(s: State, t: nat, p: Phase)
    requires OwnerOk(s) && Blocks(p) == if t in s.threads then Blocks(s.threads[t]) else []
    ensures OwnerOk(s.(threads := s.threads[t := p]))
  {
  }

  lemma QuietThreadsOk(w: nat, s: State, t: nat, p: Phase)
    requires w > 0 && ThreadsOk(w, s) && s.owner.Keys == s.link.Keys && PhaseOk(w, s, p)
    requires Blocks(p) == if t in s.threads then Blocks(s.threads[t]) else []
    ensures ThreadsOk(w, s.(threads := s.threads[t := p]))
  {
    var s' := s.(threads := s.threads[t := p]);
    assert Suffix(s.list, s'.list);
    assert Private(s, t, Blocks(p)) by {
      assert t in s.threads ==> ThreadOk(w, s, t);
    }
    UndisturbedKeepsPhase(w, s, s', t, p);
    assert SameOthers(s, s', t);
    OthersUndisturbed(w, s, s', t);
  }

  lemma {:induction false} VersionsCycle(w: nat, n: nat, d: nat)
    requires d < w
    ensures VersionAfter(w, n) < w
    ensures VersionAfter(w, n + d) ==
      if VersionAfter(w, n) + d < w then VersionAfter(w, n) + d else VersionAfter(w, n) + d - w
    decreases n, d
  {
    if n > 0 {
      VersionsCycle(w, n - 1, 0);
    }
    if d > 0 {
      VersionsCycle(w, n, d - 1);
    }
  }

  /** A version seen again within the window means that no pop happened in between. */
  lemma VersionsWithinWindow(w: nat, at: nat, pops: nat)
    requires at <= pops < at + w && VersionAfter(w, at) == VersionAfter(w, pops)
    ensures at == pops
  {
    VersionsCycle(w, at, pops - at);
  }

  /** A successful swap of a timely pop finds the list exactly as it was loaded. */
  lemma PopSeesWholeList(w: nat, s: State, t: nat)
    requires w > 0 && Inv(w, s) && Enabled(s, SwapPop(t)) && TimelyStep(w, s, SwapPop(t))
    requires s.head == s.threads[t].p && s.version == s.threads[t].v
    ensures s.list != [] && s.list[0] == s.threads[t].p && s.threads[t].next == After(s.list, 0)
  {
    var p := s.threads[t];
    assert ThreadOk(w, s, t);
    VersionsWithinWindow(w, p.at, s.pops);
    var k := |s.list| - |p.snap|;
    assert s.list[k] == p.snap[0];
    assert s.list != [];
    assert k == 0;
    assert s.list == p.snap;
  }

  lemma PopListOk(s: State, s': State)
    requires ListOk(s) && s.list != [] && s'.list == s.list[1..] && s'.link == s.link
    requires s'.head == After(s.list, 0)
    ensures ListOk(s')
  {
    forall i | 0 <= i < |s'.list|
      ensures s'.list[i] in s'.link && s'.link[s'.list[i]] == After(s'.list, i)
    {
      assert s'.list[i] == s.list[i + 1];
    }
  }

  lemma PopOwnerOk(s: State, s': State, t: nat)
    requires OwnerOk(s) && NoDuplicates(s.list) && s.list != []
    requires t in s.threads && Blocks(s.threads[t]) == [] && s'.threads == s.threads - {t}
    requires s'.list == s.list[1..] && s'.link == s.link && s'.owner == s.owner[s.list[0] := Client]
    ensures OwnerOk(s')
  {
    assert s.list[0] in s.list;
    assert s.list == [s.list[0]] + s'.list;
    forall b | b in s'.list
      ensures b in s'.owner && s'.owner[b] == Listed
    {
      var i :| 0 <= i < |s'.list| && s'.list[i] == b;
      assert s.list[i + 1] == b && s.list[0] != s.list[i + 1];
    }
  }

  lemma PopKeepsInv(w: nat, s: State, t: nat)
    requires w > 0 && Inv(w, s) && Enabled(s, SwapPop(t)) && TimelyStep(w, s, SwapPop(t))
    requires s.head == s.threads[t].p && s.version == s.threads[t].v
    ensures Inv(w, Apply(w, s, SwapPop(t)))
  {
    var s' := Apply(w, s, SwapPop(t));
    PopSeesWholeList(w, s, t);
    PopLogOk(w, s, s', t);
    PopListOk(s, s');
    PopOwnerOk(s, s', t);
    PopThreadsOk(w, s, s', t);
  }

  lemma PopLogOk(w: nat, s: State, s': State, t: nat)
    requires w > 0 && s.version == VersionAfter(w, s.pops) && Legal(s.log) && s.list == Replay(s.log) && s.list != []
    requires s'.version == NextVersion(w, s.version) && s'.pops == s.pops + 1
    requires s'.list == Rest(s.list) && s'.log == s.log + [Popped(t, s.list[0])]
    ensures s'.version == VersionAfter(w, s'.pops) && Legal(s'.log) && s'.list == Replay(s'.log)
  {
    LegalExtend(s.log, Popped(t, s.list[0]));
  }

  lemma PopThreadsOk(w: nat, s: State, s': State, t: nat)
    requires w > 0 && ThreadsOk(w, s) && s.owner.Keys == s.link.Keys && s.list != []
    requires s.list[0] in s.owner && s.owner[s.list[0]] == Listed
    requires s'.threads == s.threads - {t} && s'.link == s.link && s'.owner == s.owner[s.list[0] := Client]
    requires s'.pops == s.pops + 1
    ensures ThreadsOk(w, s')
  {
    OthersUndisturbed(w, s, s', t);
  }

  lemma RefillKeepsInv(w: nat, s: State, t: nat, chunk: seq<Addr>, junk: Addr)
    requires w > 0 && Inv(w, s) && Enabled(s, LoadForPop(t, chunk, junk)) && s.head == 0
    ensures Inv(w, Apply(w, s, LoadForPop(t, chunk, junk)))
  {
    assert s.list == [];
    RefillOwnerOk(w, s, t, chunk, junk);
    RefillThreadsOk(w, s, t, chunk, junk);
  }

  lemma RefillOwnerOk(w: nat, s: State, t: nat, chunk: seq<Addr>, junk: Addr)
    requires w > 0 && OwnerOk(s) && Enabled(s, LoadForPop(t, chunk, junk)) && s.head == 0 && s.list == []
    ensures OwnerOk(Apply(w, s, LoadForPop(t, chunk, junk)))
  {
    var s' := Apply(w, s, LoadForPop(t, chunk, junk));
    assert s'.owner.Keys == s'.link.Keys == s.owner.Keys + (set b | b in chunk);
    forall b | b in s'.owner && s'.owner[b].InFlight?
      ensures s'.owner[b].t in s'.threads && b in Blocks(s'.threads[s'.owner[b].t])
    {
      if b !in chunk {
        assert b in Blocks(s.threads[s.owner[b].t]);
      }
    }
  }

  lemma RefillThreadsOk(w: nat, s: State, t: nat, chunk: seq<Addr>, junk: Addr)
    requires w > 0 && ThreadsOk(w, s) && s.owner.Keys == s.link.Keys
    requires Enabled(s, LoadForPop(t, chunk, junk)) && s.head == 0
    ensures ThreadsOk(w, Apply(w, s, LoadForPop(t, chunk, junk)))
  {
    var s' := Apply(w, s, LoadForPop(t, chunk, junk));
    assert s'.owner.Keys == s.owner.Keys + (set b | b in chunk);
    assert ThreadOk(w, s', t);
    OthersUndisturbed(w, s, s', t);
  }

  lemma FreeKeepsInv(w: nat, s: State, t: nat, chain: seq<Addr>)
    requires w > 0 && Inv(w, s) && Enabled(s, Free(t, chain))
    ensures Inv(w, Apply(w, s, Free(t, chain)))
  {
    FreeOwnerOk(w, s, t, chain);
    FreeThreadsOk(w, s, t, chain);
  }

  lemma FreeOwnerOk(w: nat, s: State, t: nat, chain: seq<Addr>)
    requires w > 0 && OwnerOk(s) && Enabled(s, Free(t, chain))
    ensures OwnerOk(Apply(w, s, Free(t, chain)))
  {
    var s' := Apply(w, s, Free(t, chain));
    assert s'.owner.Keys == s.owner.Keys;
    assert chain + [] == chain;
    forall b | b in s'.owner && s'.owner[b].InFlight?
      ensures s'.owner[b].t in s'.threads && b in Blocks(s'.threads[s'.owner[b].t])
    {
      if b !in chain {
        assert b in Blocks(s.threads[s.owner[b].t]);
      }
    }
  }

  lemma FreeThreadsOk(w: nat, s: State, t: nat, chain: seq<Addr>)
    requires w > 0 && ThreadsOk(w, s) && s.owner.Keys == s.link.Keys && Enabled(s, Free(t, chain))
    ensures ThreadsOk(w, Apply(w, s, Free(t, chain)))
  {
    var s' := Apply(w, s, Free(t, chain));
    assert s'.owner.Keys == s.owner.Keys;
    assert chain + [] == chain;
    assert ThreadOk(w, s', t);
    OthersUndisturbed(w, s, s', t);
  }

  /** The last block of the chain being pushed belongs to the pushing thread. */
  lemma LastIsPrivate(w: nat, s: State, t: nat)
    requires w > 0 && Enabled(s, WriteLink(t)) && ThreadOk(w, s, t)
    ensures Last(s.threads[t].chain) in s.owner && s.owner[Last(s.threads[t].chain)] == InFlight(t)
  {
    var p := s.threads[t];
    assert Blocks(p)[|p.chain| - 1] == Last(p.chain);
  }

  lemma WriteLinkThreadsOk(w: nat, s: State, t: nat)
    requires w > 0 && ThreadsOk(w, s) && s.owner.Keys == s.link.Keys && Enabled(s, WriteLink(t))
    ensures ThreadsOk(w, Apply(w, s, WriteLink(t)))
  {
    var s' := Apply(w, s, WriteLink(t));
    var p := s.threads[t];
    assert ThreadOk(w, s, t);
    LastIsPrivate(w, s, t);
    SplitPrivate(s, t, p.chain, p.todo);
    assert ThreadOk(w, s', t);
    OthersUndisturbed(w, s, s', t);
  }

  lemma WriteLinkListOk(w: nat, s: State, t: nat)
    requires w > 0 && ListOk(s) && OwnerOk(s) && Enabled(s, WriteLink(t)) && ThreadOk(w, s, t)
    ensures ListOk(Apply(w, s, WriteLink(t))) && OwnerOk(Apply(w, s, WriteLink(t)))
  {
    var s' := Apply(w, s, WriteLink(t));
    LastIsPrivate(w, s, t);
    assert s'.link.Keys == s.link.Keys;
    assert forall u :: u in s.threads ==> u in s'.threads && Blocks(s'.threads[u]) == Blocks(s.threads[u]);
  }

  lemma WriteLinkKeepsInv(w: nat, s: State, t: nat)
    requires w > 0 && Inv(w, s) && Enabled(s, WriteLink(t))
    ensures Inv(w, Apply(w, s, WriteLink(t)))
  {
    assert ThreadOk(w, s, t);
    WriteLinkListOk(w, s, t);
    WriteLinkThreadsOk(w, s, t);
  }

  lemma SplitPrivate(s: State, t: nat, a: seq<Addr>, b: seq<Addr>)
    requires Private(s, t, a + b)
    ensures Private(s, t, a) && Private(s, t, b)
    ensures forall x :: x in a ==> x !in b
  {
    var ab := a + b;
    forall i | 0 <= i < |a|
      ensures ab[i] == a[i]
    {
    }
    forall i | 0 <= i < |b|
      ensures ab[|a| + i] == b[i]
    {
    }
  }

  /** The thread is about to swap in its chain and the head is still the one it loaded. */
  ghost predicate PushReady(w: nat, s: State, t: nat)
    requires w > 0
  {
    && Enabled(s, SwapPush(t)) && ThreadOk(w, s, t)
    && s.head == s.threads[t].h && s.version == s.threads[t].hv
  }

  lemma PushListOk(w: nat, s: State, t: nat)
    requires w > 0 && ListOk(s) && OwnerOk(s) && PushReady(w, s, t)
    ensures ListOk(Apply(w, s, SwapPush(t)))
    ensures LegalOp(s.list, Pushed(t, s.threads[t].chain))
  {
    var chain := s.threads[t].chain;
    ChainIsFresh(w, s, t);
    NoDuplicatesInAll(chain, s.list);
    forall i | 0 <= i < |chain + s.list|
      ensures (chain + s.list)[i] in s.link && s.link[(chain + s.list)[i]] == After(chain + s.list, i)
    {
      LinkAfterPush(w, s, t, i);
    }
    ListAfterPush(s, Apply(w, s, SwapPush(t)), chain);
  }

  lemma ListAfterPush(s: State, s': State, chain: seq<Addr>)
    requires chain != [] && NoDuplicates(chain + s.list)
    requires forall i :: 0 <= i < |chain + s.list| ==>
      (chain + s.list)[i] in s.link && s.link[(chain + s.list)[i]] == After(chain + s.list, i)
    requires s'.list == chain + s.list && s'.link == s.link && s'.head == First(chain)
    ensures ListOk(s')
  {
  }

  lemma ChainIsFresh(w: nat, s: State, t: nat)
    requires w > 0 && OwnerOk(s) && PushReady(w, s, t)
    ensures
      var chain := s.threads[t].chain;
      chain != [] && NoDuplicates(chain) && (forall b :: b in chain ==> b !in s.list)
      && LegalOp(s.list, Pushed(t, chain))
  {
    var chain := s.threads[t].chain;
    SplitPrivate(s, t, chain, s.threads[t].todo);
    forall b | b in chain
      ensures b !in s.list
    {
      assert s.owner[b] == InFlight(t);
    }
  }

  lemma NoDuplicatesInAll(chain: seq<Addr>, list: seq<Addr>)
    requires NoDuplicates(chain) && NoDuplicates(list) && forall b :: b in chain ==> b !in list
    ensures NoDuplicates(chain + list)
  {
    forall i, j | 0 <= i < j < |chain + list|
      ensures (chain + list)[i] != (chain + list)[j]
    {
      if |chain| <= j && i < |chain| {
        assert list[j - |chain|] in list && chain[i] in chain;
      }
    }
  }

  lemma LinkAfterPush(w: nat, s: State, t: nat, i: nat)
    requires w > 0 && ListOk(s) && s.owner.Keys == s.link.Keys && PushReady(w, s, t)
    requires i < |s.threads[t].chain + s.list|
    ensures
      var list := s.threads[t].chain + s.list;
      list[i] in s.link && s.link[list[i]] == After(list, i)
  {
    var chain := s.threads[t].chain;
    SplitPrivate(s, t, chain, s.threads[t].todo);
    forall b | b in chain ensures b in s.link {
      assert b in s.owner;
    }
    LinkedAll(s.link, chain, s.list, i);
  }

  /** A linked chain whose last block points at a linked list makes one linked list. */
  lemma LinkedAll(link: map<Addr, Addr>, chain: seq<Addr>, list: seq<Addr>, i: nat)
    requires chain != [] && (forall b :: b in chain ==> b in link)
    requires forall k :: 0 <= k < |chain| - 1 ==> Peek(link, chain[k]) == chain[k + 1]
    requires Peek(link, Last(chain)) == First(list)
    requires forall k :: 0 <= k < |list| ==> list[k] in link && link[list[k]] == After(list, k)
    requires i < |chain + list|
    ensures (chain + list)[i] in link && link[(chain + list)[i]] == After(chain + list, i)
  {
    if i < |chain| {
      assert (chain + list)[i] == chain[i] && chain[i] in chain;
    } else {
      assert (chain + list)[i] == list[i - |chain|];
    }
  }

  lemma PushOwnerOk(w: nat, s: State, t: nat)
    requires w > 0 && OwnerOk(s) && PushReady(w, s, t)
    ensures OwnerOk(Apply(w, s, SwapPush(t)))
  {
    var s' := Apply(w, s, SwapPush(t));
    var p := s.threads[t];
    SplitPrivate(s, t, p.chain, p.todo);
    assert s'.owner.Keys == s.owner.Keys;
    forall b | b in s'.owner && s'.owner[b].InFlight?
      ensures s'.owner[b].t in s'.threads && b in Blocks(s'.threads[s'.owner[b].t])
    {
      assert b !in p.chain && s.owner[b] == s'.owner[b];
      assert b in Blocks(s.threads[s.owner[b].t]);
    }
  }

  lemma PushThreadsOk(w: nat, s: State, t: nat)
    requires w > 0 && s.owner.Keys == s.link.Keys && ThreadsOk(w, s) && PushReady(w, s, t)
    ensures ThreadsOk(w, Apply(w, s, SwapPush(t)))
  {
    var s' := Apply(w, s, SwapPush(t));
    var p := s.threads[t];
    SplitPrivate(s, t, p.chain, p.todo);
    assert Suffix(s.list, s'.list);
    OthersUndisturbed(w, s, s', t);
  }

  lemma PushKeepsInv(w: nat, s: State, t: nat)
    requires w > 0 && Inv(w, s) && PushReady(w, s, t)
    ensures Inv(w, Apply(w, s, SwapPush(t)))
  {
    PushListOk(w, s, t);
    PushOwnerOk(w, s, t);
    PushThreadsOk(w, s, t);
    PushLogOk(s, Apply(w, s, SwapPush(t)), t, s.threads[t].chain);
  }

  lemma PushLogOk(s: State, s': State, t: nat, chain: seq<Addr>)
    requires Legal(s.log) && s.list == Replay(s.log) && LegalOp(s.list, Pushed(t, chain))
    requires s'.list == chain + s.list && s'.log == s.log + [Pushed(t, chain)]
    ensures Legal(s'.log) && s'.list == Replay(s'.log)
  {
    LegalExtend(s.log, Pushed(t, chain));
  }

  lemma ScribbleKeepsInv(w: nat, s: State, b: Addr, x: Addr)
    requires w > 0 && Inv(w, s) && Enabled(s, Scribble(b, x))
    ensures Inv(w, Apply(w, s, Scribble(b, x)))
  {
    var s' := Apply(w, s, Scribble(b, x));
    assert s'.owner.Keys == s'.link.Keys;
    assert Suffix(s.list, s'.list);
    forall u | u in s'.threads
      ensures ThreadOk(w, s', u)
    {
      assert ThreadOk(w, s, u);
      UndisturbedKeepsPhase(w, s, s', u, s.threads[u]);
    }
  }

  /** The head with its version is one word: a swap goes through exactly if the whole word is as loaded, and
      otherwise changes nothing but its own thread. */
  lemma SwapComparesWord(w: nat, s: State, step: Step)
    requires w > 0 && Enabled(s, step) && (step.SwapPop? || step.SwapPush?)
    ensures
      var p, s' := s.threads[step.t], Apply(w, s, step);
      var loaded := if step.SwapPop? then (p.p, p.v) else (p.h, p.hv);
      if (s.head, s.version) == loaded then |s'.log| == |s.log| + 1
      else s' == s.(threads := s'.threads) && SameOthers(s, s', step.t)
  {
  }

  /** No call gives up: a thread is done only when its block was popped, or its last blocks were pushed. */
  lemma CallsEndWithEffect(w: nat, s: State, step: Step)
    requires w > 0 && Enabled(s, step) && !step.Scribble?
    requires step.t in s.threads && step.t !in Apply(w, s, step).threads
    ensures
      var p, s' := s.threads[step.t], Apply(w, s, step);
      && (p.PopRead? || (p.PushLinked? && !p.refill))
      && s'.log == s.log + [if p.PopRead? then Popped(step.t, p.p) else Pushed(step.t, p.chain)]
  {
  }

  /** Steps that touch nothing shared. */
  predicate Quiet(s: State, step: Step) {
    || step.New? || step.ReadLink? || step.FreeNext? || step.LoadForPush?
    || (step.LoadForPop? && s.head != 0)
    || (step.SwapPop? && Enabled(s, step) && !(s.head == s.threads[step.t].p && s.version == s.threads[step.t].v))
    || (step.SwapPush? && Enabled(s, step) && !(s.head == s.threads[step.t].h && s.version == s.threads[step.t].hv))
  }

  lemma QuietPhase(w: nat, s: State, step: Step)
    requires w > 0 && Enabled(s, step) && Quiet(s, step) && !step.LoadForPop? && !step.ReadLink?
    requires step.t in s.threads ==> ThreadOk(w, s, step.t)
    ensures
      var s' := Apply(w, s, step);
      && step.t in s'.threads
      && s' == s.(threads := s.threads[step.t := s'.threads[step.t]])
      && PhaseOk(w, s, s'.threads[step.t])
      && Blocks(s'.threads[step.t]) == if step.t in s.threads then Blocks(s.threads[step.t]) else []
  {
    if step.FreeNext? && s.threads[step.t].todo != [] {
      assert s.threads[step.t].todo == [s.threads[step.t].todo[0]] + s.threads[step.t].todo[1..];
    }
  }

  lemma QuietKeepsInv(w: nat, s: State, step: Step)
    requires w > 0 && Inv(w, s) && Enabled(s, step) && Quiet(s, step)
    ensures Inv(w, Apply(w, s, step))
  {
    var t := step.t;
    if step.ReadLink? {
      ReadLinkKeepsInv(w, s, t);
    } else if step.LoadForPop? {
      assert ThreadOk(w, s, t);
      assert s.list[0] in s.list;
      QuietStepKeepsInv(w, s, t, PopLoaded(s.head, s.version, s.pops, s.list));
    } else {
      QuietPhase(w, s, step);
      QuietStepKeepsInv(w, s, t, Apply(w, s, step).threads[t]);
    }
  }

  lemma StepKeepsInv(w: nat, s: State, step: Step)
    requires w > 0 && Inv(w, s) && Enabled(s, step) && TimelyStep(w, s, step)
    ensures Inv(w, Apply(w, s, step))
  {
    if Quiet(s, step) {
      QuietKeepsInv(w, s, step);
    } else {
      match step
      case LoadForPop(t, chunk, junk) => RefillKeepsInv(w, s, t, chunk, junk);
      case SwapPop(t) => PopKeepsInv(w, s, t);
      case Free(t, chain) => FreeKeepsInv(w, s, t, chain);
      case WriteLink(t) => WriteLinkKeepsInv(w, s, t);
      case SwapPush(t) => assert ThreadOk(w, s, t); PushKeepsInv(w, s, t);
      case Scribble(b, x) => ScribbleKeepsInv(w, s, b, x);
      case _ =>
    }
  }

  lemma ReadLinkKeepsInv(w: nat, s: State, t: nat)
    requires w > 0 && Inv(w, s) && Enabled(s, ReadLink(t))
    ensures Inv(w, Apply(w, s, ReadLink(t)))
  {
    var p := s.threads[t];
    assert ThreadOk(w, s, t);
    if s.pops == p.at {
      var k := |s.list| - |p.snap|;
      assert s.list[k] == p.snap[0];
      assert After(s.list, k) == After(p.snap, 0);
    }
    QuietStepKeepsInv(w, s, t, PopRead(p.p, p.v, Peek(s.link, p.p), p.at, p.snap));
  }

  lemma {:induction false} RunKeepsInv(w: nat, s: State, steps: seq<Step>)
    requires w > 0 && Inv(w, s) && ValidRun(w, s, steps) && Timely(w, s, steps)
    ensures Inv(w, Run(w, s, steps))
    decreases |steps|
  {
    if steps != [] {
      StepKeepsInv(w, s, steps[0]);
      RunKeepsInv(w, Apply(w, s, steps[0]), steps[1..]);
    }
  }

  // ---------------------------------------------------------------------------
  // Main results

  /** The list as it is linked in memory, starting from the head. */
  ghost predicate Spells(s: State, list: seq<Addr>) {
    && s.head == First(list)
    && (forall i :: 0 <= i < |list| ==> list[i] in s.link && s.link[list[i]] == After(list, i))
  }

  /** Every timely run is linearizable: the operations, taken one at a time in the order of the log,
      are legal on a plain stack and leave exactly the list that is linked in memory.  Every block ever
      obtained from the system is then in the list, with a client, or carried by exactly one thread. */
  lemma PoolIsLinearizable(w: nat, steps: seq<Step>)
    requires w > 0 && ValidRun(w, Init(), steps) && Timely(w, Init(), steps)
    ensures
      var s := Run(w, Init(), steps);
      && Legal(s.log) && NoDuplicates(Replay(s.log)) && Spells(s, Replay(s.log))
      && (forall b :: b in s.owner ==> (b in Replay(s.log) <==> s.owner[b] == Listed))
      && (forall b :: b in s.owner && s.owner[b].InFlight? ==>
            s.owner[b].t in s.threads && b in Blocks(s.threads[s.owner[b].t]))
      && (forall t, b :: t in s.threads && b in Blocks(s.threads[t]) ==>
            b in s.owner && s.owner[b] == InFlight(t))
  {
    InitOk(w);
    RunKeepsInv(w, Init(), steps);
    var s := Run(w, Init(), steps);
    forall t, b | t in s.threads && b in Blocks(s.threads[t])
      ensures b in s.owner && s.owner[b] == InFlight(t)
    {
      assert ThreadOk(w, s, t);
    }
  }

  lemma InitOk(w: nat)
    requires w > 0
    ensures Inv(w, Init())
  {
  }

  /** A pop that wins its swap gets a block nobody holds, and the block becomes the client's. */
  lemma PopTakesListedBlock(w: nat, steps: seq<Step>, t: nat)
    requires w > 0 && ValidRun(w, Init(), steps) && Timely(w, Init(), steps)
    requires
      var s := Run(w, Init(), steps);
      && Enabled(s, SwapPop(t)) && TimelyStep(w, s, SwapPop(t))
      && s.head == s.threads[t].p && s.version == s.threads[t].v
    ensures
      var s := Run(w, Init(), steps);
      var b := s.threads[t].p;
      && b in s.owner && s.owner[b] == Listed
      && Apply(w, s, SwapPop(t)).owner[b] == Client
      && b !in Apply(w, s, SwapPop(t)).list
  {
    InitOk(w);
    RunKeepsInv(w, Init(), steps);
    var s := Run(w, Init(), steps);
    PopSeesWholeList(w, s, t);
    assert s.list[0] in s.list;
  }

  lemma {:induction false} AbsentUntilPushed(log: seq<Op>, i: nat, j: nat, b: Addr)
    requires i <= j <= |log| && Legal(log) && b !in Replay(log[..i])
    requires forall k :: i <= k < j && log[k].Pushed? ==> b !in log[k].chain
    ensures b !in Replay(log[..j])
    decreases j - i
  {
    if i < j {
      AbsentUntilPushed(log, i, j - 1, b);
      assert log[..j][..j - 1] == log[..j - 1];
    }
  }

  lemma {:induction false} ReplayHasNoDuplicates(log: seq<Op>, n: nat)
    requires n <= |log| && Legal(log)
    ensures NoDuplicates(Replay(log[..n]))
    decreases n
  {
    if n > 0 {
      ReplayHasNoDuplicates(log, n - 1);
      assert log[..n][..n - 1] == log[..n - 1];
      assert LegalOp(Replay(log[..n - 1]), log[n - 1]);
      var list := Replay(log[..n - 1]);
      if log[n - 1].Pushed? {
        var chain := log[n - 1].chain;
        forall i, j | 0 <= i < j < |chain + list|
          ensures (chain + list)[i] != (chain + list)[j]
        {
          if i < |chain| <= j {
            assert chain[i] in chain && list[j - |chain|] in list;
          }
        }
      }
    }
  }

  /** Between two allocations of one block lies a free of it: no block is handed out twice. */
  lemma NeverHandedOutTwice(w: nat, steps: seq<Step>, i: nat, j: nat)
    requires w > 0 && ValidRun(w, Init(), steps) && Timely(w, Init(), steps)
    requires
      var log := Run(w, Init(), steps).log;
      i < j < |log| && log[i].Popped? && log[j].Popped? && log[i].block == log[j].block
    ensures
      var log := Run(w, Init(), steps).log;
      exists k :: i < k < j && log[k].Pushed? && log[i].block in log[k].chain
  {
    PoolIsLinearizable(w, steps);
    PoppedTwice(Run(w, Init(), steps).log, i, j);
  }

  /** In a legal history of a stack a block popped twice was pushed in between. */
  lemma PoppedTwice(log: seq<Op>, i: nat, j: nat)
    requires Legal(log) && i < j < |log| && log[i].Popped? && log[j].Popped? && log[i].block == log[j].block
    ensures exists k :: i < k < j && log[k].Pushed? && log[i].block in log[k].chain
  {
    var b := log[i].block;
    ReplayHasNoDuplicates(log, i);
    var before := Replay(log[..i]);
    assert LegalOp(before, log[i]);
    assert log[..i + 1][..i] == log[..i];
    assert Replay(log[..i + 1]) == before[1..];
    assert forall m :: 0 <= m < |before[1..]| ==> before[1..][m] == before[m + 1] != b;
    assert LegalOp(Replay(log[..j]), log[j]);
    if forall k :: i < k < j && log[k].Pushed? ==> b !in log[k].chain {
      AbsentUntilPushed(log, i + 1, j, b);
    }
  }

  /** A run with fewer than `w` successful pops is timely, whatever its schedule. */
  lemma {:induction false} FewPopsAreTimely(w: nat, s: State, steps: seq<Step>)
    requires w > 0 && ValidRun(w, s, steps) && Run(w, s, steps).pops < w
    ensures Timely(w, s, steps) && s.pops <= Run(w, s, steps).pops
    decreases |steps|
  {
    if steps != [] {
      FewPopsAreTimely(w, Apply(w, s, steps[0]), steps[1..]);
    }
  }

  // ---------------------------------------------------------------------------
  // The window is tight: after exactly `w` pops a stale swap goes through.

  lemma {:induction false} RunExtend(w: nat, s: State, steps: seq<Step>, step: Step)
    requires w > 0 && ValidRun(w, s, steps) && Enabled(Run(w, s, steps), step)
    ensures ValidRun(w, s, steps + [step])
    ensures Run(w, s, steps + [step]) == Apply(w, Run(w, s, steps), step)
    decreases |steps|
  {
    if steps == [] {
      assert [] + [step] == [step];
      assert ValidRun(w, Apply(w, s, step), []);
    } else {
      RunExtend(w, Apply(w, s, steps[0]), steps[1..], step);
      assert (steps + [step])[1..] == steps[1..] + [step];
    }
  }

  /** Some run leads to `s`. */
  ghost predicate Reachable(w: nat, s: State)
    requires w > 0
  {
    exists steps :: ValidRun(w, Init(), steps) && Run(w, Init(), steps) == s
  }

  ghost predicate Next(w: nat, a: State, b: State)
    requires w > 0
  {
    exists step :: Enabled(a, step) && Apply(w, a, step) == b
  }

  ghost predicate Path(w: nat, path: seq<State>)
    requires w > 0
  {
    path != [] && path[0] == Init() && forall i :: 0 <= i < |path| - 1 ==> Next(w, path[i], path[i + 1])
  }

  /** Reachability by way of the states visited, which is easier to extend. */
  ghost predicate Visited(w: nat, s: State)
    requires w > 0
  {
    exists path :: Path(w, path) && path[|path| - 1] == s
  }

  lemma VisitNext(w: nat, s: State, step: Step)
    requires w > 0 && Visited(w, s) && Enabled(s, step)
    ensures Visited(w, Apply(w, s, step))
  {
    var path :| Path(w, path) && path[|path| - 1] == s;
    var s' := Apply(w, s, step);
    var path' := path + [s'];
    assert Next(w, s, s');
    forall i | 0 <= i < |path'| - 1
      ensures Next(w, path'[i], path'[i + 1])
    {
      if i < |path| - 1 {
        assert path'[i] == path[i] && path'[i + 1] == path[i + 1];
      }
    }
    assert Path(w, path') && path'[|path'| - 1] == s';
  }

  lemma {:induction false} VisitedIsReachable(w: nat, path: seq<State>)
    requires w > 0 && Path(w, path)
    ensures Reachable(w, path[|path| - 1])
    decreases |path|
  {
    var n := |path| - 1;
    if n == 0 {
      assert ValidRun(w, Init(), []) && Run(w, Init(), []) == Init();
    } else {
      var front := path[..n];
      assert forall i :: 0 <= i < n ==> front[i] == path[i];
      assert Path(w, front) by {
        forall i | 0 <= i < n - 1
          ensures Next(w, front[i], front[i + 1])
        {
          assert Next(w, path[i], path[i + 1]);
        }
      }
      VisitedIsReachable(w, front);
      assert Next(w, path[n - 1], path[n - 1 + 1]);
      var step :| Enabled(path[n - 1], step) && Apply(w, path[n - 1], step) == path[n];
      var steps :| ValidRun(w, Init(), steps) && Run(w, Init(), steps) == path[n - 1];
      RunExtend(w, Init(), steps, step);
    }
  }

  /** Thread 0 has loaded the head of the list 1, 2 and read the link of block 1.  Since then `n` pops
      have happened: block 2 went to a client and block 1 is back in the list, alone. */
  ghost predicate Stale(w: nat, s: State, n: nat) {
    && s.head == 1 && s.version == VersionAfter(w, n) && s.list == [1]
    && s.link == map[1 := 0, 2 := 0]
    && s.threads == map[0 := PopRead(1, 0, 2, 0, [1, 2])]
    && s.owner == map[1 := Listed, 2 := Client]
    && s.pops == n
    && |s.log| >= 4 && s.log[3] == Popped(1, 2)
    && (forall k :: 4 <= k < |s.log| ==> s.log[k].Pushed? ==> 2 !in s.log[k].chain)
  }

  lemma GiveOne(owner: map<Addr, Owner>, b: Addr, o: Owner)
    ensures Give(owner, [b], o) == owner[b := o]
  {
  }

  lemma FinishPush(w: nat, s: State, b: Addr, todo: seq<Addr>, refill: bool) returns (s': State)
    requires w > 0 && Visited(w, s) && 1 in s.threads && s.threads[1] == PushStart([b], todo, refill)
    ensures Visited(w, s')
    ensures s' == s.(head := b, list := [b] + s.list, link := s.link[b := s.head],
                     threads := if refill then s.threads[1 := Refill(todo)] else s.threads - {1},
                     owner := s.owner[b := Listed], log := s.log + [Pushed(1, [b])])
  {
    var s2 := s.(threads := s.threads[1 := PushLoaded([b], todo, refill, s.head, s.version)]);
    assert Apply(w, s, LoadForPush(1)) == s2;
    VisitNext(w, s, LoadForPush(1));
    var s3 := s.(threads := s.threads[1 := PushLinked([b], todo, refill, s.head, s.version)],
                 link := s.link[b := s.head]);
    assert Apply(w, s2, WriteLink(1)) == s3;
    VisitNext(w, s2, WriteLink(1));
    s' := Apply(w, s3, SwapPush(1));
    VisitNext(w, s3, SwapPush(1));
    GiveOne(s.owner, b, Listed);
  }

  lemma PushOne(w: nat, s: State, b: Addr) returns (s': State)
    requires w > 0 && Visited(w, s) && 1 !in s.threads && b in s.owner && s.owner[b] == Client && b in s.link
    ensures Visited(w, s')
    ensures s' == s.(head := b, list := [b] + s.list, link := s.link[b := s.head],
                     owner := s.owner[b := Listed], log := s.log + [Pushed(1, [b])])
  {
    var s1 := s.(threads := s.threads[1 := PushStart([b], [], false)], owner := s.owner[b := InFlight(1)]);
    GiveOne(s.owner, b, InFlight(1));
    assert Apply(w, s, Free(1, [b])) == s1;
    VisitNext(w, s, Free(1, [b]));
    s' := FinishPush(w, s1, b, [], false);
    assert s'.owner == s.owner[b := Listed];
    assert s'.threads == s.threads;
  }

  lemma PopOne(w: nat, s: State) returns (s': State)
    requires w > 0 && Visited(w, s) && 1 !in s.threads && s.head != 0 && s.head in s.link
    ensures Visited(w, s')
    ensures s' == s.(head := s.link[s.head], version := NextVersion(w, s.version), list := Rest(s.list),
                     owner := s.owner[s.head := Client], pops := s.pops + 1, log := s.log + [Popped(1, s.head)])
  {
    var s1 := Apply(w, s, New(1));
    VisitNext(w, s, New(1));
    var s2 := Apply(w, s1, LoadForPop(1, [], 0));
    VisitNext(w, s1, LoadForPop(1, [], 0));
    var s3 := Apply(w, s2, ReadLink(1));
    VisitNext(w, s2, ReadLink(1));
    s' := Apply(w, s3, SwapPop(1));
    VisitNext(w, s3, SwapPop(1));
    assert s'.threads == s.threads;
  }

  lemma InitVisited(w: nat)
    requires w > 0
    ensures Visited(w, Init())
  {
    assert Path(w, [Init()]) && [Init()][0] == Init();
  }

  lemma StartPop(w: nat) returns (s: State)
    requires w > 0
    ensures Visited(w, s) && s == Init().(threads := map[1 := PopStart])
  {
    InitVisited(w);
    s := Init().(threads := map[1 := PopStart]);
    assert Apply(w, Init(), New(1)) == s;
    VisitNext(w, Init(), New(1));
  }

  lemma StartRefill(w: nat) returns (s: State)
    requires w > 0
    ensures Visited(w, s)
    ensures s == State(0, 0, map[1 := 0, 2 := 0], map[1 := Refill([2, 1])], [],
                       map[1 := InFlight(1), 2 := InFlight(1)], 0, [])
  {
    var s1 := StartPop(w);
    FirstChunk();
    s := Apply(w, s1, LoadForPop(1, [2, 1], 0));
    VisitNext(w, s1, LoadForPop(1, [2, 1], 0));
  }

  lemma FirstChunk()
    ensures map[] + (map b: Addr | b in [2, 1] :: 0) == map[1 := 0, 2 := 0]
    ensures Give(map[], [2, 1], InFlight(1)) == map[1 := InFlight(1), 2 := InFlight(1)]
    ensures Fresh(Init().(threads := map[1 := PopStart]), [2, 1])
  {
  }

  lemma RefillOne(w: nat, s: State, todo: seq<Addr>) returns (s': State)
    requires w > 0 && Visited(w, s) && todo != [] && 1 in s.threads && s.threads[1] == Refill(todo)
    ensures Visited(w, s')
    ensures s' == s.(head := todo[0], list := [todo[0]] + s.list, link := s.link[todo[0] := s.head],
                     threads := s.threads[1 := Refill(todo[1..])],
                     owner := s.owner[todo[0] := Listed], log := s.log + [Pushed(1, [todo[0]])])
  {
    var s1 := s.(threads := s.threads[1 := PushStart([todo[0]], todo[1..], true)]);
    assert Apply(w, s, FreeNext(1)) == s1;
    VisitNext(w, s, FreeNext(1));
    s' := FinishPush(w, s1, todo[0], todo[1..], true);
  }

  /** Thread 1 fills the list with blocks 1 and 2 and takes block 1, while thread 0 has loaded the list. */
  lemma LoadThenPopTwice(w: nat) returns (s: State)
    requires w > 0
    ensures Visited(w, s)
    ensures s == State(0, VersionAfter(w, 2), map[1 := 2, 2 := 0], map[0 := PopRead(1, 0, 2, 0, [1, 2])], [],
                       map[1 := Client, 2 := Client], 2,
                       [Pushed(1, [2]), Pushed(1, [1]), Popped(1, 1), Popped(1, 2)])
  {
    var s0 := FullList(w);
    var s1 := FirstPopOverlaps(w, s0);
    s := PopOne(w, s1);
    assert s.owner == map[1 := Client, 2 := Client];
    assert VersionAfter(w, 1) == NextVersion(w, 0);
    assert s.log == [Pushed(1, [2]), Pushed(1, [1]), Popped(1, 1), Popped(1, 2)];
  }

  lemma FullList(w: nat) returns (s: State)
    requires w > 0
    ensures Visited(w, s)
    ensures s == State(1, 0, map[1 := 2, 2 := 0], map[1 := Refill([])], [1, 2], map[1 := Listed, 2 := Listed], 0,
                       [Pushed(1, [2]), Pushed(1, [1])])
  {
    var s0 := StartRefill(w);
    var s1 := RefillOne(w, s0, [2, 1]);
    s := RefillOne(w, s1, [1]);
    assert [2, 1][1..] == [1] && [1][1..] == [];
    assert s.list == [1, 2] && s.threads == map[1 := Refill([])];
    assert s.log == [Pushed(1, [2]), Pushed(1, [1])];
    assert s.owner == map[1 := Listed, 2 := Listed];
    assert s.link == map[1 := 2, 2 := 0];
  }

  /** Thread 0 loads the head and reads the link; then thread 1 takes block 1. */
  lemma FirstPopOverlaps(w: nat, s: State) returns (s': State)
    requires w > 0 && Visited(w, s)
    requires s.head == 1 && s.version == 0 && s.list == [1, 2] && s.link == map[1 := 2, 2 := 0] && s.pops == 0
    requires s.threads == map[1 := Refill([])]
    ensures Visited(w, s')
    ensures s' == s.(head := 2, version := NextVersion(w, 0), list := [2], owner := s.owner[1 := Client], pops := 1,
                     threads := map[0 := PopRead(1, 0, 2, 0, [1, 2])], log := s.log + [Popped(1, 1)])
  {
    var s1 := OverlapLoads(w, s);
    var s2 := Apply(w, s1, ReadLink(1));
    VisitNext(w, s1, ReadLink(1));
    s' := Apply(w, s2, SwapPop(1));
    VisitNext(w, s2, SwapPop(1));
    assert s'.threads == map[0 := PopRead(1, 0, 2, 0, [1, 2])];
  }

  lemma OverlapLoads(w: nat, s: State) returns (s': State)
    requires w > 0 && Visited(w, s)
    requires s.head == 1 && s.version == 0 && s.list == [1, 2] && s.link == map[1 := 2, 2 := 0] && s.pops == 0
    requires s.threads == map[1 := Refill([])]
    ensures Visited(w, s')
    ensures s' == s.(threads := map[0 := PopRead(1, 0, 2, 0, [1, 2]), 1 := PopLoaded(1, 0, 0, [1, 2])])
  {
    var s2 := BothStart(w, s);
    var s3 := s.(threads := map[0 := PopLoaded(1, 0, 0, [1, 2]), 1 := PopStart]);
    assert Apply(w, s2, LoadForPop(0, [], 0)).threads == s3.threads;
    VisitNext(w, s2, LoadForPop(0, [], 0));
    var s4 := s.(threads := map[0 := PopRead(1, 0, 2, 0, [1, 2]), 1 := PopStart]);
    assert Apply(w, s3, ReadLink(0)).threads == s4.threads;
    VisitNext(w, s3, ReadLink(0));
    s' := Apply(w, s4, LoadForPop(1, [], 0));
    VisitNext(w, s4, LoadForPop(1, [], 0));
  }

  lemma BothStart(w: nat, s: State) returns (s': State)
    requires w > 0 && Visited(w, s) && s.threads == map[1 := Refill([])]
    ensures Visited(w, s')
    ensures s' == s.(threads := map[0 := PopStart, 1 := PopStart])
  {
    var s1 := s.(threads := map[1 := PopStart]);
    assert Apply(w, s, FreeNext(1)) == s1;
    VisitNext(w, s, FreeNext(1));
    s' := s.(threads := map[0 := PopStart, 1 := PopStart]);
    assert Apply(w, s1, New(0)).threads == s'.threads;
    VisitNext(w, s1, New(0));
  }

  lemma {:induction false} StaleFor(w: nat, n: nat) returns (s: State)
    requires w > 0 && n >= 2
    ensures Visited(w, s) && Stale(w, s, n)
    decreases n
  {
    if n == 2 {
      s := StaleForTwo(w);
    } else {
      var s0 := StaleFor(w, n - 1);
      s := StaleForOneMore(w, s0, n - 1);
    }
  }

  lemma StaleForTwo(w: nat) returns (s: State)
    requires w > 0
    ensures Visited(w, s) && Stale(w, s, 2)
  {
    var s0 := LoadThenPopTwice(w);
    s := PushOne(w, s0, 1);
    assert s.link == map[1 := 0, 2 := 0];
  }

  lemma StaleForOneMore(w: nat, s0: State, n: nat) returns (s: State)
    requires w > 0 && n >= 2 && Visited(w, s0) && Stale(w, s0, n)
    ensures Visited(w, s) && Stale(w, s, n + 1)
  {
    var s1 := PopOne(w, s0);
    s := PushOne(w, s1, 1);
    assert s.link == map[1 := 0, 2 := 0];
  }

  /** For every version width there is a run, with exactly `w` pops inside one load-to-swap window, after
      which the head points at block 2 although a client holds it, so that the next pop hands block 2
      out again with no free in between. */
  lemma WindowIsTight(w: nat) returns (s: State, s': State, i: nat, j: nat)
    requires w >= 2
    ensures Reachable(w, s) && Enabled(s, SwapPop(0)) && s.pops == s.threads[0].at + w
    ensures s.owner == map[1 := Listed, 2 := Client] && Apply(w, s, SwapPop(0)).head == 2
    ensures Reachable(w, s') && i < j < |s'.log| && s'.log[i] == Popped(1, 2) && s'.log[j] == Popped(1, 2)
    ensures forall k :: i < k < j && s'.log[k].Pushed? ==> 2 !in s'.log[k].chain
  {
    s := StaleFor(w, w);
    VersionsCycle(w, 0, w - 1);
    assert s.version == 0;
    var s1 := Apply(w, s, SwapPop(0));
    VisitNext(w, s, SwapPop(0));
    s' := PopOne(w, s1);
    i, j := 3, |s1.log|;
    var path :| Path(w, path) && path[|path| - 1] == s;
    VisitedIsReachable(w, path);
    var path' :| Path(w, path') && path'[|path'| - 1] == s';
    VisitedIsReachable(w, path');
  }
}
