/**
  The per-feature hook lists of `include/api/FeatureAPIHooks.h` and their use by a
  session (`include/proxy/ProxySession.h`).  A flag stands for "some list is not
  empty", so that clearing, which happens for every transaction, can usually skip
  the lists.
 */
module ApiHooks {
  import opened Options

  type Cont = nat

  datatype Op = Append(id: int, cont: Cont) | Clear

  function Step(list: seq<Cont>, op: Op, id: int): seq<Cont> {
    if op.Clear? then [] else if op.id == id then list + [op.cont] else list
  }

  /** What a list ought to have after `ops`: the hooks appended for its id since the last clear, in order. */
  function Wanted(ops: seq<Op>, id: int): seq<Cont> {
    if ops == [] then [] else Step(Wanted(ops[..|ops| - 1], id), ops[|ops| - 1], id)
  }

  /** The flag and the lists are what `ops` ask for. */
  ghost predicate Agrees(flag: bool, lists: seq<seq<Cont>>, ops: seq<Op>) {
    && (forall id :: 0 <= id < |lists| ==> lists[id] == Wanted(ops, id))
    && (flag <==> exists id :: 0 <= id < |lists| && lists[id] != [])
  }

  lemma WantedStep(ops: seq<Op>, op: Op, id: int)
    ensures Wanted(ops + [op], id) == Step(Wanted(ops, id), op, id)
  {
    assert (ops + [op])[..|ops|] == ops;
  }

  lemma AppendAgrees(flag: bool, lists: seq<seq<Cont>>, ops: seq<Op>, id: int, cont: Cont)
    requires Agrees(flag, lists, ops)
    ensures 0 <= id < |lists| ==> Agrees(true, lists[id := lists[id] + [cont]], ops + [Append(id, cont)])
    ensures !(0 <= id < |lists|) ==> Agrees(flag, lists, ops + [Append(id, cont)])
  {
    forall i | 0 <= i < |lists|
      ensures Wanted(ops + [Append(id, cont)], i) == if i == id then lists[i] + [cont] else lists[i]
    {
      WantedStep(ops, Append(id, cont), i);
    }
    if 0 <= id < |lists| {
      assert lists[id := lists[id] + [cont]][id] != [];
    }
  }

  lemma ClearAgrees(lists: seq<seq<Cont>>, ops: seq<Op>)
    requires forall id :: 0 <= id < |lists| ==> lists[id] == []
    ensures Agrees(false, lists, ops + [Clear])
  {
    forall id | 0 <= id < |lists| ensures Wanted(ops + [Clear], id) == [] {
      WantedStep(ops, Clear, id);
    }
  }

  class FeatureHooks {
    var hooked: bool
    const lists: array<seq<Cont>>
    ghost var ops: seq<Op>                 // everything asked so far

    ghost predicate Valid()
      reads this, lists
    {
      Agrees(hooked, lists[..], ops)
    }

    constructor (n: nat)
      ensures Valid() && ops == [] && lists.Length == n && fresh(lists)
    {
      hooked := false;
      lists := new seq<Cont>[n](_ => []);
      ops := [];
    }

    predicate IsValid(id: int) {
      0 <= id < lists.Length
    }

    /** An id outside the range is ignored. */
    method Append(id: int, cont: Cont)
      requires Valid()
      modifies this, lists
      ensures Valid() && ops == old(ops) + [Op.Append(id, cont)]
    {
      AppendAgrees(hooked, lists[..], ops, id, cont);
      if IsValid(id) {
        hooked := true;
        lists[id] := lists[id] + [cont];
      }
      ops := ops + [Op.Append(id, cont)];
    }

    /** The lists are gone through only if the flag says so; either way all are empty after. */
    method Clear()
      requires Valid()
      modifies this, lists
      ensures Valid() && ops == old(ops) + [Op.Clear]
      ensures forall id :: 0 <= id < lists.Length ==> lists[id] == []
    {
      if hooked {
        for i := 0 to lists.Length
          invariant ops == old(ops)
          invariant forall j :: 0 <= j < i ==> lists[j] == []
        {
          if lists[i] != [] {
            lists[i] := [];
          }
        }
        hooked := false;
      } else {
        assert forall j :: 0 <= j < lists.Length ==> lists[..][j] == [];
      }
      ClearAgrees(lists[..], ops);
      ops := ops + [Op.Clear];
    }

    /** The first hook for `id`. */
    function Get(id: int): (r: Option<Cont>)
      reads this, lists
      requires Valid()
      ensures r == if IsValid(id) && Wanted(ops, id) != [] then Some(Wanted(ops, id)[0]) else None
    {
      assert IsValid(id) ==> lists[id] == lists[..][id];
      if IsValid(id) && lists[id] != [] then Some(lists[id][0]) else None
    }

    predicate HasHooks()
      reads this
    {
      hooked
    }
  }

  class Session {
    const own: FeatureHooks
    const global: FeatureHooks

    constructor (own: FeatureHooks, global: FeatureHooks)
      ensures this.own == own && this.global == global
    {
      this.own := own;
      this.global := global;
    }

    predicate HasHooks()
      reads own, global
    {
      own.HasHooks() || global.HasHooks()
    }

    predicate HasSessionHook(id: int)
      reads own, own.lists, global, global.lists
      requires own.Valid() && global.Valid()
    {
      own.Get(id) != None || global.Get(id) != None
    }

    /** The fast question is exact: a session has hooks if and only if it has one for some id. */
    lemma HasHooksIff()
      requires own.Valid() && global.Valid()
      ensures HasHooks() <==> exists id :: HasSessionHook(id)
    {
      if own.HasHooks() {
        var id :| 0 <= id < |own.lists[..]| && own.lists[..][id] != [];
        assert own.Get(id) != None;
        assert HasSessionHook(id);
      } else if global.HasHooks() {
        var id :| 0 <= id < |global.lists[..]| && global.lists[..][id] != [];
        assert global.Get(id) != None;
        assert HasSessionHook(id);
      } else {
        forall id ensures !HasSessionHook(id) {
          assert 0 <= id < own.lists.Length ==> own.lists[..][id] == [];
          assert 0 <= id < global.lists.Length ==> global.lists[..][id] == [];
        }
      }
    }
  }
}
