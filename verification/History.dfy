/**
  The event history of a state machine (`include/tscore/History.h`) and the
  debugger printer that lists it (`tools/gdb-helpers.py`).

  The history is a ring of `c` slots.  Its position counts writes in a 32-bit
  unsigned integer, so it comes back to zero after `POSITIONS` writes.
 */
module History {

  const POSITIONS: nat := 0x1_0000_0000

  datatype Entry = Entry(location: string, event: nat, reentrancy: int)

  /** A 16-bit unsigned and a 16-bit signed truncation. */
  function ToUnsignedShort(n: int): nat {
    n % 0x1_0000
  }

  function ToShort(n: int): int {
    (n + 0x8000) % 0x1_0000 - 0x8000
  }

  function Stored(location: string, event: int, reentrant: int): Entry {
    Entry(location, ToUnsignedShort(event), ToShort(reentrant))
  }

  /** What is stored: the location, the event without its upper bits, and the reentrancy count wrapped into the
      range of a short. */
  lemma StoredKeeps(location: string, event: int, reentrant: int)
    ensures
      var e := Stored(location, event, reentrant);
      && e.location == location
      && 0 <= e.event < 65536 && (e.event - event) % 65536 == 0
      && -32768 <= e.reentrancy < 32768 && (e.reentrancy - reentrant) % 65536 == 0
  {
  }

  // ---------------------------------------------------------------------------
  // Remainders

  /** The slot of write `q` in a ring of `c`: the remainder `q % c`. */
  function Slot(q: nat, c: nat): (j: nat)
    requires c > 0
    ensures j < c
  {
    if q < c then q else Slot(q - c, c)
  }

  lemma {:induction false} SlotIsRemainder(q: nat, c: nat)
    requires c > 0
    ensures Slot(q, c) == q % c
  {
    if q >= c {
      SlotIsRemainder(q - c, c);
      OnePeriod(q - c, (q - c) / c, (q - c) % c, c);
    }
  }

  lemma OnePeriod(a: nat, k: nat, r: nat, c: nat)
    requires r < c && a == c * k + r
    ensures (a + c) % c == r
  {
    Distribute(c, k, 1);
    RemainderIs(a + c, k + 1, r, c);
  }

  lemma Distribute(c: int, k: int, m: int)
    ensures c * k + c * m == c * (k + m)
  {
  }

  lemma Multiples(c: int, k: int)
    requires c > 0
    ensures k > 0 ==> c * k >= c
    ensures k < 0 ==> c * k <= -c
  {
  }

  lemma RemainderIs(a: nat, k: nat, r: nat, c: nat)
    requires r < c && a == c * k + r
    ensures a % c == r
  {
    var k', r' := a / c, a % c;
    assert a == c * k' + r';
    Distribute(c, k, k' - k);
    Multiples(c, k' - k);
  }

  lemma {:induction false} OtherSlot(a: nat, b: nat, c: nat)
    requires c > 0 && b < a < b + c
    ensures Slot(a, c) != Slot(b, c)
  {
    if b >= c {
      OtherSlot(a - c, b - c, c);
    }
  }

  lemma {:induction false} SlotStep(a: nat, i: nat, c: nat)
    requires c > 0
    ensures Slot(Slot(a, c) + i, c) == Slot(a + i, c)
  {
    if a >= c {
      SlotStep(a - c, i, c);
    }
  }

  // ---------------------------------------------------------------------------
  // The ring

  function Min(a: nat, b: nat): nat {
    if a <= b then a else b
  }

  /** What the position is after `n` writes. */
  function PositionOf(n: nat): nat {
    Slot(n, POSITIONS)
  }

  /** The unsigned increment. */
  function NextPosition(pos: nat): nat {
    if pos + 1 == POSITIONS then 0 else pos + 1
  }

  lemma {:induction false} PositionAfter(n: nat)
    ensures PositionOf(n + 1) == NextPosition(PositionOf(n)) && PositionOf(n) <= n
  {
    if n >= POSITIONS {
      PositionAfter(n - POSITIONS);
    }
  }

  /** Write `q` of those that `pos` counts is in its slot. */
  ghost predicate InSlot(slots: seq<Entry>, pos: nat, writes: seq<Entry>, q: nat)
    requires |slots| > 0 && q < pos <= |writes|
  {
    slots[Slot(q, |slots|)] == writes[|writes| - pos + q]
  }

  /** The ring still has the last writes, as many as `pos` counts and the ring can hold. */
  ghost predicate Holds(slots: seq<Entry>, pos: nat, writes: seq<Entry>) {
    && |slots| > 0 && pos <= |writes|
    && forall q :: 0 <= q < pos && pos - q <= |slots| ==> InSlot(slots, pos, writes, q)
  }

  /** The ring still has the last writes that its position knows of. */
  ghost predicate Remembers(slots: seq<Entry>, pos: nat, writes: seq<Entry>) {
    pos == PositionOf(|writes|) && Holds(slots, pos, writes)
  }

  /** One more write leaves write `q` in its slot, unless that is a full ring older. */
  lemma StillThere(slots: seq<Entry>, pos: nat, writes: seq<Entry>, e: Entry, q: nat)
    requires Holds(slots, pos, writes) && q <= pos < q + |slots|
    ensures InSlot(slots[Slot(pos, |slots|) := e], pos + 1, writes + [e], q)
  {
    if q < pos {
      assert InSlot(slots, pos, writes, q);
      OtherSlot(pos, q, |slots|);
    }
  }

  lemma HoldsNext(slots: seq<Entry>, pos: nat, writes: seq<Entry>, e: Entry)
    requires Holds(slots, pos, writes)
    ensures Holds(slots[Slot(pos, |slots|) := e], pos + 1, writes + [e])
  {
    var slots', pos', writes' := slots[Slot(pos, |slots|) := e], pos + 1, writes + [e];
    forall q | 0 <= q < pos' && pos' - q <= |slots'|
      ensures InSlot(slots', pos', writes', q)
    {
      StillThere(slots, pos, writes, e, q);
    }
  }

  lemma WriteRemembered(slots: seq<Entry>, pos: nat, writes: seq<Entry>, e: Entry)
    requires Remembers(slots, pos, writes)
    ensures Remembers(slots[Slot(pos, |slots|) := e], NextPosition(pos), writes + [e])
  {
    PositionAfter(|writes|);
    HoldsNext(slots, pos, writes, e);
  }

  class History {
    const slots: array<Entry>
    var pos: nat
    ghost var writes: seq<Entry>          // since the history was last cleared

    ghost predicate Valid()
      reads this, slots
    {
      Remembers(slots[..], pos, writes)
    }

    constructor (count: nat, zero: Entry)
      requires count > 0
      ensures Valid() && writes == [] && slots.Length == count && fresh(slots)
    {
      slots := new Entry[count](_ => zero);
      pos := 0;
      writes := [];
    }

    method PushBack(location: string, event: int, reentrant: int)
      requires Valid()
      modifies this, slots
      ensures Valid() && writes == old(writes) + [Stored(location, event, reentrant)]
    {
      var e := Stored(location, event, reentrant);
      WriteRemembered(slots[..], pos, writes, e);
      SlotIsRemainder(pos, slots.Length);
      slots[pos % slots.Length] := e;
      pos := NextPosition(pos);
      writes := writes + [e];
    }

    method Clear(zero: Entry)
      requires Valid()
      modifies this, slots
      ensures Valid() && writes == [] && forall j :: 0 <= j < slots.Length ==> slots[j] == zero
    {
      forall j | 0 <= j < slots.Length {
        slots[j] := zero;
      }
      pos := 0;
      writes := [];
    }
  }

  // ---------------------------------------------------------------------------
  // The printer

  predicate StartsWith(s: string, part: string) {
    |part| <= |s| && s[..|part|] == part
  }

  predicate Contains(s: string, part: string) {
    StartsWith(s, part) || (s != [] && Contains(s[1..], part))
  }

  /** `part` stands somewhere in `s`. */
  ghost predicate Occurs(s: string, part: string) {
    exists i :: 0 <= i && i + |part| <= |s| && s[i..][..|part|] == part
  }

  lemma {:induction false} ContainsIff(s: string, part: string)
    ensures Contains(s, part) <==> Occurs(s, part)
  {
    assert s[0..] == s;
    if s != [] {
      ContainsIff(s[1..], part);
      assert forall i :: 1 <= i <= |s| ==> s[1..][i - 1..] == s[i..];
      if Occurs(s[1..], part) {
        var i :| 0 <= i && i + |part| <= |s[1..]| && s[1..][i..][..|part|] == part;
        assert s[i + 1..] == s[1..][i..];
      }
      if Occurs(s, part) && !StartsWith(s, part) {
        var i :| 0 <= i && i + |part| <= |s| && s[i..][..|part|] == part;
        assert i > 0 && s[1..][i - 1..] == s[i..];
      }
    } else if Occurs(s, part) {
      assert part == [];
    }
  }

  /** An entry is left out exactly if its function has one of the two names in it. */
  lemma LeftOutIff(e: Entry)
    ensures Dull(e) <==> Occurs(e.location, "state_api_call") || Occurs(e.location, "set_next_state")
  {
    ContainsIff(e.location, "state_api_call");
    ContainsIff(e.location, "set_next_state");
  }

  /** Entries of little use are not shown. */
  predicate Dull(e: Entry) {
    Contains(e.location, "state_api_call") || Contains(e.location, "set_next_state")
  }

  /** The entries worth showing, numbered by their place among all entries. */
  function Shown(entries: seq<Entry>): seq<(nat, Entry)> {
    if entries == [] then []
    else
      var n := |entries| - 1;
      Shown(entries[..n]) + if Dull(entries[n]) then [] else [(n, entries[n])]
  }

  lemma ShownStep(entries: seq<Entry>, i: nat)
    requires i < |entries|
    ensures Dull(entries[i]) ==> Shown(entries[..i + 1]) == Shown(entries[..i])
    ensures !Dull(entries[i]) ==> Shown(entries[..i + 1]) == Shown(entries[..i]) + [(i, entries[i])]
  {
    assert entries[..i + 1][..i] == entries[..i];
  }

  /** The last writes the printer can know of, oldest first. */
  function Recent(writes: seq<Entry>, c: nat): seq<Entry> {
    writes[|writes| - Min(PositionOf(|writes|), c)..]
  }

  /** Walking on from the first entry meets the writes in the order they were made. */
  lemma EntryAt(slots: seq<Entry>, pos: nat, writes: seq<Entry>, i: nat)
    requires Remembers(slots, pos, writes) && i < Min(pos, |slots|)
    ensures
      var first := if pos >= |slots| then Slot(pos, |slots|) else 0;
      slots[Slot(first + i, |slots|)] == Recent(writes, |slots|)[i]
  {
    var c := |slots|;
    if pos >= c {
      var q := pos - c + i;
      SlotStep(pos, i, c);
      assert InSlot(slots, pos, writes, q);
    } else {
      assert InSlot(slots, pos, writes, i);
    }
  }

  /** `children`: whatever was written, the printer shows the last writes in order. */
  method Children(h: History) returns (shown: seq<(nat, Entry)>)
    requires h.Valid()
    ensures shown == Shown(Recent(h.writes, h.slots.Length))
  {
    var capacity := h.slots.Length;
    var wrapped := h.pos >= capacity;
    var first := if wrapped then h.pos % capacity else 0;
    SlotIsRemainder(h.pos, capacity);
    var count := if wrapped then capacity else h.pos;
    ghost var recent := Recent(h.writes, capacity);
    shown := [];
    for i := 0 to count
      invariant shown == Shown(recent[..i])
    {
      SlotIsRemainder(first + i, capacity);
      var entry := h.slots[(first + i) % capacity];
      assert entry == recent[i] by {
        EntryAt(h.slots[..], h.pos, h.writes, i);
      }
      ShownStep(recent, i);
      var dull := Dull(entry);
      if !dull {
        shown := shown + [(i, entry)];
      }
    }
    assert recent[..count] == recent;
  }

  /** After exactly `POSITIONS` writes the position is zero again and nothing is shown. */
  lemma NothingShown(writes: seq<Entry>, c: nat)
    requires |writes| == POSITIONS
    ensures Recent(writes, c) == []
  {
  }

  /** The printer has the last `c` writes, or all if there are fewer, exactly if the position has not just come
      back to zero: then it starts over, and leaves out what the ring still holds. */
  lemma ShowsLastIff(writes: seq<Entry>, c: nat)
    requires 0 < c <= POSITIONS
    ensures Recent(writes, c) == writes[|writes| - Min(|writes|, c)..] <==>
      |writes| < POSITIONS || PositionOf(|writes|) >= c
  {
    PositionAfter(|writes|);
    if |writes| >= POSITIONS && PositionOf(|writes|) < c {
      assert |Recent(writes, c)| < c == |writes[|writes| - Min(|writes|, c)..]|;
    }
  }
}
