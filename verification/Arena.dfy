/**
  The string arena of `include/tscore/Arena.h` and `src/tscore/Arena.cc`.

  Strings are cut from a list of blocks, newest block first.  In front of the
  characters of each string stands its length: base-128 digits, most significant
  first, every digit but the first stored as 255 minus its value.  So exactly the
  first header byte is below 128, and a backward scan from the characters finds
  it whatever bytes stand before the string.

  Memory is one array of bytes and pointers are indexes into it.  The address at
  which the system would place a new block is a parameter of each operation that
  may need one.
 */
module Arena {

  type Byte = b: int | 0 <= b < 256

  /** What an allocation comes to: an address; a null pointer, when not even a new block has room for the
      alignment; or, when the new block's size does not fit the block allocator's `int`, nothing the program
      defines: it aborts for want of memory, or goes on with a block that ends before it begins. */
  datatype Outcome = At(addr: nat) | Null | Undefined

  // ---------------------------------------------------------------------------
  // The length header

  /** The header of a string of length `len`. */
  function Header(len: nat): (h: seq<Byte>)
    ensures h != []
  {
    if len < 128 then [len] else Header(len / 128) + [255 - len % 128]
  }

  /** The length that a header's bytes spell. */
  function Decode(h: seq<Byte>): nat
    requires h != []
  {
    if |h| == 1 then h[0] else Decode(h[..|h| - 1]) * 128 + (255 - h[|h| - 1])
  }

  /** Only the first byte is below 128, which is what a backward scan looks for. */
  ghost predicate SelfDelimiting(h: seq<Byte>) {
    h != [] && h[0] < 128 && forall i :: 0 < i < |h| ==> h[i] >= 128
  }

  lemma {:induction false} HeaderRoundTrip(len: nat)
    ensures SelfDelimiting(Header(len)) && Decode(Header(len)) == len
    decreases len
  {
    if len >= 128 {
      HeaderRoundTrip(len / 128);
      var h := Header(len / 128);
      assert Header(len)[..|h|] == h;
    }
  }

  /** The layouts that the program documents. */
  lemma DocumentedLayouts()
    ensures Header(1) == [1] && Header(127) == [127]
    ensures Header(128) == [1, 255] && Header(128 + 1) == [1, 254] && Header(128 + 127) == [1, 128]
    ensures Header(128 + 128) == [2, 255] && Header(128 * 128) == [1, 255, 255]
    ensures Header(128 * 128 + 127) == [1, 255, 128] && Header(128 * 128 + 128) == [1, 254, 255]
  {
    assert Header(128 + 128) == Header(2) + [255];
    assert Header(128 * 128) == Header(128) + [255] && Header(128 * 128 + 127) == Header(128) + [128];
    assert Header(128 * 128 + 128) == Header(129) + [255] && Header(129) == Header(1) + [254];
  }

  /** No self-delimiting header of the same length value is shorter, and one without a leading
      zero digit is the header itself. */
  lemma HeaderIsMinimal(h: seq<Byte>)
    requires SelfDelimiting(h)
    ensures |Header(Decode(h))| <= |h|
    ensures |h| == 1 || h[0] != 0 ==> Header(Decode(h)) == h
  {
    HeaderIsShort(h);
    if |h| == 1 || h[0] != 0 {
      HeaderIsExact(h);
    }
  }

  lemma {:induction false} HeaderIsShort(h: seq<Byte>)
    requires SelfDelimiting(h)
    ensures |Header(Decode(h))| <= |h|
    decreases |h|
  {
    if |h| > 1 {
      var front, last := h[..|h| - 1], h[|h| - 1];
      HeaderIsShort(front);
      OneDigitMore(Decode(front), 255 - last, Decode(h));
    }
  }

  lemma {:induction false} HeaderIsExact(h: seq<Byte>)
    requires SelfDelimiting(h) && (|h| == 1 || h[0] != 0)
    ensures Header(Decode(h)) == h
    decreases |h|
  {
    if |h| > 1 {
      var front, last := h[..|h| - 1], h[|h| - 1];
      HeaderIsExact(front);
      LeadingDigitBound(front);
      OneDigitMore(Decode(front), 255 - last, Decode(h));
      assert front + [last] == h;
    }
  }

  lemma OneDigitMore(n: nat, d: nat, m: nat)
    requires d < 128 && m == n * 128 + d
    ensures m / 128 == n && m % 128 == d
    ensures n >= 1 ==> Header(m) == Header(n) + [255 - d]
    ensures |Header(m)| <= |Header(n)| + 1
  {
  }

  lemma {:induction false} LeadingDigitBound(h: seq<Byte>)
    requires SelfDelimiting(h) && h[0] != 0
    ensures Decode(h) >= 1
    decreases |h|
  {
    if |h| > 1 {
      LeadingDigitBound(h[..|h| - 1]);
    }
  }

  // ---------------------------------------------------------------------------
  // Blocks

  const DEFAULT_BLOCK_SIZE: nat := 1000   // 1024 less the 24 bytes of a block's own fields
  const BLOCK_FIELDS: nat := 24
  const INT_MAX: nat := 0x7fff_ffff

  /** Usable bytes are `data..end`; those below `level` are taken. */
  datatype Block = Block(data: nat, end: nat, level: nat)

  ghost predicate BlockOk(b: Block, memory: nat) {
    BLOCK_FIELDS <= b.data <= b.level <= b.end <= memory
  }

  /** The memory of two blocks, their own fields included, does not overlap. */
  ghost predicate Apart(a: Block, b: Block) {
    a.end + BLOCK_FIELDS <= b.data || b.end + BLOCK_FIELDS <= a.data
  }

  ghost predicate BlocksOk(blocks: seq<Block>, memory: nat) {
    && (forall i :: 0 <= i < |blocks| ==> BlockOk(blocks[i], memory))
    && (forall i, j :: 0 <= i < j < |blocks| ==> Apart(blocks[i], blocks[j]))
  }

  /** The level rounded up to a multiple of the alignment. */
  function Aligned(level: nat, alignment: nat): nat
    requires alignment > 0
  {
    if level % alignment != 0 then level + (alignment - level % alignment) else level
  }

  lemma NoRest(c: int, m: int, n: int)
    requires c > 0 && n == c * m
    ensures n % c == 0
  {
    var k, r := n / c, n % c;
    assert n == c * k + r;
    Multiples(c, m - k);
    assert c * (m - k) == c * m - c * k;
  }

  lemma Multiples(c: int, k: int)
    requires c > 0
    ensures k > 0 ==> c * k >= c
    ensures k < 0 ==> c * k <= -c
  {
  }

  /** The first multiple of the alignment that is not below the level. */
  lemma AlignedIsNext(level: nat, alignment: nat)
    requires alignment > 0
    ensures Aligned(level, alignment) % alignment == 0
    ensures level <= Aligned(level, alignment) < level + alignment
  {
    var k, r := level / alignment, level % alignment;
    assert level == alignment * k + r;
    if r != 0 {
      assert alignment * (k + 1) == alignment * k + alignment;
      NoRest(alignment, k + 1, level + (alignment - r));
    }
  }

  predicate Fits(b: Block, size: nat, alignment: nat)
    requires alignment > 0
  {
    b.end >= Aligned(b.level, alignment) && b.end - Aligned(b.level, alignment) >= size
  }

  function Take(b: Block, size: nat, alignment: nat): Block
    requires alignment > 0
  {
    b.(level := Aligned(b.level, alignment) + size)
  }

  /** The first block with room, or the number of blocks. */
  function FirstFit(blocks: seq<Block>, size: nat, alignment: nat): (i: nat)
    requires alignment > 0
    ensures i <= |blocks|
    ensures i < |blocks| ==> Fits(blocks[i], size, alignment)
    ensures forall j :: 0 <= j < i ==> !Fits(blocks[j], size, alignment)
  {
    if blocks == [] then 0
    else if Fits(blocks[0], size, alignment) then 0
    else 1 + FirstFit(blocks[1..], size, alignment)
  }

  /** Half as much again as asked for, but never less than the default. */
  function BlockSize(size: nat): nat {
    if size * 3 / 2 < DEFAULT_BLOCK_SIZE then DEFAULT_BLOCK_SIZE else size * 3 / 2
  }

  function NewBlock(grant: nat, size: nat): Block {
    Block(grant + BLOCK_FIELDS, grant + BLOCK_FIELDS + BlockSize(size), grant + BLOCK_FIELDS)
  }

  /** The first block whose level is `end`, or the number of blocks. */
  function LevelAt(blocks: seq<Block>, end: nat): (i: nat)
    ensures i <= |blocks|
    ensures i < |blocks| ==> blocks[i].level == end
    ensures forall j :: 0 <= j < i ==> blocks[j].level != end
  {
    if blocks == [] || blocks[0].level == end then 0 else 1 + LevelAt(blocks[1..], end)
  }

  /** What `free` leaves: it lowers the level that is the end of the freed memory, unless that is the
      level of the last block, which is never asked. */
  function Freed(blocks: seq<Block>, mem: nat, size: nat): seq<Block> {
    var i := LevelAt(blocks, mem + size);
    if i + 1 < |blocks| then blocks[i := blocks[i].(level := mem)] else blocks
  }

  /** What `alloc` answers and leaves: the first block with room serves, else a new block in front does.
      Nothing is said of the blocks after an undefined outcome. */
  function Allocated(blocks: seq<Block>, size: nat, alignment: nat, grant: nat): (Outcome, seq<Block>)
    requires alignment > 0
  {
    var i := FirstFit(blocks, size, alignment);
    if i < |blocks| then
      (At(Aligned(blocks[i].level, alignment)), blocks[i := Take(blocks[i], size, alignment)])
    else if BlockSize(size) > INT_MAX then
      (Undefined, blocks)
    else
      var b := NewBlock(grant, size);
      if Fits(b, size, alignment) then
        (At(Aligned(b.level, alignment)), [Take(b, size, alignment)] + blocks)
      else
        (Null, [b] + blocks)
  }

  /** The system would place a new block for `size` bytes at `grant`, clear of the others. */
  ghost predicate Granted(blocks: seq<Block>, memory: nat, size: nat, alignment: nat, grant: nat)
    requires alignment > 0
  {
    FirstFit(blocks, size, alignment) == |blocks| && BlockSize(size) <= INT_MAX ==>
      && NewBlock(grant, size).end <= memory
      && forall j :: 0 <= j < |blocks| ==> Apart(NewBlock(grant, size), blocks[j])
  }

  lemma AllocatedOk(blocks: seq<Block>, memory: nat, size: nat, alignment: nat, grant: nat)
    requires alignment > 0 && BlocksOk(blocks, memory) && Granted(blocks, memory, size, alignment, grant)
    ensures BlocksOk(Allocated(blocks, size, alignment, grant).1, memory)
  {
    var blocks' := Allocated(blocks, size, alignment, grant).1;
    var k := |blocks'| - |blocks|;
    forall i, j | 0 <= i < j < |blocks'|
      ensures Apart(blocks'[i], blocks'[j])
    {
      if i >= k {
        assert Apart(blocks[i - k], blocks[j - k]);
      } else {
        assert Apart(NewBlock(grant, size), blocks[j - k]);
      }
    }
  }

  /** The bytes of one string, `start` up to `end`: header, characters and a final NUL. */
  datatype Extent = Extent(start: nat, end: nat)

  /** The extent lies in the taken part of some block. */
  ghost predicate Placed(e: Extent, blocks: seq<Block>) {
    exists i :: 0 <= i < |blocks| && Within(e, blocks[i])
  }

  ghost predicate Within(e: Extent, b: Block) {
    b.data <= e.start && e.end <= b.level
  }

  ghost predicate Separate(e: Extent, f: Extent) {
    e.end <= f.start || f.end <= e.start
  }

  /** The characters of the extent begin at `p` and the bytes before them spell how many there are. */
  ghost predicate Spelled(bytes: seq<Byte>, p: nat, e: Extent) {
    e.start < p < e.end <= |bytes| && bytes[e.start..p] == Header(e.end - p - 1)
  }

  /** Blocks do not overlap; every live string is placed and clear of the others. */
  ghost predicate LayoutOk(blocks: seq<Block>, memory: nat, live: map<nat, Extent>) {
    && BlocksOk(blocks, memory)
    && (forall p :: p in live ==> Placed(live[p], blocks) && live[p].start < p < live[p].end <= memory)
    && (forall p, q :: p in live && q in live && p != q ==> Separate(live[p], live[q]))
  }

  ghost predicate AllSpelled(bytes: seq<Byte>, live: map<nat, Extent>) {
    forall p :: p in live ==> Spelled(bytes, p, live[p])
  }

  ghost predicate ArenaOk(blocks: seq<Block>, bytes: seq<Byte>, live: map<nat, Extent>) {
    LayoutOk(blocks, |bytes|, live) && AllSpelled(bytes, live)
  }

  /** Bytes asked for to hold a string: header, characters and a final NUL. */
  function StrSize(len: nat): nat {
    |Header(len)| + len + 1
  }

  /** A string never meets the null pointer of a full block; its allocation is undefined exactly if no block
      has room and the size of a new one does not fit an `int`. */
  lemma RoomUnlessTooLarge(blocks: seq<Block>, size: nat, grant: nat)
    ensures Allocated(blocks, size, 1, grant).0 != Null
    ensures Allocated(blocks, size, 1, grant).0 == Undefined <==>
      FirstFit(blocks, size, 1) == |blocks| && BlockSize(size) > INT_MAX
  {
  }

  /** What `alloc` returns is aligned, and is the first such address in what is left of the block that serves. */
  lemma AllocationIsAligned(blocks: seq<Block>, size: nat, alignment: nat, grant: nat)
    requires alignment > 0 && Allocated(blocks, size, alignment, grant).0.At?
    ensures
      var a := Allocated(blocks, size, alignment, grant).0.addr;
      var i := FirstFit(blocks, size, alignment);
      var level := if i < |blocks| then blocks[i].level else NewBlock(grant, size).level;
      a % alignment == 0 && level <= a < level + alignment
  {
    var i := FirstFit(blocks, size, alignment);
    AlignedIsNext(if i < |blocks| then blocks[i].level else NewBlock(grant, size).level, alignment);
  }

  /** A new block has room for half as much again as was asked for, and small ones for a thousand bytes in all. */
  lemma RoomForHalfAgain(size: nat, grant: nat, more: nat)
    ensures Fits(Take(NewBlock(grant, size), size, 1), more, 1) <==> more <= size / 2 || size + more <= 1000
  {
  }

  /** What `alloc` returns is placed, lies in memory and is clear of every extent placed before, which
      stays placed. */
  lemma AllocationIsFresh(blocks: seq<Block>, memory: nat, size: nat, alignment: nat, grant: nat, e: Extent)
    requires alignment > 0 && BlocksOk(blocks, memory) && Granted(blocks, memory, size, alignment, grant)
    requires Allocated(blocks, size, alignment, grant).0.At?
    ensures
      var (mem, blocks') := Allocated(blocks, size, alignment, grant);
      var new_ := Extent(mem.addr, mem.addr + size);
      && Placed(new_, blocks') && new_.end <= memory
      && (Placed(e, blocks) ==> Placed(e, blocks') && Separate(new_, e))
  {
    var (mem, blocks') := Allocated(blocks, size, alignment, grant);
    var k := |blocks'| - |blocks|;
    var i := FirstFit(blocks, size, alignment);
    AllocatedOk(blocks, memory, size, alignment, grant);
    assert Within(Extent(mem.addr, mem.addr + size), blocks'[if i < |blocks| then i else 0]);
    assert BlockOk(blocks'[if i < |blocks| then i else 0], memory);
    if Placed(e, blocks) {
      var j :| 0 <= j < |blocks| && Within(e, blocks[j]);
      assert Within(e, blocks'[j + k]);
      if i == |blocks| {
        assert Apart(NewBlock(grant, size), blocks[j]);
      } else if i != j {
        assert Apart(blocks[i], blocks[j]) || Apart(blocks[j], blocks[i]);
      }
    }
  }

  ghost predicate SameExcept(bytes: seq<Byte>, bytes': seq<Byte>, lo: int, hi: int) {
    |bytes'| == |bytes| && forall k :: 0 <= k < |bytes| && !(lo <= k < hi) ==> bytes'[k] == bytes[k]
  }

  lemma SameExceptTwice(a: seq<Byte>, b: seq<Byte>, c: seq<Byte>, lo: int, mid: int, hi: int)
    requires lo <= mid <= hi && SameExcept(a, b, lo, mid) && SameExcept(b, c, mid, hi)
    ensures SameExcept(a, c, lo, hi)
  {
  }

  lemma StillSpelled(bytes: seq<Byte>, bytes': seq<Byte>, lo: int, hi: int, q: nat, e: Extent)
    requires Spelled(bytes, q, e) && SameExcept(bytes, bytes', lo, hi)
    requires hi <= e.start || q <= lo
    ensures Spelled(bytes', q, e)
  {
    assert bytes'[e.start..q] == bytes[e.start..q];
  }

  lemma AddExtent(blocks: seq<Block>, memory: nat, live: map<nat, Extent>, p: nat, e: Extent)
    requires LayoutOk(blocks, memory, live) && Placed(e, blocks) && e.start < p < e.end <= memory
    requires forall q :: q in live ==> Separate(e, live[q])
    ensures p !in live && LayoutOk(blocks, memory, live[p := e])
  {
  }

  /** Adding a placed and spelled string that is clear of the others keeps the arena in order. */
  lemma AddString(blocks: seq<Block>, bytes: seq<Byte>, live: map<nat, Extent>, bytes': seq<Byte>, p: nat, e: Extent)
    requires LayoutOk(blocks, |bytes|, live) && AllSpelled(bytes, live)
    requires Placed(e, blocks) && Spelled(bytes', p, e) && SameExcept(bytes, bytes', e.start, p)
    requires forall q :: q in live ==> Separate(e, live[q])
    ensures p !in live && ArenaOk(blocks, bytes', live[p := e])
  {
    AddExtent(blocks, |bytes|, live, p, e);
    forall q | q in live
      ensures Spelled(bytes', q, live[q])
    {
      StillSpelled(bytes, bytes', e.start, p, q, live[q]);
    }
  }

  /** Writing the characters of a live string keeps the arena in order. */
  lemma WriteCharacters(blocks: seq<Block>, bytes: seq<Byte>, live: map<nat, Extent>, bytes': seq<Byte>, p: nat)
    requires ArenaOk(blocks, bytes, live) && p in live && SameExcept(bytes, bytes', p, live[p].end)
    ensures ArenaOk(blocks, bytes', live)
  {
    forall q | q in live
      ensures Spelled(bytes', q, live[q])
    {
      assert Spelled(bytes, p, live[p]) && Spelled(bytes, q, live[q]);
      assert q != p ==> Separate(live[q], live[p]);
      StillSpelled(bytes, bytes', p, live[p].end, q, live[q]);
    }
  }

  /** Writing inside one live string changes no byte of another. */
  lemma OthersUntouched(blocks: seq<Block>, bytes: seq<Byte>, bytes': seq<Byte>, live: map<nat, Extent>, p: nat, q: nat)
    requires ArenaOk(blocks, bytes', live) && p in live && q in live && p != q
    requires SameExcept(bytes, bytes', live[p].start, live[p].end)
    ensures live[q].start < live[q].end <= |bytes|
    ensures bytes'[live[q].start..live[q].end] == bytes[live[q].start..live[q].end]
  {
    assert Spelled(bytes', q, live[q]) && Separate(live[p], live[q]);
  }

  /** What `alloc` hands out is clear of every live string. */
  lemma NewStringIsClear(blocks: seq<Block>, memory: nat, live: map<nat, Extent>, size: nat, grant: nat)
    requires LayoutOk(blocks, memory, live) && Granted(blocks, memory, size, 1, grant)
    requires Allocated(blocks, size, 1, grant).0.At?
    ensures
      var (mem, blocks') := Allocated(blocks, size, 1, grant);
      var e := Extent(mem.addr, mem.addr + size);
      && Placed(e, blocks') && e.end <= memory && LayoutOk(blocks', memory, live)
      && forall q :: q in live ==> Separate(e, live[q])
  {
    var (mem, blocks') := Allocated(blocks, size, 1, grant);
    var e := Extent(mem.addr, mem.addr + size);
    AllocationIsFresh(blocks, memory, size, 1, grant, e);
    AllocatedOk(blocks, memory, size, 1, grant);
    forall q | q in live
      ensures Placed(live[q], blocks') && Separate(e, live[q])
    {
      AllocationIsFresh(blocks, memory, size, 1, grant, live[q]);
    }
  }

  /** Only the block that holds an extent can have its level at the extent's end. */
  lemma LevelIdentifiesBlock(blocks: seq<Block>, memory: nat, e: Extent, i: nat, j: nat)
    requires BlocksOk(blocks, memory) && e.start < e.end && i < |blocks| && j < |blocks|
    requires Within(e, blocks[j]) && blocks[i].level == e.end
    ensures i == j
  {
  }

  lemma FreedOk(blocks: seq<Block>, memory: nat, e: Extent)
    requires BlocksOk(blocks, memory) && Placed(e, blocks) && e.start < e.end
    ensures BlocksOk(Freed(blocks, e.start, e.end - e.start), memory)
  {
    var blocks' := Freed(blocks, e.start, e.end - e.start);
    var i := LevelAt(blocks, e.end);
    var j :| 0 <= j < |blocks| && Within(e, blocks[j]);
    assert i < |blocks| ==> i == j by {
      if i < |blocks| {
        LevelIdentifiesBlock(blocks, memory, e, i, j);
      }
    }
    forall k, l | 0 <= k < l < |blocks'|
      ensures Apart(blocks'[k], blocks'[l])
    {
      assert Apart(blocks[k], blocks[l]);
    }
  }

  lemma FreedStillPlaced(blocks: seq<Block>, memory: nat, e: Extent, f: Extent)
    requires BlocksOk(blocks, memory) && Placed(e, blocks) && e.start < e.end
    requires Placed(f, blocks) && f.start < f.end && Separate(e, f)
    ensures Placed(f, Freed(blocks, e.start, e.end - e.start))
  {
    var blocks' := Freed(blocks, e.start, e.end - e.start);
    var i := LevelAt(blocks, e.end);
    var j :| 0 <= j < |blocks| && Within(e, blocks[j]);
    if i < |blocks| {
      LevelIdentifiesBlock(blocks, memory, e, i, j);
    }
    var k :| 0 <= k < |blocks| && Within(f, blocks[k]);
    assert Within(f, blocks'[k]);
  }

  /** Freeing a string, whether or not its space is won back, leaves every other string in order. */
  lemma RemoveString(blocks: seq<Block>, bytes: seq<Byte>, live: map<nat, Extent>, p: nat,
                     blocks': seq<Block>, live': map<nat, Extent>)
    requires ArenaOk(blocks, bytes, live) && p in live
    requires blocks' == Freed(blocks, live[p].start, live[p].end - live[p].start) && live' == live - {p}
    ensures ArenaOk(blocks', bytes, live')
  {
    RemoveExtent(blocks, |bytes|, live, p, blocks', live');
  }

  lemma RemoveExtent(blocks: seq<Block>, memory: nat, live: map<nat, Extent>, p: nat,
                     blocks': seq<Block>, live': map<nat, Extent>)
    requires LayoutOk(blocks, memory, live) && p in live
    requires blocks' == Freed(blocks, live[p].start, live[p].end - live[p].start) && live' == live - {p}
    ensures LayoutOk(blocks', memory, live')
  {
    assert BlocksOk(blocks', memory) by {
      FreedOk(blocks, memory, live[p]);
    }
    forall q | q in live'
      ensures Placed(live'[q], blocks') && live'[q].start < q < live'[q].end <= memory
    {
      StaysPlaced(blocks, memory, live, p, q);
    }
    forall q, r | q in live' && r in live' && q != r
      ensures Separate(live'[q], live'[r])
    {
      assert Separate(live[q], live[r]);
    }
  }

  lemma StaysPlaced(blocks: seq<Block>, memory: nat, live: map<nat, Extent>, p: nat, q: nat)
    requires LayoutOk(blocks, memory, live) && p in live && q in live && p != q
    ensures Placed(live[q], Freed(blocks, live[p].start, live[p].end - live[p].start))
    ensures live[q].start < q < live[q].end <= memory
  {
    assert Separate(live[p], live[q]);
    FreedStillPlaced(blocks, memory, live[p], live[q]);
  }

  /** Freeing what was just allocated wins the space back if and only if the block that served is not
      the last of the list. */
  lemma FreeUndoesAlloc(blocks: seq<Block>, memory: nat, size: nat, grant: nat)
    requires BlocksOk(blocks, memory) && Granted(blocks, memory, size, 1, grant) && size > 0
    requires Allocated(blocks, size, 1, grant).0.At?
    ensures
      var (mem, blocks') := Allocated(blocks, size, 1, grant);
      var i := FirstFit(blocks, size, 1);
      var before := if i < |blocks| then blocks else [NewBlock(grant, size)] + blocks;
      var served := if i < |blocks| then i else 0;
      && (Freed(blocks', mem.addr, size) == before <==> served + 1 < |before|)
      && (served + 1 == |before| ==> Freed(blocks', mem.addr, size) == blocks' != before)
  {
    var (mem, blocks') := Allocated(blocks, size, 1, grant);
    var i := FirstFit(blocks, size, 1);
    var before := if i < |blocks| then blocks else [NewBlock(grant, size)] + blocks;
    var served := if i < |blocks| then i else 0;
    AllocatedOk(blocks, memory, size, 1, grant);
    var e := Extent(mem.addr, mem.addr + size);
    assert Within(e, blocks'[served]) && blocks'[served].level == e.end;
    LevelIdentifiesBlock(blocks', memory, e, LevelAt(blocks', e.end), served);
    assert blocks'[served := before[served]] == before;
    assert blocks'[served] != before[served];
  }

  class Arena {
    const heap: array<Byte>
    var blocks: seq<Block>
    /** The strings handed out and not freed, by the pointer to their characters. */
    ghost var live: map<nat, Extent>

    ghost predicate Valid()
      reads this, heap
    {
      ArenaOk(blocks, heap[..], live)
    }

    constructor (heap: array<Byte>)
      ensures Valid() && this.heap == heap && blocks == [] && live == map[]
    {
      this.heap := heap;
      blocks, live := [], map[];
    }

    /** Walk the blocks for the first with room; failing that, ask the system for a block. */
    method Alloc(size: nat, alignment: nat, grant: nat) returns (mem: Outcome)
      requires alignment > 0 && BlocksOk(blocks, heap.Length)
      requires Granted(blocks, heap.Length, size, alignment, grant)
      modifies this`blocks
      ensures mem == Allocated(old(blocks), size, alignment, grant).0
      ensures mem != Undefined ==> blocks == Allocated(old(blocks), size, alignment, grant).1
      ensures mem != Undefined ==> BlocksOk(blocks, heap.Length)
    {
      var i := 0;
      while i < |blocks|
        invariant 0 <= i <= |blocks| && blocks == old(blocks)
        invariant forall j :: 0 <= j < i ==> !Fits(blocks[j], size, alignment)
      {
        var at := Aligned(blocks[i].level, alignment);
        if blocks[i].end >= at && blocks[i].end - at >= size {
          assert i == FirstFit(blocks, size, alignment);
          AllocatedOk(blocks, heap.Length, size, alignment, grant);
          mem := At(at);
          blocks := blocks[i := blocks[i].(level := at + size)];
          return;
        }
        i := i + 1;
      }
      assert i == FirstFit(blocks, size, alignment);
      mem := AllocInNewBlock(size, alignment, grant);
    }

    method AllocInNewBlock(size: nat, alignment: nat, grant: nat) returns (mem: Outcome)
      requires alignment > 0 && BlocksOk(blocks, heap.Length)
      requires FirstFit(blocks, size, alignment) == |blocks|
      requires Granted(blocks, heap.Length, size, alignment, grant)
      modifies this`blocks
      ensures mem == Allocated(old(blocks), size, alignment, grant).0
      ensures mem != Undefined ==> blocks == Allocated(old(blocks), size, alignment, grant).1
      ensures mem != Undefined ==> BlocksOk(blocks, heap.Length)
    {
      AllocatedOk(blocks, heap.Length, size, alignment, grant);
      var blockSize := size * 3 / 2;
      if blockSize < DEFAULT_BLOCK_SIZE {
        blockSize := DEFAULT_BLOCK_SIZE;
      }
      if blockSize > INT_MAX {
        return Undefined;
      }
      var b := Block(grant + BLOCK_FIELDS, grant + BLOCK_FIELDS + blockSize, grant + BLOCK_FIELDS);
      var at := Aligned(b.level, alignment);
      if b.end >= at && b.end - at >= size {
        b := b.(level := at + size);
        mem := At(at);
      } else {
        mem := Null;
      }
      blocks := [b] + blocks;
    }

    /** Ask every block but the last whether its level is the end of the freed memory. */
    method Free(mem: nat, size: nat)
      modifies this`blocks
      ensures blocks == Freed(old(blocks), mem, size)
    {
      if |blocks| == 0 {
        return;
      }
      var i := 0;
      while i + 1 < |blocks|
        invariant 0 <= i < |blocks| && blocks == old(blocks)
        invariant forall j :: 0 <= j < i ==> blocks[j].level != mem + size
      {
        if blocks[i].level == mem + size {
          blocks := blocks[i := blocks[i].(level := mem)];
          return;
        }
        i := i + 1;
      }
    }

    /** Reserve room for `len` characters and write their length in front of them. */
    method StrAlloc(len: nat, grant: nat) returns (str: Outcome)
      requires Valid() && Granted(blocks, heap.Length, StrSize(len), 1, grant)
      modifies this, heap
      ensures str != Null
      ensures str == Undefined <==>
        FirstFit(old(blocks), StrSize(len), 1) == |old(blocks)| && BlockSize(StrSize(len)) > INT_MAX
      ensures str.At? ==>
        && Valid() && str.addr !in old(live) && str.addr in live && live == old(live)[str.addr := live[str.addr]]
        && live[str.addr].start + |Header(len)| == str.addr && live[str.addr].end == str.addr + len + 1
        && (At(live[str.addr].start), blocks) == Allocated(old(blocks), StrSize(len), 1, grant)
        && SameExcept(old(heap[..]), heap[..], live[str.addr].start, str.addr)
    {
      var size := StringSize(len);
      RoomUnlessTooLarge(blocks, size, grant);
      ghost var bytes := heap[..];
      var mem := Alloc(size, 1, grant);
      if mem == Undefined {
        return Undefined;
      }
      assert heap[..] == bytes;
      NewStringIsClear(old(blocks), heap.Length, live, size, grant);
      var p := mem.addr + (size - len - 1);
      Inscribe(mem.addr, p, len);
      str := At(p);
    }

    /** Make the reserved bytes from `start` a string whose `len` characters begin at `p`. */
    method Inscribe(start: nat, p: nat, len: nat)
      requires Valid() && start + |Header(len)| == p
      requires Placed(Extent(start, p + len + 1), blocks) && p + len + 1 <= heap.Length
      requires forall q :: q in live ==> Separate(Extent(start, p + len + 1), live[q])
      modifies this`live, heap
      ensures Valid() && p !in old(live) && live == old(live)[p := Extent(start, p + len + 1)]
      ensures SameExcept(old(heap[..]), heap[..], start, p)
    {
      WriteHeader(start, p, len);
      AddString(blocks, old(heap[..]), live, heap[..], p, Extent(start, p + len + 1));
      live := live[p := Extent(start, p + len + 1)];
    }

    /** One byte for the NUL, one for the header, and one for every further header digit. */
    method StringSize(len: nat) returns (size: nat)
      ensures size == StrSize(len)
    {
      size := len + 1 + 1;
      var tmp := len;
      while tmp >= 128
        invariant size + |Header(tmp)| == |Header(len)| + len + 2
      {
        size, tmp := size + 1, tmp / 128;
      }
    }

    method WriteHeader(start: nat, p: nat, len: nat)
      requires start + |Header(len)| == p && p + len + 1 <= heap.Length
      modifies heap
      ensures Spelled(heap[..], p, Extent(start, p + len + 1))
      ensures SameExcept(old(heap[..]), heap[..], start, p)
    {
      var w, tmp := p - 1, len;
      while tmp >= 128
        invariant start <= w < p && w - start + 1 == |Header(tmp)|
        invariant Header(len)[..w + 1 - start] == Header(tmp)
        invariant forall k :: w < k < p ==> heap[k] == Header(len)[k - start]
        invariant forall k :: 0 <= k < heap.Length && !(start <= k < p) ==> heap[k] == old(heap[k])
      {
        assert Header(tmp)[w - start] == 255 - tmp % 128;
        assert Header(len)[..w - start] == Header(tmp)[..w - start] == Header(tmp / 128);
        heap[w] := 255 - tmp % 128;
        w, tmp := w - 1, tmp / 128;
      }
      assert Header(len)[0] == Header(tmp)[0];
      heap[w] := tmp;
    }

    /** Scan back to the first byte below 128, then read the digits forward. */
    method ReadHeader(str: nat, ghost e: Extent) returns (start: nat, len: nat)
      requires Spelled(heap[..], str, e)
      ensures start == e.start && len == e.end - str - 1
    {
      HeaderRoundTrip(e.end - str - 1);
      start := ScanBack(str, e.start);
      len := ReadDigits(start, str);
    }

    method ScanBack(str: nat, ghost first: nat) returns (start: nat)
      requires first < str <= heap.Length && SelfDelimiting(heap[first..str])
      ensures start == first
    {
      assert forall k :: first <= k < str ==> heap[k] == heap[first..str][k - first];
      start := str - 1;
      while heap[start] >= 128
        invariant first <= start < str
        decreases start
      {
        start := start - 1;
      }
    }

    method ReadDigits(start: nat, str: nat) returns (len: nat)
      requires start < str <= heap.Length && SelfDelimiting(heap[start..str])
      ensures len == Decode(heap[start..str])
    {
      len := heap[start];
      var s := start + 1;
      while s != str
        invariant start < s <= str
        invariant len == Decode(heap[start..s])
      {
        assert heap[start..s + 1][..s - start] == heap[start..s];
        len := len * 128 + (255 - heap[s]);
        s := s + 1;
      }
    }

    method StrLength(str: nat) returns (len: nat)
      requires Valid() && str in live
      ensures len == live[str].end - str - 1
    {
      var start;
      start, len := ReadHeader(str, live[str]);
    }

    /** Give back exactly the bytes that were asked for. */
    method StrFree(str: nat)
      requires Valid() && str in live
      modifies this
      ensures Valid() && live == old(live) - {str}
      ensures blocks == Freed(old(blocks), old(live)[str].start, old(live)[str].end - old(live)[str].start)
    {
      var start, len := ReadHeader(str, live[str]);
      len := len + (str - start) + 1;
      Free(start, len);
      live := live - {str};
      RemoveString(old(blocks), heap[..], old(live), str, blocks, live);
    }

    method CopyText(str: nat, text: seq<Byte>)
      requires Valid() && str in live && live[str].end == str + |text| + 1
      modifies heap
      ensures Valid() && live[str].end <= heap.Length
      ensures heap[str..str + |text|] == text && heap[str + |text|] == 0
      ensures SameExcept(old(heap[..]), heap[..], str, str + |text| + 1)
    {
      assert Spelled(heap[..], str, live[str]);
      forall i | 0 <= i < |text| {
        heap[str + i] := text[i];
      }
      heap[str + |text|] := 0;
      WriteCharacters(blocks, old(heap[..]), live, heap[..], str);
    }

    /** Reserve room, copy the characters and end them with a NUL. */
    method StrStore(text: seq<Byte>, grant: nat) returns (str: Outcome)
      requires Valid() && Granted(blocks, heap.Length, StrSize(|text|), 1, grant)
      modifies this, heap
      ensures str != Null
      ensures str == Undefined <==>
        FirstFit(old(blocks), StrSize(|text|), 1) == |old(blocks)| && BlockSize(StrSize(|text|)) > INT_MAX
      ensures str.At? ==>
        && Valid() && str.addr !in old(live) && str.addr in live && live == old(live)[str.addr := live[str.addr]]
        && live[str.addr].end == str.addr + |text| + 1 <= heap.Length
        && SameExcept(old(heap[..]), heap[..], live[str.addr].start, live[str.addr].end)
        && heap[str.addr..str.addr + |text|] == text && heap[str.addr + |text|] == 0
    {
      str := StrAlloc(|text|, grant);
      if str.At? {
        ghost var bytes := heap[..];
        CopyText(str.addr, text);
        SameExceptTwice(old(heap[..]), bytes, heap[..], live[str.addr].start, str.addr, live[str.addr].end);
      }
    }
  }
}
