/**
  Freeing a chain of objects at once, `MallocAllocator::free_void_bulk` of
  `include/tscore/Allocator.h`.  The chain runs through the first word of each
  object, and freeing an object gives that word up.
 */
module BulkFree {

  class Node {
    var next: Node?
    var freed: bool

    constructor (next: Node?)
      ensures this.next == next && !freed
    {
      this.next := next;
      freed := false;
    }

    /** The link can be read only while the object is not freed. */
    method Next() returns (n: Node?)
      requires !freed
      ensures n == next
    {
      n := next;
    }

    /** After it is freed an object's first word can be anything. */
    method Free(junk: Node?)
      requires !freed
      modifies this
      ensures freed
    {
      freed := true;
      next := junk;
    }
  }

  /** `nodes` is the chain from `head`, up to its null link. */
  ghost predicate Chain(head: Node?, nodes: seq<Node>)
    reads nodes
  {
    head == At(nodes, 0) && LinkedFrom(nodes, 0)
  }

  function At(nodes: seq<Node>, i: nat): Node? {
    if i < |nodes| then nodes[i] else null
  }

  ghost predicate LinkedFrom(nodes: seq<Node>, i: nat)
    reads nodes
  {
    forall k :: i <= k < |nodes| ==> nodes[k].next == At(nodes, k + 1)
  }

  ghost predicate Distinct(nodes: seq<Node>) {
    forall i, j :: 0 <= i < j < |nodes| ==> nodes[i] != nodes[j]
  }

  /** Of `nodes`, exactly the first `i` are freed. */
  ghost predicate FreedTo(nodes: seq<Node>, i: nat)
    reads nodes
  {
    forall k :: 0 <= k < |nodes| ==> (nodes[k].freed <==> k < i)
  }

  /** One object: its link is read before it is freed. */
  method FreeItem(item: Node, junk: Node?, ghost nodes: seq<Node>, ghost i: nat) returns (next: Node?)
    requires i < |nodes| && item == nodes[i]
    requires Distinct(nodes) && LinkedFrom(nodes, i) && FreedTo(nodes, i)
    modifies item
    ensures next == At(nodes, i + 1) && LinkedFrom(nodes, i + 1) && FreedTo(nodes, i + 1)
  {
    next := item.Next();
    item.Free(junk);
  }

  function Min(a: nat, b: nat): nat {
    if a <= b then a else b
  }

  /** Frees exactly the first `count` objects of the chain, or all if it is shorter: each once, in order, and
      reading no link of an object that was freed.  The rest of the chain is as it was. */
  method FreeBulk(head: Node?, count: nat, ghost nodes: seq<Node>, junk: nat -> Node?) returns (log: seq<Node>)
    requires Chain(head, nodes) && Distinct(nodes) && FreedTo(nodes, 0)
    modifies nodes
    ensures log == nodes[..Min(count, |nodes|)]
    ensures FreedTo(nodes, count) && LinkedFrom(nodes, count)
  {
    log := [];
    var item := head;
    var i := 0;
    while i < count && item != null
      invariant 0 <= i <= |nodes| && i <= count && log == nodes[..i]
      invariant item == At(nodes, i) && LinkedFrom(nodes, i) && FreedTo(nodes, i)
      decreases count - i
    {
      var next := FreeItem(item, junk(i), nodes, i);
      log := log + [item];
      item := next;
      i := i + 1;
    }
  }
}
