/** The block ring on the heap: a circular chain of nodes, each with its own buffer. */
module BlockRingDriver {
  import opened Common
  import opened Arithmetic
  import opened BlockRing

  class Node {
    const buffer: array<byte>
    var next: Node?

    constructor (size: nat)
      ensures fresh(buffer) && buffer.Length == size && next == null
    {
      buffer := new byte[size](_ => 0);
      next := null;
    }
  }

  ghost function Buffers(nodes: seq<Node>): set<array<byte>> {
    set k | 0 <= k < |nodes| :: nodes[k].buffer
  }

  ghost function BlocksOf(nodes: seq<Node>): (r: seq<seq<byte>>)
    reads Buffers(nodes)
    ensures |r| == |nodes|
  {
    seq(|nodes|, k requires 0 <= k < |nodes| reads Buffers(nodes) => nodes[k].buffer[..])
  }

  /** Different nodes with different buffers of the same size. */
  ghost predicate Separate(nodes: seq<Node>, size: nat) {
    && (forall k :: 0 <= k < |nodes| ==> nodes[k].buffer.Length == size)
    && (forall j, k :: 0 <= j < k < |nodes| ==> nodes[j] != nodes[k] && nodes[j].buffer != nodes[k].buffer)
  }

  /** Each node points to the next and the last to the first. */
  ghost predicate Circular(nodes: seq<Node>)
    reads nodes
  {
    forall k {:trigger nodes[k].next} :: 0 <= k < |nodes| ==> nodes[k].next == nodes[After(k, |nodes|)]
  }

  function After(k: nat, n: nat): nat {
    if k + 1 == n then 0 else k + 1
  }

  lemma AfterIs(k: nat, n: nat)
    requires k < n
    ensures After(k, n) == (k + 1) % n
  {
    QuotientIs(k + 1, n, if k + 1 == n then 1 else 0, After(k, n));
  }

  class BlockList {
    const count: nat
    const size: nat
    var head: Node?
    var writeNode: Node?
    var readNode: Node?
    var readOffset: nat
    var writeOffset: nat
    var sizeToRead: int
    var nodeCount: int
    var cnt: int

    ghost var nodes: seq<Node>
    ghost var w: nat
    ghost var r: nat

    /** As the module is loaded; count and size are the two module constants. */
    constructor (count: nat, size: nat)
      requires count > 0 && size > 0
      ensures this.count == count && this.size == size
      ensures sizeToRead == 0 && nodeCount == 1 && cnt == 0
    {
      this.count, this.size := count, size;
      head, writeNode, readNode := null, null, null;
      readOffset, writeOffset, sizeToRead, nodeCount, cnt := 0, 0, 0, 1, 0;
      nodes, w, r := [], 0, 0;
    }

    ghost predicate Valid()
      reads this, nodes
    {
      && size > 0 && |nodes| == count > 0 && head == nodes[0]
      && Separate(nodes, size) && Circular(nodes)
      && w < |nodes| && writeNode == nodes[w] && writeOffset < size
      && r < |nodes| && readNode == nodes[r] && readOffset < size
    }

    ghost function Abs(): Store
      reads this, Buffers(nodes)
    {
      Store(size, BlocksOf(nodes), w, writeOffset, r, readOffset, sizeToRead, nodeCount, cnt)
    }

    /** Build the ring; memory lasts for allocatable nodes. Without enough memory the cursors stay unset. */
    method CreateList(allocatable: nat) returns (ok: bool)
      requires count > 0 && size > 0 && sizeToRead == 0 && nodeCount == 1 && cnt == 0
      modifies this
      ensures ok <==> count <= allocatable
      ensures ok ==> Valid() && AtReset(Abs())
      ensures ok ==> fresh(nodes) && fresh(Buffers(nodes))
    {
      var chain, last := BuildChain(count, size, allocatable);
      if last == null {
        return false;
      }
      nodes := chain;
      w, r := 0, 0;
      head := chain[0];
      last.next := head;
      readNode, writeNode, readOffset, writeOffset := head, head, 0, 0;
      return true;
    }

    /** One write call; none is returned for the fault of a failing copy. */
    method Write(buf: seq<byte>, off: nat, copy: Copy) returns (copied: Option<nat>)
      requires Valid()
      modifies this, nodes[w].buffer
      ensures Valid() && nodes == old(nodes)
      ensures copied == if copy.Whole? then Some(Accepts(old(Abs()), |buf|)) else None
      ensures Abs() == WriteCall(old(Abs()), Call(buf, off, copy))
    {
      var k := if |buf| < size - writeOffset then |buf| else size - writeOffset;
      AnnounceSize(|buf|, off);
      if copy.Failed? {
        CopyToBlock(if |copy.left| <= k then copy.left else copy.left[..k]);
        return None;
      }
      CopyToBlock(buf[..k]);
      MoveWrite(k);
      return Some(k);
    }

    method AnnounceSize(n: nat, off: nat)
      requires Valid()
      modifies this`sizeToRead
      ensures Valid() && Abs() == Announce(old(Abs()), n, off)
    {
      if off == 0 || nodeCount == 1 {
        sizeToRead := sizeToRead + n;
      }
    }

    /** Past k bytes, and on to the next node if that fills the block. */
    method MoveWrite(k: nat)
      requires Valid() && writeOffset + k <= size
      modifies this
      ensures Valid() && nodes == old(nodes)
      ensures var s := old(Abs());
        Abs() == if s.woff + k == s.size then NextBlock(s) else s.(woff := s.woff + k)
    {
      if writeOffset + k == size {
        NextNode();
      } else {
        writeOffset := writeOffset + k;
      }
    }

    method CopyToBlock(data: seq<byte>)
      requires Valid() && writeOffset + |data| <= size
      modifies nodes[w].buffer
      ensures Valid()
      ensures Abs() == old(Abs()).(blocks := old(Abs()).blocks[w := Splice(old(Abs()).blocks[w], writeOffset, data)])
    {
      CopyIn(writeNode.buffer, writeOffset, data);
      assert BlocksOf(nodes) == old(BlocksOf(nodes))[w := Splice(old(BlocksOf(nodes))[w], writeOffset, data)];
    }

    /** The block is full: go on to the next node. */
    method NextNode()
      requires Valid()
      modifies this
      ensures Valid() && nodes == old(nodes)
      ensures Abs() == NextBlock(old(Abs()))
    {
      AfterIs(w, |nodes|);
      writeNode, writeOffset, nodeCount, w := writeNode.next, 0, nodeCount + 1, After(w, |nodes|);
      if nodeCount > count {
        ForgetData();
      }
    }

    method ForgetData()
      requires Valid()
      modifies this`nodeCount, this`readNode, this`r, this`readOffset, this`cnt, this`sizeToRead
      ensures Valid()
      ensures Abs() == old(Abs()).(r := w, roff := 0, nodeCount := 0, cnt := 0, sizeToRead := 0)
    {
      readNode, readOffset, nodeCount, cnt, sizeToRead, r := writeNode, 0, 0, 0, 0, w;
    }

    /** One read call: note the buffer it copies from. */
    method Read(off: nat, copied: bool) returns (res: ReadResult)
      requires Valid()
      modifies this
      ensures Valid() && nodes == old(nodes)
      ensures (Abs(), res) == ReadCall(old(Abs()), off, copied)
    {
      var remaining := sizeToRead - size * cnt;
      if off < sizeToRead {
        var k := if remaining < size - readOffset then remaining else size - readOffset;
        if k < 0 || !copied {
          return Fault;
        }
        var bytes := writeNode.buffer[readOffset..readOffset + k];
        assert bytes == Abs().blocks[w][readOffset..readOffset + k];
        MoveRead(k);
        return Data(bytes);
      } else {
        ResetCursors();
        return Eof;
      }
    }

    method MoveRead(k: nat)
      requires Valid() && readOffset + k <= size
      modifies this`readOffset, this`cnt, this`readNode, this`r
      ensures Valid()
      ensures var s := old(Abs());
        Abs() == if s.roff + k == s.size then s.(cnt := s.cnt + 1, r := Following(s, s.r), roff := 0)
                 else s.(roff := s.roff + k)
    {
      AfterIs(r, |nodes|);
      readOffset := readOffset + k;
      if readOffset == size {
        cnt, readNode, readOffset, r := cnt + 1, readNode.next, 0, After(r, |nodes|);
      }
    }

    method ResetCursors()
      requires Valid()
      modifies this`readNode, this`writeNode, this`readOffset, this`writeOffset
      modifies this`nodeCount, this`cnt, this`sizeToRead, this`w, this`r
      ensures Valid() && Abs() == Reset(old(Abs()))
    {
      GoToHead();
      nodeCount, cnt, sizeToRead := 1, 0, 0;
    }

    method GoToHead()
      requires Valid()
      modifies this`readNode, this`writeNode, this`readOffset, this`writeOffset, this`w, this`r
      ensures Valid() && Abs() == old(Abs()).(w := 0, woff := 0, r := 0, roff := 0)
    {
      readNode, writeNode, readOffset, writeOffset, w, r := head, head, 0, 0, 0, 0;
    }
  }

  lemma BuffersGrow(nodes: seq<Node>, node: Node)
    ensures Buffers(nodes + [node]) == Buffers(nodes) + {node.buffer}
  {
    var all := nodes + [node];
    assert all[|nodes|] == node;
    forall k | 0 <= k < |nodes|
      ensures nodes[k].buffer in Buffers(all)
    {
      assert all[k] == nodes[k];
    }
  }

  /** Allocate count linked nodes; last is null if memory ran out before. */
  method BuildChain(count: nat, size: nat, allocatable: nat) returns (nodes: seq<Node>, last: Node?)
    requires count > 0
    ensures last != null <==> count <= allocatable
    ensures last != null ==>
      && |nodes| == count && last == nodes[count - 1] && Separate(nodes, size)
      && forall k {:trigger nodes[k].next} :: 0 <= k < count - 1 ==> nodes[k].next == nodes[k + 1]
    ensures fresh(nodes) && fresh(Buffers(nodes))
  {
    nodes, last := [], null;
    if allocatable == 0 {
      return;
    }
    var node := new Node(size);
    nodes := [node];
    var prev := node;
    var i := 1;
    while i < count
      invariant 1 <= i <= count && i <= allocatable
      invariant |nodes| == i && prev == nodes[i - 1]
      invariant Separate(nodes, size)
      invariant fresh(nodes) && fresh(Buffers(nodes))
      invariant forall k {:trigger nodes[k].next} :: 0 <= k < i - 1 ==> nodes[k].next == nodes[k + 1]
    {
      if i == allocatable {
        return;
      }
      node := new Node(size);
      prev.next := node;
      prev := node;
      BuffersGrow(nodes, node);
      nodes := nodes + [node];
      i := i + 1;
    }
    last := prev;
  }

  method CopyIn(buffer: array<byte>, off: nat, data: seq<byte>)
    requires off + |data| <= buffer.Length
    modifies buffer
    ensures buffer[..] == Splice(old(buffer[..]), off, data)
  {
    forall j | 0 <= j < |data| {
      buffer[off + j] := data[j];
    }
  }
}
