/** A ring of fixed-size blocks used as a byte store: one write or read call never crosses a
    block boundary, and a read at the end of the data resets the store. */
module BlockRing {
  import opened Common
  import opened Arithmetic

  datatype Store = Store(
    size: nat,                // bytes per block
    blocks: seq<seq<byte>>,
    w: nat, woff: nat,        // write cursor: block and offset
    r: nat, roff: nat,        // read cursor
    sizeToRead: int, nodeCount: int, cnt: int)

  predicate WellFormed(s: Store) {
    && s.size > 0 && |s.blocks| > 0
    && (forall k :: 0 <= k < |s.blocks| ==> |s.blocks[k]| == s.size)
    && s.w < |s.blocks| && s.woff < s.size
    && s.r < |s.blocks| && s.roff < s.size
  }

  /** As after creation, or after a read that found the end: all cursors at the head. */
  predicate AtReset(s: Store) {
    WellFormed(s) && s == Reset(s)
  }

  function Reset(s: Store): Store {
    s.(w := 0, woff := 0, r := 0, roff := 0, sizeToRead := 0, nodeCount := 1, cnt := 0)
  }

  function Following(s: Store, k: nat): nat
    requires |s.blocks| > 0
  {
    (k + 1) % |s.blocks|
  }

  function Splice(block: seq<byte>, off: nat, data: seq<byte>): (r: seq<byte>)
    requires off + |data| <= |block|
    ensures |r| == |block|
    ensures forall j :: 0 <= j < |r| ==> r[j] == if off <= j < off + |data| then data[j - off] else block[j]
  {
    block[..off] + data + block[off + |data|..]
  }

  /** How many of size bytes one write call takes. */
  function Accepts(s: Store, size: nat): nat
    requires WellFormed(s)
  {
    if size < s.size - s.woff then size else s.size - s.woff
  }

  /** The block is full: move on, and forget the readable data once every block has been filled. */
  function NextBlock(s: Store): Store
    requires |s.blocks| > 0
  {
    var t := s.(w := Following(s, s.w), woff := 0, nodeCount := s.nodeCount + 1);
    if t.nodeCount > |s.blocks| then t.(r := t.w, roff := 0, nodeCount := 0, cnt := 0, sizeToRead := 0) else t
  }

  /** The size is added to what readers are told before anything is copied. */
  function Announce(s: Store, size: nat, off: nat): Store {
    if off == 0 || s.nodeCount == 1 then s.(sizeToRead := s.sizeToRead + size) else s
  }

  /** One write call at file offset off. */
  function Write(s: Store, data: seq<byte>, off: nat): (t: Store)
    requires WellFormed(s)
    ensures WellFormed(t) && t.size == s.size && |t.blocks| == |s.blocks|
  {
    var k := Accepts(s, |data|);
    var copied := Announce(s, |data|, off).(blocks := s.blocks[s.w := Splice(s.blocks[s.w], s.woff, data[..k])]);
    if s.woff + k == s.size then NextBlock(copied) else copied.(woff := s.woff + k)
  }

  /** How the copy from user space ends. A failing one may have overwritten the start of its target. */
  datatype Copy = Whole | Failed(left: seq<byte>)

  datatype Call = Call(data: seq<byte>, off: nat, copy: Copy)

  /** What a failing copy of c leaves behind: never more than the call would have taken. */
  function Remains(s: Store, c: Call): (left: seq<byte>)
    requires WellFormed(s) && c.copy.Failed?
    ensures s.woff + |left| <= s.size
  {
    var k := Accepts(s, |c.data|);
    if |c.copy.left| <= k then c.copy.left else c.copy.left[..k]
  }

  /** One write call, copy failures included. */
  function WriteCall(s: Store, c: Call): (t: Store)
    requires WellFormed(s)
    ensures WellFormed(t) && t.size == s.size && |t.blocks| == |s.blocks|
  {
    match c.copy
    case Whole => Write(s, c.data, c.off)
    case Failed(_) =>
      Announce(s, |c.data|, c.off).(blocks := s.blocks[s.w := Splice(s.blocks[s.w], s.woff, Remains(s, c))])
  }

  /** The bytes a call writes. */
  function Takes(s: Store, c: Call): seq<byte>
    requires WellFormed(s)
  {
    if c.copy.Whole? then c.data[..Accepts(s, |c.data|)] else []
  }

  datatype ReadResult = Data(bytes: seq<byte>) | Eof | Fault

  /** One read call at file offset off that copies out of block src. A negative length, which the
      remaining-size computation can produce, makes the copy fail. */
  function ReadFrom(s: Store, off: nat, src: nat): (r: (Store, ReadResult))
    requires WellFormed(s) && src < |s.blocks|
    ensures WellFormed(r.0) && r.0.size == s.size && r.0.blocks == s.blocks
  {
    if off < s.sizeToRead then
      var remaining := s.sizeToRead - s.size * s.cnt;
      var k := if remaining < s.size - s.roff then remaining else s.size - s.roff;
      if k < 0 then (s, Fault) else
        var bytes := s.blocks[src][s.roff..s.roff + k];
        (if s.roff + k == s.size then s.(cnt := s.cnt + 1, r := Following(s, s.r), roff := 0)
         else s.(roff := s.roff + k),
         Data(bytes))
    else
      (Reset(s), Eof)
  }

  /** The driver reads out of the block under the write cursor; what seems meant is the block
      under the read cursor. */
  function Source(s: Store, intent: bool): nat {
    if intent then s.r else s.w
  }

  function Read(s: Store, off: nat): (Store, ReadResult)
    requires WellFormed(s)
  {
    ReadFrom(s, off, Source(s, false))
  }

  /** One read call; a failing copy to user space changes nothing. */
  function ReadCall(s: Store, off: nat, copied: bool): (Store, ReadResult)
    requires WellFormed(s)
  {
    if off < s.sizeToRead && !copied then (s, Fault) else Read(s, off)
  }

  // ---------------------------------------------------------------- what a failing copy costs

  /** A failing write moves no cursor and touches only unwritten space of its block, but readers are
      told of its bytes all the same, unless the offset is not 0 and the first block is full. */
  lemma FailedWriteAnnounces(s: Store, c: Call)
    requires WellFormed(s) && c.copy.Failed?
    ensures var t := WriteCall(s, c);
      && (t.sizeToRead == s.sizeToRead <==> c.data == [] || (c.off != 0 && s.nodeCount != 1))
      && t == s.(sizeToRead := t.sizeToRead, blocks := t.blocks)
      && t.blocks == s.blocks[s.w := t.blocks[s.w]] && t.blocks[s.w][..s.woff] == s.blocks[s.w][..s.woff]
  {
  }

  // ---------------------------------------------------------------- the ring as a flat buffer

  function Writes(s: Store, calls: seq<Call>): (t: Store)
    requires WellFormed(s)
    ensures WellFormed(t) && t.size == s.size && |t.blocks| == |s.blocks|
    decreases calls
  {
    if calls == [] then s else Writes(WriteCall(s, calls[0]), calls[1..])
  }

  /** All bytes the calls wrote, in order. */
  function Accepted(s: Store, calls: seq<Call>): seq<byte>
    requires WellFormed(s)
    decreases calls
  {
    if calls == [] then [] else Takes(s, calls[0]) + Accepted(WriteCall(s, calls[0]), calls[1..])
  }

  /** The cursor is where the flat buffer's would be. */
  predicate CursorAt(s: Store, total: nat)
    requires WellFormed(s)
  {
    s.w == total / s.size % |s.blocks| && s.woff == total % s.size
  }

  /** The ring holds the last window bytes of all, byte i in slot i of a flat circular buffer. */
  predicate Holds(s: Store, all: seq<byte>, window: nat)
    requires WellFormed(s)
  {
    forall i :: 0 <= i < |all| && |all| <= i + window
      ==> s.blocks[i / s.size % |s.blocks|][i % s.size] == all[i]
  }

  /** Two block numbers that share a ring slot are equal or a whole turn apart. */
  lemma SameSlot(a: nat, b: nat, n: nat)
    requires n > 0 && a <= b && a % n == b % n
    ensures a == b || a + n <= b
  {
    var x, y := a / n, b / n;
    assert a == n * x + a % n && b == n * y + b % n;
    assert b - a == n * (y - x);
    MulGap(n, y - x);
  }

  lemma QuotientMonotone(a: nat, b: nat, d: nat)
    requires d > 0 && a <= b
    ensures a / d <= b / d
  {
    var x, y := a / d, b / d;
    assert a == d * x + a % d && b == d * y + b % d;
    assert d * (x - y) == b % d - a % d - (b - a);
    MulGap(d, x - y);
  }

  /** A byte written earlier survives unless it is a whole turn old. */
  lemma OldSlotSurvives(s: Store, total: nat, k: nat, i: nat)
    requires WellFormed(s) && CursorAt(s, total) && s.woff + k <= s.size
    requires i < total && total + k <= i + |s.blocks| * s.size
    ensures i / s.size % |s.blocks| == s.w ==> !(s.woff <= i % s.size < s.woff + k)
  {
    var n, size := |s.blocks|, s.size;
    var a, b := i / size, total / size;
    if a % n == b % n && s.woff <= i % size < s.woff + k {
      assert i == size * a + i % size && total == size * b + total % size;
      QuotientMonotone(i, total, size);
      SameSlot(a, b, n);
      if a + n <= b {
        Spread(size, a, b, n);
        assert false;
      } else {
        assert false;
      }
    }
  }

  lemma Spread(size: nat, a: nat, b: nat, n: nat)
    requires a + n <= b
    ensures size * a + n * size <= size * b
  {
  }

  /** How many of the last bytes a call leaves in place: the whole ring's worth, or one block less
      if its copy fails. */
  predicate Fits(s: Store, copy: Copy, window: nat) {
    window + (if copy.Whole? then 0 else s.size) <= |s.blocks| * s.size
  }

  /** One write call keeps the flat-buffer view. */
  lemma WriteKeepsFlat(s: Store, all: seq<byte>, c: Call, window: nat)
    requires WellFormed(s) && CursorAt(s, |all|) && Holds(s, all, window) && Fits(s, c.copy, window)
    ensures var t, more := WriteCall(s, c), Takes(s, c);
      CursorAt(t, |all + more|) && Holds(t, all + more, window)
  {
    CursorMoves(s, |all|, c);
    forall i | 0 <= i < |all + Takes(s, c)| && |all + Takes(s, c)| <= i + window
      ensures WriteCall(s, c).blocks[i / s.size % |s.blocks|][i % s.size] == (all + Takes(s, c))[i]
    {
      if i < |all| {
        OldByteStays(s, all, c, i, window);
      } else {
        NewByteLands(s, |all|, c, i - |all|);
      }
    }
  }

  lemma OldByteStays(s: Store, all: seq<byte>, c: Call, i: nat, window: nat)
    requires WellFormed(s) && CursorAt(s, |all|) && Fits(s, c.copy, window)
    requires i < |all| && |all| + |Takes(s, c)| <= i + window
    ensures WriteCall(s, c).blocks[i / s.size % |s.blocks|][i % s.size] == s.blocks[i / s.size % |s.blocks|][i % s.size]
  {
    var k := if c.copy.Whole? then Accepts(s, |c.data|) else |Remains(s, c)|;
    OldSlotSurvives(s, |all|, k, i);
  }

  lemma NewByteLands(s: Store, total: nat, c: Call, j: nat)
    requires WellFormed(s) && CursorAt(s, total) && j < |Takes(s, c)|
    ensures WriteCall(s, c).blocks[(total + j) / s.size % |s.blocks|][(total + j) % s.size] == Takes(s, c)[j]
  {
    Advance(total, j, s.size);
  }

  /** A cursor that moves k bytes inside its block, possibly to the very end of it. */
  lemma Advance(total: nat, k: nat, size: nat)
    requires size > 0 && total % size + k <= size
    ensures total % size + k == size ==> (total + k) / size == total / size + 1 && (total + k) % size == 0
    ensures total % size + k < size ==> (total + k) / size == total / size && (total + k) % size == total % size + k
  {
    var q := total / size;
    assert total == q * size + total % size;
    if total % size + k == size {
      assert total + k == (q + 1) * size;
      QuotientIs(total + k, size, q + 1, 0);
    } else {
      QuotientIs(total + k, size, q, total % size + k);
    }
  }

  lemma CursorMoves(s: Store, total: nat, c: Call)
    requires WellFormed(s) && CursorAt(s, total)
    ensures CursorAt(WriteCall(s, c), total + |Takes(s, c)|)
  {
    if c.copy.Whole? {
      var k := Accepts(s, |c.data|);
      CursorAfterWrite(s, c.data, c.off);
      Advance(total, k, s.size);
      hide Write;
      NextSlot(total / s.size, |s.blocks|);
    }
  }

  lemma CursorAfterWrite(s: Store, data: seq<byte>, off: nat)
    requires WellFormed(s)
    ensures var t, k := Write(s, data, off), Accepts(s, |data|);
      if s.woff + k == s.size then t.w == (s.w + 1) % |s.blocks| && t.woff == 0 else t.w == s.w && t.woff == s.woff + k
  {
  }

  lemma NextSlot(q: nat, n: nat)
    requires n > 0
    ensures (q % n + 1) % n == (q + 1) % n
  {
    var x := q / n;
    assert q + 1 == x * n + (q % n + 1);
    if q % n + 1 == n {
      QuotientIs(q + 1, n, x + 1, 0);
      QuotientIs(n, n, 1, 0);
    } else {
      QuotientIs(q + 1, n, x, q % n + 1);
      QuotientIs(q % n + 1, n, 0, q % n + 1);
    }
  }

  lemma {:induction false} WritesKeepFlat(s: Store, all: seq<byte>, calls: seq<Call>, window: nat)
    requires WellFormed(s) && CursorAt(s, |all|) && Holds(s, all, window)
    requires forall k :: 0 <= k < |calls| ==> Fits(s, calls[k].copy, window)
    ensures var t, total := Writes(s, calls), all + Accepted(s, calls);
      CursorAt(t, |total|) && Holds(t, total, window)
    decreases calls
  {
    if calls == [] {
      assert all + [] == all;
    } else {
      var next, more := WriteCall(s, calls[0]), Takes(s, calls[0]);
      WriteKeepsFlat(s, all, calls[0], window);
      forall k | 0 <= k < |calls[1..]|
        ensures Fits(next, calls[1..][k].copy, window)
      {
        assert Fits(s, calls[k + 1].copy, window);
      }
      WritesKeepFlat(next, all + more, calls[1..], window);
      Associate(all, more, Accepted(next, calls[1..]));
    }
  }

  predicate NoneFails(calls: seq<Call>) {
    forall k :: 0 <= k < |calls| ==> calls[k].copy.Whole?
  }

  /** How many of the last bytes are sure to be intact: the whole ring's worth if no copy failed, all
      but one block's worth otherwise. */
  function Intact(s: Store, calls: seq<Call>): (window: nat)
    requires WellFormed(s)
    ensures window == |s.blocks| * s.size - if NoneFails(calls) then 0 else s.size
  {
    MulGap(s.size, |s.blocks|);
    |s.blocks| * s.size - if NoneFails(calls) then 0 else s.size
  }

  /** From a reset store, any sequence of write calls acts on the ring as on a flat circular buffer. */
  lemma WritesFillFlatBuffer(s: Store, calls: seq<Call>)
    requires AtReset(s)
    ensures CursorAt(Writes(s, calls), |Accepted(s, calls)|)
    ensures Holds(Writes(s, calls), Accepted(s, calls), Intact(s, calls))
  {
    QuotientIs(0, s.size, 0, 0);
    QuotientIs(0, |s.blocks|, 0, 0);
    WritesKeepFlat(s, [], calls, Intact(s, calls));
    assert [] + Accepted(s, calls) == Accepted(s, calls);
  }
}
