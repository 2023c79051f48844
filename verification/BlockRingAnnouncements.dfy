/** What readers of the block ring are told: the announced size after any write calls, and how
    much of a session of any length it comes to. */
module BlockRingAnnouncements {
  import opened Common
  import opened Arithmetic
  import opened BlockRing
  import opened BlockRingSessions

  // ---------------------------------------------------------------- any calls

  /** How many bytes a call takes when done bytes were taken before it. */
  function Taken(size: nat, done: nat, c: Call): nat
    requires size > 0
  {
    var room := size - done % size;
    if c.copy.Failed? then 0 else if |c.data| < room then |c.data| else room
  }

  function Total(size: nat, done: nat, calls: seq<Call>): (total: nat)
    requires size > 0
    ensures total >= done
    decreases calls
  {
    if calls == [] then done else Total(size, done + Taken(size, done, calls[0]), calls[1..])
  }

  /** The node count after done bytes in a ring of n blocks. */
  function Nodes(size: nat, n: nat, done: nat): nat
    requires size > 0
  {
    (done / size + 1) % (n + 1)
  }

  /** What is announced after the calls: sizes add up while the node count is 1 or at offset 0, and
      are forgotten when it comes back to 0. */
  function Told(size: nat, n: nat, done: nat, told: int, calls: seq<Call>): int
    requires size > 0
    decreases calls
  {
    if calls == [] then told else
      var after := done + Taken(size, done, calls[0]);
      var more := if calls[0].off == 0 || Nodes(size, n, done) == 1 then |calls[0].data| else 0;
      var forget := after / size > done / size && Nodes(size, n, after) == 0;
      Told(size, n, after, if forget then 0 else told + more, calls[1..])
  }

  /** Where the read cursor was put when the node count last came back to 0: at the block that was
      then to be written next. */
  function LastWrap(size: nat, n: nat, done: nat): nat
    requires size > 0 && n > 0
  {
    var turns := (done / size + 1) / (n + 1);
    if turns == 0 then 0 else WrapBlock(n, turns) % n
  }

  /** How many blocks have been filled when the count comes back to 0 for the k-th time. */
  function WrapBlock(n: nat, k: nat): (b: nat)
    requires k > 0
    ensures b == k * (n + 1) - 1
  {
    MulGap(n + 1, k);
    k * (n + 1) - 1
  }

  /** Cursor offset, node count and read cursor are those of done bytes. */
  predicate CountsAt(s: Store, done: nat) {
    && WellFormed(s)
    && s.w == done / s.size % |s.blocks| && s.woff == done % s.size
    && s.nodeCount == Nodes(s.size, |s.blocks|, done)
    && s.r == LastWrap(s.size, |s.blocks|, done) && s.roff == 0 && s.cnt == 0
  }

  lemma NodesAfterBlock(size: nat, n: nat, done: nat, after: nat)
    requires size > 0 && after / size == done / size + 1
    ensures Nodes(size, n, done) <= n
    ensures Nodes(size, n, after) == if Nodes(size, n, done) == n then 0 else Nodes(size, n, done) + 1
  {
    var q := done / size + 1;
    NextSlot(q, n + 1);
    if q % (n + 1) == n {
      QuotientIs(n + 1, n + 1, 1, 0);
    } else {
      QuotientIs(q % (n + 1) + 1, n + 1, 0, q % (n + 1) + 1);
    }
  }

  lemma WrapAfterBlock(size: nat, n: nat, done: nat, after: nat)
    requires size > 0 && n > 0 && after / size == done / size + 1
    ensures LastWrap(size, n, after) == if Nodes(size, n, after) == 0 then after / size % n else LastWrap(size, n, done)
  {
    var q := done / size + 1;
    NextQuotient(q, n + 1);
    if Nodes(size, n, after) == 0 {
      assert q + 1 == (q + 1) / (n + 1) * (n + 1);
    }
  }

  lemma CallCounts(s: Store, done: nat, c: Call)
    requires CountsAt(s, done)
    ensures var t, after := WriteCall(s, c), done + Taken(s.size, done, c);
      && CountsAt(t, after) && t.size == s.size && |t.blocks| == |s.blocks|
      && t.sizeToRead ==
           if after / s.size > done / s.size && Nodes(s.size, |s.blocks|, after) == 0 then 0
           else s.sizeToRead + if c.off == 0 || Nodes(s.size, |s.blocks|, done) == 1 then |c.data| else 0
  {
    var k := Taken(s.size, done, c);
    if c.copy.Whole? {
      Advance(done, k, s.size);
      if done % s.size + k == s.size {
        NodesAfterBlock(s.size, |s.blocks|, done, done + k);
        WrapAfterBlock(s.size, |s.blocks|, done, done + k);
        NextSlot(done / s.size, |s.blocks|);
      }
    }
  }

  lemma {:induction false} CallsCount(s: Store, done: nat, calls: seq<Call>)
    requires CountsAt(s, done)
    ensures var t := Writes(s, calls);
      && CountsAt(t, Total(s.size, done, calls))
      && t.sizeToRead == Told(s.size, |s.blocks|, done, s.sizeToRead, calls)
    decreases calls
  {
    hide CountsAt, WriteCall, Taken, Nodes;
    if calls == [] {
    } else {
      CountsFit(s, done);
      CallCounts(s, done, calls[0]);
      CallsCount(WriteCall(s, calls[0]), done + Taken(s.size, done, calls[0]), calls[1..]);
    }
  }

  lemma CountsFit(s: Store, done: nat)
    requires CountsAt(s, done)
    ensures WellFormed(s) && s.nodeCount == Nodes(s.size, |s.blocks|, done)
    ensures s.r == LastWrap(s.size, |s.blocks|, done)
  {
  }

  lemma StartCounts(s: Store)
    requires AtReset(s)
    ensures CountsAt(s, 0)
  {
    QuotientIs(0, s.size, 0, 0);
    QuotientIs(1, |s.blocks| + 1, 0, 1);
    QuotientIs(0, |s.blocks|, 0, 0);
  }

  /** From a reset store and for any write calls, failing or not: the node count is one more than the
      blocks filled, modulo one more than there are blocks, and readers are told what follows. */
  lemma AnnouncementsFollowTotals(s: Store, calls: seq<Call>)
    requires AtReset(s)
    ensures var t, total := Writes(s, calls), Total(s.size, 0, calls);
      && t.nodeCount == Nodes(s.size, |s.blocks|, total) && t.r == LastWrap(s.size, |s.blocks|, total)
      && t.sizeToRead == Told(s.size, |s.blocks|, 0, 0, calls)
  {
    StartCounts(s);
    CallsCount(s, 0, calls);
    CountsFit(Writes(s, calls), Total(s.size, 0, calls));
    hide Told, Total, Writes, CountsAt, Nodes;
  }

  // ---------------------------------------------------------------- while the ring is not full

  /** The sizes of the calls made at offset 0 or before the first block was full. */
  function OpeningSizes(size: nat, done: nat, calls: seq<Call>): nat
    requires size > 0
    decreases calls
  {
    if calls == [] then 0 else
      (if calls[0].off == 0 || done < size then |calls[0].data| else 0)
      + OpeningSizes(size, done + Taken(size, done, calls[0]), calls[1..])
  }

  lemma NodesBelow(size: nat, n: nat, done: nat)
    requires size > 0 && done < Pos(n, 0, size)
    ensures Nodes(size, n, done) == done / size + 1 && (Nodes(size, n, done) == 1 <==> done < size)
  {
    BelowCapacity(done, done, size, n);
    QuotientIs(done / size + 1, n + 1, 0, done / size + 1);
    if done < size {
      QuotientIs(done, size, 0, done);
    } else {
      QuotientPositive(done, size);
    }
  }

  lemma {:induction false} ToldBelow(size: nat, n: nat, done: nat, told: int, calls: seq<Call>)
    requires size > 0 && Total(size, done, calls) < Pos(n, 0, size)
    ensures Told(size, n, done, told, calls) == told + OpeningSizes(size, done, calls)
    decreases calls
  {
    hide Nodes, Taken;
    if calls == [] {
    } else {
      var after := done + Taken(size, done, calls[0]);
      NodesBelow(size, n, done);
      NodesBelow(size, n, after);
      var more := if calls[0].off == 0 || done < size then |calls[0].data| else 0;
      ToldBelow(size, n, after, told + more, calls[1..]);
    }
  }

  /** While the ring has not been filled, what is announced is the sum of the sizes of the calls made
      at offset 0 or before the first block was full, failed ones included. */
  lemma AnnouncedBelowCapacity(s: Store, calls: seq<Call>)
    requires AtReset(s) && Total(s.size, 0, calls) < Capacity(s)
    ensures Writes(s, calls).sizeToRead == OpeningSizes(s.size, 0, calls)
  {
    AnnouncementsFollowTotals(s, calls);
    ToldBelow(s.size, |s.blocks|, 0, 0, calls);
  }

  // ---------------------------------------------------------------- small writes

  /** The bytes of the calls, one after the other. */
  function Joined(calls: seq<Call>): seq<byte>
    decreases calls
  {
    if calls == [] then [] else calls[0].data + Joined(calls[1..])
  }

  /** Everything so far lies in the first block and is announced. */
  predicate Gathered(s: Store, all: seq<byte>) {
    && WellFormed(s) && |all| < s.size
    && s.w == 0 && s.woff == |all| && s.roff == 0 && s.cnt == 0 && s.nodeCount == 1
    && s.sizeToRead == |all| && s.blocks[0][..|all|] == all
  }

  lemma GatherOne(s: Store, all: seq<byte>, c: Call)
    requires Gathered(s, all) && c.copy.Whole? && |all + c.data| < s.size
    ensures Gathered(WriteCall(s, c), all + c.data) && WriteCall(s, c).size == s.size
  {
  }

  lemma {:induction false} GatherAll(s: Store, all: seq<byte>, calls: seq<Call>)
    requires Gathered(s, all) && NoneFails(calls) && |all + Joined(calls)| < s.size
    ensures Gathered(Writes(s, calls), all + Joined(calls))
    decreases calls
  {
    hide WriteCall;
    if calls == [] {
      assert all + [] == all;
    } else {
      GatherOne(s, all, calls[0]);
      Associate(all, calls[0].data, Joined(calls[1..]));
      GatherAll(WriteCall(s, calls[0]), all + calls[0].data, calls[1..]);
    }
  }

  lemma GatheredReadsBack(s: Store, all: seq<byte>)
    requires Gathered(s, all)
    ensures ReadAll(s, 0, false).bytes == all && ReadAll(s, 0, false).last == Eof
  {
    assert s.size * 0 == 0;
    if all != [] {
      var (t, res) := ReadFrom(s, 0, 0);
      assert res == Data(all);
      assert ReadAll(t, |all|, false) == Session([], Reset(t), Eof);
    }
  }

  /** Any writes that together stay below one block, whatever their offsets: all of them is
      announced, and a fresh read session returns them joined. */
  lemma SmallWritesReadBack(s: Store, calls: seq<Call>)
    requires AtReset(s) && NoneFails(calls) && |Joined(calls)| < s.size
    ensures var t := Writes(s, calls);
      && t.sizeToRead == |Joined(calls)|
      && ReadAll(t, 0, false).bytes == Joined(calls) && ReadAll(t, 0, false).last == Eof
  {
    assert [] + Joined(calls) == Joined(calls);
    GatherAll(s, [], calls);
    GatheredReadsBack(Writes(s, calls), Joined(calls));
  }

  // ---------------------------------------------------------------- whole sessions

  /** What a session announces of x bytes written from where the ring has just been filled: nothing
      of a first block's worth, the rest behind it, and again from 0 after each further turn of
      n + 1 blocks. */
  function Behind(size: nat, n: nat, x: nat): nat
    requires size > 0
    decreases x
  {
    var turn := Pos(n + 1, 0, size);
    if x >= turn then Behind(size, n, x - turn) else if x <= size then 0 else x - size
  }

  /** What is announced in the end, from a block's start with node count c, told so far and rest
      bytes to go. */
  function Outlook(size: nat, n: nat, c: nat, told: int, rest: nat): int
    requires size > 0 && c <= n
  {
    var gap := Pos(n + 1 - c, 0, size);
    if rest >= gap then Behind(size, n, rest - gap)
    else if c == 0 then Behind(size, n, rest)
    else if c == 1 then told + rest
    else told
  }

  /** One more call of a session, at a block's start. */
  lemma SessionCall(s: Store, rest: seq<byte>, off: nat)
    requires WellFormed(s) && s.woff == 0 && 0 <= s.nodeCount <= |s.blocks| && rest != []
    requires off == 0 ==> s.nodeCount == 1
    ensures var t, told := Write(s, rest, off), s.sizeToRead + if s.nodeCount == 1 then |rest| else 0;
      && (|rest| < s.size ==> t.sizeToRead == told && Accepts(s, |rest|) == |rest|)
      && (|rest| >= s.size ==>
            && Accepts(s, |rest|) == s.size && t.woff == 0
            && t.nodeCount == (if s.nodeCount == |s.blocks| then 0 else s.nodeCount + 1)
            && t.sizeToRead == (if s.nodeCount == |s.blocks| then 0 else told))
  {
  }

  lemma OutlookSteps(size: nat, n: nat, c: nat, told: int, rest: nat)
    requires size > 0 && 0 < n && c <= n && rest > 0 && (c <= 1 ==> told == 0)
    ensures var more := told + if c == 1 then rest else 0;
      && (rest < size ==> Outlook(size, n, c, told, rest) == more)
      && (rest >= size ==>
            Outlook(size, n, c, told, rest)
              == if c == n then Outlook(size, n, 0, 0, rest - size) else Outlook(size, n, c + 1, more, rest - size))
  {
    assert Pos(n + 1 - c, 0, size) == size + Pos(n - c, 0, size);
  }

  lemma OutlookEnds(size: nat, n: nat, c: nat, told: int)
    requires size > 0 && c <= n && (c <= 1 ==> told == 0)
    ensures Outlook(size, n, c, told, 0) == told
  {
    assert Pos(n + 1 - c, 0, size) == size + Pos(n - c, 0, size);
  }

  lemma {:induction false} SessionTold(s: Store, rest: seq<byte>, off: nat)
    requires WellFormed(s) && s.woff == 0 && 0 <= s.nodeCount <= |s.blocks|
    requires s.nodeCount <= 1 ==> s.sizeToRead == 0
    requires off == 0 ==> s.nodeCount == 1
    ensures WriteAll(s, rest, off).sizeToRead == Outlook(s.size, |s.blocks|, s.nodeCount, s.sizeToRead, |rest|)
    decreases |rest|
  {
    hide Outlook;
    if rest == [] {
      OutlookEnds(s.size, |s.blocks|, s.nodeCount, s.sizeToRead);
    } else {
      SessionCall(s, rest, off);
      OutlookSteps(s.size, |s.blocks|, s.nodeCount, s.sizeToRead, |rest|);
      hide Write, Accepts;
      if |rest| >= s.size {
        SessionTold(Write(s, rest, off), rest[s.size..], off + s.size);
      } else {
        assert rest[|rest|..] == [];
      }
    }
  }

  lemma {:induction false} BehindIs(size: nat, n: nat, x: nat)
    requires size > 0
    ensures (n + 1) * size > 0
    ensures var y := x % ((n + 1) * size); Behind(size, n, x) == if y <= size then 0 else y - size
    decreases x
  {
    var turn := (n + 1) * size;
    PosIs(n + 1, 0, size);
    MulPositive(n + 1, size);
    if x >= turn {
      BehindIs(size, n, x - turn);
      DropOne(x, turn);
    } else {
      QuotientIs(x, turn, 0, x);
    }
  }

  lemma FreshOutlook(size: nat, n: nat, rest: nat)
    requires size > 0 && n > 0
    ensures (n + 1) * size > 0
    ensures var full := Pos(n, 0, size);
      var beyond := if rest < full then 0 else (rest - full) % ((n + 1) * size);
      Outlook(size, n, 1, 0, rest) == if rest < full then rest else if beyond <= size then 0 else beyond - size
  {
    MulPositive(n + 1, size);
    if rest >= Pos(n, 0, size) {
      BehindIs(size, n, rest - Pos(n, 0, size));
    }
  }

  lemma SessionAnnounces(s: Store, data: seq<byte>)
    requires AtReset(s)
    ensures WriteAll(s, data, 0).sizeToRead == Outlook(s.size, |s.blocks|, 1, 0, |data|)
  {
    SessionTold(s, data, 0);
  }

  /** A session of any length announces its message if that leaves part of the ring unused. Otherwise
      what lies beyond a full ring counts, up to whole turns of one block more than there are, and of
      that what lies beyond one block. A reader gets exactly that many bytes. */
  lemma AnnouncedExactly(s: Store, data: seq<byte>)
    requires AtReset(s)
    ensures (|s.blocks| + 1) * s.size > 0
    ensures var n, capacity := |data|, |s.blocks| * s.size;
      var beyond := if n < capacity then 0 else (n - capacity) % ((|s.blocks| + 1) * s.size);
      var told := if n < capacity then n else if beyond <= s.size then 0 else beyond - s.size;
      && WriteAll(s, data, 0).sizeToRead == told
      && |Cycle(s, data, false).bytes| == told
  {
    SessionAnnounces(s, data);
    FreshOutlook(s.size, |s.blocks|, |data|);
    PosIs(|s.blocks|, 0, s.size);
    CycleLength(s, data);
    hide WriteAll, Cycle, Outlook, Pos;
  }

  // ---------------------------------------------------------------- faults

  /** A read that faults leaves the store as it was; it does so exactly when there is something
      announced and the copy fails or the length comes out negative. */
  lemma FaultsKeepStore(s: Store, off: nat, copied: bool)
    requires WellFormed(s)
    ensures ReadCall(s, off, copied).1 == Fault <==>
              off < s.sizeToRead && (!copied || s.sizeToRead < s.size * s.cnt)
    ensures ReadCall(s, off, copied).1 == Fault ==> ReadCall(s, off, copied).0 == s
  {
  }
}
