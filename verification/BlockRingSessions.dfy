/** Writing a message by retrying partial writes, then reading it back. */
module BlockRingSessions {
  import opened Common
  import opened Arithmetic
  import opened BlockRing

  /** A writer that passes what is left until everything is accepted, from file offset off. */
  function WriteAll(s: Store, data: seq<byte>, off: nat): (t: Store)
    requires WellFormed(s)
    ensures WellFormed(t) && t.size == s.size && |t.blocks| == |s.blocks|
    decreases |data|
  {
    if data == [] then s else
      var k := Accepts(s, |data|);
      WriteAll(Write(s, data, off), data[k..], off + k)
  }

  datatype Session = Session(bytes: seq<byte>, end: Store, last: ReadResult)

  /** A reader that reads until a call returns nothing or fails. */
  function ReadAll(s: Store, off: nat, intent: bool): (r: Session)
    requires WellFormed(s)
    ensures WellFormed(r.end) && r.end.size == s.size && r.end.blocks == s.blocks
    decreases s.sizeToRead - off
  {
    var (t, res) := ReadFrom(s, off, Source(s, intent));
    if res.Data? && res.bytes != [] then
      var rest := ReadAll(t, off + |res.bytes|, intent);
      Session(res.bytes + rest.bytes, rest.end, rest.last)
    else
      Session([], t, res)
  }

  // ---------------------------------------------------------------- writing

  /** Between two calls of a session that has written done of n bytes. */
  predicate Writing(s: Store, done: nat, n: nat) {
    && WellFormed(s)
    && s.w == done / s.size && s.woff == done % s.size
    && s.r == 0 && s.roff == 0 && s.cnt == 0
    && s.nodeCount == done / s.size + 1
    && s.sizeToRead == (if done == 0 then 0 else n)
    && (done == n || done % s.size == 0)
  }

  /** The position in a message that slot j of block b stands for. */
  function Pos(b: nat, j: nat, size: nat): nat {
    if b == 0 then j else size + Pos(b - 1, j, size)
  }

  lemma {:induction false} PosIs(b: nat, j: nat, size: nat)
    ensures Pos(b, j, size) == b * size + j
  {
    if b == 0 {
    } else {
      PosIs(b - 1, j, size);
    }
  }

  lemma PosOf(i: nat, size: nat)
    requires size > 0
    ensures Pos(i / size, i % size, size) == i
  {
    PosIs(i / size, i % size, size);
  }

  /** Slots are ordered like the positions they stand for. */
  lemma {:induction false} PosOrder(b: nat, j: nat, w: nat, size: nat)
    requires j < size
    ensures b < w ==> Pos(b, j, size) < Pos(w, 0, size)
    ensures b == w ==> Pos(b, j, size) == Pos(w, 0, size) + j
    ensures b > w ==> Pos(b, j, size) >= Pos(w, 0, size) + size
  {
    if b > 0 && w > 0 {
      PosOrder(b - 1, j, w - 1, size);
    } else if b > 1 {
      PosOrder(b - 1, j, w, size);
    } else if w > 1 {
      PosOrder(b, j, w - 1, size);
    }
  }

  /** The blocks hold the first done bytes of a message, and behind them what they held before. */
  predicate Filled(blocks: seq<seq<byte>>, before: seq<seq<byte>>, size: nat, all: seq<byte>, done: nat) {
    && |blocks| == |before| && done <= |all|
    && (forall b :: 0 <= b < |blocks| ==> |blocks[b]| == |before[b]| == size)
    && forall b, j :: 0 <= b < |blocks| && 0 <= j < size ==>
         blocks[b][j] == if Pos(b, j, size) < done then all[Pos(b, j, size)] else before[b][j]
  }

  /** Bytes the ring can hold. */
  function Capacity(s: Store): nat {
    Pos(|s.blocks|, 0, s.size)
  }

  lemma CapacityIs(s: Store)
    ensures Capacity(s) == |s.blocks| * s.size
  {
    PosIs(|s.blocks|, 0, s.size);
  }

  lemma BelowCapacity(done: nat, n: nat, size: nat, count: nat)
    requires size > 0 && done <= n < Pos(count, 0, size)
    ensures done / size < count
  {
    PosIs(count, 0, size);
    var q := done / size;
    assert done == size * q + done % size;
    assert size * (q - count) == size * q - count * size;
    MulGap(size, q - count);
  }

  lemma MultiplePositive(done: nat, size: nat)
    requires size > 0 && done > 0 && done % size == 0
    ensures done / size >= 1
  {
    assert done == size * (done / size);
  }

  lemma WriteStep(s: Store, done: nat, n: nat, data: seq<byte>)
    requires Writing(s, done, n) && n == done + |data| && data != [] && n < Capacity(s)
    ensures 0 < Accepts(s, |data|) <= |data|
    ensures Writing(Write(s, data, done), done + Accepts(s, |data|), n)
  {
    var k := Accepts(s, |data|);
    BelowCapacity(done, n, s.size, |s.blocks|);
    BelowCapacity(done + k, n, s.size, |s.blocks|);
    Advance(done, k, s.size);
    if s.woff + k == s.size {
      QuotientIs(s.w + 1, |s.blocks|, 0, s.w + 1);
    }
    if done > 0 {
      MultiplePositive(done, s.size);
    }
  }

  lemma FillStep(blocks: seq<seq<byte>>, before: seq<seq<byte>>, size: nat, all: seq<byte>,
                 done: nat, w: nat, o: nat, next: seq<byte>)
    requires w < |blocks| && o + |next| <= size && done == Pos(w, o, size) && 0 < |next| && done + |next| <= |all|
    requires next == all[done..done + |next|]
    requires Filled(blocks, before, size, all, done)
    ensures Filled(blocks[w := Splice(blocks[w], o, next)], before, size, all, done + |next|)
  {
    var t := blocks[w := Splice(blocks[w], o, next)];
    PosOrder(w, o, w, size);
    forall b, j | 0 <= b < |t| && 0 <= j < size
      ensures t[b][j] == var at := Pos(b, j, size); if at < done + |next| then all[at] else before[b][j]
    {
      PosOrder(b, j, w, size);
    }
  }

  lemma {:induction false} WriteRest(s: Store, before: seq<seq<byte>>, all: seq<byte>, done: nat)
    requires Writing(s, done, |all|) && done <= |all| < Capacity(s)
    requires Filled(s.blocks, before, s.size, all, done)
    ensures var t := WriteAll(s, all[done..], done);
      Writing(t, |all|, |all|) && Filled(t.blocks, before, s.size, all, |all|)
    decreases |all| - done
  {
    var rest := all[done..];
    if rest == [] {
    } else {
      WriteProgress(s, before, all, done);
      assert rest[Accepts(s, |rest|)..] == all[done + Accepts(s, |rest|)..];
      WriteRest(Write(s, rest, done), before, all, done + Accepts(s, |rest|));
    }
  }

  lemma WriteProgress(s: Store, before: seq<seq<byte>>, all: seq<byte>, done: nat)
    requires Writing(s, done, |all|) && done < |all| < Capacity(s)
    requires Filled(s.blocks, before, s.size, all, done)
    ensures var t, k := Write(s, all[done..], done), Accepts(s, |all| - done);
      0 < k && Writing(t, done + k, |all|) && Filled(t.blocks, before, s.size, all, done + k)
  {
    var rest, k := all[done..], Accepts(s, |all| - done);
    WriteStep(s, done, |all|, rest);
    hide Write, Filled;
    PosOf(done, s.size);
    assert rest[..k] == all[done..done + k];
    FillStep(s.blocks, before, s.size, all, done, s.w, s.woff, rest[..k]);
    WriteCopies(s, rest, done);
  }

  lemma WriteCopies(s: Store, data: seq<byte>, off: nat)
    requires WellFormed(s)
    ensures Write(s, data, off).blocks == s.blocks[s.w := Splice(s.blocks[s.w], s.woff, data[..Accepts(s, |data|)])]
  {
  }

  /** Writing fewer bytes than the ring holds leaves exactly that many to read and never wraps. */
  lemma WriteAllFills(s: Store, data: seq<byte>)
    requires AtReset(s) && 0 < |data| < Capacity(s)
    ensures var t := WriteAll(s, data, 0);
      && Writing(t, |data|, |data|) && t.sizeToRead == |data|
      && Filled(t.blocks, s.blocks, s.size, data, |data|)
  {
    QuotientIs(0, s.size, 0, 0);
    assert data[0..] == data;
    WriteRest(s, s.blocks, data, 0);
  }

  /** Once every block has been filled the count starts again, and can only ever announce bytes
      that came later. */
  lemma {:induction false} CountAfterWrap(s: Store, rest: seq<byte>, off: nat, bound: nat)
    requires WellFormed(s) && off > 0 && s.woff == 0 && 0 <= s.nodeCount
    requires s.nodeCount <= 1 ==> s.sizeToRead == 0
    requires s.sizeToRead <= bound && |rest| <= bound
    ensures WriteAll(s, rest, off).sizeToRead <= bound
    decreases |rest|
  {
    if rest == [] {
    } else {
      var k := Accepts(s, |rest|);
      var t := Write(s, rest, off);
      if t.woff == 0 {
        CountAfterWrap(t, rest[k..], off + k, bound);
      } else {
        assert rest[k..] == [];
      }
    }
  }

  lemma {:induction false} CountOverruns(s: Store, rest: seq<byte>, off: nat, q: nat)
    requires WellFormed(s) && q < |s.blocks|
    requires s.w == q && s.woff == 0 && s.nodeCount == q + 1
    requires Pos(|s.blocks| - q, 0, s.size) <= |rest|
    ensures WriteAll(s, rest, off).sizeToRead <= |rest| - Pos(|s.blocks| - q, 0, s.size)
    decreases |s.blocks| - q
  {
    var t, later := Write(s, rest, off), rest[s.size..];
    if q + 1 == |s.blocks| {
      CountAfterWrap(t, later, off + s.size, |later|);
    } else {
      QuotientIs(q + 1, |s.blocks|, 0, q + 1);
      CountOverruns(t, later, off + s.size, q + 1);
    }
  }

  /** The whole message is announced to readers exactly when it leaves part of the ring unused. */
  lemma AnnouncedIffItFits(s: Store, data: seq<byte>)
    requires AtReset(s) && data != []
    ensures WriteAll(s, data, 0).sizeToRead == |data| <==> |data| < Capacity(s)
  {
    if |data| < Capacity(s) {
      WriteAllFills(s, data);
    } else {
      CountOverruns(s, data, 0, 0);
      PosIs(|s.blocks|, 0, s.size);
      MulPositive(|s.blocks|, s.size);
    }
  }

  lemma MulPositive(a: nat, b: nat)
    requires a > 0 && b > 0
    ensures a * b > 0
  {
  }

  // ---------------------------------------------------------------- reading

  /** Between two calls of a read session that has got bytes of n. */
  predicate Reading(s: Store, got: nat, n: nat) {
    && WellFormed(s)
    && s.sizeToRead == n && got <= n < Capacity(s)
    && s.cnt == got / s.size && s.roff == got % s.size && s.r == got / s.size
    && (got == n || got % s.size == 0)
  }

  lemma ReadsStartBlocks(s: Store, got: nat, n: nat)
    requires Reading(s, got, n) && got < n
    ensures s.roff == 0 && s.size * s.cnt == got && s.r + 1 < |s.blocks| + (if n - got < s.size then 1 else 0)
  {
    assert got == s.size * (got / s.size) + got % s.size;
    if n - got >= s.size {
      BelowCapacity(got + s.size, n, s.size, |s.blocks|);
      QuotientIs(got + s.size, s.size, s.cnt + 1, 0);
    }
  }

  lemma ReadStep(s: Store, got: nat, n: nat, intent: bool)
    requires Reading(s, got, n) && got < n
    ensures var (t, res), k := ReadFrom(s, got, Source(s, intent)), if n - got < s.size then n - got else s.size;
      && res == Data(s.blocks[Source(s, intent)][..k]) && k > 0
      && Reading(t, got + k, n)
      && t.w == s.w && t.blocks == s.blocks && Reset(t) == Reset(s)
  {
    ReadsStartBlocks(s, got, n);
    if n - got < s.size {
      QuotientIs(n, s.size, s.cnt, n - got);
    } else {
      QuotientIs(got + s.size, s.size, s.cnt + 1, 0);
      QuotientIs(s.r + 1, |s.blocks|, 0, s.r + 1);
    }
  }

  /** The block that byte i of a session is copied from. */
  function From(s: Store, i: nat, intent: bool): nat
    requires s.size > 0
  {
    if intent then i / s.size else s.w
  }

  /** bytes are those of a session from position got on. */
  predicate Copied(bytes: seq<byte>, s: Store, got: nat, n: nat, intent: bool)
    requires WellFormed(s)
  {
    && |bytes| == n - got
    && forall i :: got <= i < n ==>
         From(s, i, intent) < |s.blocks| && bytes[i - got] == s.blocks[From(s, i, intent)][i % s.size]
  }

  lemma ReadAllUnrolls(s: Store, got: nat, n: nat, intent: bool)
    requires Reading(s, got, n) && got < n
    ensures var k, (t, res) := if n - got < s.size then n - got else s.size, ReadFrom(s, got, Source(s, intent));
      && Reading(t, got + k, n) && t.w == s.w && t.blocks == s.blocks && t.size == s.size && Reset(t) == Reset(s)
      && 0 < k <= s.size && got + k <= n
      && var rest := ReadAll(t, got + k, intent);
         ReadAll(s, got, intent) == Session(s.blocks[Source(s, intent)][..k] + rest.bytes, rest.end, rest.last)
  {
    ReadStep(s, got, n, intent);
  }

  lemma ReadAllStops(s: Store, n: nat, intent: bool)
    requires Reading(s, n, n)
    ensures ReadAll(s, n, intent) == Session([], Reset(s), Eof)
  {
  }

  lemma {:induction false} ReadRest(s: Store, got: nat, n: nat, intent: bool)
    requires Reading(s, got, n)
    ensures var r := ReadAll(s, got, intent);
      r.last == Eof && r.end == Reset(s) && Copied(r.bytes, s, got, n, intent)
    decreases n - got
  {
    if got == n {
      ReadAllStops(s, n, intent);
    } else {
      ReadAllUnrolls(s, got, n, intent);
      var k, t := if n - got < s.size then n - got else s.size, ReadFrom(s, got, Source(s, intent)).0;
      ReadRest(t, got + k, n, intent);
      CopiedJoins(s, t, got, k, n, intent, ReadAll(t, got + k, intent).bytes);
    }
  }

  lemma CopiedAt(bytes: seq<byte>, s: Store, n: nat, intent: bool, i: nat)
    requires WellFormed(s) && Copied(bytes, s, 0, n, intent) && i < n
    ensures |bytes| == n && From(s, i, intent) < |s.blocks| && bytes[i] == s.blocks[From(s, i, intent)][i % s.size]
  {
    assert bytes[i - 0] == bytes[i];
  }

  lemma CopiedJoins(s: Store, t: Store, got: nat, k: nat, n: nat, intent: bool, rest: seq<byte>)
    requires Reading(s, got, n) && got + k <= n && k <= s.size && got < n
    requires WellFormed(t) && t.w == s.w && t.blocks == s.blocks && t.size == s.size
    requires Copied(rest, t, got + k, n, intent)
    ensures Copied(s.blocks[Source(s, intent)][..k] + rest, s, got, n, intent)
  {
    var bytes := s.blocks[Source(s, intent)][..k] + rest;
    forall i | got <= i < n
      ensures From(s, i, intent) < |s.blocks| && bytes[i - got] == s.blocks[From(s, i, intent)][i % s.size]
    {
      if i < got + k {
        Advance(got, i - got, s.size);
      } else {
        assert From(t, i, intent) == From(s, i, intent);
      }
    }
  }

  // ---------------------------------------------------------------- round trips

  /** Write data in one session, then read in a fresh one. */
  function Cycle(s: Store, data: seq<byte>, intent: bool): Session
    requires WellFormed(s)
  {
    ReadAll(WriteAll(s, data, 0), 0, intent)
  }

  lemma CycleReads(s: Store, data: seq<byte>, intent: bool)
    requires AtReset(s) && 0 < |data| < Capacity(s)
    ensures var t, r := WriteAll(s, data, 0), Cycle(s, data, intent);
      && t.w == |data| / s.size && Filled(t.blocks, s.blocks, s.size, data, |data|)
      && r.last == Eof && r.end == Reset(t) && Copied(r.bytes, t, 0, |data|, intent)
  {
    WriteAllFills(s, data);
    WrittenIsReadable(WriteAll(s, data, 0), |data|);
    ReadRest(WriteAll(s, data, 0), 0, |data|, intent);
  }

  lemma WrittenIsReadable(t: Store, n: nat)
    requires Writing(t, n, n) && 0 < n < Capacity(t)
    ensures Reading(t, 0, n) && t.w == n / t.size
  {
    QuotientIs(0, t.size, 0, 0);
  }

  /** At the start of a block, or past all that is announced. */
  predicate Aligned(s: Store, off: nat) {
    WellFormed(s) && (off >= s.sizeToRead || (s.roff == 0 && off == s.size * s.cnt))
  }

  lemma AlignedRead(s: Store, off: nat, src: nat)
    requires Aligned(s, off) && src < |s.blocks|
    ensures var (t, res) := ReadFrom(s, off, src);
      && Reset(t) == Reset(s)
      && (if off >= s.sizeToRead then res == Eof && t == Reset(s)
          else res.Data? && 0 < |res.bytes| <= s.sizeToRead - off
               && Aligned(t, off + |res.bytes|) && t.sizeToRead == s.sizeToRead)
  {
    if off < s.sizeToRead && s.sizeToRead - off >= s.size {
      assert s.size * s.cnt + s.size == s.size * (s.cnt + 1);
    }
  }

  /** A session that starts aligned never faults: it ends at the end of the announced bytes, with
      everything reset, and returns no more than were announced. */
  lemma {:induction false} AlignedSession(s: Store, off: nat, intent: bool)
    requires Aligned(s, off)
    ensures var r := ReadAll(s, off, intent);
      && r.last == Eof && r.end == Reset(s)
      && |r.bytes| == if off < s.sizeToRead then s.sizeToRead - off else 0
    decreases s.sizeToRead - off
  {
    var (t, res) := ReadFrom(s, off, Source(s, intent));
    AlignedRead(s, off, Source(s, intent));
    hide ReadFrom;
    if off >= s.sizeToRead {
    } else {
      hide Aligned, Reset;
      AlignedSession(t, off + |res.bytes|, intent);
    }
  }

  /** Writing does not move the read cursor away from a block's start. */
  lemma {:induction false} WriteAllIsUnread(s: Store, data: seq<byte>, off: nat)
    requires WellFormed(s) && s.roff == 0 && s.cnt == 0
    ensures WriteAll(s, data, off).roff == 0 && WriteAll(s, data, off).cnt == 0
    decreases |data|
  {
    if data == [] {
    } else {
      WriteAllIsUnread(Write(s, data, off), data[Accepts(s, |data|)..], off + Accepts(s, |data|));
    }
  }

  /** A session returns exactly the announced number of bytes, which is at most what the message
      has beyond a full ring if it does not fit. */
  lemma CycleLength(s: Store, data: seq<byte>)
    requires AtReset(s)
    ensures var r, n := Cycle(s, data, false), WriteAll(s, data, 0).sizeToRead;
      && r.last == Eof && r.end == Reset(WriteAll(s, data, 0))
      && |r.bytes| == (if 0 < n then n else 0)
      && (|data| < Capacity(s) ==> n == |data|)
      && (|data| >= Capacity(s) ==> n <= |data| - Capacity(s))
  {
    WriteAllIsUnread(s, data, 0);
    AlignedSession(WriteAll(s, data, 0), 0, false);
    if data == [] {
    } else if |data| < Capacity(s) {
      WriteAllFills(s, data);
    } else {
      CountOverruns(s, data, 0, 0);
    }
  }

  /** Whatever the message, a session ends with the end of the file and leaves every cursor and
      counter as it was; it returns as many bytes as were written exactly when the message is
      smaller than the ring, and fewer otherwise. */
  lemma CycleRestores(s: Store, data: seq<byte>)
    requires AtReset(s)
    ensures var r := Cycle(s, data, false);
      && r.last == Eof && AtReset(r.end) && r.end == s.(blocks := r.end.blocks)
      && Capacity(r.end) == Capacity(s)
      && |r.bytes| <= |data| && (|r.bytes| == |data| <==> |data| < Capacity(s))
  {
    CycleLength(s, data);
    CapacityPositive(s);
    WriteAllKeepsShape(s, data, 0);
  }

  lemma CapacityPositive(s: Store)
    requires WellFormed(s)
    ensures Capacity(s) >= s.size > 0
  {
    CapacityIs(s);
    MulGap(s.size, |s.blocks|);
  }

  lemma WriteAllKeepsShape(s: Store, data: seq<byte>, off: nat)
    requires WellFormed(s)
    ensures Reset(WriteAll(s, data, off)) == Reset(s).(blocks := WriteAll(s, data, off).blocks)
  {
  }

  /** What byte i of the session is: the message's own unfinished last block, and behind it
      whatever the block held before. */
  function Echo(s: Store, data: seq<byte>, i: nat): byte
    requires WellFormed(s) && 0 < |data| < Capacity(s) && i < |data|
  {
    var b, j := |data| / s.size, i % s.size;
    BelowCapacity(|data|, |data|, s.size, |s.blocks|);
    PosOf(|data|, s.size);
    PosOrder(b, j, b, s.size);
    PosOrder(b, |data| % s.size, b, s.size);
    if j < |data| % s.size then data[Pos(b, j, s.size)] else s.blocks[b][j]
  }

  lemma EchoAt(s: Store, t: Store, data: seq<byte>, i: nat)
    requires WellFormed(s) && WellFormed(t) && t.size == s.size && i < |data| < Capacity(s)
    requires t.w == |data| / s.size && Filled(t.blocks, s.blocks, s.size, data, |data|)
    ensures t.blocks[t.w][i % s.size] == Echo(s, data, i)
  {
    PosOf(|data|, s.size);
    PosOrder(t.w, |data| % s.size, t.w, s.size);
    PosOrder(t.w, i % s.size, t.w, s.size);
  }

  lemma CycleEchoes(s: Store, data: seq<byte>)
    requires AtReset(s) && 0 < |data| < Capacity(s)
    ensures |Cycle(s, data, false).bytes| == |data|
    ensures forall i :: 0 <= i < |data| ==> Cycle(s, data, false).bytes[i] == Echo(s, data, i)
  {
    CycleReads(s, data, false);
    forall i | 0 <= i < |data|
      ensures Cycle(s, data, false).bytes[i] == Echo(s, data, i)
    {
      CopiedAt(Cycle(s, data, false).bytes, WriteAll(s, data, 0), |data|, false, i);
      EchoAt(s, WriteAll(s, data, 0), data, i);
    }
  }

  /** A message comes back unchanged exactly when each byte equals its echo; that holds for every
      message shorter than a block. */
  lemma RoundTripCondition(s: Store, data: seq<byte>)
    requires AtReset(s) && 0 < |data| < Capacity(s)
    ensures Cycle(s, data, false).bytes == data <==> forall i :: 0 <= i < |data| ==> data[i] == Echo(s, data, i)
    ensures |data| < s.size ==> Cycle(s, data, false).bytes == data
  {
    CycleEchoes(s, data);
    var n := |data|;
    if n < s.size {
      QuotientIs(n, s.size, 0, n);
      forall i | 0 <= i < n
        ensures data[i] == Echo(s, data, i)
      {
        QuotientIs(i, s.size, 0, i);
      }
    }
  }

  lemma ShortCycle(s: Store, data: seq<byte>)
    requires AtReset(s)
    ensures |data| < s.size ==> Cycle(s, data, false).bytes == data
  {
    if |data| < s.size {
      CapacityPositive(s);
      CycleRestores(s, data);
      if data != [] {
        RoundTripCondition(s, data);
      }
    }
  }

  /** All messages of a given length come back unchanged exactly when the length is below one block. */
  lemma RoundTripLengths(s: Store, n: nat)
    requires AtReset(s)
    ensures (forall data: seq<byte> :: |data| == n ==> Cycle(s, data, false).bytes == data) <==> n < s.size
  {
    if n < s.size {
      forall data: seq<byte> | |data| == n
        ensures Cycle(s, data, false).bytes == data
      {
        ShortCycle(s, data);
      }
    } else {
      var data := LostMessage(s, n);
      assert Cycle(s, data, false).bytes != data;
    }
  }

  /** A message of a whole block or more that does not come back: any of a full ring or more, and a
      chosen one otherwise. */
  lemma LostMessage(s: Store, n: nat) returns (data: seq<byte>)
    requires AtReset(s) && s.size <= n
    ensures |data| == n && Cycle(s, data, false).bytes != data
  {
    if n < Capacity(s) {
      BelowCapacity(n, n, s.size, |s.blocks|);
      var stale := s.blocks[n / s.size][0];
      var first: byte := if n % s.size > 0 || stale == 0 then 1 else 0;
      data := [first] + seq(n - 1, _ => 0);
      CycleEchoes(s, data);
      FirstEcho(s, data);
    } else {
      data := seq(n, _ => 0);
      CycleRestores(s, data);
    }
  }

  /** The first byte echoes either a byte of a later block or the stale block. */
  lemma FirstEcho(s: Store, data: seq<byte>)
    requires WellFormed(s) && s.size <= |data| < Capacity(s)
    ensures |data| / s.size < |s.blocks|
    ensures if |data| % s.size > 0 then exists at :: 0 < at < |data| && Echo(s, data, 0) == data[at]
            else Echo(s, data, 0) == s.blocks[|data| / s.size][0]
  {
    var b := |data| / s.size;
    BelowCapacity(|data|, |data|, s.size, |s.blocks|);
    QuotientIs(0, s.size, 0, 0);
    QuotientPositive(|data|, s.size);
    PosOf(|data|, s.size);
    PosOrder(b, |data| % s.size, b, s.size);
    PosOrder(b, 0, 0, s.size);
    assert Echo(s, data, 0) == if 0 < |data| % s.size then data[Pos(b, 0, s.size)] else s.blocks[b][0];
  }

  /** Were the bytes copied from the block under the read cursor, every message that fits would come
      back unchanged. This is about the apparent intent, not the code. */
  lemma IntentRoundTrip(s: Store, data: seq<byte>)
    requires AtReset(s) && 0 < |data| < Capacity(s)
    ensures Cycle(s, data, true).bytes == data
  {
    CycleReads(s, data, true);
    forall i | 0 <= i < |data|
      ensures Cycle(s, data, true).bytes[i] == data[i]
    {
      CopiedAt(Cycle(s, data, true).bytes, WriteAll(s, data, 0), |data|, true, i);
      SlotHolds(s, WriteAll(s, data, 0), data, i);
    }
  }

  lemma SlotHolds(s: Store, t: Store, data: seq<byte>, i: nat)
    requires WellFormed(s) && i < |data| && Filled(t.blocks, s.blocks, s.size, data, |data|)
    requires i / s.size < |t.blocks|
    ensures t.blocks[i / s.size][i % s.size] == data[i]
  {
    PosOf(i, s.size);
  }

  // ---------------------------------------------------------------- any number of cycles

  /** The outputs of consecutive write/read cycles. */
  function Cycles(s: Store, messages: seq<seq<byte>>): seq<seq<byte>>
    requires WellFormed(s)
    decreases messages
  {
    if messages == [] then [] else
      var r := Cycle(s, messages[0], false);
      [r.bytes] + Cycles(r.end, messages[1..])
  }

  lemma {:induction false} CyclesReadBack(s: Store, messages: seq<seq<byte>>)
    requires AtReset(s)
    ensures var out := Cycles(s, messages);
      && |out| == |messages|
      && (forall k :: 0 <= k < |out| ==> |out[k]| <= |messages[k]|)
      && (forall k :: 0 <= k < |out| ==> (|out[k]| == |messages[k]| <==> |messages[k]| < Capacity(s)))
      && (forall k :: 0 <= k < |out| && |messages[k]| < s.size ==> out[k] == messages[k])
    decreases messages
  {
    hide Cycle, Capacity;
    if messages == [] {
    } else {
      var r := Cycle(s, messages[0], false);
      CycleRestores(s, messages[0]);
      ShortCycle(s, messages[0]);
      CyclesReadBack(r.end, messages[1..]);
    }
  }
}
