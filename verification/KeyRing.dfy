/** The 256-slot character ring between the key interrupt and the blocking reader. The interrupt
    never checks for overflow; this says exactly what that costs. */
module KeyRing {
  import opened Common
  import opened Arithmetic

  const SLOTS := 256

  datatype Ring = Ring(buf: seq<char>, rd: nat, wr: nat)

  predicate WellFormed(r: Ring) {
    |r.buf| == SLOTS && r.rd < SLOTS && r.wr < SLOTS
  }

  function Bump(k: nat): nat {
    if k + 1 >= SLOTS then 0 else k + 1
  }

  /** The key state is read as pressed only when the line is 1. */
  function KeyChar(val: int): char {
    if val == 1 then 'P' else 'R'
  }

  function Press(r: Ring, val: int): (t: Ring)
    requires WellFormed(r)
    ensures WellFormed(t)
  {
    r.(buf := r.buf[r.wr := KeyChar(val)], wr := Bump(r.wr))
  }

  /** How a read call ends once it has been started. */
  datatype Outcome = Interrupted | CopyFault | Copied

  /** A read sleeps while the ring looks empty; only a completed copy consumes the character. */
  function ReadChar(r: Ring, o: Outcome): (t: (Ring, Option<char>))
    requires WellFormed(r)
    ensures WellFormed(t.0)
  {
    if r.rd != r.wr && o == Copied then (r.(rd := Bump(r.rd)), Some(r.buf[r.rd])) else (r, None)
  }

  datatype Event = Key(val: int) | Read(o: Outcome)

  /** The ring, all key events so far, and all characters handed to the reader. */
  datatype State = State(ring: Ring, keys: seq<char>, out: seq<char>)

  function Next(s: State, e: Event): (t: State)
    requires WellFormed(s.ring)
    ensures WellFormed(t.ring)
  {
    match e
    case Key(val) => State(Press(s.ring, val), s.keys + [KeyChar(val)], s.out)
    case Read(o) =>
      var (ring, c) := ReadChar(s.ring, o);
      State(ring, s.keys, if c.Some? then s.out + [c.value] else s.out)
  }

  function Run(s: State, run: seq<Event>): (t: State)
    requires WellFormed(s.ring)
    ensures WellFormed(t.ring)
    decreases run
  {
    if run == [] then s else Run(Next(s, run[0]), run[1..])
  }

  predicate Init(s: State) {
    WellFormed(s.ring) && s.ring.rd == 0 && s.ring.wr == 0 && s.keys == [] && s.out == []
  }

  // ---------------------------------------------------------------- the lossy queue

  /** What the ring amounts to: a queue of event numbers that forgets all it holds when the 256th
      unread event arrives. first is the oldest unread event. */
  datatype Lossy = Lossy(total: nat, first: nat, lost: nat, delivered: seq<nat>)

  function Unread(q: Lossy): int {
    q.total - q.first
  }

  function LossyKey(q: Lossy): Lossy {
    if Unread(q) == SLOTS - 1 then q.(total := q.total + 1, first := q.total + 1, lost := q.lost + 1)
    else q.(total := q.total + 1)
  }

  function LossyRead(q: Lossy, o: Outcome): Lossy {
    if Unread(q) > 0 && o == Copied then q.(first := q.first + 1, delivered := q.delivered + [q.first]) else q
  }

  function LossyNext(q: Lossy, e: Event): Lossy {
    if e.Key? then LossyKey(q) else LossyRead(q, e.o)
  }

  function LossyRun(q: Lossy, run: seq<Event>): Lossy
    decreases run
  {
    if run == [] then q else LossyRun(LossyNext(q, run[0]), run[1..])
  }

  const EMPTY := Lossy(0, 0, 0, [])

  /** The ring is that queue: cursors modulo 256, and the unread events in their slots. */
  predicate Refines(s: State, q: Lossy) {
    && WellFormed(s.ring)
    && |s.keys| == q.total && HasRoom(q)
    && At(s.ring.wr, q.total) && At(s.ring.rd, q.first)
    && (forall i :: q.first <= i < q.total ==> s.ring.buf[i % SLOTS] == s.keys[i])
    && Selected(s.out, s.keys, q.delivered)
  }

  /** A cursor that has been moved n times. */
  predicate At(cursor: nat, n: nat) {
    cursor == n % SLOTS
  }

  predicate HasRoom(q: Lossy) {
    0 <= Unread(q) < SLOTS
  }

  /** out holds the characters numbered d. */
  predicate Selected(out: seq<char>, keys: seq<char>, d: seq<nat>) {
    |out| == |d| && forall k :: 0 <= k < |out| ==> d[k] < |keys| && out[k] == keys[d[k]]
  }

  lemma BumpIsNext(k: nat)
    ensures Bump(k % SLOTS) == (k + 1) % SLOTS
  {
    var q, m := k / SLOTS, k % SLOTS;
    QuotientIs(k + 1, SLOTS, if m + 1 == SLOTS then q + 1 else q, Bump(m));
  }

  lemma SlotsApart(i: nat, j: nat)
    requires i < j < i + SLOTS
    ensures i % SLOTS != j % SLOTS
  {
  }

  lemma KeyRefines(s: State, q: Lossy, val: int)
    requires Refines(s, q)
    ensures Refines(Next(s, Key(val)), LossyKey(q))
  {
    BumpIsNext(q.total);
    var t, r := Next(s, Key(val)), LossyKey(q);
    KeyKeepsSlots(s, q, val);
    assert t.ring.rd == r.first % SLOTS by {
      if r.first != q.first {
        assert q.total + 1 == q.first + SLOTS;
        BatchesWrap(q.first, 1);
      }
    }
    forall k | 0 <= k < |t.out|
      ensures r.delivered[k] < r.total && t.out[k] == t.keys[r.delivered[k]]
    {
      assert s.out[k] == s.keys[q.delivered[k]];
    }
  }

  lemma KeyKeepsSlots(s: State, q: Lossy, val: int)
    requires Refines(s, q)
    ensures var t := Next(s, Key(val));
      forall i :: q.first <= i <= q.total && q.total < i + SLOTS ==> t.ring.buf[i % SLOTS] == t.keys[i]
  {
    var t := Next(s, Key(val));
    forall i | q.first <= i <= q.total && q.total < i + SLOTS
      ensures t.ring.buf[i % SLOTS] == t.keys[i]
    {
      if i < q.total {
        SlotsApart(i, q.total);
        assert s.ring.buf[i % SLOTS] == s.keys[i];
      }
    }
  }

  lemma BatchesWrap(n: nat, lost: nat)
    ensures (n + SLOTS * lost) % SLOTS == n % SLOTS && (n + SLOTS * lost - n) % SLOTS == 0
  {
  }

  /** A read that is started and copied takes the oldest unread event. */
  lemma ReadTakesOldest(s: State, q: Lossy)
    requires Refines(s, q)
    ensures s.ring.rd == s.ring.wr <==> Unread(q) == 0
    ensures Unread(q) > 0 ==> Bump(s.ring.rd) == (q.first + 1) % SLOTS && s.ring.buf[s.ring.rd] == s.keys[q.first]
  {
    if q.first < q.total {
      SlotsApart(q.first, q.total);
      BumpIsNext(q.first);
    }
  }

  lemma ReadRefines(s: State, q: Lossy, o: Outcome)
    requires Refines(s, q)
    ensures Refines(Next(s, Read(o)), LossyRead(q, o))
  {
    ReadTakesOldest(s, q);
    hide Bump;
  }

  lemma {:induction false} RunRefines(s: State, q: Lossy, run: seq<Event>)
    requires Refines(s, q)
    ensures Refines(Run(s, run), LossyRun(q, run))
    decreases run
  {
    if run == [] {
    } else {
      match run[0] {
        case Key(val) => KeyRefines(s, q, val);
        case Read(o) => ReadRefines(s, q, o);
      }
      RunRefines(Next(s, run[0]), LossyNext(q, run[0]), run[1..]);
    }
  }

  lemma InitRefines(s: State)
    requires Init(s)
    ensures Refines(s, EMPTY)
  {
  }

  /** From the start. */
  lemma StartRefines(s: State, run: seq<Event>)
    requires Init(s)
    ensures Refines(Run(s, run), LossyRun(EMPTY, run))
  {
    InitRefines(s);
    RunRefines(s, EMPTY, run);
  }

  lemma {:induction false} RunJoins(s: State, a: seq<Event>, b: seq<Event>)
    requires WellFormed(s.ring)
    ensures Run(s, a + b) == Run(Run(s, a), b)
    decreases a
  {
    if a == [] {
      assert a + b == b;
    } else {
      RunJoins(Next(s, a[0]), a[1..], b);
      assert (a + b)[1..] == a[1..] + b;
    }
  }

  lemma {:induction false} LossyJoins(q: Lossy, a: seq<Event>, b: seq<Event>)
    ensures LossyRun(q, a + b) == LossyRun(LossyRun(q, a), b)
    decreases a
  {
    if a == [] {
      assert a + b == b;
    } else {
      LossyJoins(LossyNext(q, a[0]), a[1..], b);
      assert (a + b)[1..] == a[1..] + b;
    }
  }

  /** A read that was interrupted or whose copy failed. */
  predicate Fails(e: Event) {
    e.Read? && e.o != Copied
  }

  /** The run without its failed reads. */
  function Successful(run: seq<Event>): seq<Event>
    decreases run
  {
    if run == [] then [] else (if Fails(run[0]) then [] else [run[0]]) + Successful(run[1..])
  }

  /** Failed reads leave no trace: without them a run ends in the same state. */
  lemma {:induction false} FailedReadsAreLost(s: State, run: seq<Event>)
    requires WellFormed(s.ring)
    ensures Run(s, Successful(run)) == Run(s, run)
    decreases run
  {
    if run == [] {
    } else {
      FailedReadsAreLost(Next(s, run[0]), run[1..]);
      if Fails(run[0]) {
        assert Next(s, run[0]) == s && Successful(run) == Successful(run[1..]);
      } else {
        assert Successful(run)[1..] == Successful(run[1..]);
      }
    }
  }

  // ---------------------------------------------------------------- what the queue delivers

  /** delivered events come in order, each once; between what is delivered and the next event to
      deliver lie whole batches of 256. */
  predicate Accounted(q: Lossy) {
    && HasRoom(q) && Settled(q)
    && Increasing(q.delivered) && InBatches(q.delivered) && Below(q.delivered, q.first)
  }

  /** Every event before the oldest unread one was delivered or lost in a batch. */
  predicate Settled(q: Lossy) {
    q.first == |q.delivered| + SLOTS * q.lost
  }

  predicate Below(d: seq<nat>, bound: nat) {
    forall k :: 0 <= k < |d| ==> d[k] < bound
  }

  predicate Increasing(d: seq<nat>) {
    forall j, k :: 0 <= j < k < |d| ==> d[j] < d[k]
  }

  /** Before each number whole batches are missing. */
  predicate InBatches(d: seq<nat>) {
    forall k :: 0 <= k < |d| ==> WholeBatches(d[k] - k)
  }

  predicate WholeBatches(n: int) {
    n >= 0 && n % SLOTS == 0
  }

  lemma ReadAccounts(q: Lossy, o: Outcome)
    requires Accounted(q)
    ensures Accounted(LossyRead(q, o))
  {
    BatchesWrap(|q.delivered|, q.lost);
  }

  lemma KeyAccounts(q: Lossy)
    requires Accounted(q)
    ensures Accounted(LossyKey(q))
  {
  }

  lemma {:induction false} RunAccounts(q: Lossy, run: seq<Event>)
    requires Accounted(q)
    ensures Accounted(LossyRun(q, run))
    decreases run
  {
    if run == [] {
    } else {
      match run[0] {
        case Key(_) => KeyAccounts(q);
        case Read(o) => ReadAccounts(q, o);
      }
      RunAccounts(LossyNext(q, run[0]), run[1..]);
    }
  }

  function KeyOf(e: Event): seq<char> {
    if e.Key? then [KeyChar(e.val)] else []
  }

  lemma StartAccounts(run: seq<Event>)
    ensures Accounted(LossyRun(EMPTY, run))
  {
    assert Accounted(EMPTY);
    hide Accounted;
    RunAccounts(EMPTY, run);
  }

  /** The characters of the key events of a run. */
  function Keys(run: seq<Event>): seq<char>
    decreases run
  {
    if run == [] then [] else KeyOf(run[0]) + Keys(run[1..])
  }

  lemma NextKeys(s: State, e: Event)
    requires WellFormed(s.ring)
    ensures Next(s, e).keys == s.keys + KeyOf(e)
  {
  }

  lemma {:induction false} KeysGrow(s: State, run: seq<Event>)
    requires WellFormed(s.ring)
    ensures Run(s, run).keys == s.keys + Keys(run)
    decreases run
  {
    if run == [] {
      assert s.keys + [] == s.keys;
    } else {
      NextKeys(s, run[0]);
      KeysGrow(Next(s, run[0]), run[1..]);
      Associate(s.keys, KeyOf(run[0]), Keys(run[1..]));
    }
  }

  /** out holds the characters of the events numbered delivered: in order, each at most once, with
      gaps of whole batches of 256, lost of them so far. */
  predicate Subsequence(out: seq<char>, keys: seq<char>, q: Lossy) {
    && |keys| == |out| + SLOTS * q.lost + Unread(q)
    && HasRoom(q)
    && Increasing(q.delivered) && InBatches(q.delivered)
    && Selected(out, keys, q.delivered)
  }

  lemma RefinesSubsequence(s: State, q: Lossy)
    requires Refines(s, q) && Accounted(q)
    ensures Subsequence(s.out, s.keys, q)
  {
  }

  /** For every run: the characters read are key events of the run in order and each at most once,
      and every missing event belongs to one of lost batches of exactly 256. */
  lemma ReadsAreOrderedSubsequence(s: State, run: seq<Event>)
    requires Init(s)
    ensures Subsequence(Run(s, run).out, Keys(run), LossyRun(EMPTY, run))
  {
    StartRefines(s, run);
    StartAccounts(run);
    RefinesSubsequence(Run(s, run), LossyRun(EMPTY, run));
    KeysGrow(s, run);
    assert s.keys + Keys(run) == Keys(run);
  }

  /** The values the interrupts of a run read from the line. */
  function Values(run: seq<Event>): seq<int>
    decreases run
  {
    if run == [] then [] else (if run[0].Key? then [run[0].val] else []) + Values(run[1..])
  }

  lemma {:induction false} KeysTellValues(run: seq<Event>)
    ensures |Keys(run)| == |Values(run)|
    ensures forall k :: 0 <= k < |Values(run)| ==> Keys(run)[k] == if Values(run)[k] == 1 then 'P' else 'R'
    decreases run
  {
    if run == [] {
    } else {
      KeysTellValues(run[1..]);
    }
  }

  /** out holds P for each value 1, and R for each other one, of those numbered d. */
  predicate Tells(out: seq<char>, values: seq<int>, d: seq<nat>) {
    |out| == |d| && forall k :: 0 <= k < |out| ==> d[k] < |values| && out[k] == if values[d[k]] == 1 then 'P' else 'R'
  }

  /** For every run: a character read is 'P' iff the line read 1 at the event it stands for, and 'R'
      otherwise. */
  lemma CharactersTellLevels(s: State, run: seq<Event>)
    requires Init(s)
    ensures Tells(Run(s, run).out, Values(run), LossyRun(EMPTY, run).delivered)
  {
    ReadsAreOrderedSubsequence(s, run);
    KeysTellValues(run);
  }

  // ---------------------------------------------------------------- what an overrun costs

  /** The event fills the last free slot: the write index runs into the read index. */
  predicate Overruns(r: Ring, e: Event) {
    e.Key? && Bump(r.wr) == r.rd
  }

  lemma OverrunMeansFull(s: State, q: Lossy, e: Event)
    requires Refines(s, q)
    ensures Overruns(s.ring, e) <==> e.Key? && Unread(q) == SLOTS - 1
  {
    BumpIsNext(q.total);
    if Unread(q) < SLOTS - 1 {
      SlotsApart(q.first, q.total + 1);
    } else {
      BatchesWrap(q.first, 1);
    }
  }

  /** q1 is q0 with base events and the deliveries d before it, all of them forgotten. */
  predicate Shifted(q1: Lossy, q0: Lossy, base: nat, d: seq<nat>) {
    && q1.total == q0.total + base && q1.first == q0.first + base
    && |q1.delivered| == |d| + |q0.delivered|
    && (forall k :: 0 <= k < |d| ==> q1.delivered[k] == d[k])
    && (forall k :: 0 <= k < |q0.delivered| ==> q1.delivered[|d| + k] == q0.delivered[k] + base)
  }

  lemma NextShifts(q1: Lossy, q0: Lossy, base: nat, d: seq<nat>, e: Event)
    requires Shifted(q1, q0, base, d)
    ensures Shifted(LossyNext(q1, e), LossyNext(q0, e), base, d)
  {
  }

  lemma {:induction false} RunShifts(q1: Lossy, q0: Lossy, base: nat, d: seq<nat>, run: seq<Event>)
    requires Shifted(q1, q0, base, d)
    ensures Shifted(LossyRun(q1, run), LossyRun(q0, run), base, d)
    decreases run
  {
    if run == [] {
    } else {
      NextShifts(q1, q0, base, d, run[0]);
      RunShifts(LossyNext(q1, run[0]), LossyNext(q0, run[0]), base, d, run[1..]);
    }
  }

  lemma ShiftedReads(a: State, qa: Lossy, b: State, qb: Lossy, c: State, qc: Lossy)
    requires Refines(a, qa) && Refines(b, qb) && Refines(c, qc)
    requires c.keys == a.keys + b.keys && Shifted(qc, qb, qa.total, qa.delivered)
    ensures c.out == a.out + b.out
  {
    forall k | 0 <= k < |c.out|
      ensures c.out[k] == (a.out + b.out)[k]
    {
      assert c.out[k] == c.keys[qc.delivered[k]];
      if k >= |a.out| {
        assert qc.delivered[|a.out| + (k - |a.out|)] == qb.delivered[k - |a.out|] + qa.total;
        assert b.out[k - |a.out|] == b.keys[qb.delivered[k - |a.out|]];
      } else {
        assert a.out[k] == a.keys[qa.delivered[k]];
      }
    }
  }

  lemma EmptyRunShifts(q: Lossy, cont: seq<Event>)
    requires Unread(q) == 0
    ensures Shifted(LossyRun(q, cont), LossyRun(EMPTY, cont), q.total, q.delivered)
  {
    RunShifts(q, EMPTY, q.total, q.delivered, cont);
  }

  lemma KeysFollow(s: State, f: State, cont: seq<Event>)
    requires WellFormed(s.ring) && Init(f)
    ensures Run(s, cont).keys == s.keys + Run(f, cont).keys
  {
    KeysGrow(s, cont);
    KeysGrow(f, cont);
    assert f.keys + Keys(cont) == Keys(cont);
  }

  /** From a ring that looks empty on, the reader sees what it would see of a fresh ring. */
  lemma EmptyRingForgets(s: State, q: Lossy, f: State, cont: seq<Event>)
    requires Refines(s, q) && Unread(q) == 0 && Init(f)
    ensures Run(s, cont).out == s.out + Run(f, cont).out
  {
    RunRefines(s, q, cont);
    StartRefines(f, cont);
    EmptyRunShifts(q, cont);
    KeysFollow(s, f, cont);
    ShiftedReads(s, q, Run(f, cont), LossyRun(EMPTY, cont), Run(s, cont), LossyRun(q, cont));
  }

  /** n reads that all succeed if there is something to read. */
  function Reads(n: nat): seq<Event> {
    if n == 0 then [] else [Read(Copied)] + Reads(n - 1)
  }

  lemma NextRead(s: State, q: Lossy)
    requires Refines(s, q) && Unread(q) > 0
    ensures var t := Next(s, Read(Copied)); t.keys == s.keys && t.out == s.out + [s.keys[q.first]]
  {
    SlotsApart(q.first, q.total);
    assert s.ring.buf[s.ring.rd] == s.keys[q.first];
  }

  /** What has been read, followed by the events from number first on. */
  function ReadAndRest(s: State, first: nat): seq<char>
    requires first <= |s.keys|
  {
    s.out + s.keys[first..]
  }

  lemma ReadMovesOn(s: State, t: State, first: nat)
    requires first < |s.keys| && t.keys == s.keys && t.out == s.out + [s.keys[first]]
    ensures ReadAndRest(t, first + 1) == ReadAndRest(s, first)
  {
    assert s.keys[first..] == [s.keys[first]] + s.keys[first + 1..];
  }

  lemma NothingUnread(s: State, q: Lossy)
    requires Refines(s, q) && Unread(q) == 0
    ensures WellFormed(s.ring) && Run(s, Reads(0)) == s
    ensures q.first <= |s.keys| && ReadAndRest(s, q.first) == s.out
  {
    assert s.keys[q.first..] == [];
  }

  lemma ReadsUnroll(s: State, n: nat)
    requires WellFormed(s.ring) && n > 0
    ensures Run(s, Reads(n)) == Run(Next(s, Read(Copied)), Reads(n - 1))
  {
    assert Reads(n)[1..] == Reads(n - 1);
  }

  lemma ReadOne(s: State, q: Lossy, n: nat) returns (t: State, r: Lossy)
    requires Refines(s, q) && n == Unread(q) > 0
    ensures WellFormed(s.ring) && WellFormed(t.ring) && q.first <= |s.keys| && r.first <= |t.keys|
    ensures Refines(t, r) && Unread(r) == n - 1
    ensures ReadAndRest(t, r.first) == ReadAndRest(s, q.first)
    ensures Run(s, Reads(n)) == Run(t, Reads(n - 1))
  {
    t, r := Next(s, Read(Copied)), LossyRead(q, Copied);
    ReadKeepsUnread(s, q, Copied);
    ReadsUnroll(s, n);
  }

  /** Reading on delivers all that is unread, oldest first. */
  lemma {:induction false} ReadsCatchUp(s: State, q: Lossy, n: nat)
    requires Refines(s, q) && n == Unread(q)
    ensures Run(s, Reads(n)).out == ReadAndRest(s, q.first)
    decreases n
  {
    hide Refines, Run, Reads, ReadAndRest, Unread;
    if n == 0 {
      NothingUnread(s, q);
    } else {
      var t, r := ReadOne(s, q, n);
      ReadsCatchUp(t, r, n - 1);
    }
  }

  /** What has been read together with what is unread only grows by the new event. */
  lemma NextKeepsUnread(s: State, q: Lossy, e: Event)
    requires Refines(s, q) && !Overruns(s.ring, e)
    ensures var t, r := Next(s, e), LossyNext(q, e);
      && q.first <= r.first <= |t.keys| && Refines(t, r)
      && ReadAndRest(t, r.first) == s.out + t.keys[q.first..]
  {
    match e
    case Key(val) =>
      OverrunMeansFull(s, q, e);
      KeyRefines(s, q, val);
    case Read(o) => ReadKeepsUnread(s, q, o);
  }

  lemma ReadKeepsUnread(s: State, q: Lossy, o: Outcome)
    requires Refines(s, q)
    ensures var t, r := Next(s, Read(o)), LossyRead(q, o);
      && q.first <= r.first <= |t.keys| && Refines(t, r) && t.keys == s.keys
      && ReadAndRest(t, r.first) == ReadAndRest(s, q.first)
  {
    ReadRefines(s, q, o);
    if o == Copied && Unread(q) > 0 {
      NextRead(s, q);
      ReadMovesOn(s, Next(s, Read(o)), q.first);
    }
  }

  /** When a key event overruns the ring it costs exactly 256 events, itself and the 255 unread:
      whatever happens later, the reader gets what it had and then what a fresh ring would give it.
      After any other event nothing unread is lost: reading on delivers all of it, in order. */
  lemma LossHappensAtOverrun(s: State, run: seq<Event>, e: Event, cont: seq<Event>)
    requires Init(s)
    ensures var before, first := Run(s, run), LossyRun(EMPTY, run).first;
      var after := Next(before, e);
      && first <= |before.keys|
      && (Overruns(before.ring, e) ==>
            |after.keys| - first == SLOTS && Run(after, cont).out == before.out + Run(s, cont).out)
      && (!Overruns(before.ring, e) ==>
            exists n :: Run(after, Reads(n)).out == before.out + after.keys[first..])
  {
    var before, q := Run(s, run), LossyRun(EMPTY, run);
    var after, r := Next(before, e), LossyNext(q, e);
    StartRefines(s, run);
    if Overruns(before.ring, e) {
      OverrunMeansFull(before, q, e);
      KeyRefines(before, q, e.val);
      EmptyRingForgets(after, r, s, cont);
    } else {
      NextKeepsUnread(before, q, e);
      ReadsCatchUp(after, r, Unread(r));
    }
  }

  lemma ForgottenNumbers(q: Lossy, r: Lossy, cont: seq<Event>)
    requires Accounted(q) && Unread(r) == 0 && r.delivered == q.delivered
    ensures forall k :: 0 <= k < |LossyRun(r, cont).delivered| ==>
      LossyRun(r, cont).delivered[k] < q.first || r.total <= LossyRun(r, cont).delivered[k]
  {
    EmptyRunShifts(r, cont);
    var later, alone := LossyRun(r, cont), LossyRun(EMPTY, cont);
    forall k | 0 <= k < |later.delivered|
      ensures later.delivered[k] < q.first || r.total <= later.delivered[k]
    {
      if k >= |q.delivered| {
        assert later.delivered[|q.delivered| + (k - |q.delivered|)] == alone.delivered[k - |q.delivered|] + r.total;
      }
    }
  }

  /** By number: none of the 256 events unread at an overrun is ever delivered. */
  lemma OverrunIsForGood(s: State, run: seq<Event>, e: Event, cont: seq<Event>)
    requires Init(s) && Overruns(Run(s, run).ring, e)
    ensures var q, later := LossyRun(EMPTY, run), LossyRun(EMPTY, run + ([e] + cont));
      forall k :: 0 <= k < |later.delivered| ==> !(q.first <= later.delivered[k] < q.first + SLOTS)
  {
    var q := LossyRun(EMPTY, run);
    StartRefines(s, run);
    OverrunMeansFull(Run(s, run), q, e);
    StartAccounts(run);
    LossyJoins(EMPTY, run, [e] + cont);
    assert ([e] + cont)[1..] == cont;
    ForgottenNumbers(q, LossyNext(q, e), cont);
  }

  /** n presses of the key. */
  function Presses(n: nat): seq<Event> {
    if n == 0 then [] else [Key(1)] + Presses(n - 1)
  }

  lemma {:induction false} PressesPileUp(q: Lossy, n: nat)
    requires 0 <= Unread(q) && Unread(q) + n < SLOTS
    ensures LossyRun(q, Presses(n)) == q.(total := q.total + n)
    decreases n
  {
    if n == 0 {
    } else {
      PressesPileUp(LossyKey(q), n - 1);
      assert Presses(n)[1..] == Presses(n - 1);
    }
  }

  lemma {:induction false} NothingToRead(s: State, n: nat)
    requires WellFormed(s.ring) && s.ring.rd == s.ring.wr
    ensures Run(s, Reads(n)) == s
  {
    if n == 0 {
    } else {
      NothingToRead(s, n - 1);
      assert Reads(n)[1..] == Reads(n - 1);
    }
  }

  /** The shortest run that loses: after 256 presses no number of reads returns anything. */
  lemma SilentAfter256(s: State, n: nat)
    requires Init(s)
    ensures var silent := Run(s, Presses(255) + [Key(1)]);
      |silent.keys| == 256 && Run(silent, Reads(n)).out == []
  {
    var full, q := Run(s, Presses(255)), LossyRun(EMPTY, Presses(255));
    PressesPileUp(EMPTY, 255);
    StartRefines(s, Presses(255));
    RunJoins(s, Presses(255), [Key(1)]);
    OneEvent(full, Key(1));
    OverrunMeansFull(full, q, Key(1));
    LossHappensAtOverrun(s, Presses(255), Key(1), Reads(n));
    NothingToRead(s, n);
  }

  lemma OneEvent(s: State, e: Event)
    requires WellFormed(s.ring)
    ensures Run(s, [e]) == Next(s, e)
  {
    assert Run(Next(s, e), []) == Next(s, e);
  }

  // ---------------------------------------------------------------- when nothing is lost

  /** The reader never runs ahead and never falls more than 255 events behind, at any time. */
  predicate KeepsUp(s: State, run: seq<Event>)
    requires WellFormed(s.ring)
  {
    forall n :: 0 <= n <= |run| ==> |Run(s, run[..n]).keys| - |Run(s, run[..n]).out| < SLOTS
  }

  lemma LostMeansBehind(s: State, run: seq<Event>)
    requires Init(s)
    ensures LossyRun(EMPTY, run).lost == 0 <==> |Run(s, run).keys| - |Run(s, run).out| < SLOTS
  {
    StartRefines(s, run);
    StartAccounts(run);
  }

  lemma {:induction false} LostGrows(q: Lossy, run: seq<Event>)
    ensures LossyRun(q, run).lost >= q.lost
    decreases run
  {
    if run == [] {
    } else {
      LostGrows(LossyNext(q, run[0]), run[1..]);
    }
  }

  lemma LostGrowsFrom(run: seq<Event>, n: nat)
    requires n <= |run|
    ensures LossyRun(EMPTY, run[..n]).lost <= LossyRun(EMPTY, run).lost
  {
    assert run[..n] + run[n..] == run;
    LossyJoins(EMPTY, run[..n], run[n..]);
    LostGrows(LossyRun(EMPTY, run[..n]), run[n..]);
  }

  /** Delivered are the first events, none skipped. */
  predicate InSequence(q: Lossy) {
    |q.delivered| == q.first && forall k :: 0 <= k < |q.delivered| ==> q.delivered[k] == k
  }

  lemma {:induction false} StaysInSequence(q: Lossy, run: seq<Event>)
    requires InSequence(q) && LossyRun(q, run).lost == 0
    ensures InSequence(LossyRun(q, run))
    decreases run
  {
    LostGrows(q, run);
    if run == [] {
    } else {
      LostGrows(LossyNext(q, run[0]), run[1..]);
      StaysInSequence(LossyNext(q, run[0]), run[1..]);
    }
  }

  lemma InSequenceIsPrefix(s: State, q: Lossy)
    requires Refines(s, q) && InSequence(q)
    ensures s.out <= s.keys
  {
    forall k | 0 <= k < |s.out|
      ensures s.out[k] == s.keys[k]
    {
      assert s.out[k] == s.keys[q.delivered[k]];
    }
  }

  /** The ring is a loss-free first-in first-out queue exactly for the runs in which at most 255
      events are unread at all times. */
  lemma LosslessIff(s: State, run: seq<Event>)
    requires Init(s)
    ensures KeepsUp(s, run) <==> LossyRun(EMPTY, run).lost == 0
    ensures KeepsUp(s, run) ==> Run(s, run).out <= Run(s, run).keys
  {
    assert run[..|run|] == run;
    LostMeansBehind(s, run);
    forall n | 0 <= n <= |run|
      ensures LossyRun(EMPTY, run[..n]).lost <= LossyRun(EMPTY, run).lost
      ensures LossyRun(EMPTY, run[..n]).lost == 0 <==> |Run(s, run[..n]).keys| - |Run(s, run[..n]).out| < SLOTS
    {
      LostGrowsFrom(run, n);
      LostMeansBehind(s, run[..n]);
    }
    if LossyRun(EMPTY, run).lost == 0 {
      StartRefines(s, run);
      StaysInSequence(EMPTY, run);
      InSequenceIsPrefix(Run(s, run), LossyRun(EMPTY, run));
    }
  }

  // ---------------------------------------------------------------- the driver

  class KeyDevice {
    const buf: array<char>
    var rd: nat
    var wr: nat

    ghost predicate Valid()
      reads this
    {
      buf.Length == SLOTS && rd < SLOTS && wr < SLOTS
    }

    ghost function Abs(): Ring
      reads this, buf
    {
      Ring(buf[..], rd, wr)
    }

    constructor ()
      ensures Valid() && fresh(buf) && Init(State(Abs(), [], []))
    {
      buf := new char[SLOTS](_ => '\0');
      rd, wr := 0, 0;
    }

    /** hello_keys_isr */
    method Isr(val: int)
      requires Valid()
      modifies this, buf
      ensures Valid() && Abs() == Press(old(Abs()), val)
    {
      buf[wr] := if val == 1 then 'P' else 'R';
      wr := wr + 1;
      if wr >= SLOTS {
        wr := 0;
      }
    }

    /** my_dev_read, once it has been woken or interrupted. */
    method MyRead(o: Outcome) returns (c: Option<char>)
      requires Valid()
      modifies this
      ensures Valid() && (Abs(), c) == ReadChar(old(Abs()), o)
    {
      if rd == wr || o.Interrupted? {
        return None;
      }
      var ch := buf[rd];
      if o.CopyFault? {
        return None;
      }
      rd := rd + 1;
      if rd >= SLOTS {
        rd := 0;
      }
      return Some(ch);
    }
  }
}
