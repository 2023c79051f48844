/** Writing a message when copies from user space may fail: the writer tries again with what is left. */
module BlockRingRetries {
  import opened Common
  import opened Arithmetic
  import opened BlockRing
  import opened BlockRingSessions

  /** Where the tries of a session end, and how many bytes are still to be written then. */
  datatype Attempt = Attempt(end: Store, left: nat)

  /** A writer that passes what is left from file offset off; try k ends as tries[k] says. */
  function Retried(s: Store, rest: seq<byte>, off: nat, tries: seq<Copy>): (a: Attempt)
    requires WellFormed(s)
    ensures WellFormed(a.end) && a.end.size == s.size && |a.end.blocks| == |s.blocks|
    decreases tries
  {
    if rest == [] || tries == [] then Attempt(s, |rest|) else
      var c := Call(rest, off, tries[0]);
      Retried(WriteCall(s, c), rest[|Takes(s, c)|..], off + |Takes(s, c)|, tries[1..])
  }

  /** Tries up to and including the first that succeeds. */
  function Opening(tries: seq<Copy>): nat
    decreases tries
  {
    if tries == [] then 0 else if tries[0].Whole? then 1 else 1 + Opening(tries[1..])
  }

  // ---------------------------------------------------------------- after the first success

  /** Past the first success of a session of n bytes, whatever has been announced. */
  predicate Underway(s: Store, done: nat, n: nat) {
    0 < done && Writing(s.(sizeToRead := n), done, n)
  }

  lemma LaterCallsAreSilent(s: Store, done: nat, n: nat)
    requires Underway(s, done, n) && done < n
    ensures s.nodeCount != 1
  {
    MultiplePositive(done, s.size);
  }

  lemma FailureChangesNothing(s: Store, done: nat, n: nat, c: Call)
    requires Underway(s, done, n) && n == done + |c.data| && c.data != [] && c.off == done && c.copy.Failed?
    ensures Underway(WriteCall(s, c), done, n) && WriteCall(s, c).sizeToRead == s.sizeToRead && Takes(s, c) == []
  {
    LaterCallsAreSilent(s, done, n);
    FailedWriteAnnounces(s, c);
  }

  lemma SuccessGoesOn(s: Store, done: nat, n: nat, c: Call)
    requires Underway(s, done, n) && n == done + |c.data| && c.data != [] && c.off == done && c.copy.Whole?
    requires n < Capacity(s)
    ensures var t, k := WriteCall(s, c), |Takes(s, c)|;
      k <= |c.data| && Underway(t, done + k, n) && t.sizeToRead == s.sizeToRead
  {
    LaterCallsAreSilent(s, done, n);
    WriteStep(s.(sizeToRead := n), done, n, c.data);
    assert Write(s, c.data, done).(sizeToRead := n) == Write(s.(sizeToRead := n), c.data, done);
  }

  lemma TryGoesOn(s: Store, done: nat, n: nat, c: Call)
    requires Underway(s, done, n) && n == done + |c.data| && c.data != [] && c.off == done && n < Capacity(s)
    ensures WellFormed(s)
    ensures var t, k := WriteCall(s, c), |Takes(s, c)|;
      && k <= |c.data| && Underway(t, done + k, n) && t.sizeToRead == s.sizeToRead
      && WellFormed(t) && Capacity(t) == Capacity(s)
  {
    if c.copy.Failed? {
      FailureChangesNothing(s, done, n, c);
    } else {
      SuccessGoesOn(s, done, n, c);
    }
  }

  lemma NextTry(s: Store, done: nat, n: nat, rest: seq<byte>, tries: seq<Copy>) returns (t: Store, k: nat)
    requires Underway(s, done, n) && n == done + |rest| && n < Capacity(s) && rest != [] && tries != []
    ensures k <= |rest| && Underway(t, done + k, n) && t.sizeToRead == s.sizeToRead
    ensures WellFormed(s) && WellFormed(t) && Capacity(t) == Capacity(s)
    ensures Retried(s, rest, done, tries) == Retried(t, rest[k..], done + k, tries[1..])
  {
    hide Underway, Capacity, WriteCall, Takes;
    var c := Call(rest, done, tries[0]);
    TryGoesOn(s, done, n, c);
    t, k := WriteCall(s, c), |Takes(s, c)|;
  }

  lemma {:induction false} RestIsSilent(s: Store, done: nat, n: nat, rest: seq<byte>, tries: seq<Copy>)
    requires WellFormed(s) && Underway(s, done, n) && n == done + |rest| && n < Capacity(s)
    ensures var a := Retried(s, rest, done, tries);
      a.left <= |rest| && a.end.sizeToRead == s.sizeToRead && Underway(a.end, n - a.left, n)
    decreases tries
  {
    hide Underway, Capacity, WriteCall, Takes, WellFormed;
    if rest == [] || tries == [] {
    } else {
      var t, k := NextTry(s, done, n, rest, tries);
      RestIsSilent(t, done + k, n, rest[k..], tries[1..]);
    }
  }

  // ---------------------------------------------------------------- up to the first success

  /** As after a reset, whatever has been announced. */
  predicate Starting(s: Store) {
    WellFormed(s) && Reset(s) == s.(sizeToRead := 0)
  }

  lemma FirstSuccess(s: Store, c: Call)
    requires Starting(s) && 0 < |c.data| < Capacity(s) && c.off == 0 && c.copy.Whole?
    ensures var t, k := WriteCall(s, c), |Takes(s, c)|;
      0 < k <= |c.data| && Underway(t, k, |c.data|) && t.sizeToRead == s.sizeToRead + |c.data|
  {
    var s0, n := s.(sizeToRead := 0), |c.data|;
    QuotientIs(0, s.size, 0, 0);
    WriteStep(s0, 0, n, c.data);
    assert Write(s, c.data, 0).(sizeToRead := n) == Write(s0, c.data, 0);
  }

  lemma FirstFailure(s: Store, c: Call)
    requires Starting(s) && c.off == 0 && c.copy.Failed?
    ensures var t := WriteCall(s, c);
      Starting(t) && t.sizeToRead == s.sizeToRead + |c.data| && Takes(s, c) == []
  {
  }

  /** What a session has come to after its tries, when its opening tries announced count times n. */
  predicate Announced(s: Store, a: Attempt, n: nat, count: nat, success: bool) {
    && a.end.sizeToRead == s.sizeToRead + Pos(count, 0, n)
    && (a.left < n <==> success) && a.left <= n
    && (if success then Underway(a.end, n - a.left, n) else Starting(a.end))
  }

  lemma OpenedByFailure(s: Store, data: seq<byte>, tries: seq<Copy>) returns (t: Store)
    requires Starting(s) && data != [] && tries != [] && tries[0].Failed?
    ensures WellFormed(s) && Starting(t) && t.sizeToRead == s.sizeToRead + |data| && Capacity(t) == Capacity(s)
    ensures Retried(s, data, 0, tries) == Retried(t, data, 0, tries[1..])
  {
    var c := Call(data, 0, tries[0]);
    FirstFailure(s, c);
    t := WriteCall(s, c);
    assert data[0..] == data;
  }

  lemma OpenedBySuccess(s: Store, data: seq<byte>, tries: seq<Copy>)
    requires Starting(s) && 0 < |data| < Capacity(s) && tries != [] && tries[0].Whole?
    ensures WellFormed(s) && Announced(s, Retried(s, data, 0, tries), |data|, 1, true)
  {
    var c, n := Call(data, 0, tries[0]), |data|;
    FirstSuccess(s, c);
    var t, k := WriteCall(s, c), |Takes(s, c)|;
    RestIsSilent(t, k, n, data[k..], tries[1..]);
    assert Pos(1, 0, n) == n + Pos(0, 0, n) == n;
  }

  lemma {:induction false} OpeningAnnounces(s: Store, data: seq<byte>, tries: seq<Copy>)
    requires WellFormed(s) && Starting(s) && 0 < |data| < Capacity(s)
    ensures Announced(s, Retried(s, data, 0, tries), |data|, Opening(tries), Whole in tries)
    decreases tries
  {
    hide Capacity, Underway, WriteCall, Takes;
    if tries == [] {
    } else if tries[0].Whole? {
      OpenedBySuccess(s, data, tries);
    } else {
      var t := OpenedByFailure(s, data, tries);
      OpeningAnnounces(t, data, tries[1..]);
      hide Starting;
      assert Whole in tries <==> Whole in tries[1..];
      assert Pos(1 + Opening(tries[1..]), 0, |data|) == |data| + Pos(Opening(tries[1..]), 0, |data|);
    }
  }

  // ---------------------------------------------------------------- main results

  lemma AtStart(s: Store, done: nat, n: nat)
    requires Underway(s, done, n) || Starting(s)
    ensures Aligned(s, 0)
  {
    assert s.size * 0 == 0;
  }

  /** However a session's tries end: each one up to and including the first success announces the
      whole message, the later ones nothing; a reader then gets that many bytes. */
  lemma RetriesAnnounce(s: Store, data: seq<byte>, tries: seq<Copy>)
    requires AtReset(s) && 0 < |data| < Capacity(s)
    ensures var a := Retried(s, data, 0, tries);
      && a.end.sizeToRead == Opening(tries) * |data|
      && |ReadAll(a.end, 0, false).bytes| == Opening(tries) * |data|
  {
    OpeningAnnounces(s, data, tries);
    PosIs(Opening(tries), 0, |data|);
    var a := Retried(s, data, 0, tries);
    AtStart(a.end, |data| - a.left, |data|);
    AlignedSession(a.end, 0, false);
  }

  /** A session that gets its whole message written announces its own size, and is read back with
      its own length, exactly when its very first try succeeds. */
  lemma AnnouncedIffFirstTrySucceeds(s: Store, data: seq<byte>, tries: seq<Copy>)
    requires AtReset(s) && 0 < |data| < Capacity(s)
    requires Retried(s, data, 0, tries).left == 0
    ensures var a := Retried(s, data, 0, tries);
      && tries != []
      && (a.end.sizeToRead == |data| <==> tries[0].Whole?)
      && (|ReadAll(a.end, 0, false).bytes| == |data| <==> tries[0].Whole?)
  {
    OpeningAnnounces(s, data, tries);
    RetriesAnnounce(s, data, tries);
    OpeningIsOne(tries);
    OneIsEnough(Opening(tries), |data|);
  }

  lemma OpeningIsOne(tries: seq<Copy>)
    requires Whole in tries
    ensures Opening(tries) >= 1 && (Opening(tries) == 1 <==> tries[0].Whole?)
  {
    if tries[0].Failed? {
      assert Whole in tries[1..];
      assert Opening(tries[1..]) >= 1;
    }
  }

  lemma OneIsEnough(k: nat, n: nat)
    requires n > 0
    ensures k * n == n <==> k == 1
  {
    if k * n == n {
      assert (k - 1) * n == 0;
    }
  }

  /** The smallest session that is announced wrongly: one failure and its retry. */
  lemma RetryAnnouncesTwice(s: Store, data: seq<byte>, left: seq<byte>)
    requires AtReset(s) && 0 < |data| < Capacity(s)
    ensures Retried(s, data, 0, [Failed(left), Whole]).end.sizeToRead == 2 * |data|
  {
    var tries := [Failed(left), Whole];
    assert tries[1..] == [Whole] && [Whole][0] == Whole;
    assert Opening([Whole]) == 1 && Opening(tries) == 2;
    RetriesAnnounce(s, data, tries);
  }
}
