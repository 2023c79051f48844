/** The blinking period of the LED driver: an unsigned 32-bit word stepped by two key interrupts
    and set through sysfs, each under the period lock. */
module KeyPeriod {
  import opened Common
  import opened Arithmetic

  const WORD := 0x1_0000_0000

  type u32 = x: nat | x < WORD

  const LOW := 10
  const HIGH := 10000

  predicate InRange(p: u32) {
    LOW <= p <= HIGH
  }

  function Clip(p: u32): u32 {
    if p < LOW || p > HIGH then 10 else p
  }

  /** KEY_ISR1 and KEY_ISR2: add or subtract 10 with wraparound, then fall back to 10 out of range. */
  function Up(p: u32): u32 {
    Clip((p + 10) % WORD)
  }

  function Down(p: u32): u32 {
    Clip((p - 10) % WORD)
  }

  /** A store of what sscanf made of the text; invalid values leave the period alone. */
  function Store(p: u32, parsed: Option<u32>): u32 {
    if parsed.Some? && InRange(parsed.value) then parsed.value else p
  }

  /** Probe sets the period to 10 late; the key interrupts are on before that. */
  datatype Event = Probe | Key1 | Key2 | SetPeriod(parsed: Option<u32>)

  function Next(p: u32, e: Event): u32 {
    match e
    case Probe => 10
    case Key1 => Up(p)
    case Key2 => Down(p)
    case SetPeriod(parsed) => Store(p, parsed)
  }

  function Run(p: u32, run: seq<Event>): u32
    decreases run
  {
    if run == [] then p else Run(Next(p, run[0]), run[1..])
  }

  lemma {:induction false} RunLast(p: u32, run: seq<Event>, e: Event)
    ensures Run(p, run + [e]) == Next(Run(p, run), e)
    decreases run
  {
    if run == [] {
      assert ([] + [e])[1..] == [];
    } else {
      RunLast(Next(p, run[0]), run[1..], e);
      assert (run + [e])[1..] == run[1..] + [e];
    }
  }

  /** After probe has set it to 10, the period never leaves its range. */
  lemma {:induction false} PeriodStaysInRange(p: u32, run: seq<Event>)
    requires 10 <= p <= 10000
    ensures 10 <= Run(p, run) <= 10000
    decreases run
  {
    if run == [] {
    } else {
      PeriodStaysInRange(Next(p, run[0]), run[1..]);
    }
  }

  /** A key interrupt that comes before probe has set the period brings any word into range; below
      10 a decrement wraps around to a huge value and is caught. */
  lemma FirstKeyCatchesAnything(p: u32)
    ensures InRange(Up(p)) && InRange(Down(p))
    ensures p < LOW ==> (p - 10) % WORD > HIGH && Down(p) == 10
  {
  }

  /** Events that leave the period in range whatever it was. */
  predicate Sets(e: Event) {
    e.SetPeriod? ==> e.parsed.Some? && 10 <= e.parsed.value <= 10000
  }

  /** Started from any word, as before probe, the period ends in range exactly if it began there or
      some key was pressed or some valid period stored. */
  lemma {:induction false} InRangeIff(p: u32, run: seq<Event>)
    ensures 10 <= Run(p, run) <= 10000 <==> 10 <= p <= 10000 || exists k :: 0 <= k < |run| && Sets(run[k])
    decreases run
  {
    if run == [] {
    } else {
      var rest := run[1..];
      InRangeIff(Next(p, run[0]), rest);
      FirstKeyCatchesAnything(p);
      if k :| 0 <= k < |rest| && Sets(rest[k]) {
        assert Sets(run[k + 1]);
      }
      if k :| 0 < k < |run| && Sets(run[k]) {
        assert Sets(rest[k - 1]);
      }
    }
  }

  function Ups(p: u32, k: nat): u32 {
    if k == 0 then p else Up(Ups(p, k - 1))
  }

  function Downs(p: u32, k: nat): u32 {
    if k == 0 then p else Down(Downs(p, k - 1))
  }

  lemma UpStep(p: u32)
    requires InRange(p)
    ensures Up(p) == if p + 10 > HIGH then 10 else p + 10
  {
  }

  /** What k presses of key 1 give: climb while the range lasts, then cycle through the 1000
      multiples of 10. */
  function Climbed(p: u32, k: nat): nat
    requires InRange(p)
  {
    var room := (HIGH - p) / 10;
    if k <= room then p + 10 * k else 10 + 10 * ((k - room - 1) % 1000)
  }

  lemma ClimbStep(p: u32, k: nat)
    requires InRange(p)
    ensures InRange(Climbed(p, k))
    ensures Climbed(p, k + 1) == if Climbed(p, k) + 10 > HIGH then 10 else Climbed(p, k) + 10
  {
    var room := (HIGH - p) / 10;
    if k > room {
      CycleStep(k - room - 1);
    }
  }

  lemma {:induction false} UpsCycle(p: u32, k: nat)
    requires InRange(p)
    ensures Ups(p, k) == Climbed(p, k)
  {
    if k == 0 {
    } else {
      UpsCycle(p, k - 1);
      ClimbStep(p, k - 1);
      UpStep(Ups(p, k - 1));
    }
  }

  lemma CycleStep(n: nat)
    ensures (n + 1) % 1000 == if n % 1000 == 999 then 0 else n % 1000 + 1
  {
    var q, m := n / 1000, n % 1000;
    QuotientIs(n + 1, 1000, if m == 999 then q + 1 else q, if m == 999 then 0 else m + 1);
  }

  /** From 10, k presses of key 1 give 10 + 10 * (k mod 1000). */
  lemma {:induction false} UpsFromTen(k: nat)
    ensures Ups(10, k) == 10 + 10 * (k % 1000)
  {
    UpsCycle(10, k);
    if k >= 1000 {
      DropOne(k, 1000);
    }
  }

  /** What k presses of key 2 give. */
  function Fallen(p: u32, k: nat): int {
    if p - 10 * k >= LOW then p - 10 * k else LOW
  }

  lemma DownStep(p: u32)
    requires InRange(p)
    ensures Down(p) == if p - 10 < LOW then 10 else p - 10
  {
  }

  /** k presses of key 2 count down by ten and stay at 10. */
  lemma {:induction false} DownsFloor(p: u32, k: nat)
    requires InRange(p)
    ensures Downs(p, k) == Fallen(p, k)
  {
    if k == 0 {
    } else {
      DownsFloor(p, k - 1);
      DownStep(Downs(p, k - 1));
    }
  }

  /** k times the same event. */
  function Repeated(e: Event, k: nat): seq<Event> {
    seq(k, _ => e)
  }

  lemma {:induction false} KeysRepeat(p: u32, run: seq<Event>, k: nat)
    ensures Run(p, run + Repeated(Key1, k)) == Ups(Run(p, run), k)
    ensures Run(p, run + Repeated(Key2, k)) == Downs(Run(p, run), k)
  {
    if k == 0 {
      assert run + [] == run;
    } else {
      KeysRepeat(p, run, k - 1);
      RunLast(p, run + Repeated(Key1, k - 1), Key1);
      RunLast(p, run + Repeated(Key2, k - 1), Key2);
      assert run + Repeated(Key1, k) == run + Repeated(Key1, k - 1) + [Key1];
      assert run + Repeated(Key2, k) == run + Repeated(Key2, k - 1) + [Key2];
    }
  }

  /** Whatever the word and the events before: k presses of key 1 after probe give 10 + 10 * (k mod 1000). */
  lemma UpsFromProbe(p: u32, before: seq<Event>, k: nat)
    ensures Run(p, before + [Probe] + Repeated(Key1, k)) == 10 + 10 * (k % 1000)
  {
    RunLast(p, before, Probe);
    KeysRepeat(p, before + [Probe], k);
    UpsFromTen(k);
  }

  /** After a store of a valid period q, k presses of key 2 give the larger of 10 and q - 10 * k. */
  lemma DownsFromStore(p: u32, before: seq<Event>, q: u32, k: nat)
    requires 10 <= q <= 10000
    ensures Run(p, before + [SetPeriod(Some(q))] + Repeated(Key2, k)) == if q - 10 * k >= 10 then q - 10 * k else 10
  {
    RunLast(p, before, SetPeriod(Some(q)));
    KeysRepeat(p, before + [SetPeriod(Some(q))], k);
    DownsFloor(q, k);
  }

  /** The word and the events so far; log is there for the proofs alone. */
  class PeriodWord {
    var period: u32
    ghost var log: seq<Event>

    /** The word is what the events so far make of zeroed memory. */
    ghost predicate Valid()
      reads this
    {
      period == Run(0, log)
    }

    constructor ()
      ensures Valid() && log == []
    {
      period := 0;
      log := [];
    }

    method SetByProbe()
      requires Valid()
      modifies this
      ensures Valid() && log == old(log) + [Probe]
      ensures InRange(period)
    {
      RunLast(0, log, Probe);
      period := 10;
      log := log + [Probe];
    }

    /** KEY_ISR1: in range whatever the word was, and one step of the climb if it was in range. */
    method Isr1()
      requires Valid()
      modifies this
      ensures Valid() && log == old(log) + [Key1]
      ensures InRange(period)
      ensures InRange(old(period)) ==> period == Climbed(old(period), 1)
    {
      RunLast(0, log, Key1);
      period := (period + 10) % WORD;
      if period < 10 || period > 10000 {
        period := 10;
      }
      log := log + [Key1];
    }

    /** KEY_ISR2: in range whatever the word was, and one step of the fall if it was in range. */
    method Isr2()
      requires Valid()
      modifies this
      ensures Valid() && log == old(log) + [Key2]
      ensures InRange(period)
      ensures InRange(old(period)) ==> period == Fallen(old(period), 1)
      ensures old(period) < LOW ==> period == LOW
    {
      RunLast(0, log, Key2);
      period := (period - 10) % WORD;
      if period < 10 || period > 10000 {
        period := 10;
      }
      log := log + [Key2];
    }

    /** set_period_store: parsed is what sscanf made of the text. */
    method StorePeriod(parsed: Option<u32>) returns (ok: bool)
      requires Valid()
      modifies this
      ensures Valid() && log == old(log) + [SetPeriod(parsed)]
      ensures ok <==> Sets(SetPeriod(parsed))
      ensures if ok then parsed == Some(period) && InRange(period) else period == old(period)
    {
      RunLast(0, log, SetPeriod(parsed));
      log := log + [SetPeriod(parsed)];
      if parsed.None? || parsed.value < 10 || parsed.value > 10000 {
        return false;
      }
      period := parsed.value;
      return true;
    }
  }
}
