/** The pin-function registers: a 3-bit code per pin, ten pins to a 32-bit word, changed by
    read-modify-write of the word that holds the pin. */
module GpioFn {

  const PINS := 60

  type Pin = p: nat | p < PINS

  /** A 3-bit code, as an unsigned 32-bit word. */
  predicate IsCode(code: bv32) {
    code <= 7
  }

  // ---------------------------------------------------------------- one word

  /** Where a field of a word starts: a multiple of three, at most 27. */
  predicate IsStart(b: bv6) {
    b == 0 || b == 3 || b == 6 || b == 9 || b == 12 || b == 15 || b == 18 || b == 21 || b == 24 || b == 27
  }

  function Mask(b: bv6): bv32
    requires b <= 27
  {
    (7 as bv32) << b
  }

  function Field(w: bv32, b: bv6): bv32
    requires b <= 27
  {
    (w >> b) & 7
  }

  function SetField(w: bv32, b: bv6, code: bv32): bv32
    requires b <= 27
  {
    (w & !Mask(b)) | ((code << b) & Mask(b))
  }

  lemma SetFieldIsRead(w: bv32, b: bv6, code: bv32)
    requires IsStart(b)
    ensures Field(SetField(w, b, code), b) == code & 7
  {
  }

  lemma MasksAreDisjoint(a: bv6, b: bv6)
    requires IsStart(a) && IsStart(b) && a != b
    ensures Mask(a) & Mask(b) == 0
  {
  }

  lemma FieldIsMasked(w: bv32, a: bv6)
    requires IsStart(a)
    ensures Field(w, a) == (w & Mask(a)) >> a
  {
  }

  /** A read-modify-write under mask m leaves everything outside m. */
  lemma MergeKeeps(w: bv32, c: bv32, m: bv32, n: bv32)
    requires n & m == 0
    ensures ((w & !m) | (c & m)) & n == w & n
  {
  }

  lemma SetFieldKeepsOthers(w: bv32, a: bv6, b: bv6, code: bv32)
    requires IsStart(a) && IsStart(b) && a != b
    ensures Field(SetField(w, b, code), a) == Field(w, a)
  {
    MasksAreDisjoint(a, b);
    MergeKeeps(w, code << b, Mask(b), Mask(a));
    FieldIsMasked(w, a);
    FieldIsMasked(SetField(w, b, code), a);
  }

  /** The two bits above the ten fields. */
  function Spare(w: bv32): bv32 {
    w & 0xC000_0000
  }

  lemma SetFieldKeepsSpare(w: bv32, b: bv6, code: bv32)
    requires IsStart(b)
    ensures Spare(SetField(w, b, code)) == Spare(w)
  {
    assert 0xC000_0000 & Mask(b) == 0;
    MergeKeeps(w, code << b, Mask(b), 0xC000_0000);
  }

  /** The ten fields and the spare bits make up the word. */
  lemma FieldsDetermineWord(v: bv32, w: bv32)
    requires forall b: bv6 :: IsStart(b) ==> Field(v, b) == Field(w, b)
    requires Spare(v) == Spare(w)
    ensures v == w
  {
    forall b: bv6 | IsStart(b)
      ensures v & Mask(b) == w & Mask(b)
    {
      assert Field(v, b) == Field(w, b);
      FieldPinsMaskedBits(v, w, b);
    }
    JoinFields(v, w);
  }

  lemma FieldPinsMaskedBits(v: bv32, w: bv32, b: bv6)
    requires IsStart(b) && Field(v, b) == Field(w, b)
    ensures v & Mask(b) == w & Mask(b)
  {
  }

  lemma JoinFields(v: bv32, w: bv32)
    requires v & Mask(0) == w & Mask(0) && v & Mask(3) == w & Mask(3) && v & Mask(6) == w & Mask(6)
    requires v & Mask(9) == w & Mask(9) && v & Mask(12) == w & Mask(12) && v & Mask(15) == w & Mask(15)
    requires v & Mask(18) == w & Mask(18) && v & Mask(21) == w & Mask(21) && v & Mask(24) == w & Mask(24)
    requires v & Mask(27) == w & Mask(27) && Spare(v) == Spare(w)
    ensures v == w
  {
  }

  // ---------------------------------------------------------------- the six registers

  type Registers = r: seq<bv32> | |r| == 6 witness [0, 0, 0, 0, 0, 0]

  /** Three bits for every lower pin of the same register. */
  function Start(pin: Pin): (b: bv6)
    ensures IsStart(b)
  {
    match pin % 10
    case 0 => 0 case 1 => 3 case 2 => 6 case 3 => 9 case 4 => 12
    case 5 => 15 case 6 => 18 case 7 => 21 case 8 => 24 case _ => 27
  }

  lemma StartIsThreePerPin(pin: Pin)
    ensures Start(pin) as nat == 3 * (pin % 10)
  {
  }

  /** Two pins never share a field. */
  lemma PinsHaveTheirOwnField(p: Pin, q: Pin)
    requires p / 10 == q / 10 && Start(p) == Start(q)
    ensures p == q
  {
  }

  lemma EveryFieldHasAPin(r: nat, b: bv6) returns (pin: Pin)
    requires r < 6 && IsStart(b)
    ensures pin / 10 == r && Start(pin) == b
  {
    var k: nat :=
      if b == 0 then 0 else if b == 3 then 1 else if b == 6 then 2 else if b == 9 then 3
      else if b == 12 then 4 else if b == 15 then 5 else if b == 18 then 6 else if b == 21 then 7
      else if b == 24 then 8 else 9;
    pin := 10 * r + k;
  }

  function CodeOf(regs: Registers, pin: Pin): bv32 {
    Field(regs[pin / 10], Start(pin))
  }

  function SetFn(regs: Registers, pin: Pin, code: bv32): Registers {
    regs[pin / 10 := SetField(regs[pin / 10], Start(pin), code)]
  }

  datatype Call = Call(pin: Pin, code: bv32)

  function RunCalls(regs: Registers, calls: seq<Call>): Registers
    decreases calls
  {
    if calls == [] then regs else RunCalls(SetFn(regs, calls[0].pin, calls[0].code), calls[1..])
  }

  /** The simple form: a code per pin. */
  type Table = map<Pin, bv32>

  function Codes(regs: Registers): Table {
    map pin: Pin | 0 <= pin < PINS :: CodeOf(regs, pin)
  }

  function RunOnTable(t: Table, calls: seq<Call>): Table
    decreases calls
  {
    if calls == [] then t else RunOnTable(t[calls[0].pin := calls[0].code], calls[1..])
  }

  lemma SetFnReadsBack(regs: Registers, pin: Pin, code: bv32, other: Pin)
    ensures CodeOf(SetFn(regs, pin, code), other) == if other == pin then code & 7 else CodeOf(regs, other)
  {
    var w := regs[pin / 10];
    if other == pin {
      SetFieldIsRead(w, Start(pin), code);
    } else if other / 10 == pin / 10 {
      if Start(other) == Start(pin) {
        PinsHaveTheirOwnField(other, pin);
      }
      SetFieldKeepsOthers(w, Start(other), Start(pin), code);
    }
  }

  /** Register j holds the codes of pins 10 * j to 10 * j + 9, three bits each from the lowest up. */
  lemma RegisterHoldsTenPins(regs: Registers, j: nat, k: nat, b: bv6)
    requires j < 6 && k < 10 && b as nat == 3 * k
    ensures 10 * j + k < 60 && CodeOf(regs, 10 * j + k) == (regs[j] >> b) & 7
  {
    var pin: Pin := 10 * j + k;
    assert pin / 10 == j && pin % 10 == k;
    StartIsThreePerPin(pin);
    assert Start(pin) == b;
  }

  lemma LowCodeIsItself(code: bv32)
    requires IsCode(code)
    ensures code & 7 == code
  {
  }

  /** Any sequence of calls refines the same updates of a map from pin to code. */
  lemma {:induction false} RegistersRefineTable(regs: Registers, calls: seq<Call>)
    requires forall k :: 0 <= k < |calls| ==> IsCode(calls[k].code)
    ensures Codes(RunCalls(regs, calls)) == RunOnTable(Codes(regs), calls)
    decreases calls
  {
    if calls == [] {
    } else {
      var c := calls[0];
      var next := SetFn(regs, c.pin, c.code);
      LowCodeIsItself(c.code);
      forall pin: Pin | 0 <= pin < PINS
        ensures CodeOf(next, pin) == if pin == c.pin then c.code else CodeOf(regs, pin)
      {
        SetFnReadsBack(regs, c.pin, c.code, pin);
      }
      assert Codes(next) == Codes(regs)[c.pin := c.code];
      RegistersRefineTable(next, calls[1..]);
    }
  }

  /** The two spare bits of every register survive any sequence of calls. */
  lemma {:induction false} SpareBitsSurvive(regs: Registers, calls: seq<Call>, r: nat)
    requires r < 6
    ensures Spare(RunCalls(regs, calls)[r]) == Spare(regs[r])
    decreases calls
  {
    if calls == [] {
    } else {
      var c := calls[0];
      SetFieldKeepsSpare(regs[c.pin / 10], Start(c.pin), c.code);
      SpareBitsSurvive(SetFn(regs, c.pin, c.code), calls[1..], r);
    }
  }

  /** Nothing else is stored: the codes and the spare bits determine the registers. */
  lemma CodesDetermineRegisters(v: Registers, w: Registers)
    requires Codes(v) == Codes(w)
    requires forall r :: 0 <= r < 6 ==> Spare(v[r]) == Spare(w[r])
    ensures v == w
  {
    forall r | 0 <= r < 6
      ensures v[r] == w[r]
    {
      forall b: bv6 | IsStart(b)
        ensures Field(v[r], b) == Field(w[r], b)
      {
        var pin := EveryFieldHasAPin(r, b);
        assert Codes(v)[pin] == Codes(w)[pin];
      }
      FieldsDetermineWord(v[r], w[r]);
    }
  }

  /** So two sequences of calls that leave the same table leave the same registers. */
  lemma SameTableSameRegisters(regs: Registers, a: seq<Call>, b: seq<Call>)
    requires forall k :: 0 <= k < |a| ==> IsCode(a[k].code)
    requires forall k :: 0 <= k < |b| ==> IsCode(b[k].code)
    requires RunOnTable(Codes(regs), a) == RunOnTable(Codes(regs), b)
    ensures RunCalls(regs, a) == RunCalls(regs, b)
  {
    RegistersRefineTable(regs, a);
    RegistersRefineTable(regs, b);
    forall r | 0 <= r < 6
      ensures Spare(RunCalls(regs, a)[r]) == Spare(RunCalls(regs, b)[r])
    {
      SpareBitsSurvive(regs, a, r);
      SpareBitsSurvive(regs, b, r);
    }
    CodesDetermineRegisters(RunCalls(regs, a), RunCalls(regs, b));
  }

  // ---------------------------------------------------------------- in place

  method Merge(was: bv32, bit: bv6, fnCode: bv32) returns (word: bv32)
    requires bit <= 27
    ensures word == SetField(was, bit, fnCode)
  {
    var mask := (7 as bv32) << bit;
    word := (was & !mask) | ((fnCode << bit) & mask);
  }

  /** One register is read, changed and written back. */
  method SetGpioFn(gpsel: array<bv32>, gpio: Pin, fnCode: bv32)
    requires gpsel.Length == 6
    modifies gpsel
    ensures gpsel[..] == SetFn(old(gpsel[..]), gpio, fnCode)
  {
    var word := Merge(gpsel[gpio / 10], Start(gpio), fnCode);
    gpsel[gpio / 10] := word;
    assert gpsel[..] == old(gpsel[..])[gpio / 10 := word];
  }
}
