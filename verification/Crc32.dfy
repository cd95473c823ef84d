/**
 The checksum of TRX images: a table of 256 entries, one lookup per byte. It
 equals the division of the message, bit after bit and lowest bit first, by the
 reflected polynomial of section 3.2.9 of IEEE 802.3-2012, without the final
 complement of that standard.
 */
module Crc32 {

  type Word = bv32

  const POLY: Word := 0xEDB88320
  const INIT: Word := 0xFFFFFFFF

  function Xor(a: Word, b: Word): (r: Word) { a ^ b }

  function Half(a: Word): (r: Word) { a >> 1 }

  predicate Odd(a: Word) { a & 1 == 1 }

  // ------------------------------------------------------------ the reference

  /** One bit of the message enters the register. */
  function BitStep(c: Word, bit: bool): (r: Word) {
    if Odd(c) != bit then Xor(POLY, Half(c)) else Half(c)
  }

  /** n bits of y, the lowest first. */
  function Bits(c: Word, y: Word, n: nat): (r: Word)
    decreases n
  {
    if n == 0 then c else Bits(BitStep(c, Odd(y)), Half(y), n - 1)
  }

  /** The register after the whole message, which began as c. */
  function Divide(c: Word, message: seq<bv8>): (r: Word)
  {
    if message == [] then c else Bits(Divide(c, message[..|message|-1]), message[|message|-1] as bv32, 8)
  }

  // ------------------------------------------------------------ with a table

  function Step(c: Word): (r: Word) {
    if Odd(c) then Xor(POLY, Half(c)) else Half(c)
  }

  function Steps(c: Word, n: nat): (r: Word)
    decreases n
  {
    if n == 0 then c else Steps(Step(c), n - 1)
  }

  function Halves(y: Word, n: nat): (r: Word)
    decreases n
  {
    if n == 0 then y else Halves(Half(y), n - 1)
  }

  lemma {:induction false} OddXor(x: Word, y: Word)
    ensures Odd(Xor(x, y)) <==> Odd(x) != Odd(y)
  {
  }

  lemma {:induction false} HalfXor(x: Word, y: Word)
    ensures Half(Xor(x, y)) == Xor(Half(x), Half(y))
  {
  }

  lemma {:induction false} XorLeft(p: Word, x: Word, y: Word)
    ensures Xor(p, Xor(x, y)) == Xor(Xor(p, x), y)
  {
  }

  lemma {:induction false} XorRight(p: Word, x: Word, y: Word)
    ensures Xor(p, Xor(x, y)) == Xor(x, Xor(p, y))
  {
  }

  lemma {:induction false} XorTwice(p: Word, z: Word)
    ensures Xor(p, Xor(p, z)) == z
  {
  }

  lemma {:induction false} XorCancels(p: Word, x: Word, y: Word)
    ensures Xor(Xor(p, x), Xor(p, y)) == Xor(x, y)
  {
    hide Xor;
    XorLeft(p, x, Xor(p, y));
    XorRight(x, p, y);
    XorTwice(p, Xor(x, y));
  }

  lemma {:induction false} XorLaws(p: Word, x: Word, y: Word)
    ensures Odd(Xor(x, y)) <==> Odd(x) != Odd(y)
    ensures Half(Xor(x, y)) == Xor(Half(x), Half(y))
    ensures Xor(p, Xor(x, y)) == Xor(Xor(p, x), y) == Xor(x, Xor(p, y))
    ensures Xor(Xor(p, x), Xor(p, y)) == Xor(x, y)
  {
    hide Xor, Half, Odd;
    OddXor(x, y);
    HalfXor(x, y);
    XorLeft(p, x, y);
    XorRight(p, x, y);
    XorCancels(p, x, y);
  }

  lemma {:induction false} StepLinear(x: Word, y: Word)
    ensures Step(Xor(x, y)) == Xor(Step(x), Step(y))
  {
    hide Xor, Half, Odd;
    XorLaws(POLY, x, y);
    XorLaws(POLY, Half(x), Half(y));
  }

  lemma {:induction false} StepsLinear(x: Word, y: Word, n: nat)
    ensures Steps(Xor(x, y), n) == Xor(Steps(x, n), Steps(y, n))
    decreases n
  {
    hide Step, Xor;
    if n > 0 {
      StepLinear(x, y);
      StepsLinear(Step(x), Step(y), n - 1);
    }
  }

  lemma {:induction false} StepIsBitStep(c: Word, y: Word)
    ensures Step(Xor(c, y)) == Xor(BitStep(c, Odd(y)), Half(y))
  {
    hide Xor, Half, Odd;
    XorLaws(POLY, c, y);
    XorLaws(POLY, Half(c), Half(y));
  }

  /** The message bits may enter the register all at once, before the steps. */
  lemma {:induction false} StepsAreBits(c: Word, y: Word, n: nat)
    ensures Steps(Xor(c, y), n) == Xor(Bits(c, y, n), Halves(y, n))
    decreases n
  {
    hide Step, BitStep, Xor, Half, Odd;
    if n > 0 {
      StepIsBitStep(c, y);
      StepsAreBits(BitStep(c, Odd(y)), Half(y), n - 1);
    }
  }

  /** The lowest n bits of h are zero. */
  predicate LowZero(h: Word, n: nat)
    decreases n
  {
    n == 0 || (!Odd(h) && LowZero(Half(h), n - 1))
  }

  lemma {:induction false} StepsOfHigh(h: Word, n: nat)
    requires LowZero(h, n)
    ensures Steps(h, n) == Halves(h, n)
    decreases n
  {
    hide Xor, Half, Odd;
    if n > 0 { StepsOfHigh(Half(h), n - 1); }
  }

  function Quarter(y: Word): (r: Word) { y >> 2 }

  function Sixteenth(y: Word): (r: Word) { y >> 4 }

  /** The register without its lowest byte. */
  function Drop(y: Word): (r: Word) { y >> 8 }

  predicate TwoZero(y: Word) { y & 3 == 0 }

  predicate FourZero(y: Word) { y & 0xF == 0 }

  predicate ByteZero(y: Word) { y & 0xFF == 0 }

  lemma {:induction false} HalfHalf(y: Word)
    ensures Half(Half(y)) == Quarter(y)
  {
  }

  lemma {:induction false} QuarterQuarter(y: Word)
    ensures Quarter(Quarter(y)) == Sixteenth(y)
  {
  }

  lemma {:induction false} SixteenthSixteenth(y: Word)
    ensures Sixteenth(Sixteenth(y)) == Drop(y)
  {
  }

  lemma {:induction false} TwoZeroIs(y: Word)
    ensures TwoZero(y) <==> !Odd(y) && !Odd(Half(y))
  {
  }

  lemma {:induction false} FourZeroIs(y: Word)
    ensures FourZero(y) <==> TwoZero(y) && TwoZero(Quarter(y))
  {
  }

  lemma {:induction false} ByteZeroIs(y: Word)
    ensures ByteZero(y) <==> FourZero(y) && FourZero(Sixteenth(y))
  {
  }

  lemma {:induction false} TwoHalves(y: Word, n: nat)
    ensures Halves(y, n + 2) == Halves(Quarter(y), n)
    ensures LowZero(y, n + 2) <==> TwoZero(y) && LowZero(Quarter(y), n)
  {
    hide Half, Odd, Quarter, TwoZero;
    HalfHalf(y);
    TwoZeroIs(y);
  }

  lemma {:induction false} FourHalves(y: Word, n: nat)
    ensures Halves(y, n + 4) == Halves(Sixteenth(y), n)
    ensures LowZero(y, n + 4) <==> FourZero(y) && LowZero(Sixteenth(y), n)
  {
    hide Half, Odd, Quarter, Sixteenth, TwoZero, FourZero, Halves, LowZero;
    TwoHalves(y, n + 2);
    TwoHalves(Quarter(y), n);
    QuarterQuarter(y);
    FourZeroIs(y);
  }

  lemma {:induction false} EightHalves(y: Word)
    ensures Halves(y, 8) == Drop(y)
    ensures LowZero(y, 8) <==> ByteZero(y)
  {
    hide Half, Odd, Sixteenth, FourZero, Drop, ByteZero;
    FourHalves(y, 4);
    FourHalves(Sixteenth(y), 0);
    SixteenthSixteenth(y);
    ByteZeroIs(y);
  }

  function Low(x: Word): (r: Word) { x & 0xFF }

  function High(x: Word): (r: Word) { x & 0xFFFFFF00 }

  lemma {:induction false} LowAndHigh(x: Word)
    ensures Xor(Low(x), High(x)) == x && ByteZero(High(x)) && Drop(High(x)) == Drop(x)
  {
    XorOfParts(x);
    HighIs(x);
  }

  lemma {:induction false} XorOfParts(x: bv32)
    ensures (x & 0xFF) ^ (x & 0xFFFFFF00) == x
  {
  }

  lemma {:induction false} HighIs(x: bv32)
    ensures (x & 0xFFFFFF00) & 0xFF == 0 && (x & 0xFFFFFF00) >> 8 == x >> 8
  {
  }

  lemma {:induction false} DropXor(c: Word, b: Word)
    ensures Drop(Xor(c, b)) == Xor(Drop(c), Drop(b))
  {
  }

  lemma {:induction false} ByteFits(b: Word)
    requires Low(b) == b
    ensures Drop(b) == 0
  {
  }

  lemma {:induction false} XorZero(c: Word)
    ensures Xor(c, 0) == c
  {
  }

  /** One lookup is eight bits of division. */
  lemma {:induction false} LookupIsBits(c: Word, b: Word)
    requires Low(b) == b
    ensures Xor(Steps(Low(Xor(c, b)), 8), Drop(c)) == Bits(c, b, 8)
  {
    hide Xor, Low, High, Drop, ByteZero, Step, BitStep, Steps, Bits, LowZero, Halves;
    var x := Xor(c, b);
    LowAndHigh(x);
    StepsLinear(Low(x), High(x), 8);
    EightHalves(High(x));
    StepsOfHigh(High(x), 8);
    DropXor(c, b);
    ByteFits(b);
    XorZero(Drop(c));
    StepsAreBits(c, b, 8);
    EightHalves(b);
    XorZero(Bits(c, b, 8));
  }

  // -------------------------------------------------------------- the program

  /** A byte of the message as char promotes it: the sign is carried upwards. */
  function Promote(b: bv8): (r: Word) {
    if b & 0x80 == 0 then b as bv32 else (b as bv32) | 0xFFFFFF00
  }

  /** The mask takes the carried sign off again. */
  lemma {:induction false} PromoteLow(c: Word, b: bv8)
    ensures Low(Xor(c, Promote(b))) == Low(Xor(c, b as bv32)) && Low(b as bv32) == b as bv32
  {
  }

  class Checksum {
    /** the table, null until it is built */
    var table: array?<Word>

    ghost predicate Valid()
      reads this, table
    {
      table != null ==>
        table.Length == 256 && forall n :: 0 <= n < 256 ==> table[n] == Steps(n as bv32, 8)
    }

    constructor ()
      ensures Valid() && table == null
    {
      table := null;
    }

    /** init_crc32; memory tells whether malloc succeeds. */
    method Init(memory: bool)
      requires Valid()
      modifies this
      ensures Valid() && (table == null <==> old(table) == null && !memory)
      ensures old(table) != null ==> table == old(table)
      ensures old(table) == null && table != null ==> fresh(table)
    {
      hide Step;
      if table != null || !memory {
        return;
      }
      var t := new Word[256];
      for n := 0 to 256
        invariant forall i :: 0 <= i < n ==> t[i] == Steps(i as bv32, 8)
      {
        var crc := n as bv32;
        for bit := 0 to 8
          invariant Steps(crc, 8 - bit) == Steps(n as bv32, 8)
        {
          crc := Step(crc);
        }
        t[n] := crc;
      }
      table := t;
    }

    /** crc32buf */
    method Buf(buf: array<bv8>) returns (crc: Word)
      requires Valid()
      ensures crc == if table == null then INIT else Divide(INIT, buf[..])
    {
      hide Xor, Low, Drop, Promote, Steps, Bits;
      crc := INIT;
      if table == null {
        return;
      }
      for i := 0 to buf.Length
        invariant crc == Divide(INIT, buf[..i])
      {
        var index := Low(Xor(crc, Promote(buf[i])));
        LowBound(Xor(crc, Promote(buf[i])));
        PromoteLow(crc, buf[i]);
        LookupIsBits(crc, buf[i] as bv32);
        assert buf[..i + 1][..i] == buf[..i];
        crc := Xor(table[index as int], Drop(crc));
      }
      assert buf[..] == buf[..buf.Length];
    }
  }

  lemma {:induction false} LowBound(x: Word)
    ensures 0 <= Low(x) as int < 256 && (Low(x) as int) as bv32 == Low(x)
  {
  }
}
