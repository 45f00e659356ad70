/** The one state of the collection hash that an update with 1 keeps.

    `Mix` is linear over exclusive or, so the parity of some bits of `Mix(h) ^ h` is the parity of some bits of
    `h`; `Transposed` says of which.  Ten masks give the low ten bits of a state that an update with 1 keeps, and
    these determine the rest. */
module KeptState {
  import opened ApiHash

  const STUCK: uint64 := 0xb8d2_42cf_b371_a437

  // ---------------------------------------------------------------- parities

  function Xor(x: uint64, y: uint64): uint64 { x ^ y }

  function And(x: uint64, y: uint64): uint64 { x & y }

  function LowBit(x: uint64): uint64 { x & 1 }

  function Fold1(x: uint64): uint64 { x ^ (x >> 1) }

  function Fold2(x: uint64): uint64 { x ^ (x >> 2) }

  /** Each bit joined with all bits above it: the inverse of `Fold1`. */
  function Above(x: uint64): uint64 { Fold1(Fold2(UnshiftRight4(x))) }

  /** The parity of the bits of `x` that `mask` selects. */
  function Selected(x: uint64, mask: uint64): uint64 { LowBit(Above(And(x, mask))) }

  lemma FoldTwiceBits(x: uint64)
    ensures Fold1(x ^ (x >> 1)) == x ^ (x >> 2) && Fold2(x ^ (x >> 2)) == x ^ (x >> 4)
  {
  }

  lemma FoldTwice(x: uint64)
    ensures Fold1(Fold1(x)) == Fold2(x) && Fold2(Fold2(x)) == ShiftRight4(x)
  {
    FoldTwiceBits(x);
  }

  lemma AboveUndone(x: uint64)
    ensures Fold1(Above(x)) == x
  {
    var y := UnshiftRight4(x);
    hide Fold1, Fold2, ShiftRight4, UnshiftRight4;
    Redo4(x);
    FoldTwice(Fold2(y));
    FoldTwice(y);
  }

  lemma FoldXorBits(x: uint64, y: uint64)
    ensures Fold1(x ^ y) == (x ^ (x >> 1)) ^ (y ^ (y >> 1))
    ensures Fold1(x) == 0 ==> x == 0
  {
  }

  lemma FoldXor(x: uint64, y: uint64)
    ensures Fold1(Xor(x, y)) == Xor(Fold1(x), Fold1(y))
    ensures Fold1(x) == 0 ==> x == 0
  {
    FoldXorBits(x, y);
  }

  lemma XorZeroBits(x: uint64, y: uint64)
    ensures x ^ x == 0 && (x ^ y == 0 ==> x == y)
  {
  }

  lemma XorZero(x: uint64, y: uint64)
    ensures Xor(x, y) == 0 <==> x == y
  {
    XorZeroBits(x, y);
  }

  lemma AboveIs(x: uint64, y: uint64)
    requires Fold1(y) == x
    ensures Above(x) == y
  {
    hide Fold1, Above, Xor;
    AboveUndone(x);
    FoldXor(Above(x), y);
    XorZero(Fold1(Above(x)), Fold1(y));
    XorZero(Above(x), y);
    FoldXor(Xor(Above(x), y), y);
  }

  lemma AndXor(x: uint64, y: uint64, mask: uint64)
    ensures And(x ^ y, mask) == (x & mask) ^ (y & mask) && And(mask, x) == x & mask
  {
  }

  lemma AndIsLinear(x: uint64, y: uint64, mask: uint64)
    ensures And(Xor(x, y), mask) == Xor(And(x, mask), And(y, mask)) && And(mask, x) == And(x, mask)
  {
    AndXor(x, y, mask);
  }

  lemma LowBitXor(x: uint64, y: uint64)
    ensures LowBit(x ^ y) == (x & 1) ^ (y & 1)
  {
  }

  lemma LowBitIsLinear(x: uint64, y: uint64)
    ensures LowBit(Xor(x, y)) == Xor(LowBit(x), LowBit(y))
  {
    LowBitXor(x, y);
  }

  /** Selecting is linear in the number and in the mask. */
  lemma SelectedXor(x: uint64, y: uint64, mask: uint64)
    ensures Selected(Xor(x, y), mask) == Xor(Selected(x, mask), Selected(y, mask))
    ensures Selected(mask, Xor(x, y)) == Xor(Selected(mask, x), Selected(mask, y))
  {
    hide Fold1, Above, LowBit, Xor, And;
    var a, b := And(x, mask), And(y, mask);
    AndIsLinear(x, y, mask);
    AndIsLinear(y, x, mask);
    AndIsLinear(Xor(x, y), x, mask);
    AboveUndone(a);
    AboveUndone(b);
    FoldXor(Above(a), Above(b));
    AboveIs(Xor(a, b), Xor(Above(a), Above(b)));
    LowBitIsLinear(Above(a), Above(b));
  }

  // Shifting a number is shifting the mask the other way.

  function Down4(x: uint64): uint64 { x >> 4 }

  function Up4(x: uint64): uint64 { x << 4 }

  predicate Clear4(x: uint64) { x & 0xF == 0 }

  lemma And4(x: uint64, mask: uint64)
    ensures And(Down4(x), mask) == Down4(And(x, Up4(mask))) && Clear4(And(x, Up4(mask)))
    ensures And(x, mask) == And(mask, x)
  {
  }

  lemma Fold4Bits(y: uint64)
    ensures Fold1(y >> 4) == (y ^ (y >> 1)) >> 4
    ensures (y ^ (y >> 1)) & 0xF == 0 ==> LowBit(y >> 4) == y & 1
  {
  }

  lemma Fold4(y: uint64)
    ensures Fold1(Down4(y)) == Down4(Fold1(y))
    ensures Clear4(Fold1(y)) ==> LowBit(Down4(y)) == LowBit(y)
  {
    Fold4Bits(y);
  }

  lemma Selected4(x: uint64, mask: uint64)
    ensures Selected(Down4(x), mask) == Selected(x, Up4(mask))
    ensures Selected(Up4(x), mask) == Selected(x, Down4(mask))
  {
    hide And, Above, Fold1, LowBit, Down4, Up4, Clear4;
    Selected4Down(x, mask);
    Selected4Down(mask, x);
    And4(Up4(x), mask);
    And4(x, Down4(mask));
  }

  lemma Selected4Down(x: uint64, mask: uint64)
    ensures Selected(Down4(x), mask) == Selected(x, Up4(mask))
  {
    hide And, Above, Fold1, LowBit, Down4, Up4, Clear4;
    var z := And(x, Up4(mask));
    And4(x, mask);
    AboveUndone(z);
    Fold4(Above(z));
    AboveIs(Down4(z), Down4(Above(z)));
  }

  function Down21(x: uint64): uint64 { x >> 21 }

  function Up21(x: uint64): uint64 { x << 21 }

  predicate Clear21(x: uint64) { x & 0x1F_FFFF == 0 }

  lemma And21(x: uint64, mask: uint64)
    ensures And(Down21(x), mask) == Down21(And(x, Up21(mask))) && Clear21(And(x, Up21(mask)))
    ensures And(x, mask) == And(mask, x)
  {
  }

  lemma Fold21Bits(y: uint64)
    ensures Fold1(y >> 21) == (y ^ (y >> 1)) >> 21
    ensures (y ^ (y >> 1)) & 0x1F_FFFF == 0 ==> LowBit(y >> 21) == y & 1
  {
  }

  lemma Fold21(y: uint64)
    ensures Fold1(Down21(y)) == Down21(Fold1(y))
    ensures Clear21(Fold1(y)) ==> LowBit(Down21(y)) == LowBit(y)
  {
    Fold21Bits(y);
  }

  lemma Selected21(x: uint64, mask: uint64)
    ensures Selected(Down21(x), mask) == Selected(x, Up21(mask))
    ensures Selected(Up21(x), mask) == Selected(x, Down21(mask))
  {
    hide And, Above, Fold1, LowBit, Down21, Up21, Clear21;
    Selected21Down(x, mask);
    Selected21Down(mask, x);
    And21(Up21(x), mask);
    And21(x, Down21(mask));
  }

  lemma Selected21Down(x: uint64, mask: uint64)
    ensures Selected(Down21(x), mask) == Selected(x, Up21(mask))
  {
    hide And, Above, Fold1, LowBit, Down21, Up21, Clear21;
    var z := And(x, Up21(mask));
    And21(x, mask);
    AboveUndone(z);
    Fold21(Above(z));
    AboveIs(Down21(z), Down21(Above(z)));
  }

  function Down35(x: uint64): uint64 { x >> 35 }

  function Up35(x: uint64): uint64 { x << 35 }

  predicate Clear35(x: uint64) { x & 0x7_FFFF_FFFF == 0 }

  lemma And35(x: uint64, mask: uint64)
    ensures And(Down35(x), mask) == Down35(And(x, Up35(mask))) && Clear35(And(x, Up35(mask)))
    ensures And(x, mask) == And(mask, x)
  {
  }

  lemma Fold35Bits(y: uint64)
    ensures Fold1(y >> 35) == (y ^ (y >> 1)) >> 35
    ensures (y ^ (y >> 1)) & 0x7_FFFF_FFFF == 0 ==> LowBit(y >> 35) == y & 1
  {
  }

  lemma Fold35(y: uint64)
    ensures Fold1(Down35(y)) == Down35(Fold1(y))
    ensures Clear35(Fold1(y)) ==> LowBit(Down35(y)) == LowBit(y)
  {
    Fold35Bits(y);
  }

  lemma Selected35(x: uint64, mask: uint64)
    ensures Selected(Down35(x), mask) == Selected(x, Up35(mask))
    ensures Selected(Up35(x), mask) == Selected(x, Down35(mask))
  {
    hide And, Above, Fold1, LowBit, Down35, Up35, Clear35;
    Selected35Down(x, mask);
    Selected35Down(mask, x);
    And35(Up35(x), mask);
    And35(x, Down35(mask));
  }

  lemma Selected35Down(x: uint64, mask: uint64)
    ensures Selected(Down35(x), mask) == Selected(x, Up35(mask))
  {
    hide And, Above, Fold1, LowBit, Down35, Up35, Clear35;
    var z := And(x, Up35(mask));
    And35(x, mask);
    AboveUndone(z);
    Fold35(Above(z));
    AboveIs(Down35(z), Down35(Above(z)));
  }

  // ---------------------------------------------------------------- the transposed update

  function Left4(x: uint64): uint64 { Xor(x, Up4(x)) }

  function Right35(x: uint64): uint64 { Xor(x, Down35(x)) }

  function Left21(x: uint64): uint64 { Xor(x, Up21(x)) }

  function Transposed(mask: uint64): uint64 { Xor(Left21(Right35(Left4(mask))), mask) }

  lemma Shift4Bits(x: uint64)
    ensures ShiftRight4(x) == x ^ (x >> 4) && Xor(x, x >> 4) == x ^ (x >> 4) && Down4(x) == x >> 4
  {
  }

  lemma Shift4(x: uint64)
    ensures ShiftRight4(x) == Xor(x, Down4(x))
  {
    Shift4Bits(x);
    hide ShiftRight4, Xor, Down4;
  }

  lemma SelectedShift4(x: uint64, mask: uint64)
    ensures Selected(ShiftRight4(x), mask) == Selected(x, Left4(mask))
  {
    hide Selected, Xor, ShiftRight4, Down4, Up4;
    Shift4(x);
    SelectedXor(x, Down4(x), mask);
    SelectedXor(mask, Up4(mask), x);
    Selected4(x, mask);
  }

  lemma Shift35Bits(x: uint64)
    ensures ShiftLeft35(x) == x ^ (x << 35) && Xor(x, x << 35) == x ^ (x << 35) && Up35(x) == x << 35
  {
  }

  lemma Shift35(x: uint64)
    ensures ShiftLeft35(x) == Xor(x, Up35(x))
  {
    Shift35Bits(x);
    hide ShiftLeft35, Xor, Up35;
  }

  lemma SelectedShift35(x: uint64, mask: uint64)
    ensures Selected(ShiftLeft35(x), mask) == Selected(x, Right35(mask))
  {
    hide Selected, Xor, ShiftLeft35, Down35, Up35;
    Shift35(x);
    SelectedXor(x, Up35(x), mask);
    SelectedXor(mask, Down35(mask), x);
    Selected35(x, mask);
  }

  lemma Shift21Bits(x: uint64)
    ensures ShiftRight21(x) == x ^ (x >> 21) && Xor(x, x >> 21) == x ^ (x >> 21) && Down21(x) == x >> 21
  {
  }

  lemma Shift21(x: uint64)
    ensures ShiftRight21(x) == Xor(x, Down21(x))
  {
    Shift21Bits(x);
    hide ShiftRight21, Xor, Down21;
  }

  lemma SelectedShift21(x: uint64, mask: uint64)
    ensures Selected(ShiftRight21(x), mask) == Selected(x, Left21(mask))
  {
    hide Selected, Xor, ShiftRight21, Down21, Up21;
    Shift21(x);
    SelectedXor(x, Down21(x), mask);
    SelectedXor(mask, Up21(mask), x);
    Selected21(x, mask);
  }

  lemma SelectedMix(h: uint64, mask: uint64)
    ensures Selected(Xor(Mix(h), h), mask) == Selected(h, Transposed(mask))
  {
    hide Selected, ShiftRight21, ShiftLeft35, ShiftRight4, Left4, Right35, Left21, Xor;
    SelectedXor(Mix(h), h, mask);
    SelectedShift4(ShiftLeft35(ShiftRight21(h)), mask);
    SelectedShift35(ShiftRight21(h), Left4(mask));
    SelectedShift21(h, Right35(Left4(mask)));
    SelectedXor(Left21(Right35(Left4(mask))), mask, h);
  }

  /** With a selected parity known, a single bit of `h` is known. */
  lemma BitOf(h: uint64, v: uint64, mask: uint64, bit: uint64)
    requires Mix(h) == Xor(h, v) && Transposed(mask) == bit
    ensures Selected(h, bit) == Selected(v, mask)
  {
    hide Selected, Mix, Xor, Transposed;
    SelectedMix(h, mask);
    XorCancels(h, v);
  }

  lemma XorCancels(h: uint64, v: uint64)
    ensures Xor(Xor(h, v), h) == v
  {
  }

  // ---------------------------------------------------------------- the low ten bits

  /** Selecting one of the low ten bits. */
  lemma LowTen(h: uint64)
    ensures Selected(h, 0x1) == (h & 0x1) >> 0
    ensures Selected(h, 0x2) == (h & 0x2) >> 1
    ensures Selected(h, 0x4) == (h & 0x4) >> 2
    ensures Selected(h, 0x8) == (h & 0x8) >> 3
    ensures Selected(h, 0x10) == (h & 0x10) >> 4
    ensures Selected(h, 0x20) == (h & 0x20) >> 5
    ensures Selected(h, 0x40) == (h & 0x40) >> 6
    ensures Selected(h, 0x80) == (h & 0x80) >> 7
    ensures Selected(h, 0x100) == (h & 0x100) >> 8
    ensures Selected(h, 0x200) == (h & 0x200) >> 9
  {
  }

  lemma MaskFacts()
    ensures Transposed(0x5913_7c80_9340_4969) == 0x1
    ensures Transposed(0x8326_f981_24e0_92c3) == 0x2
    ensures Transposed(0x374d_f382_4ba1_2597) == 0x4
    ensures Transposed(0xa489_be40_48a0_24b4) == 0x8
    ensures Transposed(0xb201_2544_4cc2_26e3) == 0x10
    ensures Transposed(0x5502_4a08_9be4_4dd7) == 0x20
    ensures Transposed(0xaa04_9411_37c8_9bae) == 0x40
    ensures Transposed(0x5409_2822_6f91_375c) == 0x80
    ensures Transposed(0x6200_0900_00c0_0122) == 0x100
    ensures Transposed(0xc400_1200_0180_0244) == 0x200
  {
  }

  lemma OddMasks()
    ensures Selected(1, 0x5913_7c80_9340_4969) == 1
    ensures Selected(1, 0x8326_f981_24e0_92c3) == 1
    ensures Selected(1, 0x374d_f382_4ba1_2597) == 1
    ensures Selected(1, 0xa489_be40_48a0_24b4) == 0
    ensures Selected(1, 0xb201_2544_4cc2_26e3) == 1
    ensures Selected(1, 0x5502_4a08_9be4_4dd7) == 1
    ensures Selected(1, 0xaa04_9411_37c8_9bae) == 0
    ensures Selected(1, 0x5409_2822_6f91_375c) == 0
    ensures Selected(1, 0x6200_0900_00c0_0122) == 0
    ensures Selected(1, 0xc400_1200_0180_0244) == 0
  {
  }

  lemma EvenMasks()
    ensures Selected(0x3, 0x5913_7c80_9340_4969) == 1
    ensures Selected(0x7, 0x5913_7c80_9340_4969) == 1
    ensures Selected(0xF, 0x374d_f382_4ba1_2597) == 1
    ensures Selected(0x1F, 0xb201_2544_4cc2_26e3) == 0
    ensures Selected(0x3F, 0x5913_7c80_9340_4969) == 1
    ensures Selected(0x7F, 0x8326_f981_24e0_92c3) == 1
    ensures Selected(0xFF, 0x374d_f382_4ba1_2597) == 1
    ensures Selected(0x1FF, 0x5913_7c80_9340_4969) == 1
    ensures Selected(0x3FF, 0x5913_7c80_9340_4969) == 1
  {
  }

  /** `h - 1` differs from `h` in the lowest bits, up to the lowest one bit. */
  lemma LowestBits(h: uint64)
    ensures h & 1 == 1 ==> Xor(h, 1) == h - 1
    ensures h & 0x3 == 0x2 ==> Xor(h, 0x3) == h - 1
    ensures h & 0x7 == 0x4 ==> Xor(h, 0x7) == h - 1
    ensures h & 0xF == 0x8 ==> Xor(h, 0xF) == h - 1
    ensures h & 0x1F == 0x10 ==> Xor(h, 0x1F) == h - 1
    ensures h & 0x3F == 0x20 ==> Xor(h, 0x3F) == h - 1
    ensures h & 0x7F == 0x40 ==> Xor(h, 0x7F) == h - 1
    ensures h & 0xFF == 0x80 ==> Xor(h, 0xFF) == h - 1
    ensures h & 0x1FF == 0x100 ==> Xor(h, 0x1FF) == h - 1
    ensures h & 0x3FF == 0x200 ==> Xor(h, 0x3FF) == h - 1
  {
  }

  lemma LowTenOf(h: uint64)
    requires Selected(h, 0x1) == 1
    requires Selected(h, 0x2) == 1
    requires Selected(h, 0x4) == 1
    requires Selected(h, 0x8) == 0
    requires Selected(h, 0x10) == 1
    requires Selected(h, 0x20) == 1
    requires Selected(h, 0x40) == 0
    requires Selected(h, 0x80) == 0
    requires Selected(h, 0x100) == 0
    requires Selected(h, 0x200) == 0
    ensures h & 0x3FF == 0x37
  {
    LowTen(h);
    hide Selected;
  }

  lemma OddKept(h: uint64)
    ensures Mix(h) == Xor(h, 1) ==> h & 0x3FF == 0x37
  {
    hide Selected, Mix, Xor, Transposed;
    if Mix(h) != Xor(h, 1) {
      return;
    }
    MaskFacts();
    OddMasks();
    BitOf(h, 1, 0x5913_7c80_9340_4969, 0x1);
    BitOf(h, 1, 0x8326_f981_24e0_92c3, 0x2);
    BitOf(h, 1, 0x374d_f382_4ba1_2597, 0x4);
    BitOf(h, 1, 0xa489_be40_48a0_24b4, 0x8);
    BitOf(h, 1, 0xb201_2544_4cc2_26e3, 0x10);
    BitOf(h, 1, 0x5502_4a08_9be4_4dd7, 0x20);
    BitOf(h, 1, 0xaa04_9411_37c8_9bae, 0x40);
    BitOf(h, 1, 0x5409_2822_6f91_375c, 0x80);
    BitOf(h, 1, 0x6200_0900_00c0_0122, 0x100);
    BitOf(h, 1, 0xc400_1200_0180_0244, 0x200);
    LowTenOf(h);
  }

  lemma EvenKept(h: uint64)
    ensures Mix(h) == h - 1 && h & 1 == 0 ==> h & 0x3FF == 0
  {
    hide Selected, Mix, Xor, Transposed;
    if Mix(h) != h - 1 || h & 1 != 0 {
      return;
    }
    MaskFacts();
    EvenMasks();
    LowestBits(h);
    if h & 0x3 == 0x2 { BitOf(h, 0x3, 0x5913_7c80_9340_4969, 0x1); }
    if h & 0x7 == 0x4 { BitOf(h, 0x7, 0x5913_7c80_9340_4969, 0x1); }
    if h & 0xF == 0x8 { BitOf(h, 0xF, 0x374d_f382_4ba1_2597, 0x4); }
    if h & 0x1F == 0x10 { BitOf(h, 0x1F, 0xb201_2544_4cc2_26e3, 0x10); }
    if h & 0x3F == 0x20 { BitOf(h, 0x3F, 0x5913_7c80_9340_4969, 0x1); }
    if h & 0x7F == 0x40 { BitOf(h, 0x7F, 0x8326_f981_24e0_92c3, 0x2); }
    if h & 0xFF == 0x80 { BitOf(h, 0xFF, 0x374d_f382_4ba1_2597, 0x4); }
    if h & 0x1FF == 0x100 { BitOf(h, 0x1FF, 0x5913_7c80_9340_4969, 0x1); }
    if h & 0x3FF == 0x200 { BitOf(h, 0x3FF, 0x5913_7c80_9340_4969, 0x1); }
    LowTen(h);
  }

  /** The low ten bits determine the rest. */
  lemma RestOf(h: uint64)
    ensures h & 0x3FF == 0 ==> Mix(h) != h - 1
    ensures h & 0x3FF == 0x37 && Mix(h) == h - 1 ==> h == STUCK
  {
  }

  lemma StuckIsKept()
    ensures Update(STUCK, 1) == STUCK
  {
  }

  lemma OneLess(h: uint64)
    ensures Minus(h, 1) == h - 1
  {
  }

  /** An update with 1 keeps exactly one state. */
  lemma OneKeptState(h: uint64)
    ensures Update(h, 1) == h <==> h == STUCK
  {
    StuckIsKept();
    hide Mix, Plus, Minus, Xor;
    if Update(h, 1) == h {
      PlusMinus(Mix(h), 1);
      OneLess(h);
      LowestBits(h);
      RestOf(h);
      OddOrEven(h);
      if h & 1 == 0 {
        EvenKept(h);
      } else {
        OddKept(h);
      }
    }
  }

  lemma OddOrEven(h: uint64)
    ensures h & 1 == 0 || h & 1 == 1
  {
  }
}
