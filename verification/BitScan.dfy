/** Words and their bits, and the two versions of `__rt_ffs` (src/kservice.c). The lemmas here are about
    bit vectors; users number bits with naturals. */
module BitScan {
  datatype Word = Word(v: bv32)

  const ZERO := Word(0)

  function MaskOf(b: bv32): bv32 { if b < 32 then (1 as bv32) << b else 0 }

  function AndOf(v: bv32, w: bv32): bv32 { v & w }

  function OrOf(v: bv32, w: bv32): bv32 { v | w }

  function AndNotOf(v: bv32, w: bv32): bv32 { v & !w }

  // The shift amount for bit k.
  function Shift(k: nat): bv32 {
    match k
    case 0 => 0 case 1 => 1 case 2 => 2 case 3 => 3 case 4 => 4 case 5 => 5 case 6 => 6 case 7 => 7
    case 8 => 8 case 9 => 9 case 10 => 10 case 11 => 11 case 12 => 12 case 13 => 13 case 14 => 14 case 15 => 15
    case 16 => 16 case 17 => 17 case 18 => 18 case 19 => 19 case 20 => 20 case 21 => 21 case 22 => 22 case 23 => 23
    case 24 => 24 case 25 => 25 case 26 => 26 case 27 => 27 case 28 => 28 case 29 => 29 case 30 => 30 case 31 => 31
    case _ => 32
  }

  // Bit k of a word, the word 1 << k, and the updates `|= x` and `&= ~x`.
  predicate Bit(w: Word, k: nat) { k < 32 && AndOf(w.v, MaskOf(Shift(k))) != 0 }

  function Mask(k: nat): Word { Word(MaskOf(Shift(k))) }

  function Or(w: Word, x: Word): Word { Word(OrOf(w.v, x.v)) }

  function AndNot(w: Word, x: Word): Word { Word(AndNotOf(w.v, x.v)) }

  lemma {:induction false} ShiftsIncrease(j: nat, k: nat)
    requires j < 32 && k < 32
    ensures Shift(j) < 32
    ensures j < k ==> Shift(j) < Shift(k)
  {
  }

  lemma {:induction false} MasksDisjoint(p: bv32, q: bv32)
    requires p < 32 && q < 32
    ensures MaskOf(p) != 0
    ensures p != q ==> AndOf(MaskOf(p), MaskOf(q)) == 0
  {
  }

  lemma {:induction false} OwnBits(g: bv32, x: bv32)
    requires x != 0
    ensures AndOf(OrOf(g, x), x) != 0
    ensures AndOf(AndNotOf(g, x), x) == 0
  {
  }

  // Setting or clearing the bits of x leaves the bits of a disjoint y alone.
  lemma {:induction false} OtherBitsSet(g: bv32, x: bv32, y: bv32)
    requires AndOf(x, y) == 0
    ensures AndOf(OrOf(g, x), y) == AndOf(g, y)
  {
  }

  lemma {:induction false} OtherBitsClear(g: bv32, x: bv32, y: bv32)
    requires AndOf(x, y) == 0
    ensures AndOf(AndNotOf(g, x), y) == AndOf(g, y)
  {
  }

  lemma {:induction false} UpdateBit(g: Word, p: nat, q: nat)
    requires p < 32
    ensures Bit(Or(g, Mask(p)), q) <==> q == p || Bit(g, q)
    ensures Bit(AndNot(g, Mask(p)), q) <==> q != p && Bit(g, q)
  {
    hide Shift, AndOf, OrOf, AndNotOf, MaskOf;
    if q < 32 {
      ShiftsIncrease(p, q);
      ShiftsIncrease(q, p);
      MasksDisjoint(Shift(p), Shift(q));
      if p == q {
        OwnBits(g.v, MaskOf(Shift(p)));
      } else {
        OtherBitsSet(g.v, MaskOf(Shift(p)), MaskOf(Shift(q)));
        OtherBitsClear(g.v, MaskOf(Shift(p)), MaskOf(Shift(q)));
      }
    }
  }

  // The 256-entry table of src/kservice.c, sixteen entries to a row: the rows differ only in their
  // first entry.
  function Row(first: bv32, column: bv32): bv32 {
    if column == 0 then first
    else if column & 1 == 1 then 0
    else if column & 2 == 2 then 1
    else if column & 4 == 4 then 2
    else 3
  }

  function FirstOfRow(row: bv32): bv32 {
    if row == 0 then 0
    else if row & 1 == 1 then 4
    else if row & 2 == 2 then 5
    else if row & 4 == 4 then 6
    else 7
  }

  function LowestBitOfByte(b: bv32): bv32 { Row(FirstOfRow(b >> 4), b & 0xF) }

  function FfsOf(v: bv32): bv32 {
    if v == 0 then 0
    else if v & 0xFF != 0 then LowestBitOfByte(v & 0xFF) + 1
    else if v & 0xFF00 != 0 then LowestBitOfByte((v & 0xFF00) >> 8) + 9
    else if v & 0xFF0000 != 0 then LowestBitOfByte((v & 0xFF0000) >> 16) + 17
    else LowestBitOfByte((v & 0xFF000000) >> 24) + 25
  }

  // The 37-entry table.
  function TinyEntry(i: bv32): bv32 {
    match i
    case 0 => 0 case 1 => 1 case 2 => 2 case 3 => 27 case 4 => 3 case 5 => 24
    case 6 => 28 case 7 => 32 case 8 => 4 case 9 => 17 case 10 => 25 case 11 => 31
    case 12 => 29 case 13 => 12 case 14 => 32 case 15 => 14 case 16 => 5 case 17 => 8
    case 18 => 18 case 19 => 32 case 20 => 26 case 21 => 23 case 22 => 32 case 23 => 16
    case 24 => 30 case 25 => 11 case 26 => 13 case 27 => 7 case 28 => 32 case 29 => 22
    case 30 => 15 case 31 => 10 case 32 => 6 case 33 => 21 case 34 => 9 case 35 => 20
    case 36 => 19
    case _ => 0
  }

  function LowestAlone(v: bv32): bv32 { (v & (v - 1)) ^ v }

  function Remainder(v: bv32): bv32 { v % 37 }

  function TinyFfsOf(v: bv32): bv32 { TinyEntry(Remainder(LowestAlone(v))) }

  function Number(b: bv32): nat {
    match b
    case 0 => 0 case 1 => 1 case 2 => 2 case 3 => 3 case 4 => 4 case 5 => 5 case 6 => 6 case 7 => 7
    case 8 => 8 case 9 => 9 case 10 => 10 case 11 => 11 case 12 => 12 case 13 => 13 case 14 => 14 case 15 => 15
    case 16 => 16 case 17 => 17 case 18 => 18 case 19 => 19 case 20 => 20 case 21 => 21 case 22 => 22 case 23 => 23
    case 24 => 24 case 25 => 25 case 26 => 26 case 27 => 27 case 28 => 28 case 29 => 29 case 30 => 30 case 31 => 31
    case _ => 32
  }

  // The two versions of `__rt_ffs`: the table-driven one and the one for RT_USING_TINY_FFS.
  function Ffs(w: Word): nat { Number(FfsOf(w.v)) }

  function TinyFfs(w: Word): nat { Number(TinyFfsOf(w.v)) }

  // No bit of v below bit b.
  predicate NoneBelow(v: bv32, b: bv32) { v & (MaskOf(b) - 1) == 0 }

  lemma {:induction false} FfsOfIsLowest(v: bv32)
    ensures FfsOf(v) <= 32 && (FfsOf(v) == 0 <==> v == 0)
    ensures v != 0 ==> AndOf(v, MaskOf(FfsOf(v) - 1)) != 0 && NoneBelow(v, FfsOf(v) - 1)
  {
  }

  lemma {:induction false} Below(v: bv32, b: bv32, c: bv32)
    requires NoneBelow(v, b) && AndOf(v, MaskOf(c)) != 0 && b < 32
    ensures b <= c
  {
  }

  lemma {:induction false} LowestIsolated(v: bv32, m: bv32)
    requires m & (m - 1) == 0 && v & (m - 1) == 0 && v & m != 0
    ensures LowestAlone(v) == m
  {
  }

  lemma {:induction false} MaskIsolated(v: bv32, b: bv32)
    requires AndOf(v, MaskOf(b)) != 0 && NoneBelow(v, b)
    ensures var m := MaskOf(b); m & (m - 1) == 0 && v & (m - 1) == 0 && v & m != 0
  {
  }

  // 2 generates the nonzero residues modulo 37, so the 32 masks fall on 32 different entries.
  lemma {:induction false} ResidueLow(b: bv32)
    requires b < 16
    ensures TinyEntry(Remainder(MaskOf(b))) == b + 1
  {
  }

  lemma {:induction false} ResidueHigh(b: bv32)
    requires 16 <= b < 32
    ensures TinyEntry(Remainder(MaskOf(b))) == b + 1
  {
  }

  lemma {:induction false} OfZero()
    ensures TinyFfsOf(0) == 0 && FfsOf(0) == 0 && Number(0) == 0
  {
  }

  lemma {:induction false} TinyFfsAgrees(w: Word)
    ensures TinyFfs(w) == Ffs(w)
  {
    hide FfsOf, MaskOf, TinyEntry, Number, Remainder, LowestAlone, AndOf, NoneBelow;
    FfsOfIsLowest(w.v);
    OfZero();
    if w.v != 0 {
      var b := FfsOf(w.v) - 1;
      MaskIsolated(w.v, b);
      LowestIsolated(w.v, MaskOf(b));
      if b < 16 { ResidueLow(b); } else { ResidueHigh(b); }
    }
  }

  lemma {:induction false} NumberLow(b: bv32)
    requires 1 <= b <= 16
    ensures 1 <= Number(b) <= 32 && Shift(Number(b) - 1) == b - 1
  {
  }

  lemma {:induction false} NumberHigh(b: bv32)
    requires 16 < b <= 32
    ensures 1 <= Number(b) <= 32 && Shift(Number(b) - 1) == b - 1
  {
  }

  // `__rt_ffs` returns one more than the number of the lowest set bit, and zero only for zero.
  lemma {:induction false} FfsFindsLowest(w: Word)
    ensures Ffs(w) <= 32 && (Ffs(w) == 0 <==> w == ZERO)
    ensures w != ZERO ==> Bit(w, Ffs(w) - 1)
    ensures forall k: nat :: Bit(w, k) ==> w != ZERO && Ffs(w) - 1 <= k
  {
    hide Shift, AndOf, MaskOf, FfsOf, Number, NoneBelow;
    FfsOfIsLowest(w.v);
    OfZero();
    if w.v == 0 {
      forall k: nat ensures !Bit(w, k) { ZeroHasNoBit(k); }
    } else {
      var b := FfsOf(w.v);
      if b <= 16 { NumberLow(b); } else { NumberHigh(b); }
      forall k: nat | Bit(w, k) ensures Ffs(w) - 1 <= k {
        Below(w.v, FfsOf(w.v) - 1, Shift(k));
        ShiftsIncrease(k, Ffs(w) - 1);
      }
    }
  }

  lemma {:induction false} ZeroHasNoBit(k: nat)
    ensures !Bit(ZERO, k)
  {
    hide Shift;
  }
}
