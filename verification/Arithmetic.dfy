/** What the bytes that instructions compute mean as numbers and bit by bit. Nothing here depends on how the
    operators are written. */
module Arithmetic {
  import opened Isa

  function PowerOfTwo(n: nat): (p: nat)
    ensures p > 0
  {
    if n == 0 then 1 else 2 * PowerOfTwo(n - 1)
  }

  lemma {:induction false} PowerGrows(n: nat, m: nat)
    requires n <= m
    ensures PowerOfTwo(n) <= PowerOfTwo(m)
    decreases m - n
  {
    if n < m {
      PowerGrows(n, m - 1);
    }
  }

  lemma SmallPowers()
    ensures PowerOfTwo(0) == 1 && PowerOfTwo(1) == 2 && PowerOfTwo(2) == 4 && PowerOfTwo(3) == 8
    ensures PowerOfTwo(4) == 16 && PowerOfTwo(5) == 32 && PowerOfTwo(6) == 64 && PowerOfTwo(7) == 128 && PowerOfTwo(8) == 256
  {
    assert PowerOfTwo(2) == 4;
    assert PowerOfTwo(4) == 16;
    assert PowerOfTwo(6) == 64;
  }

  // ----- bits

  /** Bit i of a set is worth two to the i. */
  lemma BitIsPower(i: nat)
    requires i < 8
    ensures Num(Bit(i)) == PowerOfTwo(i)
  {
    SmallPowers();
  }

  /** A set has register i exactly if that binary digit of its number is one. */
  lemma HasIsDigit(x: bv8, i: nat)
    requires i < 8
    ensures Has(x, i) <==> Num(x) / PowerOfTwo(i) % 2 == 1
  {
    SmallPowers();
    HasIsOdd(x, i);
  }

  lemma HasIsOdd(x: bv8, i: nat)
    requires i < 8
    ensures Has(x, i) <==> Num(x) / (match i case 0 => 1 case 1 => 2 case 2 => 4 case 3 => 8 case 4 => 16 case 5 => 32 case 6 => 64 case 7 => 128) % 2 == 1
  {
    hide Num;
    Halves(x);
    LowestDigit(x);
    LowestDigit(x >> 1);
    LowestDigit(x >> 2);
    LowestDigit(x >> 3);
    LowestDigit(x >> 4);
    LowestDigit(x >> 5);
    LowestDigit(x >> 6);
    LowestDigit(x >> 7);
    DigitMoves(x);
  }

  lemma LowestDigit(x: bv8)
    ensures x & 1 != 0 <==> Num(x) % 2 == 1
  {}

  lemma DigitMoves(x: bv8)
    ensures x & 2 != 0 <==> (x >> 1) & 1 != 0
    ensures x & 4 != 0 <==> (x >> 2) & 1 != 0
    ensures x & 8 != 0 <==> (x >> 3) & 1 != 0
    ensures x & 16 != 0 <==> (x >> 4) & 1 != 0
    ensures x & 32 != 0 <==> (x >> 5) & 1 != 0
    ensures x & 64 != 0 <==> (x >> 6) & 1 != 0
    ensures x & 128 != 0 <==> (x >> 7) & 1 != 0
  {}

  lemma AndBit(x: bv8, y: bv8, imm: bv8, k: nat)
    requires k < 8
    ensures Has(Alu(And, x, y, imm), k) <==> Has(x, k) && Has(y, k)
  {}

  lemma NadBit(x: bv8, y: bv8, imm: bv8, k: nat)
    requires k < 8
    ensures Has(Alu(Nad, x, y, imm), k) <==> !(Has(x, k) && Has(y, k))
  {}

  lemma XorBit(x: bv8, y: bv8, imm: bv8, k: nat)
    requires k < 8
    ensures Has(Alu(Xor, x, y, imm), k) <==> Has(x, k) != Has(y, k)
  {}

  lemma OrBitOf(x: bv8, y: bv8, k: nat)
    requires k < 8
    ensures Has(Or8(x, y), k) <==> Has(x, k) || Has(y, k)
  {}

  // ----- numbers

  lemma Successor(x: bv8)
    ensures Num(x + 1) == if x == 255 then 0 else Num(x) + 1
    ensures x != 0 ==> Num(x - 1) == Num(x) - 1
    ensures x == 255 <==> Num(x) == 255
    ensures x == 0 <==> Num(x) == 0
  {}

  function Sum(x: bv8, y: bv8): bv8 {
    x + y
  }

  lemma SumSteps(x: bv8, y: bv8)
    ensures Sum(x, y) == Sum(x, y - 1) + 1 && Sum(x, 0) == x
  {}

  lemma {:induction false} SumIs(x: bv8, y: bv8)
    ensures Num(Sum(x, y)) == (Num(x) + Num(y)) % 256
    decreases Num(y)
  {
    hide Num, Sum;
    Successor(y);
    SumSteps(x, y);
    if y != 0 {
      SumIs(x, y - 1);
      Successor(Sum(x, y - 1));
    }
  }

  /** The sum, modulo 256. */
  lemma AddMeans(x: bv8, y: bv8, imm: bv8)
    ensures Num(Alu(Add, x, y, imm)) == (Num(x) + Num(y)) % 256
  {
    hide Num;
    SumIs(x, y);
    assert Alu(Add, x, y, imm) == Sum(x, y);
  }

  lemma MinusSteps(x: bv8, y: bv8)
    ensures Minus(x, y) == Minus(x, y - 1) - 1 && Minus(x, 0) == x
  {}

  /** The difference, modulo 256. */
  lemma {:induction false} MinusMeans(x: bv8, y: bv8)
    ensures Num(Minus(x, y)) == (Num(x) - Num(y)) % 256
    decreases Num(y)
  {
    hide Num, Minus;
    Successor(y);
    MinusSteps(x, y);
    if y != 0 {
      MinusMeans(x, y - 1);
      Successor(Minus(x, y - 1));
      ZeroLess(Minus(x, y - 1));
    }
  }

  lemma ZeroLess(x: bv8)
    ensures x == 0 ==> Num(x - 1) == 255
  {}

  lemma BorrowMeans(x: bv8, y: bv8)
    ensures Borrow(x, y) <==> Num(x) < Num(y)
  {}

  lemma Halves(x: bv8)
    ensures Num(x >> 1) == Num(x) / 2 && Num(x >> 2) == Num(x) / 4 && Num(x >> 3) == Num(x) / 8 && Num(x >> 4) == Num(x) / 16
    ensures Num(x >> 5) == Num(x) / 32 && Num(x >> 6) == Num(x) / 64 && Num(x >> 7) == Num(x) / 128
  {}

  lemma SmallCounts(c: bv8)
    ensures Num(c) == 0 <==> c == 0
    ensures Num(c) == 1 <==> c == 1
    ensures Num(c) == 2 <==> c == 2
    ensures Num(c) == 3 <==> c == 3
    ensures Num(c) == 4 <==> c == 4
    ensures Num(c) == 5 <==> c == 5
    ensures Num(c) == 6 <==> c == 6
    ensures Num(c) == 7 <==> c == 7
  {}

  /** The quotient by two to the count, for every count a byte can hold. */
  lemma ShiftMeans(x: bv8, count: bv8)
    ensures Num(ShiftRight(x, count)) == Num(x) / PowerOfTwo(Num(count))
  {
    hide Num, PowerOfTwo;
    SmallPowers();
    SmallCounts(count);
    Halves(x);
    ZeroIs();
    if Num(count) >= 8 {
      PowerGrows(8, Num(count));
      Vanishes(Num(x), PowerOfTwo(Num(count)));
    }
  }

  lemma ZeroIs()
    ensures Num(0) == 0
  {}

  lemma Vanishes(n: nat, p: nat)
    requires n < 256 <= p
    ensures n / p == 0
  {}

  /** Bit by bit: what stood `count` places higher. */
  lemma ShiftBit(x: bv8, count: bv8, k: nat)
    requires k < 8
    ensures Has(ShiftRight(x, count), k) <==> k + Num(count) < 8 && Has(x, k + Num(count))
  {
    hide Num;
    SmallCounts(count);
    if Num(count) < 8 {
      ShiftBitBelow(x, Num(count), k);
    }
  }

  lemma ShiftBitBelow(x: bv8, c: nat, k: nat)
    requires k < 8 && c < 8
    ensures var r := (match c case 0 => x case 1 => x >> 1 case 2 => x >> 2 case 3 => x >> 3 case 4 => x >> 4 case 5 => x >> 5 case 6 => x >> 6 case 7 => x >> 7);
            Has(r, k) <==> k + c < 8 && Has(x, k + c)
  {}

  // ----- instructions

  /** What an arithmetic instruction that executes leaves in register j, in numbers and bits. */
  ghost predicate Computes(i: Instr, x: bv8, y: bv8, v: bv8) {
    && (i.op == Add ==> Num(v) == (Num(x) + Num(y)) % 256)
    && (i.op == Cmp ==> Num(v) == (Num(x) - Num(y)) % 256)
    && (i.op == Shr ==> Num(v) == Num(x) / PowerOfTwo(Num(i.b)))
    && (i.op == Mov ==> v == y)
    && (i.op == And ==> forall k: nat :: k < 8 ==> (Has(v, k) <==> Has(x, k) && Has(y, k)))
    && (i.op == Xor ==> forall k: nat :: k < 8 ==> (Has(v, k) <==> Has(x, k) != Has(y, k)))
    && (i.op == Nad ==> forall k: nat :: k < 8 ==> (Has(v, k) <==> !(Has(x, k) && Has(y, k))))
  }

  lemma PlainRows(x: bv8, y: bv8, imm: bv8)
    ensures Alu(Cmp, x, y, imm) == Minus(x, y) && Alu(Mov, x, y, imm) == y && Alu(Shr, x, y, imm) == ShiftRight(x, imm)
  {
    hide Minus, ShiftRight;
  }

  lemma AluComputes(i: Instr, x: bv8, y: bv8)
    requires IsAlu(i.op)
    ensures Computes(i, x, y, Alu(i.op, x, y, i.b))
  {
    hide Num, Has, Minus, ShiftRight, PowerOfTwo, Alu;
    match i.op
    case Add => AddMeans(x, y, i.b);
    case Cmp => MinusMeans(x, y); PlainRows(x, y, i.b);
    case Shr => ShiftMeans(x, i.b); PlainRows(x, y, i.b);
    case Mov => PlainRows(x, y, i.b);
    case And =>
      forall k: nat | k < 8 ensures Has(Alu(And, x, y, i.b), k) <==> Has(x, k) && Has(y, k) {
        AndBit(x, y, i.b, k);
      }
    case Xor =>
      forall k: nat | k < 8 ensures Has(Alu(Xor, x, y, i.b), k) <==> Has(x, k) != Has(y, k) {
        XorBit(x, y, i.b, k);
      }
    case Nad =>
      forall k: nat | k < 8 ensures Has(Alu(Nad, x, y, i.b), k) <==> !(Has(x, k) && Has(y, k)) {
        NadBit(x, y, i.b, k);
      }
  }

  /** The arithmetic of the instruction set. An instruction that computes writes every register of its first set
      and no other, with the number or the bits it is named for; a comparison also sets carry when the first
      operand is smaller and zero when they are equal; nothing else changes. */
  lemma ArithmeticMeans(cfg: Config, dev: Device, i: Instr, s: State)
    requires IsAlu(i.op)
    ensures var t := Effect(cfg, dev, i, s);
            var x, y := ReadSet(s.regs, i.a), ReadSet(s.regs, i.b);
            && (forall j: nat :: j < 8 && Has(i.a, j) ==> Computes(i, x, y, t.regs[j]))
            && (forall j: nat :: j < 8 && !Has(i.a, j) ==> t.regs[j] == s.regs[j])
            && (i.op == Cmp ==> (t.cf <==> Num(x) < Num(y)) && (t.zf <==> Num(x) == Num(y)))
            && t == s.(regs := t.regs, cf := if i.op == Cmp then t.cf else s.cf, zf := if i.op == Cmp then t.zf else s.zf)
  {
    hide ReadSet, Num, Has, Minus, Computes, Borrow;
    var x, y := ReadSet(s.regs, i.a), ReadSet(s.regs, i.b);
    AluComputes(i, x, y);
    BorrowMeans(x, y);
    SameNumber(x, y);
    RowOf(cfg, dev, i, s);
  }

  lemma SameNumber(x: bv8, y: bv8)
    ensures Num(x) == Num(y) <==> x == y
  {
    ByteOfNum(x);
    ByteOfNum(y);
  }

  lemma RowOf(cfg: Config, dev: Device, i: Instr, s: State)
    requires IsAlu(i.op)
    ensures var x, y := ReadSet(s.regs, i.a), ReadSet(s.regs, i.b);
            var r := WriteSet(s.regs, i.a, Alu(i.op, x, y, i.b));
            Effect(cfg, dev, i, s) == if i.op == Cmp then s.(regs := r, cf := Borrow(x, y), zf := x == y) else s.(regs := r)
  {
    hide ReadSet, WriteSet, Minus, Borrow, ShiftRight;
  }

  // ----- the control byte

  /** `ctr` takes the bits that the mask names from the value; of the old byte only bit 0 stays, and only when the
      mask is empty. */
  lemma ControlBit(old_: bv8, v: bv8, mask: bv8, k: nat)
    requires k < 8
    ensures Has(ControlByte(old_, v, mask), k) <==> (Has(v, k) && Has(mask, k)) || (k == 0 && mask == 0 && Has(old_, 0))
  {}

  lemma ControlMeans(cfg: Config, dev: Device, i: Instr, s: State, k: nat)
    requires i.op == Ctr && k < 8
    ensures var t := Effect(cfg, dev, i, s);
            && t == s.(ctr := t.ctr)
            && (Has(t.ctr, k) <==> (Has(ReadSet(s.regs, i.a), k) && Has(i.b, k)) || (k == 0 && i.b == 0 && Has(s.ctr, 0)))
  {
    hide ReadSet, ControlByte, Has;
    ControlBit(s.ctr, ReadSet(s.regs, i.a), i.b, k);
  }

  // ----- memory

  /** Memory of more than 256 cells is segmented: the byte in cell 3 selects which stretch of 256 cells an address
      falls into, and the stretches of all its values are the whole memory. Cell 3 itself is in every segment. */
  lemma CellMeans(cfg: Config, ram: Ram, address: bv8)
    ensures Cell(cfg, ram, address) % 256 == Num(address)
    ensures Cell(cfg, ram, address) / 256 == if cfg.memorySize <= 256 || Num(address) == 3 then 0 else Num(ram[3])
    ensures RAM_SIZE == 256 * 256
  {
    hide Num;
  }

  lemma WideMeans(high: bv8, low: bv8)
    ensures Wide(high, low) / 256 == Num(high) && Wide(high, low) % 256 == Num(low)
  {
    hide Num;
  }
}
