/** The instruction set that the interpreter, the native compiler and the pipelined core all implement:
    register sets, conditions, and the effect of one instruction on the programmer-visible state. */
module Isa {
  import Bytes

  const REGISTER_COUNT := 8
  const RAM_SIZE := 65536
  const SEGMENT_SIZE := 256
  const SEGMENT_REGISTER := 3

  /** The eight general purpose registers. */
  type Regs = r: seq<bv8> | |r| == REGISTER_COUNT witness [0, 0, 0, 0, 0, 0, 0, 0]

  type Ram = r: seq<bv8> | |r| == RAM_SIZE witness seq(RAM_SIZE, i => 0)

  datatype Op =
    | Nop | Set | Ldm | Stm | Jpr | Jpi | Cid | Ctr
    | Nad | And | Xor | Shr | Mov | Ext | Add | Cmp

  /** One decoded instruction: the condition nibble and the two argument bytes. */
  datatype Instr = Instr(op: Op, cond: bv4, a: bv8, b: bv8)

  /** The top nibble of an instruction word. */
  function OpCode(op: Op): (c: nat)
    ensures c < 16
  {
    match op
    case Nop => 0
    case Set => 1
    case Ldm => 2
    case Stm => 3
    case Jpr => 4
    case Jpi => 5
    case Cid => 6
    case Ctr => 7
    case Nad => 8
    case And => 9
    case Xor => 10
    case Shr => 11
    case Mov => 12
    case Ext => 13
    case Add => 14
    case Cmp => 15
  }

  const COND_F: bv4 := 0
  const COND_T: bv4 := 15
  const COND_NBE: bv4 := 5
  const COND_NC: bv4 := 13
  const COND_C: bv4 := 14
  const COND_NE: bv4 := 7
  const COND_E: bv4 := 11

  /** The seven conditions that have a name in assembly. */
  predicate NamedCond(c: bv4) {
    c == COND_F || c == COND_T || c == COND_NBE || c == COND_NC || c == COND_C || c == COND_NE || c == COND_E
  }

  // ----- peripherals and memory configuration

  datatype Event = PeripheralRead(address: nat, value: bv8) | PeripheralWrite(address: nat, value: bv8)

  /** What a peripheral answers to a read, given everything that happened to the peripherals before. */
  type Device = (seq<Event>, nat) -> bv8

  datatype Config = Config(memorySize: nat, peripherals: set<nat>) {
    predicate Segmented() {
      memorySize > SEGMENT_SIZE
    }
  }

  // ----- machine state

  datatype State = State(regs: Regs, pc: nat, cf: bool, zf: bool, ram: Ram, ctr: bv8, trace: seq<Event>)

  // ----- register sets

  function Bit(i: nat): bv8
    requires i < 8
  {
    match i
    case 0 => 1
    case 1 => 2
    case 2 => 4
    case 3 => 8
    case 4 => 16
    case 5 => 32
    case 6 => 64
    case 7 => 128
  }

  predicate Has(mask: bv8, i: nat)
    requires i < 8
  {
    mask & Bit(i) != 0
  }

  function Pick(r: Regs, mask: bv8, i: nat): bv8
    requires i < 8
  {
    if Has(mask, i) then r[i] else 0
  }

  /** What each register contributes to a read of the set. */
  function Picks(r: Regs, mask: bv8): seq<bv8> {
    seq(8, i requires 0 <= i < 8 => Pick(r, mask, i))
  }

  function Or8(x: bv8, y: bv8): bv8 {
    x | y
  }

  function OrFirst(x: seq<bv8>, n: nat): bv8
    requires n <= |x|
  {
    if n == 0 then 0 else Or8(OrFirst(x, n - 1), x[n - 1])
  }

  function OrAll(x: seq<bv8>): bv8 {
    OrFirst(x, |x|)
  }

  /** The OR of the registers that the set names. */
  function ReadSet(r: Regs, mask: bv8): bv8 {
    OrAll(Picks(r, mask))
  }

  /** Every register the set names becomes v. */
  function WriteSet(r: Regs, mask: bv8, v: bv8): Regs {
    seq(8, i requires 0 <= i < 8 => if Has(mask, i) then v else r[i])
  }

  // ----- conditions

  function FlagMask(cf: bool, zf: bool): bv4 {
    (if zf then 8 else 4) | (if cf then 2 else 1)
  }

  /** Does an instruction with this condition run under these flags? */
  predicate CheckFlags(cond: bv4, cf: bool, zf: bool) {
    var fdf := cond & FlagMask(cf, zf);
    fdf & 3 != 0 && fdf & 12 != 0
  }

  /** What the names of the conditions promise. */
  lemma NamedConditions(cf: bool, zf: bool)
    ensures CheckFlags(COND_T, cf, zf) && !CheckFlags(COND_F, cf, zf)
    ensures CheckFlags(COND_E, cf, zf) <==> zf
    ensures CheckFlags(COND_NE, cf, zf) <==> !zf
    ensures CheckFlags(COND_C, cf, zf) <==> cf
    ensures CheckFlags(COND_NC, cf, zf) <==> !cf
    ensures CheckFlags(COND_NBE, cf, zf) <==> !cf && !zf
  {}

  /** The bits of the named conditions: 8 and 4 allow the zero flag to be on and off, 2 and 1 the carry. */
  lemma ConditionBits()
    ensures COND_F == 0 && COND_T == 8 | 4 | 2 | 1 && COND_NBE == 4 | 1
    ensures COND_NC == 8 | 4 | 1 && COND_C == 8 | 4 | 2 && COND_NE == 4 | 2 | 1 && COND_E == 8 | 2 | 1
  {}

  /** A nibble without a name is either one of three that no name says, or never holds. */
  lemma UnnamedConditions(cond: bv4, cf: bool, zf: bool)
    requires !NamedCond(cond)
    ensures CheckFlags(cond, cf, zf) <==>
            (cond == 6 && !zf && cf) || (cond == 9 && zf && !cf) || (cond == 10 && zf && cf)
  {}

  // ----- arithmetic

  /** Logical shift right; every count above seven clears the byte. */
  function ShiftRight(x: bv8, count: bv8): bv8 {
    if count == 0 then x
    else if count == 1 then x >> 1
    else if count == 2 then x >> 2
    else if count == 3 then x >> 3
    else if count == 4 then x >> 4
    else if count == 5 then x >> 5
    else if count == 6 then x >> 6
    else if count == 7 then x >> 7
    else 0
  }

  /** The number a byte denotes. */
  function Num(x: bv8): (n: nat)
    ensures n < 256
  {
    x as nat
  }

  function ByteOf(n: nat): bv8
    requires n < 256
  {
    n as bv8
  }

  lemma NumOfByte(n: nat)
    requires n < 256
    ensures Num(ByteOf(n)) == n
  {
    Bytes.CastsInvert(n);
  }

  lemma ByteOfNum(b: bv8)
    ensures ByteOf(Num(b)) == b
  {}

  function Wide(high: bv8, low: bv8): (w: nat)
    ensures w < 65536
  {
    Num(high) * 256 + Num(low)
  }

  function Minus(x: bv8, y: bv8): bv8 {
    x - y
  }

  predicate Borrow(x: bv8, y: bv8) {
    x < y
  }

  /** The value an arithmetic instruction writes, from its two operand values and its second byte. */
  function Alu(op: Op, x: bv8, y: bv8, immediate: bv8): bv8 {
    match op
    case Nad => !(x & y)
    case And => x & y
    case Xor => x ^ y
    case Shr => ShiftRight(x, immediate)
    case Mov => y
    case Add => x + y
    case Cmp => Minus(x, y)
    case _ => 0
  }

  predicate IsAlu(op: Op) {
    op in {Nad, And, Xor, Shr, Mov, Add, Cmp}
  }

  // ----- memory

  predicate HitsPeripheral(cfg: Config, ram: Ram, address: nat) {
    (!cfg.Segmented() || ram[SEGMENT_REGISTER] == 0) && address in cfg.peripherals
  }

  /** The RAM cell that an 8-bit address denotes when no peripheral answers. */
  function Cell(cfg: Config, ram: Ram, address: bv8): (c: nat)
    ensures c < RAM_SIZE
  {
    if cfg.Segmented() && Num(address) != SEGMENT_REGISTER then Wide(ram[SEGMENT_REGISTER], address) else Num(address)
  }

  function Load(cfg: Config, dev: Device, s: State, mask: bv8, address: bv8): State {
    if HitsPeripheral(cfg, s.ram, Num(address)) then
      var v := dev(s.trace, Num(address));
      s.(regs := WriteSet(s.regs, mask, v), trace := s.trace + [PeripheralRead(Num(address), v)])
    else
      s.(regs := WriteSet(s.regs, mask, s.ram[Cell(cfg, s.ram, address)]))
  }

  function Store(cfg: Config, s: State, address: bv8, v: bv8): State {
    if HitsPeripheral(cfg, s.ram, Num(address)) then
      s.(trace := s.trace + [PeripheralWrite(Num(address), v)])
    else
      s.(ram := s.ram[Cell(cfg, s.ram, address) := v])
  }

  // ----- one instruction

  const CID_REGISTERS: bv8 := 15

  /** The control byte after `ctr`: the old byte is masked with the logical negation of the mask, 0 or 1. */
  function ControlByte(old_: bv8, v: bv8, mask: bv8): bv8 {
    (v & mask) | (old_ & (if mask == 0 then 1 else 0))
  }

  /** Subtract, keep the low byte, and record borrow and zero. */
  function CompareAndStore(s: State, mask: bv8, x: bv8, y: bv8): State {
    s.(regs := WriteSet(s.regs, mask, Minus(x, y)), cf := Borrow(x, y), zf := x == y)
  }

  /** The effect of an instruction whose condition holds; pc already points past it. */
  function Effect(cfg: Config, dev: Device, i: Instr, s: State): State {
    var x := ReadSet(s.regs, i.a);
    var y := ReadSet(s.regs, i.b);
    match i.op
    case Nop => s
    case Ext => s
    case Set => s.(regs := WriteSet(s.regs, i.a, i.b))
    case Ldm => Load(cfg, dev, s, i.a, y)
    case Stm => Store(cfg, s, x, y)
    case Jpr => s.(pc := Wide(x, y))
    case Jpi => s.(pc := Wide(i.a, i.b))
    case Cid => s.(regs := WriteSet(s.regs, CID_REGISTERS, 0))
    case Ctr => s.(ctr := ControlByte(s.ctr, x, i.b))
    case Cmp => CompareAndStore(s, i.a, x, y)
    case _ => s.(regs := WriteSet(s.regs, i.a, Alu(i.op, x, y, i.b)))
  }

  function Apply(cfg: Config, dev: Device, i: Instr, s: State): State {
    if i.op == Nop || !CheckFlags(i.cond, s.cf, s.zf) then s else Effect(cfg, dev, i, s)
  }

  function NextPc(pc: nat): (r: nat)
    ensures r < 65536
  {
    (pc + 1) % 65536
  }

  /** Fetch, advance the 16-bit program counter, apply. */
  function Step(cfg: Config, dev: Device, rom: seq<Instr>, s: State): State
    requires s.pc < |rom|
  {
    Apply(cfg, dev, rom[s.pc], s.(pc := NextPc(s.pc)))
  }

  // ----- laws of register sets

  lemma OrStep(x: seq<bv8>, n: nat)
    requires n < |x|
    ensures OrFirst(x, n + 1) == OrFirst(x, n) | x[n]
    ensures OrFirst(x, 0) | x[0] == x[0]
  {}

  /** The OR loop computes the flat eight-input OR tree. */
  lemma OrTree(x: seq<bv8>)
    requires |x| == 8
    ensures OrAll(x) == x[0] | x[1] | x[2] | x[3] | x[4] | x[5] | x[6] | x[7]
  {
    hide OrFirst;
    OrStep(x, 0);
    OrStep(x, 1);
    OrStep(x, 2);
    OrStep(x, 3);
    OrStep(x, 4);
    OrStep(x, 5);
    OrStep(x, 6);
    OrStep(x, 7);
  }

  lemma {:induction false} OrFirstBit(x: seq<bv8>, n: nat, k: nat)
    requires n <= |x| && k < 8
    ensures Has(OrFirst(x, n), k) <==> exists i: nat :: i < n && Has(x[i], k)
  {
    if n > 0 {
      OrFirstBit(x, n - 1, k);
      OrBit(OrFirst(x, n - 1), x[n - 1], Bit(k));
    }
  }

  /** A read sees a bit exactly when some register in the set has it. */
  lemma ReadSetBit(r: Regs, mask: bv8, k: nat)
    requires k < 8
    ensures Has(ReadSet(r, mask), k) <==> exists i: nat :: i < 8 && Has(mask, i) && Has(r[i], k)
  {
    var x := Picks(r, mask);
    OrFirstBit(x, 8, k);
    forall i: nat | i < 8 ensures Has(x[i], k) <==> Has(mask, i) && Has(r[i], k) {
      assert x[i] == Pick(r, mask, i);
    }
  }

  lemma OrBit(x: bv8, y: bv8, m: bv8)
    ensures (x | y) & m != 0 <==> x & m != 0 || y & m != 0
  {}

  lemma PickAfterWrite(r: Regs, written: bv8, v: bv8, mask: bv8, i: nat)
    requires i < 8 && written & mask == 0
    ensures Pick(WriteSet(r, written, v), mask, i) == Pick(r, mask, i)
  {
    assert Has(mask, i) ==> !Has(written, i) by {
      DisjointMasks(written, mask, Bit(i));
    }
  }

  lemma DisjointMasks(x: bv8, y: bv8, m: bv8)
    requires x & y == 0 && m in {1, 2, 4, 8, 16, 32, 64, 128}
    ensures y & m != 0 ==> x & m == 0
  {}

  /** Reading a set does not see a write to a disjoint set. */
  lemma ReadAfterWrite(r: Regs, written: bv8, v: bv8, mask: bv8)
    requires written & mask == 0
    ensures ReadSet(WriteSet(r, written, v), mask) == ReadSet(r, mask)
  {
    forall i: nat | i < 8 ensures Pick(WriteSet(r, written, v), mask, i) == Pick(r, mask, i) {
      PickAfterWrite(r, written, v, mask, i);
    }
    assert Picks(WriteSet(r, written, v), mask) == Picks(r, mask);
  }

  lemma SomeBit(mask: bv8)
    requires mask != 0
    ensures exists j: nat :: j < 8 && Has(mask, j)
  {
    assert Has(mask, 0) || Has(mask, 1) || Has(mask, 2) || Has(mask, 3) ||
           Has(mask, 4) || Has(mask, 5) || Has(mask, 6) || Has(mask, 7);
  }

  lemma {:induction false} WritesAgree(r: Regs, mask: bv8, u: bv8, v: bv8)
    ensures WriteSet(r, mask, u) == WriteSet(r, mask, v) <==> mask == 0 || u == v
  {
    if mask != 0 {
      SomeBit(mask);
      var j: nat :| j < 8 && Has(mask, j);
      assert WriteSet(r, mask, u)[j] == u && WriteSet(r, mask, v)[j] == v;
    } else {
      forall j | 0 <= j < 8 ensures !Has(mask, j) {}
      assert WriteSet(r, mask, u) == WriteSet(r, mask, v);
    }
  }

  /** What a first write wrote shows behind a second one exactly if the second does not cover the first. */
  lemma OverwritesAgree(r: Regs, first: bv8, u: bv8, v: bv8, second: bv8, x: bv8)
    ensures WriteSet(WriteSet(r, first, u), second, x) == WriteSet(WriteSet(r, first, v), second, x) <==>
            u == v || first & !second == 0
  {
    hide Has;
    var p, q := WriteSet(WriteSet(r, first, u), second, x), WriteSet(WriteSet(r, first, v), second, x);
    if first & !second != 0 {
      SomeBit(first & !second);
      var j: nat :| j < 8 && Has(first & !second, j);
      Uncovered(first, second, j);
      assert p[j] == u && q[j] == v;
    } else {
      forall j: nat | j < 8 ensures p[j] == q[j] {
        Uncovered(first, second, j);
      }
    }
  }

  lemma Uncovered(first: bv8, second: bv8, j: nat)
    requires j < 8
    ensures Has(first & !second, j) <==> Has(first, j) && !Has(second, j)
    ensures first & !second == 0 ==> !Has(first & !second, j)
  {}
}
