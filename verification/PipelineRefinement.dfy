/** Draining the pipeline gives the sequential machine. */
module PipelineRefinement {
  import opened Isa
  import opened Pipeline
  import opened Arithmetic
  import I = Interpreter

  // ----- the subset

  predicate Allowed(i: Instr) {
    i.op != Ldm && i.op != Stm && i.op != Ctr && i.op != Ext
  }

  predicate ProgramOk(program: Program) {
    forall k :: 0 <= k < |program| ==> Allowed(program[k])
  }

  /** What stages 2 and 3 can hold: a bubble, or an instruction that writes registers. */
  predicate InFlight(i: Instr) {
    i == BUBBLE || i.op == Set || i.op == Cid || (UsesAlu(i) && i.op != Ext)
  }

  // ----- draining

  function PendingValue(c: Core): bv8 {
    if UsesAlu(c.s2) then AluOut(c.control, c.alpha, c.beta, c.immediate, c.out) else c.s2.b
  }

  /** The registers once stages 3 and 2 have written back. */
  function DrainedRegs(c: Core): Regs {
    BankAfter(BankAfter(c.regs, c.s3, ValueBack(c.s3, c.out, 0)), c.s2, PendingValue(c))
  }

  /** The flags once the comparison in stage 2 has reached the flag registers. */
  function DrainedCf(c: Core): bool {
    if SetsFlags(c.s2) then Borrow(c.alpha, c.beta) else c.cf
  }

  function DrainedZf(c: Core): bool {
    if SetsFlags(c.s2) then c.alpha == c.beta else c.zf
  }

  /** The architectural state: what is in flight has happened, what is in stage 1 has not. */
  function Drained(c: Core): State {
    State(DrainedRegs(c), c.pc, DrainedCf(c), DrainedZf(c), seq(RAM_SIZE, i => 0), 0, [])
  }

  // ----- the invariant

  /** Latches belong to the ALU instruction in stage 2; after a comparison has left stage 2 the flags already
      equal what the ALU keeps recomputing from them. */
  predicate AluInv(c: Core) {
    && (UsesAlu(c.s2) ==> c.control == AluControl(c.s2))
    && c.control < 8 && c.control != 5
    && (c.control == 7 && !SetsFlags(c.s2) ==> c.cf == Borrow(c.alpha, c.beta) && c.zf == (c.alpha == c.beta))
  }

  predicate Inv(program: Program, c: Core) {
    && c.pc < ADDRESS_SPACE && c.ctr == 0
    && (c.s1 == program[c.pc] || c.s1 == BUBBLE)
    && Allowed(c.s1) && InFlight(c.s2) && InFlight(c.s3)
    && AluInv(c)
  }

  /** While `cid` is in flight, stage 1 does not name a register it clears. */
  predicate ClearOfCid(c: Core) {
    c.s2.op == Cid || c.s3.op == Cid ==> !Meets(CID_REGISTERS, Union(ReadsA(c.s1), ReadsB(c.s1)))
  }

  /** An instruction that executes does not read a register too early. */
  predicate CidClear(c: Core) {
    Executes(c) ==> ClearOfCid(c)
  }

  // ----- conditions and flags

  lemma FlagsAllowIsCheck(i: Instr, cf: bool, zf: bool)
    ensures FlagsAllow(i, cf, zf) == CheckFlags(i.cond, cf, zf)
  {}

  lemma IndependentOfFlags(i: Instr, cf: bool, zf: bool, cf': bool, zf': bool)
    requires !FlagDependent(i)
    ensures FlagsAllow(i, cf, zf) == FlagsAllow(i, cf', zf')
  {}

  lemma DifferenceBit(x: bv8, y: bv8)
    ensures Bit8OfDifference(x, y) == Borrow(x, y)
  {}

  lemma DifferenceZero(x: bv8, y: bv8)
    ensures Difference8(x, y) == 0 <==> x == y
  {}

  lemma DifferenceIsMinus(x: bv8, y: bv8, imm: bv8)
    ensures Difference8(x, y) == Alu(Cmp, x, y, imm)
  {}

  lemma NandIsNad(x: bv8, y: bv8, imm: bv8)
    ensures Nand(x, y) == Alu(Nad, x, y, imm)
  {}

  lemma LogicIsLogic(x: bv8, y: bv8, imm: bv8)
    ensures Both(x, y) == Alu(And, x, y, imm) && Either(x, y) == Alu(Xor, x, y, imm)
  {}

  lemma SumIsAdd(x: bv8, y: bv8, imm: bv8)
    ensures Sum8(x, y) == Alu(Add, x, y, imm)
  {}

  lemma ShifterIsShift(x: bv8, y: bv8, imm: bv8)
    ensures Shifted(x, imm) == Alu(Shr, x, y, imm)
  {}

  /** The hardware's result for a control code is the instruction's result. */
  lemma AluOutIsAlu(i: Instr, x: bv8, y: bv8, out: bv8)
    requires UsesAlu(i) && i.op != Ext
    ensures AluOut(AluControl(i), x, y, i.b, out) == Alu(i.op, x, y, i.b)
  {
    hide Minus, ShiftRight, Nand, Both, Either, Sum8, Difference8, Shifted;
    match i.op
    case Nad => NandIsNad(x, y, i.b);
    case And => LogicIsLogic(x, y, i.b);
    case Xor => LogicIsLogic(x, y, i.b);
    case Shr => ShifterIsShift(x, y, i.b);
    case Add => SumIsAdd(x, y, i.b);
    case Cmp => DifferenceIsMinus(x, y, i.b);
    case _ =>
  }

  /** The instruction that a control code of the ALU stands for. */
  function RowOfControl(control: nat): Op
    requires control < 8 && control != 5
  {
    match control
    case 0 => Nad
    case 1 => And
    case 2 => Xor
    case 3 => Shr
    case 4 => Mov
    case 6 => Add
    case 7 => Cmp
  }

  /** What the ALU computes, in numbers and bits. */
  lemma AluOutComputes(control: nat, alpha: bv8, beta: bv8, immediate: bv8, out: bv8)
    requires control < 8
    ensures control != 5 ==>
              Computes(Instr(RowOfControl(control), COND_T, 0, immediate), alpha, beta, AluOut(control, alpha, beta, immediate, out))
    ensures control == 5 ==> AluOut(control, alpha, beta, immediate, out) == out
    ensures Bit8OfDifference(alpha, beta) <==> Num(alpha) < Num(beta)
    ensures Difference8(alpha, beta) == 0 <==> alpha == beta
  {
    hide AluOut, Alu, Computes, Bit8OfDifference, Difference8, Borrow, Num;
    DifferenceBit(alpha, beta);
    BorrowMeans(alpha, beta);
    DifferenceZero(alpha, beta);
    if control == 5 {
      NoRow(alpha, beta, immediate, out);
    } else {
      var i := Instr(RowOfControl(control), COND_T, 0, immediate);
      AluOutIsAlu(i, alpha, beta, out);
      AluComputes(i, alpha, beta);
    }
  }

  lemma NoRow(alpha: bv8, beta: bv8, immediate: bv8, out: bv8)
    ensures AluOut(5, alpha, beta, immediate, out) == out
  {}

  /** Operands an instruction does not read do not matter. */
  lemma AluIgnores(i: Instr, x: bv8, y: bv8, x': bv8, y': bv8)
    requires ReadsA(i) == i.a ==> x == x'
    requires ReadsB(i) == i.b ==> y == y'
    requires UsesAlu(i) && i.op != Ext
    ensures Alu(i.op, x, y, i.b) == Alu(i.op, x', y', i.b)
    ensures i.op == Cmp ==> x == x' && y == y'
  {
    hide Minus, ShiftRight;
  }

  // ----- reading past what is in flight

  lemma NoOverlap(x: bv8, y: bv8, a: bv8, b: bv8)
    requires !Meets(Union(x, y), Union(a, b))
    ensures !Meets(x, a) && !Meets(x, b) && !Meets(y, a) && !Meets(y, b)
  {}

  lemma MeetsBoth(x: bv8, a: bv8, b: bv8)
    requires !Meets(x, Union(a, b))
    ensures !Meets(x, a) && !Meets(x, b)
  {}

  /** A write-back is invisible to a read of other registers. */
  lemma ReadPastBank(r: Regs, i: Instr, v: bv8, mask: bv8)
    requires !Meets(Announced(i), mask) && (i.op == Cid ==> !Meets(CID_REGISTERS, mask))
    ensures ReadSet(BankAfter(r, i, v), mask) == ReadSet(r, mask)
  {
    hide ReadSet, WriteSet;
    if WritesBack(i) {
      ReadAfterWrite(r, i.a, v, mask);
    }
    if i.op == Cid {
      ReadAfterWrite(r, CID_REGISTERS, 0, mask);
    }
  }

  /** Without a hazard the read buses already carry what they will carry once stages 3 and 2 have written back,
      whatever they write. */
  lemma OperandsPast(c: Core, third: bv8, second: bv8)
    requires !Hold(c) && ClearOfCid(c)
    ensures var r := BankAfter(BankAfter(c.regs, c.s3, third), c.s2, second);
            && Bus(c.regs, ReadsA(c.s1)) == ReadSet(r, ReadsA(c.s1))
            && Bus(c.regs, ReadsB(c.s1)) == ReadSet(r, ReadsB(c.s1))
  {
    hide ReadSet, Bus, Meets, Union, BankAfter, ReadsA, ReadsB, Announced, FlagDependent;
    var a, b := ReadsA(c.s1), ReadsB(c.s1);
    NoOverlap(Announced(c.s2), Announced(c.s3), a, b);
    if c.s2.op == Cid || c.s3.op == Cid {
      MeetsBoth(CID_REGISTERS, a, b);
    }
    BusIsReadSet(c.regs, a);
    BusIsReadSet(c.regs, b);
    var r3 := BankAfter(c.regs, c.s3, third);
    ReadPastBank(c.regs, c.s3, third, a);
    ReadPastBank(c.regs, c.s3, third, b);
    ReadPastBank(r3, c.s2, second, a);
    ReadPastBank(r3, c.s2, second, b);
  }

  /** What a write-back does to a register that stage 1 reads. */
  lemma BankAt(r: Regs, i: Instr, v: bv8, mask: bv8, j: nat)
    requires j < 8 && Has(mask, j) && !Meets(Announced(i), mask)
    ensures BankAfter(r, i, v)[j] == if i.op == Cid && j < 4 then 0 else r[j]
  {
    if WritesBack(i) {
      DisjointMasks(i.a, mask, Bit(j));
    }
  }

  lemma LowRegister(mask: bv8)
    requires Meets(CID_REGISTERS, mask)
    ensures exists j: nat :: j < 4 && Has(mask, j)
  {
    assert Has(mask, 0) || Has(mask, 1) || Has(mask, 2) || Has(mask, 3);
  }

  /** A read of a register that `cid` clears is too early for some register contents. */
  lemma ReadTooEarly(c: Core, third: bv8, second: bv8, mask: bv8)
    requires (c.s2.op == Cid || c.s3.op == Cid) && Meets(CID_REGISTERS, mask)
    requires !Meets(Announced(c.s2), mask) && !Meets(Announced(c.s3), mask)
    ensures exists r: Regs :: ReadSet(r, mask) != ReadSet(BankAfter(BankAfter(r, c.s3, third), c.s2, second), mask)
  {
    hide ReadSet, Meets, BankAfter, Announced;
    var r: Regs := [1, 1, 1, 1, 0, 0, 0, 0];
    var r3 := BankAfter(r, c.s3, third);
    var after := BankAfter(r3, c.s2, second);
    LowRegister(mask);
    ReadSetBit(r, mask, 0);
    ReadSetBit(after, mask, 0);
    var j: nat :| j < 4 && Has(mask, j);
    assert r[j] == 1 && Has(r[j], 0);
    forall i: nat | i < 8 && Has(mask, i) ensures after[i] == 0 {
      BankAt(r, c.s3, third, mask, i);
      BankAt(r3, c.s2, second, mask, i);
    }
    assert ReadSet(r, mask) != ReadSet(after, mask);
  }

  ghost predicate ReadsPast(c: Core, third: bv8, second: bv8) {
    forall r: Regs ::
      var after := BankAfter(BankAfter(r, c.s3, third), c.s2, second);
      Bus(r, ReadsA(c.s1)) == ReadSet(after, ReadsA(c.s1)) && Bus(r, ReadsB(c.s1)) == ReadSet(after, ReadsB(c.s1))
  }

  /** The hazard of `cid`, exactly. When stage 1 is not held, its read buses carry what they will carry once stages
      3 and 2 have written back, for all register contents, if and only if it names no register that a `cid` in
      flight clears. */
  lemma OperandsPastExactly(c: Core, third: bv8, second: bv8)
    requires !Hold(c)
    ensures ReadsPast(c, third, second) <==> ClearOfCid(c)
  {
    hide ReadSet, Bus, Meets, Union, BankAfter, ReadsA, ReadsB, Announced, FlagDependent;
    var a, b := ReadsA(c.s1), ReadsB(c.s1);
    if ClearOfCid(c) {
      forall r: Regs ensures var after := BankAfter(BankAfter(r, c.s3, third), c.s2, second);
                             Bus(r, a) == ReadSet(after, a) && Bus(r, b) == ReadSet(after, b) {
        OperandsPast(c.(regs := r), third, second);
      }
    } else {
      NoOverlap(Announced(c.s2), Announced(c.s3), a, b);
      MeetsOne(CID_REGISTERS, a, b);
      var mask := if Meets(CID_REGISTERS, a) then a else b;
      ReadTooEarly(c, third, second, mask);
      var r: Regs :| ReadSet(r, mask) != ReadSet(BankAfter(BankAfter(r, c.s3, third), c.s2, second), mask);
      BusIsReadSet(r, mask);
    }
  }

  lemma MeetsOne(x: bv8, a: bv8, b: bv8)
    requires Meets(x, Union(a, b))
    ensures Meets(x, a) || Meets(x, b)
  {}

  lemma OperandsDrained(c: Core)
    requires !Hold(c) && ClearOfCid(c)
    ensures Bus(c.regs, ReadsA(c.s1)) == ReadSet(DrainedRegs(c), ReadsA(c.s1))
    ensures Bus(c.regs, ReadsB(c.s1)) == ReadSet(DrainedRegs(c), ReadsB(c.s1))
  {
    hide ReadSet, Bus, BankAfter, ReadsA, ReadsB, ValueBack, PendingValue, Hold, ClearOfCid;
    OperandsPast(c, ValueBack(c.s3, c.out, 0), PendingValue(c));
  }

  /** Stage 1 decides on the flags the drained machine has. */
  lemma DecisionDrained(c: Core)
    requires !Hold(c)
    ensures Executes(c) == CheckFlags(c.s1.cond, DrainedCf(c), DrainedZf(c))
  {
    hide FlagsAllow, FlagDependent, CheckFlags, Announced, Meets, Union, ReadsA, ReadsB, Borrow;
    FlagsAllowIsCheck(c.s1, DrainedCf(c), DrainedZf(c));
    if !FlagDependent(c.s1) {
      IndependentOfFlags(c.s1, c.cf, c.zf, DrainedCf(c), DrainedZf(c));
    }
  }

  // ----- one clock in the subset

  /** The clock without what the subset never uses: memory, the control register, interrupts. */
  function PlainClock(program: Program, c: Core): Core
    requires c.pc < ADDRESS_SPACE
  {
    var n := AluAfter(c);
    n.(pc := if Hold(c) then c.pc else Fetch(c),
       s1 := if Hold(c) then c.s1 else program[Fetch(c)],
       s2 := if Hold(c) || Finished1(c) then BUBBLE else c.s1,
       s3 := c.s2,
       regs := BankAfter(c.regs, c.s3, ValueBack(c.s3, c.out, 0)))
  }

  lemma NoControlBits(ctr: bv8)
    requires ctr == 0
    ensures ctr & 0xE0 == 0 && ctr & 0x10 == 0
  {}

  lemma ClockIsPlain(program: Program, p: Pins, c: Core)
    requires Inv(program, c)
    ensures Clock(program, p, c) == PlainClock(program, c) && (Issues(c, p) <==> !Hold(c))
  {
    hide FlagsAllow, FlagDependent, Meets, Union, ReadsA, ReadsB, BankAfter, AluOut, Bus, AluInv, Fetch, MergeControl, Difference8, Bit8OfDifference;
    NoControlBits(c.ctr);
  }

  /** What the flag registers and the result register hold after the clock. */
  lemma AluSettles(c: Core)
    requires AluInv(c)
    ensures AluAfter(c).cf == DrainedCf(c) && AluAfter(c).zf == DrainedZf(c)
    ensures UsesAlu(c.s2) ==> AluAfter(c).out == PendingValue(c)
  {
    hide AluOut, Bus, Executes, Bit8OfDifference, Borrow, Difference8;
    DifferenceBit(c.alpha, c.beta);
    DifferenceZero(c.alpha, c.beta);
  }

  /** Moving stage 2 to stage 3 and writing stage 3 back does not change what draining yields. */
  lemma DrainShifts(program: Program, c: Core)
    requires Inv(program, c)
    ensures var n := PlainClock(program, c);
            DrainedRegs(n) == BankAfter(DrainedRegs(c), n.s2, PendingValue(n))
  {
    hide AluOut, Bus, Executes, Finished1, Hold, Fetch, WriteSet, DrainedCf, DrainedZf;
    AluSettles(c);
  }

  /** Stage 2 next holds an ALU instruction exactly when the latches take its operands. */
  lemma LatchesFollow(program: Program, c: Core)
    requires Inv(program, c)
    ensures var n := PlainClock(program, c);
            if Executes(c) && UsesAlu(c.s1) then n.s2 == c.s1 && n.control == AluControl(c.s1)
            else !UsesAlu(n.s2) && n.control == c.control && n.alpha == c.alpha && n.beta == c.beta
  {
    hide AluOut, Bus, FlagsAllow, Hold, Fetch, BankAfter, AluInv, Bit8OfDifference, Difference8;
  }

  lemma AluInvKept(program: Program, c: Core)
    requires Inv(program, c)
    ensures AluInv(PlainClock(program, c))
  {
    hide AluOut, Bus, Executes, Finished1, Hold, Fetch, BankAfter, Borrow, AluAfter;
    LatchesFollow(program, c);
    AluSettles(c);
  }

  /** The invariant holds on every clock. */
  lemma InvKept(program: Program, p: Pins, c: Core)
    requires ProgramOk(program) && Inv(program, c)
    ensures Inv(program, Clock(program, p, c))
  {
    hide AluOut, Bus, FlagsAllow, Hold, Fetch, BankAfter, Borrow, AluInv, AluAfter, Issues, Clock;
    ClockIsPlain(program, p, c);
    AluInvKept(program, c);
    AluKeepsStages(c);
  }

  lemma AluKeepsStages(c: Core)
    ensures var n := AluAfter(c); n.pc == c.pc && n.ctr == c.ctr && n.s1 == c.s1 && n.s2 == c.s2 && n.s3 == c.s3
  {}

  lemma InvAtReset(program: Program, alpha: bv8, beta: bv8, immediate: bv8)
    ensures Inv(program, Reset(alpha, beta, immediate)) && CidClear(Reset(alpha, beta, immediate))
    ensures Drained(Reset(alpha, beta, immediate)) ==
            State([0, 0, 0, 0, 0, 0, 0, 0], RESET_PC, false, false, seq(RAM_SIZE, i => 0), 0, [])
  {}

  // ----- one clock refines at most one instruction

  lemma AfterBubble(program: Program, c: Core)
    requires Inv(program, c) && PlainClock(program, c).s2 == BUBBLE
    ensures Drained(PlainClock(program, c)) == Drained(c).(pc := PlainClock(program, c).pc)
  {
    hide AluOut, Bus, Executes, Finished1, Hold, Fetch, WriteSet, DrainedRegs, AluAfter, Inv, PendingValue;
    DrainShifts(program, c);
    FlagsAfter(program, c);
  }

  lemma FlagsAfter(program: Program, c: Core)
    requires Inv(program, c)
    ensures var n := PlainClock(program, c);
            && (!SetsFlags(n.s2) ==> DrainedCf(n) == DrainedCf(c) && DrainedZf(n) == DrainedZf(c))
            && (SetsFlags(n.s2) ==> DrainedCf(n) == Borrow(n.alpha, n.beta) && DrainedZf(n) == (n.alpha == n.beta))
  {
    hide AluOut, Bus, Executes, Finished1, Hold, Fetch, WriteSet, BankAfter, AluAfter, Borrow;
    AluSettles(c);
  }

  /** The operands the ALU latches give the value and the flags of the instruction on the drained machine. */
  lemma LatchedOperands(program: Program, c: Core)
    requires Inv(program, c) && !Hold(c) && CidClear(c) && Executes(c) && UsesAlu(c.s1)
    ensures var n := PlainClock(program, c);
            var x, y := ReadSet(DrainedRegs(c), c.s1.a), ReadSet(DrainedRegs(c), c.s1.b);
            && n.s2 == c.s1 && PendingValue(n) == Alu(c.s1.op, x, y, c.s1.b)
            && (c.s1.op == Cmp ==> n.alpha == x && n.beta == y)
  {
    hide Bus, FlagsAllow, Hold, Fetch, WriteSet, BankAfter, ReadSet, ClearOfCid, Alu, AluOut, AluInv, DrainedRegs, ReadsA, ReadsB;
    var d := DrainedRegs(c);
    var busA, busB := Bus(c.regs, c.s1.a), Bus(c.regs, c.s1.b);
    OperandsDrained(c);
    AluIgnores(c.s1, busA, busB, ReadSet(d, c.s1.a), ReadSet(d, c.s1.b));
    AluOutIsAlu(c.s1, busA, busB, AluAfter(c).out);
  }

  lemma AfterAlu(cfg: Config, dev: Device, program: Program, c: Core)
    requires Inv(program, c) && !Hold(c) && CidClear(c) && Executes(c) && UsesAlu(c.s1)
    ensures Drained(PlainClock(program, c)) == Effect(cfg, dev, c.s1, Drained(c).(pc := NextPc(c.pc)))
  {
    hide Bus, FlagsAllow, Hold, WriteSet, ReadSet, ClearOfCid, Alu, AluOut, AluInv, DrainedRegs, AluAfter, PendingValue, DrainedCf, DrainedZf;
    hide Borrow, Minus;
    LatchedOperands(program, c);
    DrainShifts(program, c);
    FlagsAfter(program, c);
    var d := DrainedRegs(c);
    EffectOfAlu(cfg, dev, c.s1, Drained(c).(pc := NextPc(c.pc)));
  }

  lemma EffectOfAlu(cfg: Config, dev: Device, i: Instr, s: State)
    requires UsesAlu(i) && i.op != Ext
    ensures var x, y := ReadSet(s.regs, i.a), ReadSet(s.regs, i.b);
            var v := WriteSet(s.regs, i.a, Alu(i.op, x, y, i.b));
            Effect(cfg, dev, i, s) ==
              if i.op == Cmp then s.(regs := v, cf := Borrow(x, y), zf := x == y) else s.(regs := v)
  {
    hide ReadSet, WriteSet, Borrow, Minus;
  }

  lemma AfterConstant(cfg: Config, dev: Device, program: Program, c: Core)
    requires Inv(program, c) && !Hold(c) && Executes(c) && (c.s1.op == Set || c.s1.op == Cid)
    ensures Drained(PlainClock(program, c)) == Effect(cfg, dev, c.s1, Drained(c).(pc := NextPc(c.pc)))
  {
    hide Bus, FlagsAllow, Hold, WriteSet, ReadSet, AluOut, AluInv, DrainedRegs, AluAfter, DrainedCf, DrainedZf;
    DrainShifts(program, c);
    FlagsAfter(program, c);
    I.EffectByOperation(cfg, dev, c.s1, Drained(c).(pc := NextPc(c.pc)));
  }

  lemma AfterJump(cfg: Config, dev: Device, program: Program, c: Core)
    requires Inv(program, c) && !Hold(c) && CidClear(c) && Executes(c) && Jumps(c.s1)
    ensures Drained(PlainClock(program, c)) == Effect(cfg, dev, c.s1, Drained(c).(pc := NextPc(c.pc)))
    ensures PlainClock(program, c).s2 == BUBBLE
  {
    hide Bus, FlagsAllow, Hold, WriteSet, ReadSet, AluInv, DrainedRegs, AluAfter, DrainedCf, DrainedZf, ClearOfCid, Wide;
    AfterBubble(program, c);
    if c.s1.op == Jpr {
      OperandsDrained(c);
    }
  }

  /** Draining after a clock is draining before it, plus the instruction in stage 1 if the clock issued it. */
  lemma ClockRefines(cfg: Config, dev: Device, program: Program, p: Pins, c: Core)
    requires Inv(program, c) && CidClear(c)
    ensures Drained(Clock(program, p, c)) ==
            if Issues(c, p) then Apply(cfg, dev, c.s1, Drained(c).(pc := NextPc(c.pc))) else Drained(c)
    ensures Issues(c, p) ==> Clock(program, p, c).s1 == program[Clock(program, p, c).pc]
    ensures !Issues(c, p) ==> Clock(program, p, c).s1 == c.s1
  {
    hide Bus, Hold, Drained, Issues, ClearOfCid, Effect, Clock, AluInv, AluAfter, BankAfter, Meets, FlagsAllow, NextPc;
    ClockIsPlain(program, p, c);
    AfterApply(cfg, dev, program, c);
  }

  lemma AfterApply(cfg: Config, dev: Device, program: Program, c: Core)
    requires Inv(program, c) && CidClear(c)
    ensures Drained(PlainClock(program, c)) ==
            if !Hold(c) then Apply(cfg, dev, c.s1, Drained(c).(pc := NextPc(c.pc))) else Drained(c)
  {
    hide Bus, Hold, DrainedRegs, ClearOfCid, Effect, AluInv, AluAfter, BankAfter, CheckFlags, FlagsAllow, DrainedCf, DrainedZf;
    if Hold(c) {
      AfterBubble(program, c);
    } else {
      DecisionDrained(c);
      if !Executes(c) || c.s1.op == Nop {
        AfterBubble(program, c);
      } else if UsesAlu(c.s1) {
        AfterAlu(cfg, dev, program, c);
      } else if Jumps(c.s1) {
        AfterJump(cfg, dev, program, c);
      } else {
        AfterConstant(cfg, dev, program, c);
      }
    }
  }
}
