/** The native block of every instruction that does not transfer control does what the interpreter does. */
module JitBlocks {
  import opened Isa
  import opened Arithmetic
  import opened Options
  import opened X86
  import opened JitCode
  import opened JitRegisters

  /** What stays put while generated code runs: the stack below it and the host's copy of the core. */
  datatype Frame = Frame(stack: seq<Slot>, core: State)

  /** Registers, memory and peripheral history agree; flags and stack are not looked at. */
  predicate Holds(cfg: Config, s: State, m: Machine, core: State) {
    && Plain(m) && !m.done && Micros(m) == s.regs
    && cfg.memorySize <= RAM_SIZE && m.data == s.ram[..cfg.memorySize]
    && s.ram[cfg.memorySize..] == core.ram[cfg.memorySize..]
    && m.corePtr == CoreRef && m.core == core.(trace := s.trace)
  }

  /** The program-visible state as the native machine holds it between two instructions: the flags are
      bits 0 and 6 of SI. */
  predicate Match(cfg: Config, s: State, m: Machine, f: Frame) {
    Holds(cfg, s, m, f.core) && CfOf(m.regs[RSI].l) == s.cf && ZfOf(m.regs[RSI].l) == s.zf && m.stack == f.stack
  }

  // ----- what a match survives

  /** Scratch registers, stack, flags and time do not matter to Holds. */
  lemma HoldsUnderScratch(cfg: Config, s: State, m: Machine, n: Machine, core: State)
    requires Holds(cfg, s, m, core) && Plain(n)
    requires n == m.(regs := n.regs, stack := n.stack, ip := n.ip, clock := n.clock, fh := n.fh, fl := n.fl)
    requires n.regs[8..] == m.regs[8..]
    ensures Holds(cfg, s, n, core)
  {
    forall r | 8 <= r < 16 ensures n.regs[r] == m.regs[r] {
      assert n.regs[8..][r - 8] == m.regs[8..][r - 8];
    }
    assert Micros(n) == Micros(m);
  }

  lemma MatchUnderFlags(cfg: Config, s: State, m: Machine, n: Machine, f: Frame)
    requires Match(cfg, s, m, f) && SameButFlags(m, n)
    ensures Match(cfg, s, n, f) && n.regs == m.regs
  {
    hide CfOf, ZfOf;
  }

  lemma MatchUnderScratch(cfg: Config, s: State, m: Machine, out: Reg, v: bv8, f: Frame)
    requires Match(cfg, s, m, f) && out in {RCX, RDX, RBX}
    ensures Match(cfg, s, SetLow(m, out, v), f) && SetLow(m, out, v).regs[out].l == v
  {
    hide CfOf, ZfOf;
    assert Micros(SetLow(m, out, v)) == Micros(m);
  }

  // ----- reads

  lemma ReadOne(w: World, s: State, out: Reg, a: bv8, m: Machine, f: Frame) returns (n: Machine)
    requires Match(w.cfg, s, m, f) && out in {RDX, RBX}
    ensures Straight(w, ReadCode(out, a), m) == Some(n) && Match(w.cfg, s, n, f)
    ensures n.regs == m.regs[out := m.regs[out].(l := ReadSet(s.regs, a))]
    ensures SameButFlags(SetLow(m, out, ReadSet(s.regs, a)), n)
  {
    hide ReadCode, ReadSet, CfOf, ZfOf, Straight;
    ReadEffect(w, out, a, m);
    n := Straight(w, ReadCode(out, a), m).value;
    MatchUnderScratch(w.cfg, s, m, out, ReadSet(s.regs, a), f);
    MatchUnderFlags(w.cfg, s, SetLow(m, out, ReadSet(s.regs, a)), n, f);
  }

  lemma ReadTwo(w: World, s: State, a: bv8, b: bv8, m: Machine, f: Frame) returns (n: Machine)
    requires Match(w.cfg, s, m, f)
    ensures Straight(w, ReadCode(RDX, a) + ReadCode(RBX, b), m) == Some(n) && Match(w.cfg, s, n, f)
    ensures n.regs == m.regs[RDX := m.regs[RDX].(l := ReadSet(s.regs, a))][RBX := m.regs[RBX].(l := ReadSet(s.regs, b))]
  {
    hide ReadCode, ReadSet, CfOf, ZfOf, Straight;
    var p := ReadOne(w, s, RDX, a, m, f);
    n := ReadOne(w, s, RBX, b, p, f);
    StraightAppends(w, ReadCode(RDX, a), ReadCode(RBX, b), m, p);
  }

  // ----- write back

  /** Writing a scratch register or a constant back to a set is the instruction set's register write. */
  lemma WriteBack(w: World, s: State, src: Src, a: bv8, v: bv8, m: Machine, f: Frame) returns (n: Machine)
    requires Match(w.cfg, s, m, f) && SrcOk(m, src) && SrcVal(m, src) == v && (src.L? ==> src.r < 8)
    ensures Straight(w, WriteCode(src, a), m) == Some(n) && Match(w.cfg, s.(regs := WriteSet(s.regs, a, v)), n, f)
  {
    hide WriteCode, WriteSet, CfOf, ZfOf, Straight;
    WriteEffect(w, src, a, m);
    n := Straight(w, WriteCode(src, a), m).value;
  }

  // ----- straight runs of a few instructions

  lemma Straight1(w: World, a: Ins, m: Machine)
    requires Do(w, a, m).Some?
    ensures Straight(w, [a], m) == Do(w, a, m)
  {
    hide Do;
    StraightCons(w, a, [], m);
    assert [a] + [] == [a];
  }

  lemma Straight2(w: World, a: Ins, b: Ins, m: Machine)
    requires Do(w, a, m).Some? && Do(w, b, Do(w, a, m).value).Some?
    ensures Straight(w, [a, b], m) == Do(w, b, Do(w, a, m).value)
  {
    hide Do;
    StraightCons(w, a, [b], m);
    Straight1(w, b, Do(w, a, m).value);
    assert [a] + [b] == [a, b];
  }

  lemma Straight3(w: World, a: Ins, b: Ins, c: Ins, m: Machine)
    requires Do(w, a, m).Some? && Do(w, b, Do(w, a, m).value).Some?
    requires Do(w, c, Do(w, b, Do(w, a, m).value).value).Some?
    ensures Straight(w, [a, b, c], m) == Do(w, c, Do(w, b, Do(w, a, m).value).value)
  {
    hide Do;
    StraightCons(w, a, [b, c], m);
    Straight2(w, b, c, Do(w, a, m).value);
    assert [a] + [b, c] == [a, b, c];
  }

  /** Three consecutive pieces of code. */
  lemma StraightPieces(w: World, a: seq<Ins>, b: seq<Ins>, c: seq<Ins>, m: Machine, p: Machine, q: Machine)
    requires Straight(w, a, m) == Some(p) && Straight(w, b, p) == Some(q)
    ensures Straight(w, a + b + c, m) == Straight(w, c, q)
  {
    hide Straight;
    StraightAppends(w, a, b, m, p);
    StraightAppends(w, a + b, c, m, q);
  }

  // ----- the arithmetic blocks

  lemma DoAlu(w: World, op: AluOp, d: Reg, src: Src, m: Machine)
    requires |m.regs| == 16 && m.regs[d].Word? && SrcOk(m, src)
    ensures Do(w, AluL(op, d, src), m).Some?
    ensures var n := Do(w, AluL(op, d, src), m).value;
            && SameButFlags(SetLow(m, d, AluResult(op, m.regs[d].l, SrcVal(m, src))), n)
            && CfOf(n.fl) == AluCarry(op, m.regs[d].l, SrcVal(m, src))
            && ZfOf(n.fl) == AluZero(op, m.regs[d].l, SrcVal(m, src))
  {
    hide FlagByte, AluCarry, AluZero, CfOf, ZfOf, AluResult;
  }

  function AluOpOf(op: Op): AluOp
    requires op in {And, Xor, Add}
  {
    match op case And => OpAnd case Xor => OpXor case Add => OpAdd
  }

  lemma BlockTwoArg(w: World, i: Instr, s: State, m: Machine, f: Frame) returns (n: Machine)
    requires Match(w.cfg, s, m, f) && i.op in {And, Xor, Add}
    ensures Straight(w, TwoArg(AluOpOf(i.op), i), m) == Some(n) && Match(w.cfg, Effect(w.cfg, w.dev, i, s), n, f)
  {
    hide ReadCode, WriteCode, ReadSet, WriteSet, CfOf, ZfOf, Straight, AluCarry, AluZero, Alu, Do;
    var op := AluOpOf(i.op);
    var x, y := ReadSet(s.regs, i.a), ReadSet(s.regs, i.b);
    var p := ReadTwo(w, s, i.a, i.b, m, f);
    DoAlu(w, op, RDX, L(RBX), p);
    Straight1(w, AluL(op, RDX, L(RBX)), p);
    var q := Do(w, AluL(op, RDX, L(RBX)), p).value;
    assert AluResult(op, x, y) == Alu(i.op, x, y, i.b) by { AluAgrees(i.op, x, y, i.b); }
    MatchUnderScratch(w.cfg, s, p, RDX, AluResult(op, x, y), f);
    MatchUnderFlags(w.cfg, s, SetLow(p, RDX, AluResult(op, x, y)), q, f);
    n := WriteBack(w, s, L(RDX), i.a, AluResult(op, x, y), q, f);
    StraightPieces(w, ReadCode(RDX, i.a) + ReadCode(RBX, i.b), [AluL(op, RDX, L(RBX))], WriteCode(L(RDX), i.a), m, p, q);
  }

  lemma AluAgrees(op: Op, x: bv8, y: bv8, imm: bv8)
    requires op in {And, Xor, Add}
    ensures AluResult(AluOpOf(op), x, y) == Alu(op, x, y, imm)
  {}

  lemma SubAgrees(x: bv8, y: bv8)
    ensures AluResult(OpSub, x, y) == Minus(x, y) && (AluCarry(OpSub, x, y) <==> Borrow(x, y)) && (AluZero(OpSub, x, y) <==> x == y)
  {
    BorrowMeans(x, y);
  }

  lemma BlockMov(w: World, i: Instr, s: State, m: Machine, f: Frame) returns (n: Machine)
    requires Match(w.cfg, s, m, f) && i.op == Mov
    ensures Straight(w, Body(w.cfg, 0, i), m) == Some(n) && Match(w.cfg, Effect(w.cfg, w.dev, i, s), n, f)
  {
    hide ReadCode, WriteCode, ReadSet, WriteSet, CfOf, ZfOf, Straight, Do;
    var p := ReadOne(w, s, RBX, i.b, m, f);
    n := WriteBack(w, s, L(RBX), i.a, ReadSet(s.regs, i.b), p, f);
    StraightAppends(w, ReadCode(RBX, i.b), WriteCode(L(RBX), i.a), m, p);
  }

  lemma DoShr(w: World, d: Reg, count: bv8, m: Machine)
    requires |m.regs| == 16 && m.regs[d].Word?
    ensures Do(w, ShrL(d, count), m).Some?
    ensures SameButFlags(SetLow(m, d, ShrResult(m.regs[d].l, count)), Do(w, ShrL(d, count), m).value)
  {
    hide FlagByte, ShrResult, CfOf, ZfOf;
  }

  lemma SmallCount(x: bv8, count: bv8)
    requires count < 32
    ensures ShrResult(x, count) == ShiftRight(x, count)
  {
    hide Num, ShiftRight, ShiftedBy;
    assert count & 31 == count;
    ShiftedIsShift(x, count);
  }

  lemma {:induction false} ShiftedMeans(x: bv8, count: nat)
    ensures Num(ShiftedBy(x, count)) == Num(x) / PowerOfTwo(count)
    decreases count
  {
    hide Num;
    if count > 0 {
      Halves(x);
      ShiftedMeans(x >> 1, count - 1);
      HalvesAgain(Num(x), PowerOfTwo(count - 1));
    }
  }

  lemma HalvesAgain(n: nat, p: nat)
    requires p > 0
    ensures n / 2 / p == n / (2 * p)
  {
    var q := n / (2 * p);
    var r := n % (2 * p);
    assert n == 2 * (p * q) + r;
    assert n / 2 == p * q + r / 2;
    assert r / 2 < p;
    QuotientIs(n / 2, p, q, r / 2);
  }

  lemma QuotientIs(n: nat, p: nat, q: nat, r: nat)
    requires n == p * q + r && r < p
    ensures n / p == q
  {
    var d := n / p - q;
    assert n == p * (n / p) + n % p;
    assert p * d == r - n % p;
    Multiples(p, d);
  }

  lemma Multiples(p: nat, d: int)
    ensures d >= 1 ==> p * d >= p
    ensures d <= -1 ==> p * d + p <= 0
  {}

  /** Shifting place by place gives what the instruction set's table gives. */
  lemma ShiftedIsShift(x: bv8, count: bv8)
    ensures ShiftedBy(x, Num(count)) == ShiftRight(x, count)
  {
    hide Num, ShiftRight, ShiftedBy;
    ShiftedMeans(x, Num(count));
    ShiftMeans(x, count);
    SameNumber(ShiftedBy(x, Num(count)), ShiftRight(x, count));
  }

  lemma BlockShr(w: World, i: Instr, s: State, m: Machine, f: Frame) returns (n: Machine)
    requires Match(w.cfg, s, m, f) && i.op == Shr && i.b < 32
    ensures Straight(w, Body(w.cfg, 0, i), m) == Some(n) && Match(w.cfg, Effect(w.cfg, w.dev, i, s), n, f)
  {
    hide ReadCode, WriteCode, ReadSet, WriteSet, CfOf, ZfOf, Straight, Do, ShiftRight, ShrResult;
    var x := ReadSet(s.regs, i.a);
    var p := ReadOne(w, s, RBX, i.a, m, f);
    DoShr(w, RBX, i.b, p);
    SmallCount(x, i.b);
    Straight1(w, ShrL(RBX, i.b), p);
    var q := Do(w, ShrL(RBX, i.b), p).value;
    MatchUnderScratch(w.cfg, s, p, RBX, ShiftRight(x, i.b), f);
    MatchUnderFlags(w.cfg, s, SetLow(p, RBX, ShiftRight(x, i.b)), q, f);
    n := WriteBack(w, s, L(RBX), i.a, ShiftRight(x, i.b), q, f);
    StraightPieces(w, ReadCode(RBX, i.a), [ShrL(RBX, i.b)], WriteCode(L(RBX), i.a), m, p, q);
  }

  lemma BlockConstant(w: World, i: Instr, s: State, m: Machine, f: Frame) returns (n: Machine)
    requires Match(w.cfg, s, m, f) && (i.op == Set || i.op == Cid)
    ensures Straight(w, Body(w.cfg, 0, i), m) == Some(n) && Match(w.cfg, Effect(w.cfg, w.dev, i, s), n, f)
  {
    hide WriteCode, WriteSet, CfOf, ZfOf, Straight, ReadSet;
    if i.op == Set {
      n := WriteBack(w, s, Imm(i.b), i.a, i.b, m, f);
    } else {
      n := WriteBack(w, s, Imm(0), CID_REGISTERS, 0, m, f);
    }
  }

  // ----- compare: the flags travel through the stack into SI

  lemma DoSaveFlags(w: World, m: Machine)
    requires Plain(m)
    ensures Do(w, Pushf, m).Some? && Do(w, PopX(RSI), Do(w, Pushf, m).value).Some?
    ensures SameButClock(Put(m, RSI, m.regs[RSI].(h := m.fh, l := m.fl)), Do(w, PopX(RSI), Do(w, Pushf, m).value).value)
  {
    assert (m.stack + [X(m.fh, m.fl)])[..|m.stack|] == m.stack;
  }

  lemma BlockCmp(w: World, i: Instr, s: State, m: Machine, f: Frame) returns (n: Machine)
    requires Match(w.cfg, s, m, f) && i.op == Cmp
    ensures Straight(w, Body(w.cfg, 0, i), m) == Some(n) && Match(w.cfg, Effect(w.cfg, w.dev, i, s), n, f)
  {
    hide ReadCode, WriteCode, ReadSet, WriteSet, CfOf, ZfOf, Straight, Do, Minus, Borrow, AluResult, AluCarry, AluZero;
    var x, y := ReadSet(s.regs, i.a), ReadSet(s.regs, i.b);
    var p := ReadTwo(w, s, i.a, i.b, m, f);
    var sub := AluL(OpSub, RDX, L(RBX));
    DoAlu(w, OpSub, RDX, L(RBX), p);
    SubAgrees(x, y);
    var q := Do(w, sub, p).value;
    MatchUnderScratch(w.cfg, s, p, RDX, Minus(x, y), f);
    MatchUnderFlags(w.cfg, s, SetLow(p, RDX, Minus(x, y)), q, f);
    DoSaveFlags(w, q);
    Straight3(w, sub, Pushf, PopX(RSI), p);
    var r := Do(w, PopX(RSI), Do(w, Pushf, q).value).value;
    var t := s.(cf := Borrow(x, y), zf := x == y);
    assert Micros(r) == Micros(q);
    assert Match(w.cfg, t, r, f);
    n := WriteBack(w, t, L(RDX), i.a, Minus(x, y), r, f);
    StraightPieces(w, ReadCode(RDX, i.a) + ReadCode(RBX, i.b), [sub, Pushf, PopX(RSI)], WriteCode(L(RDX), i.a), m, p, r);
  }

  // ----- nad: the emitted negation is not the complement

  lemma DoNeg(w: World, d: Reg, m: Machine)
    requires |m.regs| == 16 && m.regs[d].Word?
    ensures Do(w, NegL(d), m).Some?
    ensures SameButFlags(SetLow(m, d, Negated8(m.regs[d].l)), Do(w, NegL(d), m).value)
  {
    hide FlagByte, CfOf, ZfOf, Negated8;
  }

  /** What the native nad block leaves in the registers: the two's complement of the conjunction. */
  lemma BlockNad(w: World, i: Instr, s: State, m: Machine, f: Frame) returns (n: Machine)
    requires Match(w.cfg, s, m, f) && i.op == Nad
    ensures Straight(w, Body(w.cfg, 0, i), m) == Some(n)
    ensures Match(w.cfg, s.(regs := WriteSet(s.regs, i.a, Negated8(Alu(And, ReadSet(s.regs, i.a), ReadSet(s.regs, i.b), 0)))), n, f)
  {
    hide ReadCode, WriteCode, ReadSet, WriteSet, CfOf, ZfOf, Straight, Do, Negated8, Alu;
    var x, y := ReadSet(s.regs, i.a), ReadSet(s.regs, i.b);
    var v := Alu(And, x, y, 0);
    var p := ReadTwo(w, s, i.a, i.b, m, f);
    var conj := AluL(OpAnd, RDX, L(RBX));
    DoAlu(w, OpAnd, RDX, L(RBX), p);
    assert AluResult(OpAnd, x, y) == v by { AluAgrees(And, x, y, 0); }
    var q := Do(w, conj, p).value;
    MatchUnderScratch(w.cfg, s, p, RDX, v, f);
    MatchUnderFlags(w.cfg, s, SetLow(p, RDX, v), q, f);
    DoNeg(w, RDX, q);
    var r := Do(w, NegL(RDX), q).value;
    MatchUnderScratch(w.cfg, s, q, RDX, Negated8(v), f);
    MatchUnderFlags(w.cfg, s, SetLow(q, RDX, Negated8(v)), r, f);
    Straight2(w, conj, NegL(RDX), p);
    n := WriteBack(w, s, L(RDX), i.a, Negated8(v), r, f);
    StraightPieces(w, ReadCode(RDX, i.a) + ReadCode(RBX, i.b), [conj, NegL(RDX)], WriteCode(L(RDX), i.a), m, p, r);
  }

  lemma NegationIsNotComplement(x: bv8)
    ensures Negated8(x) != !x
  {}

  /** Native and interpreted nad agree exactly when the instruction writes no register. */
  lemma NadAgreesExactly(w: World, i: Instr, s: State, m: Machine, f: Frame, n: Machine)
    requires Match(w.cfg, s, m, f) && i.op == Nad && Straight(w, Body(w.cfg, 0, i), m) == Some(n)
    ensures Match(w.cfg, Effect(w.cfg, w.dev, i, s), n, f) <==> i.a == 0
  {
    hide ReadSet, CfOf, ZfOf, Straight, Do, Body, WriteSet, Negated8, Alu;
    var n' := BlockNad(w, i, s, m, f);
    var x, y := ReadSet(s.regs, i.a), ReadSet(s.regs, i.b);
    var v := Alu(And, x, y, 0);
    NadIsComplement(x, y, i.b);
    NegationIsNotComplement(v);
    WritesAgree(s.regs, i.a, Negated8(v), Alu(Nad, x, y, i.b));
  }

  lemma NadIsComplement(x: bv8, y: bv8, imm: bv8)
    ensures Alu(Nad, x, y, imm) == !Alu(And, x, y, 0)
  {}
}
