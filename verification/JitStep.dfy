/** Native condition tests, jumps and control instructions. */
module JitStep {
  import opened Isa
  import opened Options
  import opened X86
  import opened JitCode
  import opened JitRegisters
  import opened JitLayout
  import opened JitBlocks
  import opened JitMemory
  import opened JitPeripherals
  import opened JitDispatch
  import I = Interpreter

  // ----- conditions

  lemma SkipExactly(cond: bv4, cf: bool, zf: bool, fl: bv8)
    requires NamedCond(cond) && cond != COND_T && cond != COND_F && CfOf(fl) == cf && ZfOf(fl) == zf
    ensures Taken(CcAgainst(cond), fl) <==> !CheckFlags(cond, cf, zf)
  {
    hide CfOf, ZfOf;
  }

  lemma AlwaysAndNever(cf: bool, zf: bool)
    ensures CheckFlags(COND_T, cf, zf) && !CheckFlags(COND_F, cf, zf)
  {}

  lemma RunFlagsFromSi(w: World, s: State, m: Machine, f: Frame) returns (n: Machine)
    requires Match(w.cfg, s, m, f)
    ensures Straight(w, [PushX(RSI), Popf], m) == Some(n) && Match(w.cfg, s, n, f) && n.fl == m.regs[RSI].l
  {
    hide Do, CfOf, ZfOf, Micros;
    DoStack(w, PushX(RSI), m);
    var p := Do(w, PushX(RSI), m).value;
    assert p.stack[..|p.stack| - 1] == m.stack;
    DoStack(w, Popf, p);
    n := Do(w, Popf, p).value;
    Straight2(w, PushX(RSI), Popf, m);
    HoldsUnderScratch(w.cfg, s, m, n, f.core);
  }

  /** The native condition test enters the body exactly when checkFlags holds, and otherwise skips it. */
  lemma ConditionRuns(w: World, s: State, cond: bv4, skip: Label, t: nat, m: Machine, f: Frame) returns (k: nat, n: Machine)
    requires NamedCond(cond) && CodeAt(w, m.ip, CondCode(cond, skip)) && Match(w.cfg, s, m, f)
    requires cond != COND_T ==> LabelIndex(w, skip) == Some(t)
    ensures RunX(w, m, k) == Some(n) && Match(w.cfg, s, n, f)
    ensures n.ip == if CheckFlags(cond, s.cf, s.zf) then m.ip + |CondCode(cond, skip)| else t
    ensures k == 0 ==> n == m
  {
    hide Do, Straight, StepX, CheckFlags, LabelIndex, Match, CodeAt, NamedCond, CcAgainst, Taken;
    AlwaysAndNever(s.cf, s.zf);
    MatchHolds(w.cfg, s, m, f);
    if cond == COND_T {
      k, n := 0, m;
    } else if cond == COND_F {
      JmpAt(w, m.ip, skip);
      StepAtJmp(w, m, skip, t);
      n := m.(ip := t, clock := m.clock + 1);
      RunsOnce(w, m, n);
      MatchUnderFlags(w.cfg, s, m, n, f);
      k := 1;
    } else {
      var cc := CcAgainst(cond);
      assert CondCode(cond, skip) == [PushX(RSI), Popf] + [Jcc(cc, skip)];
      CodeSplits(w, m.ip, [PushX(RSI), Popf], [Jcc(cc, skip)]);
      var p := RunFlagsFromSi(w, s, m, f);
      MatchHolds(w.cfg, s, p, f);
      StraightRuns(w, [PushX(RSI), Popf], m, p);
      StepAtJcc(w, p, cc, skip, t);
      n := p.(ip := if Taken(cc, p.fl) then t else p.ip + 1, clock := p.clock + 1);
      RunsOnce(w, p, n);
      RunXAdds(w, m, 2, p, 1);
      SkipExactly(cond, s.cf, s.zf, p.fl);
      MatchUnderFlags(w.cfg, s, p, n, f);
      k := 3;
    }
  }

  lemma JmpAt(w: World, k: nat, l: Label)
    requires CodeAt(w, k, [Jmp(l)])
    ensures k < |w.img.code| && w.img.code[k] == Jmp(l)
  {
    assert w.img.code[k] == w.img.code[k..k + 1][0];
  }

  // ----- jumps

  lemma RunJpi(w: World, s: State, off: nat, m: Machine, f: Frame) returns (n: Machine)
    requires Match(w.cfg, s, m, f)
    ensures Straight(w, [Lea(RAX, Offsets, off)], m) == Some(n) && Match(w.cfg, s, n, f) && n.regs[RAX] == Ptr(Offsets, off)
  {
    hide Do, CfOf, ZfOf, Micros;
    DoMemory(w, Lea(RAX, Offsets, off), m);
    Straight1(w, Lea(RAX, Offsets, off), m);
    n := Do(w, Lea(RAX, Offsets, off), m).value;
    HoldsUnderScratch(w.cfg, s, m, n, f.core);
  }

  lemma RunCombine(w: World, x: bv8, y: bv8, m: Machine) returns (n: Machine)
    requires Plain(m) && m.regs[RDX].l == x && m.regs[RBX].l == y
    ensures Straight(w, [MovHL(RBX, RDX), MovzxX(RBX, RBX)], m) == Some(n)
    ensures n == m.(regs := m.regs[RBX := Word(0, x, y)], ip := n.ip, clock := n.clock)
  {
    hide Do;
    var a, b := MovHL(RBX, RDX), MovzxX(RBX, RBX);
    DoByte(w, a, m);
    var p := Do(w, a, m).value;
    DoByte(w, b, p);
    n := Do(w, b, p).value;
    Straight2(w, a, b, m);
    assert n.regs == m.regs[RBX := Word(0, x, y)];
  }

  lemma RunTableAddress(w: World, x: bv8, y: bv8, m: Machine) returns (n: Machine)
    requires Plain(m) && m.regs[RBX] == Word(0, x, y)
    ensures Straight(w, [Lea(RAX, Offsets, 0), LeaScaled(RAX, RAX, RBX)], m) == Some(n)
    ensures n == m.(regs := m.regs[RAX := Ptr(Offsets, ENTRY_SIZE * Wide(x, y))], ip := n.ip, clock := n.clock)
  {
    hide Do, Wide, WordValue;
    var a, b := Lea(RAX, Offsets, 0), LeaScaled(RAX, RAX, RBX);
    WordZeroUp(x, y);
    DoMemory(w, a, m);
    var p := Do(w, a, m).value;
    DoMemory(w, b, p);
    n := Do(w, b, p).value;
    Straight2(w, a, b, m);
    assert n.regs == m.regs[RAX := Ptr(Offsets, ENTRY_SIZE * Wide(x, y))];
  }

  lemma RunJpr(w: World, i: Instr, s: State, m: Machine, f: Frame) returns (n: Machine)
    requires Match(w.cfg, s, m, f)
    ensures var code := ReadCode(RDX, i.a) + ReadCode(RBX, i.b) + [MovHL(RBX, RDX), MovzxX(RBX, RBX)] +
                        [Lea(RAX, Offsets, 0), LeaScaled(RAX, RAX, RBX)];
            Straight(w, code, m) == Some(n)
    ensures Match(w.cfg, s, n, f)
    ensures n.regs[RAX] == Ptr(Offsets, ENTRY_SIZE * Wide(ReadSet(s.regs, i.a), ReadSet(s.regs, i.b)))
  {
    hide CfOf, ZfOf, Micros, Straight, ReadCode, ReadSet, Wide;
    var x, y := ReadSet(s.regs, i.a), ReadSet(s.regs, i.b);
    var p := ReadTwo(w, s, i.a, i.b, m, f);
    var q := RunCombine(w, x, y, p);
    n := RunTableAddress(w, x, y, q);
    HoldsUnderScratch(w.cfg, s, p, n, f.core);
    StraightPieces(w, ReadCode(RDX, i.a) + ReadCode(RBX, i.b), [MovHL(RBX, RDX), MovzxX(RBX, RBX)],
                   [Lea(RAX, Offsets, 0), LeaScaled(RAX, RAX, RBX)], m, p, q);
  }

  // ----- ctr

  function ControlByteOf(x: bv8, mask: bv8, cl: bv8): bv8 {
    (cl & !mask) | (x & mask)
  }

  /** The native ctr block: CL takes the masked byte, pc is recorded, zero flag set when no standby bit is on. */
  lemma RunControl(w: World, i: Instr, next: nat, s: State, m: Machine, f: Frame) returns (n: Machine)
    requires Match(w.cfg, s, m, f) && next < 65536
    ensures var code := ReadCode(RDX, i.a) +
                        [AluL(OpAnd, RDX, Imm(i.b)), AluL(OpAnd, RCX, Imm(!i.b)), AluL(OpOr, RCX, L(RDX))] +
                        [MovzxL(RDI, RCX), ShrQ(RDI, 5), StoreXImm(Counter, next)];
            Straight(w, code, m) == Some(n)
    ensures Match(w.cfg, s, n, f) && n.counter == next
    ensures ZfOf(n.fl) <==> ShiftRight(ControlByteOf(ReadSet(s.regs, i.a), i.b, m.regs[RCX].l), 5) == 0
  {
    hide CfOf, ZfOf, Micros, Straight, ReadCode, ReadSet, ShiftRight, ControlByteOf;
    var p := ReadOne(w, s, RDX, i.a, m, f);
    var q := RunMaskedMerge(w, s, i.b, p, f);
    n := RunStandbyTest(w, s, next, q, f);
    StraightPieces(w, ReadCode(RDX, i.a), [AluL(OpAnd, RDX, Imm(i.b)), AluL(OpAnd, RCX, Imm(!i.b)), AluL(OpOr, RCX, L(RDX))],
                   [MovzxL(RDI, RCX), ShrQ(RDI, 5), StoreXImm(Counter, next)], m, p, q);
  }

  lemma RunMaskedMerge(w: World, s: State, mask: bv8, m: Machine, f: Frame) returns (n: Machine)
    requires Match(w.cfg, s, m, f)
    ensures Straight(w, [AluL(OpAnd, RDX, Imm(mask)), AluL(OpAnd, RCX, Imm(!mask)), AluL(OpOr, RCX, L(RDX))], m) == Some(n)
    ensures Match(w.cfg, s, n, f) && n.regs[RCX].l == ControlByteOf(m.regs[RDX].l, mask, m.regs[RCX].l)
  {
    hide CfOf, ZfOf, Micros, Do, AluCarry, AluZero, AluResult, Holds;
    var a, b, c := AluL(OpAnd, RDX, Imm(mask)), AluL(OpAnd, RCX, Imm(!mask)), AluL(OpOr, RCX, L(RDX));
    MatchHolds(w.cfg, s, m, f);
    var x, cl := m.regs[RDX].l, m.regs[RCX].l;
    var u, v := AluResult(OpAnd, x, mask), AluResult(OpAnd, cl, !mask);
    DoAlu(w, OpAnd, RDX, Imm(mask), m);
    var p := Do(w, a, m).value;
    MatchUnderScratch(w.cfg, s, m, RDX, u, f);
    MatchUnderFlags(w.cfg, s, SetLow(m, RDX, u), p, f);
    MatchHolds(w.cfg, s, p, f);
    DoAlu(w, OpAnd, RCX, Imm(!mask), p);
    var q := Do(w, b, p).value;
    MatchUnderScratch(w.cfg, s, p, RCX, v, f);
    MatchUnderFlags(w.cfg, s, SetLow(p, RCX, v), q, f);
    MatchHolds(w.cfg, s, q, f);
    DoAlu(w, OpOr, RCX, L(RDX), q);
    n := Do(w, c, q).value;
    MatchUnderScratch(w.cfg, s, q, RCX, AluResult(OpOr, v, u), f);
    MatchUnderFlags(w.cfg, s, SetLow(q, RCX, AluResult(OpOr, v, u)), n, f);
    Straight3(w, a, b, c, m);
    MergeIsControlByte(x, mask, cl);
  }

  lemma MergeIsControlByte(x: bv8, mask: bv8, cl: bv8)
    ensures AluResult(OpOr, AluResult(OpAnd, cl, !mask), AluResult(OpAnd, x, mask)) == ControlByteOf(x, mask, cl)
  {}

  lemma RunShift(w: World, x: bv8, m: Machine) returns (n: Machine)
    requires Plain(m) && m.regs[RCX].l == x
    ensures Straight(w, [MovzxL(RDI, RCX), ShrQ(RDI, 5)], m) == Some(n)
    ensures n == m.(regs := n.regs, ip := n.ip, clock := n.clock, fh := n.fh, fl := n.fl)
    ensures n.regs == m.regs[RDI := Word(0, 0, ShiftRight(x, 5))] && (ZfOf(n.fl) <==> ShiftRight(x, 5) == 0)
  {
    hide CfOf, ZfOf, Do, ShiftRight, ShiftedBy, FlagByte, Num;
    var a, b := MovzxL(RDI, RCX), ShrQ(RDI, 5);
    ShiftedIsShift(x, 5);
    DoByte(w, a, m);
    var p := Do(w, a, m).value;
    DoByte(w, b, p);
    n := Do(w, b, p).value;
    Straight2(w, a, b, m);
    assert n.regs == m.regs[RDI := Word(0, 0, ShiftRight(x, 5))];
  }

  lemma RunStandbyTest(w: World, s: State, next: nat, m: Machine, f: Frame) returns (n: Machine)
    requires Match(w.cfg, s, m, f) && next < 65536
    ensures Straight(w, [MovzxL(RDI, RCX), ShrQ(RDI, 5), StoreXImm(Counter, next)], m) == Some(n)
    ensures Match(w.cfg, s, n, f) && n.counter == next && (ZfOf(n.fl) <==> ShiftRight(m.regs[RCX].l, 5) == 0)
  {
    hide CfOf, ZfOf, Micros, Do, ShiftRight, Straight;
    var c := StoreXImm(Counter, next);
    var q := RunShift(w, m.regs[RCX].l, m);
    HoldsUnderScratch(w.cfg, s, m, q, f.core);
    DoMemory(w, c, q);
    n := Do(w, c, q).value;
    Straight1(w, c, q);
    StraightAppends(w, [MovzxL(RDI, RCX), ShrQ(RDI, 5)], [c], m, q);
    assert [MovzxL(RDI, RCX), ShrQ(RDI, 5)] + [c] == [MovzxL(RDI, RCX), ShrQ(RDI, 5), c];
    MicrosOnlyRegs(n, q);
  }

  /** The mask covers all standby bits, or the value sets one that the mask lets through. */
  predicate ControlAgrees(x: bv8, mask: bv8) {
    mask & I.STANDBY_FIELD == I.STANDBY_FIELD || x & mask & I.STANDBY_FIELD != 0
  }

  /** Native and interpreted control byte stop the machine together, whatever CL held before. */
  lemma StandbyAgrees(x: bv8, mask: bv8, cl: bv8, ctr: bv8)
    requires ControlAgrees(x, mask)
    ensures ShiftRight(ControlByteOf(x, mask, cl), 5) == 0 <==> !I.Standby(ControlByte(ctr, x, mask))
  {
    hide ShiftRight, ControlByteOf, ControlByte, I.Standby, ControlAgrees;
    NativeStandby(x, mask, cl);
    InterpretedStandby(x, mask, ctr);
    if x & mask & I.STANDBY_FIELD == 0 {
      CoveredBits(x, mask, cl);
    }
  }

  lemma CoveredBits(x: bv8, mask: bv8, cl: bv8)
    requires ControlAgrees(x, mask) && x & mask & I.STANDBY_FIELD == 0
    ensures cl & !mask & I.STANDBY_FIELD == 0
  {}

  /** They do so for every content of CL exactly on these values and masks. */
  lemma StandbyAgreesExactly(x: bv8, mask: bv8, ctr: bv8)
    ensures (forall cl: bv8 :: ShiftRight(ControlByteOf(x, mask, cl), 5) == 0 <==> !I.Standby(ControlByte(ctr, x, mask)))
            <==> ControlAgrees(x, mask)
  {
    hide ShiftRight, ControlByteOf, ControlByte, I.Standby;
    if ControlAgrees(x, mask) {
      forall cl: bv8 ensures ShiftRight(ControlByteOf(x, mask, cl), 5) == 0 <==> !I.Standby(ControlByte(ctr, x, mask)) {
        StandbyAgrees(x, mask, cl, ctr);
      }
    } else {
      InterpretedStandby(x, mask, ctr);
      NativeStandby(x, mask, 0xFF);
      assert 0xFF & !mask & I.STANDBY_FIELD != 0;
      assert ShiftRight(ControlByteOf(x, mask, 0xFF), 5) != 0;
    }
  }

  lemma NativeStandby(x: bv8, mask: bv8, cl: bv8)
    ensures ShiftRight(ControlByteOf(x, mask, cl), 5) == 0 <==> x & mask & I.STANDBY_FIELD == 0 && cl & !mask & I.STANDBY_FIELD == 0
  {}

  lemma InterpretedStandby(x: bv8, mask: bv8, ctr: bv8)
    ensures I.Standby(ControlByte(ctr, x, mask)) <==> x & mask & I.STANDBY_FIELD != 0
  {}
}
