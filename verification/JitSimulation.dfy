/** Forward simulation: one interpreter step is one run through one native block. */
module JitSimulation {
  import opened Isa
  import opened Options
  import opened X86
  import opened JitCode
  import opened JitRegisters
  import opened JitLayout
  import opened JitBlocks
  import opened JitMemory
  import opened JitPeripherals
  import opened JitDispatch
  import opened JitStep
  import I = Interpreter

  /** The instructions whose native code does what the interpreter does. */
  predicate Supported(i: Instr) {
    && i.op != Ext
    && (i.op == Nad ==> i.a == 0)
    && (i.op == Shr ==> i.b < 32)
  }

  /** Its memory access, if it makes one, is one the dispatch tables agree on, and its control write, if it is one,
      stops both sides or neither. */
  predicate AgreesOn(cfg: Config, i: Instr, s: State) {
    && (i.op == Ldm ==> AccessOk(cfg, s.ram, ReadSet(s.regs, i.b)))
    && (i.op == Stm ==> AccessOk(cfg, s.ram, ReadSet(s.regs, i.a)))
    && (i.op == Ctr ==> ControlAgrees(ReadSet(s.regs, i.a), i.b))
  }

  predicate RunsOn(op: Op) {
    op in {Set, Cid, And, Xor, Add, Cmp, Shr, Mov, Nad}
  }

  // ----- straight bodies

  lemma BodyIgnoresAddress(cfg: Config, a: nat, i: Instr)
    requires i.op != Ctr
    ensures Body(cfg, a, i) == Body(cfg, 0, i)
  {
    hide ReadCode, WriteCode, TwoArg, StoreCode, LoadCode, Wide;
  }

  lemma TwoArgIsBody(cfg: Config, i: Instr)
    requires i.op in {And, Xor, Add}
    ensures Body(cfg, 0, i) == TwoArg(AluOpOf(i.op), i)
  {
    hide TwoArg;
  }

  /** What the straight body leaves behind. */
  lemma StraightBody(w: World, i: Instr, s: State, m: Machine, f: Frame) returns (n: Machine)
    requires Match(w.cfg, s, m, f) && RunsOn(i.op) && Supported(i)
    ensures Straight(w, Body(w.cfg, 0, i), m) == Some(n) && Match(w.cfg, Effect(w.cfg, w.dev, i, s), n, f)
  {
    hide Match, Body, Straight, Effect, Holds;
    match i.op
    case Set | Cid => n := BlockConstant(w, i, s, m, f);
    case And | Xor | Add =>
      TwoArgIsBody(w.cfg, i);
      n := BlockTwoArg(w, i, s, m, f);
    case Cmp => n := BlockCmp(w, i, s, m, f);
    case Shr => n := BlockShr(w, i, s, m, f);
    case Mov => n := BlockMov(w, i, s, m, f);
    case Nad =>
      n := BlockNad(w, i, s, m, f);
      NadAgreesExactly(w, i, s, m, f, n);
  }

  lemma NoControlAppend(a: seq<Ins>, b: seq<Ins>)
    requires NoControl(a) && NoControl(b)
    ensures NoControl(a + b)
  {}

  lemma Piece(r1: Reg, a: bv8, r2: Reg, b: bv8, mid: seq<Ins>, src: Src, d: bv8)
    requires NoControl(mid)
    ensures NoControl(ReadCode(r1, a) + ReadCode(r2, b) + mid + WriteCode(src, d))
    ensures NoControl(ReadCode(r1, a) + mid + WriteCode(src, d)) && NoControl(ReadCode(r1, a) + WriteCode(src, d))
    ensures NoControl(WriteCode(src, d)) && NoControl(ReadCode(r1, a) + mid) && NoControl(ReadCode(r1, a) + ReadCode(r2, b) + mid)
  {
    hide ReadCode, WriteCode, NoControl;
    PieceIsStraight(r1, a, src, d);
    PieceIsStraight(r2, b, src, d);
    NoControlAppend(ReadCode(r1, a), ReadCode(r2, b));
    NoControlAppend(ReadCode(r1, a) + ReadCode(r2, b), mid);
    NoControlAppend(ReadCode(r1, a) + ReadCode(r2, b) + mid, WriteCode(src, d));
    NoControlAppend(ReadCode(r1, a), mid);
    NoControlAppend(ReadCode(r1, a) + mid, WriteCode(src, d));
    NoControlAppend(ReadCode(r1, a), WriteCode(src, d));
  }

  lemma PieceIsStraight(r: Reg, a: bv8, src: Src, d: bv8)
    ensures NoControl(ReadCode(r, a)) && NoControl(WriteCode(src, d))
  {
    hide ReadCode, WriteCode;
    ReadCodeIsStraight(r, a);
    WriteCodeIsStraight(src, d);
  }

  lemma StraightBodyHasNoControl(cfg: Config, i: Instr)
    requires RunsOn(i.op)
    ensures NoControl(Body(cfg, 0, i))
  {
    hide ReadCode, WriteCode, StoreCode, LoadCode, Wide;
    Piece(RDX, i.a, RBX, i.b, [AluL(OpAnd, RDX, L(RBX)), NegL(RDX)], L(RDX), i.a);
    Piece(RDX, i.a, RBX, i.b, [AluL(OpSub, RDX, L(RBX)), Pushf, PopX(RSI)], L(RDX), i.a);
    if i.op in {And, Xor, Add} {
      Piece(RDX, i.a, RBX, i.b, [AluL(AluOpOf(i.op), RDX, L(RBX))], L(RDX), i.a);
    }
    Piece(RBX, i.a, RBX, i.a, [ShrL(RBX, i.b)], L(RBX), i.a);
    Piece(RBX, i.b, RBX, i.b, [], L(RBX), i.a);
    Piece(RBX, i.b, RBX, i.b, [], Imm(i.b), i.a);
    Piece(RBX, i.b, RBX, i.b, [], Imm(0), CID_REGISTERS);
  }

  lemma StraightBodyRuns(w: World, a: nat, i: Instr, s: State, m: Machine, f: Frame) returns (k: nat, n: Machine)
    requires Match(w.cfg, s, m, f) && RunsOn(i.op) && Supported(i) && CodeAt(w, m.ip, Body(w.cfg, a, i))
    ensures RunX(w, m, k) == Some(n) && n.ip == m.ip + |Body(w.cfg, a, i)| && Match(w.cfg, Effect(w.cfg, w.dev, i, s), n, f)
  {
    hide Body, Straight, Effect, Holds, CodeAt, StepX, Micros;
    BodyIgnoresAddress(w.cfg, a, i);
    MatchHolds(w.cfg, s, m, f);
    HoldsIsPlain(w.cfg, s, m, f.core);
    n := StraightBody(w, i, s, m, f);
    StraightBodyHasNoControl(w.cfg, i);
    k := |Body(w.cfg, a, i)|;
    StraightRuns(w, Body(w.cfg, a, i), m, n);
  }

  // ----- memory bodies

  lemma LoadBodyRuns(u: Unit, w: World, a: nat, i: Instr, s: State, m: Machine, f: Frame) returns (k: nat, n: Machine)
    requires u.Compiles() && Loaded(u, w) && Match(w.cfg, s, m, f) && i.op == Ldm && CodeAt(w, m.ip, Body(w.cfg, a, i))
    requires AgreesOn(w.cfg, i, s)
    ensures RunX(w, m, k) == Some(n) && n.ip == m.ip + |Body(w.cfg, a, i)| && Match(w.cfg, Effect(w.cfg, w.dev, i, s), n, f)
  {
    hide Loaded, u.Compiles, StepX, CodeAt, Match, AccessOk, ReadCode, WriteCode, ReadSet, Straight, Load, WriteSet, NoControl;
    LoadedCompiles(u, w);
    MatchHolds(w.cfg, s, m, f);
    if Complex(w.cfg) {
      assert Body(w.cfg, a, i) == ReadCode(RBX, i.b) + PointAt(ReadMap, RBX) + [CallR(RAX)] + WriteCode(L(RAX), i.a);
      k, n := LoadDispatchedRuns(u, w, i, s, m, f);
    } else {
      n := LoadPlainRuns(w, i, s, m, f);
      PlainBodiesHaveNoControl(i);
      k := |Body(w.cfg, a, i)|;
      StraightRuns(w, Body(w.cfg, a, i), m, n);
    }
  }

  lemma PlainBodiesHaveNoControl(i: Instr)
    ensures NoControl(ReadCode(RBX, i.b) + [MovzxL(RBX, RBX), Lea(RAX, Data, 0), LoadL(RDX, Indexed(RAX, RBX))] + WriteCode(L(RDX), i.a))
    ensures NoControl(ReadCode(RDX, i.a) + ReadCode(RBX, i.b) + [MovzxL(RDX, RDX), Lea(RAX, Data, 0), StoreL(Indexed(RAX, RDX), RBX)])
  {
    hide ReadCode, WriteCode;
    Piece(RBX, i.b, RBX, i.b, [MovzxL(RBX, RBX), Lea(RAX, Data, 0), LoadL(RDX, Indexed(RAX, RBX))], L(RDX), i.a);
    Piece(RDX, i.a, RBX, i.b, [MovzxL(RDX, RDX), Lea(RAX, Data, 0), StoreL(Indexed(RAX, RDX), RBX)], L(RDX), i.a);
  }

  lemma StoreBodyRuns(u: Unit, w: World, a: nat, i: Instr, s: State, m: Machine, f: Frame) returns (k: nat, n: Machine)
    requires u.Compiles() && Loaded(u, w) && Match(w.cfg, s, m, f) && i.op == Stm && CodeAt(w, m.ip, Body(w.cfg, a, i))
    requires AgreesOn(w.cfg, i, s)
    ensures RunX(w, m, k) == Some(n) && n.ip == m.ip + |Body(w.cfg, a, i)| && Match(w.cfg, Effect(w.cfg, w.dev, i, s), n, f)
  {
    hide Loaded, u.Compiles, StepX, CodeAt, Match, AccessOk, ReadCode, WriteCode, ReadSet, Straight, Store, NoControl;
    LoadedCompiles(u, w);
    MatchHolds(w.cfg, s, m, f);
    if Complex(w.cfg) {
      StoreBodyShape(w.cfg, a, i);
      k, n := StoreDispatchedRuns(u, w, i, s, m, f);
    } else {
      n := StorePlainRuns(w, i, s, m, f);
      PlainBodiesHaveNoControl(i);
      k := |Body(w.cfg, a, i)|;
      StraightRuns(w, Body(w.cfg, a, i), m, n);
    }
  }

  lemma StoreBodyShape(cfg: Config, a: nat, i: Instr)
    requires Complex(cfg) && i.op == Stm
    ensures Body(cfg, a, i) ==
            [PushX(RSI)] + (ReadCode(RDX, i.a) + ReadCode(RBX, i.b)) + StoreArguments() + [CallR(RAX)] + [PopX(RSI)]
  {
    hide ReadCode, Complex;
  }

  // ----- jump bodies

  function JumpHead(i: Instr): seq<Ins> {
    if i.op == Jpi then [Lea(RAX, Offsets, 8 * Wide(i.a, i.b))]
    else ReadCode(RDX, i.a) + ReadCode(RBX, i.b) + [MovHL(RBX, RDX), MovzxX(RBX, RBX)] +
         [Lea(RAX, Offsets, 0), LeaScaled(RAX, RAX, RBX)]
  }

  lemma JumpBodyShape(cfg: Config, a: nat, i: Instr)
    requires i.op == Jpi || i.op == Jpr
    ensures Body(cfg, a, i) == JumpHead(i) + [JmpR(RAX)] && NoControl(JumpHead(i))
  {
    hide ReadCode, Wide;
    Piece(RDX, i.a, RBX, i.b, [MovHL(RBX, RDX), MovzxX(RBX, RBX)], Imm(0), 0);
    NoControlAppend(ReadCode(RDX, i.a) + ReadCode(RBX, i.b) + [MovHL(RBX, RDX), MovzxX(RBX, RBX)],
                    [Lea(RAX, Offsets, 0), LeaScaled(RAX, RAX, RBX)]);
  }

  lemma MatchIgnoresControl(cfg: Config, s: State, pc: nat, ctr: bv8, m: Machine, f: Frame)
    requires Match(cfg, s, m, f)
    ensures Match(cfg, s.(pc := pc), m, f) && Match(cfg, s.(ctr := ctr), m, f)
  {
    hide CfOf, ZfOf;
  }

  lemma RunJumpHead(w: World, i: Instr, s: State, m: Machine, f: Frame) returns (n: Machine)
    requires Match(w.cfg, s, m, f) && (i.op == Jpi || i.op == Jpr)
    ensures Straight(w, JumpHead(i), m) == Some(n) && Match(w.cfg, s, n, f)
    ensures n.regs[RAX] == Ptr(Offsets, ENTRY_SIZE * Effect(w.cfg, w.dev, i, s).pc)
  {
    hide CfOf, ZfOf, Straight, ReadCode, ReadSet, Wide, Micros;
    if i.op == Jpi {
      n := RunJpi(w, s, 8 * Wide(i.a, i.b), m, f);
    } else {
      n := RunJpr(w, i, s, m, f);
    }
  }

  lemma JumpBodyRuns(u: Unit, w: World, a: nat, i: Instr, s: State, m: Machine, f: Frame) returns (k: nat, n: Machine)
    requires u.Compiles() && Loaded(u, w) && Match(w.cfg, s, m, f) && (i.op == Jpi || i.op == Jpr) && CodeAt(w, m.ip, Body(w.cfg, a, i))
    requires Effect(w.cfg, w.dev, i, s).pc <= |u.rom|
    ensures RunX(w, m, k) == Some(n) && Match(w.cfg, Effect(w.cfg, w.dev, i, s), n, f)
    ensures n.ip == u.BlockStart(Effect(w.cfg, w.dev, i, s).pc) && k > 0
  {
    hide Loaded, StepX, CodeAt, Match, ReadCode, ReadSet, Straight, Wide, NoControl, u.Compiles, JumpHead, Body;
    var target := Effect(w.cfg, w.dev, i, s).pc;
    MatchHolds(w.cfg, s, m, f);
    JumpBodyShape(w.cfg, a, i);
    CodeSplits(w, m.ip, JumpHead(i), [JmpR(RAX)]);
    var p := RunJumpHead(w, i, s, m, f);
    MatchHolds(w.cfg, s, p, f);
    StraightRuns(w, JumpHead(i), m, p);
    n := JumpThroughTable(u, w, target, p);
    MatchUnderFlags(w.cfg, s, p, n, f);
    MatchIgnoresControl(w.cfg, s, target, s.ctr, n, f);
    k := |JumpHead(i)| + 2;
    RunXAdds(w, m, |JumpHead(i)|, p, 2);
  }

  // ----- the control body

  lemma ControlBodyShape(cfg: Config, a: nat, i: Instr)
    requires i.op == Ctr
    ensures Body(cfg, a, i) == ControlHead(a, i) + [Jcc(NE, Cleanup)] && NoControl(ControlHead(a, i))
  {
    hide ReadCode;
    var x, y := [AluL(OpAnd, RDX, Imm(i.b)), AluL(OpAnd, RCX, Imm(!i.b)), AluL(OpOr, RCX, L(RDX))],
                [MovzxL(RDI, RCX), ShrQ(RDI, 5), StoreXImm(Counter, a + 1)];
    Piece(RDX, i.a, RDX, i.a, x, Imm(0), 0);
    NoControlAppend(ReadCode(RDX, i.a) + x, y);
  }

  /** A control instruction that turns standby on leaves through the exit with its resume point recorded;
      any other falls through. */
  lemma ControlBodyRuns(u: Unit, w: World, a: nat, i: Instr, s: State, m: Machine, f: Frame) returns (k: nat, n: Machine)
    requires u.Compiles() && Loaded(u, w) && Match(w.cfg, s, m, f) && i.op == Ctr && AgreesOn(w.cfg, i, s)
    requires CodeAt(w, m.ip, Body(w.cfg, a, i)) && a < |u.rom|
    ensures RunX(w, m, k) == Some(n) && Match(w.cfg, Effect(w.cfg, w.dev, i, s), n, f) && n.counter == a + 1
    ensures n.ip == if I.Standby(Effect(w.cfg, w.dev, i, s).ctr) then u.LabelAt(Cleanup) else m.ip + |Body(w.cfg, a, i)|
  {
    hide Loaded, StepX, CodeAt, Match, ReadCode, ReadSet, Straight, NoControl, u.Compiles, Body, ControlHead, ShiftRight, ControlByteOf, ControlByte, ZfOf, CfOf, LabelIndex;
    hide I.Standby, RunX;
    LoadedCompiles(u, w);
    MatchHolds(w.cfg, s, m, f);
    ControlBodyShape(w.cfg, a, i);
    CodeSplits(w, m.ip, ControlHead(a, i), [Jcc(NE, Cleanup)]);
    var p := RunControlHead(w, a, i, s, m, f);
    MatchHolds(w.cfg, s, p, f);
    StraightRuns(w, ControlHead(a, i), m, p);
    CleanupIsThere(u, w);
    StepAtJcc(w, p, NE, Cleanup, u.LabelAt(Cleanup));
    n := StepX(w, p).value;
    RunsOnce(w, p, n);
    RunXAdds(w, m, |ControlHead(a, i)|, p, 1);
    k := |ControlHead(a, i)| + 1;
    MatchUnderFlags(w.cfg, s, p, n, f);
    StandbyAgrees(ReadSet(s.regs, i.a), i.b, m.regs[RCX].l, s.ctr);
    MatchIgnoresControl(w.cfg, s, s.pc, ControlByte(s.ctr, ReadSet(s.regs, i.a), i.b), n, f);
  }

  lemma RunControlHead(w: World, a: nat, i: Instr, s: State, m: Machine, f: Frame) returns (n: Machine)
    requires Match(w.cfg, s, m, f) && a + 1 < 65536
    ensures Straight(w, ControlHead(a, i), m) == Some(n) && Match(w.cfg, s, n, f) && n.counter == a + 1
    ensures ZfOf(n.fl) <==> ShiftRight(ControlByteOf(ReadSet(s.regs, i.a), i.b, m.regs[RCX].l), 5) == 0
  {
    hide CfOf, ZfOf, Straight, ReadCode, ReadSet, ShiftRight, ControlByteOf;
    n := RunControl(w, i, a + 1, s, m, f);
  }

  lemma CleanupIsThere(u: Unit, w: World)
    requires u.Compiles() && Loaded(u, w)
    ensures LabelIndex(w, Cleanup) == Some(u.LabelAt(Cleanup))
  {
    hide Loaded, u.Compiles, Prologue, CodeAt, LabelIndex, u.Code, u.IsImage;
    ImageParts(u, w);
    CodeFits(w, u.BlockStart(|u.rom|), Epilogue(|u.rom|));
    LabelIsBound(u, w, Cleanup);
  }
}
