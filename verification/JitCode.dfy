/** The code the native compiler emits, as a function of the program and the memory configuration. */
module JitCode {
  import opened Isa
  import opened X86

  /** The machine register whose low byte holds micro register k. */
  function Micro(k: nat): Reg
    requires k < 8
  {
    R8 + k
  }

  // ----- register sets

  function ReadFrom(out: Reg, mask: bv8, k: nat, moved: bool): seq<Ins>
    requires k <= 8
    decreases 8 - k
  {
    if k == 8 then []
    else if Has(mask, k) then
      [if moved then AluL(OpOr, out, L(Micro(k))) else MovL(out, L(Micro(k)))] + ReadFrom(out, mask, k + 1, true)
    else ReadFrom(out, mask, k + 1, moved)
  }

  /** Collect a register set in `out`: move the first register, OR the others. */
  function ReadCode(out: Reg, mask: bv8): seq<Ins> {
    if mask == 0 then [MovL(out, Imm(0))] else ReadFrom(out, mask, 0, false)
  }

  function WriteFrom(src: Src, mask: bv8, k: nat): seq<Ins>
    requires k <= 8
    decreases 8 - k
  {
    if k == 8 then []
    else if Has(mask, k) then [MovL(Micro(k), src)] + WriteFrom(src, mask, k + 1)
    else WriteFrom(src, mask, k + 1)
  }

  function WriteCode(src: Src, mask: bv8): seq<Ins> {
    WriteFrom(src, mask, 0)
  }

  // ----- conditions

  /** The x86 condition under which a conditional instruction is skipped. */
  function CcAgainst(cond: bv4): Cc
    requires NamedCond(cond) && cond != COND_T && cond != COND_F
  {
    if cond == COND_NBE then BE
    else if cond == COND_NC then C
    else if cond == COND_C then NC
    else if cond == COND_NE then E
    else NE
  }

  function CondCode(cond: bv4, skip: Label): seq<Ins>
    requires NamedCond(cond)
  {
    if cond == COND_T then []
    else if cond == COND_F then [Jmp(skip)]
    else [PushX(RSI), Popf, Jcc(CcAgainst(cond), skip)]
  }

  // ----- one instruction

  predicate Complex(cfg: Config) {
    cfg.peripherals != {} || cfg.Segmented()
  }

  function TwoArg(op: AluOp, i: Instr): seq<Ins> {
    ReadCode(RDX, i.a) + ReadCode(RBX, i.b) + [AluL(op, RDX, L(RBX))] + WriteCode(L(RDX), i.a)
  }

  function StoreCode(cfg: Config, i: Instr): seq<Ins> {
    if Complex(cfg) then
      [PushX(RSI)] + ReadCode(RDX, i.a) + ReadCode(RBX, i.b) +
      [MovzxL(RDI, RDX), MovzxL(RSI, RBX), Lea(RAX, WriteMap, 0), LeaScaled(RAX, RAX, RDI), CallR(RAX), PopX(RSI)]
    else
      ReadCode(RDX, i.a) + ReadCode(RBX, i.b) +
      [MovzxL(RDX, RDX), Lea(RAX, Data, 0), StoreL(Indexed(RAX, RDX), RBX)]
  }

  function LoadCode(cfg: Config, i: Instr): seq<Ins> {
    if Complex(cfg) then
      ReadCode(RBX, i.b) + [MovzxL(RDI, RBX), Lea(RAX, ReadMap, 0), LeaScaled(RAX, RAX, RDI), CallR(RAX)] +
      WriteCode(L(RAX), i.a)
    else
      ReadCode(RBX, i.b) + [MovzxL(RBX, RBX), Lea(RAX, Data, 0), LoadL(RDX, Indexed(RAX, RBX))] +
      WriteCode(L(RDX), i.a)
  }

  /** CL takes the masked byte; the resume point is recorded; the flags say whether a standby bit is on. */
  function ControlHead(address: nat, i: Instr): seq<Ins> {
    ReadCode(RDX, i.a) +
    [AluL(OpAnd, RDX, Imm(i.b)), AluL(OpAnd, RCX, Imm(!i.b)), AluL(OpOr, RCX, L(RDX))] +
    [MovzxL(RDI, RCX), ShrQ(RDI, 5), StoreXImm(Counter, address + 1)]
  }

  function Body(cfg: Config, address: nat, i: Instr): seq<Ins> {
    match i.op
    case Nop => [NopX]
    case Set => WriteCode(Imm(i.b), i.a)
    case Ldm => LoadCode(cfg, i)
    case Stm => StoreCode(cfg, i)
    case Jpr =>
      ReadCode(RDX, i.a) + ReadCode(RBX, i.b) +
      [MovHL(RBX, RDX), MovzxX(RBX, RBX), Lea(RAX, Offsets, 0), LeaScaled(RAX, RAX, RBX), JmpR(RAX)]
    case Jpi => [Lea(RAX, Offsets, 8 * Wide(i.a, i.b)), JmpR(RAX)]
    case Cid => WriteCode(Imm(0), CID_REGISTERS)
    case Ctr => ControlHead(address, i) + [Jcc(NE, Cleanup)]
    case Nad =>
      ReadCode(RDX, i.a) + ReadCode(RBX, i.b) + [AluL(OpAnd, RDX, L(RBX)), NegL(RDX)] + WriteCode(L(RDX), i.a)
    case And => TwoArg(OpAnd, i)
    case Xor => TwoArg(OpXor, i)
    case Shr => ReadCode(RBX, i.a) + [ShrL(RBX, i.b)] + WriteCode(L(RBX), i.a)
    case Mov => ReadCode(RBX, i.b) + WriteCode(L(RBX), i.a)
    case Ext => []
    case Add => TwoArg(OpAdd, i)
    case Cmp =>
      ReadCode(RDX, i.a) + ReadCode(RBX, i.b) + [AluL(OpSub, RDX, L(RBX)), Pushf, PopX(RSI)] + WriteCode(L(RDX), i.a)
  }

  // ----- fixed parts

  function LoadRegisters(k: nat): seq<Ins>
    requires k <= 8
  {
    if k == 0 then [] else LoadRegisters(k - 1) + [LoadL(Micro(k - 1), Off(RAX, k - 1))]
  }

  function SaveRegisters(k: nat): seq<Ins>
    requires k <= 8
  {
    if k == 0 then [] else SaveRegisters(k - 1) + [StoreL(Off(RAX, k - 1), Micro(k - 1))]
  }

  function SaveCallee(): seq<Ins> {
    [PushQ(RBX), PushQ(RBP), PushQ(R12), PushQ(R13), PushQ(R14), PushQ(R15)]
  }

  function RestoreCallee(): seq<Ins> {
    [PopQ(R15), PopQ(R14), PopQ(R13), PopQ(R12), PopQ(RBP), PopQ(RBX)]
  }

  function Prologue(): seq<Ins> {
    SaveCallee() +
    [LoadArgument(RAX, RDI), StoreCore(RAX), MovFn(RAX, LoadState), LoadCore(RDI), CallR(RAX),
     LoadX(RSI, Flags), Lea(RAX, Registers, 0)] +
    LoadRegisters(8) +
    [LoadX(RBX, Counter), MovzxX(RBX, RBX), Lea(RAX, Offsets, 0), LeaScaled(RAX, RAX, RBX), JmpR(RAX)]
  }

  function Epilogue(size: nat): seq<Ins> {
    [StoreXImm(Counter, size)] +
    [StoreX(Flags, RSI), Lea(RAX, Registers, 0)] + SaveRegisters(8) +
    [MovFn(RAX, SaveState), LoadCore(RDI), CallR(RAX)] + RestoreCallee() + [Ret]
  }

  // ----- memory helpers

  const SegmentCell := At(Data, SEGMENT_REGISTER)

  function ApplySegment(cfg: Config): seq<Ins> {
    if cfg.Segmented() then [Mov64(RDX, RDI), LoadH(RDX, SegmentCell), MovzxX(RDI, RDX)] else []
  }

  function SkipIfSegment(cfg: Config, target: Label): seq<Ins> {
    if cfg.Segmented() then [LoadL(RAX, SegmentCell), MovzxL(RAX, RAX), AddZero(RAX), Jcc(NE, target)] else []
  }

  function PushRegisters(): seq<Ins> {
    [PushQ(RSI), PushQ(R8), PushQ(R9), PushQ(R10), PushQ(R11)]
  }

  function PopRegisters(): seq<Ins> {
    [PopQ(R11), PopQ(R10), PopQ(R9), PopQ(R8), PopQ(RSI)]
  }

  function ReadHelper(cfg: Config): seq<Ins> {
    [Lea(RAX, Data, 0)] + ApplySegment(cfg) + [LoadL(RAX, Indexed(RAX, RDI)), Ret]
  }

  function WriteHelper(cfg: Config): seq<Ins> {
    [Lea(RAX, Data, 0)] + ApplySegment(cfg) + [Mov64(RBX, RSI), StoreL(Indexed(RAX, RDI), RBX), Ret]
  }

  function SegmentWriteHelper(): seq<Ins> {
    [Mov64(RAX, RSI), StoreL(SegmentCell, RAX), Ret]
  }

  function SegmentReadHelper(): seq<Ins> {
    [LoadL(RAX, SegmentCell), Ret]
  }

  function PeripheralReadHelper(cfg: Config): seq<Ins> {
    SkipIfSegment(cfg, ReadFn) + PushRegisters() +
    [Mov64(RSI, RDI), MovFn(RAX, ReadPeripheral), LoadCore(RDI), CallR(RAX)] + PopRegisters() + [Ret]
  }

  function PeripheralWriteHelper(cfg: Config): seq<Ins> {
    SkipIfSegment(cfg, WriteFn) + PushRegisters() +
    [Mov64(RDX, RSI), Mov64(RSI, RDI), MovFn(RAX, WritePeripheral), LoadCore(RDI), CallR(RAX)] + PopRegisters() + [Ret]
  }

  // ----- jump tables

  const ENTRY_SIZE := 8

  /** A jump padded with one-byte no-operations to eight bytes. */
  function Padded(size: Ins -> nat, target: Label): seq<Ins> {
    [Jmp(target)] + seq(if size(Jmp(target)) <= ENTRY_SIZE then ENTRY_SIZE - size(Jmp(target)) else 0, i => NopX)
  }

  function Table(size: Ins -> nat, targets: seq<Label>): seq<Ins> {
    if targets == [] then [] else Padded(size, targets[0]) + Table(size, targets[1..])
  }

  /** What is assumed of the instruction encoder. */
  ghost predicate GoodSizes(size: Ins -> nat) {
    size(NopX) == 1 && forall l: Label :: 1 <= size(Jmp(l)) <= ENTRY_SIZE
  }

  /** Which helper serves an 8-bit address. */
  function ReadTarget(cfg: Config, i: nat): Label {
    if cfg.Segmented() && i == SEGMENT_REGISTER then SegmentReadFn
    else if i !in cfg.peripherals then ReadFn
    else PeripheralReadFn
  }

  function WriteTarget(cfg: Config, i: nat): Label {
    if cfg.Segmented() && i == SEGMENT_REGISTER then SegmentWriteFn
    else if i !in cfg.peripherals then WriteFn
    else PeripheralWriteFn
  }

  // ----- the whole image

  datatype Unit = Unit(cfg: Config, rom: seq<Instr>, size: Ins -> nat) {

    /** The compiler refuses the nine condition nibbles that have no name. */
    predicate Compiles() {
      forall i :: 0 <= i < |rom| ==> rom[i].op == Nop || NamedCond(rom[i].cond)
    }

    function Block(i: nat): seq<Ins>
      requires i < |rom| && Compiles()
    {
      if rom[i].op == Nop then [NopX] else CondCode(rom[i].cond, Skip(i)) + Body(cfg, i, rom[i])
    }

    function Blocks(k: nat): seq<Ins>
      requires k <= |rom| && Compiles()
    {
      if k == 0 then [] else Blocks(k - 1) + Block(k - 1)
    }

    function OffsetTargets(): seq<Label> {
      seq(|rom| + 1, i requires 0 <= i <= |rom| => if i == |rom| then End else Inst(i))
    }

    function Helpers(): seq<Ins> {
      ReadHelper(cfg) + WriteHelper(cfg) + SegmentWriteHelper() + SegmentReadHelper() +
      PeripheralReadHelper(cfg) + PeripheralWriteHelper(cfg)
    }

    function ReadTargets(): seq<Label> {
      seq(SEGMENT_SIZE, i requires 0 <= i < SEGMENT_SIZE => ReadTarget(cfg, i))
    }

    function WriteTargets(): seq<Label> {
      seq(SEGMENT_SIZE, i requires 0 <= i < SEGMENT_SIZE => WriteTarget(cfg, i))
    }

    function Dispatch(): seq<Ins> {
      if Complex(cfg) then Helpers() + Table(size, ReadTargets()) + Table(size, WriteTargets()) else []
    }

    function Code(): seq<Ins>
      requires Compiles()
    {
      Prologue() + Blocks(|rom|) + Epilogue(|rom|) + Table(size, OffsetTargets()) + Dispatch()
    }

    /** Where block k starts; k == |rom| is the end of the program. */
    function BlockStart(k: nat): nat
      requires k <= |rom| && Compiles()
    {
      |Prologue()| + |Blocks(k)|
    }

    function OffsetsStart(): nat
      requires Compiles()
    {
      BlockStart(|rom|) + |Epilogue(|rom|)|
    }

    function HelpersStart(): nat
      requires Compiles()
    {
      OffsetsStart() + |Table(size, OffsetTargets())|
    }

    /** The labels the compiler binds. */
    predicate Bound(l: Label) {
      match l
      case Start => true
      case Inst(i) => i < |rom|
      case Skip(i) => i < |rom| && rom[i].op != Nop && rom[i].cond != COND_T
      case End => true
      case Cleanup => true
      case Offsets => true
      case ReadFn | WriteFn | SegmentReadFn | SegmentWriteFn | PeripheralReadFn | PeripheralWriteFn | ReadMap | WriteMap =>
        Complex(cfg)
      case _ => false
    }

    function LabelAt(l: Label): nat
      requires Compiles() && Bound(l)
    {
      match l
      case Start => 0
      case Inst(i) => BlockStart(i)
      case Skip(i) => BlockStart(i + 1)
      case End => BlockStart(|rom|)
      case Cleanup => BlockStart(|rom|) + 1
      case Offsets => OffsetsStart()
      case ReadFn => HelpersStart()
      case WriteFn => HelpersStart() + |ReadHelper(cfg)|
      case SegmentWriteFn => HelpersStart() + |ReadHelper(cfg)| + |WriteHelper(cfg)|
      case SegmentReadFn => HelpersStart() + |ReadHelper(cfg)| + |WriteHelper(cfg)| + |SegmentWriteHelper()|
      case PeripheralReadFn =>
        HelpersStart() + |ReadHelper(cfg)| + |WriteHelper(cfg)| + |SegmentWriteHelper()| + |SegmentReadHelper()|
      case PeripheralWriteFn =>
        HelpersStart() + |ReadHelper(cfg)| + |WriteHelper(cfg)| + |SegmentWriteHelper()| + |SegmentReadHelper()| +
        |PeripheralReadHelper(cfg)|
      case ReadMap => HelpersStart() + |Helpers()|
      case WriteMap => HelpersStart() + |Helpers()| + |Table(size, ReadTargets())|
      case _ => 0
    }

    /** An assembled image of this unit: its code, with every label where it belongs. */
    ghost predicate IsImage(img: Image)
      requires Compiles()
    {
      && img.code == Code()
      && forall l: Label :: Bound(l) ==> l in img.labels && img.labels[l] == LabelAt(l)
    }
  }

  // ----- layout

  lemma {:induction false} BlocksPrefix(u: Unit, k: nat, n: nat)
    requires u.Compiles() && k <= n <= |u.rom|
    ensures |u.Blocks(k)| <= |u.Blocks(n)| && u.Blocks(n)[..|u.Blocks(k)|] == u.Blocks(k)
    decreases n
  {
    hide CondCode, Body;
    if k < n {
      BlocksPrefix(u, k, n - 1);
    }
  }
}
