/** The native compiler as it runs: a buffer of instructions and a table of labels, filled by loops. It produces
    exactly the image that JitCode describes, and fails exactly on the programs that do not compile. */
module JitWriter {
  import opened Isa
  import opened X86
  import opened JitCode

  function Halve(x: bv8): bv8 {
    x >> 1
  }

  predicate Odd(x: bv8) {
    x % 2 != 0
  }

  lemma HalveShifts(x: bv8, j: nat)
    requires j < 7
    ensures Has(Halve(x), j) <==> Has(x, j + 1)
  {}

  lemma OddIsLowest(x: bv8)
    ensures Odd(x) <==> Has(x, 0)
  {}

  /** What is left of a set after its first k registers were shifted out. */
  predicate LeftOf(rest: bv8, mask: bv8, k: nat)
    requires k <= 8
  {
    forall j: nat :: k <= j < 8 ==> (Has(rest, j - k) <==> Has(mask, j))
  }

  lemma ShiftOut(rest: bv8, mask: bv8, k: nat)
    requires k < 8 && LeftOf(rest, mask, k)
    ensures LeftOf(Halve(rest), mask, k + 1) && (Odd(rest) <==> Has(mask, k))
  {
    hide Has, Halve, Odd;
    OddIsLowest(rest);
    forall j: nat | k + 1 <= j < 8 ensures Has(Halve(rest), j - (k + 1)) <==> Has(mask, j) {
      HalveShifts(rest, j - (k + 1));
    }
  }

  lemma AllLeft(mask: bv8)
    ensures LeftOf(mask, mask, 0)
  {}

  lemma ReadFromNext(out: Reg, mask: bv8, k: nat, moved: bool)
    requires k < 8
    ensures ReadFrom(out, mask, k, moved) ==
            if Has(mask, k) then
              [if moved then AluL(OpOr, out, L(Micro(k))) else MovL(out, L(Micro(k)))] + ReadFrom(out, mask, k + 1, true)
            else ReadFrom(out, mask, k + 1, moved)
  {
    hide Has;
  }

  lemma WriteFromNext(src: Src, mask: bv8, k: nat)
    requires k < 8
    ensures WriteFrom(src, mask, k) ==
            if Has(mask, k) then [MovL(Micro(k), src)] + WriteFrom(src, mask, k + 1) else WriteFrom(src, mask, k + 1)
  {
    hide Has;
  }

  lemma NothingLeft(out: Reg, mask: bv8, moved: bool, src: Src)
    ensures ReadFrom(out, mask, 8, moved) == [] && WriteFrom(src, mask, 8) == []
  {}

  lemma Shunt<T>(a: seq<T>, x: T, b: seq<T>)
    ensures a + ([x] + b) == (a + [x]) + b
  {}

  class CodeBuffer {
    var code: seq<Ins>
    var labels: map<Label, nat>

    constructor ()
      ensures code == [] && labels == map[]
    {
      code, labels := [], map[];
    }

    method Put(i: Ins)
      modifies `code
      ensures code == old(code) + [i]
    {
      code := code + [i];
    }

    method Bind(l: Label)
      modifies `labels
      ensures labels == old(labels)[l := |code|]
    {
      labels := labels[l := |code|];
    }

    // ----- register sets

    method ReadRegistrySet(out: Reg, mask: bv8)
      modifies `code
      ensures code == old(code) + ReadCode(out, mask)
    {
      hide Has, Halve, Odd, LeftOf, ReadFrom;
      if mask == 0 {
        Put(MovL(out, Imm(0)));
        return;
      }
      var rest, moved := mask, false;
      AllLeft(mask);
      for k := 0 to REGISTER_COUNT
        invariant LeftOf(rest, mask, k)
        invariant code + ReadFrom(out, mask, k, moved) == old(code) + ReadFrom(out, mask, 0, false)
      {
        ShiftOut(rest, mask, k);
        ReadFromNext(out, mask, k, moved);
        if Odd(rest) {
          Shunt(code, if moved then AluL(OpOr, out, L(Micro(k))) else MovL(out, L(Micro(k))), ReadFrom(out, mask, k + 1, true));
          if !moved {
            Put(MovL(out, L(Micro(k))));
            moved := true;
          } else {
            Put(AluL(OpOr, out, L(Micro(k))));
          }
        }
        rest := Halve(rest);
      }
      NothingLeft(out, mask, moved, Imm(0));
    }

    method WriteRegistrySet(src: Src, mask: bv8)
      modifies `code
      ensures code == old(code) + WriteCode(src, mask)
    {
      hide Has, Halve, Odd, LeftOf, WriteFrom;
      var rest := mask;
      AllLeft(mask);
      for k := 0 to REGISTER_COUNT
        invariant LeftOf(rest, mask, k)
        invariant code + WriteFrom(src, mask, k) == old(code) + WriteFrom(src, mask, 0)
      {
        ShiftOut(rest, mask, k);
        WriteFromNext(src, mask, k);
        if Odd(rest) {
          Shunt(code, MovL(Micro(k), src), WriteFrom(src, mask, k + 1));
          Put(MovL(Micro(k), src));
        }
        rest := Halve(rest);
      }
      NothingLeft(RAX, mask, false, src);
    }

    // ----- conditions

    /** The nine condition nibbles without a name make the compiler throw. */
    method WriteConditional(cond: bv4, skip: Label) returns (ok: bool)
      modifies `code
      ensures ok <==> NamedCond(cond)
      ensures ok ==> code == old(code) + CondCode(cond, skip)
    {
      if cond == COND_T {
        return true;
      }
      if cond == COND_F {
        Put(Jmp(skip));
        return true;
      }
      Put(PushX(RSI));
      Put(Popf);
      ok := true;
      if cond == COND_NBE {
        Put(Jcc(BE, skip));
      } else if cond == COND_NC {
        Put(Jcc(C, skip));
      } else if cond == COND_C {
        Put(Jcc(NC, skip));
      } else if cond == COND_NE {
        Put(Jcc(E, skip));
      } else if cond == COND_E {
        Put(Jcc(NE, skip));
      } else {
        ok := false;
      }
    }

    // ----- bodies

    method TwoArgument(op: AluOp, i: Instr)
      modifies `code
      ensures code == old(code) + TwoArg(op, i)
    {
      hide ReadCode, WriteCode;
      ReadRegistrySet(RDX, i.a);
      ReadRegistrySet(RBX, i.b);
      Put(AluL(op, RDX, L(RBX)));
      WriteRegistrySet(L(RDX), i.a);
    }

    method CompareBody(cfg: Config, address: nat, i: Instr)
      requires i.op == Cmp
      modifies `code
      ensures code == old(code) + Body(cfg, address, i)
    {
      hide ReadCode, WriteCode;
      ReadRegistrySet(RDX, i.a);
      ReadRegistrySet(RBX, i.b);
      Put(AluL(OpSub, RDX, L(RBX)));
      Put(Pushf);
      Put(PopX(RSI));
      WriteRegistrySet(L(RDX), i.a);
    }

    method NadBody(cfg: Config, address: nat, i: Instr)
      requires i.op == Nad
      modifies `code
      ensures code == old(code) + Body(cfg, address, i)
    {
      hide ReadCode, WriteCode;
      ReadRegistrySet(RDX, i.a);
      ReadRegistrySet(RBX, i.b);
      Put(AluL(OpAnd, RDX, L(RBX)));
      Put(NegL(RDX));
      WriteRegistrySet(L(RDX), i.a);
    }

    method MoveBody(cfg: Config, address: nat, i: Instr)
      requires i.op == Mov || i.op == Shr
      modifies `code
      ensures code == old(code) + Body(cfg, address, i)
    {
      hide ReadCode, WriteCode;
      if i.op == Mov {
        ReadRegistrySet(RBX, i.b);
      } else {
        ReadRegistrySet(RBX, i.a);
        Put(ShrL(RBX, i.b));
      }
      WriteRegistrySet(L(RBX), i.a);
    }

    method ControlBody(cfg: Config, address: nat, i: Instr)
      requires i.op == Ctr
      modifies `code
      ensures code == old(code) + Body(cfg, address, i)
    {
      hide ReadCode, WriteCode;
      ReadRegistrySet(RDX, i.a);
      Put(AluL(OpAnd, RDX, Imm(i.b)));
      Put(AluL(OpAnd, RCX, Imm(!i.b)));
      Put(AluL(OpOr, RCX, L(RDX)));
      Put(MovzxL(RDI, RCX));
      Put(ShrQ(RDI, 5));
      Put(StoreXImm(Counter, address + 1));
      Put(Jcc(NE, Cleanup));
      assert code == old(code) + Body(cfg, address, i);
    }

    method JumpBody(cfg: Config, address: nat, i: Instr)
      requires i.op == Jpi || i.op == Jpr
      modifies `code
      ensures code == old(code) + Body(cfg, address, i)
    {
      hide ReadCode, Wide;
      if i.op == Jpi {
        Put(Lea(RAX, Offsets, 8 * Wide(i.a, i.b)));
      } else {
        ReadRegistrySet(RDX, i.a);
        ReadRegistrySet(RBX, i.b);
        Put(MovHL(RBX, RDX));
        Put(MovzxX(RBX, RBX));
        Put(Lea(RAX, Offsets, 0));
        Put(LeaScaled(RAX, RAX, RBX));
      }
      Put(JmpR(RAX));
    }

    method StoreBody(cfg: Config, i: Instr)
      modifies `code
      ensures code == old(code) + StoreCode(cfg, i)
    {
      hide ReadCode;
      if |cfg.peripherals| > 0 || cfg.Segmented() {
        Put(PushX(RSI));
        ReadRegistrySet(RDX, i.a);
        ReadRegistrySet(RBX, i.b);
        Put(MovzxL(RDI, RDX));
        Put(MovzxL(RSI, RBX));
        Put(Lea(RAX, WriteMap, 0));
        Put(LeaScaled(RAX, RAX, RDI));
        Put(CallR(RAX));
        Put(PopX(RSI));
      } else {
        ReadRegistrySet(RDX, i.a);
        ReadRegistrySet(RBX, i.b);
        Put(MovzxL(RDX, RDX));
        Put(Lea(RAX, Data, 0));
        Put(StoreL(Indexed(RAX, RDX), RBX));
      }
    }

    method LoadBody(cfg: Config, i: Instr)
      modifies `code
      ensures code == old(code) + LoadCode(cfg, i)
    {
      hide ReadCode, WriteCode;
      ReadRegistrySet(RBX, i.b);
      if |cfg.peripherals| > 0 || cfg.Segmented() {
        Put(MovzxL(RDI, RBX));
        Put(Lea(RAX, ReadMap, 0));
        Put(LeaScaled(RAX, RAX, RDI));
        Put(CallR(RAX));
        WriteRegistrySet(L(RAX), i.a);
      } else {
        Put(MovzxL(RBX, RBX));
        Put(Lea(RAX, Data, 0));
        Put(LoadL(RDX, Indexed(RAX, RBX)));
        WriteRegistrySet(L(RDX), i.a);
      }
    }

    method EmitBody(cfg: Config, address: nat, i: Instr)
      requires i.op != Nop
      modifies `code
      ensures code == old(code) + Body(cfg, address, i)
    {
      hide ReadCode, WriteCode, TwoArg, StoreCode, LoadCode, ControlHead;
      match i.op
      case Set => WriteRegistrySet(Imm(i.b), i.a);
      case Ldm => LoadBody(cfg, i);
      case Stm => StoreBody(cfg, i);
      case Jpr | Jpi => JumpBody(cfg, address, i);
      case Cid => WriteRegistrySet(Imm(0), CID_REGISTERS);
      case Ctr => ControlBody(cfg, address, i);
      case Nad => NadBody(cfg, address, i);
      case And => TwoArgument(OpAnd, i);
      case Xor => TwoArgument(OpXor, i);
      case Shr | Mov => MoveBody(cfg, address, i);
      case Ext =>
      case Add => TwoArgument(OpAdd, i);
      case Cmp => CompareBody(cfg, address, i);
    }

    /** One instruction: its condition test, its body, and the label behind it if the test needed one. */
    method EmitInstruction(cfg: Config, address: nat, i: Instr) returns (ok: bool)
      modifies this
      ensures ok <==> i.op == Nop || NamedCond(i.cond)
      ensures ok ==> code == old(code) + BlockCode(cfg, address, i)
      ensures ok ==> labels == if NeedsSkip(i) then old(labels)[Skip(address) := |code|] else old(labels)
    {
      hide CondCode, Body, NamedCond;
      ok := true;
      if i.op == Nop {
        Put(NopX);
        return;
      }
      ok := WriteConditional(i.cond, Skip(address));
      if !ok {
        return;
      }
      EmitBody(cfg, address, i);
      if i.cond != COND_T {
        Bind(Skip(address));
      }
    }

    // ----- fixed parts

    method EmitPrologue()
      modifies `code
      ensures code == old(code) + Prologue()
    {
      hide LoadRegisters;
      Put(PushQ(RBX));
      Put(PushQ(RBP));
      Put(PushQ(R12));
      Put(PushQ(R13));
      Put(PushQ(R14));
      Put(PushQ(R15));
      assert code == old(code) + SaveCallee();
      EmitEntryCall();
      EmitLoads();
      EmitDispatchJump();
      assert code == old(code) + Prologue();
    }

    method EmitEntryCall()
      modifies `code
      ensures code == old(code) + [LoadArgument(RAX, RDI), StoreCore(RAX), MovFn(RAX, LoadState), LoadCore(RDI), CallR(RAX),
                                   LoadX(RSI, Flags), Lea(RAX, Registers, 0)]
    {
      Put(LoadArgument(RAX, RDI));
      Put(StoreCore(RAX));
      Put(MovFn(RAX, LoadState));
      Put(LoadCore(RDI));
      Put(CallR(RAX));
      Put(LoadX(RSI, Flags));
      Put(Lea(RAX, Registers, 0));
    }

    method EmitLoads()
      modifies `code
      ensures code == old(code) + LoadRegisters(8)
    {
      for k := 0 to REGISTER_COUNT
        invariant code == old(code) + LoadRegisters(k)
      {
        Put(LoadL(Micro(k), Off(RAX, k)));
      }
    }

    method EmitDispatchJump()
      modifies `code
      ensures code == old(code) + [LoadX(RBX, Counter), MovzxX(RBX, RBX), Lea(RAX, Offsets, 0), LeaScaled(RAX, RAX, RBX), JmpR(RAX)]
    {
      Put(LoadX(RBX, Counter));
      Put(MovzxX(RBX, RBX));
      Put(Lea(RAX, Offsets, 0));
      Put(LeaScaled(RAX, RAX, RBX));
      Put(JmpR(RAX));
    }

    method EmitSaves()
      modifies `code
      ensures code == old(code) + SaveRegisters(8)
    {
      for k := 0 to REGISTER_COUNT
        invariant code == old(code) + SaveRegisters(k)
      {
        Put(StoreL(Off(RAX, k), Micro(k)));
      }
    }

    method EmitEpilogue(size: nat)
      modifies this
      ensures code == old(code) + Epilogue(size) && labels == old(labels)[Cleanup := |old(code)| + 1]
    {
      hide SaveRegisters;
      Put(StoreXImm(Counter, size));
      Bind(Cleanup);
      Put(StoreX(Flags, RSI));
      Put(Lea(RAX, Registers, 0));
      EmitSaves();
      ghost var saved := code;
      Put(MovFn(RAX, SaveState));
      Put(LoadCore(RDI));
      Put(CallR(RAX));
      EmitRestore();
      assert code == saved + ([MovFn(RAX, SaveState), LoadCore(RDI), CallR(RAX)] + RestoreCallee() + [Ret]);
    }

    method EmitRestore()
      modifies `code
      ensures code == old(code) + (RestoreCallee() + [Ret])
    {
      Put(PopQ(R15));
      Put(PopQ(R14));
      Put(PopQ(R13));
      Put(PopQ(R12));
      Put(PopQ(RBP));
      Put(PopQ(RBX));
      Put(Ret);
    }

    // ----- jump tables

    /** `jitPadCode`: the jump, then no-operations up to eight bytes. */
    method PadCode(size: Ins -> nat, target: Label)
      requires size(Jmp(target)) <= ENTRY_SIZE
      modifies `code
      ensures code == old(code) + Padded(size, target)
    {
      Put(Jmp(target));
      var current := size(Jmp(target));
      ghost var start := code;
      for i := 0 to ENTRY_SIZE - current
        invariant code == start + seq(i, j => NopX)
      {
        Put(NopX);
      }
    }

    method EmitTable(size: Ins -> nat, targets: seq<Label>)
      requires GoodSizes(size)
      modifies `code
      ensures code == old(code) + Table(size, targets)
    {
      for i := 0 to |targets|
        invariant code + Table(size, targets[i..]) == old(code) + Table(size, targets)
      {
        ghost var before := code;
        PadCode(size, targets[i]);
        assert targets[i..][1..] == targets[i + 1..];
        assert before + (Padded(size, targets[i]) + Table(size, targets[i + 1..])) == code + Table(size, targets[i + 1..]);
      }
    }

    // ----- memory helpers

    method EmitApplySegment(cfg: Config)
      modifies `code
      ensures code == old(code) + ApplySegment(cfg)
    {
      if cfg.Segmented() {
        Put(Mov64(RDX, RDI));
        Put(LoadH(RDX, SegmentCell));
        Put(MovzxX(RDI, RDX));
      }
    }

    method EmitSkipIfSegment(cfg: Config, target: Label)
      modifies `code
      ensures code == old(code) + SkipIfSegment(cfg, target)
    {
      if cfg.Segmented() {
        Put(LoadL(RAX, SegmentCell));
        Put(MovzxL(RAX, RAX));
        Put(AddZero(RAX));
        Put(Jcc(NE, target));
      }
    }

    method EmitPushes()
      modifies `code
      ensures code == old(code) + PushRegisters()
    {
      Put(PushQ(RSI));
      Put(PushQ(R8));
      Put(PushQ(R9));
      Put(PushQ(R10));
      Put(PushQ(R11));
    }

    method EmitPops()
      modifies `code
      ensures code == old(code) + PopRegisters()
    {
      Put(PopQ(R11));
      Put(PopQ(R10));
      Put(PopQ(R9));
      Put(PopQ(R8));
      Put(PopQ(RSI));
    }

    method EmitPlainHelpers(cfg: Config)
      modifies this
      ensures code == old(code) + (ReadHelper(cfg) + WriteHelper(cfg))
      ensures labels == old(labels)[ReadFn := |old(code)|][WriteFn := |old(code)| + |ReadHelper(cfg)|]
    {
      hide ApplySegment;
      Bind(ReadFn);
      Put(Lea(RAX, Data, 0));
      EmitApplySegment(cfg);
      Put(LoadL(RAX, Indexed(RAX, RDI)));
      Put(Ret);
      ghost var first := code;
      assert first == old(code) + ReadHelper(cfg);
      Bind(WriteFn);
      Put(Lea(RAX, Data, 0));
      EmitApplySegment(cfg);
      Put(Mov64(RBX, RSI));
      Put(StoreL(Indexed(RAX, RDI), RBX));
      Put(Ret);
      assert code == first + WriteHelper(cfg);
    }

    method EmitSegmentHelpers()
      modifies this
      ensures code == old(code) + (SegmentWriteHelper() + SegmentReadHelper())
      ensures labels == old(labels)[SegmentWriteFn := |old(code)|][SegmentReadFn := |old(code)| + |SegmentWriteHelper()|]
    {
      Bind(SegmentWriteFn);
      Put(Mov64(RAX, RSI));
      Put(StoreL(SegmentCell, RAX));
      Put(Ret);
      Bind(SegmentReadFn);
      Put(LoadL(RAX, SegmentCell));
      Put(Ret);
    }

    method EmitPeripheralRead(cfg: Config)
      modifies this
      ensures code == old(code) + PeripheralReadHelper(cfg) && labels == old(labels)[PeripheralReadFn := |old(code)|]
    {
      hide SkipIfSegment, PushRegisters, PopRegisters;
      Bind(PeripheralReadFn);
      EmitSkipIfSegment(cfg, ReadFn);
      EmitPushes();
      ghost var pushed := code;
      Put(Mov64(RSI, RDI));
      Put(MovFn(RAX, ReadPeripheral));
      Put(LoadCore(RDI));
      Put(CallR(RAX));
      assert code == pushed + [Mov64(RSI, RDI), MovFn(RAX, ReadPeripheral), LoadCore(RDI), CallR(RAX)];
      EmitPops();
      Put(Ret);
    }

    method EmitPeripheralWrite(cfg: Config)
      modifies this
      ensures code == old(code) + PeripheralWriteHelper(cfg) && labels == old(labels)[PeripheralWriteFn := |old(code)|]
    {
      hide SkipIfSegment, PushRegisters, PopRegisters;
      Bind(PeripheralWriteFn);
      EmitSkipIfSegment(cfg, WriteFn);
      EmitPushes();
      ghost var pushed := code;
      Put(Mov64(RDX, RSI));
      Put(Mov64(RSI, RDI));
      Put(MovFn(RAX, WritePeripheral));
      Put(LoadCore(RDI));
      Put(CallR(RAX));
      assert code == pushed + [Mov64(RDX, RSI), Mov64(RSI, RDI), MovFn(RAX, WritePeripheral), LoadCore(RDI), CallR(RAX)];
      EmitPops();
      Put(Ret);
    }

    /** One of the two memory tables: a helper for every address. */
    method EmitMemoryTable(u: Unit, reads_: bool)
      requires GoodSizes(u.size)
      modifies `code
      ensures code == old(code) + Table(u.size, if reads_ then u.ReadTargets() else u.WriteTargets())
    {
      hide Padded;
      ghost var targets := if reads_ then u.ReadTargets() else u.WriteTargets();
      for i := 0 to SEGMENT_SIZE
        invariant code + Table(u.size, targets[i..]) == old(code) + Table(u.size, targets)
      {
        var target;
        if u.cfg.Segmented() && i == SEGMENT_REGISTER {
          target := if reads_ then SegmentReadFn else SegmentWriteFn;
        } else if i !in u.cfg.peripherals {
          target := if reads_ then ReadFn else WriteFn;
        } else {
          target := if reads_ then PeripheralReadFn else PeripheralWriteFn;
        }
        ghost var before := code;
        PadCode(u.size, target);
        assert target == targets[i] && targets[i..][1..] == targets[i + 1..];
        assert before + (Padded(u.size, target) + Table(u.size, targets[i + 1..])) == code + Table(u.size, targets[i + 1..]);
      }
    }

    // ----- the program

    method EmitDispatch(u: Unit)
      requires GoodSizes(u.size)
      modifies this
      ensures code == old(code) + u.Dispatch()
      ensures labels == WithDispatch(u, |old(code)|, old(labels))
    {
      hide ReadHelper, WriteHelper, SegmentWriteHelper, SegmentReadHelper, PeripheralReadHelper, PeripheralWriteHelper;
      hide Table, u.ReadTargets, u.WriteTargets, GoodSizes;
      if |u.cfg.peripherals| > 0 || u.cfg.Segmented() {
        ghost var start := code;
        EmitPlainHelpers(u.cfg);
        EmitSegmentHelpers();
        EmitPeripheralRead(u.cfg);
        EmitPeripheralWrite(u.cfg);
        assert code == start + u.Helpers();
        Bind(ReadMap);
        EmitMemoryTable(u, true);
        Bind(WriteMap);
        EmitMemoryTable(u, false);
      }
    }

    /** The blocks in program order, or failure at the first instruction that does not compile. */
    method EmitBlocks(u: Unit) returns (ok: bool, offsets: seq<Label>)
      modifies this
      ensures ok <==> u.Compiles()
      ensures ok ==> code == old(code) + u.Blocks(|u.rom|) && AreInsts(offsets, |u.rom|)
      ensures ok ==> BlockLabels(u, |old(code)|, |u.rom|, labels) && Keeps(old(labels), labels)
    {
      hide BlockCode, NamedCond, BlockLabels, Keeps, u.Blocks;
      ok, offsets := true, [];
      NoBlocks(u, |code|, labels);
      for k := 0 to |u.rom|
        invariant forall i :: 0 <= i < k ==> u.rom[i].op == Nop || NamedCond(u.rom[i].cond)
        invariant AreInsts(offsets, k)
        invariant u.Compiles() ==> code == old(code) + u.Blocks(k)
        invariant u.Compiles() ==> BlockLabels(u, |old(code)|, k, labels) && Keeps(old(labels), labels)
      {
        ghost var before := labels;
        Bind(Inst(k));
        offsets := offsets + [Inst(k)];
        ok := EmitInstruction(u.cfg, k, u.rom[k]);
        if !ok {
          return;
        }
        if u.Compiles() {
          BlockIsBlockCode(u, k);
          NextLabels(u, |old(code)|, k, old(labels), before, labels);
        }
      }
    }

    /** `CoreState::jit`. The compiler accepts a program exactly when every instruction that is not `nop` has a
        named condition, and what it then leaves in its buffer is the image of that program. */
    method Compile(u: Unit) returns (ok: bool)
      requires code == [] && labels == map[] && GoodSizes(u.size)
      modifies this
      ensures ok <==> u.Compiles()
      ensures ok ==> u.IsImage(Image(code, labels))
    {
      hide Prologue, Epilogue, Table, GoodSizes, BlockLabels, Keeps, u.Dispatch, u.Blocks, AreInsts, WithDispatch, u.IsImage;
      Bind(Start);
      EmitPrologue();
      ghost var before := labels;
      var offsets;
      ok, offsets := EmitBlocks(u);
      if !ok {
        return;
      }
      ghost var blocks := labels;
      Bind(End);
      offsets := offsets + [End];
      TargetsAre(u, offsets);
      EmitEpilogue(|u.rom|);
      Bind(Offsets);
      EmitTable(u.size, offsets);
      EmitDispatch(u);
      LabelsAreRight(u, before, blocks, labels);
      CodeIsImage(u, Image(code, labels));
    }
  }

  predicate AreInsts(offsets: seq<Label>, n: nat) {
    |offsets| == n && forall i :: 0 <= i < n ==> offsets[i] == Inst(i)
  }

  lemma NoBlocks(u: Unit, start: nat, labels: map<Label, nat>)
    ensures u.Compiles() ==> BlockLabels(u, start, 0, labels) && u.Blocks(0) == []
    ensures Keeps(labels, labels)
  {}

  lemma NextLabels(u: Unit, start: nat, k: nat, first: map<Label, nat>, before: map<Label, nat>, after: map<Label, nat>)
    requires u.Compiles() && k < |u.rom| && BlockLabels(u, start, k, before) && Keeps(first, before)
    requires var mid := before[Inst(k) := start + |u.Blocks(k)|];
             after == if NeedsSkip(u.rom[k]) then mid[Skip(k) := start + |u.Blocks(k + 1)|] else mid
    ensures BlockLabels(u, start, k + 1, after) && Keeps(first, after)
  {
    hide u.Blocks;
  }

  function BlockCode(cfg: Config, address: nat, i: Instr): seq<Ins>
    requires i.op == Nop || NamedCond(i.cond)
  {
    if i.op == Nop then [NopX] else CondCode(i.cond, Skip(address)) + Body(cfg, address, i)
  }

  lemma BlockIsBlockCode(u: Unit, k: nat)
    requires u.Compiles() && k < |u.rom|
    ensures u.Blocks(k + 1) == u.Blocks(k) + BlockCode(u.cfg, k, u.rom[k])
  {
    hide CondCode, Body;
  }

  predicate NeedsSkip(i: Instr) {
    i.op != Nop && i.cond != COND_T
  }

  /** Labels in front of and behind the first n blocks, for code that starts at `start`. */
  predicate BlockLabels(u: Unit, start: nat, n: nat, labels: map<Label, nat>)
    requires u.Compiles() && n <= |u.rom|
  {
    && (forall i: nat :: i < n ==> Inst(i) in labels && labels[Inst(i)] == start + |u.Blocks(i)|)
    && (forall i: nat :: i < n && NeedsSkip(u.rom[i]) ==> Skip(i) in labels && labels[Skip(i)] == start + |u.Blocks(i + 1)|)
  }

  /** Labels that do not belong to a block are where they were. */
  predicate Keeps(before: map<Label, nat>, after: map<Label, nat>) {
    forall l: Label :: l in before && !l.Inst? && !l.Skip? ==> l in after && after[l] == before[l]
  }

  lemma TargetsAre(u: Unit, offsets: seq<Label>)
    requires |offsets| > 0 && AreInsts(offsets[..|offsets| - 1], |u.rom|) && offsets[|offsets| - 1] == End
    ensures offsets == u.OffsetTargets()
  {
    forall i | 0 <= i < |u.rom| ensures offsets[i] == Inst(i) {
      assert offsets[i] == offsets[..|offsets| - 1][i];
    }
  }

  /** The labels of the memory helpers and tables, for code that starts at `start`. */
  function WithDispatch(u: Unit, start: nat, labels: map<Label, nat>): map<Label, nat> {
    if Complex(u.cfg) then
      var write := start + |ReadHelper(u.cfg)|;
      var segmentWrite := write + |WriteHelper(u.cfg)|;
      var segmentRead := segmentWrite + |SegmentWriteHelper()|;
      var peripheralRead := segmentRead + |SegmentReadHelper()|;
      var peripheralWrite := peripheralRead + |PeripheralReadHelper(u.cfg)|;
      var readMap := start + |u.Helpers()|;
      labels[ReadFn := start][WriteFn := write][SegmentWriteFn := segmentWrite][SegmentReadFn := segmentRead]
            [PeripheralReadFn := peripheralRead][PeripheralWriteFn := peripheralWrite]
            [ReadMap := readMap][WriteMap := readMap + |Table(u.size, u.ReadTargets())|]
    else labels
  }

  /** Every bound label is where JitCode says it is. */
  ghost predicate LabelsFit(u: Unit, labels: map<Label, nat>)
    requires u.Compiles()
  {
    forall l: Label :: u.Bound(l) ==> l in labels && labels[l] == u.LabelAt(l)
  }

  lemma LabelsAreRight(u: Unit, before: map<Label, nat>, blocks: map<Label, nat>, labels: map<Label, nat>)
    requires u.Compiles() && before == map[Start := 0] && Keeps(before, blocks)
    requires BlockLabels(u, |Prologue()|, |u.rom|, blocks)
    requires labels == WithDispatch(u, u.HelpersStart(),
                         blocks[End := u.BlockStart(|u.rom|)][Cleanup := u.BlockStart(|u.rom|) + 1][Offsets := u.OffsetsStart()])
    ensures LabelsFit(u, labels)
  {
    hide Prologue, Epilogue, Table, u.Blocks, u.Helpers, u.OffsetTargets, u.ReadTargets, u.HelpersStart, u.OffsetsStart;
    hide ReadHelper, WriteHelper, SegmentWriteHelper, SegmentReadHelper, PeripheralReadHelper, PeripheralWriteHelper, WithDispatch;
    var ends := blocks[End := u.BlockStart(|u.rom|)][Cleanup := u.BlockStart(|u.rom|) + 1][Offsets := u.OffsetsStart()];
    assert before[Start] == 0;
    forall l: Label | u.Bound(l) ensures l in labels && labels[l] == u.LabelAt(l) {
      DispatchLabel(u, ends, l);
      if l.Skip? {
        assert NeedsSkip(u.rom[l.i]);
      }
    }
  }

  /** The dispatch labels are right, and adding them moves no other label. */
  lemma DispatchLabel(u: Unit, labels: map<Label, nat>, l: Label)
    requires u.Compiles() && u.Bound(l)
    ensures var all := WithDispatch(u, u.HelpersStart(), labels);
            if l in {ReadFn, WriteFn, SegmentReadFn, SegmentWriteFn, PeripheralReadFn, PeripheralWriteFn, ReadMap, WriteMap}
            then l in all && all[l] == u.LabelAt(l)
            else (l in labels <==> l in all) && (l in labels ==> all[l] == labels[l])
  {
    hide Table, u.BlockStart, u.Helpers, u.ReadTargets, u.HelpersStart, u.OffsetsStart, u.Compiles;
    hide ReadHelper, WriteHelper, SegmentWriteHelper, SegmentReadHelper, PeripheralReadHelper, PeripheralWriteHelper;
  }

  lemma CodeIsImage(u: Unit, img: Image)
    requires u.Compiles() && img.code == u.Code() && LabelsFit(u, img.labels)
    ensures u.IsImage(img)
  {
    hide u.Bound, u.LabelAt, u.Code;
  }
}
