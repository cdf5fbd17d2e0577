/** Entering and leaving native code: the prologue loads the core and dispatches on pc, the epilogue saves it. */
module JitEntry {
  import opened Isa
  import opened Options
  import opened X86
  import opened JitCode
  import opened JitRegisters
  import opened JitLayout
  import opened JitBlocks
  import opened JitMemory
  import opened JitPeripherals
  import opened JitDispatch
  import opened JitStep

  // ----- callee-saved registers

  function CalleeSlots(regs: seq<Val>): seq<Slot>
    requires |regs| == 16
  {
    [Q(regs[RBX]), Q(regs[RBP]), Q(regs[R12]), Q(regs[R13]), Q(regs[R14]), Q(regs[R15])]
  }

  predicate SameCallee(a: seq<Val>, b: seq<Val>)
    requires |a| == 16 && |b| == 16
  {
    a[RBX] == b[RBX] && a[RBP] == b[RBP] && a[R12] == b[R12] && a[R13] == b[R13] && a[R14] == b[R14] && a[R15] == b[R15]
  }

  lemma RunSaveCallee(w: World, m: Machine) returns (n: Machine)
    requires |m.regs| == 16
    ensures Straight(w, SaveCallee(), m) == Some(n)
    ensures n == m.(stack := m.stack + CalleeSlots(m.regs), ip := n.ip, clock := n.clock)
  {
    hide Do, Straight;
    DoPush(w, RBX, m);
    var a := Do(w, PushQ(RBX), m).value;
    DoPush(w, RBP, a);
    var b := Do(w, PushQ(RBP), a).value;
    DoPush(w, R12, b);
    var c := Do(w, PushQ(R12), b).value;
    DoPush(w, R13, c);
    var d := Do(w, PushQ(R13), c).value;
    DoPush(w, R14, d);
    var e := Do(w, PushQ(R14), d).value;
    DoPush(w, R15, e);
    n := Do(w, PushQ(R15), e).value;
    Straight3(w, PushQ(RBX), PushQ(RBP), PushQ(R12), m);
    Straight3(w, PushQ(R13), PushQ(R14), PushQ(R15), c);
    StraightAppends(w, [PushQ(RBX), PushQ(RBP), PushQ(R12)], [PushQ(R13), PushQ(R14), PushQ(R15)], m, c);
    assert SaveCallee() == [PushQ(RBX), PushQ(RBP), PushQ(R12)] + [PushQ(R13), PushQ(R14), PushQ(R15)];
    assert n.stack == m.stack + CalleeSlots(m.regs);
  }

  lemma RunRestoreCallee(w: World, st: seq<Slot>, saved: seq<Val>, m: Machine) returns (n: Machine)
    requires |m.regs| == 16 && |saved| == 16 && m.stack == st + CalleeSlots(saved)
    ensures Straight(w, RestoreCallee(), m) == Some(n)
    ensures n == m.(regs := n.regs, stack := st, ip := n.ip, clock := n.clock)
    ensures |n.regs| == 16 && SameCallee(n.regs, saved)
  {
    hide Do, Straight;
    var s1 := st + [Q(saved[RBX])];
    var s2 := s1 + [Q(saved[RBP])];
    var s3 := s2 + [Q(saved[R12])];
    var s4 := s3 + [Q(saved[R13])];
    var s5 := s4 + [Q(saved[R14])];
    assert m.stack == s5 + [Q(saved[R15])];
    DoPop(w, R15, s5, saved[R15], m);
    var a := Do(w, PopQ(R15), m).value;
    DoPop(w, R14, s4, saved[R14], a);
    var b := Do(w, PopQ(R14), a).value;
    DoPop(w, R13, s3, saved[R13], b);
    var c := Do(w, PopQ(R13), b).value;
    DoPop(w, R12, s2, saved[R12], c);
    var d := Do(w, PopQ(R12), c).value;
    DoPop(w, RBP, s1, saved[RBP], d);
    var e := Do(w, PopQ(RBP), d).value;
    DoPop(w, RBX, st, saved[RBX], e);
    n := Do(w, PopQ(RBX), e).value;
    Straight3(w, PopQ(R15), PopQ(R14), PopQ(R13), m);
    Straight3(w, PopQ(R12), PopQ(RBP), PopQ(RBX), c);
    StraightAppends(w, [PopQ(R15), PopQ(R14), PopQ(R13)], [PopQ(R12), PopQ(RBP), PopQ(RBX)], m, c);
    assert RestoreCallee() == [PopQ(R15), PopQ(R14), PopQ(R13)] + [PopQ(R12), PopQ(RBP), PopQ(RBX)];
  }

  // ----- the register dump area

  /** The first k micro registers come from the dump area. */
  lemma {:induction false} RunLoadRegisters(w: World, k: nat, m: Machine) returns (n: Machine)
    requires k <= 8 && Plain(m) && m.regs[RAX] == Ptr(Registers, 0)
    ensures Straight(w, LoadRegisters(k), m) == Some(n) && NoControl(LoadRegisters(k))
    ensures n == m.(regs := n.regs, ip := n.ip, clock := n.clock) && Plain(n) && n.regs[..8] == m.regs[..8]
    ensures forall j :: 0 <= j < k ==> Micros(n)[j] == m.dump[j]
  {
    hide Do, Straight;
    if k == 0 {
      n := m;
      EmptyStraight(w, m);
    } else {
      var p := RunLoadRegisters(w, k - 1, m);
      var i := LoadL(Micro(k - 1), Off(RAX, k - 1));
      assert p.regs[RAX] == p.regs[..8][RAX] == m.regs[..8][RAX];
      DoMemory(w, i, p);
      n := Do(w, i, p).value;
      Straight1(w, i, p);
      StraightAppends(w, LoadRegisters(k - 1), [i], m, p);
      assert n.regs[..8] == p.regs[..8];
      assert forall j :: 0 <= j < k - 1 ==> Micros(n)[j] == Micros(p)[j];
    }
  }

  lemma {:induction false} RunSaveRegisters(w: World, k: nat, m: Machine) returns (n: Machine)
    requires k <= 8 && Plain(m) && m.regs[RAX] == Ptr(Registers, 0)
    ensures Straight(w, SaveRegisters(k), m) == Some(n) && NoControl(SaveRegisters(k))
    ensures n == m.(dump := n.dump, ip := n.ip, clock := n.clock)
    ensures forall j :: 0 <= j < k ==> n.dump[j] == Micros(m)[j]
  {
    hide Do, Straight;
    if k == 0 {
      n := m;
      EmptyStraight(w, m);
    } else {
      var p := RunSaveRegisters(w, k - 1, m);
      var i := StoreL(Off(RAX, k - 1), Micro(k - 1));
      DoMemory(w, i, p);
      n := Do(w, i, p).value;
      Straight1(w, i, p);
      StraightAppends(w, SaveRegisters(k - 1), [i], m, p);
    }
  }

  // ----- entry

  /** A call from the host: RDI points at the argument, every other register holds some number, the data section
      is as large as the configuration says, and the return address is on the stack. */
  predicate Entry(u: Unit, m: Machine, base: seq<Slot>) {
    && m.ip == 0 && !m.done && |m.regs| == 16 && m.regs[RDI] == ArgumentRef
    && (forall r :: 0 <= r < 16 && r != RDI ==> m.regs[r].Word?)
    && |m.data| == u.cfg.memorySize && m.stack == base + [HostRa]
    && m.core.pc <= |u.rom|
  }

  function CallCode(f: HostFn): seq<Ins> {
    [MovFn(RAX, f), LoadCore(RDI)]
  }

  lemma RunCallCode(w: World, f: HostFn, m: Machine) returns (n: Machine)
    requires |m.regs| == 16 && m.corePtr == CoreRef
    ensures Straight(w, CallCode(f), m) == Some(n)
    ensures n == m.(regs := m.regs[RAX := Fn(f)][RDI := CoreRef], ip := n.ip, clock := n.clock)
  {
    hide Do;
    DoMemory(w, MovFn(RAX, f), m);
    var p := Do(w, MovFn(RAX, f), m).value;
    DoMemory(w, LoadCore(RDI), p);
    n := Do(w, LoadCore(RDI), p).value;
    Straight2(w, MovFn(RAX, f), LoadCore(RDI), m);
  }

  lemma RunTakeArgument(w: World, m: Machine) returns (n: Machine)
    requires |m.regs| == 16 && m.regs[RDI] == ArgumentRef
    ensures Straight(w, [LoadArgument(RAX, RDI), StoreCore(RAX)], m) == Some(n)
    ensures n == m.(regs := m.regs[RAX := CoreRef], corePtr := CoreRef, ip := n.ip, clock := n.clock)
  {
    hide Do;
    DoMemory(w, LoadArgument(RAX, RDI), m);
    var p := Do(w, LoadArgument(RAX, RDI), m).value;
    DoMemory(w, StoreCore(RAX), p);
    n := Do(w, StoreCore(RAX), p).value;
    Straight2(w, LoadArgument(RAX, RDI), StoreCore(RAX), m);
  }

  function EntryHead(): seq<Ins> {
    SaveCallee() + [LoadArgument(RAX, RDI), StoreCore(RAX)] + CallCode(LoadState)
  }

  function EntryTail(): seq<Ins> {
    [LoadX(RSI, Flags), Lea(RAX, Registers, 0)] + LoadRegisters(8) +
    ([LoadX(RBX, Counter), MovzxX(RBX, RBX)] + [Lea(RAX, Offsets, 0), LeaScaled(RAX, RAX, RBX)])
  }

  lemma PrologueShape()
    ensures Prologue() == EntryHead() + [CallR(RAX)] + (EntryTail() + [JmpR(RAX)]) && NoControl(EntryHead())
  {
    var tail := EntryTail() + [JmpR(RAX)];
    hide LoadRegisters;
    assert tail == [LoadX(RSI, Flags), Lea(RAX, Registers, 0)] + LoadRegisters(8) +
                   [LoadX(RBX, Counter), MovzxX(RBX, RBX), Lea(RAX, Offsets, 0), LeaScaled(RAX, RAX, RBX), JmpR(RAX)];
  }

  lemma RunEntryHead(w: World, m: Machine) returns (n: Machine)
    requires |m.regs| == 16 && m.regs[RDI] == ArgumentRef
    ensures Straight(w, EntryHead(), m) == Some(n)
    ensures n == m.(regs := n.regs, stack := m.stack + CalleeSlots(m.regs), corePtr := CoreRef, ip := n.ip, clock := n.clock)
    ensures n.regs == m.regs[RAX := CoreRef][RAX := Fn(LoadState)][RDI := CoreRef]
  {
    hide Straight, SaveCallee;
    var p := RunSaveCallee(w, m);
    var q := RunTakeArgument(w, p);
    n := RunCallCode(w, LoadState, q);
    StraightPieces(w, SaveCallee(), [LoadArgument(RAX, RDI), StoreCore(RAX)], CallCode(LoadState), m, p, q);
  }

  lemma FlagImageIsRight(cf: bool, zf: bool)
    ensures CfOf(FlagImage(cf, zf)) == cf && ZfOf(FlagImage(cf, zf)) == zf
  {}

  /** The host has filled the data section from the core. */
  predicate Filled(cfg: Config, m: Machine, core: State) {
    && Plain(m) && !m.done && m.corePtr == CoreRef && m.core == core && cfg.memorySize <= RAM_SIZE
    && m.data == core.ram[..cfg.memorySize] && m.dump == core.regs && m.counter == core.pc
    && m.flagL == FlagImage(core.cf, core.zf)
  }

  lemma HostFills(w: World, m: Machine)
    requires Plain(m) && !m.done && m.regs[RDI] == CoreRef && m.corePtr == CoreRef
    requires |m.data| == w.cfg.memorySize <= RAM_SIZE
    ensures HostCall(w, LoadState, m) == Some(Clobber(w, HostLoad(m)))
    ensures Filled(w.cfg, Clobber(w, HostLoad(m)), m.core) && Clobber(w, HostLoad(m)).stack == m.stack
  {
    hide Clobber, FlagImage;
    ClobberKeeps(w, HostLoad(m));
    ClobberOnlyRegisters(w, HostLoad(m));
  }

  /** SI takes the flag image, the micro registers the dump area. */
  lemma RunFillRegisters(w: World, core: State, m: Machine) returns (n: Machine)
    requires Filled(w.cfg, m, core)
    ensures Straight(w, [LoadX(RSI, Flags), Lea(RAX, Registers, 0)] + LoadRegisters(8), m) == Some(n)
    ensures NoControl([LoadX(RSI, Flags), Lea(RAX, Registers, 0)] + LoadRegisters(8))
    ensures Match(w.cfg, core, n, Frame(m.stack, core)) && n.counter == core.pc
  {
    hide Do, Straight, CfOf, ZfOf, FlagImage, LoadRegisters;
    var a, b := LoadX(RSI, Flags), Lea(RAX, Registers, 0);
    DoMemory(w, a, m);
    var p := Do(w, a, m).value;
    DoMemory(w, b, p);
    var q := Do(w, b, p).value;
    Straight2(w, a, b, m);
    n := RunLoadRegisters(w, 8, q);
    StraightAppends(w, [a, b], LoadRegisters(8), m, q);
    FlagImageIsRight(core.cf, core.zf);
    assert n.regs[RSI] == n.regs[..8][RSI] == q.regs[..8][RSI];
    assert Micros(n) == core.regs;
  }

  lemma RunLoadCounter(w: World, m: Machine) returns (n: Machine)
    requires Plain(m) && m.counter < 65536
    ensures Straight(w, [LoadX(RBX, Counter), MovzxX(RBX, RBX)], m) == Some(n)
    ensures n == m.(regs := m.regs[RBX := Word(0, HighByte(m.counter), LowByte(m.counter))], ip := n.ip, clock := n.clock)
  {
    hide Do, HighByte, LowByte;
    var a, b := LoadX(RBX, Counter), MovzxX(RBX, RBX);
    DoMemory(w, a, m);
    var p := Do(w, a, m).value;
    DoByte(w, b, p);
    n := Do(w, b, p).value;
    Straight2(w, a, b, m);
    assert n.regs == m.regs[RBX := Word(0, HighByte(m.counter), LowByte(m.counter))];
  }

  lemma RunEntryTail(w: World, core: State, m: Machine) returns (n: Machine)
    requires Filled(w.cfg, m, core) && core.pc < 65536
    ensures Straight(w, EntryTail(), m) == Some(n) && NoControl(EntryTail())
    ensures Match(w.cfg, core, n, Frame(m.stack, core)) && n.regs[RAX] == Ptr(Offsets, ENTRY_SIZE * core.pc)
  {
    hide Do, Straight, CfOf, ZfOf, FlagImage, LoadRegisters, HighByte, LowByte, Wide, Micros;
    var p := RunFillRegisters(w, core, m);
    var q := RunLoadCounter(w, p);
    n := RunTableAddress(w, HighByte(core.pc), LowByte(core.pc), q);
    BytesOfWord(core.pc);
    StraightAppends(w, [LoadX(RBX, Counter), MovzxX(RBX, RBX)], [Lea(RAX, Offsets, 0), LeaScaled(RAX, RAX, RBX)], p, q);
    StraightAppends(w, [LoadX(RSI, Flags), Lea(RAX, Registers, 0)] + LoadRegisters(8),
                    [LoadX(RBX, Counter), MovzxX(RBX, RBX)] + [Lea(RAX, Offsets, 0), LeaScaled(RAX, RAX, RBX)], m, p);
    HoldsUnderScratch(w.cfg, core, p, n, core);
  }

  lemma RunHostLoad(w: World, m: Machine) returns (n: Machine)
    requires CodeAt(w, m.ip, [CallR(RAX)]) && Plain(m) && !m.done
    requires m.regs[RAX] == Fn(LoadState) && m.regs[RDI] == CoreRef && m.corePtr == CoreRef
    requires |m.data| == w.cfg.memorySize <= RAM_SIZE
    ensures RunX(w, m, 1) == Some(n) && n.ip == m.ip + 1 && Filled(w.cfg, n, m.core) && n.stack == m.stack
  {
    hide StepX, Clobber, HostCall, FlagImage, CodeAt;
    HostFills(w, m);
    StepAtHostCall(w, LoadState, m);
    n := StepX(w, m).value;
    RunsOnce(w, m, n);
  }

  lemma EntryHeadIsPlain(u: Unit, m: Machine, n: Machine, base: seq<Slot>)
    requires Entry(u, m, base) && n.regs == m.regs[RAX := CoreRef][RAX := Fn(LoadState)][RDI := CoreRef]
    ensures Plain(n)
  {}

  function EntryFrame(m: Machine, base: seq<Slot>): Frame
    requires |m.regs| == 16
  {
    Frame(base + [HostRa] + CalleeSlots(m.regs), m.core)
  }

  /** The pieces of the prologue, one after the other. */
  predicate EntryCode(w: World) {
    var k := |EntryHead()|;
    && CodeAt(w, 0, EntryHead()) && CodeAt(w, k, [CallR(RAX)])
    && CodeAt(w, k + 1, EntryTail()) && CodeAt(w, k + 1 + |EntryTail()|, [JmpR(RAX)])
  }

  lemma EntryCodeIsThere(u: Unit, w: World)
    requires Loaded(u, w)
    ensures EntryCode(w)
  {
    hide Loaded, EntryHead, EntryTail, CodeAt, Prologue, Epilogue, Table, u.Dispatch, u.Blocks, u.OffsetTargets;
    LoadedCompiles(u, w);
    ImageParts(u, w);
    PrologueShape();
    CodeSplits(w, 0, EntryHead() + [CallR(RAX)], EntryTail() + [JmpR(RAX)]);
    CodeSplits(w, 0, EntryHead(), [CallR(RAX)]);
    CodeSplits(w, |EntryHead()| + 1, EntryTail(), [JmpR(RAX)]);
  }

  /** Up to the return of the host's load. */
  lemma EntryFills(u: Unit, w: World, base: seq<Slot>, m: Machine) returns (k: nat, n: Machine)
    requires EntryCode(w) && Entry(u, m, base) && w.cfg == u.cfg && u.cfg.memorySize <= RAM_SIZE
    ensures RunX(w, m, k) == Some(n) && n.ip == |EntryHead()| + 1
    ensures Filled(w.cfg, n, m.core) && n.stack == EntryFrame(m, base).stack
  {
    hide StepX, Straight, EntryHead, EntryTail, CodeAt, Filled, NoControl, CalleeSlots, Prologue;
    PrologueShape();
    var p := RunEntryHead(w, m);
    StraightRuns(w, EntryHead(), m, p);
    EntryHeadIsPlain(u, m, p, base);
    n := RunHostLoad(w, p);
    RunXAdds(w, m, |EntryHead()|, p, 1);
    k := |EntryHead()| + 1;
  }

  /** From there to the indirect jump. */
  lemma EntryLoads(w: World, core: State, m: Machine) returns (k: nat, n: Machine)
    requires EntryCode(w) && Filled(w.cfg, m, core) && core.pc < 65536 && m.ip == |EntryHead()| + 1
    ensures RunX(w, m, k) == Some(n) && CodeAt(w, n.ip, [JmpR(RAX)])
    ensures Match(w.cfg, core, n, Frame(m.stack, core)) && n.regs[RAX] == Ptr(Offsets, ENTRY_SIZE * core.pc)
  {
    hide StepX, Straight, EntryHead, EntryTail, CodeAt, Filled, NoControl, Match;
    FilledRuns(w, core, m);
    n := RunEntryTail(w, core, m);
    StraightRuns(w, EntryTail(), m, n);
    k := |EntryTail()|;
  }

  /** The prologue reaches the block that the core's program counter names, with the core's state in place. */
  lemma EntryRuns(u: Unit, w: World, base: seq<Slot>, m: Machine) returns (k: nat, n: Machine)
    requires u.Compiles() && Loaded(u, w) && Entry(u, m, base)
    ensures RunX(w, m, k) == Some(n) && n.ip == u.BlockStart(m.core.pc)
    ensures Match(w.cfg, m.core, n, EntryFrame(m, base))
  {
    hide Loaded, u.Compiles, StepX, EntryCode, EntryHead, CodeAt, Filled, Match, CalleeSlots, u.BlockStart, GoodSizes;
    LoadedCompiles(u, w);
    EntryCodeIsThere(u, w);
    var i, p := EntryFills(u, w, base, m);
    var j, q := EntryLoads(w, m.core, p);
    var f := Frame(p.stack, m.core);
    MatchHolds(w.cfg, m.core, q, f);
    n := JumpThroughTable(u, w, m.core.pc, q);
    MatchUnderFlags(w.cfg, m.core, q, n, f);
    RunXAdds(w, p, j, q, 2);
    RunXAdds(w, m, i, p, j + 2);
    k := i + (j + 2);
  }

  lemma FilledRuns(w: World, core: State, m: Machine)
    requires Filled(w.cfg, m, core)
    ensures !m.done && |m.regs| == 16
  {}

  // ----- exit

  function ExitHead(): seq<Ins> {
    [StoreX(Flags, RSI), Lea(RAX, Registers, 0)] + SaveRegisters(8) + CallCode(SaveState)
  }

  lemma EpilogueShape(size: nat)
    ensures Epilogue(size) == [StoreXImm(Counter, size)] + (ExitHead() + [CallR(RAX)] + (RestoreCallee() + [Ret]))
  {
    hide SaveRegisters;
    assert CallCode(SaveState) == [MovFn(RAX, SaveState), LoadCore(RDI)];
    var whole := [StoreXImm(Counter, size)] + [StoreX(Flags, RSI), Lea(RAX, Registers, 0)] + SaveRegisters(8) +
                 [MovFn(RAX, SaveState), LoadCore(RDI), CallR(RAX)] + RestoreCallee() + [Ret];
    assert whole == Epilogue(size);
    assert whole == [StoreXImm(Counter, size)] + (ExitHead() + [CallR(RAX)] + (RestoreCallee() + [Ret]));
  }

  /** Flags and micro registers are where the host looks for them. */
  predicate Dumped(cfg: Config, s: State, m: Machine, f: Frame) {
    && Holds(cfg, s, m, f.core) && m.stack == f.stack && m.dump == s.regs
    && CfOf(m.flagL) == s.cf && ZfOf(m.flagL) == s.zf
  }

  lemma RunDump(w: World, s: State, m: Machine, f: Frame) returns (n: Machine)
    requires Match(w.cfg, s, m, f)
    ensures var code := [StoreX(Flags, RSI), Lea(RAX, Registers, 0)] + SaveRegisters(8);
            Straight(w, code, m) == Some(n) && NoControl(code)
    ensures Dumped(w.cfg, s, n, f) && n.counter == m.counter
  {
    hide Do, Straight, CfOf, ZfOf, SaveRegisters;
    var a, b := StoreX(Flags, RSI), Lea(RAX, Registers, 0);
    DoMemory(w, a, m);
    var p := Do(w, a, m).value;
    DoMemory(w, b, p);
    var q := Do(w, b, p).value;
    Straight2(w, a, b, m);
    assert Micros(q) == Micros(m);
    n := RunSaveRegisters(w, 8, q);
    StraightAppends(w, [a, b], SaveRegisters(8), m, q);
    assert n.dump == s.regs;
  }

  lemma RunExitHead(w: World, s: State, m: Machine, f: Frame) returns (n: Machine)
    requires Match(w.cfg, s, m, f)
    ensures Straight(w, ExitHead(), m) == Some(n) && NoControl(ExitHead())
    ensures Dumped(w.cfg, s, n, f) && n.counter == m.counter && n.regs[RAX] == Fn(SaveState) && n.regs[RDI] == CoreRef
  {
    hide Straight, CfOf, ZfOf, SaveRegisters, Micros;
    var p := RunDump(w, s, m, f);
    n := RunCallCode(w, SaveState, p);
    StraightAppends(w, [StoreX(Flags, RSI), Lea(RAX, Registers, 0)] + SaveRegisters(8), CallCode(SaveState), m, p);
    HoldsUnderScratch(w.cfg, s, p, n, f.core);
  }

  /** The host's copy after the exit: everything but the control byte, and pc from the recorded resume point. */
  lemma HostSaves(w: World, s: State, m: Machine, f: Frame)
    requires Dumped(w.cfg, s, m, f) && m.regs[RDI] == CoreRef
    ensures HostCall(w, SaveState, m) == Some(Clobber(w, HostSave(m)))
    ensures HostSave(m).core == s.(pc := m.counter, ctr := f.core.ctr)
    ensures HostSave(m) == m.(core := HostSave(m).core)
  {
    hide Clobber, Micros;
    assert s.ram == s.ram[..w.cfg.memorySize] + s.ram[w.cfg.memorySize..];
  }

  lemma RunHostSave(w: World, s: State, m: Machine, f: Frame) returns (n: Machine)
    requires CodeAt(w, m.ip, [CallR(RAX)]) && Dumped(w.cfg, s, m, f)
    requires m.regs[RAX] == Fn(SaveState) && m.regs[RDI] == CoreRef
    ensures RunX(w, m, 1) == Some(n) && n.ip == m.ip + 1 && !n.done && |n.regs| == 16
    ensures n.core == s.(pc := m.counter, ctr := f.core.ctr) && n.stack == f.stack
  {
    hide StepX, Clobber, HostCall, CodeAt, HostSave, Micros, CfOf, ZfOf;
    HostSaves(w, s, m, f);
    ClobberOnlyRegisters(w, HostSave(m));
    ClobberKeeps(w, HostSave(m));
    StepAtHostCall(w, SaveState, m);
    n := StepX(w, m).value;
    RunsOnce(w, m, n);
  }

  lemma RestoreIsStraight()
    ensures NoControl(RestoreCallee())
  {}

  lemma StepAtHostReturn(w: World, m: Machine, base: seq<Slot>)
    requires CodeAt(w, m.ip, [Ret]) && |m.regs| == 16 && !m.done && m.stack == base + [HostRa]
    ensures StepX(w, m) == Some(m.(stack := base, done := true, clock := m.clock + 1))
  {
    assert w.img.code[m.ip] == w.img.code[m.ip..m.ip + 1][0] == Ret;
    assert m.stack[..|m.stack| - 1] == base;
  }

  /** The pieces of the exit, from the saving of the flags on. */
  predicate ExitCode(w: World, c: nat) {
    var d := c + |ExitHead()| + 1;
    && CodeAt(w, c, ExitHead()) && CodeAt(w, d - 1, [CallR(RAX)])
    && CodeAt(w, d, RestoreCallee()) && CodeAt(w, d + |RestoreCallee()|, [Ret])
  }

  lemma ExitCodeIsThere(u: Unit, w: World)
    requires u.Compiles() && Loaded(u, w)
    ensures CodeAt(w, u.BlockStart(|u.rom|), [StoreXImm(Counter, |u.rom|)]) && ExitCode(w, u.LabelAt(Cleanup))
  {
    hide Loaded, ExitHead, CodeAt, Prologue, Epilogue, Table, u.Dispatch, u.Blocks, u.OffsetTargets, RestoreCallee;
    ImageParts(u, w);
    EpilogueShape(|u.rom|);
    var c, tail := u.BlockStart(|u.rom|) + 1, RestoreCallee() + [Ret];
    CodeSplits(w, c - 1, [StoreXImm(Counter, |u.rom|)], ExitHead() + [CallR(RAX)] + tail);
    CodeSplits(w, c, ExitHead() + [CallR(RAX)], tail);
    CodeSplits(w, c, ExitHead(), [CallR(RAX)]);
    CodeSplits(w, c + |ExitHead()| + 1, RestoreCallee(), [Ret]);
  }

  /** Up to the return of the host's save. */
  lemma ExitSaves(w: World, s: State, m: Machine, f: Frame) returns (k: nat, n: Machine)
    requires ExitCode(w, m.ip) && Match(w.cfg, s, m, f)
    ensures RunX(w, m, k) == Some(n) && n.ip == m.ip + |ExitHead()| + 1 && !n.done && |n.regs| == 16
    ensures n.core == s.(pc := m.counter, ctr := f.core.ctr) && n.stack == f.stack
  {
    hide StepX, Straight, ExitHead, CodeAt, Dumped, NoControl, Match, RestoreCallee;
    MatchHolds(w.cfg, s, m, f);
    var p := RunExitHead(w, s, m, f);
    StraightRuns(w, ExitHead(), m, p);
    n := RunHostSave(w, s, p, f);
    RunXAdds(w, m, |ExitHead()|, p, 1);
    k := |ExitHead()| + 1;
  }

  lemma ExitReturns(w: World, saved: seq<Val>, base: seq<Slot>, m: Machine) returns (k: nat, n: Machine)
    requires CodeAt(w, m.ip, RestoreCallee()) && CodeAt(w, m.ip + |RestoreCallee()|, [Ret])
    requires !m.done && |m.regs| == 16 && |saved| == 16 && m.stack == base + [HostRa] + CalleeSlots(saved)
    ensures RunX(w, m, k) == Some(n) && n.done && n.stack == base && |n.regs| == 16 && SameCallee(n.regs, saved)
    ensures n.core == m.core
  {
    hide StepX, Straight, CodeAt, NoControl, CalleeSlots, SameCallee, RestoreCallee;
    var t := RunRestoreCallee(w, base + [HostRa], saved, m);
    RestoreIsStraight();
    StraightRuns(w, RestoreCallee(), m, t);
    StepAtHostReturn(w, t, base);
    n := StepX(w, t).value;
    RunsOnce(w, t, n);
    RunXAdds(w, m, |RestoreCallee()|, t, 1);
    k := |RestoreCallee()| + 1;
  }

  /** From the exit to the return into the host: the host's copy of the core is the state reached, with the
      recorded resume point as pc, and the caller finds its stack and its registers as it left them. */
  lemma ExitRuns(u: Unit, w: World, s: State, saved: seq<Val>, base: seq<Slot>, m: Machine, f: Frame)
    returns (k: nat, n: Machine)
    requires u.Compiles() && Loaded(u, w) && Match(w.cfg, s, m, f) && m.ip == u.LabelAt(Cleanup)
    requires |saved| == 16 && f.stack == base + [HostRa] + CalleeSlots(saved)
    ensures RunX(w, m, k) == Some(n) && n.done && n.stack == base && |n.regs| == 16 && SameCallee(n.regs, saved)
    ensures n.core == s.(pc := m.counter, ctr := f.core.ctr)
  {
    hide Loaded, u.Compiles, StepX, ExitHead, CodeAt, Match, CalleeSlots, SameCallee, u.LabelAt, RestoreCallee;
    ExitCodeIsThere(u, w);
    var i, p := ExitSaves(w, s, m, f);
    var j, q := ExitReturns(w, saved, base, p);
    RunXAdds(w, m, i, p, j);
    k, n := i + j, q;
  }

  lemma RunCounter(w: World, c: nat, s: State, m: Machine, f: Frame) returns (n: Machine)
    requires Match(w.cfg, s, m, f) && c < 65536 && CodeAt(w, m.ip, [StoreXImm(Counter, c)])
    ensures RunX(w, m, 1) == Some(n) && n.ip == m.ip + 1 && Match(w.cfg, s, n, f) && n.counter == c
  {
    hide StepX, Straight, CodeAt, CfOf, ZfOf, Micros, Do;
    var i := StoreXImm(Counter, c);
    DoMemory(w, i, m);
    n := Do(w, i, m).value;
    Straight1(w, i, m);
    StraightRuns(w, [i], m, n);
    MicrosOnlyRegs(n, m);
  }

  /** Falling off the end of the program records the program size before leaving. */
  lemma EndRuns(u: Unit, w: World, s: State, m: Machine, f: Frame) returns (n: Machine)
    requires u.Compiles() && Loaded(u, w) && Match(w.cfg, s, m, f) && m.ip == u.BlockStart(|u.rom|)
    ensures RunX(w, m, 1) == Some(n) && n.ip == u.LabelAt(Cleanup) && Match(w.cfg, s, n, f) && n.counter == |u.rom|
  {
    hide Loaded, u.Compiles, StepX, ExitHead, CodeAt, Match, ExitCode, u.BlockStart, GoodSizes;
    LoadedCompiles(u, w);
    ExitCodeIsThere(u, w);
    n := RunCounter(w, |u.rom|, s, m, f);
  }
}
