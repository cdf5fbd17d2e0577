/** Loads and stores, dispatched or plain: the native block and the interpreter agree on memory, registers and
    the ordered history of the peripherals. */
module JitDispatch {
  import opened Isa
  import opened Options
  import opened X86
  import opened JitCode
  import opened JitRegisters
  import opened JitLayout
  import opened JitBlocks
  import opened JitMemory
  import opened JitPeripherals

  // ----- one dispatched access

  lemma PeripheralReadSplits(cfg: Config)
    ensures PeripheralReadHelper(cfg) ==
            SkipIfSegment(cfg, ReadFn) + (PushRegisters() + Arguments(ReadPeripheral) + [CallR(RAX)] + (PopRegisters() + [Ret]))
  {
    hide SkipIfSegment;
  }

  lemma PeripheralWriteSplits(cfg: Config)
    ensures PeripheralWriteHelper(cfg) ==
            SkipIfSegment(cfg, WriteFn) + (PushRegisters() + Arguments(WritePeripheral) + [CallR(RAX)] + (PopRegisters() + [Ret]))
  {
    hide SkipIfSegment;
  }

  lemma SegmentReadCase(cfg: Config, dev: Device, s: State, x: bv8)
    requires cfg.Segmented() && Num(x) == SEGMENT_REGISTER && !SegmentShadowsPeripheral(cfg, s.ram, x)
    ensures AfterRead(cfg, dev, s, x) == s && ReadValue(cfg, dev, s, x) == s.ram[SEGMENT_REGISTER]
    ensures forall y :: Store(cfg, s, x, y) == s.(ram := s.ram[SEGMENT_REGISTER := y])
  {
    hide Num;
  }

  lemma PlainCase(cfg: Config, dev: Device, s: State, x: bv8)
    requires !HitsPeripheral(cfg, s.ram, Num(x))
    ensures AfterRead(cfg, dev, s, x) == s && ReadValue(cfg, dev, s, x) == s.ram[Cell(cfg, s.ram, x)]
    ensures forall y :: Store(cfg, s, x, y) == s.(ram := s.ram[Cell(cfg, s.ram, x) := y])
  {
    hide Num, Cell;
  }

  /** A helper that was reached for a read returns with the byte in AL. */
  lemma ReadHelpersServe(u: Unit, w: World, s: State, x: bv8, m: Machine, core: State, st: seq<Slot>, r: nat)
    returns (k: nat, n: Machine)
    requires u.Compiles() && Loaded(u, w) && Complex(u.cfg) && w.cfg == u.cfg && w.cfg.memorySize >= SEGMENT_SIZE
    requires CodeAt(w, m.ip, HelperCode(u.cfg, ReadTarget(u.cfg, Num(x)))) && Holds(w.cfg, s, m, core)
    requires m.regs[RDI] == Word(0, 0, x) && m.stack == st + [Ra(r)] && AccessOk(w.cfg, s.ram, x)
    ensures RunX(w, m, k) == Some(n) && n.ip == r && n.stack == st && Holds(w.cfg, AfterRead(w.cfg, w.dev, s, x), n, core)
    ensures HasLow(n.regs[RAX]) && n.regs[RAX].l == ReadValue(w.cfg, w.dev, s, x) && n.regs[RSI] == m.regs[RSI]
  {
    hide Loaded, u.Compiles, Complex, StepX, LabelIndex, Num, ReadHelper, SegmentReadHelper, PeripheralReadHelper, CodeAt, Straight;
    hide SkipIfSegment, Cell, AfterRead, ReadValue, Micros;
    if u.cfg.Segmented() && Num(x) == SEGMENT_REGISTER {
      SegmentReadCase(w.cfg, w.dev, s, x);
      k, n := SegmentReadRuns(w, s, m, core, st, r);
    } else if Num(x) !in u.cfg.peripherals {
      PlainCase(w.cfg, w.dev, s, x);
      k, n := ReadHelperRuns(w, s, x, m, core, st, r);
    } else {
      k, n := PeripheralReadServes(u, w, s, x, m, core, st, r);
    }
  }

  lemma PeripheralReadServes(u: Unit, w: World, s: State, x: bv8, m: Machine, core: State, st: seq<Slot>, r: nat)
    returns (k: nat, n: Machine)
    requires u.Compiles() && Loaded(u, w) && Complex(u.cfg) && w.cfg == u.cfg && w.cfg.memorySize >= SEGMENT_SIZE
    requires CodeAt(w, m.ip, PeripheralReadHelper(u.cfg)) && Holds(w.cfg, s, m, core)
    requires m.regs[RDI] == Word(0, 0, x) && m.stack == st + [Ra(r)] && AccessOk(w.cfg, s.ram, x)
    requires !(w.cfg.Segmented() && Num(x) == SEGMENT_REGISTER) && Num(x) in w.cfg.peripherals
    ensures RunX(w, m, k) == Some(n) && n.ip == r && n.stack == st && Holds(w.cfg, AfterRead(w.cfg, w.dev, s, x), n, core)
    ensures HasLow(n.regs[RAX]) && n.regs[RAX].l == ReadValue(w.cfg, w.dev, s, x) && n.regs[RSI] == m.regs[RSI]
  {
    hide Loaded, u.Compiles, Complex, StepX, LabelIndex, Num, ReadHelper, CodeAt, Straight, SkipIfSegment, Cell, Micros, PeripheralReadHelper, Holds;
    var h := HelperIsThere(u, w, ReadFn);
    PeripheralReadSplits(w.cfg);
    var rest := PushRegisters() + Arguments(ReadPeripheral) + [CallR(RAX)] + (PopRegisters() + [Ret]);
    CodeSplits(w, m.ip, SkipIfSegment(w.cfg, ReadFn), rest);
    HoldsIsPlain(w.cfg, s, m, core);
    var i, p := SegmentTestRuns(w, s, ReadFn, h, m, core);
    HoldsIsPlain(w.cfg, s, p, core);
    SameFromOne(m.regs, p.regs);
    if SegmentSet(w.cfg, s.ram) {
      PlainCase(w.cfg, w.dev, s, x);
      k, n := ReadHelperRuns(w, s, x, p, core, st, r);
    } else {
      k, n := PeripheralCallRuns(w, s, ReadPeripheral, x, 0, p, core, st, r);
      assert HitsPeripheral(w.cfg, s.ram, Num(x));
    }
    RunXAdds(w, m, i, p, k);
    k := i + k;
  }

  lemma SameFromOne(a: seq<Val>, b: seq<Val>)
    requires |a| == 16 && |b| == 16 && a[1..] == b[1..]
    ensures a[RSI] == b[RSI] && a[RDI] == b[RDI] && a[8..] == b[8..]
  {
    assert a[RSI] == a[1..][5] && b[RSI] == b[1..][5];
    assert a[RDI] == a[1..][6] && b[RDI] == b[1..][6];
    assert a[8..] == a[1..][7..] && b[8..] == b[1..][7..];
  }

  lemma WriteHelpersServe(u: Unit, w: World, s: State, x: bv8, y: bv8, m: Machine, core: State, st: seq<Slot>, r: nat)
    returns (k: nat, n: Machine)
    requires u.Compiles() && Loaded(u, w) && Complex(u.cfg) && w.cfg == u.cfg && w.cfg.memorySize >= SEGMENT_SIZE
    requires CodeAt(w, m.ip, HelperCode(u.cfg, WriteTarget(u.cfg, Num(x)))) && Holds(w.cfg, s, m, core)
    requires m.regs[RDI] == Word(0, 0, x) && m.regs[RSI] == Word(0, 0, y) && m.stack == st + [Ra(r)] && AccessOk(w.cfg, s.ram, x)
    ensures RunX(w, m, k) == Some(n) && n.ip == r && n.stack == st && Holds(w.cfg, Store(w.cfg, s, x, y), n, core)
  {
    hide Loaded, u.Compiles, Complex, StepX, LabelIndex, Num, WriteHelper, SegmentWriteHelper, PeripheralWriteHelper, CodeAt, Straight;
    hide SkipIfSegment, Cell, Store, Micros;
    if u.cfg.Segmented() && Num(x) == SEGMENT_REGISTER {
      SegmentReadCase(w.cfg, w.dev, s, x);
      k, n := SegmentWriteRuns(w, s, y, m, core, st, r);
    } else if Num(x) !in u.cfg.peripherals {
      PlainCase(w.cfg, w.dev, s, x);
      k, n := WriteHelperRuns(w, s, x, y, m, core, st, r);
    } else {
      k, n := PeripheralWriteServes(u, w, s, x, y, m, core, st, r);
    }
  }

  lemma PeripheralWriteServes(u: Unit, w: World, s: State, x: bv8, y: bv8, m: Machine, core: State, st: seq<Slot>, r: nat)
    returns (k: nat, n: Machine)
    requires u.Compiles() && Loaded(u, w) && Complex(u.cfg) && w.cfg == u.cfg && w.cfg.memorySize >= SEGMENT_SIZE
    requires CodeAt(w, m.ip, PeripheralWriteHelper(u.cfg)) && Holds(w.cfg, s, m, core)
    requires m.regs[RDI] == Word(0, 0, x) && m.regs[RSI] == Word(0, 0, y) && m.stack == st + [Ra(r)] && AccessOk(w.cfg, s.ram, x)
    requires !(w.cfg.Segmented() && Num(x) == SEGMENT_REGISTER) && Num(x) in w.cfg.peripherals
    ensures RunX(w, m, k) == Some(n) && n.ip == r && n.stack == st && Holds(w.cfg, Store(w.cfg, s, x, y), n, core)
  {
    hide Loaded, u.Compiles, Complex, StepX, LabelIndex, Num, WriteHelper, CodeAt, Straight, SkipIfSegment, Cell, Micros, PeripheralWriteHelper, Holds;
    var h := HelperIsThere(u, w, WriteFn);
    PeripheralWriteSplits(w.cfg);
    var rest := PushRegisters() + Arguments(WritePeripheral) + [CallR(RAX)] + (PopRegisters() + [Ret]);
    CodeSplits(w, m.ip, SkipIfSegment(w.cfg, WriteFn), rest);
    HoldsIsPlain(w.cfg, s, m, core);
    var i, p := SegmentTestRuns(w, s, WriteFn, h, m, core);
    HoldsIsPlain(w.cfg, s, p, core);
    SameFromOne(m.regs, p.regs);
    if SegmentSet(w.cfg, s.ram) {
      PlainCase(w.cfg, w.dev, s, x);
      k, n := WriteHelperRuns(w, s, x, y, p, core, st, r);
    } else {
      k, n := PeripheralCallRuns(w, s, WritePeripheral, x, y, p, core, st, r);
      assert HitsPeripheral(w.cfg, s.ram, Num(x));
    }
    RunXAdds(w, m, i, p, k);
    k := i + k;
  }

  // ----- the load block

  lemma RunWidenLea(w: World, dst: Reg, from: Reg, lab: Label, x: bv8, m: Machine) returns (n: Machine)
    requires Plain(m) && IsPlain(from) && m.regs[from].l == x
    ensures Straight(w, [MovzxL(dst, from), Lea(RAX, lab, 0)], m) == Some(n)
    ensures n == m.(regs := m.regs[dst := Word(0, 0, x)][RAX := Ptr(lab, 0)], ip := n.ip, clock := n.clock)
  {
    hide Do;
    var a, b := MovzxL(dst, from), Lea(RAX, lab, 0);
    DoByte(w, a, m);
    var p := Do(w, a, m).value;
    DoMemory(w, b, p);
    n := Do(w, b, p).value;
    Straight2(w, a, b, m);
  }

  lemma RunScale(w: World, lab: Label, x: bv8, m: Machine) returns (n: Machine)
    requires |m.regs| == 16 && m.regs[RDI] == Word(0, 0, x) && m.regs[RAX] == Ptr(lab, 0)
    ensures Straight(w, [LeaScaled(RAX, RAX, RDI)], m) == Some(n)
    ensures n == m.(regs := m.regs[RAX := Ptr(lab, ENTRY_SIZE * Num(x))], ip := n.ip, clock := n.clock)
  {
    hide Do, Num, WordValue;
    ByteWord(x);
    DoMemory(w, LeaScaled(RAX, RAX, RDI), m);
    n := Do(w, LeaScaled(RAX, RAX, RDI), m).value;
    Straight1(w, LeaScaled(RAX, RAX, RDI), m);
  }

  function PointAt(map_: Label, from: Reg): seq<Ins> {
    [MovzxL(RDI, from), Lea(RAX, map_, 0)] + [LeaScaled(RAX, RAX, RDI)]
  }

  /** Point RAX at the table entry of the byte in `from`. */
  lemma RunPoint(w: World, map_: Label, from: Reg, x: bv8, m: Machine) returns (n: Machine)
    requires Plain(m) && IsPlain(from) && m.regs[from].l == x
    ensures Straight(w, PointAt(map_, from), m) == Some(n)
    ensures n == m.(regs := m.regs[RDI := Word(0, 0, x)][RAX := Ptr(map_, ENTRY_SIZE * Num(x))], ip := n.ip, clock := n.clock)
  {
    hide Straight, Num;
    var p := RunWidenLea(w, RDI, from, map_, x, m);
    n := RunScale(w, map_, x, p);
    StraightAppends(w, [MovzxL(RDI, from), Lea(RAX, map_, 0)], [LeaScaled(RAX, RAX, RDI)], m, p);
    assert n.regs == m.regs[RDI := Word(0, 0, x)][RAX := Ptr(map_, ENTRY_SIZE * Num(x))];
  }

  lemma MatchHolds(cfg: Config, s: State, m: Machine, f: Frame)
    requires Match(cfg, s, m, f)
    ensures Holds(cfg, s, m, f.core) && m.stack == f.stack && Plain(m) && !m.done
    ensures CfOf(m.regs[RSI].l) == s.cf && ZfOf(m.regs[RSI].l) == s.zf
  {}

  lemma MatchFromHolds(cfg: Config, s: State, t: State, m: Machine, n: Machine, f: Frame)
    requires Match(cfg, s, m, f) && Holds(cfg, t, n, f.core) && n.stack == f.stack && n.regs[RSI] == m.regs[RSI]
    requires t.cf == s.cf && t.zf == s.zf
    ensures Match(cfg, t, n, f)
  {
    hide CfOf, ZfOf;
  }

  lemma ReadCodeIsStraight(out: Reg, mask: bv8)
    ensures NoControl(ReadCode(out, mask))
  {
    hide ReadFrom;
    ReadFromIsStraight(out, mask, 0, false);
  }

  lemma WriteCodeIsStraight(src: Src, mask: bv8)
    ensures NoControl(WriteCode(src, mask))
  {
    hide WriteFrom;
    WriteFromIsStraight(src, mask, 0);
  }

  lemma ReadKeepsFlags(cfg: Config, dev: Device, s: State, x: bv8)
    ensures var t := AfterRead(cfg, dev, s, x); t.cf == s.cf && t.zf == s.zf && t.regs == s.regs
  {}

  lemma HoldsAfterPoint(w: World, s: State, m: Machine, n: Machine, f: Frame, a: Val, b: Val)
    requires Match(w.cfg, s, m, f) && n == m.(regs := m.regs[RDI := a][RAX := b], ip := n.ip, clock := n.clock)
    ensures Match(w.cfg, s, n, f)
  {
    hide CfOf, ZfOf, Micros;
    HoldsUnderScratch(w.cfg, s, m, n, f.core);
  }

  /** From the call to the return of a dispatched read. */
  lemma DispatchedRead(u: Unit, w: World, s: State, x: bv8, m: Machine, f: Frame) returns (k: nat, n: Machine)
    requires u.Compiles() && Loaded(u, w) && Complex(u.cfg) && Match(w.cfg, s, m, f) && AccessOk(w.cfg, s.ram, x)
    requires CodeAt(w, m.ip, [CallR(RAX)]) && m.regs[RDI] == Word(0, 0, x) && m.regs[RAX] == Ptr(ReadMap, ENTRY_SIZE * Num(x))
    ensures RunX(w, m, k) == Some(n) && n.ip == m.ip + 1 && Match(w.cfg, AfterRead(w.cfg, w.dev, s, x), n, f)
    ensures HasLow(n.regs[RAX]) && n.regs[RAX].l == ReadValue(w.cfg, w.dev, s, x)
  {
    hide Loaded, u.Compiles, Complex, StepX, LabelIndex, Num, CodeAt, Match, AccessOk, AfterRead, ReadValue, ReadTarget, WriteTarget, HelperCode, Holds;
    LoadedCompiles(u, w);
    MatchHolds(w.cfg, s, m, f);
    var i, p := CallThroughTable(u, w, ReadMap, x, m);
    HoldsUnderScratch(w.cfg, s, m, p, f.core);
    k, n := ReadHelpersServe(u, w, s, x, p, f.core, f.stack, m.ip + 1);
    RunXAdds(w, m, 2, p, k);
    k := 2 + k;
    ReadKeepsFlags(w.cfg, w.dev, s, x);
    HoldsIsPlain(w.cfg, AfterRead(w.cfg, w.dev, s, x), n, f.core);
    MatchFromHolds(w.cfg, s, AfterRead(w.cfg, w.dev, s, x), m, n, f);
  }

  lemma LoadDispatchedRuns(u: Unit, w: World, i: Instr, s: State, m: Machine, f: Frame) returns (k: nat, n: Machine)
    requires u.Compiles() && Loaded(u, w) && Complex(u.cfg) && Match(w.cfg, s, m, f)
    requires CodeAt(w, m.ip, ReadCode(RBX, i.b) + PointAt(ReadMap, RBX) + [CallR(RAX)] + WriteCode(L(RAX), i.a))
    requires AccessOk(w.cfg, s.ram, ReadSet(s.regs, i.b))
    ensures RunX(w, m, k) == Some(n) && Match(w.cfg, Load(w.cfg, w.dev, s, i.a, ReadSet(s.regs, i.b)), n, f)
    ensures n.ip == m.ip + |ReadCode(RBX, i.b) + PointAt(ReadMap, RBX) + [CallR(RAX)] + WriteCode(L(RAX), i.a)|
  {
    hide Loaded, u.Compiles, Complex, StepX, Num, CodeAt, Match, AccessOk, AfterRead, ReadValue, ReadCode, WriteCode, ReadSet, Straight, Load, WriteSet;
    var x := ReadSet(s.regs, i.b);
    var a, b, d := ReadCode(RBX, i.b), PointAt(ReadMap, RBX), WriteCode(L(RAX), i.a);
    CodeSplits(w, m.ip, a + b + [CallR(RAX)], d);
    CodeSplits(w, m.ip, a + b, [CallR(RAX)]);
    MatchHolds(w.cfg, s, m, f);
    var p := ReadOne(w, s, RBX, i.b, m, f);
    MatchHolds(w.cfg, s, p, f);
    var q := RunPoint(w, ReadMap, RBX, x, p);
    HoldsAfterPoint(w, s, p, q, f, Word(0, 0, x), Ptr(ReadMap, ENTRY_SIZE * Num(x)));
    StraightAppends(w, a, b, m, p);
    ReadCodeIsStraight(RBX, i.b);
    StraightRuns(w, a + b, m, q);
    var j, t := DispatchedRead(u, w, s, x, q, f);
    var s' := AfterRead(w.cfg, w.dev, s, x);
    MatchHolds(w.cfg, s', t, f);
    n := WriteBack(w, s', L(RAX), i.a, ReadValue(w.cfg, w.dev, s, x), t, f);
    LoadIsReadThenWrite(w.cfg, w.dev, s, i.a, x);
    WriteCodeIsStraight(L(RAX), i.a);
    StraightRuns(w, d, t, n);
    RunXAdds(w, m, |a + b|, q, j);
    RunXAdds(w, m, |a + b| + j, t, |d|);
    k := |a + b| + j + |d|;
  }

  lemma LoadPlainRuns(w: World, i: Instr, s: State, m: Machine, f: Frame) returns (n: Machine)
    requires Match(w.cfg, s, m, f) && !Complex(w.cfg) && i.op == Ldm && w.cfg.memorySize >= SEGMENT_SIZE
    ensures Straight(w, LoadCode(w.cfg, i), m) == Some(n)
    ensures Match(w.cfg, Load(w.cfg, w.dev, s, i.a, ReadSet(s.regs, i.b)), n, f)
  {
    hide CfOf, ZfOf, ReadCode, WriteCode, ReadSet, Straight, WriteSet, Micros, Do, Num;
    var x := ReadSet(s.regs, i.b);
    var widen, lea, load := MovzxL(RBX, RBX), Lea(RAX, Data, 0), LoadL(RDX, Indexed(RAX, RBX));
    var p := ReadOne(w, s, RBX, i.b, m, f);
    var v := s.ram[Num(x)];
    var q := RunPlainLoad(w, x, v, p);
    HoldsUnderScratch(w.cfg, s, p, q, f.core);
    n := WriteBack(w, s, L(RDX), i.a, v, q, f);
    StraightPieces(w, ReadCode(RBX, i.b), [widen, lea, load], WriteCode(L(RDX), i.a), m, p, q);
  }

  lemma RunPlainLoad(w: World, x: bv8, v: bv8, m: Machine) returns (n: Machine)
    requires Plain(m) && m.regs[RBX].l == x && Num(x) < |m.data| && m.data[Num(x)] == v
    ensures Straight(w, [MovzxL(RBX, RBX), Lea(RAX, Data, 0), LoadL(RDX, Indexed(RAX, RBX))], m) == Some(n)
    ensures n == m.(regs := m.regs[RBX := Word(0, 0, x)][RAX := Ptr(Data, 0)][RDX := m.regs[RDX].(l := v)], ip := n.ip, clock := n.clock)
  {
    hide Do, Num, WordValue;
    var p := RunWidenLea(w, RBX, RBX, Data, x, m);
    var c := LoadL(RDX, Indexed(RAX, RBX));
    ByteWord(x);
    DoMemory(w, c, p);
    n := Do(w, c, p).value;
    Straight1(w, c, p);
    StraightAppends(w, [MovzxL(RBX, RBX), Lea(RAX, Data, 0)], [c], m, p);
    assert [MovzxL(RBX, RBX), Lea(RAX, Data, 0)] + [c] == [MovzxL(RBX, RBX), Lea(RAX, Data, 0), c];
  }

  // ----- the store block

  lemma DispatchedWrite(u: Unit, w: World, s: State, x: bv8, y: bv8, m: Machine, f: Frame) returns (k: nat, n: Machine)
    requires u.Compiles() && Loaded(u, w) && Complex(u.cfg) && Holds(w.cfg, s, m, f.core) && m.stack == f.stack && AccessOk(w.cfg, s.ram, x)
    requires CodeAt(w, m.ip, [CallR(RAX)]) && m.regs[RDI] == Word(0, 0, x) && m.regs[RSI] == Word(0, 0, y)
    requires m.regs[RAX] == Ptr(WriteMap, ENTRY_SIZE * Num(x))
    ensures RunX(w, m, k) == Some(n) && n.ip == m.ip + 1 && Holds(w.cfg, Store(w.cfg, s, x, y), n, f.core) && n.stack == f.stack
  {
    hide Loaded, u.Compiles, Complex, StepX, LabelIndex, Num, CodeAt, AccessOk, Store, ReadTarget, WriteTarget, HelperCode, Micros;
    LoadedCompiles(u, w);
    var i, p := CallThroughTable(u, w, WriteMap, x, m);
    HoldsUnderScratch(w.cfg, s, m, p, f.core);
    k, n := WriteHelpersServe(u, w, s, x, y, p, f.core, f.stack, m.ip + 1);
    RunXAdds(w, m, 2, p, k);
    k := 2 + k;
  }

  lemma RunPushSi(w: World, s: State, m: Machine, f: Frame) returns (n: Machine)
    requires Match(w.cfg, s, m, f)
    ensures Straight(w, [PushX(RSI)], m) == Some(n) && n.regs == m.regs
    ensures Match(w.cfg, s, n, f.(stack := f.stack + [X(m.regs[RSI].h, m.regs[RSI].l)]))
  {
    hide Do, CfOf, ZfOf, Micros;
    DoStack(w, PushX(RSI), m);
    Straight1(w, PushX(RSI), m);
    n := Do(w, PushX(RSI), m).value;
    HoldsUnderScratch(w.cfg, s, m, n, f.core);
  }

  /** The pop brings the flags back that the call used SI for. */
  lemma RunPopSi(w: World, s: State, h: bv8, l: bv8, m: Machine, f: Frame) returns (n: Machine)
    requires Holds(w.cfg, s, m, f.core) && m.stack == f.stack + [X(h, l)] && CfOf(l) == s.cf && ZfOf(l) == s.zf
    ensures Straight(w, [PopX(RSI)], m) == Some(n) && Match(w.cfg, s, n, f)
  {
    hide Do, CfOf, ZfOf, Micros;
    assert m.stack[..|m.stack| - 1] == f.stack;
    DoStack(w, PopX(RSI), m);
    Straight1(w, PopX(RSI), m);
    n := Do(w, PopX(RSI), m).value;
    HoldsUnderScratch(w.cfg, s, m, n, f.core);
  }

  function StoreArguments(): seq<Ins> {
    [MovzxL(RDI, RDX)] + [MovzxL(RSI, RBX), Lea(RAX, WriteMap, 0)] + [LeaScaled(RAX, RAX, RDI)]
  }

  lemma RunStoreArguments(w: World, x: bv8, y: bv8, m: Machine) returns (n: Machine)
    requires Plain(m) && m.regs[RDX].l == x && m.regs[RBX].l == y
    ensures Straight(w, StoreArguments(), m) == Some(n) && n == m.(regs := n.regs, ip := n.ip, clock := n.clock)
    ensures n.regs == m.regs[RDI := Word(0, 0, x)][RSI := Word(0, 0, y)][RAX := Ptr(WriteMap, ENTRY_SIZE * Num(x))]
  {
    hide Do, Straight, Num;
    DoByte(w, MovzxL(RDI, RDX), m);
    Straight1(w, MovzxL(RDI, RDX), m);
    var p := Do(w, MovzxL(RDI, RDX), m).value;
    var q := RunWidenLea(w, RSI, RBX, WriteMap, y, p);
    n := RunScale(w, WriteMap, x, q);
    StraightPieces(w, [MovzxL(RDI, RDX)], [MovzxL(RSI, RBX), Lea(RAX, WriteMap, 0)], [LeaScaled(RAX, RAX, RDI)], m, p, q);
  }

  lemma StoreDispatchedRuns(u: Unit, w: World, i: Instr, s: State, m: Machine, f: Frame) returns (k: nat, n: Machine)
    requires u.Compiles() && Loaded(u, w) && Complex(u.cfg) && Match(w.cfg, s, m, f)
    requires CodeAt(w, m.ip, [PushX(RSI)] + (ReadCode(RDX, i.a) + ReadCode(RBX, i.b)) + StoreArguments() + [CallR(RAX)] + [PopX(RSI)])
    requires AccessOk(w.cfg, s.ram, ReadSet(s.regs, i.a))
    ensures RunX(w, m, k) == Some(n) && Match(w.cfg, Store(w.cfg, s, ReadSet(s.regs, i.a), ReadSet(s.regs, i.b)), n, f)
    ensures n.ip == m.ip + |[PushX(RSI)] + (ReadCode(RDX, i.a) + ReadCode(RBX, i.b)) + StoreArguments() + [CallR(RAX)] + [PopX(RSI)]|
  {
    hide Loaded, u.Compiles, Complex, StepX, Num, CodeAt, Match, AccessOk, ReadCode, ReadSet, Straight, Store, Holds, StoreArguments, Micros, CfOf, ZfOf;
    var x, y := ReadSet(s.regs, i.a), ReadSet(s.regs, i.b);
    var a, b, c := [PushX(RSI)], ReadCode(RDX, i.a) + ReadCode(RBX, i.b), StoreArguments();
    CodeSplits(w, m.ip, a + b + c + [CallR(RAX)], [PopX(RSI)]);
    CodeSplits(w, m.ip, a + b + c, [CallR(RAX)]);
    MatchHolds(w.cfg, s, m, f);
    var h, l := m.regs[RSI].h, m.regs[RSI].l;
    var g := f.(stack := f.stack + [X(h, l)]);
    var o := RunPushSi(w, s, m, f);
    MatchHolds(w.cfg, s, o, g);
    var p := ReadTwo(w, s, i.a, i.b, o, g);
    MatchHolds(w.cfg, s, p, g);
    var q := RunStoreArguments(w, x, y, p);
    StraightPieces(w, a, b, c, m, o, p);
    StoreArgumentsStraight(i);
    StraightRuns(w, a + b + c, m, q);
    HoldsUnderScratch(w.cfg, s, p, q, f.core);
    var j, t := DispatchedWrite(u, w, s, x, y, q, g);
    StoreKeepsFlags(w.cfg, s, x, y);
    HoldsIsPlain(w.cfg, Store(w.cfg, s, x, y), t, f.core);
    n := RunPopSi(w, Store(w.cfg, s, x, y), h, l, t, f);
    StraightRuns(w, [PopX(RSI)], t, n);
    RunXAdds(w, m, |a + b + c|, q, j);
    RunXAdds(w, m, |a + b + c| + j, t, 1);
    k := |a + b + c| + j + 1;
  }

  lemma StoreArgumentsStraight(i: Instr)
    ensures var c := [PushX(RSI)] + (ReadCode(RDX, i.a) + ReadCode(RBX, i.b)) + StoreArguments();
            NoControl(c)
  {
    hide ReadCode;
    ReadCodeIsStraight(RDX, i.a);
    ReadCodeIsStraight(RBX, i.b);
  }

  lemma StoreKeepsFlags(cfg: Config, s: State, x: bv8, y: bv8)
    ensures Store(cfg, s, x, y).cf == s.cf && Store(cfg, s, x, y).zf == s.zf
  {}

  lemma StorePlainRuns(w: World, i: Instr, s: State, m: Machine, f: Frame) returns (n: Machine)
    requires Match(w.cfg, s, m, f) && !Complex(w.cfg) && i.op == Stm && w.cfg.memorySize >= SEGMENT_SIZE
    ensures Straight(w, StoreCode(w.cfg, i), m) == Some(n)
    ensures Match(w.cfg, Store(w.cfg, s, ReadSet(s.regs, i.a), ReadSet(s.regs, i.b)), n, f)
  {
    hide CfOf, ZfOf, ReadCode, ReadSet, Straight, Micros, Do, Num;
    var x, y := ReadSet(s.regs, i.a), ReadSet(s.regs, i.b);
    var p := ReadTwo(w, s, i.a, i.b, m, f);
    n := RunPlainStore(w, x, y, p);
    HoldsAfterStore(w.cfg, s, p, n, f.core, Num(x), y);
    StraightAppends(w, ReadCode(RDX, i.a) + ReadCode(RBX, i.b),
                    [MovzxL(RDX, RDX), Lea(RAX, Data, 0), StoreL(Indexed(RAX, RDX), RBX)], m, p);
  }

  lemma RunPlainStore(w: World, x: bv8, y: bv8, m: Machine) returns (n: Machine)
    requires Plain(m) && m.regs[RDX].l == x && m.regs[RBX].l == y && Num(x) < |m.data|
    ensures Straight(w, [MovzxL(RDX, RDX), Lea(RAX, Data, 0), StoreL(Indexed(RAX, RDX), RBX)], m) == Some(n)
    ensures n == m.(regs := m.regs[RDX := Word(0, 0, x)][RAX := Ptr(Data, 0)], data := m.data[Num(x) := y], ip := n.ip, clock := n.clock)
  {
    hide Do, Num, WordValue;
    var p := RunWidenLea(w, RDX, RDX, Data, x, m);
    var c := StoreL(Indexed(RAX, RDX), RBX);
    ByteWord(x);
    DoMemory(w, c, p);
    n := Do(w, c, p).value;
    Straight1(w, c, p);
    StraightAppends(w, [MovzxL(RDX, RDX), Lea(RAX, Data, 0)], [c], m, p);
    assert [MovzxL(RDX, RDX), Lea(RAX, Data, 0)] + [c] == [MovzxL(RDX, RDX), Lea(RAX, Data, 0), c];
  }
}
