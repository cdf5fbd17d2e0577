/** Memory instructions of a machine with peripherals or a segment register go through two jump tables and six
    helper routines; together they do what the interpreter's load and store do. */
module JitMemory {
  import opened Isa
  import opened Options
  import opened X86
  import opened JitCode
  import opened JitRegisters
  import opened JitLayout
  import opened JitBlocks

  // ----- where the helpers are

  lemma CodeSplits(w: World, k: nat, a: seq<Ins>, b: seq<Ins>)
    requires CodeAt(w, k, a + b)
    ensures CodeAt(w, k, a) && CodeAt(w, k + |a|, b)
  {
    assert w.img.code[k..k + |a|] == w.img.code[k..k + |a + b|][..|a|];
    assert w.img.code[k + |a|..k + |a + b|] == w.img.code[k..k + |a + b|][|a|..];
  }

  lemma ThreeParts(w: World, k: nat, a: seq<Ins>, b: seq<Ins>, c: seq<Ins>)
    requires CodeAt(w, k, a + b + c)
    ensures CodeAt(w, k, a) && CodeAt(w, k + |a|, b) && CodeAt(w, k + |a| + |b|, c)
  {
    hide CodeAt;
    CodeSplits(w, k, a + b, c);
    CodeSplits(w, k, a, b);
  }

  lemma SixParts(w: World, k: nat, a: seq<Ins>, b: seq<Ins>, c: seq<Ins>, d: seq<Ins>, e: seq<Ins>, g: seq<Ins>)
    requires CodeAt(w, k, a + b + c + d + e + g)
    ensures CodeAt(w, k, a) && CodeAt(w, k + |a|, b) && CodeAt(w, k + |a| + |b|, c)
    ensures CodeAt(w, k + |a| + |b| + |c|, d) && CodeAt(w, k + |a| + |b| + |c| + |d|, e)
    ensures CodeAt(w, k + |a| + |b| + |c| + |d| + |e|, g)
  {
    hide CodeAt;
    CodeSplits(w, k, a + b + c + d + e, g);
    CodeSplits(w, k, a + b + c + d, e);
    ThreeParts(w, k, a + b, c, d);
    CodeSplits(w, k, a, b);
  }

  lemma DispatchSplits(u: Unit)
    requires Complex(u.cfg)
    ensures u.Dispatch() == u.Helpers() + Table(u.size, u.ReadTargets()) + Table(u.size, u.WriteTargets())
  {
    hide Table, Complex, u.Helpers, u.ReadTargets, u.WriteTargets;
  }

  lemma DispatchParts(u: Unit, w: World)
    requires u.Compiles() && Loaded(u, w) && Complex(u.cfg)
    ensures var k := u.HelpersStart();
            && CodeAt(w, k, u.Helpers())
            && CodeAt(w, k + |u.Helpers()|, Table(u.size, u.ReadTargets()))
            && CodeAt(w, k + |u.Helpers()| + |Table(u.size, u.ReadTargets())|, Table(u.size, u.WriteTargets()))
  {
    hide Table, CodeAt, u.Helpers, u.HelpersStart, u.ReadTargets, u.WriteTargets, Loaded, u.Code, u.IsImage, u.OffsetTargets, Complex, u.Compiles, u.Dispatch;
    hide u.BlockStart, u.OffsetsStart, Prologue, Epilogue;
    ImageParts(u, w);
    DispatchSplits(u);
    ThreeParts(w, u.HelpersStart(), u.Helpers(), Table(u.size, u.ReadTargets()), Table(u.size, u.WriteTargets()));
  }

  lemma HelpersAt(w: World, cfg: Config, k: nat)
    requires CodeAt(w, k, ReadHelper(cfg) + WriteHelper(cfg) + SegmentWriteHelper() + SegmentReadHelper() +
                          PeripheralReadHelper(cfg) + PeripheralWriteHelper(cfg))
    ensures var a, b, c, d := |ReadHelper(cfg)|, |WriteHelper(cfg)|, |SegmentWriteHelper()|, |SegmentReadHelper()|;
            && CodeAt(w, k, ReadHelper(cfg)) && CodeAt(w, k + a, WriteHelper(cfg))
            && CodeAt(w, k + a + b, SegmentWriteHelper()) && CodeAt(w, k + a + b + c, SegmentReadHelper())
            && CodeAt(w, k + a + b + c + d, PeripheralReadHelper(cfg))
            && CodeAt(w, k + a + b + c + d + |PeripheralReadHelper(cfg)|, PeripheralWriteHelper(cfg))
  {
    hide ReadHelper, WriteHelper, SegmentWriteHelper, SegmentReadHelper, PeripheralReadHelper, PeripheralWriteHelper, CodeAt;
    SixParts(w, k, ReadHelper(cfg), WriteHelper(cfg), SegmentWriteHelper(), SegmentReadHelper(),
             PeripheralReadHelper(cfg), PeripheralWriteHelper(cfg));
  }

  /** The code of a helper, by its label. */
  function HelperCode(cfg: Config, l: Label): seq<Ins> {
    match l
    case ReadFn => ReadHelper(cfg)
    case WriteFn => WriteHelper(cfg)
    case SegmentReadFn => SegmentReadHelper()
    case SegmentWriteFn => SegmentWriteHelper()
    case PeripheralReadFn => PeripheralReadHelper(cfg)
    case PeripheralWriteFn => PeripheralWriteHelper(cfg)
    case _ => []
  }

  /** Every helper label leads to the code of that helper. */
  lemma HelperIsThere(u: Unit, w: World, l: Label) returns (k: nat)
    requires u.Compiles() && Loaded(u, w) && Complex(u.cfg)
    requires l in {ReadFn, WriteFn, SegmentReadFn, SegmentWriteFn, PeripheralReadFn, PeripheralWriteFn}
    ensures LabelIndex(w, l) == Some(k) && CodeAt(w, k, HelperCode(u.cfg, l))
  {
    hide Table, u.HelpersStart, u.ReadTargets, u.WriteTargets, Loaded, CodeAt, Complex, u.Code, u.IsImage, u.Dispatch, u.OffsetTargets, u.Compiles;
    hide ReadHelper, WriteHelper, SegmentWriteHelper, SegmentReadHelper, PeripheralReadHelper, PeripheralWriteHelper, LabelIndex;
    DispatchParts(u, w);
    HelpersAt(w, u.cfg, u.HelpersStart());
    k := u.LabelAt(l);
    CodeFits(w, k, HelperCode(u.cfg, l));
    LabelIsBound(u, w, l);
  }

  lemma CodeFits(w: World, k: nat, code: seq<Ins>)
    requires CodeAt(w, k, code)
    ensures k + |code| <= |w.img.code|
  {}

  /** The two memory tables: entry x is a jump to the helper that serves address x. */
  lemma MemoryTablesAre(u: Unit, w: World, x: nat)
    requires u.Compiles() && Loaded(u, w) && Complex(u.cfg) && x < SEGMENT_SIZE
    ensures var e := Address(w, ReadMap, ENTRY_SIZE * x);
            e.Some? && e.value < |w.img.code| && w.img.code[e.value] == Jmp(ReadTarget(u.cfg, x))
    ensures var e := Address(w, WriteMap, ENTRY_SIZE * x);
            e.Some? && e.value < |w.img.code| && w.img.code[e.value] == Jmp(WriteTarget(u.cfg, x))
  {
    hide Table, u.HelpersStart, Loaded, Complex, u.Code, u.IsImage, u.Dispatch, u.OffsetTargets, u.Compiles, u.Helpers;
    hide LabelIndex, ReadTarget, WriteTarget, GoodSizes, WalkTo, CodeAt;
    LoadedCompiles(u, w);
    DispatchParts(u, w);
    CodeFits(w, u.LabelAt(ReadMap), Table(u.size, u.ReadTargets()));
    CodeFits(w, u.LabelAt(WriteMap), Table(u.size, u.WriteTargets()));
    LabelIsBound(u, w, ReadMap);
    LabelIsBound(u, w, WriteMap);
    TableEntry(w, u.ReadTargets(), u.LabelAt(ReadMap), x);
    TableEntry(w, u.WriteTargets(), u.LabelAt(WriteMap), x);
  }

  // ----- calls and returns

  lemma StraightThenRet(w: World, code: seq<Ins>, m: Machine, p: Machine, st: seq<Slot>, r: nat)
    requires CodeAt(w, m.ip, code + [Ret]) && !m.done && Straight(w, code, m) == Some(p)
    requires NoControl(code)
    requires |p.regs| == 16 && p.stack == st + [Ra(r)]
    ensures RunX(w, m, |code| + 1) == Some(p.(ip := r, stack := st, clock := p.clock + 1)) && !p.done
  {
    hide Do, Straight;
    CodeSplits(w, m.ip, code, [Ret]);
    StraightRuns(w, code, m, p);
    assert w.img.code[p.ip] == w.img.code[p.ip..p.ip + 1][0] == Ret;
    var n := p.(ip := r, stack := st, clock := p.clock + 1);
    assert Pop(p).stack == st;
    assert StepX(w, p) == Some(n);
    RunsOnce(w, p, n);
    RunXAdds(w, m, |code|, p, 1);
  }

  lemma NumZero()
    ensures Num(0) == 0
  {}

  lemma NumIsZero(x: bv8)
    ensures Num(x) == 0 <==> x == 0
  {}

  lemma ByteWord(x: bv8)
    ensures WordValue(Word(0, 0, x)) == Num(x)
  {
    hide Num;
    NumZero();
  }

  // ----- the plain memory helpers

  /** The segment register becomes the second byte of the address in RDI. */
  lemma RunSegmentLoad(w: World, x: bv8, g: bv8, m: Machine) returns (n: Machine)
    requires Plain(m) && SEGMENT_REGISTER < |m.data| && m.regs[RDI] == Word(0, 0, x) && m.data[SEGMENT_REGISTER] == g
    ensures Straight(w, [Mov64(RDX, RDI), LoadH(RDX, SegmentCell), MovzxX(RDI, RDX)], m) == Some(n)
    ensures n == m.(regs := n.regs, ip := n.ip, clock := n.clock)
    ensures n.regs == m.regs[RDX := Word(0, g, x)][RDI := Word(0, g, x)]
  {
    hide Do;
    DoMemory(w, Mov64(RDX, RDI), m);
    var p := Do(w, Mov64(RDX, RDI), m).value;
    DoMemory(w, LoadH(RDX, SegmentCell), p);
    var q := Do(w, LoadH(RDX, SegmentCell), p).value;
    DoByte(w, MovzxX(RDI, RDX), q);
    n := Do(w, MovzxX(RDI, RDX), q).value;
    Straight3(w, Mov64(RDX, RDI), LoadH(RDX, SegmentCell), MovzxX(RDI, RDX), m);
  }

  /** Segmented or not, after ApplySegment RDI holds the number of the RAM cell. */
  lemma RunApplySegment(w: World, s: State, x: bv8, m: Machine, core: State) returns (n: Machine)
    requires Holds(w.cfg, s, m, core) && w.cfg.memorySize >= SEGMENT_SIZE && m.regs[RDI] == Word(0, 0, x)
    requires w.cfg.Segmented() ==> Num(x) != SEGMENT_REGISTER
    ensures Straight(w, ApplySegment(w.cfg), m) == Some(n) && Holds(w.cfg, s, n, core)
    ensures n == m.(regs := n.regs, ip := n.ip, clock := n.clock)
    ensures n.regs[RDI].Word? && WordValue(n.regs[RDI]) == Cell(w.cfg, s.ram, x) && n.regs[RAX] == m.regs[RAX] && n.regs[RSI] == m.regs[RSI]
  {
    hide Num, Wide, Micros, WordValue;
    ByteWord(x);
    if w.cfg.Segmented() {
      var g := s.ram[SEGMENT_REGISTER];
      assert m.data[SEGMENT_REGISTER] == g;
      n := RunSegmentLoad(w, x, g, m);
      WordZeroUp(g, x);
      HoldsUnderScratch(w.cfg, s, m, n, core);
    } else {
      n := m;
    }
  }

  lemma WordZeroUp(h: bv8, l: bv8)
    ensures WordValue(Word(0, h, l)) == Wide(h, l)
  {
    hide Num;
  }

  predicate CellInRange(cfg: Config, ram: Ram, x: bv8) {
    Cell(cfg, ram, x) < cfg.memorySize
  }

  /** The code both helpers start with: RAX points at the data, RDI is the cell. */
  lemma RunAddress(w: World, s: State, x: bv8, m: Machine, core: State) returns (n: Machine)
    requires Holds(w.cfg, s, m, core) && w.cfg.memorySize >= SEGMENT_SIZE && m.regs[RDI] == Word(0, 0, x)
    requires w.cfg.Segmented() ==> Num(x) != SEGMENT_REGISTER
    ensures Straight(w, [Lea(RAX, Data, 0)] + ApplySegment(w.cfg), m) == Some(n) && Holds(w.cfg, s, n, core)
    ensures n.stack == m.stack && n.regs[RAX] == Ptr(Data, 0) && n.regs[RSI] == m.regs[RSI]
    ensures n.regs[RDI].Word? && WordValue(n.regs[RDI]) == Cell(w.cfg, s.ram, x)
  {
    hide Num, Wide, WordValue, Cell, Straight, ApplySegment, Do, Micros;
    var lea := Lea(RAX, Data, 0);
    DoMemory(w, lea, m);
    Straight1(w, lea, m);
    var p := Do(w, lea, m).value;
    HoldsUnderScratch(w.cfg, s, m, p, core);
    n := RunApplySegment(w, s, x, p, core);
    StraightAppends(w, [lea], ApplySegment(w.cfg), m, p);
  }

  lemma ReadHelperRuns(w: World, s: State, x: bv8, m: Machine, core: State, st: seq<Slot>, r: nat) returns (k: nat, n: Machine)
    requires CodeAt(w, m.ip, ReadHelper(w.cfg)) && Holds(w.cfg, s, m, core) && w.cfg.memorySize >= SEGMENT_SIZE
    requires m.regs[RDI] == Word(0, 0, x) && m.stack == st + [Ra(r)] && CellInRange(w.cfg, s.ram, x)
    requires w.cfg.Segmented() ==> Num(x) != SEGMENT_REGISTER
    ensures RunX(w, m, k) == Some(n) && Holds(w.cfg, s, n, core) && n.ip == r && n.stack == st
    ensures HasLow(n.regs[RAX]) && n.regs[RAX].l == s.ram[Cell(w.cfg, s.ram, x)] && n.regs[RSI] == m.regs[RSI]
  {
    hide Num, WordValue, Cell, StepX, Straight, ApplySegment, Do, Micros, CodeAt;
    var load := LoadL(RAX, Indexed(RAX, RDI));
    var q := RunAddress(w, s, x, m, core);
    DoMemory(w, load, q);
    Straight1(w, load, q);
    var t := Do(w, load, q).value;
    var head := [Lea(RAX, Data, 0)] + ApplySegment(w.cfg);
    StraightAppends(w, head, [load], m, q);
    assert ReadHelper(w.cfg) == (head + [load]) + [Ret];
    ApplySegmentIsStraight(w.cfg);
    StraightThenRet(w, head + [load], m, t, st, r);
    k := |head + [load]| + 1;
    n := t.(ip := r, stack := st, clock := t.clock + 1);
    HoldsUnderScratch(w.cfg, s, q, n, core);
  }

  lemma ApplySegmentIsStraight(cfg: Config)
    ensures NoControl(ApplySegment(cfg))
  {}

  lemma WriteHelperRuns(w: World, s: State, x: bv8, y: bv8, m: Machine, core: State, st: seq<Slot>, r: nat)
    returns (k: nat, n: Machine)
    requires CodeAt(w, m.ip, WriteHelper(w.cfg)) && Holds(w.cfg, s, m, core) && w.cfg.memorySize >= SEGMENT_SIZE
    requires m.regs[RDI] == Word(0, 0, x) && m.regs[RSI] == Word(0, 0, y) && m.stack == st + [Ra(r)]
    requires CellInRange(w.cfg, s.ram, x) && (w.cfg.Segmented() ==> Num(x) != SEGMENT_REGISTER)
    ensures RunX(w, m, k) == Some(n) && n.ip == r && n.stack == st
    ensures Holds(w.cfg, s.(ram := s.ram[Cell(w.cfg, s.ram, x) := y]), n, core)
  {
    hide Num, WordValue, Cell, StepX, Straight, ApplySegment, Do, Micros, Holds, CodeAt;
    var cell := Cell(w.cfg, s.ram, x);
    var mov, store := Mov64(RBX, RSI), StoreL(Indexed(RAX, RDI), RBX);
    HoldsIsPlain(w.cfg, s, m, core);
    var q := RunAddress(w, s, x, m, core);
    HoldsIsPlain(w.cfg, s, q, core);
    var t := RunStore(w, q, cell, y);
    var head := [Lea(RAX, Data, 0)] + ApplySegment(w.cfg);
    StraightAppends(w, head, [mov, store], m, q);
    assert WriteHelper(w.cfg) == (head + [mov, store]) + [Ret];
    ApplySegmentIsStraight(w.cfg);
    StraightThenRet(w, head + [mov, store], m, t, st, r);
    k := |head + [mov, store]| + 1;
    n := t.(ip := r, stack := st, clock := t.clock + 1);
    HoldsAfterStore(w.cfg, s, q, n, core, cell, y);
  }

  lemma RunStore(w: World, m: Machine, cell: nat, y: bv8) returns (n: Machine)
    requires Plain(m) && m.regs[RAX] == Ptr(Data, 0) && m.regs[RSI] == Word(0, 0, y)
    requires m.regs[RDI].Word? && WordValue(m.regs[RDI]) == cell < |m.data|
    ensures Straight(w, [Mov64(RBX, RSI), StoreL(Indexed(RAX, RDI), RBX)], m) == Some(n)
    ensures n == m.(regs := m.regs[RBX := Word(0, 0, y)], data := m.data[cell := y], ip := n.ip, clock := n.clock)
  {
    hide WordValue, Do;
    var mov, store := Mov64(RBX, RSI), StoreL(Indexed(RAX, RDI), RBX);
    DoMemory(w, mov, m);
    var v := Do(w, mov, m).value;
    DoMemory(w, store, v);
    n := Do(w, store, v).value;
    Straight2(w, mov, store, m);
  }

  lemma HoldsIsPlain(cfg: Config, s: State, m: Machine, core: State)
    requires Holds(cfg, s, m, core)
    ensures Plain(m) && !m.done && |m.data| == cfg.memorySize <= RAM_SIZE && m.corePtr == CoreRef
  {}

  lemma HoldsAfterStore(cfg: Config, s: State, m: Machine, n: Machine, core: State, cell: nat, y: bv8)
    requires Holds(cfg, s, m, core) && Plain(n) && cell < cfg.memorySize
    requires n == m.(regs := n.regs, stack := n.stack, ip := n.ip, clock := n.clock, data := m.data[cell := y])
    requires n.regs[8..] == m.regs[8..]
    ensures Holds(cfg, s.(ram := s.ram[cell := y]), n, core)
  {
    hide Micros;
    HoldsUnderScratch(cfg, s, m, n.(data := m.data), core);
    UpdatePrefix(s.ram, cfg.memorySize, cell, y);
    MicrosOnlyRegs(n, n.(data := m.data));
  }

  lemma MicrosOnlyRegs(m: Machine, n: Machine)
    requires Plain(m) && n.regs == m.regs
    ensures Micros(n) == Micros(m)
  {}

  lemma UpdatePrefix(ram: Ram, size: nat, cell: nat, y: bv8)
    requires cell < size <= RAM_SIZE
    ensures ram[cell := y][..size] == ram[..size][cell := y] && ram[cell := y][size..] == ram[size..]
  {}

  // ----- the segment register's own helpers

  lemma SegmentReadRuns(w: World, s: State, m: Machine, core: State, st: seq<Slot>, r: nat) returns (k: nat, n: Machine)
    requires CodeAt(w, m.ip, SegmentReadHelper()) && Holds(w.cfg, s, m, core) && w.cfg.memorySize >= SEGMENT_SIZE
    requires m.stack == st + [Ra(r)]
    ensures RunX(w, m, k) == Some(n) && Holds(w.cfg, s, n, core) && n.ip == r && n.stack == st
    ensures HasLow(n.regs[RAX]) && n.regs[RAX].l == s.ram[SEGMENT_REGISTER] && n.regs[RSI] == m.regs[RSI]
  {
    hide Num, CfOf, ZfOf, StepX, Straight;
    var i := LoadL(RAX, SegmentCell);
    Straight1(w, i, m);
    var p := Do(w, i, m).value;
    assert SegmentReadHelper() == [i] + [Ret];
    StraightThenRet(w, [i], m, p, st, r);
    k := 2;
    n := p.(ip := r, stack := st, clock := p.clock + 1);
    assert Micros(n) == Micros(m);
  }

  lemma SegmentWriteRuns(w: World, s: State, y: bv8, m: Machine, core: State, st: seq<Slot>, r: nat) returns (k: nat, n: Machine)
    requires CodeAt(w, m.ip, SegmentWriteHelper()) && Holds(w.cfg, s, m, core) && w.cfg.memorySize >= SEGMENT_SIZE
    requires m.stack == st + [Ra(r)] && m.regs[RSI] == Word(0, 0, y)
    ensures RunX(w, m, k) == Some(n) && n.ip == r && n.stack == st
    ensures Holds(w.cfg, s.(ram := s.ram[SEGMENT_REGISTER := y]), n, core)
  {
    hide Num, CfOf, ZfOf, StepX, Straight, Do, Micros, Holds;
    var i, j := Mov64(RAX, RSI), StoreL(SegmentCell, RAX);
    HoldsIsPlain(w.cfg, s, m, core);
    DoMemory(w, i, m);
    DoMemory(w, j, Do(w, i, m).value);
    Straight2(w, i, j, m);
    var p := Do(w, j, Do(w, i, m).value).value;
    assert SegmentWriteHelper() == [i, j] + [Ret];
    StraightThenRet(w, [i, j], m, p, st, r);
    k := 3;
    n := p.(ip := r, stack := st, clock := p.clock + 1);
    HoldsAfterStore(w.cfg, s, m, n, core, SEGMENT_REGISTER, y);
  }
}
