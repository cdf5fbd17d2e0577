/** The peripheral helpers, and the whole path of a dispatched load or store. */
module JitPeripherals {
  import opened Isa
  import opened Options
  import opened X86
  import opened JitCode
  import opened JitRegisters
  import opened JitLayout
  import opened JitBlocks
  import opened JitMemory

  // ----- saving micro registers around a host call

  lemma DoPush(w: World, r: Reg, m: Machine)
    requires |m.regs| == 16
    ensures Do(w, PushQ(r), m) == Some(Tick(Push(m, Q(m.regs[r])), m))
  {
    DoStack(w, PushQ(r), m);
  }

  lemma DoPop(w: World, r: Reg, st: seq<Slot>, v: Val, m: Machine)
    requires |m.regs| == 16 && m.stack == st + [Q(v)]
    ensures Do(w, PopQ(r), m) == Some(Tick(Put(m, r, v).(stack := st), m))
  {
    assert m.stack[..|m.stack| - 1] == st;
    DoStack(w, PopQ(r), m);
  }

  function Saved(regs: seq<Val>): seq<Slot>
    requires |regs| == 16
  {
    [Q(regs[RSI]), Q(regs[R8]), Q(regs[R9]), Q(regs[R10]), Q(regs[R11])]
  }

  lemma RunPushes(w: World, m: Machine) returns (n: Machine)
    requires |m.regs| == 16
    ensures Straight(w, PushRegisters(), m) == Some(n)
    ensures n == m.(stack := m.stack + Saved(m.regs), ip := n.ip, clock := n.clock)
  {
    hide Do, Straight;
    DoPush(w, RSI, m);
    var a := Do(w, PushQ(RSI), m).value;
    DoPush(w, R8, a);
    var b := Do(w, PushQ(R8), a).value;
    DoPush(w, R9, b);
    var c := Do(w, PushQ(R9), b).value;
    DoPush(w, R10, c);
    var d := Do(w, PushQ(R10), c).value;
    DoPush(w, R11, d);
    n := Do(w, PushQ(R11), d).value;
    Straight3(w, PushQ(RSI), PushQ(R8), PushQ(R9), m);
    Straight2(w, PushQ(R10), PushQ(R11), c);
    StraightAppends(w, [PushQ(RSI), PushQ(R8), PushQ(R9)], [PushQ(R10), PushQ(R11)], m, c);
    assert PushRegisters() == [PushQ(RSI), PushQ(R8), PushQ(R9)] + [PushQ(R10), PushQ(R11)];
    assert n.stack == m.stack + Saved(m.regs);
  }

  function Restored(regs: seq<Val>, saved: seq<Val>): seq<Val>
    requires |regs| == 16 && |saved| == 16
  {
    regs[R11 := saved[R11]][R10 := saved[R10]][R9 := saved[R9]][R8 := saved[R8]][RSI := saved[RSI]]
  }

  lemma RunPops(w: World, st: seq<Slot>, saved: seq<Val>, m: Machine) returns (n: Machine)
    requires |m.regs| == 16 && |saved| == 16 && m.stack == st + Saved(saved)
    ensures Straight(w, PopRegisters(), m) == Some(n)
    ensures n == m.(regs := Restored(m.regs, saved), stack := st, ip := n.ip, clock := n.clock)
  {
    hide Do, Straight;
    var s1 := st + [Q(saved[RSI])];
    var s2 := s1 + [Q(saved[R8])];
    var s3 := s2 + [Q(saved[R9])];
    var s4 := s3 + [Q(saved[R10])];
    assert m.stack == s4 + [Q(saved[R11])];
    DoPop(w, R11, s4, saved[R11], m);
    var a := Do(w, PopQ(R11), m).value;
    DoPop(w, R10, s3, saved[R10], a);
    var b := Do(w, PopQ(R10), a).value;
    DoPop(w, R9, s2, saved[R9], b);
    var c := Do(w, PopQ(R9), b).value;
    DoPop(w, R8, s1, saved[R8], c);
    var d := Do(w, PopQ(R8), c).value;
    DoPop(w, RSI, st, saved[RSI], d);
    n := Do(w, PopQ(RSI), d).value;
    Straight3(w, PopQ(R11), PopQ(R10), PopQ(R9), m);
    Straight2(w, PopQ(R8), PopQ(RSI), c);
    StraightAppends(w, [PopQ(R11), PopQ(R10), PopQ(R9)], [PopQ(R8), PopQ(RSI)], m, c);
    assert PopRegisters() == [PopQ(R11), PopQ(R10), PopQ(R9)] + [PopQ(R8), PopQ(RSI)];
  }

  // ----- the segment test in front of a peripheral helper

  predicate SegmentSet(cfg: Config, ram: Ram) {
    cfg.Segmented() && ram[SEGMENT_REGISTER] != 0
  }

  lemma DoTest(w: World, g: bv8, m: Machine)
    requires Plain(m) && m.regs[RAX] == Word(0, 0, g)
    ensures Do(w, AddZero(RAX), m).Some?
    ensures var n := Do(w, AddZero(RAX), m).value; SameButFlags(m, n) && (ZfOf(n.fl) <==> g == 0)
  {
    hide Do, FlagByte, CfOf, ZfOf, Num, WordValue;
    ByteWord(g);
    NumIsZero(g);
    DoByte(w, AddZero(RAX), m);
  }

  lemma RunSegmentTest(w: World, g: bv8, m: Machine) returns (n: Machine)
    requires Plain(m) && SEGMENT_REGISTER < |m.data| && m.data[SEGMENT_REGISTER] == g
    ensures Straight(w, [LoadL(RAX, SegmentCell), MovzxL(RAX, RAX), AddZero(RAX)], m) == Some(n)
    ensures n == m.(regs := m.regs[RAX := Word(0, 0, g)], ip := n.ip, clock := n.clock, fh := n.fh, fl := n.fl)
    ensures ZfOf(n.fl) <==> g == 0
  {
    hide Do, ZfOf;
    var load, widen, test := LoadL(RAX, SegmentCell), MovzxL(RAX, RAX), AddZero(RAX);
    DoMemory(w, load, m);
    var p := Do(w, load, m).value;
    DoByte(w, widen, p);
    var q := Do(w, widen, p).value;
    DoTest(w, g, q);
    n := Do(w, test, q).value;
    Straight3(w, load, widen, test, m);
    assert m.regs[RAX := p.regs[RAX]][RAX := Word(0, 0, g)] == m.regs[RAX := Word(0, 0, g)];
  }

  lemma StepAtJcc(w: World, m: Machine, cc: Cc, l: Label, k: nat)
    requires CodeAt(w, m.ip, [Jcc(cc, l)]) && |m.regs| == 16 && !m.done && LabelIndex(w, l) == Some(k)
    ensures StepX(w, m) == Some(m.(ip := if Taken(cc, m.fl) then k else m.ip + 1, clock := m.clock + 1))
  {
    hide LabelIndex, Taken;
    assert w.img.code[m.ip] == w.img.code[m.ip..m.ip + 1][0] == Jcc(cc, l);
  }

  /** With a segment selected control moves to the plain helper, otherwise it falls through. */
  lemma SegmentTestRuns(w: World, s: State, target: Label, t: nat, m: Machine, core: State) returns (k: nat, n: Machine)
    requires CodeAt(w, m.ip, SkipIfSegment(w.cfg, target)) && LabelIndex(w, target) == Some(t)
    requires Holds(w.cfg, s, m, core) && w.cfg.memorySize >= SEGMENT_SIZE
    ensures RunX(w, m, k) == Some(n) && Holds(w.cfg, s, n, core)
    ensures n.ip == if SegmentSet(w.cfg, s.ram) then t else m.ip + |SkipIfSegment(w.cfg, target)|
    ensures n.stack == m.stack && n.regs[1..] == m.regs[1..]
  {
    hide Do, Straight, StepX, Micros, LabelIndex, CodeAt, CfOf;
    if w.cfg.Segmented() {
      var g := s.ram[SEGMENT_REGISTER];
      assert m.data[SEGMENT_REGISTER] == g;
      var test := [LoadL(RAX, SegmentCell), MovzxL(RAX, RAX), AddZero(RAX)];
      var p := RunSegmentTest(w, g, m);
      assert SkipIfSegment(w.cfg, target) == test + [Jcc(NE, target)];
      CodeSplits(w, m.ip, test, [Jcc(NE, target)]);
      StraightRuns(w, test, m, p);
      StepAtJcc(w, p, NE, target, t);
      n := p.(ip := if Taken(NE, p.fl) then t else p.ip + 1, clock := p.clock + 1);
      RunsOnce(w, p, n);
      RunXAdds(w, m, 3, p, 1);
      k := 4;
      HoldsUnderScratch(w.cfg, s, m, n, core);
    } else {
      k, n := 0, m;
    }
  }

  // ----- host calls

  lemma StepAtHostCall(w: World, f: HostFn, m: Machine)
    requires CodeAt(w, m.ip, [CallR(RAX)]) && |m.regs| == 16 && !m.done && m.regs[RAX] == Fn(f)
    requires HostCall(w, f, m).Some?
    ensures StepX(w, m) == Some(HostCall(w, f, m).value.(ip := m.ip + 1, clock := m.clock + 1))
  {
    hide HostCall;
    assert w.img.code[m.ip] == w.img.code[m.ip..m.ip + 1][0] == CallR(RAX);
  }

  lemma ClobberKeeps(w: World, m: Machine)
    requires Plain(m)
    ensures Plain(Clobber(w, m)) && Clobber(w, m).regs[RDI].Word?
    ensures Clobber(w, m).regs[3] == m.regs[3] && Clobber(w, m).regs[12..] == m.regs[12..]
  {
    var n := Clobber(w, m);
    assert forall r :: 0 <= r < 16 && !CallerSaved(r) ==> n.regs[r] == m.regs[r];
    assert forall r :: 0 <= r < 16 && CallerSaved(r) ==> n.regs[r].Word?;
  }

  /** State after a peripheral answered a read, without the register write. */
  function AfterRead(cfg: Config, dev: Device, s: State, x: bv8): State {
    if HitsPeripheral(cfg, s.ram, Num(x)) then s.(trace := s.trace + [PeripheralRead(Num(x), dev(s.trace, Num(x)))]) else s
  }

  /** The byte a load delivers. */
  function ReadValue(cfg: Config, dev: Device, s: State, x: bv8): bv8 {
    if HitsPeripheral(cfg, s.ram, Num(x)) then dev(s.trace, Num(x)) else s.ram[Cell(cfg, s.ram, x)]
  }

  lemma LoadIsReadThenWrite(cfg: Config, dev: Device, s: State, mask: bv8, x: bv8)
    ensures var t := AfterRead(cfg, dev, s, x);
            Load(cfg, dev, s, mask, x) == t.(regs := WriteSet(t.regs, mask, ReadValue(cfg, dev, s, x)))
  {
    hide WriteSet, Num;
  }

  lemma HostReads(w: World, x: bv8, m: Machine)
    requires Plain(m) && m.regs[RDI] == CoreRef && m.regs[RSI] == Word(0, 0, x) && |m.data| <= RAM_SIZE
    requires Num(x) in w.cfg.peripherals
    ensures var v := w.dev(m.core.trace, Num(x));
            HostCall(w, ReadPeripheral, m) ==
            Some(Put(Clobber(w, m.(core := m.core.(trace := m.core.trace + [PeripheralRead(Num(x), v)]))), RAX, Word(0, 0, v)))
  {
    hide Clobber, Num;
    ByteWord(x);
  }

  lemma HostWrites(w: World, x: bv8, y: bv8, m: Machine)
    requires Plain(m) && m.regs[RDI] == CoreRef && m.regs[RSI] == Word(0, 0, x) && m.regs[RDX] == Word(0, 0, y)
    requires |m.data| <= RAM_SIZE && Num(x) in w.cfg.peripherals
    ensures HostCall(w, WritePeripheral, m) ==
            Some(Clobber(w, m.(core := m.core.(trace := m.core.trace + [PeripheralWrite(Num(x), y)]))))
  {
    hide Clobber, Num;
    ByteWord(x);
  }

  /** After the pops every micro register and SI is back, whatever the host did to them. */
  lemma RestoredRegisters(regs: seq<Val>, saved: seq<Val>)
    requires |regs| == 16 && |saved| == 16 && regs[12..] == saved[12..]
    ensures |Restored(regs, saved)| == 16
    ensures Restored(regs, saved)[8..] == saved[8..] && Restored(regs, saved)[RSI] == saved[RSI]
    ensures forall r :: 0 <= r < 8 && r != RSI ==> Restored(regs, saved)[r] == regs[r]
  {
    forall r | 12 <= r < 16 ensures regs[r] == saved[r] {
      assert regs[12..][r - 12] == saved[12..][r - 12];
    }
  }

  lemma HoldsAfterEvent(cfg: Config, s: State, m: Machine, n: Machine, core: State, e: Event)
    requires Holds(cfg, s, m, core) && Plain(n)
    requires n == m.(regs := n.regs, stack := n.stack, ip := n.ip, clock := n.clock, fh := n.fh, fl := n.fl,
                     core := m.core.(trace := m.core.trace + [e]))
    requires n.regs[8..] == m.regs[8..]
    ensures Holds(cfg, s.(trace := s.trace + [e]), n, core)
  {
    hide Micros;
    HoldsUnderScratch(cfg, s, m, n.(core := m.core), core);
    MicrosOnlyRegs(n, n.(core := m.core));
  }

  /** From the pushes to the return: one peripheral event, registers and stack restored. */
  lemma PeripheralCallRuns(w: World, s: State, f: HostFn, x: bv8, y: bv8, m: Machine, core: State, st: seq<Slot>, r: nat)
    returns (k: nat, n: Machine)
    requires f == ReadPeripheral || f == WritePeripheral
    requires CodeAt(w, m.ip, PushRegisters() + Arguments(f) + [CallR(RAX)] + (PopRegisters() + [Ret]))
    requires Holds(w.cfg, s, m, core) && m.regs[RDI] == Word(0, 0, x) && m.stack == st + [Ra(r)]
    requires f == WritePeripheral ==> m.regs[RSI] == Word(0, 0, y)
    requires Num(x) in w.cfg.peripherals
    ensures RunX(w, m, k) == Some(n) && n.ip == r && n.stack == st && |n.regs| == 16 && n.regs[RSI] == m.regs[RSI]
    ensures f == ReadPeripheral ==>
              var v := w.dev(s.trace, Num(x));
              HasLow(n.regs[RAX]) && n.regs[RAX].l == v &&
              Holds(w.cfg, s.(trace := s.trace + [PeripheralRead(Num(x), v)]), n, core)
    ensures f == WritePeripheral ==> Holds(w.cfg, s.(trace := s.trace + [PeripheralWrite(Num(x), y)]), n, core)
  {
    hide Do, Straight, StepX, Micros, CodeAt, Clobber, Num, HostCall, Restored, Holds;
    HoldsIsPlain(w.cfg, s, m, core);
    HoldsTrace(w.cfg, s, m, core);
    CodeSplits(w, m.ip, PushRegisters() + Arguments(f) + [CallR(RAX)], PopRegisters() + [Ret]);
    CodeSplits(w, m.ip, PushRegisters() + Arguments(f), [CallR(RAX)]);
    var p := RunPushes(w, m);
    var q := RunArguments(w, f, x, y, p);
    StraightAppends(w, PushRegisters(), Arguments(f), m, p);
    StraightRuns(w, PushRegisters() + Arguments(f), m, q);
    var i := |PushRegisters() + Arguments(f)|;
    var v := w.dev(s.trace, Num(x));
    var e := if f == ReadPeripheral then PeripheralRead(Num(x), v) else PeripheralWrite(Num(x), y);
    var called := q.(core := q.core.(trace := q.core.trace + [e]));
    if f == ReadPeripheral {
      HostReads(w, x, q);
    } else {
      HostWrites(w, x, y, q);
    }
    ClobberKeeps(w, called);
    ClobberOnlyRegisters(w, called);
    StepAtHostCall(w, f, q);
    var h := StepX(w, q).value;
    RunsOnce(w, q, h);
    RunXAdds(w, m, i, q, 1);
    var t := RunPops(w, st + [Ra(r)], m.regs, h);
    Tails(called.regs, m.regs);
    RestoredRegisters(h.regs, m.regs);
    PopsAreStraight();
    StraightThenRet(w, PopRegisters(), h, t, st, r);
    RunXAdds(w, m, i + 1, h, |PopRegisters()| + 1);
    k := i + 1 + (|PopRegisters()| + 1);
    n := t.(ip := r, stack := st, clock := t.clock + 1);
    HoldsAfterEvent(w.cfg, s, m, n, core, e);
  }

  lemma PopsAreStraight()
    ensures NoControl(PopRegisters())
  {}

  function Arguments(f: HostFn): seq<Ins> {
    (if f == WritePeripheral then [Mov64(RDX, RSI)] else []) + [Mov64(RSI, RDI), MovFn(RAX, f), LoadCore(RDI)]
  }

  lemma HoldsTrace(cfg: Config, s: State, m: Machine, core: State)
    requires Holds(cfg, s, m, core)
    ensures m.core.trace == s.trace
  {}

  lemma Tails(a: seq<Val>, b: seq<Val>)
    requires |a| == 16 && |b| == 16 && a[8..] == b[8..]
    ensures a[12..] == b[12..]
  {
    assert a[12..] == a[8..][4..];
    assert b[12..] == b[8..][4..];
  }

  lemma ClobberOnlyRegisters(w: World, m: Machine)
    requires |m.regs| == 16
    ensures var n := Clobber(w, m); n == m.(regs := n.regs, fh := n.fh, fl := n.fl)
  {}

  lemma RunArguments(w: World, f: HostFn, x: bv8, y: bv8, m: Machine) returns (n: Machine)
    requires Plain(m) && m.regs[RDI] == Word(0, 0, x) && m.corePtr == CoreRef
    requires f == WritePeripheral ==> m.regs[RSI] == Word(0, 0, y)
    ensures Straight(w, Arguments(f), m) == Some(n) && n == m.(regs := n.regs, ip := n.ip, clock := n.clock)
    ensures n.regs == (if f == WritePeripheral then m.regs[RDX := Word(0, 0, y)] else m.regs)
                      [RSI := Word(0, 0, x)][RAX := Fn(f)][RDI := CoreRef]
    ensures Plain(n) && n.regs[8..] == m.regs[8..]
  {
    hide Do, Straight;
    var a := m;
    if f == WritePeripheral {
      DoMemory(w, Mov64(RDX, RSI), m);
      Straight1(w, Mov64(RDX, RSI), m);
      a := Do(w, Mov64(RDX, RSI), m).value;
    } else {
      EmptyStraight(w, m);
    }
    DoMemory(w, Mov64(RSI, RDI), a);
    var b := Do(w, Mov64(RSI, RDI), a).value;
    DoMemory(w, MovFn(RAX, f), b);
    var c := Do(w, MovFn(RAX, f), b).value;
    DoMemory(w, LoadCore(RDI), c);
    n := Do(w, LoadCore(RDI), c).value;
    Straight3(w, Mov64(RSI, RDI), MovFn(RAX, f), LoadCore(RDI), a);
    StraightAppends(w, if f == WritePeripheral then [Mov64(RDX, RSI)] else [], [Mov64(RSI, RDI), MovFn(RAX, f), LoadCore(RDI)], m, a);
  }

  lemma EmptyStraight(w: World, m: Machine)
    ensures Straight(w, [], m) == Some(m)
  {}

  // ----- through the tables

  /** The accesses on which tables and interpreter agree: a cell of the configured memory, and not the
      combination of a selected-out segment register with a peripheral mapped onto its own address. */
  predicate AccessOk(cfg: Config, ram: Ram, x: bv8) {
    && !SegmentShadowsPeripheral(cfg, ram, x)
    && (HitsPeripheral(cfg, ram, Num(x)) || CellInRange(cfg, ram, x))
  }

  predicate SegmentShadowsPeripheral(cfg: Config, ram: Ram, x: bv8) {
    cfg.Segmented() && ram[SEGMENT_REGISTER] == 0 && Num(x) == SEGMENT_REGISTER && SEGMENT_REGISTER in cfg.peripherals
  }

  /** Does the helper behind a table entry hand the access to the host? */
  predicate ReachesHost(cfg: Config, ram: Ram, helper: Label) {
    (helper == PeripheralReadFn || helper == PeripheralWriteFn) && !SegmentSet(cfg, ram)
  }

  /** Tables and interpreter send an access to the same place exactly when the segment register does not
      shadow a peripheral. */
  lemma TablesAgreeExactly(cfg: Config, ram: Ram, x: bv8)
    ensures (ReachesHost(cfg, ram, ReadTarget(cfg, Num(x))) <==> HitsPeripheral(cfg, ram, Num(x))) <==>
            !SegmentShadowsPeripheral(cfg, ram, x)
    ensures (ReachesHost(cfg, ram, WriteTarget(cfg, Num(x))) <==> HitsPeripheral(cfg, ram, Num(x))) <==>
            !SegmentShadowsPeripheral(cfg, ram, x)
  {
    hide Num;
  }

  /** A call into a memory table pushes the return address and reaches the helper that serves the address. */
  lemma CallThroughTable(u: Unit, w: World, map_: Label, x: bv8, m: Machine) returns (k: nat, n: Machine)
    requires u.Compiles() && Loaded(u, w) && Complex(u.cfg) && (map_ == ReadMap || map_ == WriteMap)
    requires CodeAt(w, m.ip, [CallR(RAX)]) && |m.regs| == 16 && !m.done && m.regs[RAX] == Ptr(map_, ENTRY_SIZE * Num(x))
    ensures var l := if map_ == ReadMap then ReadTarget(u.cfg, Num(x)) else WriteTarget(u.cfg, Num(x));
            && LabelIndex(w, l) == Some(n.ip) && CodeAt(w, n.ip, HelperCode(u.cfg, l))
    ensures RunX(w, m, 2) == Some(n) && n == m.(ip := n.ip, clock := n.clock, stack := m.stack + [Ra(m.ip + 1)])
  {
    hide Loaded, u.Compiles, Complex, StepX, HelperCode, Address, LabelIndex, Num;
    MemoryTablesAre(u, w, Num(x));
    var l := if map_ == ReadMap then ReadTarget(u.cfg, Num(x)) else WriteTarget(u.cfg, Num(x));
    var h := HelperIsThere(u, w, l);
    var e := Address(w, map_, ENTRY_SIZE * Num(x)).value;
    StepAtCall(w, m, map_, ENTRY_SIZE * Num(x), e);
    var p := m.(stack := m.stack + [Ra(m.ip + 1)], ip := e, clock := m.clock + 1);
    StepAtJmp(w, p, l, h);
    n := p.(ip := h, clock := p.clock + 1);
    RunsTwice(w, m, p, n);
    k := 2;
  }

  lemma StepAtCall(w: World, m: Machine, l: Label, off: nat, e: nat)
    requires CodeAt(w, m.ip, [CallR(RAX)]) && |m.regs| == 16 && !m.done && m.regs[RAX] == Ptr(l, off)
    requires Address(w, l, off) == Some(e)
    ensures StepX(w, m) == Some(m.(stack := m.stack + [Ra(m.ip + 1)], ip := e, clock := m.clock + 1))
  {
    hide Address;
    assert w.img.code[m.ip] == w.img.code[m.ip..m.ip + 1][0] == CallR(RAX);
  }
}
