/** The interpreter: `run` executes instructions in a loop with a budget, breakpoints and a standby field. */
module Interpreter {
  import opened Isa
  import opened Arithmetic

  const STANDBY_FIELD: bv8 := 0xE0
  const STANDBY_ONE: bv8 := 0x20

  predicate Standby(ctr: bv8) {
    ctr & STANDBY_FIELD != 0
  }

  function ClearStandby(ctr: bv8): bv8 {
    ctr & !STANDBY_FIELD
  }

  function HaltStandby(ctr: bv8): bv8 {
    ClearStandby(ctr) | STANDBY_ONE
  }

  /** The machine a run drives: program, memory configuration and peripherals. */
  datatype Setup = Setup(cfg: Config, dev: Device, rom: seq<Instr>) {
    function Next(s: State): State
      requires s.pc < |rom|
    {
      Step(cfg, dev, rom, s)
    }

    predicate Stopped(s: State) {
      s.pc >= |rom| || Standby(s.ctr)
    }

    /** k instructions, or fewer if the machine stops on the way. */
    function StepN(k: nat, s: State): State {
      if k == 0 || Stopped(s) then s else StepN(k - 1, Next(s))
    }

    /** The loop of `run` after `executed` instructions. */
    function Loop(breakpoints: set<nat>, budget: nat, executed: nat, s: State): State
      decreases budget
    {
      if budget == 0 || Standby(s.ctr) then s
      else if s.pc >= |rom| then s.(ctr := HaltStandby(s.ctr))
      else if s.pc in breakpoints && executed > 0 then s
      else Loop(breakpoints, budget - 1, executed + 1, Next(s))
    }

    function Run(breakpoints: set<nat>, budget: nat, s: State): State {
      Loop(breakpoints, budget, 0, Awake(s))
    }

    /** How many instructions that loop executes. */
    function LoopLength(breakpoints: set<nat>, budget: nat, executed: nat, s: State): (k: nat)
      ensures k <= budget
      decreases budget
    {
      if budget == 0 || Stopped(s) || (s.pc in breakpoints && executed > 0) then 0
      else 1 + LoopLength(breakpoints, budget - 1, executed + 1, Next(s))
    }

    function RunLength(breakpoints: set<nat>, budget: nat, s: State): nat {
      LoopLength(breakpoints, budget, 0, Awake(s))
    }

    /** One `run` call after another, with the given budgets. */
    function RunAll(breakpoints: set<nat>, budgets: seq<nat>, s: State): State {
      if budgets == [] then s else RunAll(breakpoints, budgets[1..], Run(breakpoints, budgets[0], s))
    }

    function RunAllLength(breakpoints: set<nat>, budgets: seq<nat>, s: State): nat {
      if budgets == [] then 0
      else RunLength(breakpoints, budgets[0], s) + RunAllLength(breakpoints, budgets[1..], Run(breakpoints, budgets[0], s))
    }

    predicate CtrFree() {
      forall i :: 0 <= i < |rom| ==> rom[i].op != Ctr
    }
  }

  function Awake(s: State): State {
    s.(ctr := ClearStandby(s.ctr))
  }

  lemma AwakeIsAwake(s: State)
    ensures !Standby(Awake(s).ctr) && Awake(Awake(s)) == Awake(s)
    ensures Awake(s.(ctr := HaltStandby(s.ctr))) == Awake(s) && Standby(HaltStandby(s.ctr))
  {}

  /** The standby field is the top three bits, a number up to seven; the rest of the control byte stays. */
  lemma StandbyFieldMeans(ctr: bv8)
    ensures Standby(ctr) <==> Num(ctr) / 32 != 0
    ensures Num(ClearStandby(ctr)) == Num(ctr) % 32
    ensures Num(HaltStandby(ctr)) == 32 + Num(ctr) % 32
  {}

  /** Equal in everything but the control byte. */
  predicate SameCore(s: State, t: State) {
    s.(ctr := 0) == t.(ctr := 0)
  }

  // ----- what a run visits

  lemma MemoryIgnoresCtr(cfg: Config, dev: Device, s: State, t: State, mask: bv8, address: bv8, v: bv8)
    requires SameCore(s, t)
    ensures SameCore(Load(cfg, dev, s, mask, address), Load(cfg, dev, t, mask, address))
    ensures SameCore(Store(cfg, s, address, v), Store(cfg, t, address, v))
  {
    hide WriteSet, Cell, Num;
  }

  lemma EffectIgnoresCtr(cfg: Config, dev: Device, i: Instr, s: State, t: State)
    requires SameCore(s, t)
    ensures SameCore(Effect(cfg, dev, i, s), Effect(cfg, dev, i, t))
  {
    hide ReadSet, WriteSet, Alu, ControlByte, Load, Store, Wide, Minus, Borrow, Effect;
    if i.op == Ldm || i.op == Stm {
      EffectByOperation(cfg, dev, i, s);
      EffectByOperation(cfg, dev, i, t);
      MemoryIgnoresCtr(cfg, dev, s, t, i.a, ReadSet(s.regs, i.b), 0);
      MemoryIgnoresCtr(cfg, dev, s, t, 0, ReadSet(s.regs, i.a), ReadSet(s.regs, i.b));
    } else {
      CoreEffectIgnoresCtr(cfg, dev, i, s, t.ctr);
      assert t == s.(ctr := t.ctr);
    }
  }

  lemma CoreEffectIgnoresCtr(cfg: Config, dev: Device, i: Instr, s: State, ctr: bv8)
    requires i.op != Ldm && i.op != Stm
    ensures SameCore(Effect(cfg, dev, i, s), Effect(cfg, dev, i, s.(ctr := ctr)))
  {
    hide ReadSet, WriteSet, Alu, ControlByte, Load, Store, Wide, Minus, Borrow;
  }

  lemma StepIgnoresCtr(m: Setup, s: State, t: State)
    requires s.pc < |m.rom| && SameCore(s, t)
    ensures SameCore(m.Next(s), m.Next(t))
  {
    hide Effect, CheckFlags;
    var next := NextPc(s.pc);
    EffectIgnoresCtr(m.cfg, m.dev, m.rom[s.pc], s.(pc := next), t.(pc := next));
  }

  lemma StepKeepsCtr(m: Setup, s: State)
    requires s.pc < |m.rom| && m.rom[s.pc].op != Ctr
    ensures m.Next(s).ctr == s.ctr
  {}

  /** A run stops where stepping alone would be after RunLength instructions; it stops early only because the
      machine stopped or because it has reached a breakpoint that is not where it began. */
  lemma {:induction false} LoopIsStepping(m: Setup, breakpoints: set<nat>, budget: nat, executed: nat, s: State)
    ensures var k := m.LoopLength(breakpoints, budget, executed, s);
            var t := m.StepN(k, s);
            && SameCore(m.Loop(breakpoints, budget, executed, s), t)
            && (k < budget ==> m.Stopped(t) || (t.pc in breakpoints && executed + k > 0))
            && (forall j :: 0 <= j < k && executed + j > 0 ==> m.StepN(j, s).pc !in breakpoints)
    decreases budget
  {
    if !(budget == 0 || m.Stopped(s) || (s.pc in breakpoints && executed > 0)) {
      var n := m.Next(s);
      LoopIsStepping(m, breakpoints, budget - 1, executed + 1, n);
      var k := m.LoopLength(breakpoints, budget, executed, s);
      forall j | 0 <= j < k && executed + j > 0 ensures m.StepN(j, s).pc !in breakpoints {
        if j > 0 {
          assert m.StepN(j, s) == m.StepN(j - 1, n);
          assert executed + 1 + (j - 1) > 0;
        }
      }
    }
  }

  lemma {:induction false} StepNAdds(m: Setup, i: nat, j: nat, s: State)
    ensures m.StepN(i + j, s) == m.StepN(j, m.StepN(i, s))
  {
    hide Step, Standby;
    if i > 0 && !m.Stopped(s) {
      StepNAdds(m, i - 1, j, m.Next(s));
    } else if m.Stopped(s) {
    }
  }

  lemma {:induction false} CtrFreeStepN(m: Setup, k: nat, s: State, t: State)
    requires m.CtrFree() && SameCore(s, t) && !Standby(s.ctr) && !Standby(t.ctr)
    ensures SameCore(m.StepN(k, s), m.StepN(k, t))
    ensures m.StepN(k, s).ctr == s.ctr
  {
    if k > 0 && !m.Stopped(s) {
      StepIgnoresCtr(m, s, t);
      StepKeepsCtr(m, s);
      StepKeepsCtr(m, t);
      CtrFreeStepN(m, k - 1, m.Next(s), m.Next(t));
    }
  }

  /** Breakpoints only cut a run into pieces: a series of `run` calls, with any breakpoints and any budgets,
      ends where plain stepping ends after as many instructions as the calls executed together. */
  lemma {:induction false} BreakpointsAreTransparent(m: Setup, breakpoints: set<nat>, budgets: seq<nat>, s: State)
    requires m.CtrFree()
    ensures SameCore(m.RunAll(breakpoints, budgets, s), m.StepN(m.RunAllLength(breakpoints, budgets, s), Awake(s)))
    decreases |budgets|
  {
    AwakeIsAwake(s);
    if budgets != [] {
      var k := m.RunLength(breakpoints, budgets[0], s);
      var mid := m.Run(breakpoints, budgets[0], s);
      var rest := m.RunAllLength(breakpoints, budgets[1..], mid);
      LoopIsStepping(m, breakpoints, budgets[0], 0, Awake(s));
      BreakpointsAreTransparent(m, breakpoints, budgets[1..], mid);
      var t := m.StepN(k, Awake(s));
      CtrFreeStepN(m, k, Awake(s), Awake(s));
      AwakeIsAwake(mid);
      CtrFreeStepN(m, rest, Awake(mid), t);
      StepNAdds(m, k, rest, Awake(s));
    }
  }

  /** Every call with a budget makes progress unless the program has ended. */
  lemma RunMakesProgress(m: Setup, breakpoints: set<nat>, budget: nat, s: State)
    requires budget > 0 && s.pc < |m.rom|
    ensures m.RunLength(breakpoints, budget, s) > 0
  {
    AwakeIsAwake(s);
  }

  /** A run that falls off the program leaves one in the standby field and nothing else behind. */
  lemma {:induction false} HaltLeavesOne(m: Setup, breakpoints: set<nat>, budget: nat, executed: nat, s: State)
    requires var k := m.LoopLength(breakpoints, budget, executed, s);
             var t := m.StepN(k, s);
             k < budget && t.pc >= |m.rom| && !Standby(t.ctr)
    ensures var t := m.StepN(m.LoopLength(breakpoints, budget, executed, s), s);
            var h := m.Loop(breakpoints, budget, executed, s);
            h == t.(ctr := h.ctr) && Num(h.ctr) == 32 + Num(t.ctr) % 32
    decreases budget
  {
    hide Apply, Standby, HaltStandby, ClearStandby, Num;
    if !(m.Stopped(s) || (s.pc in breakpoints && executed > 0)) {
      HaltLeavesOne(m, breakpoints, budget - 1, executed + 1, m.Next(s));
    } else {
      StandbyFieldMeans(s.ctr);
    }
  }

  // ----- splitting a budget

  lemma {:induction false} LoopSplits(m: Setup, i: nat, j: nat, e: nat, s: State)
    requires !m.Stopped(m.Loop({}, i, e, s)) || m.Loop({}, i, e, s).pc >= |m.rom|
    requires !Standby(s.ctr)
    ensures SameCore(m.Run({}, j, m.Loop({}, i, e, s)), m.Loop({}, i + j, e, s))
    decreases i
  {
    hide Apply, Standby, ClearStandby, HaltStandby;
    AwakeIsAwake(s);
    var mid := m.Loop({}, i, e, s);
    if i == 0 {
      assert Awake(s) == s by { ClearIsIdentity(s.ctr); }
      LoopIgnoresExecuted(m, j, 0, e, s);
    } else if s.pc >= |m.rom| {
    } else {
      var n := m.Next(s);
      if Standby(n.ctr) {
        assert mid == n;
        assert n.pc >= |m.rom|;
      } else {
        LoopSplits(m, i - 1, j, e + 1, n);
      }
    }
  }

  lemma ClearIsIdentity(ctr: bv8)
    requires !Standby(ctr)
    ensures ClearStandby(ctr) == ctr
  {}

  lemma {:induction false} LoopIgnoresExecuted(m: Setup, budget: nat, e: nat, f: nat, s: State)
    ensures m.Loop({}, budget, e, s) == m.Loop({}, budget, f, s)
    decreases budget
  {
    if !(budget == 0 || m.Stopped(s)) {
      LoopIgnoresExecuted(m, budget - 1, e + 1, f + 1, m.Next(s));
    }
  }

  /** Without breakpoints `run(i); run(j)` is `run(i + j)`, unless a control instruction put the machine
      into standby in the first call with program left to execute. */
  lemma RunsCompose(m: Setup, i: nat, j: nat, s: State)
    requires var mid := m.Run({}, i, s); !Standby(mid.ctr) || mid.pc >= |m.rom|
    ensures SameCore(m.Run({}, j, m.Run({}, i, s)), m.Run({}, i + j, s))
  {
    AwakeIsAwake(s);
    LoopSplits(m, i, j, 0, Awake(s));
  }

  lemma {:induction false} StandbyStaysStopped(m: Setup, i: nat, j: nat, e: nat, s: State)
    requires Standby(m.Loop({}, i, e, s).ctr) && m.Loop({}, i, e, s).pc < |m.rom|
    ensures m.Loop({}, i + j, e, s) == m.Loop({}, i, e, s)
    decreases i
  {
    hide Apply, Standby, HaltStandby;
    if i > 0 && !Standby(s.ctr) && s.pc < |m.rom| {
      StandbyStaysStopped(m, i - 1, j, e + 1, m.Next(s));
    }
  }

  /** Splitting a budget changes nothing exactly if the first call did not end in standby, or nothing is left to
      resume: no budget, no program, or instructions that lead back to where they started. */
  lemma RunsComposeExactly(m: Setup, i: nat, j: nat, s: State)
    ensures var mid := m.Run({}, i, s);
            SameCore(m.Run({}, j, mid), m.Run({}, i + j, s)) <==>
            !Standby(mid.ctr) || j == 0 || mid.pc >= |m.rom| || SameCore(m.StepN(j, Awake(mid)), mid)
  {
    hide Standby, Apply;
    var mid := m.Run({}, i, s);
    if !Standby(mid.ctr) || mid.pc >= |m.rom| {
      RunsCompose(m, i, j, s);
    } else {
      StandbyStaysStopped(m, i, j, 0, Awake(s));
      LoopWithoutBreakpoints(m, j, 0, Awake(mid));
      assert SameCore(mid, Awake(mid));
    }
  }

  lemma {:induction false} LoopWithoutBreakpoints(m: Setup, budget: nat, e: nat, s: State)
    ensures SameCore(m.Loop({}, budget, e, s), m.StepN(budget, s))
    decreases budget
  {
    if !(budget == 0 || m.Stopped(s)) {
      LoopWithoutBreakpoints(m, budget - 1, e + 1, m.Next(s));
    }
  }

  /** With one instruction left in the budget, splitting changes nothing exactly if that instruction is a jump to
      itself that is taken. */
  lemma ResumingOnce(m: Setup, i: nat, s: State)
    requires var mid := m.Run({}, i, s); Standby(mid.ctr) && mid.pc < |m.rom| < 65536
    ensures var mid := m.Run({}, i, s);
            var here := m.rom[mid.pc];
            SameCore(m.Run({}, 1, mid), m.Run({}, i + 1, s)) <==>
            CheckFlags(here.cond, mid.cf, mid.zf) &&
            ((here.op == Jpi && Wide(here.a, here.b) == mid.pc) ||
             (here.op == Jpr && Wide(ReadSet(mid.regs, here.a), ReadSet(mid.regs, here.b)) == mid.pc))
  {
    hide Standby, ClearStandby, CheckFlags, ReadSet, Wide, WriteSet, Load, Store, Alu, ControlByte, CompareAndStore;
    var mid := m.Run({}, i, s);
    RunsComposeExactly(m, i, 1, s);
    AwakeIsAwake(mid);
    assert m.StepN(1, Awake(mid)) == m.StepN(0, m.Next(Awake(mid)));
    MemoryKeepsPc(m.cfg, m.dev, m.rom[mid.pc], Awake(mid).(pc := NextPc(mid.pc)));
  }

  lemma MemoryKeepsPc(cfg: Config, dev: Device, i: Instr, s: State)
    ensures i.op != Jpi && i.op != Jpr ==> Effect(cfg, dev, i, s).pc == s.pc
  {
    hide ReadSet, WriteSet, Cell, Num, Alu, ControlByte, Wide, Minus, Borrow;
  }

  /** An instance: `run` clears standby, so the second call resumes behind the control instruction. */
  lemma StandbyBreaksComposition(m: Setup, s: State)
    requires m.rom == [Instr(Ctr, COND_T, 1, 0xFF), Instr(Set, COND_T, 2, 7)]
    requires s.pc == 0 && s.regs == [0x20, 0, 0, 0, 0, 0, 0, 0] && s.ctr == 0
    ensures Standby(m.Run({}, 1, s).ctr)
    ensures !SameCore(m.Run({}, 1, m.Run({}, 1, s)), m.Run({}, 2, s))
  {
    var x := ReadSet(s.regs, 1);
    assert x == 0x20 by {
      OrTree(Picks(s.regs, 1));
    }
    var s1 := m.Next(s);
    assert s1 == s.(pc := 1, ctr := ControlByte(0, x, 0xFF));
    assert m.Loop({}, 1, 0, s) == s1 && m.Loop({}, 2, 0, s) == s1;
    var s2 := m.Next(Awake(s1));
    assert m.Loop({}, 1, 0, Awake(s1)) == s2;
    assert s2.pc == 2;
  }

  /** The rows of the effect table that are not a plain arithmetic write, a jump or a control write. */
  lemma EffectByOperation(cfg: Config, dev: Device, i: Instr, s: State)
    ensures i.op == Ext ==> Effect(cfg, dev, i, s) == s
    ensures i.op == Set ==> Effect(cfg, dev, i, s) == s.(regs := WriteSet(s.regs, i.a, i.b))
    ensures i.op == Cid ==> Effect(cfg, dev, i, s) == s.(regs := WriteSet(s.regs, CID_REGISTERS, 0))
    ensures i.op == Ldm ==> Effect(cfg, dev, i, s) == Load(cfg, dev, s, i.a, ReadSet(s.regs, i.b))
    ensures i.op == Stm ==> Effect(cfg, dev, i, s) == Store(cfg, s, ReadSet(s.regs, i.a), ReadSet(s.regs, i.b))
    ensures i.op == Cmp ==> Effect(cfg, dev, i, s) == CompareAndStore(s, i.a, ReadSet(s.regs, i.a), ReadSet(s.regs, i.b))
  {
    hide ReadSet, WriteSet, Load, Store, CompareAndStore, ControlByte, Alu, Wide;
  }

  // ----- the flags of a comparison

  function Difference(x: bv8, y: bv8): int {
    Num(x) - Num(y)
  }

  /** A small signed value reinterpreted as 64 unsigned bits. */
  function AsUnsigned64(d: int): int {
    if d < 0 then d + 0x1_0000_0000_0000_0000 else d
  }

  /** It fits 64 bits and differs from the value by a multiple of two to the 64. */
  lemma ReinterpretedIs(d: int)
    requires -256 < d < 256
    ensures 0 <= AsUnsigned64(d) < 18446744073709551616 && (AsUnsigned64(d) - d) % 18446744073709551616 == 0
  {}

  /** Bits 8 and up of the 64-bit difference are the borrow of the byte subtraction, and its low byte is the
      difference modulo 256. */
  lemma DifferenceFlags(x: bv8, y: bv8)
    ensures AsUnsigned64(Difference(x, y)) > 0xFF <==> Num(x) < Num(y)
    ensures Difference(x, y) == 0 <==> x == y
    ensures Num(Minus(x, y)) == Difference(x, y) % 256
  {
    hide Num, Minus;
    MinusMeans(x, y);
    SameNumber(x, y);
  }

  /** An int narrowed to a byte. */
  function Narrowed(n: int): bv8 {
    ByteOf(n % 256)
  }

  lemma NarrowedIs(n: int, b: bv8)
    requires Num(b) == n % 256
    ensures Narrowed(n) == b
  {
    ByteOfNum(b);
  }

  /** The value under the mask, and the old byte under the mask's logical negation. */
  method MaskedControl(old_: bv8, v: bv8, mask: bv8) returns (r: bv8)
    ensures r == ControlByte(old_, v, mask)
    ensures forall k: nat :: k < 8 ==> (Has(r, k) <==> (Has(v, k) && Has(mask, k)) || (k == 0 && mask == 0 && Has(old_, 0)))
  {
    hide Has;
    r := (v & mask) | (old_ & (if mask == 0 then 1 else 0));
    forall k: nat | k < 8
      ensures Has(ControlByte(old_, v, mask), k) <==> (Has(v, k) && Has(mask, k)) || (k == 0 && mask == 0 && Has(old_, 0))
    {
      ControlBit(old_, v, mask, k);
    }
  }

  // ----- the interpreter as the object it is

  class CoreState {
    const cfg: Config
    const dev: Device
    const rom: seq<Instr>
    const regs: array<bv8>
    const ram: array<bv8>
    var breakpoints: set<nat>
    var pc: nat
    var cf: bool
    var zf: bool
    var ctr: bv8
    var trace: seq<Event>

    ghost predicate Valid()
    {
      regs.Length == REGISTER_COUNT && ram.Length == RAM_SIZE && regs != ram
    }

    ghost function Model(): State
      requires Valid()
      reads this, regs, ram
    {
      State(regs[..], pc, cf, zf, ram[..], ctr, trace)
    }

    constructor (cfg: Config, dev: Device, rom: seq<Instr>)
      ensures Valid() && fresh(regs) && fresh(ram)
      ensures this.cfg == cfg && this.dev == dev && this.rom == rom && breakpoints == {}
      ensures Model() == State([0, 0, 0, 0, 0, 0, 0, 0], 0, false, false, seq(RAM_SIZE, i => 0), 0, [])
    {
      this.cfg, this.dev, this.rom := cfg, dev, rom;
      regs := new bv8[REGISTER_COUNT](i => 0);
      ram := new bv8[RAM_SIZE](i => 0);
      breakpoints, pc, cf, zf, ctr, trace := {}, 0, false, false, 0, [];
    }

    method Read(mask: bv8) returns (acc: bv8)
      requires Valid()
      ensures acc == ReadSet(regs[..], mask)
    {
      acc := 0;
      for i := 0 to REGISTER_COUNT
        invariant acc == OrFirst(Picks(regs[..], mask), i)
      {
        if mask & Bit(i) != 0 {
          acc := acc | regs[i];
        }
        assert Picks(regs[..], mask)[i] == Pick(regs[..], mask, i);
      }
    }

    method Write(mask: bv8, value: bv8)
      requires Valid()
      modifies regs
      ensures regs[..] == WriteSet(old(regs[..]), mask, value)
    {
      for i := 0 to REGISTER_COUNT
        invariant forall k :: 0 <= k < i ==> regs[k] == if Has(mask, k) then value else old(regs[k])
        invariant forall k :: i <= k < REGISTER_COUNT ==> regs[k] == old(regs[k])
      {
        if mask & Bit(i) != 0 {
          regs[i] := value;
        }
      }
    }

    /** The carry is bit 8 and up of the 64-bit difference; the machine stores its low byte. */
    method Compare(a: bv8, b: bv8)
      requires Valid()
      modifies `cf, `zf, regs
      ensures Model() == CompareAndStore(old(Model()), a, ReadSet(old(regs[..]), a), ReadSet(old(regs[..]), b))
      ensures var x, y := ReadSet(old(regs[..]), a), ReadSet(old(regs[..]), b);
              && (cf <==> Num(x) < Num(y)) && (zf <==> x == y)
              && forall j: nat :: j < 8 ==> if Has(a, j) then Num(regs[j]) == (Num(x) - Num(y)) % 256 else regs[j] == old(regs[j])
    {
      hide ReadSet, Num, AsUnsigned64, Minus, Borrow, Has, Narrowed;
      var x := Read(a);
      var y := Read(b);
      var diff := Difference(x, y);
      DifferenceFlags(x, y);
      BorrowMeans(x, y);
      NarrowedIs(diff, Minus(x, y));
      cf := AsUnsigned64(diff) > 0xFF;
      zf := diff == 0;
      Write(a, Narrowed(diff));
      assert forall j: nat :: j < 8 ==> regs[j] == regs[..][j];
    }

    method LoadFrom(a: bv8, b: bv8)
      requires Valid()
      modifies `trace, regs
      ensures Model() == Load(cfg, dev, old(Model()), a, ReadSet(old(regs[..]), b))
    {
      hide ReadSet, WriteSet, Wide, Num;
      var address := Read(b);
      var segment := ram[SEGMENT_REGISTER];
      if (!cfg.Segmented() || segment == 0) && Num(address) in cfg.peripherals {
        var v := dev(trace, Num(address));
        trace := trace + [PeripheralRead(Num(address), v)];
        Write(a, v);
        return;
      }
      if cfg.Segmented() && SEGMENT_REGISTER != Num(address) {
        Write(a, ram[Wide(segment, address)]);
      } else {
        Write(a, ram[Num(address)]);
      }
    }

    method StoreTo(a: bv8, b: bv8)
      requires Valid()
      modifies `trace, ram
      ensures Model() == Store(cfg, old(Model()), ReadSet(old(regs[..]), a), ReadSet(old(regs[..]), b))
    {
      hide ReadSet, WriteSet, Wide, Num;
      var address := Read(a);
      var value := Read(b);
      var segment := ram[SEGMENT_REGISTER];
      if (!cfg.Segmented() || segment == 0) && Num(address) in cfg.peripherals {
        trace := trace + [PeripheralWrite(Num(address), value)];
        return;
      }
      if cfg.Segmented() && SEGMENT_REGISTER != Num(address) {
        ram[Wide(segment, address)] := value;
      } else {
        ram[Num(address)] := value;
      }
    }

    /** `checkFlags`. */
    method ConditionHolds(cond: bv4) returns (holds: bool)
      ensures holds == CheckFlags(cond, cf, zf)
      ensures cond == COND_E ==> holds == zf
      ensures cond == COND_NE ==> holds == !zf
      ensures cond == COND_C ==> holds == cf
      ensures cond == COND_NC ==> holds == !cf
      ensures cond == COND_NBE ==> holds == (!cf && !zf)
    {
      var fdf := cond & ((if zf then 8 else 4) | (if cf then 2 else 1));
      holds := fdf & 3 != 0 && fdf & 12 != 0;
    }

    /** The two-operand and shift instructions: read, compute, write back. */
    method Arithmetic(i: Instr)
      requires Valid() && IsAlu(i.op) && i.op != Cmp
      modifies regs
      ensures Model() == Effect(cfg, dev, i, old(Model()))
      ensures forall j: nat :: j < 8 ==>
                if Has(i.a, j) then Computes(i, ReadSet(old(regs[..]), i.a), ReadSet(old(regs[..]), i.b), regs[j])
                else regs[j] == old(regs[j])
    {
      hide ReadSet, Has, Narrowed, Computes, Minus, ShiftRight;
      var x := Read(i.a);
      var y := Read(i.b);
      AluComputes(i, x, y);
      RowOf(cfg, dev, i, Model());
      var v := Computed(i, x, y);
      Write(i.a, v);
    }

    /** The operand bytes are promoted to int and the result is narrowed again. */
    method Computed(i: Instr, x: bv8, y: bv8) returns (v: bv8)
      requires IsAlu(i.op) && i.op != Cmp
      ensures v == Alu(i.op, x, y, i.b)
    {
      hide Num, Narrowed, ShiftRight;
      match i.op
      case Nad => v := !(x & y);
      case And => v := x & y;
      case Xor => v := x ^ y;
      case Mov => v := y;
      case Shr =>
        v := Narrowed(Num(x) / PowerOfTwo(Num(i.b)));
        ShiftMeans(x, i.b);
        NarrowedIs(Num(x) / PowerOfTwo(Num(i.b)), ShiftRight(x, i.b));
      case Add =>
        v := Narrowed(Num(x) + Num(y));
        AddMeans(x, y, i.b);
        NarrowedIs(Num(x) + Num(y), Alu(Add, x, y, i.b));
    }

    method Jump(i: Instr)
      requires Valid() && (i.op == Jpr || i.op == Jpi)
      modifies `pc
      ensures Model() == Effect(cfg, dev, i, old(Model()))
    {
      hide ReadSet, WriteSet, Wide, Num;
      if i.op == Jpi {
        pc := Wide(i.a, i.b);
      } else {
        var high := Read(i.a);
        var low := Read(i.b);
        pc := Wide(high, low);
      }
    }

    method SetControl(i: Instr)
      requires Valid() && i.op == Ctr
      modifies `ctr
      ensures Model() == Effect(cfg, dev, i, old(Model()))
      ensures forall k: nat :: k < 8 ==>
                (Has(ctr, k) <==> (Has(ReadSet(regs[..], i.a), k) && Has(i.b, k)) || (k == 0 && i.b == 0 && Has(old(ctr), 0)))
    {
      hide ReadSet, Has, ControlByte;
      var x := Read(i.a);
      ctr := MaskedControl(ctr, x, i.b);
    }

    method ApplyInstruction(i: Instr)
      requires Valid()
      modifies `pc, `cf, `zf, `ctr, `trace, regs, ram
      ensures Model() == Apply(cfg, dev, i, old(Model()))
    {
      hide ReadSet, WriteSet, Effect, Load, Store, CheckFlags, CompareAndStore;
      EffectByOperation(cfg, dev, i, Model());
      var holds := ConditionHolds(i.cond);
      if !holds {
        return;
      }
      match i.op
      case Nop | Ext =>
      case Cmp => Compare(i.a, i.b);
      case Ldm => LoadFrom(i.a, i.b);
      case Stm => StoreTo(i.a, i.b);
      case Set => Write(i.a, i.b);
      case Jpr => Jump(i);
      case Jpi => Jump(i);
      case Cid => Write(CID_REGISTERS, 0);
      case Ctr => SetControl(i);
      case Nad | And | Xor | Shr | Mov | Add => Arithmetic(i);
    }

    /** `run`: the loop with its budget, the halt test, the breakpoint test and the standby field. */
    method Run(count: nat)
      requires Valid()
      modifies `pc, `cf, `zf, `ctr, `trace, regs, ram
      ensures Model() == Setup(cfg, dev, rom).Run(breakpoints, count, old(Model()))
    {
      hide Apply, Standby;
      ctr := ClearStandby(ctr);
      var executed := 0;
      ghost var m := Setup(cfg, dev, rom);
      ghost var goal := m.Run(breakpoints, count, old(Model()));
      for i := 0 to count
        invariant m.Loop(breakpoints, count - i, executed, Model()) == goal
      {
        if Standby(ctr) {
          return;
        }
        var current := pc;
        if current >= |rom| {
          ctr := HaltStandby(ctr);
          return;
        }
        if pc in breakpoints && executed > 0 {
          return;
        }
        pc := NextPc(pc);
        ApplyInstruction(rom[current]);
        executed := executed + 1;
      }
    }
  }
}
