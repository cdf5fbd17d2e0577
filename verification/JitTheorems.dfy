/** Whole runs: a native call returns what `run` returns, and it returns exactly when `run` halts. */
module JitTheorems {
  import opened Isa
  import opened Options
  import opened X86
  import opened JitCode
  import opened JitRegisters
  import opened JitLayout
  import opened JitPeripherals
  import opened JitBlocks
  import opened JitDispatch
  import opened JitSimulation
  import opened JitCorrect
  import opened JitEntry
  import I = Interpreter

  /** Every instruction that the first b steps execute is one that StepOk allows. */
  predicate RunOk(u: Unit, w: World, b: nat, s: State) {
    b == 0 || Interp(u, w).Stopped(s) || (StepOk(u, w, s) && RunOk(u, w, b - 1, Interp(u, w).Next(s)))
  }

  // ----- many steps

  /** Native code follows the interpreter for any number of steps. Time passes on both sides: at most |rom|
      interpreter steps in a row have no native code. */
  lemma {:induction false} StepsSimulate(u: Unit, w: World, b: nat, s: State, m: Machine, f: Frame)
    returns (k: nat, n: Machine)
    requires u.Compiles() && Loaded(u, w) && RunOk(u, w, b, s) && Match(u.cfg, s, m, f) && Arrived(u, s, m)
    ensures var t := Interp(u, w).StepN(b, s);
            && RunX(w, m, k) == Some(n) && Match(u.cfg, t, n, f) && Arrived(u, t, n)
            && (Interp(u, w).Stopped(t) || (|u.rom| + 1) * k + t.pc >= s.pc + b)
    decreases b
  {
    hide Loaded, u.Compiles, StepX, Match, Arrived, I.Standby, StepOk, Step, u.BlockStart, u.LabelAt;
    if b == 0 || Interp(u, w).Stopped(s) {
      k, n := 0, m;
    } else {
      var t := Interp(u, w).Next(s);
      ArrivedAtBlock(u, s, m);
      var i, p := StepSimulates(u, w, s, m, f);
      var j, q := StepsSimulate(u, w, b - 1, t, p, f);
      RunXAdds(w, m, i, p, j);
      k, n := i + j, q;
      Distribute(|u.rom| + 1, i, j);
    }
  }

  lemma Distribute(c: nat, i: nat, j: nat)
    ensures c * (i + j) == c * i + c * j && (i > 0 ==> c * i >= c)
  {
    if i > 0 {
      assert c * i == c + c * (i - 1);
    }
  }

  lemma ArrivedAtBlock(u: Unit, s: State, m: Machine)
    requires u.Compiles() && Arrived(u, s, m) && !I.Standby(s.ctr)
    ensures s.pc <= |u.rom| && m.ip == u.BlockStart(s.pc)
  {
    hide I.Standby, u.BlockStart, u.LabelAt;
  }

  lemma {:induction false} StoppedStays(m: I.Setup, k: nat, b: nat, s: State)
    requires k <= b && m.Stopped(m.StepN(k, s))
    ensures m.StepN(b, s) == m.StepN(k, s)
  {
    I.StepNAdds(m, k, b - k, s);
  }

  /** An interpreter run that has stopped is at the state plain stepping stops in. */
  lemma StoppedRun(m: I.Setup, b: nat, s: State)
    requires m.Stopped(m.StepN(b, I.Awake(s)))
    ensures I.SameCore(m.Run({}, b, s), m.StepN(b, I.Awake(s)))
  {
    hide I.Awake, I.SameCore;
    I.LoopIsStepping(m, {}, b, 0, I.Awake(s));
    var k := m.LoopLength({}, b, 0, I.Awake(s));
    if k < b {
      StoppedStays(m, k, b, I.Awake(s));
    }
  }

  lemma MatchAwake(cfg: Config, s: State, m: Machine, f: Frame)
    requires Match(cfg, s, m, f)
    ensures Match(cfg, I.Awake(s), m, f) && I.Awake(s).pc == s.pc && !I.Standby(I.Awake(s).ctr)
  {
    MatchIgnoresControl(cfg, s, s.pc, I.ClearStandby(s.ctr), m, f);
    I.AwakeIsAwake(s);
  }

  /** Entering native code and following it for b interpreter steps. */
  lemma EntryAndSteps(u: Unit, w: World, base: seq<Slot>, m: Machine, b: nat) returns (k: nat, n: Machine)
    requires u.Compiles() && Loaded(u, w) && Entry(u, m, base) && RunOk(u, w, b, I.Awake(m.core))
    ensures var t := Interp(u, w).StepN(b, I.Awake(m.core));
            && RunX(w, m, k) == Some(n) && Match(u.cfg, t, n, EntryFrame(m, base)) && Arrived(u, t, n)
            && (Interp(u, w).Stopped(t) || (|u.rom| + 1) * k + t.pc >= b)
  {
    hide Loaded, u.Compiles, StepX, Match, I.Standby, u.LabelAt, u.BlockStart, I.Awake, RunOk, EntryFrame, GoodSizes;
    LoadedCompiles(u, w);
    var f := EntryFrame(m, base);
    var i, p := EntryRuns(u, w, base, m);
    MatchAwake(u.cfg, m.core, p, f);
    var j, q := StepsSimulate(u, w, b, I.Awake(m.core), p, f);
    RunXAdds(w, m, i, p, j);
    k, n := i + j, q;
    Distribute(|u.rom| + 1, i, j);
  }

  /** From wherever a stopped interpreter leaves native code, the call returns. */
  lemma StoppedReturns(u: Unit, w: World, t: State, saved: seq<Val>, base: seq<Slot>, m: Machine, f: Frame)
    returns (k: nat, n: Machine)
    requires u.Compiles() && Loaded(u, w) && Match(u.cfg, t, m, f) && Arrived(u, t, m) && Interp(u, w).Stopped(t)
    requires |saved| == 16 && f.stack == base + [HostRa] + CalleeSlots(saved)
    ensures RunX(w, m, k) == Some(n) && n.done && n.stack == base && |n.regs| == 16 && SameCallee(n.regs, saved)
    ensures n.core == t.(ctr := f.core.ctr)
  {
    hide Loaded, u.Compiles, StepX, Match, I.Standby, u.LabelAt, u.BlockStart, CalleeSlots, SameCallee, GoodSizes;
    LoadedCompiles(u, w);
    if I.Standby(t.ctr) {
      k, n := ExitRuns(u, w, t, saved, base, m, f);
    } else {
      var p := EndRuns(u, w, t, m, f);
      var j, q := ExitRuns(u, w, t, saved, base, p, f);
      RunXAdds(w, m, 1, p, j);
      k, n := 1 + j, q;
    }
  }

  /** Compiler correctness. A call into native code, on any program that compiles, any memory configuration and
      any state, returns whenever `run` halts, leaving the host exactly the registers, flags, memory, program
      counter and peripheral history that `run` leaves; the control byte is not touched. The caller's stack and
      callee-saved registers are restored. */
  lemma NativeCallIsRun(u: Unit, w: World, base: seq<Slot>, m: Machine, b: nat) returns (k: nat, n: Machine)
    requires u.Compiles() && Loaded(u, w) && Entry(u, m, base) && RunOk(u, w, b, I.Awake(m.core))
    requires Interp(u, w).Stopped(Interp(u, w).StepN(b, I.Awake(m.core)))
    ensures RunX(w, m, k) == Some(n) && n.done
    ensures I.SameCore(n.core, Interp(u, w).Run({}, b, m.core)) && n.core.ctr == m.core.ctr
    ensures n.stack == base && |n.regs| == 16 && SameCallee(n.regs, m.regs)
  {
    hide Loaded, u.Compiles, StepX, Match, Arrived, I.Standby, I.Awake, RunOk, CalleeSlots, SameCallee;
    var i, p := EntryAndSteps(u, w, base, m, b);
    var t := Interp(u, w).StepN(b, I.Awake(m.core));
    var j, q := StoppedReturns(u, w, t, m.regs, base, p, EntryFrame(m, base));
    RunXAdds(w, m, i, p, j);
    k, n := i + j, q;
    StoppedRun(Interp(u, w), b, m.core);
  }

  /** While the interpreter has not stopped, native code has not returned, and it cannot stand still: b
      interpreter steps take at least (b - |rom|) / (|rom| + 1) native ones. */
  lemma NativeKeepsRunning(u: Unit, w: World, base: seq<Slot>, m: Machine, b: nat) returns (k: nat, n: Machine)
    requires u.Compiles() && Loaded(u, w) && Entry(u, m, base) && RunOk(u, w, b, I.Awake(m.core))
    requires !Interp(u, w).Stopped(Interp(u, w).StepN(b, I.Awake(m.core)))
    ensures RunX(w, m, k) == Some(n) && !n.done && (|u.rom| + 1) * k + |u.rom| >= b
  {
    hide Loaded, u.Compiles, StepX, Match, Arrived, I.Standby, I.Awake, RunOk, CalleeSlots;
    k, n := EntryAndSteps(u, w, base, m, b);
    var t := Interp(u, w).StepN(b, I.Awake(m.core));
    MatchHolds(u.cfg, t, n, EntryFrame(m, base));
  }

  ghost predicate Returns(w: World, m: Machine) {
    exists k: nat :: RunX(w, m, k).Some? && RunX(w, m, k).value.done
  }

  ghost predicate Halts(u: Unit, w: World, s: State) {
    exists b: nat :: Interp(u, w).Stopped(Interp(u, w).StepN(b, I.Awake(s)))
  }

  /** After the return there is no further step. */
  lemma DoneIsLast(w: World, m: Machine, i: nat, j: nat)
    requires RunX(w, m, i).Some? && RunX(w, m, i).value.done && i < j
    ensures RunX(w, m, j) == None
  {
    RunXAdds(w, m, i, RunX(w, m, i).value, j - i);
  }

  /** If every step of the run is one the compiler supports, native code returns if and only if `run` halts. */
  lemma ReturnsExactlyWhenHalting(u: Unit, w: World, base: seq<Slot>, m: Machine)
    requires u.Compiles() && Loaded(u, w) && Entry(u, m, base)
    requires forall b: nat :: RunOk(u, w, b, I.Awake(m.core))
    ensures Returns(w, m) <==> Halts(u, w, m.core)
  {
    hide Loaded, u.Compiles, StepX, I.Standby, I.Awake, RunOk, SameCallee, I.SameCore, Entry;
    if Halts(u, w, m.core) {
      var b: nat :| Interp(u, w).Stopped(Interp(u, w).StepN(b, I.Awake(m.core)));
      var k, n := NativeCallIsRun(u, w, base, m, b);
    }
    if Returns(w, m) && !Halts(u, w, m.core) {
      var i: nat :| RunX(w, m, i).Some? && RunX(w, m, i).value.done;
      var b := (|u.rom| + 1) * (i + 1) + |u.rom|;
      var k, n := NativeKeepsRunning(u, w, base, m, b);
      if k <= i {
        Smaller(|u.rom| + 1, k, i + 1);
      } else {
        DoneIsLast(w, m, i, k);
      }
    }
  }

  lemma Smaller(c: nat, x: nat, y: nat)
    requires x < y
    ensures c * x + c <= c * y
  {
    assert c * y == c * x + c * (y - x);
    assert c * (y - x) == c + c * (y - x - 1);
  }

  // ----- programs whose runs are all allowed

  /** Conditions on the program text and the memory configuration alone. */
  predicate AlwaysOk(u: Unit) {
    && (forall k :: 0 <= k < |u.rom| ==> InstrAlwaysOk(u, u.rom[k]))
    && (u.cfg.Segmented() ==> u.cfg.memorySize == RAM_SIZE && SEGMENT_REGISTER !in u.cfg.peripherals)
    && SEGMENT_SIZE <= u.cfg.memorySize
  }

  predicate InstrAlwaysOk(u: Unit, i: Instr) {
    && (i.op == Nop || Supported(i))
    && (i.op == Ctr ==> i.b & I.STANDBY_FIELD == I.STANDBY_FIELD)
    && (i.op == Jpi ==> Wide(i.a, i.b) <= |u.rom|)
    && (i.op == Jpr ==> JumpsInside(|u.rom|, i))
  }

  /** A register jump cannot leave a program of full length, nor one of 255 instructions with an empty high set. */
  predicate JumpsInside(length: nat, i: Instr) {
    length == 65535 || (i.a == 0 && length >= 255)
  }

  lemma AccessAlwaysOk(cfg: Config, ram: Ram, x: bv8)
    requires cfg.Segmented() ==> cfg.memorySize == RAM_SIZE && SEGMENT_REGISTER !in cfg.peripherals
    requires SEGMENT_SIZE <= cfg.memorySize
    ensures AccessOk(cfg, ram, x)
  {
    hide Num, Wide;
  }

  lemma EffectStaysInside(u: Unit, dev: Device, i: Instr, s: State)
    requires InstrAlwaysOk(u, i) && s.pc <= |u.rom|
    ensures Effect(u.cfg, dev, i, s).pc <= |u.rom|
  {
    hide ReadSet, WriteSet, Alu, ControlByte, Cell, Num, Minus, Borrow, Supported;
    EffectOnControl(u.cfg, dev, i, s);
    if i.op == Jpr && i.a == 0 {
      EmptySet(s.regs);
      LowPage(ReadSet(s.regs, i.b));
    }
  }

  lemma LowPage(y: bv8)
    ensures Wide(0, y) < 256
  {}

  lemma StepAlwaysOk(u: Unit, w: World, s: State)
    requires AlwaysOk(u) && w.cfg == u.cfg && s.pc < |u.rom| < 65536
    ensures StepOk(u, w, s) && Interp(u, w).Next(s).pc <= |u.rom|
  {
    hide AccessOk, CheckFlags, Effect, Supported, ReadSet, Wide;
    var i := u.rom[s.pc];
    assert InstrAlwaysOk(u, i);
    AccessAlwaysOk(u.cfg, s.ram, ReadSet(s.regs, i.a));
    AccessAlwaysOk(u.cfg, s.ram, ReadSet(s.regs, i.b));
    EffectStaysInside(u, w.dev, i, s.(pc := s.pc + 1));
  }

  lemma {:induction false} RunsAlwaysOk(u: Unit, w: World, b: nat, s: State)
    requires AlwaysOk(u) && w.cfg == u.cfg && |u.rom| < 65536
    ensures RunOk(u, w, b, s)
    decreases b
  {
    hide StepOk, AlwaysOk, Step, I.Standby;
    if b > 0 && !Interp(u, w).Stopped(s) {
      StepAlwaysOk(u, w, s);
      RunsAlwaysOk(u, w, b - 1, Interp(u, w).Next(s));
    }
  }

  /** Native code returns with what a run of b steps leaves. */
  ghost predicate ReturnsAs(u: Unit, w: World, m: Machine, b: nat) {
    exists k: nat :: RunX(w, m, k).Some? && RunX(w, m, k).value.done &&
      I.SameCore(RunX(w, m, k).value.core, Interp(u, w).Run({}, b, m.core))
  }

  lemma AllowedRun(u: Unit, w: World, base: seq<Slot>, m: Machine, b: nat)
    requires u.Compiles() && Loaded(u, w) && Entry(u, m, base) && AlwaysOk(u)
    requires Interp(u, w).Stopped(Interp(u, w).StepN(b, I.Awake(m.core)))
    ensures ReturnsAs(u, w, m, b)
  {
    hide Loaded, u.Compiles, StepX, I.Standby, I.Awake, RunOk, SameCallee, I.SameCore, Entry, AlwaysOk, GoodSizes, Interp;
    LoadedCompiles(u, w);
    RunsAlwaysOk(u, w, b, I.Awake(m.core));
    var k, n := NativeCallIsRun(u, w, base, m, b);
    assert RunX(w, m, k).Some? && RunX(w, m, k).value == n;
  }

  /** For such programs nothing about the run has to be known: from every state, native code returns if and only
      if `run` halts, and then with what `run` leaves. */
  lemma AllowedProgramsAgree(u: Unit, w: World, base: seq<Slot>, m: Machine)
    requires u.Compiles() && Loaded(u, w) && Entry(u, m, base) && AlwaysOk(u)
    ensures Returns(w, m) <==> Halts(u, w, m.core)
    ensures forall b: nat :: Interp(u, w).Stopped(Interp(u, w).StepN(b, I.Awake(m.core))) ==> ReturnsAs(u, w, m, b)
  {
    hide Loaded, u.Compiles, StepX, I.Standby, I.Awake, RunOk, Entry, AlwaysOk, GoodSizes, ReturnsAs;
    LoadedCompiles(u, w);
    forall b: nat ensures RunOk(u, w, b, I.Awake(m.core)) {
      RunsAlwaysOk(u, w, b, I.Awake(m.core));
    }
    ReturnsExactlyWhenHalting(u, w, base, m);
    forall b: nat | Interp(u, w).Stopped(Interp(u, w).StepN(b, I.Awake(m.core))) ensures ReturnsAs(u, w, m, b) {
      AllowedRun(u, w, base, m, b);
    }
  }
}
