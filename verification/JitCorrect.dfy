/** The compiled program and the interpreted program compute the same thing. */
module JitCorrect {
  import opened Isa
  import opened Options
  import opened X86
  import opened JitCode
  import opened JitRegisters
  import opened JitLayout
  import opened JitBlocks
  import opened JitMemory
  import opened JitPeripherals
  import opened JitStep
  import opened JitSimulation
  import I = Interpreter

  function Interp(u: Unit, w: World): I.Setup {
    I.Setup(u.cfg, w.dev, u.rom)
  }

  /** What is asked of the instruction about to be executed: if its condition holds, it is one the compiler
      gets right, on an access the tables agree on, and it does not jump past the end of the program. */
  predicate StepOk(u: Unit, w: World, s: State)
    requires s.pc < |u.rom|
  {
    var i := u.rom[s.pc];
    && (i.op == Nop || !CheckFlags(i.cond, s.cf, s.zf) || (Supported(i) && AgreesOn(u.cfg, i, s)))
    && Interp(u, w).Next(s).pc <= |u.rom|
  }

  /** Where native code stands when the interpreter is in state t: at the block of t's pc, or at the exit with
      the resume point recorded when t is in standby. */
  predicate Arrived(u: Unit, t: State, n: Machine)
    requires u.Compiles()
  {
    && t.pc <= |u.rom|
    && if I.Standby(t.ctr) then n.ip == u.LabelAt(Cleanup) && n.counter == t.pc else n.ip == u.BlockStart(t.pc)
  }

  lemma BodyRuns(u: Unit, w: World, a: nat, i: Instr, s: State, m: Machine, f: Frame) returns (k: nat, n: Machine)
    requires u.Compiles() && Loaded(u, w) && Match(w.cfg, s, m, f) && CodeAt(w, m.ip, Body(w.cfg, a, i)) && a < |u.rom|
    requires i.op != Nop && Supported(i) && AgreesOn(w.cfg, i, s) && !I.Standby(s.ctr)
    requires s.pc == a + 1 && m.ip + |Body(w.cfg, a, i)| == u.BlockStart(a + 1)
    requires Effect(w.cfg, w.dev, i, s).pc <= |u.rom|
    ensures var t := Effect(w.cfg, w.dev, i, s);
            && RunX(w, m, k) == Some(n) && Match(w.cfg, t, n, f)
            && Arrived(u, t, n)
            && (k == 0 ==> t.pc == a + 1)
  {
    hide Loaded, u.Compiles, StepX, CodeAt, Match, Body, Effect, AgreesOn, I.Standby;
    EffectOnControl(w.cfg, w.dev, i, s);
    match i.op
    case Ldm => k, n := LoadBodyRuns(u, w, a, i, s, m, f);
    case Stm => k, n := StoreBodyRuns(u, w, a, i, s, m, f);
    case Jpr | Jpi => k, n := JumpBodyRuns(u, w, a, i, s, m, f);
    case Ctr => k, n := ControlBodyRuns(u, w, a, i, s, m, f);
    case Set | Cid | Nad | And | Xor | Shr | Mov | Add | Cmp => k, n := StraightBodyRuns(w, a, i, s, m, f);
  }

  lemma EffectOnControl(cfg: Config, dev: Device, i: Instr, s: State)
    ensures i.op != Ctr ==> Effect(cfg, dev, i, s).ctr == s.ctr
    ensures i.op != Jpr && i.op != Jpi ==> Effect(cfg, dev, i, s).pc == s.pc
  {
    hide ReadSet, WriteSet, Alu, ControlByte, Wide, Cell, Num, Minus, Borrow;
  }

  /** One interpreter step, one native block. An instruction on an empty register set may have no native code. */
  lemma StepSimulates(u: Unit, w: World, s: State, m: Machine, f: Frame) returns (k: nat, n: Machine)
    requires u.Compiles() && Loaded(u, w) && s.pc < |u.rom| && !I.Standby(s.ctr) && StepOk(u, w, s)
    requires Match(u.cfg, s, m, f) && m.ip == u.BlockStart(s.pc)
    ensures var t := Interp(u, w).Next(s);
            && RunX(w, m, k) == Some(n) && Match(u.cfg, t, n, f)
            && Arrived(u, t, n)
            && (k == 0 ==> t.pc == s.pc + 1)
  {
    hide Loaded, StepX, CodeAt, Match, Body, Effect, AgreesOn, I.Standby, Supported, CheckFlags, CondCode, NamedCond;
    hide RunX, u.Compiles;
    LoadedCompiles(u, w);
    BlockAt(u, w, s.pc);
    var a, i := s.pc, u.rom[s.pc];
    var s1 := s.(pc := a + 1);
    MatchIgnoresControl(u.cfg, s, a + 1, s.ctr, m, f);
    if i.op == Nop {
      k, n := NopRuns(w, s1, m, f);
    } else {
      var skip := if i.cond == COND_T then 0 else u.LabelAt(Skip(a));
      if i.cond != COND_T {
        SkipIsThere(u, w, a);
      }
      CodeSplits(w, m.ip, CondCode(i.cond, Skip(a)), Body(u.cfg, a, i));
      var j, p := ConditionRuns(w, s1, i.cond, Skip(a), skip, m, f);
      if CheckFlags(i.cond, s.cf, s.zf) {
        AgreesIgnoresPc(u.cfg, i, s, a + 1);
        k, n := BodyRuns(u, w, a, i, s1, p, f);
        RunXAdds(w, m, j, p, k);
        k := j + k;
      } else {
        k, n := j, p;
        AlwaysAndNever(s.cf, s.zf);
      }
    }
  }

  lemma AgreesIgnoresPc(cfg: Config, i: Instr, s: State, pc: nat)
    requires AgreesOn(cfg, i, s)
    ensures AgreesOn(cfg, i, s.(pc := pc))
  {
    hide AccessOk, ReadSet;
  }

  lemma NopRuns(w: World, s: State, m: Machine, f: Frame) returns (k: nat, n: Machine)
    requires Match(w.cfg, s, m, f) && CodeAt(w, m.ip, [NopX])
    ensures RunX(w, m, k) == Some(n) && n.ip == m.ip + 1 && Match(w.cfg, s, n, f) && k == 1
  {
    hide Do, CfOf, ZfOf, Micros, Straight, CodeAt, StepX;
    DoStack(w, NopX, m);
    Straight1(w, NopX, m);
    n := Do(w, NopX, m).value;
    StraightRuns(w, [NopX], m, n);
    MatchUnderFlags(w.cfg, s, m, n, f);
    k := 1;
  }

  lemma SkipIsThere(u: Unit, w: World, a: nat)
    requires u.Compiles() && Loaded(u, w) && a < |u.rom| && u.rom[a].op != Nop && u.rom[a].cond != COND_T
    ensures LabelIndex(w, Skip(a)) == Some(u.LabelAt(Skip(a)))
  {
    hide Loaded, u.Compiles, CodeAt, LabelIndex, u.Code, u.IsImage, Body, CondCode;
    BlockAt(u, w, a);
    CodeFits(w, u.BlockStart(a), u.Block(a));
    LabelIsBound(u, w, Skip(a));
  }
}
