/** The emitted register-set code reads and writes micro registers as the instruction set says. */
module JitRegisters {
  import opened Isa
  import opened Options
  import opened X86
  import opened JitCode

  /** Registers whose byte parts generated code touches; they always hold plain numbers. */
  predicate IsPlain(r: nat) {
    r < 16 && r != RAX && r != RDI && r != 4
  }

  predicate Plain(m: Machine) {
    |m.regs| == 16 && forall r :: 0 <= r < 16 && IsPlain(r) ==> m.regs[r].Word?
  }

  /** The micro registers as the native machine holds them. */
  function Micros(m: Machine): Regs
    requires Plain(m)
  {
    seq(8, k requires 0 <= k < 8 => m.regs[R8 + k].l)
  }

  /** Equal but for position, time and flags. */
  predicate SameButFlags(m: Machine, n: Machine) {
    n == m.(ip := n.ip, clock := n.clock, fh := n.fh, fl := n.fl)
  }

  predicate SameButClock(m: Machine, n: Machine) {
    n == m.(ip := n.ip, clock := n.clock)
  }

  function SetLow(m: Machine, r: Reg, v: bv8): Machine
    requires |m.regs| == 16 && m.regs[r].Word?
  {
    Put(m, r, m.regs[r].(l := v))
  }

  // ----- single instructions

  predicate ByteGroup(i: Ins) {
    i.MovL? || i.MovHL? || i.AluL? || i.NegL? || i.ShrL? || i.MovzxL? || i.MovzxX? || i.ShrQ? || i.AddZero?
  }

  predicate StackGroup(i: Ins) {
    i.PushX? || i.PopX? || i.Pushf? || i.Popf? || i.PushQ? || i.PopQ? || i.NopX?
  }

  function Tick(m: Machine, from: Machine): Machine {
    m.(ip := from.ip + 1, clock := from.clock + 1)
  }

  lemma DoByte(w: World, i: Ins, m: Machine)
    requires |m.regs| == 16 && ByteGroup(i) && Effect8(w, i, m).Some?
    ensures Do(w, i, m) == Some(Tick(Effect8(w, i, m).value, m))
  {
    hide Effect8, EffectMemory, EffectStack;
  }

  lemma DoMemory(w: World, i: Ins, m: Machine)
    requires |m.regs| == 16 && !ByteGroup(i) && !StackGroup(i) && EffectMemory(i, m).Some?
    ensures Do(w, i, m) == Some(Tick(EffectMemory(i, m).value, m))
  {
    hide Effect8, EffectMemory, EffectStack;
  }

  lemma DoStack(w: World, i: Ins, m: Machine)
    requires |m.regs| == 16 && StackGroup(i) && EffectStack(i, m).Some?
    ensures Do(w, i, m) == Some(Tick(EffectStack(i, m).value, m))
  {
    hide Effect8, EffectMemory, EffectStack;
  }

  lemma DoMov(w: World, out: Reg, src: Src, m: Machine)
    requires |m.regs| == 16 && m.regs[out].Word? && SrcOk(m, src)
    ensures Do(w, MovL(out, src), m).Some?
    ensures SameButClock(SetLow(m, out, SrcVal(m, src)), Do(w, MovL(out, src), m).value)
  {}

  lemma DoOr(w: World, out: Reg, src: Src, m: Machine)
    requires |m.regs| == 16 && m.regs[out].Word? && SrcOk(m, src)
    ensures Do(w, AluL(OpOr, out, src), m).Some?
    ensures SameButFlags(SetLow(m, out, Or8(m.regs[out].l, SrcVal(m, src))), Do(w, AluL(OpOr, out, src), m).value)
  {
    hide FlagByte, AluCarry, AluZero;
  }

  // ----- reading a set

  /** Register k joins what `out` has collected: a move if nothing was collected yet, else an OR. */
  lemma CollectOne(w: World, out: Reg, mask: bv8, k: nat, moved: bool, m: Machine) returns (i: Ins, n: Machine)
    requires Plain(m) && out < 8 && IsPlain(out) && k < 8 && Has(mask, k)
    requires var c := OrFirst(Picks(Micros(m), mask), k); if moved then m.regs[out].l == c else c == 0
    ensures i == if moved then AluL(OpOr, out, L(Micro(k))) else MovL(out, L(Micro(k)))
    ensures Do(w, i, m) == Some(n) && SameButFlags(SetLow(m, out, OrFirst(Picks(Micros(m), mask), k + 1)), n)
  {
    hide Do, OrFirst, Or8, Has;
    var x := Picks(Micros(m), mask);
    OrNext(x, k);
    assert SrcVal(m, L(Micro(k))) == Micros(m)[k] == x[k];
    if moved {
      i := AluL(OpOr, out, L(Micro(k)));
      DoOr(w, out, L(Micro(k)), m);
    } else {
      i := MovL(out, L(Micro(k)));
      DoMov(w, out, L(Micro(k)), m);
      OrZero(x[k]);
    }
    n := Do(w, i, m).value;
  }

  lemma {:induction false} ReadFromEffect(w: World, out: Reg, mask: bv8, k: nat, moved: bool, m: Machine)
    requires Plain(m) && out < 8 && IsPlain(out) && k <= 8
    requires var c := OrFirst(Picks(Micros(m), mask), k); if moved then m.regs[out].l == c else c == 0
    ensures var r := Straight(w, ReadFrom(out, mask, k, moved), m);
            && r.Some?
            && (moved || (exists j :: k <= j < 8 && Has(mask, j)) ==>
                  SameButFlags(SetLow(m, out, ReadSet(Micros(m), mask)), r.value))
    decreases 8 - k
  {
    hide Do, OrFirst, Or8, Has;
    if k == 8 {
      assert SetLow(m, out, m.regs[out].l).regs == m.regs;
    } else if Has(mask, k) {
      var i, n := CollectOne(w, out, mask, k, moved, m);
      assert Micros(n) == Micros(m);
      ReadFromEffect(w, out, mask, k + 1, true, n);
      StraightCons(w, i, ReadFrom(out, mask, k + 1, true), m);
      assert SetLow(n, out, ReadSet(Micros(m), mask)).regs == SetLow(m, out, ReadSet(Micros(m), mask)).regs;
    } else {
      var x := Picks(Micros(m), mask);
      OrNext(x, k);
      assert x[k] == Pick(Micros(m), mask, k);
      OrZeroRight(OrFirst(x, k));
      ReadFromEffect(w, out, mask, k + 1, moved, m);
    }
  }

  lemma OrNext(x: seq<bv8>, n: nat)
    requires n < |x|
    ensures OrFirst(x, n + 1) == Or8(OrFirst(x, n), x[n])
  {}

  lemma OrZero(x: bv8)
    ensures Or8(0, x) == x
  {}

  lemma OrZeroRight(x: bv8)
    ensures Or8(x, 0) == x
  {}

  lemma StraightCons(w: World, i: Ins, rest: seq<Ins>, m: Machine)
    requires Do(w, i, m).Some?
    ensures Straight(w, [i] + rest, m) == Straight(w, rest, Do(w, i, m).value)
  {
    hide Do;
    assert ([i] + rest)[1..] == rest;
  }

  lemma EmptySet(r: Regs)
    ensures ReadSet(r, 0) == 0
  {
    var x := Picks(r, 0);
    forall i | 0 <= i < 8 ensures x[i] == 0 {
      assert !Has(0, i);
    }
    AllZero(x, 8);
  }

  lemma {:induction false} AllZero(x: seq<bv8>, n: nat)
    requires n <= |x| && forall i :: 0 <= i < n ==> x[i] == 0
    ensures OrFirst(x, n) == 0
  {
    if n > 0 {
      AllZero(x, n - 1);
    }
  }

  /** Whatever the set, the emitted code leaves its OR in the low byte of `out` and changes nothing else but flags. */
  lemma ReadEffect(w: World, out: Reg, mask: bv8, m: Machine)
    requires Plain(m) && out < 8 && IsPlain(out)
    ensures var r := Straight(w, ReadCode(out, mask), m);
            r.Some? && SameButFlags(SetLow(m, out, ReadSet(Micros(m), mask)), r.value)
  {
    hide Do, ReadSet, ReadFrom;
    if mask == 0 {
      EmptySet(Micros(m));
      DoMov(w, out, Imm(0), m);
      StraightCons(w, MovL(out, Imm(0)), [], m);
      assert [MovL(out, Imm(0))] + [] == ReadCode(out, mask);
    } else {
      SomeBit(mask);
      ReadFromEffect(w, out, mask, 0, false, m);
    }
  }

  // ----- writing a set

  /** The register file after the micro registers in the set from k on took the value v. */
  function Written(regs: seq<Val>, mask: bv8, k: nat, v: bv8): seq<Val>
    requires |regs| == 16 && k <= 8 && forall j :: R8 <= j < 16 ==> regs[j].Word?
  {
    seq(16, r requires 0 <= r < 16 => if r >= R8 + k && Has(mask, r - R8) then regs[r].(l := v) else regs[r])
  }

  lemma {:induction false} WriteFromEffect(w: World, src: Src, mask: bv8, k: nat, m: Machine)
    requires Plain(m) && k <= 8 && SrcOk(m, src) && (src.L? ==> src.r < 8)
    ensures var r := Straight(w, WriteFrom(src, mask, k), m);
            r.Some? && SameButClock(m.(regs := Written(m.regs, mask, k, SrcVal(m, src))), r.value)
    decreases 8 - k
  {
    hide Do, Has;
    var v := SrcVal(m, src);
    if k == 8 {
      assert Written(m.regs, mask, k, v) == m.regs;
    } else if Has(mask, k) {
      DoMov(w, Micro(k), src, m);
      var n := Do(w, MovL(Micro(k), src), m).value;
      assert n.regs == m.regs[Micro(k) := m.regs[Micro(k)].(l := v)];
      WriteFromEffect(w, src, mask, k + 1, n);
      StraightCons(w, MovL(Micro(k), src), WriteFrom(src, mask, k + 1), m);
      assert Written(n.regs, mask, k + 1, v) == Written(m.regs, mask, k, v);
    } else {
      WriteFromEffect(w, src, mask, k + 1, m);
      assert Written(m.regs, mask, k + 1, v) == Written(m.regs, mask, k, v);
    }
  }

  /** The emitted writes give every micro register in the set the source value and touch nothing else. */
  lemma WriteEffect(w: World, src: Src, mask: bv8, m: Machine)
    requires Plain(m) && SrcOk(m, src) && (src.L? ==> src.r < 8)
    ensures var r := Straight(w, WriteCode(src, mask), m);
            && r.Some? && SameButClock(m.(regs := Written(m.regs, mask, 0, SrcVal(m, src))), r.value)
            && Plain(r.value) && Micros(r.value) == WriteSet(Micros(m), mask, SrcVal(m, src))
            && (forall j :: 0 <= j < 8 ==> r.value.regs[j] == m.regs[j])
  {
    hide Do, WriteFrom;
    WriteFromEffect(w, src, mask, 0, m);
  }

  // ----- none of it transfers control

  lemma {:induction false} ReadFromIsStraight(out: Reg, mask: bv8, k: nat, moved: bool)
    requires k <= 8
    ensures NoControl(ReadFrom(out, mask, k, moved))
    decreases 8 - k
  {
    hide Has;
    if k < 8 {
      ReadFromIsStraight(out, mask, k + 1, true);
      ReadFromIsStraight(out, mask, k + 1, moved);
    }
  }

  lemma {:induction false} WriteFromIsStraight(src: Src, mask: bv8, k: nat)
    requires k <= 8
    ensures NoControl(WriteFrom(src, mask, k))
    decreases 8 - k
  {
    hide Has;
    if k < 8 {
      WriteFromIsStraight(src, mask, k + 1);
    }
  }
}
