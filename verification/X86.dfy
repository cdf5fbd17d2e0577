/** The fragment of the x86-64 machine that generated code runs on: sixteen registers with their byte and word
    parts, a flag register whose undefined bits are arbitrary, a stack, the data section, code addressed by
    encoded size, and calls into the four host functions. A step with no defined outcome yields None. */
module X86 {
  import opened Isa
  import opened Arithmetic
  import opened Options

  // ----- names

  datatype Label =
    | Start | Inst(i: nat) | Skip(i: nat) | End | Cleanup | Offsets
    | ReadFn | WriteFn | SegmentReadFn | SegmentWriteFn | PeripheralReadFn | PeripheralWriteFn
    | ReadMap | WriteMap
    | Data | Registers | Flags | CorePointer | Counter

  type Reg = r: nat | r < 16

  const RAX: Reg := 0
  const RCX: Reg := 1
  const RDX: Reg := 2
  const RBX: Reg := 3
  const RBP: Reg := 5
  const RSI: Reg := 6
  const RDI: Reg := 7
  const R8: Reg := 8
  const R9: Reg := 9
  const R10: Reg := 10
  const R11: Reg := 11
  const R12: Reg := 12
  const R13: Reg := 13
  const R14: Reg := 14
  const R15: Reg := 15

  datatype HostFn = LoadState | SaveState | ReadPeripheral | WritePeripheral

  /** Register contents: a number (bits 16 and up, second byte, low byte), a number of which only the low byte
      is known, a labelled address plus offset, a host function, or one of the two host pointers. */
  datatype Val =
    | Word(up: nat, h: bv8, l: bv8)
    | Low(l: bv8)
    | Ptr(lab: Label, off: nat)
    | Fn(fn: HostFn)
    | CoreRef
    | ArgumentRef

  // ----- instructions

  datatype Src = L(r: Reg) | Imm(v: bv8)
  datatype Mem = At(lab: Label, off: nat) | Off(base: Reg, off: nat) | Indexed(base: Reg, index: Reg)
  datatype AluOp = OpAdd | OpSub | OpAnd | OpOr | OpXor
  datatype Cc = BE | C | NC | E | NE

  datatype Ins =
    | MovL(dst: Reg, src: Src)              // mov r8, r8 / imm8
    | MovHL(dst: Reg, from: Reg)            // mov second byte, low byte
    | AluL(op: AluOp, dst: Reg, src: Src)
    | NegL(dst: Reg)
    | ShrL(dst: Reg, count: bv8)
    | MovzxL(dst: Reg, from: Reg)           // movzx r64, r8
    | MovzxX(dst: Reg, from: Reg)           // movzx r64, r16
    | Mov64(dst: Reg, from: Reg)
    | MovFn(dst: Reg, fn: HostFn)
    | LoadArgument(dst: Reg, base: Reg)
    | LoadCore(dst: Reg) | StoreCore(from: Reg)
    | LoadX(dst: Reg, cell: Label) | StoreX(cell: Label, from: Reg) | StoreXImm(cell: Label, n: nat)
    | LoadL(dst: Reg, mem: Mem) | LoadH(dst: Reg, mem: Mem) | StoreL(mem: Mem, from: Reg)
    | Lea(dst: Reg, lab: Label, off: nat)
    | LeaScaled(dst: Reg, base: Reg, index: Reg)   // base + index * 8
    | AddZero(dst: Reg)                     // add r64, 0
    | ShrQ(dst: Reg, count: bv8)
    | PushX(reg: Reg) | PopX(reg: Reg) | Pushf | Popf
    | PushQ(reg: Reg) | PopQ(reg: Reg)
    | Jmp(target: Label) | Jcc(cc: Cc, target: Label) | JmpR(reg: Reg) | CallR(reg: Reg) | Ret
    | NopX

  predicate IsControl(i: Ins) {
    i.Jmp? || i.Jcc? || i.JmpR? || i.CallR? || i.Ret?
  }

  predicate NoControl(code: seq<Ins>) {
    forall j :: 0 <= j < |code| ==> !IsControl(code[j])
  }

  // ----- machine

  datatype Slot = X(h: bv8, l: bv8) | Q(v: Val) | Ra(ip: nat) | HostRa

  datatype Machine = Machine(
    ip: nat, regs: seq<Val>, fh: bv8, fl: bv8, stack: seq<Slot>,
    data: seq<bv8>, dump: Regs, flagH: bv8, flagL: bv8, counter: nat, corePtr: Val,
    core: State, clock: nat, done: bool)

  /** Bits and registers that an instruction or a call leaves undefined take their value from here. */
  datatype Noise = Noise(h: bv8, l: bv8, clobber: nat -> (nat, bv8, bv8))

  datatype Image = Image(code: seq<Ins>, labels: map<Label, nat>)

  datatype World = World(img: Image, size: Ins -> nat, noise: nat -> Noise, cfg: Config, dev: Device)

  // ----- flags

  const CF_BIT: bv8 := 0x01
  const ZF_BIT: bv8 := 0x40

  predicate CfOf(fl: bv8) {
    fl & CF_BIT != 0
  }

  predicate ZfOf(fl: bv8) {
    fl & ZF_BIT != 0
  }

  /** The low flag byte with the given carry and zero; its other bits are arbitrary. */
  function FlagByte(junk: bv8, cf: bool, zf: bool): (fl: bv8)
    ensures CfOf(fl) == cf && ZfOf(fl) == zf
  {
    (junk & 0xBE) | (if cf then CF_BIT else 0) | (if zf then ZF_BIT else 0)
  }

  function SetFlags(w: World, m: Machine, cf: bool, zf: bool): Machine {
    m.(fh := w.noise(m.clock).h, fl := FlagByte(w.noise(m.clock).l, cf, zf))
  }

  predicate Taken(cc: Cc, fl: bv8) {
    match cc
    case BE => CfOf(fl) || ZfOf(fl)
    case C => CfOf(fl)
    case NC => !CfOf(fl)
    case E => ZfOf(fl)
    case NE => !ZfOf(fl)
  }

  // ----- registers

  predicate HasLow(v: Val) {
    v.Word? || v.Low?
  }

  function PutLow(v: Val, b: bv8): Val {
    if v.Word? then v.(l := b) else Low(b)
  }

  predicate SrcOk(m: Machine, s: Src)
    requires |m.regs| == 16
  {
    s.Imm? || HasLow(m.regs[s.r])
  }

  function SrcVal(m: Machine, s: Src): bv8
    requires |m.regs| == 16 && SrcOk(m, s)
  {
    if s.Imm? then s.v else m.regs[s.r].l
  }

  function AluResult(op: AluOp, x: bv8, y: bv8): bv8 {
    match op
    case OpAdd => x + y
    case OpSub => x - y
    case OpAnd => x & y
    case OpOr => x | y
    case OpXor => x ^ y
  }

  /** Carry out of bit 7, or borrow into it; the logical operations clear it. */
  predicate AluCarry(op: AluOp, x: bv8, y: bv8) {
    match op
    case OpAdd => Num(x) + Num(y) > 255
    case OpSub => Num(x) < Num(y)
    case _ => false
  }

  predicate AluZero(op: AluOp, x: bv8, y: bv8) {
    AluResult(op, x, y) == 0
  }

  function Negated8(x: bv8): bv8 {
    0 - x
  }

  /** One place to the right, as often as the count says. */
  function ShiftedBy(x: bv8, count: nat): bv8 {
    if count == 0 then x else ShiftedBy(x >> 1, count - 1)
  }

  /** The processor masks a byte shift count to five bits. */
  function ShrResult(x: bv8, count: bv8): bv8 {
    ShiftedBy(x, Num(count & 31))
  }

  function WordValue(v: Val): nat
    requires v.Word?
  {
    v.up * 65536 + Wide(v.h, v.l)
  }

  // ----- what the operators mean

  /** The low sixteen bits are the two bytes, and the rest is above them. */
  lemma WordMeans(v: Val)
    requires v.Word?
    ensures WordValue(v) / 65536 == v.up && WordValue(v) % 65536 == Wide(v.h, v.l)
  {
    hide Wide;
  }

  lemma AluNumbers(x: bv8, y: bv8)
    ensures Num(AluResult(OpAdd, x, y)) == (Num(x) + Num(y)) % 256
    ensures Num(AluResult(OpSub, x, y)) == (Num(x) - Num(y)) % 256
    ensures Num(Negated8(x)) == (0 - Num(x)) % 256
  {
    hide Num;
    AddMeans(x, y, 0);
    MinusMeans(x, y);
    MinusMeans(0, x);
    SameOperators(x, y);
    ZeroIs();
  }

  lemma SameOperators(x: bv8, y: bv8)
    ensures AluResult(OpAdd, x, y) == Alu(Add, x, y, 0) && AluResult(OpSub, x, y) == Minus(x, y) && Negated8(x) == Minus(0, x)
  {}

  lemma AluBits(x: bv8, y: bv8, k: nat)
    requires k < 8
    ensures Has(AluResult(OpAnd, x, y), k) <==> Has(x, k) && Has(y, k)
    ensures Has(AluResult(OpOr, x, y), k) <==> Has(x, k) || Has(y, k)
    ensures Has(AluResult(OpXor, x, y), k) <==> Has(x, k) != Has(y, k)
  {
    AndBit(x, y, 0, k);
    OrBitOf(x, y, k);
    XorBit(x, y, 0, k);
  }

  /** Carry is on exactly when the number leaves the byte, and logical operations clear it; zero is on exactly for
      the result zero. */
  lemma AluFlags(op: AluOp, x: bv8, y: bv8)
    ensures AluCarry(OpAdd, x, y) <==> Num(AluResult(OpAdd, x, y)) != Num(x) + Num(y)
    ensures AluCarry(OpSub, x, y) <==> Num(AluResult(OpSub, x, y)) != Num(x) - Num(y)
    ensures AluCarry(op, x, y) ==> op == OpAdd || op == OpSub
    ensures AluZero(op, x, y) <==> Num(AluResult(op, x, y)) == 0
  {
    hide Num, AluResult;
    AluNumbers(x, y);
    Successor(AluResult(op, x, y));
  }

  /** Every value of the undefined flag bits can come out. */
  lemma FlagsAreFree(w: World, m: Machine, cf: bool, zf: bool, h: bv8, l: bv8)
    ensures var any := w.(noise := n => Noise(h, l, r => (0, 0, 0)));
            var n := SetFlags(any, m, cf, zf);
            n == m.(fh := h, fl := n.fl) && n.fl & 0xBE == l & 0xBE
  {
    JunkStays(l, cf, zf);
  }

  lemma JunkStays(l: bv8, cf: bool, zf: bool)
    ensures FlagByte(l, cf, zf) & 0xBE == l & 0xBE
  {}

  // ----- memory operands

  /** The data-section byte a memory operand denotes: a label and an offset from it. */
  function Locate(m: Machine, mem: Mem): Option<(Label, nat)>
    requires |m.regs| == 16
  {
    match mem
    case At(l, o) => Some((l, o))
    case Off(b, o) => if m.regs[b].Ptr? then Some((m.regs[b].lab, m.regs[b].off + o)) else None
    case Indexed(b, i) =>
      if m.regs[b].Ptr? && m.regs[i].Word? then Some((m.regs[b].lab, m.regs[b].off + WordValue(m.regs[i]))) else None
  }

  function ReadByte(m: Machine, mem: Mem): Option<bv8>
    requires |m.regs| == 16
  {
    match Locate(m, mem)
    case Some((Data, o)) => if o < |m.data| then Some(m.data[o]) else None
    case Some((Registers, o)) => if o < 8 then Some(m.dump[o]) else None
    case _ => None
  }

  function WriteByte(m: Machine, mem: Mem, b: bv8): Option<Machine>
    requires |m.regs| == 16
  {
    match Locate(m, mem)
    case Some((Data, o)) => if o < |m.data| then Some(m.(data := m.data[o := b])) else None
    case Some((Registers, o)) => if o < 8 then Some(m.(dump := m.dump[o := b])) else None
    case _ => None
  }

  // ----- straight-line instructions

  function Put(m: Machine, r: Reg, v: Val): Machine
    requires |m.regs| == 16
  {
    m.(regs := m.regs[r := v])
  }

  function Pop(m: Machine): Machine
    requires |m.stack| > 0
  {
    m.(stack := m.stack[..|m.stack| - 1])
  }

  function Push(m: Machine, s: Slot): Machine {
    m.(stack := m.stack + [s])
  }

  function Top(m: Machine): Slot
    requires |m.stack| > 0
  {
    m.stack[|m.stack| - 1]
  }

  function Effect8(w: World, i: Ins, m: Machine): Option<Machine>
    requires |m.regs| == 16
  {
    match i
    case MovL(d, s) => if SrcOk(m, s) then Some(Put(m, d, PutLow(m.regs[d], SrcVal(m, s)))) else None
    case MovHL(d, f) =>
      if m.regs[d].Word? && HasLow(m.regs[f]) then Some(Put(m, d, m.regs[d].(h := m.regs[f].l))) else None
    case AluL(op, d, s) =>
      if SrcOk(m, s) && HasLow(m.regs[d]) then
        var x, y := m.regs[d].l, SrcVal(m, s);
        Some(SetFlags(w, Put(m, d, PutLow(m.regs[d], AluResult(op, x, y))), AluCarry(op, x, y), AluZero(op, x, y)))
      else None
    case NegL(d) =>
      if HasLow(m.regs[d]) then
        var x := m.regs[d].l;
        Some(SetFlags(w, Put(m, d, PutLow(m.regs[d], Negated8(x))), x != 0, x == 0))
      else None
    case ShrL(d, c) =>
      if HasLow(m.regs[d]) then
        var r := ShrResult(m.regs[d].l, c);
        // a masked count of zero leaves the flags alone; any other count sets the zero flag
        var n := Put(m, d, PutLow(m.regs[d], r));
        Some(if c & 31 == 0 then n else SetFlags(w, n, CfOf(w.noise(m.clock).l), r == 0))
      else None
    case MovzxL(d, f) => if HasLow(m.regs[f]) then Some(Put(m, d, Word(0, 0, m.regs[f].l))) else None
    case MovzxX(d, f) => if m.regs[f].Word? then Some(Put(m, d, m.regs[f].(up := 0))) else None
    case ShrQ(d, c) =>
      // defined here for zero-extended bytes and small counts
      if m.regs[d].Word? && m.regs[d].up == 0 && m.regs[d].h == 0 && 0 < c < 8 then
        var r := ShiftedBy(m.regs[d].l, Num(c));
        Some(SetFlags(w, Put(m, d, Word(0, 0, r)), CfOf(w.noise(m.clock).l), r == 0))
      else None
    case AddZero(d) =>
      if m.regs[d].Word? then Some(SetFlags(w, m, false, WordValue(m.regs[d]) == 0)) else None
    case _ => None
  }

  function EffectMemory(i: Ins, m: Machine): Option<Machine>
    requires |m.regs| == 16
  {
    match i
    case Mov64(d, f) => Some(Put(m, d, m.regs[f]))
    case MovFn(d, f) => Some(Put(m, d, Fn(f)))
    case LoadArgument(d, b) => if m.regs[b] == ArgumentRef then Some(Put(m, d, CoreRef)) else None
    case LoadCore(d) => Some(Put(m, d, m.corePtr))
    case StoreCore(f) => Some(m.(corePtr := m.regs[f]))
    case LoadX(d, c) =>
      if !m.regs[d].Word? then None
      else if c == Flags then Some(Put(m, d, m.regs[d].(h := m.flagH, l := m.flagL)))
      else if c == Counter && m.counter < 65536 then
        Some(Put(m, d, m.regs[d].(h := HighByte(m.counter), l := LowByte(m.counter))))
      else None
    case StoreX(c, f) =>
      if c == Flags && m.regs[f].Word? then Some(m.(flagH := m.regs[f].h, flagL := m.regs[f].l)) else None
    case StoreXImm(c, n) => if c == Counter && n < 65536 then Some(m.(counter := n)) else None
    case LoadL(d, mem) =>
      (match ReadByte(m, mem)
       case Some(b) => Some(Put(m, d, PutLow(m.regs[d], b)))
       case None => None)
    case LoadH(d, mem) =>
      (match ReadByte(m, mem)
       case Some(b) => if m.regs[d].Word? then Some(Put(m, d, m.regs[d].(h := b))) else None
       case None => None)
    case StoreL(mem, f) => if HasLow(m.regs[f]) then WriteByte(m, mem, m.regs[f].l) else None
    case Lea(d, l, o) => Some(Put(m, d, Ptr(l, o)))
    case LeaScaled(d, b, x) =>
      if m.regs[b].Ptr? && m.regs[x].Word? then
        Some(Put(m, d, m.regs[b].(off := m.regs[b].off + 8 * WordValue(m.regs[x]))))
      else None
    case _ => None
  }

  function EffectStack(i: Ins, m: Machine): Option<Machine>
    requires |m.regs| == 16
  {
    match i
    case PushX(r) => if m.regs[r].Word? then Some(Push(m, X(m.regs[r].h, m.regs[r].l))) else None
    case PopX(r) =>
      if |m.stack| > 0 && Top(m).X? && m.regs[r].Word? then
        Some(Pop(Put(m, r, m.regs[r].(h := Top(m).h, l := Top(m).l))))
      else None
    case Pushf => Some(Push(m, X(m.fh, m.fl)))
    case Popf => if |m.stack| > 0 && Top(m).X? then Some(Pop(m.(fh := Top(m).h, fl := Top(m).l))) else None
    case PushQ(r) => Some(Push(m, Q(m.regs[r])))
    case PopQ(r) => if |m.stack| > 0 && Top(m).Q? then Some(Pop(Put(m, r, Top(m).v))) else None
    case NopX => Some(m)
    case _ => None
  }

  /** One instruction that falls through to the next. */
  function Do(w: World, i: Ins, m: Machine): Option<Machine> {
    if |m.regs| != 16 then None
    else
      var e := match i
        case MovL(_, _) | MovHL(_, _) | AluL(_, _, _) | NegL(_) | ShrL(_, _)
           | MovzxL(_, _) | MovzxX(_, _) | ShrQ(_, _) | AddZero(_) => Effect8(w, i, m)
        case PushX(_) | PopX(_) | Pushf | Popf | PushQ(_) | PopQ(_) | NopX => EffectStack(i, m)
        case _ => EffectMemory(i, m);
      match e
      case Some(n) => Some(n.(ip := m.ip + 1, clock := m.clock + 1))
      case None => None
  }

  function HighByte(n: nat): bv8
    requires n < 65536
  {
    ByteOf(n / 256)
  }

  function LowByte(n: nat): bv8 {
    ByteOf(n % 256)
  }

  lemma BytesOfWord(n: nat)
    requires n < 65536
    ensures Wide(HighByte(n), LowByte(n)) == n
  {
    hide Num, ByteOf;
    NumOfByte(n / 256);
    NumOfByte(n % 256);
  }

  // ----- host functions

  predicate CallerSaved(r: nat) {
    r <= 2 || 6 <= r <= 11
  }

  /** Everything but the stack pointer, RBX, RBP and R12 to R15, as the System V convention has it. */
  lemma CalleeSaved(r: nat)
    requires r < 16
    ensures !CallerSaved(r) <==> r == 4 || r == RBX || r == RBP || r == R12 || r == R13 || r == R14 || r == R15
  {}

  /** After a call into the host: caller-saved registers and flags are arbitrary. */
  function Clobber(w: World, m: Machine): Machine
    requires |m.regs| == 16
  {
    var z := w.noise(m.clock);
    m.(regs := seq(16, r requires 0 <= r < 16 =>
         if CallerSaved(r) then Word(z.clobber(r).0, z.clobber(r).1, z.clobber(r).2) else m.regs[r]),
       fh := z.h, fl := z.l)
  }

  /** The host's own view of the flag image: carry is bit 0 and zero is bit 6. */
  function FlagImage(cf: bool, zf: bool): bv8 {
    (if cf then 0x01 else 0) | (if zf then 0x40 else 0)
  }

  function HostLoad(m: Machine): Machine
    requires |m.data| <= RAM_SIZE
  {
    m.(data := m.core.ram[..|m.data|], dump := m.core.regs, counter := m.core.pc,
       flagH := 0, flagL := FlagImage(m.core.cf, m.core.zf))
  }

  function HostSave(m: Machine): Machine
    requires |m.data| <= RAM_SIZE
  {
    m.(core := m.core.(ram := m.data + m.core.ram[|m.data|..], regs := m.dump, pc := m.counter,
                       cf := m.flagL & 0x01 != 0, zf := m.flagL & 0x40 != 0))
  }

  /** The flag word the host writes is 64 for zero plus one for carry. */
  lemma HostFlagsMean(m: Machine)
    requires |m.data| <= RAM_SIZE
    ensures var n := HostLoad(m);
            256 * Num(n.flagH) + Num(n.flagL) == (if m.core.zf then 64 else 0) + if m.core.cf then 1 else 0
  {}

  /** A shift by a count whose five low bits are zero changes nothing; any other sets zero by its result. */
  lemma ShiftFlags(w: World, m: Machine, d: Reg, c: bv8)
    requires |m.regs| == 16 && HasLow(m.regs[d])
    ensures var n := Effect8(w, ShrL(d, c), m);
            && n.Some?
            && (c & 31 == 0 ==> n.value.fl == m.fl && n.value.fh == m.fh)
            && (c & 31 != 0 ==> (ZfOf(n.value.fl) <==> ShrResult(m.regs[d].l, c) == 0))
  {
    hide ShrResult, FlagByte, ZfOf, CfOf;
  }

  function HostCall(w: World, f: HostFn, m: Machine): Option<Machine>
    requires |m.regs| == 16
  {
    if m.regs[RDI] != CoreRef || |m.data| > RAM_SIZE then None
    else match f
      case LoadState => Some(Clobber(w, HostLoad(m)))
      case SaveState => Some(Clobber(w, HostSave(m)))
      case ReadPeripheral =>
        if !m.regs[RSI].Word? then None
        else
          var a := WordValue(m.regs[RSI]);
          var hit := a in w.cfg.peripherals;
          var v: bv8 := if hit then w.dev(m.core.trace, a) else 0;
          var t := if hit then m.core.trace + [PeripheralRead(a, v)] else m.core.trace;
          var n := Clobber(w, m.(core := m.core.(trace := t)));
          Some(Put(n, RAX, Word(0, 0, v)))
      case WritePeripheral =>
        if !m.regs[RSI].Word? || !HasLow(m.regs[RDX]) then None
        else
          var a := WordValue(m.regs[RSI]);
          var t := if a in w.cfg.peripherals then m.core.trace + [PeripheralWrite(a, m.regs[RDX].l)] else m.core.trace;
          Some(Clobber(w, m.(core := m.core.(trace := t))))
  }

  // ----- control transfer

  /** The instruction that starts exactly `off` encoded bytes after instruction k. */
  function WalkTo(code: seq<Ins>, size: Ins -> nat, k: nat, off: nat): Option<nat>
    requires k <= |code|
    decreases |code| - k
  {
    if off == 0 then Some(k)
    else if k < |code| && 0 < size(code[k]) <= off then WalkTo(code, size, k + 1, off - size(code[k]))
    else None
  }

  function LabelIndex(w: World, l: Label): Option<nat> {
    if l in w.img.labels && w.img.labels[l] <= |w.img.code| then Some(w.img.labels[l]) else None
  }

  function Address(w: World, l: Label, off: nat): Option<nat> {
    match LabelIndex(w, l)
    case Some(k) => WalkTo(w.img.code, w.size, k, off)
    case None => None
  }

  function Goto(w: World, m: Machine, k: Option<nat>): Option<Machine> {
    match k
    case Some(n) => Some(m.(ip := n, clock := m.clock + 1))
    case None => None
  }

  function DoControl(w: World, i: Ins, m: Machine): Option<Machine> {
    if |m.regs| != 16 then None
    else match i
      case Jmp(l) => Goto(w, m, LabelIndex(w, l))
      case Jcc(cc, l) => if Taken(cc, m.fl) then Goto(w, m, LabelIndex(w, l)) else Some(m.(ip := m.ip + 1, clock := m.clock + 1))
      case JmpR(r) => if m.regs[r].Ptr? then Goto(w, m, Address(w, m.regs[r].lab, m.regs[r].off)) else None
      case CallR(r) =>
        (match m.regs[r]
         case Ptr(l, o) => Goto(w, Push(m, Ra(m.ip + 1)), Address(w, l, o))
         case Fn(f) =>
           (match HostCall(w, f, m)
            case Some(n) => Some(n.(ip := m.ip + 1, clock := m.clock + 1))
            case None => None)
         case _ => None)
      case Ret =>
        if |m.stack| > 0 && Top(m).Ra? then Some(Pop(m).(ip := Top(m).ip, clock := m.clock + 1))
        else if |m.stack| > 0 && Top(m).HostRa? then Some(Pop(m).(done := true, clock := m.clock + 1))
        else None
      case _ => None
  }

  function StepX(w: World, m: Machine): Option<Machine> {
    if m.done || m.ip >= |w.img.code| then None
    else
      var i := w.img.code[m.ip];
      if IsControl(i) then DoControl(w, i, m) else Do(w, i, m)
  }

  function RunX(w: World, m: Machine, k: nat): Option<Machine>
    decreases k
  {
    if k == 0 then Some(m)
    else
      match StepX(w, m)
      case Some(n) => RunX(w, n, k - 1)
      case None => None
  }

  // ----- composing runs

  lemma {:induction false} RunXAdds(w: World, m: Machine, i: nat, n: Machine, j: nat)
    requires RunX(w, m, i) == Some(n)
    ensures RunX(w, m, i + j) == RunX(w, n, j)
    decreases i
  {
    hide StepX;
    if i > 0 {
      RunXAdds(w, StepX(w, m).value, i - 1, n, j);
    }
  }

  /** A list of instructions, one after the other, none of which transfers control. */
  function Straight(w: World, code: seq<Ins>, m: Machine): Option<Machine> {
    if code == [] then Some(m)
    else
      match Do(w, code[0], m)
      case Some(n) => Straight(w, code[1..], n)
      case None => None
  }

  predicate CodeAt(w: World, k: nat, code: seq<Ins>) {
    k + |code| <= |w.img.code| && w.img.code[k..k + |code|] == code
  }

  lemma {:induction false} StraightRuns(w: World, code: seq<Ins>, m: Machine, n: Machine)
    requires CodeAt(w, m.ip, code) && !m.done && Straight(w, code, m) == Some(n)
    requires NoControl(code)
    ensures RunX(w, m, |code|) == Some(n) && n.ip == m.ip + |code| && !n.done
    decreases |code|
  {
    hide Do;
    if code != [] {
      var p := Do(w, code[0], m).value;
      DoAdvances(w, code[0], m, p);
      assert w.img.code[m.ip] == w.img.code[m.ip..m.ip + |code|][0];
      assert StepX(w, m) == Some(p);
      assert w.img.code[p.ip..p.ip + |code[1..]|] == w.img.code[m.ip..m.ip + |code|][1..];
      StraightRuns(w, code[1..], p, n);
    }
  }

  lemma DoAdvances(w: World, i: Ins, m: Machine, n: Machine)
    requires Do(w, i, m) == Some(n)
    ensures n.ip == m.ip + 1 && n.clock == m.clock + 1 && n.done == m.done
  {
    hide Effect8, EffectMemory, EffectStack;
    Effect8KeepsRunning(w, i, m);
    EffectMemoryKeepsRunning(i, m);
    EffectStackKeepsRunning(i, m);
  }

  lemma Effect8KeepsRunning(w: World, i: Ins, m: Machine)
    requires |m.regs| == 16
    ensures Effect8(w, i, m).Some? ==> Effect8(w, i, m).value.done == m.done
  {
    hide FlagByte, AluResult, AluCarry, AluZero, ShrResult, ShiftedBy, WordValue, CfOf, ZfOf, Negated8, SrcVal, PutLow, Num;
  }

  lemma EffectMemoryKeepsRunning(i: Ins, m: Machine)
    requires |m.regs| == 16
    ensures EffectMemory(i, m).Some? ==> EffectMemory(i, m).value.done == m.done
  {
    hide WordValue, HighByte, LowByte, Locate, PutLow;
  }

  lemma EffectStackKeepsRunning(i: Ins, m: Machine)
    requires |m.regs| == 16
    ensures EffectStack(i, m).Some? ==> EffectStack(i, m).value.done == m.done
  {}

  lemma {:induction false} StraightAppends(w: World, a: seq<Ins>, b: seq<Ins>, m: Machine, n: Machine)
    requires Straight(w, a, m) == Some(n)
    ensures Straight(w, a + b, m) == Straight(w, b, n)
    decreases |a|
  {
    hide Do;
    if a == [] {
      assert a + b == b;
    } else {
      assert (a + b)[1..] == a[1..] + b;
      StraightAppends(w, a[1..], b, Do(w, a[0], m).value, n);
    }
  }
}
