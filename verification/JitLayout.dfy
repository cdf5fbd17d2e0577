/** Where everything lies in an image, and where its jump tables lead. */
module JitLayout {
  import opened Isa
  import opened Options
  import opened X86
  import opened JitCode

  /** A machine that holds the compiled image of a unit, for a program and a memory that fit their fields. */
  ghost predicate Loaded(u: Unit, w: World) {
    && u.Compiles() && GoodSizes(u.size) && u.IsImage(w.img)
    && w.size == u.size && w.cfg == u.cfg
    && SEGMENT_SIZE <= u.cfg.memorySize <= RAM_SIZE && |u.rom| < 65536
  }

  lemma LoadedCompiles(u: Unit, w: World)
    requires Loaded(u, w)
    ensures u.Compiles() && w.size == u.size && w.cfg == u.cfg && GoodSizes(w.size)
    ensures SEGMENT_SIZE <= u.cfg.memorySize <= RAM_SIZE && |u.rom| < 65536
  {}

  function SameSize(n: nat): Ins -> nat {
    (i: Ins) => if i.NopX? then 1 else n
  }

  /** Every size of a jump from one byte to a whole entry is allowed. */
  lemma AllowedSizes(n: nat)
    ensures GoodSizes(SameSize(n)) <==> 1 <= n <= 8
  {
    assert SameSize(n)(Jmp(Start)) == n;
  }

  // ----- parts of the image

  lemma Slices<T>(a: seq<T>, b: seq<T>, c: seq<T>, d: seq<T>, e: seq<T>)
    ensures var whole := a + b + c + d + e;
            var ab, abc, abcd := |a| + |b|, |a| + |b| + |c|, |a| + |b| + |c| + |d|;
            && |whole| == abcd + |e|
            && whole[0..|a|] == a && whole[|a|..ab] == b && whole[ab..abc] == c
            && whole[abc..abcd] == d && whole[abcd..|whole|] == e
  {}

  lemma SubPart(w: World, k: nat, before: seq<Ins>, part: seq<Ins>, after: seq<Ins>)
    requires CodeAt(w, k, before + part + after)
    ensures CodeAt(w, k + |before|, part)
  {
    var whole := before + part + after;
    assert w.img.code[k + |before|..k + |before| + |part|] == w.img.code[k..k + |whole|][|before|..|before| + |part|];
    assert whole[|before|..|before| + |part|] == part;
  }

  lemma FiveParts(w: World, a: seq<Ins>, b: seq<Ins>, c: seq<Ins>, d: seq<Ins>, e: seq<Ins>)
    requires w.img.code == a + b + c + d + e
    ensures CodeAt(w, 0, a) && CodeAt(w, |a|, b) && CodeAt(w, |a| + |b|, c)
    ensures CodeAt(w, |a| + |b| + |c|, d) && CodeAt(w, |a| + |b| + |c| + |d|, e)
  {
    Slices(a, b, c, d, e);
  }

  lemma ImageParts(u: Unit, w: World)
    requires Loaded(u, w)
    ensures CodeAt(w, 0, Prologue())
    ensures CodeAt(w, |Prologue()|, u.Blocks(|u.rom|))
    ensures CodeAt(w, u.BlockStart(|u.rom|), Epilogue(|u.rom|))
    ensures CodeAt(w, u.OffsetsStart(), Table(u.size, u.OffsetTargets()))
    ensures CodeAt(w, u.HelpersStart(), u.Dispatch())
  {
    hide Prologue, Epilogue, Table, GoodSizes, CodeAt, u.Blocks, u.Dispatch, u.OffsetTargets, u.Bound, u.LabelAt;
    FiveParts(w, Prologue(), u.Blocks(|u.rom|), Epilogue(|u.rom|), Table(u.size, u.OffsetTargets()), u.Dispatch());
  }

  lemma {:induction false} BlocksSplit(u: Unit, k: nat, n: nat) returns (rest: seq<Ins>)
    requires u.Compiles() && k <= n <= |u.rom|
    ensures u.Blocks(n) == u.Blocks(k) + rest
    decreases n
  {
    hide CondCode, Body;
    if k == n {
      rest := [];
    } else {
      rest := BlocksSplit(u, k, n - 1);
      rest := rest + u.Block(n - 1);
    }
  }

  lemma BlockAt(u: Unit, w: World, i: nat)
    requires Loaded(u, w) && i < |u.rom|
    ensures CodeAt(w, u.BlockStart(i), u.Block(i)) && u.BlockStart(i + 1) == u.BlockStart(i) + |u.Block(i)|
  {
    hide Prologue, Epilogue, Table, GoodSizes, Loaded, CodeAt, u.Block, u.Code, u.IsImage;
    LoadedCompiles(u, w);
    ImageParts(u, w);
    BlockInBlocks(u, w, |Prologue()|, i);
  }

  lemma BlockInBlocks(u: Unit, w: World, k: nat, i: nat)
    requires u.Compiles() && i < |u.rom| && CodeAt(w, k, u.Blocks(|u.rom|))
    ensures CodeAt(w, k + |u.Blocks(i)|, u.Block(i)) && |u.Blocks(i + 1)| == |u.Blocks(i)| + |u.Block(i)|
  {
    hide CondCode, Body, CodeAt;
    var rest := BlocksSplit(u, i + 1, |u.rom|);
    SubPart(w, k, u.Blocks(i), u.Block(i), rest);
  }

  lemma LabelIsBound(u: Unit, w: World, l: Label)
    requires Loaded(u, w) && u.Bound(l) && u.LabelAt(l) <= |w.img.code|
    ensures LabelIndex(w, l) == Some(u.LabelAt(l))
  {
    hide u.LabelAt, u.Code;
  }

  // ----- walking a jump table

  lemma {:induction false} WalkNops(code: seq<Ins>, size: Ins -> nat, k: nat, n: nat, off: nat)
    requires k + n <= |code| && size(NopX) == 1 && n <= off
    requires forall j :: k <= j < k + n ==> code[j] == NopX
    ensures WalkTo(code, size, k, off) == WalkTo(code, size, k + n, off - n)
    decreases n
  {
    if n > 0 {
      WalkNops(code, size, k + 1, n - 1, off - 1);
    }
  }

  lemma WalkEntry(w: World, target: Label, k: nat, off: nat)
    requires GoodSizes(w.size) && CodeAt(w, k, Padded(w.size, target)) && ENTRY_SIZE <= off
    ensures var n := |Padded(w.size, target)|;
            k + n <= |w.img.code| && WalkTo(w.img.code, w.size, k, off) == WalkTo(w.img.code, w.size, k + n, off - ENTRY_SIZE)
  {
    var code := w.img.code;
    var p := Padded(w.size, target);
    var s := w.size(Jmp(target));
    forall j | k <= j < k + |p| ensures code[j] == p[j - k] {
      assert code[j] == code[k..k + |p|][j - k];
    }
    assert code[k] == Jmp(target);
    WalkNops(code, w.size, k + 1, ENTRY_SIZE - s, off - s);
  }

  /** Entry i of a table of padded jumps starts exactly 8 * i encoded bytes after the table. */
  lemma {:induction false} TableEntry(w: World, targets: seq<Label>, k: nat, i: nat)
    requires GoodSizes(w.size) && CodeAt(w, k, Table(w.size, targets)) && i < |targets|
    ensures var e := WalkTo(w.img.code, w.size, k, ENTRY_SIZE * i);
            e.Some? && e.value < |w.img.code| && w.img.code[e.value] == Jmp(targets[i])
    decreases i
  {
    hide GoodSizes, Padded, Table, CodeAt, WalkTo;
    var first := Padded(w.size, targets[0]);
    var rest := Table(w.size, targets[1..]);
    TableFront(w.size, targets);
    assert [] + first + rest == first + rest == first + rest + [];
    SubPart(w, k, [], first, rest);
    SubPart(w, k, first, rest, []);
    if i > 0 {
      WalkEntry(w, targets[0], k, ENTRY_SIZE * i);
      TableEntry(w, targets[1..], k + |first|, i - 1);
      assert ENTRY_SIZE * i - ENTRY_SIZE == ENTRY_SIZE * (i - 1);
    } else {
      PaddedFront(w, k, targets[0]);
    }
  }

  lemma TableFront(size: Ins -> nat, targets: seq<Label>)
    requires targets != []
    ensures Table(size, targets) == Padded(size, targets[0]) + Table(size, targets[1..])
  {
    hide Padded;
  }

  lemma PaddedFront(w: World, k: nat, target: Label)
    requires CodeAt(w, k, Padded(w.size, target))
    ensures k < |w.img.code| && w.img.code[k] == Jmp(target) && WalkTo(w.img.code, w.size, k, 0) == Some(k)
  {
    assert w.img.code[k] == w.img.code[k..k + |Padded(w.size, target)|][0];
  }

  function BlockLabel(u: Unit, i: nat): Label {
    if i == |u.rom| then End else Inst(i)
  }

  /** INSTRUCTION_OFFSETS + 8 * i holds a jump to the first native instruction of micro instruction i,
      and entry |rom| a jump to the end of the program. */
  lemma OffsetTableLeadsToBlocks(u: Unit, w: World, i: nat)
    requires Loaded(u, w) && i <= |u.rom|
    ensures var e := Address(w, Offsets, ENTRY_SIZE * i);
            && e.Some? && e.value < |w.img.code| && w.img.code[e.value] == Jmp(BlockLabel(u, i))
            && LabelIndex(w, BlockLabel(u, i)) == Some(u.BlockStart(i))
  {
    hide Prologue, Epilogue, Table, GoodSizes;
    ImageParts(u, w);
    LabelIsBound(u, w, Offsets);
    TableEntry(w, u.OffsetTargets(), u.OffsetsStart(), i);
    if i < |u.rom| {
      BlockAt(u, w, i);
    }
    LabelIsBound(u, w, BlockLabel(u, i));
  }

  lemma StepAtJmpR(w: World, m: Machine, r: Reg, k: nat)
    requires CodeAt(w, m.ip, [JmpR(r)]) && |m.regs| == 16 && !m.done && m.regs[r].Ptr?
    requires Address(w, m.regs[r].lab, m.regs[r].off) == Some(k)
    ensures StepX(w, m) == Some(m.(ip := k, clock := m.clock + 1))
  {
    hide Address;
    assert w.img.code[m.ip] == w.img.code[m.ip..m.ip + 1][0] == JmpR(r);
  }

  lemma StepAtJmp(w: World, m: Machine, l: Label, k: nat)
    requires m.ip < |w.img.code| && w.img.code[m.ip] == Jmp(l) && |m.regs| == 16 && !m.done
    requires LabelIndex(w, l) == Some(k)
    ensures StepX(w, m) == Some(m.(ip := k, clock := m.clock + 1))
  {
    hide LabelIndex;
  }

  lemma RunsTwice(w: World, m: Machine, p: Machine, n: Machine)
    requires StepX(w, m) == Some(p) && StepX(w, p) == Some(n)
    ensures RunX(w, m, 2) == Some(n)
  {
    hide StepX;
    assert RunX(w, n, 0) == Some(n);
    assert RunX(w, p, 1) == Some(n);
  }

  lemma RunsOnce(w: World, m: Machine, n: Machine)
    requires StepX(w, m) == Some(n)
    ensures RunX(w, m, 1) == Some(n)
  {
    hide StepX;
    assert RunX(w, n, 0) == Some(n);
  }

  /** An indirect jump through the offset table lands on a block boundary. */
  lemma JumpThroughTable(u: Unit, w: World, i: nat, m: Machine) returns (n: Machine)
    requires Loaded(u, w) && i <= |u.rom| && |m.regs| == 16 && !m.done
    requires m.regs[RAX] == Ptr(Offsets, ENTRY_SIZE * i) && CodeAt(w, m.ip, [JmpR(RAX)])
    ensures RunX(w, m, 2) == Some(n) && n == m.(ip := u.BlockStart(i), clock := n.clock)
  {
    hide Prologue, Epilogue, Table, GoodSizes, Loaded, StepX, Address, LabelIndex, u.Code, u.IsImage;
    LoadedCompiles(u, w);
    OffsetTableLeadsToBlocks(u, w, i);
    var e := Address(w, Offsets, ENTRY_SIZE * i).value;
    StepAtJmpR(w, m, RAX, e);
    var p := m.(ip := e, clock := m.clock + 1);
    StepAtJmp(w, p, BlockLabel(u, i), u.BlockStart(i));
    n := p.(ip := u.BlockStart(i), clock := p.clock + 1);
    RunsTwice(w, m, p, n);
  }
}
