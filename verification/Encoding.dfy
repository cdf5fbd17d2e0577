/** Three bytes per instruction: operation and condition nibbles, then the two argument bytes. */
module Encoding {
  import opened Isa

  datatype Result<+T> = Ok(value: T) | Err(error: Error)

  datatype Error = NotThreeAligned | ExtensionUsed | UnknownLabel | LinkOutOfBounds

  function OpBits(op: Op): bv8 {
    ByteOf(OpCode(op))
  }

  function OpOfBits(x: bv8): Op {
    if x == 0 then Nop
    else if x == 1 then Set
    else if x == 2 then Ldm
    else if x == 3 then Stm
    else if x == 4 then Jpr
    else if x == 5 then Jpi
    else if x == 6 then Cid
    else if x == 7 then Ctr
    else if x == 8 then Nad
    else if x == 9 then And
    else if x == 10 then Xor
    else if x == 11 then Shr
    else if x == 12 then Mov
    else if x == 13 then Ext
    else if x == 14 then Add
    else Cmp
  }

  function Widen(c: bv4): bv8 {
    c as bv8
  }

  function Narrow(x: bv8): bv4 {
    (x & 0x0F) as bv4
  }

  function Head(op: Op, cond: bv4): bv8 {
    (OpBits(op) << 4) | Widen(cond)
  }

  function HeadOp(h: bv8): Op {
    OpOfBits((h & 0xF0) >> 4)
  }

  function HeadCond(h: bv8): bv4 {
    Narrow(h)
  }

  lemma NibblesApart(x: bv8, y: bv8)
    requires x < 16 && y < 16
    ensures (((x << 4) | y) & 0xF0) >> 4 == x && ((x << 4) | y) & 0x0F == y
  {}

  lemma WidenNarrow(c: bv4)
    ensures Widen(c) < 16 && Narrow(Widen(c)) == c
  {}

  lemma NarrowLow(x: bv8, y: bv8)
    requires x & 0x0F == y & 0x0F
    ensures Narrow(x) == Narrow(y)
  {}

  lemma LowNibble(x: bv8)
    requires x < 16
    ensures x & 0x0F == x
  {}

  lemma OpBitsFit(op: Op)
    ensures OpBits(op) < 16 && OpOfBits(OpBits(op)) == op
  {}

  lemma HeadRoundTrip(op: Op, cond: bv4)
    ensures HeadOp(Head(op, cond)) == op && HeadCond(Head(op, cond)) == cond
  {
    hide OpBits, OpOfBits, Widen, Narrow;
    OpBitsFit(op);
    WidenNarrow(cond);
    NibblesApart(OpBits(op), Widen(cond));
    LowNibble(Widen(cond));
    NarrowLow(Head(op, cond), Widen(cond));
  }

  /** The first byte in numbers: operation code and condition, one hexadecimal digit each. */
  lemma HeadMeans(op: Op, cond: bv4)
    ensures Num(Head(op, cond)) == 16 * OpCode(op) + CondNumber(cond)
  {
    hide Num, OpCode, ByteOf, CondNumber;
    NumOfByte(OpCode(op));
    OpBitsFit(op);
    WidenMeans(cond);
    Shifted4(OpBits(op), Widen(cond));
  }

  function CondNumber(c: bv4): nat {
    c as nat
  }

  lemma WidenMeans(c: bv4)
    ensures Num(Widen(c)) == CondNumber(c) < 16 && Widen(c) < 16
  {}

  lemma Shifted4(x: bv8, y: bv8)
    requires x < 16 && y < 16
    ensures Num((x << 4) | y) == 16 * Num(x) + Num(y)
  {}

  /** The bytes of one instruction. */
  function Encode(i: Instr): (s: seq<bv8>)
    ensures |s| == 3
  {
    [Head(i.op, i.cond), i.a, i.b]
  }

  function EncodeAll(p: seq<Instr>): (s: seq<bv8>)
    ensures |s| == 3 * |p|
  {
    if p == [] then [] else EncodeAll(p[..|p| - 1]) + Encode(p[|p| - 1])
  }

  lemma EncodeAppend(p: seq<Instr>, i: Instr)
    ensures EncodeAll(p + [i]) == EncodeAll(p) + Encode(i)
  {
    hide Encode;
    assert (p + [i])[..|p|] == p;
  }

  // ----- decoding

  /** What a reader makes of three bytes; a `nop` loses its condition and arguments. */
  function Decode(head: bv8, a: bv8, b: bv8): Instr {
    if HeadOp(head) == Nop then Instr(Nop, COND_T, 0, 0) else Instr(HeadOp(head), HeadCond(head), a, b)
  }

  function Normal(i: Instr): Instr {
    if i.op == Nop then Instr(Nop, COND_T, 0, 0) else i
  }

  /** The first n instructions of an image. */
  function DecodeFirst(bytes: seq<bv8>, n: nat): (p: seq<Instr>)
    requires 3 * n <= |bytes|
    ensures |p| == n
  {
    if n == 0 then [] else DecodeFirst(bytes, n - 1) + [Decode(bytes[3 * n - 3], bytes[3 * n - 2], bytes[3 * n - 1])]
  }

  predicate HasExtension(p: seq<Instr>) {
    exists k :: 0 <= k < |p| && p[k].op == Ext
  }

  function ToProgram(bytes: seq<bv8>): Result<seq<Instr>> {
    if |bytes| % 3 != 0 then Err(NotThreeAligned)
    else
      var p := DecodeFirst(bytes, |bytes| / 3);
      if HasExtension(p) then Err(ExtensionUsed) else Ok(p)
  }

  /** `MicroReader::toProgram`. */
  method ReadProgram(bytes: seq<bv8>) returns (r: Result<seq<Instr>>)
    ensures r == ToProgram(bytes)
  {
    hide Decode;
    if |bytes| % 3 != 0 {
      return Err(NotThreeAligned);
    }
    var rom: seq<Instr> := [];
    var i := 0;
    ghost var n := 0;
    while i < |bytes|
      invariant 0 <= i <= |bytes| && i == 3 * n && |rom| == n
      invariant rom == DecodeFirst(bytes, n) && !HasExtension(rom)
    {
      var next := Decode(bytes[i], bytes[i + 1], bytes[i + 2]);
      if next.op == Ext {
        DecodedEarly(bytes, n + 1, |bytes| / 3);
        assert DecodeFirst(bytes, n + 1)[n] == next;
        assert DecodeFirst(bytes, |bytes| / 3)[n].op == Ext;
        return Err(ExtensionUsed);
      }
      rom := rom + [next];
      i := i + 3;
      n := n + 1;
    }
    r := Ok(rom);
  }

  lemma {:induction false} DecodedEarly(bytes: seq<bv8>, n: nat, m: nat)
    requires n <= m && 3 * m <= |bytes|
    ensures DecodeFirst(bytes, m)[..n] == DecodeFirst(bytes, n)
    decreases m
  {
    hide Decode;
    if n < m {
      DecodedEarly(bytes, n, m - 1);
    }
  }

  lemma DecodeEncode(i: Instr)
    ensures var s := Encode(i); Decode(s[0], s[1], s[2]) == Normal(i)
  {
    hide Head, HeadOp, HeadCond;
    HeadRoundTrip(i.op, i.cond);
  }

  lemma {:induction false} EncodedAt(p: seq<Instr>, k: nat)
    requires k < |p|
    ensures EncodeAll(p)[3 * k..3 * k + 3] == Encode(p[k])
    decreases |p|
  {
    hide Encode;
    if k < |p| - 1 {
      EncodedAt(p[..|p| - 1], k);
      assert EncodeAll(p)[3 * k..3 * k + 3] == EncodeAll(p[..|p| - 1])[3 * k..3 * k + 3];
    }
  }

  lemma {:induction false} DecodeFirstEncoded(p: seq<Instr>, n: nat)
    requires n <= |p|
    ensures forall k :: 0 <= k < n ==> DecodeFirst(EncodeAll(p), n)[k] == Normal(p[k])
    decreases n
  {
    hide Decode, Normal, Encode;
    if n > 0 {
      DecodeFirstEncoded(p, n - 1);
      EncodedAt(p, n - 1);
      var s := EncodeAll(p);
      assert s[3 * n - 3] == s[3 * n - 3..3 * n][0] && s[3 * n - 2] == s[3 * n - 3..3 * n][1] && s[3 * n - 1] == s[3 * n - 3..3 * n][2];
      DecodeEncode(p[n - 1]);
    }
  }

  /** Reading an encoded program gives it back, up to what a `nop` does not keep. */
  lemma ReadBack(p: seq<Instr>)
    requires !HasExtension(p)
    ensures ToProgram(EncodeAll(p)) == Ok(seq(|p|, k requires 0 <= k < |p| => Normal(p[k])))
  {
    hide Decode, Encode;
    DecodeFirstEncoded(p, |p|);
    var d := DecodeFirst(EncodeAll(p), |p|);
    assert |EncodeAll(p)| / 3 == |p|;
    assert d == seq(|p|, k requires 0 <= k < |p| => Normal(p[k]));
  }
}
