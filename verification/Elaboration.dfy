/** What an assembly source means: the instructions it emits, each under the condition of its own prefix or of the
    innermost enclosing `if`, and the labels between them. The condition is an argument here, not a stack. */
module Elaboration {
  import opened Isa
  import opened Options
  import opened Encoding
  import opened Parsing
  import opened Linker

  /** A finished instruction, a jump to a named label, or a label. */
  datatype Item = Emitted(i: Instr) | Goto(cond: bv4, name: string) | Mark(name: string)

  // ----- words

  function ConditionOf(name: string): Option<bv4> {
    if name == "f" then Some(COND_F)
    else if name == "t" then Some(COND_T)
    else if name == "nbe" || name == "a" then Some(COND_NBE)
    else if name == "nc" || name == "nb" || name == "ae" then Some(COND_NC)
    else if name == "c" || name == "b" || name == "nae" then Some(COND_C)
    else if name == "ne" || name == "nz" then Some(COND_NE)
    else if name == "e" || name == "z" then Some(COND_E)
    else None
  }

  function DigitBit(c: char): bv8 {
    if '0' <= c <= '7' then Bit(c as int - '0' as int) else 0
  }

  /** The set that a string of register digits names. */
  function RegsetBits(digits: string): bv8 {
    if digits == [] then 0 else Or8(RegsetBits(digits[..|digits| - 1]), DigitBit(digits[|digits| - 1]))
  }

  function RegsetOf(t: Token): bv8 {
    if t.text == [] then 0 else RegsetBits(t.text[1..])
  }

  function DigitValue(c: char): nat {
    if '0' <= c <= '9' then c as int - '0' as int
    else if 'a' <= c <= 'z' then c as int - 'a' as int + 10
    else if 'A' <= c <= 'Z' then c as int - 'A' as int + 10
    else 36
  }

  /** The value of the longest prefix of digits. */
  function PrefixValue(s: string, base: nat, acc: nat): nat {
    if s == [] || DigitValue(s[0]) >= base then acc else PrefixValue(s[1..], base, acc * base + DigitValue(s[0]))
  }

  const INT_MAX := 0x7FFF_FFFF

  /** `parseIntWithBase`: zero when the value does not fit an int, and sixteen bits of it otherwise. */
  function ParseInt(s: string, base: nat): nat {
    var v := PrefixValue(s, base, 0);
    if v > INT_MAX then 0 else v % 65536
  }

  function ImmediateOf(text: string): bv8 {
    var v :=
      if |text| >= 2 && text[1] == 'x' then ParseInt(text[2..], 16)
      else if |text| >= 2 && text[1] == 'o' then ParseInt(text[2..], 8)
      else if |text| >= 2 && text[1] == 'b' then ParseInt(text[2..], 2)
      else ParseInt(text, 10);
    ByteOf(v % 256)
  }

  // ----- statements

  datatype Form = Bare | TwoSets | SetAndByte | OneByte | JumpForm

  function MnemonicOf(m: string): Option<(Op, Form)> {
    if m == "nop" then Some((Nop, Bare))
    else if m == "set" then Some((Set, SetAndByte))
    else if m == "ldm" then Some((Ldm, TwoSets))
    else if m == "stm" then Some((Stm, TwoSets))
    else if m == "jmp" then Some((Jpr, JumpForm))
    else if m == "cid" then Some((Cid, OneByte))
    else if m == "ctr" then Some((Ctr, SetAndByte))
    else if m == "nad" then Some((Nad, TwoSets))
    else if m == "and" then Some((And, TwoSets))
    else if m == "xor" then Some((Xor, TwoSets))
    else if m == "shr" then Some((Shr, SetAndByte))
    else if m == "mov" then Some((Mov, TwoSets))
    else if m == "add" then Some((Add, TwoSets))
    else if m == "cmp" then Some((Cmp, TwoSets))
    else None
  }

  /** Set, comma, set. */
  function TwoSetsOf(ts: seq<Token>): Option<(bv8, bv8)> {
    if |ts| >= 3 && ts[0].kind == Regset && ts[1].text == "," && ts[2].kind == Regset
    then Some((RegsetOf(ts[0]), RegsetOf(ts[2])))
    else None
  }

  /** Set, comma, number. */
  function SetAndByteOf(ts: seq<Token>): Option<(bv8, bv8)> {
    if |ts| >= 3 && ts[0].kind == Regset && ts[1].text == "," && ts[2].kind == Integer
    then Some((RegsetOf(ts[0]), ImmediateOf(ts[2].text)))
    else None
  }

  function EmittedFrom(op: Op, cond: bv4, operands: Option<(bv8, bv8)>): Option<Item> {
    match operands
    case Some((a, b)) => Some(Emitted(Instr(op, cond, a, b)))
    case None => None
  }

  /** Tokens behind the operands are ignored. */
  function Operation(m: string, ts: seq<Token>, cond: bv4): Option<Item> {
    match MnemonicOf(m)
    case None => None
    case Some((op, Bare)) => Some(Emitted(Instr(op, cond, 0, 0)))
    case Some((op, TwoSets)) => EmittedFrom(op, cond, TwoSetsOf(ts))
    case Some((op, SetAndByte)) => EmittedFrom(op, cond, SetAndByteOf(ts))
    case Some((op, OneByte)) =>
      if |ts| >= 1 && ts[0].kind == Integer then Some(Emitted(Instr(op, cond, 0, ImmediateOf(ts[0].text)))) else None
    case Some((op, JumpForm)) =>
      if |ts| >= 1 && ts[0].kind == Regset then EmittedFrom(op, cond, TwoSetsOf(ts))
      else if |ts| >= 1 && ts[0].kind == Identifier then Some(Goto(cond, ts[0].text))
      else None
  }

  function FindDot(s: string): (k: Option<nat>)
    ensures k.Some? ==> k.value < |s|
  {
    if s == [] then None else if s[0] == '.' then Some(0) else Later(FindDot(s[1..]), 1)
  }

  /** A mnemonic, perhaps behind a condition and a dot, and its operands. */
  function Statement(ts: seq<Token>, env: bv4): Option<Item> {
    if ts == [] || ts[0].kind != Identifier then None
    else
      var word := ts[0].text;
      match FindDot(word)
      case None => Operation(word, ts[1..], env)
      case Some(d) =>
        match ConditionOf(word[..d])
        case None => None
        case Some(c) => Operation(word[d + 1..], ts[1..], c)
  }

  // ----- sources

  const IF := "if"

  function Joined(a: Option<seq<Item>>, b: Option<seq<Item>>): Option<seq<Item>> {
    if a.Some? && b.Some? then Some(a.value + b.value) else None
  }

  function One(i: Option<Item>): Option<seq<Item>> {
    match i
    case Some(x) => Some([x])
    case None => None
  }

  function LabelName(t: Token): string {
    if t.text == [] then [] else t.text[..|t.text| - 1]
  }

  /** Everything a token list emits under a condition, or None if the assembler reports an error in it. */
  function Elab(ts: seq<Token>, env: bv4): Option<seq<Item>>
    decreases |ts|
  {
    if ts == [] then Some([])
    else if ts[0].kind == Break then Elab(ts[1..], env)
    else if ts[0].text == IF then
      if |ts| < 3 || ts[1].kind != Identifier || ConditionOf(ts[1].text).None? || ts[2].text != BEGIN then None
      else
        var (body, rest) := BlockOf(ts[3..]);
        Joined(Elab(body, ConditionOf(ts[1].text).value), Elab(rest, env))
    else if ts[0].kind == Label then Joined(Some([Mark(LabelName(ts[0]))]), Elab(ts[1..], env))
    else
      var (body, rest) := StatementOf(ts);
      Joined(One(Statement(body, env)), Elab(rest, env))
  }

  // ----- labels

  function CodeCount(items: seq<Item>): nat {
    if items == [] then 0 else CodeCount(items[..|items| - 1]) + if items[|items| - 1].Mark? then 0 else 1
  }

  /** Each label and the number of instructions in front of it. */
  function Marks(items: seq<Item>): map<string, nat> {
    if items == [] then map[]
    else
      var before := items[..|items| - 1];
      match items[|items| - 1]
      case Mark(n) => Marks(before)[n := CodeCount(before)]
      case _ => Marks(before)
  }

  predicate DistinctMarks(items: seq<Item>) {
    items == [] ||
    (var before := items[..|items| - 1];
     DistinctMarks(before) && (items[|items| - 1].Mark? ==> items[|items| - 1].name !in Marks(before)))
  }

  predicate GotosDefined(items: seq<Item>) {
    forall k :: 0 <= k < |items| && items[k].Goto? ==> items[k].name in Marks(items)
  }

  predicate WellLabelled(items: seq<Item>) {
    DistinctMarks(items) && GotosDefined(items)
  }

  // ----- the image

  /** A jump gets the word address of the byte offset of its label. */
  function Resolved(item: Item, marks: map<string, nat>): Instr
    requires !item.Mark? && (item.Goto? ==> item.name in marks)
  {
    if item.Emitted? then item.i
    else var t := Target(3 * marks[item.name]); Instr(Jpi, item.cond, HighPart(t), LowPart(t))
  }

  predicate Covers(marks: map<string, nat>, items: seq<Item>) {
    forall k :: 0 <= k < |items| && items[k].Goto? ==> items[k].name in marks
  }

  function Program(items: seq<Item>, marks: map<string, nat>): (p: seq<Instr>)
    requires Covers(marks, items)
    ensures |p| == CodeCount(items)
  {
    if items == [] then []
    else
      var before := items[..|items| - 1];
      Program(before, marks) + if items[|items| - 1].Mark? then [] else [Resolved(items[|items| - 1], marks)]
  }

  /** The image of a source, or None if the assembler refuses it. */
  function ImageOf(ts: seq<Token>): Option<seq<bv8>> {
    match Elab(ts, COND_T)
    case None => None
    case Some(items) => if WellLabelled(items) then Some(EncodeAll(Program(items, Marks(items)))) else None
  }

  // ----- laws

  /** The body of an `if` is elaborated under its own condition and what follows under the old one, whatever
      the body contains as long as its blocks are closed. */
  lemma IfScopes(word: Token, cond: Token, open: Token, body: seq<Token>, end: Token, rest: seq<Token>, env: bv4)
    requires word.text == "if" && word.kind != Break && cond.kind == Identifier && ConditionOf(cond.text).Some?
    requires open.text == "begin" && end.text == "end" && Balanced(body)
    ensures Elab([word, cond, open] + (body + [end] + rest), env) ==
            Joined(Elab(body, ConditionOf(cond.text).value), Elab(rest, env))
  {
    hide BlockOf, ConditionOf;
    var ts := [word, cond, open] + (body + [end] + rest);
    assert ts[3..] == body + [end] + rest;
    BalancedBlock(body, end, rest);
  }

  /** A statement with its break is elaborated on its own. */
  lemma StatementScopes(body: seq<Token>, end: Token, rest: seq<Token>, env: bv4)
    requires body != [] && end.kind == Break && body[0].text != "if" && body[0].kind != Label
    requires forall k :: 0 <= k < |body| ==> body[k].kind != Break
    ensures Elab(body + [end] + rest, env) == Joined(One(Statement(body, env)), Elab(rest, env))
  {
    hide Statement, FirstBreak;
    var ts := body + [end] + rest;
    assert forall k :: 0 <= k < |body| ==> ts[k] == body[k];
    FirstBreakIsFirst(ts, |body|);
    assert ts[..|body|] == body && ts[|body| + 1..] == rest;
  }

  lemma {:induction false} CodeCountAppends(a: seq<Item>, b: seq<Item>)
    ensures CodeCount(a + b) == CodeCount(a) + CodeCount(b)
    decreases |b|
  {
    if b == [] {
      assert a + b == a;
    } else {
      assert (a + b)[..|a + b| - 1] == a + b[..|b| - 1];
      CodeCountAppends(a, b[..|b| - 1]);
    }
  }

  lemma {:induction false} MarksPrefix(items: seq<Item>, k: nat)
    requires k <= |items|
    ensures Marks(items[..k]).Keys <= Marks(items).Keys
    ensures DistinctMarks(items) ==> DistinctMarks(items[..k]) && forall n :: n in Marks(items[..k]) ==> Marks(items)[n] == Marks(items[..k])[n]
    decreases |items|
  {
    if k == |items| {
      assert items[..k] == items;
    } else {
      assert items[..|items| - 1][..k] == items[..k];
      MarksPrefix(items[..|items| - 1], k);
    }
  }

  /** A label stands for the number of instructions in front of it. */
  lemma MarkIsPosition(items: seq<Item>, k: nat)
    requires k < |items| && items[k].Mark? && DistinctMarks(items)
    ensures items[k].name in Marks(items) && Marks(items)[items[k].name] == CodeCount(items[..k])
  {
    MarksPrefix(items, k + 1);
    assert items[..k + 1][..k] == items[..k];
  }

  lemma {:induction false} ProgramAt(items: seq<Item>, marks: map<string, nat>, k: nat)
    requires Covers(marks, items) && k < |items| && !items[k].Mark?
    ensures CodeCount(items[..k]) < CodeCount(items)
    ensures Program(items, marks)[CodeCount(items[..k])] == Resolved(items[k], marks)
    decreases |items|
  {
    hide Resolved;
    var n := |items| - 1;
    if k == n {
    } else {
      assert items[..n][..k] == items[..k];
      ProgramAt(items[..n], marks, k);
    }
  }

  lemma {:induction false} ProgramComesFromItems(items: seq<Item>, marks: map<string, nat>, j: nat) returns (k: nat)
    requires Covers(marks, items) && j < CodeCount(items)
    ensures k < |items| && !items[k].Mark? && CodeCount(items[..k]) == j
    decreases |items|
  {
    var n := |items| - 1;
    if j == CodeCount(items[..n]) {
      k := n;
    } else {
      k := ProgramComesFromItems(items[..n], marks, j);
      assert items[..n][..k] == items[..k];
    }
  }

  predicate NoExtensionItems(items: seq<Item>) {
    forall k :: 0 <= k < |items| && items[k].Emitted? ==> items[k].i.op != Ext
  }

  lemma OperationIsNoExtension(m: string, ts: seq<Token>, cond: bv4)
    ensures var r := Operation(m, ts, cond); r.Some? && r.value.Emitted? ==> r.value.i.op != Ext
  {
    hide TwoSetsOf, SetAndByteOf, ImmediateOf;
  }

  /** No source emits the reserved operation. */
  lemma {:induction false} ElabHasNoExtension(ts: seq<Token>, env: bv4)
    ensures Elab(ts, env).Some? ==> NoExtensionItems(Elab(ts, env).value)
    decreases |ts|
  {
    hide Closing, FirstBreak, Statement, ConditionOf;
    if ts == [] {
    } else if ts[0].kind == Break || ts[0].text == IF || ts[0].kind == Label {
      if ts[0].kind == Break {
        ElabHasNoExtension(ts[1..], env);
      } else if ts[0].text == IF {
        if |ts| >= 3 {
          ElabHasNoExtension(BlockOf(ts[3..]).1, env);
          if ConditionOf(ts[1].text).Some? {
            ElabHasNoExtension(BlockOf(ts[3..]).0, ConditionOf(ts[1].text).value);
          }
        }
      } else {
        ElabHasNoExtension(ts[1..], env);
      }
    } else {
      var (body, rest) := StatementOf(ts);
      ElabHasNoExtension(rest, env);
      StatementIsNoExtension(body, env);
    }
  }

  lemma StatementIsNoExtension(ts: seq<Token>, env: bv4)
    ensures var r := Statement(ts, env); r.Some? && r.value.Emitted? ==> r.value.i.op != Ext
  {
    hide Operation, ConditionOf;
    if ts != [] {
      var word := ts[0].text;
      OperationIsNoExtension(word, ts[1..], env);
      if FindDot(word).Some? {
        var d := FindDot(word).value;
        if ConditionOf(word[..d]).Some? {
          OperationIsNoExtension(word[d + 1..], ts[1..], ConditionOf(word[..d]).value);
        }
      }
    }
  }

  lemma ProgramHasNoExtension(items: seq<Item>, marks: map<string, nat>)
    requires Covers(marks, items) && NoExtensionItems(items)
    ensures !HasExtension(Program(items, marks))
  {
    hide Program;
    forall j | 0 <= j < |Program(items, marks)| ensures Program(items, marks)[j].op != Ext {
      var k := ProgramComesFromItems(items, marks, j);
      ProgramAt(items, marks, k);
    }
  }

  /** Assembly and decoding. An accepted source decodes to its instructions in order, and a jump, forward or
      backward, leads to the first instruction emitted after its label exactly if the byte offset of that
      instruction fits sixteen bits. */
  lemma AssembledJumps(ts: seq<Token>, j: nat, k: nat)
    requires ImageOf(ts).Some?
    ensures var items := Elab(ts, COND_T).value;
            var r := ToProgram(ImageOf(ts).value);
            && r.Ok? && |r.value| == CodeCount(items)
            && (k < |items| && items[k].Emitted? ==>
                  CodeCount(items[..k]) < |r.value| && r.value[CodeCount(items[..k])] == Normal(items[k].i))
            && (j < |items| && k < |items| && items[k].Goto? && items[j] == Mark(items[k].name) ==>
                  CodeCount(items[..k]) < |r.value| &&
                  var i := r.value[CodeCount(items[..k])];
                  && i.op == Jpi && i.cond == items[k].cond
                  && (Wide(i.a, i.b) == CodeCount(items[..j]) <==> 3 * CodeCount(items[..j]) <= 65535))
  {
    hide Elab, Target, HighPart, LowPart, Wide, EncodeAll, ToProgram, Program, Marks, CodeCount;
    var items := Elab(ts, COND_T).value;
    var marks := Marks(items);
    var p := Program(items, marks);
    ElabHasNoExtension(ts, COND_T);
    ProgramHasNoExtension(items, marks);
    ReadBack(p);
    if k < |items| && !items[k].Mark? {
      ProgramAt(items, marks, k);
      if j < |items| && items[k].Goto? && items[j] == Mark(items[k].name) {
        MarkIsPosition(items, j);
        CountGrows(items, j);
        var t := marks[items[k].name];
        TargetExactly(t);
        PartsOfTarget(Target(3 * t));
      }
    }
  }

  /** So in an image of at most 65535 bytes every jump leads to its label. */
  lemma SmallImagesLink(ts: seq<Token>, j: nat, k: nat)
    requires ImageOf(ts).Some? && |ImageOf(ts).value| <= 65535
    requires var items := Elab(ts, COND_T).value; j < |items| && k < |items| && items[k].Goto? && items[j] == Mark(items[k].name)
    ensures var items := Elab(ts, COND_T).value;
            var r := ToProgram(ImageOf(ts).value);
            && r.Ok? && CodeCount(items[..k]) < |r.value|
            && Wide(r.value[CodeCount(items[..k])].a, r.value[CodeCount(items[..k])].b) == CodeCount(items[..j])
  {
    hide Elab, Wide, EncodeAll, ToProgram, Program, Marks, CodeCount;
    AssembledJumps(ts, j, k);
    CountGrows(Elab(ts, COND_T).value, j);
  }

  lemma CountGrows(items: seq<Item>, k: nat)
    requires k <= |items|
    ensures CodeCount(items[..k]) <= CodeCount(items)
  {
    assert items == items[..k] + items[k..];
    CodeCountAppends(items[..k], items[k..]);
  }
}
