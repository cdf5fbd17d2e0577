/** The assembler as it runs: a token cursor, a writer with a condition stack, and a table of labels. What it
    produces is what Elaboration says the source means. */
module Assembler {
  import opened Isa
  import opened Options
  import opened Encoding
  import opened Parsing
  import opened Linker
  import opened Elaboration

  datatype Known = Known(id: nat, defined: bool)

  function EmitOf(item: Item, labels: map<string, Known>): Emit
    requires !item.Mark?
  {
    if item.Emitted? then Plain(item.i) else Jump(item.cond, if item.name in labels then labels[item.name].id else 0)
  }

  /** The writer's view of a list of items. */
  function Emits(items: seq<Item>, labels: map<string, Known>): (code: seq<Emit>)
    ensures |code| == CodeCount(items)
  {
    if items == [] then []
    else
      var before := items[..|items| - 1];
      Emits(before, labels) + if items[|items| - 1].Mark? then [] else [EmitOf(items[|items| - 1], labels)]
  }

  predicate GotosKnown(items: seq<Item>, labels: map<string, Known>) {
    forall k :: 0 <= k < |items| && items[k].Goto? ==> items[k].name in labels
  }

  predicate SameIds(a: map<string, Known>, b: map<string, Known>) {
    forall n :: n in a ==> n in b && b[n].id == a[n].id
  }

  lemma {:induction false} EmitsStable(items: seq<Item>, a: map<string, Known>, b: map<string, Known>)
    requires GotosKnown(items, a) && SameIds(a, b)
    ensures Emits(items, a) == Emits(items, b) && GotosKnown(items, b)
    decreases |items|
  {
    if items != [] {
      EmitsStable(items[..|items| - 1], a, b);
    }
  }

  /** The labels a list of items jumps to or declares. */
  function Names(items: seq<Item>): set<string> {
    if items == [] then {}
    else Names(items[..|items| - 1]) + if items[|items| - 1].Emitted? then {} else {items[|items| - 1].name}
  }

  lemma NamesLast(items: seq<Item>, item: Item)
    ensures Names(items + [item]) == Names(items) + if item.Emitted? then {} else {item.name}
  {
    assert (items + [item])[..|items|] == items;
  }

  lemma {:induction false} NamesAre(items: seq<Item>, n: string)
    ensures n in Names(items) <==> n in Marks(items) || exists k :: 0 <= k < |items| && items[k].Goto? && items[k].name == n
    decreases |items|
  {
    if items != [] {
      var last := |items| - 1;
      NamesAre(items[..last], n);
      if n in Names(items[..last]) && n !in Marks(items[..last]) {
        var k :| 0 <= k < last && items[..last][k].Goto? && items[..last][k].name == n;
        assert items[k] == items[..last][k];
      }
      if exists k :: 0 <= k < last && items[k].Goto? && items[k].name == n {
        var k :| 0 <= k < last && items[k].Goto? && items[k].name == n;
        assert items[k] == items[..last][k];
      }
    }
  }

  lemma EmitsLast(items: seq<Item>, item: Item, labels: map<string, Known>)
    ensures Emits(items + [item], labels) == Emits(items, labels) + if item.Mark? then [] else [EmitOf(item, labels)]
    ensures Marks(items + [item]) == if item.Mark? then Marks(items)[item.name := CodeCount(items)] else Marks(items)
    ensures DistinctMarks(items + [item]) <==> DistinctMarks(items) && (item.Mark? ==> item.name !in Marks(items))
  {
    assert (items + [item])[..|items|] == items;
  }

  /** The label table and the writer's marks describe the same labels. */
  predicate TableReflects(labels: map<string, Known>, next: nat, marks: map<string, nat>, written: map<nat, nat>) {
    && marks.Keys <= labels.Keys
    && (forall n :: n in labels ==> (labels[n].defined <==> n in marks))
    && (forall n :: n in labels ==> (labels[n].id in written <==> n in marks))
    && (forall n :: n in marks ==> written[labels[n].id] == marks[n])
    && (forall id :: id in written ==> id < next)
  }

  lemma SameAsItself(a: map<string, Known>)
    ensures SameIds(a, a)
  {}

  predicate UniqueIds(labels: map<string, Known>, next: nat) {
    && (forall n :: n in labels ==> labels[n].id < next)
    && (forall m, n :: m in labels && n in labels && labels[m].id == labels[n].id ==> m == n)
  }

  lemma UniqueExtends(labels: map<string, Known>, next: nat, name: string)
    requires UniqueIds(labels, next) && name !in labels
    ensures UniqueIds(labels[name := Known(next, false)], next + 1) && SameIds(labels, labels[name := Known(next, false)])
  {}

  lemma TableExtends(labels: map<string, Known>, next: nat, marks: map<string, nat>, written: map<nat, nat>, name: string)
    requires TableReflects(labels, next, marks, written) && name !in labels
    ensures TableReflects(labels[name := Known(next, false)], next + 1, marks, written)
  {}

  lemma GotosKnownLast(items: seq<Item>, item: Item, labels: map<string, Known>)
    requires GotosKnown(items, labels) && (item.Goto? ==> item.name in labels)
    ensures GotosKnown(items + [item], labels)
  {}

  /** The assembler continues successfully with these tokens. */
  predicate Accepts(items: seq<Item>, ts: seq<Token>, env: bv4) {
    Elab(ts, env).Some? && DistinctMarks(items + Elab(ts, env).value)
  }

  class Assembler {
    var labels: map<string, Known>
    var next: nat
    /** Has an error been reported? */
    var failed: bool
    ghost var items: seq<Item>

    constructor (next: nat)
      ensures labels == map[] && !failed && items == [] && this.next == next
    {
      labels, this.next, failed, items := map[], next, false, [];
    }

    /** The writer holds exactly the items so far, and the label table their labels. */
    ghost predicate Reflects(writer: MicroWriter)
      reads this, writer
    {
      && writer.code == Emits(items, labels) && GotosKnown(items, labels) && DistinctMarks(items)
      && TableReflects(labels, next, Marks(items), writer.marks)
    }

    ghost predicate Sound(writer: MicroWriter)
      reads this, writer
    {
      writer.Valid() && UniqueIds(labels, next) && |writer.stack| > 0 && (!failed ==> Reflects(writer))
    }

    /** Moreover the table has no label that no item names. */
    ghost predicate Consistent(writer: MicroWriter)
      reads this, writer
    {
      Sound(writer) && (!failed ==> labels.Keys == Names(items))
    }

    /** The condition in force. */
    ghost function Env(writer: MicroWriter): bv4
      requires |writer.stack| > 0
      reads writer
    {
      writer.stack[|writer.stack| - 1]
    }

    method GetOrCreateLabel(name: string, ghost writer: MicroWriter) returns (id: nat)
      requires Consistent(writer)
      modifies this`labels, this`next
      ensures Sound(writer) && (!failed ==> labels.Keys == Names(items) + {name})
      ensures name in labels && labels[name].id == id && SameIds(old(labels), labels)
      ensures name in old(labels) ==> labels == old(labels)
      ensures name !in old(labels) ==> labels == old(labels)[name := Known(id, false)]
    {
      hide Emits, Names, Marks, DistinctMarks, GotosKnown, TableReflects, UniqueIds, SameIds, writer.Valid;
      SameAsItself(labels);
      if name in labels {
        return labels[name].id;
      }
      id := next;
      UniqueExtends(labels, next, name);
      if !failed {
        TableExtends(labels, next, Marks(items), writer.marks, name);
        EmitsStable(items, labels, labels[name := Known(id, false)]);
      }
      labels := labels[name := Known(id, false)];
      next := next + 1;
    }

    // ----- emitting

    method Emit(writer: MicroWriter, op: Op, a: bv8, b: bv8)
      requires Consistent(writer)
      modifies this`items, writer`bytes, writer`code
      ensures Consistent(writer) && items == old(items) + [Emitted(Instr(op, Env(writer), a, b))]
    {
      hide Emits, Names, Marks, DistinctMarks, GotosKnown, TableReflects, UniqueIds, SameIds, writer.Valid;
      ghost var item := Emitted(Instr(op, Env(writer), a, b));
      EmitsLast(items, item, labels);
      NamesLast(items, item);
      if !failed {
        GotosKnownLast(items, item, labels);
      }
      writer.PutOp(op, a, b);
      items := items + [item];
    }

    method EmitGoto(writer: MicroWriter, name: string)
      requires Consistent(writer)
      modifies this`items, this`labels, this`next, writer`bytes, writer`code, writer`links
      ensures Consistent(writer) && items == old(items) + [Goto(Env(writer), name)]
    {
      hide Emits, Names, Marks, DistinctMarks, GotosKnown, TableReflects, UniqueIds, SameIds, writer.Valid;
      var id := GetOrCreateLabel(name, writer);
      ghost var item := Goto(Env(writer), name);
      EmitsLast(items, item, labels);
      NamesLast(items, item);
      if !failed {
        GotosKnownLast(items, item, labels);
      }
      writer.PutJump(id);
      items := items + [item];
    }

    // ----- operands

    /** None where the source raises a message; the message is recorded. */
    method ParseRegisterSet(parser: Parser) returns (r: Option<bv8>)
      requires parser.Valid()
      modifies parser, this`failed
      ensures parser.Valid()
      ensures var ts := old(parser.Rest());
              && (r.Some? <==> ts != [] && ts[0].kind == Regset)
              && (r.Some? ==> r.value == RegsetOf(ts[0]) && parser.Rest() == ts[1..])
              && failed == (old(failed) || r.None?)
    {
      hide DigitBit;
      var token := parser.Expect(IsKind(Regset));
      if token.None? {
        failed := true;
        return None;
      }
      var digits := token.value.text;
      if digits == [] {
        return Some(0);
      }
      var bits: bv8 := 0;
      for i := 1 to |digits|
        invariant bits == RegsetBits(digits[1..i])
      {
        assert digits[1..i + 1][..i - 1] == digits[1..i];
        bits := Or8(bits, DigitBit(digits[i]));
      }
      assert digits[1..|digits|] == digits[1..];
      r := Some(bits);
    }

    method ParseImmediate(parser: Parser) returns (r: Option<bv8>)
      requires parser.Valid()
      modifies parser, this`failed
      ensures parser.Valid()
      ensures var ts := old(parser.Rest());
              && (r.Some? <==> ts != [] && ts[0].kind == Integer)
              && (r.Some? ==> r.value == ImmediateOf(ts[0].text) && parser.Rest() == ts[1..])
              && failed == (old(failed) || r.None?)
    {
      hide ParseInt, ByteOf;
      var token := parser.Expect(IsKind(Integer));
      if token.None? {
        failed := true;
        return None;
      }
      var text := token.value.text;
      if |text| >= 2 {
        if text[1] == 'x' {
          return Some(ByteOf(ParseInt(text[2..], 16) % 256));
        }
        if text[1] == 'o' {
          return Some(ByteOf(ParseInt(text[2..], 8) % 256));
        }
        if text[1] == 'b' {
          return Some(ByteOf(ParseInt(text[2..], 2) % 256));
        }
      }
      r := Some(ByteOf(ParseInt(text, 10) % 256));
    }

    method ParseTwoSets(parser: Parser) returns (r: Option<(bv8, bv8)>)
      requires parser.Valid()
      modifies parser, this`failed
      ensures parser.Valid() && r == TwoSetsOf(old(parser.Rest())) && failed == (old(failed) || r.None?)
    {
      hide RegsetOf;
      var a := ParseRegisterSet(parser);
      if a.None? {
        return None;
      }
      var comma := parser.Expect(IsText(","));
      if comma.None? {
        failed := true;
        return None;
      }
      var b := ParseRegisterSet(parser);
      if b.None? {
        return None;
      }
      r := Some((a.value, b.value));
    }

    method ParseSetAndByte(parser: Parser) returns (r: Option<(bv8, bv8)>)
      requires parser.Valid()
      modifies parser, this`failed
      ensures parser.Valid() && r == SetAndByteOf(old(parser.Rest())) && failed == (old(failed) || r.None?)
    {
      hide RegsetOf, ImmediateOf;
      var a := ParseRegisterSet(parser);
      if a.None? {
        return None;
      }
      var comma := parser.Expect(IsText(","));
      if comma.None? {
        failed := true;
        return None;
      }
      var b := ParseImmediate(parser);
      if b.None? {
        return None;
      }
      r := Some((a.value, b.value));
    }

    // ----- operations

    /** What every parsing step promises: the stack is as before, and the item is recorded or an error is. */
    twostate predicate Records(writer: MicroWriter, item: Option<Item>)
      reads this, writer
    {
      && Consistent(writer) && writer.stack == old(writer.stack)
      && failed == (old(failed) || item.None?)
      && (!failed ==> items == old(items) + [item.value])
    }

    method TwoSetOperation(parser: Parser, op: Op, writer: MicroWriter)
      requires parser.Valid() && Consistent(writer)
      modifies parser, this, writer`bytes, writer`code
      ensures Records(writer, EmittedFrom(op, old(Env(writer)), TwoSetsOf(old(parser.Rest()))))
      ensures labels == old(labels)
    {
      hide TwoSetsOf, Emits, Marks, DistinctMarks, GotosKnown, TableReflects, UniqueIds;
      var operands := ParseTwoSets(parser);
      if operands.Some? {
        Emit(writer, op, operands.value.0, operands.value.1);
      }
    }

    method SetAndByteOperation(parser: Parser, op: Op, writer: MicroWriter)
      requires parser.Valid() && Consistent(writer)
      modifies parser, this, writer`bytes, writer`code
      ensures Records(writer, EmittedFrom(op, old(Env(writer)), SetAndByteOf(old(parser.Rest()))))
    {
      hide SetAndByteOf, Emits, Marks, DistinctMarks, GotosKnown, TableReflects, UniqueIds;
      var operands := ParseSetAndByte(parser);
      if operands.Some? {
        Emit(writer, op, operands.value.0, operands.value.1);
      }
    }

    method ByteOperation(parser: Parser, op: Op, writer: MicroWriter)
      requires parser.Valid() && Consistent(writer)
      modifies parser, this, writer`bytes, writer`code
      ensures var ts := old(parser.Rest());
              Records(writer, if |ts| >= 1 && ts[0].kind == Integer then Some(Emitted(Instr(op, old(Env(writer)), 0, ImmediateOf(ts[0].text)))) else None)
    {
      hide ImmediateOf, Emits, Marks, DistinctMarks, GotosKnown, TableReflects, UniqueIds, SameIds, writer.Valid;
      var page := ParseImmediate(parser);
      if page.Some? {
        Emit(writer, op, 0, page.value);
      }
    }

    method JumpOperation(parser: Parser, writer: MicroWriter)
      requires parser.Valid() && Consistent(writer)
      modifies parser, this, writer`bytes, writer`code, writer`links
      ensures var ts := old(parser.Rest());
              Records(writer,
                if |ts| >= 1 && ts[0].kind == Regset then EmittedFrom(Jpr, old(Env(writer)), TwoSetsOf(ts))
                else if |ts| >= 1 && ts[0].kind == Identifier then Some(Goto(old(Env(writer)), ts[0].text))
                else None)
    {
      hide TwoSetsOf, Emits, Marks, DistinctMarks, GotosKnown, TableReflects, UniqueIds, SameIds, writer.Valid;
      var first := parser.Peek();
      if first.None? {
        failed := true;
        return;
      }
      if first.value.kind == Regset {
        TwoSetOperation(parser, Jpr, writer);
        return;
      }
      var token := parser.Expect(IsKind(Identifier));
      if token.None? {
        failed := true;
        return;
      }
      EmitGoto(writer, token.value.text);
    }

    /** `parseOperation`. Whatever follows the operands is ignored; no message leaves this method. */
    method ParseOperation(parser: Parser, mnemonic: string, writer: MicroWriter)
      requires parser.Valid() && Consistent(writer)
      modifies parser, this, writer`bytes, writer`code, writer`links
      ensures Records(writer, Operation(mnemonic, old(parser.Rest()), old(Env(writer))))
    {
      hide TwoSetsOf, SetAndByteOf, ImmediateOf, Emits, Marks, DistinctMarks, GotosKnown, TableReflects, UniqueIds, SameIds, writer.Valid, EmittedFrom, Records;
      if mnemonic == "nop" {
        EmitNop(writer);
      } else if mnemonic == "set" {
        SetAndByteOperation(parser, Set, writer);
      } else if mnemonic == "ldm" {
        TwoSetOperation(parser, Ldm, writer);
      } else if mnemonic == "stm" {
        TwoSetOperation(parser, Stm, writer);
      } else if mnemonic == "jmp" {
        JumpOperation(parser, writer);
      } else if mnemonic == "cid" {
        ByteOperation(parser, Cid, writer);
      } else if mnemonic == "ctr" {
        SetAndByteOperation(parser, Ctr, writer);
      } else if mnemonic == "nad" {
        TwoSetOperation(parser, Nad, writer);
      } else if mnemonic == "and" {
        TwoSetOperation(parser, And, writer);
      } else if mnemonic == "xor" {
        TwoSetOperation(parser, Xor, writer);
      } else if mnemonic == "shr" {
        SetAndByteOperation(parser, Shr, writer);
      } else if mnemonic == "mov" {
        TwoSetOperation(parser, Mov, writer);
      } else if mnemonic == "add" {
        TwoSetOperation(parser, Add, writer);
      } else if mnemonic == "cmp" {
        TwoSetOperation(parser, Cmp, writer);
      } else {
        Unreachable(writer);
      }
    }

    method EmitNop(writer: MicroWriter)
      requires Consistent(writer)
      modifies this, writer`bytes, writer`code
      ensures Records(writer, Some(Emitted(Instr(Nop, old(Env(writer)), 0, 0))))
    {
      hide Emits, Names, Marks, DistinctMarks, GotosKnown, TableReflects, UniqueIds, SameIds, writer.Valid;
      Emit(writer, Nop, 0, 0);
    }

    /** An unknown mnemonic. */
    method Unreachable(writer: MicroWriter)
      requires Consistent(writer)
      modifies this`failed
      ensures Records(writer, None)
    {
      failed := true;
    }

    // ----- statements

    /** `parseStatement`: raises only if there is no identifier; a condition prefix is in force for this
        statement alone. */
    method ParseStatement(parser: Parser, writer: MicroWriter) returns (raised: bool)
      requires parser.Valid() && Consistent(writer)
      modifies parser, this, writer
      ensures Records(writer, Statement(old(parser.Rest()), old(Env(writer)))) && (raised ==> failed)
    {
      hide Operation, ConditionOf, Emits, Marks, DistinctMarks, GotosKnown, TableReflects, UniqueIds, SameIds, writer.Valid;
      raised := false;
      var token := parser.Expect(IsKind(Identifier));
      if token.None? {
        failed := true;
        return true;
      }
      var word := token.value.text;
      var dot := FindDot(word);
      if dot.Some? {
        var cond := ConditionOf(word[..dot.value]);
        if cond.None? {
          failed := true;
          return;
        }
        writer.PushCondition(cond.value);
        ParseOperation(parser, word[dot.value + 1..], writer);
        writer.PopCondition();
      } else {
        ParseOperation(parser, word, writer);
      }
    }

    /** A label that is not defined yet. */
    method DefineLabel(name: string, id: nat, writer: MicroWriter)
      requires Sound(writer) && name in labels && labels[name] == Known(id, false)
      requires !failed ==> labels.Keys == Names(items) + {name}
      modifies this`labels, this`items, writer`labels, writer`marks
      ensures Consistent(writer) && items == old(items) + [Mark(name)]
    {
      hide Emits, Names, Marks, DistinctMarks, GotosKnown, TableReflects, UniqueIds, SameIds, writer.Valid;
      var after := labels[name := Known(id, true)];
      RedefinedIds(labels, next, name);
      assert after.Keys == labels.Keys;
      if !failed {
        TableDefines(labels, next, Marks(items), writer.marks, name, CodeCount(items));
        EmitsStable(items, labels, after);
        EmitsLast(items, Mark(name), after);
        NamesLast(items, Mark(name));
        GotosKnownLast(items, Mark(name), after);
      }
      labels := after;
      writer.PutLabel(id);
      items := items + [Mark(name)];
    }

    // ----- the root

    /** A label token. Declaring a label twice is reported, and parsing goes on. */
    method ParseLabel(token: Token, writer: MicroWriter)
      requires Consistent(writer) && token.kind == Label
      modifies this, writer`labels, writer`marks
      ensures Consistent(writer)
      ensures failed == (old(failed) || !DistinctMarks(old(items) + [Mark(LabelName(token))]))
      ensures !failed ==> items == old(items) + [Mark(LabelName(token))]
    {
      hide Emits, Names, Marks, DistinctMarks, GotosKnown, UniqueIds, SameIds, writer.Valid;
      var name := LabelName(token);
      var id := GetOrCreateLabel(name, writer);
      EmitsLast(items, Mark(name), labels);
      if labels[name].defined {
        failed := true;
        return;
      }
      DefineLabel(name, id, writer);
    }

    /** `parseRoot`. On return the condition stack is as on entry, whatever happened, and the sink has an error
        exactly if it had one before or the tokens do not elaborate. */
    method ParseRoot(parser: Parser, writer: MicroWriter) returns (raised: bool)
      requires parser.Valid() && Consistent(writer)
      modifies parser, this, writer
      ensures Consistent(writer) && writer.stack == old(writer.stack) && (raised ==> failed)
      ensures failed <==> old(failed) || !Accepts(old(items), old(parser.Rest()), old(Env(writer)))
      ensures !failed ==> items == old(items) + Elab(old(parser.Rest()), old(Env(writer))).value
      decreases |parser.Rest()|
    {
      hide Emits, Names, Marks, DistinctMarks, GotosKnown, TableReflects, UniqueIds, SameIds, writer.Valid, Elab, Accepts, Progress;
      hide ConditionOf, Statement, Closing, FirstBreak, SplitAt, LabelName;
      raised := false;
      ghost var env, all, first := Env(writer), parser.Rest(), items;
      ProgressStarts(first, all, env);
      while !parser.Empty()
        invariant parser.Valid() && Consistent(writer) && writer.stack == old(writer.stack)
        invariant failed ==> old(failed) || !Accepts(first, all, env)
        invariant !failed ==> !old(failed) && Progress(first, all, items, parser.Rest(), env)
        invariant |parser.Rest()| <= |all|
        decreases |parser.Rest()|
      {
        ghost var ts, before := parser.Rest(), items;
        var isBreak := parser.Match(IsKind(Break));
        if isBreak {
          StepBreak(before, ts, env);
          ProgressContinues(first, all, before, ts, before, ts[1..], env);
          continue;
        }
        var isIf := parser.Match(IsText(IF));
        if isIf {
          raised := ParseIf(parser, ts, writer);
          ProgressContinues(first, all, before, ts, items, parser.Rest(), env);
          if raised {
            return;
          }
          continue;
        }
        var token := parser.Peek();
        var isLabel := parser.Match(IsKind(Label));
        if isLabel {
          ParseLabel(token.value, writer);
          StepLabel(before, ts, env);
          ProgressContinues(first, all, before, ts, items, ts[1..], env);
          continue;
        }
        var body := parser.UntilBreak();
        raised := ParseStatement(body, writer);
        StepStatement(before, ts, env);
        ProgressContinues(first, all, before, ts, items, parser.Rest(), env);
        if raised {
          return;
        }
      }
      if !failed {
        ProgressEnds(first, all, items, env);
      }
    }

    /** The part of `parseRoot` behind the word `if`. */
    method ParseIf(parser: Parser, ghost ts: seq<Token>, writer: MicroWriter) returns (raised: bool)
      requires parser.Valid() && Consistent(writer) && ts != [] && ts[0].text == IF && ts[0].kind != Break
      requires parser.Rest() == ts[1..]
      modifies parser, this, writer
      ensures parser.Valid() && Consistent(writer) && writer.stack == old(writer.stack) && (raised ==> failed)
      ensures |parser.Rest()| < |ts|
      ensures failed ==> old(failed) || !Accepts(old(items), ts, old(Env(writer)))
      ensures !failed ==> !old(failed) && Progress(old(items), ts, items, parser.Rest(), old(Env(writer)))
      decreases |ts| - 1
    {
      hide Emits, Names, Marks, DistinctMarks, GotosKnown, TableReflects, UniqueIds, SameIds, writer.Valid, Elab, Accepts, Progress;
      hide ConditionOf, Statement, Closing, FirstBreak, BlockOf;
      raised := false;
      ghost var env, before := Env(writer), items;
      BadIf(before, ts, env);
      var name := parser.Expect(IsKind(Identifier));
      if name.None? {
        failed := true;
        return true;
      }
      var cond := ConditionOf(name.value.text);
      if cond.None? {
        failed := true;
      }
      var begin := parser.Expect(IsText(BEGIN));
      if begin.None? {
        failed := true;
        return true;
      }
      assert parser.Rest() == ts[3..];
      BlockShrinks(ts[3..]);
      var block := parser.Block();
      if cond.Some? {
        StepBlock(before, ts, env);
        writer.PushCondition(cond.value);
        raised := ParseRoot(block, writer);
        writer.PopCondition();
      }
    }

    /** `assemble`. The result is the image that the source means, or nothing if it means none; then an error
        has been reported. */
    method Assemble(tokens: seq<Token>) returns (r: Option<seq<bv8>>)
      requires labels == map[] && !failed && items == []
      modifies this
      ensures r == ImageOf(tokens) && failed == r.None?
    {
      hide Emits, Names, Marks, DistinctMarks, GotosKnown, TableReflects, UniqueIds, Elab, EncodeAll, Program, GotosDefined, Target;
      NothingYet(next);
      var parser := new Parser(tokens, 0, |tokens|, 0);
      var writer := new MicroWriter();
      assert parser.Rest() == tokens;
      var raised := ParseRoot(parser, writer);
      NoItems(Elab(tokens, COND_T));
      if raised {
        return None;
      }
      var undefined := UndefinedLabel(writer);
      if undefined {
        failed := true;
      }
      if failed {
        return None;
      }
      LabelsAgree(items, labels, next, writer.marks, writer.labels);
      var image := writer.Bake();
      r := Some(image.value);
    }

    /** Is some label used but not declared? */
    method UndefinedLabel(writer: MicroWriter) returns (found: bool)
      requires Consistent(writer)
      ensures !failed ==> (found <==> !GotosDefined(items))
    {
      hide Names, Marks, DistinctMarks, Emits, GotosKnown, TableReflects, UniqueIds, writer.Valid, GotosDefined;
      var names := labels.Keys;
      found := false;
      while names != {}
        invariant names <= labels.Keys
        invariant found <==> exists n :: n in labels.Keys - names && !labels[n].defined
        decreases |names|
      {
        var n :| n in names;
        if !labels[n].defined {
          found := true;
        }
        ghost var before := labels.Keys - names;
        names := names - {n};
        assert labels.Keys - names == before + {n};
      }
      if !failed {
        UndefinedMeansGoto(items, labels, next, writer.marks);
      }
    }
  }

  lemma RedefinedIds(labels: map<string, Known>, next: nat, name: string)
    requires UniqueIds(labels, next) && name in labels
    ensures var after := labels[name := labels[name].(defined := true)];
            UniqueIds(after, next) && SameIds(labels, after)
  {}

  lemma TableDefines(labels: map<string, Known>, next: nat, marks: map<string, nat>, written: map<nat, nat>, name: string, at: nat)
    requires TableReflects(labels, next, marks, written) && UniqueIds(labels, next) && name in labels && !labels[name].defined
    ensures TableReflects(labels[name := labels[name].(defined := true)], next, marks[name := at], written[labels[name].id := at])
    ensures name !in marks
  {}

  // ----- how far a token list has been parsed

  /** From `items` on, `ts` is still to be parsed; together that is what `first` and `all` were. */
  predicate Progress(first: seq<Item>, all: seq<Token>, items: seq<Item>, ts: seq<Token>, env: bv4) {
    && (Accepts(first, all, env) <==> Accepts(items, ts, env))
    && (Accepts(items, ts, env) ==> first + Elab(all, env).value == items + Elab(ts, env).value)
  }

  lemma ProgressStarts(first: seq<Item>, all: seq<Token>, env: bv4)
    ensures Progress(first, all, first, all, env)
  {
    hide Elab, DistinctMarks;
  }

  lemma ProgressContinues(first: seq<Item>, all: seq<Token>, i: seq<Item>, ts: seq<Token>, j: seq<Item>, rest: seq<Token>, env: bv4)
    ensures Progress(first, all, i, ts, env) && Progress(i, ts, j, rest, env) ==> Progress(first, all, j, rest, env)
    ensures Progress(first, all, i, ts, env) && !Accepts(i, ts, env) ==> !Accepts(first, all, env)
  {
    hide Elab, DistinctMarks;
  }

  lemma ProgressEnds(first: seq<Item>, all: seq<Token>, items: seq<Item>, env: bv4)
    requires DistinctMarks(items)
    ensures Progress(first, all, items, [], env) ==> Accepts(first, all, env) && items == first + Elab(all, env).value
  {
    hide DistinctMarks;
    assert items + [] == items;
    assert Elab([], env) == Some([]);
  }

  lemma StepBreak(items: seq<Item>, ts: seq<Token>, env: bv4)
    requires ts != [] && ts[0].kind == Break
    ensures Progress(items, ts, items, ts[1..], env)
  {
    hide DistinctMarks;
  }

  lemma {:induction false} DistinctPrefix(a: seq<Item>, b: seq<Item>)
    requires DistinctMarks(a + b)
    ensures DistinctMarks(a)
    decreases |b|
  {
    if b == [] {
      assert a + b == a;
    } else {
      assert (a + b)[..|a + b| - 1] == a + b[..|b| - 1];
      DistinctPrefix(a, b[..|b| - 1]);
    }
  }

  /** One part of a token list that elaborates to `part`, and the rest. */
  lemma StepPart(items: seq<Item>, ts: seq<Token>, part: Option<seq<Item>>, rest: seq<Token>, env: bv4)
    requires Elab(ts, env) == Joined(part, Elab(rest, env))
    ensures part.None? ==> !Accepts(items, ts, env)
    ensures part.Some? && !DistinctMarks(items + part.value) ==> !Accepts(items, ts, env)
    ensures part.Some? ==> Progress(items, ts, items + part.value, rest, env)
  {
    hide Elab, DistinctMarks;
    if part.Some? && Elab(rest, env).Some? {
      assert items + (part.value + Elab(rest, env).value) == items + part.value + Elab(rest, env).value;
      if DistinctMarks(items + part.value + Elab(rest, env).value) {
        DistinctPrefix(items + part.value, Elab(rest, env).value);
      }
    }
  }

  lemma StepLabel(items: seq<Item>, ts: seq<Token>, env: bv4)
    requires ts != [] && ts[0].kind == Label && ts[0].text != IF
    ensures !DistinctMarks(items + [Mark(LabelName(ts[0]))]) ==> !Accepts(items, ts, env)
    ensures Progress(items, ts, items + [Mark(LabelName(ts[0]))], ts[1..], env)
  {
    hide DistinctMarks, Accepts, Progress, LabelName;
    StepPart(items, ts, Some([Mark(LabelName(ts[0]))]), ts[1..], env);
  }

  lemma StepStatement(items: seq<Item>, ts: seq<Token>, env: bv4)
    requires ts != [] && ts[0].kind != Label && ts[0].text != IF && ts[0].kind != Break
    ensures var (body, rest) := StatementOf(ts);
            var item := Statement(body, env);
            && |rest| < |ts|
            && (item.None? ==> !Accepts(items, ts, env))
            && (item.Some? ==> Progress(items, ts, items + [item.value], rest, env))
  {
    hide DistinctMarks, Accepts, Progress, Statement, FirstBreak;
    var (body, rest) := StatementOf(ts);
    StepPart(items, ts, One(Statement(body, env)), rest, env);
  }

  /** The error cases of `if`. */
  lemma BadIf(items: seq<Item>, ts: seq<Token>, env: bv4)
    requires ts != [] && ts[0].text == IF && ts[0].kind != Break
    ensures |ts| < 3 || ts[1].kind != Identifier || ConditionOf(ts[1].text).None? || ts[2].text != BEGIN ==> !Accepts(items, ts, env)
  {
    hide ConditionOf, DistinctMarks;
  }

  lemma BlockShrinks(ts: seq<Token>)
    ensures |BlockOf(ts).0| <= |ts| && |BlockOf(ts).1| <= |ts|
  {
    hide Closing;
  }

  lemma StepBlock(items: seq<Item>, ts: seq<Token>, env: bv4)
    requires |ts| >= 3 && ts[0].text == IF && ts[0].kind != Break && ts[1].kind == Identifier
    requires ConditionOf(ts[1].text).Some? && ts[2].text == BEGIN
    ensures var (body, rest) := BlockOf(ts[3..]);
            var c := ConditionOf(ts[1].text).value;
            && (!Accepts(items, body, c) ==> !Accepts(items, ts, env))
            && (Accepts(items, body, c) ==> Progress(items, ts, items + Elab(body, c).value, rest, env))
  {
    hide DistinctMarks, Progress, ConditionOf, BlockOf;
    var (body, rest) := BlockOf(ts[3..]);
    StepPart(items, ts, Elab(body, ConditionOf(ts[1].text).value), rest, env);
  }

  // ----- the image

  lemma NothingYet(next: nat)
    ensures UniqueIds(map[], next) && TableReflects(map[], next, Marks([]), map[])
    ensures Emits([], map[]) == [] && DistinctMarks([]) && GotosKnown([], map[])
    ensures var none: map<string, Known> := map[]; none.Keys == Names([])
  {}

  lemma NoItems(its: Option<seq<Item>>)
    ensures its.Some? ==> [] + its.value == its.value
  {}

  lemma UndefinedMeansGoto(items: seq<Item>, labels: map<string, Known>, next: nat, written: map<nat, nat>)
    requires TableReflects(labels, next, Marks(items), written) && labels.Keys == Names(items)
    ensures (exists n :: n in labels && !labels[n].defined) <==> !GotosDefined(items)
  {
    hide Marks, Names;
    if n :| n in labels && !labels[n].defined {
      NamesAre(items, n);
    }
    if k :| 0 <= k < |items| && items[k].Goto? && items[k].name !in Marks(items) {
      NamesAre(items, items[k].name);
      assert items[k].name in labels && !labels[items[k].name].defined;
    }
  }

  /** The linked code of the writer is the program of the items. */
  lemma LabelsAgree(items: seq<Item>, labels: map<string, Known>, next: nat, written: map<nat, nat>, offsets: map<nat, nat>)
    requires TableReflects(labels, next, Marks(items), written) && GotosDefined(items)
    requires offsets.Keys == written.Keys && forall id :: id in offsets ==> offsets[id] == 3 * written[id]
    ensures Linkable(Emits(items, labels), offsets)
    ensures LinkedAll(Emits(items, labels), offsets) == Program(items, Marks(items))
  {
    hide Marks, Emits, Program, Target;
    LinkedIsProgram(items, labels, Marks(items), offsets);
  }

  lemma {:induction false} LinkedIsProgram(items: seq<Item>, labels: map<string, Known>, marks: map<string, nat>, offsets: map<nat, nat>)
    requires Covers(marks, items) && marks.Keys <= labels.Keys
    requires forall n :: n in marks ==> labels[n].id in offsets && offsets[labels[n].id] == 3 * marks[n]
    ensures Linkable(Emits(items, labels), offsets)
    ensures LinkedAll(Emits(items, labels), offsets) == Program(items, marks)
    decreases |items|
  {
    hide Target;
    if items != [] {
      var before, last := items[..|items| - 1], items[|items| - 1];
      LinkedIsProgram(before, labels, marks, offsets);
      if !last.Mark? {
        var e := EmitOf(last, labels);
        assert Linked(e, offsets) == Resolved(last, marks);
        assert LinkedAll(Emits(before, labels) + [e], offsets) == LinkedAll(Emits(before, labels), offsets) + [Linked(e, offsets)];
      }
    }
  }
}
