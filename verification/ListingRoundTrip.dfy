/** Printing a program and assembling the text again. */
module ListingRoundTrip {
  import opened Isa
  import opened Options
  import opened Encoding
  import opened Parsing
  import opened Scanning
  import opened Linker
  import opened Elaboration
  import opened Listing
  import opened ListingLexing

  // ----- which instructions survive printing

  /** The tokenizer accepts the printed instruction. */
  predicate Readable(i: Instr) {
    i.op == Nop || NamedCond(i.cond)
  }

  /** What the assembler makes of the printed instruction: `nop` and `cid` lose what they do not print. */
  function Reprinted(i: Instr): Instr {
    if i.op == Nop then Instr(Nop, COND_T, 0, 0) else if i.op == Cid then i.(a := 0) else i
  }

  function ItemOf(i: Instr): Item {
    if i.op == Jpi then Goto(i.cond, LabelText(Wide(i.a, i.b))) else Emitted(Reprinted(i))
  }

  // ----- numbers and sets are read back

  lemma {:induction false} PrefixAppends(s: string, d: char, acc: nat)
    requires AllOf(s, Decimal) && Decimal.Test(d)
    ensures PrefixValue(s + [d], 10, acc) == PrefixValue(s, 10, acc) * 10 + DigitValue(d)
    decreases |s|
  {
    if s == [] {
      assert ([d])[1..] == [];
      assert s + [d] == [d];
    } else {
      assert (s + [d])[1..] == s[1..] + [d];
      PrefixAppends(s[1..], d, acc * 10 + DigitValue(s[0]));
    }
  }

  lemma DigitIsRead(d: nat)
    requires d < 10
    ensures DigitValue(DigitChar(d)) == d
  {}

  /** Decimal text has the value it was printed from. */
  lemma {:induction false} DecIsRead(n: nat)
    ensures PrefixValue(Dec(n), 10, 0) == n
    decreases n
  {
    hide DigitChar, DigitValue;
    DigitIsDecimal(n % 10);
    DigitIsRead(n % 10);
    if n < 10 {
      PrefixAppends([], DigitChar(n), 0);
      assert [] + [DigitChar(n)] == Dec(n);
    } else {
      DecIsRead(n / 10);
      DecIsDecimal(n / 10);
      PrefixAppends(Dec(n / 10), DigitChar(n % 10), 0);
    }
  }

  lemma SecondIsDigit(s: string)
    requires AllOf(s, Decimal) && |s| >= 2
    ensures s[1] != 'x' && s[1] != 'o' && s[1] != 'b'
  {
    assert Decimal.Test(s[1]);
  }

  lemma ImmediateIsRead(b: bv8)
    ensures ImmediateOf(Dec(Num(b))) == b
  {
    hide Dec, Num, ByteOf;
    var s := Dec(Num(b));
    DecIsRead(Num(b));
    DecIsDecimal(Num(b));
    if |s| >= 2 {
      SecondIsDigit(s);
    }
    ByteOfNum(b);
  }

  /** Labels of different addresses are different. */
  lemma LabelsDiffer(j: nat, k: nat)
    ensures LabelText(j) == LabelText(k) <==> j == k
  {
    if LabelText(j) == LabelText(k) {
      assert Dec(j) == LabelText(j)[2..];
      assert Dec(k) == LabelText(k)[2..];
      DecIsRead(j);
      DecIsRead(k);
    }
  }

  /** Bits k and up of a set. */
  function FromBit(mask: bv8, k: nat): bv8
    requires k <= 8
  {
    match k
    case 0 => mask
    case 1 => mask & 0xFE
    case 2 => mask & 0xFC
    case 3 => mask & 0xF8
    case 4 => mask & 0xF0
    case 5 => mask & 0xE0
    case 6 => mask & 0xC0
    case 7 => mask & 0x80
    case 8 => 0
  }

  lemma BitJoins(mask: bv8, k: nat)
    requires k < 8
    ensures FromBit(mask, k) == if Has(mask, k) then Or8(Bit(k), FromBit(mask, k + 1)) else FromBit(mask, k + 1)
  {}

  lemma {:induction false} RegsetFront(c: char, s: string)
    ensures RegsetBits([c] + s) == Or8(DigitBit(c), RegsetBits(s))
    decreases |s|
  {
    hide Or8, DigitBit;
    if s == [] {
      assert [c] + s == [c] && [c][..0] == [];
      OrZeroBoth(DigitBit(c));
    } else {
      var n := |s| - 1;
      assert ([c] + s)[..|s|] == [c] + s[..n];
      RegsetFront(c, s[..n]);
      OrAssociates(DigitBit(c), RegsetBits(s[..n]), DigitBit(s[n]));
    }
  }

  lemma OrAssociates(x: bv8, y: bv8, z: bv8)
    ensures Or8(Or8(x, y), z) == Or8(x, Or8(y, z))
  {}

  lemma OrZeroBoth(x: bv8)
    ensures Or8(0, x) == x && Or8(x, 0) == x
  {}

  lemma DigitBitIs(k: nat)
    requires k < 8
    ensures DigitBit(DigitChar(k)) == Bit(k)
  {}

  lemma {:induction false} SetTextIsRead(mask: bv8, k: nat)
    requires k <= 8
    ensures RegsetBits(SetText(mask, k)) == FromBit(mask, k)
    decreases 8 - k
  {
    hide Has, Or8, DigitBit, Bit, DigitChar, FromBit, RegsetBits;
    if k == 8 {
      NoBitsLeft(mask);
    } else {
      SetTextIsRead(mask, k + 1);
      BitJoins(mask, k);
      DigitBitIs(k);
      if Has(mask, k) {
        RegsetFront(DigitChar(k), SetText(mask, k + 1));
      }
    }
  }

  lemma NoBitsLeft(mask: bv8)
    ensures FromBit(mask, 8) == 0 && RegsetBits("") == 0
  {}

  /** A printed register set is read back. */
  lemma SetIsRead(mask: bv8)
    ensures RegsetOf(SetToken(mask)) == mask
  {
    hide SetText, RegsetBits;
    SetTextIsRead(mask, 0);
    var t := RegsetText(mask);
    assert t[1..] == SetText(mask, 0);
  }

  // ----- statements are read back

  lemma MnemonicsAreRead(op: Op)
    requires op != Ext && op != Jpi
    ensures MnemonicOf(MnemonicText(op)).Some? && MnemonicOf(MnemonicText(op)).value.0 == op
    ensures var f := MnemonicOf(MnemonicText(op)).value.1;
            f == (if op == Nop then Bare else if op == Set || op == Shr || op == Ctr then SetAndByte
                  else if op == Cid then OneByte else if op == Jpr then JumpForm else TwoSets)
  {}

  lemma JumpIsRead()
    ensures MnemonicOf(MnemonicText(Jpi)) == Some((Jpr, JumpForm))
  {}

  lemma ConditionsAreRead(c: bv4)
    requires NamedCond(c) && c != COND_T
    ensures ConditionOf(CondName(c)) == Some(c)
  {}

  lemma {:induction false} NoDot(w: string)
    requires AllOf(w, Alphanumeric)
    ensures FindDot(w) == None
    decreases |w|
  {
    if w != [] {
      assert Alphanumeric.Test(w[0]);
      NoDot(w[1..]);
    }
  }

  lemma {:induction false} DotBehind(w: string, v: string)
    requires AllOf(w, Alphanumeric)
    ensures FindDot(w + "." + v) == Some(|w|)
    decreases |w|
  {
    if w == [] {
      assert w + "." + v == "." + v;
    } else {
      assert Alphanumeric.Test(w[0]);
      assert (w + "." + v)[1..] == w[1..] + "." + v;
      DotBehind(w[1..], v);
    }
  }

  /** The item of a printed operation; `ctr` prints too little to be read. */
  lemma OperationIsRead(i: Instr)
    requires i.op != Ext
    ensures Operation(MnemonicText(i.op), OperandTokens(i), i.cond) ==
            if i.op == Ctr then None else if i.op == Nop then Some(Emitted(Instr(Nop, i.cond, 0, 0))) else Some(ItemOf(i))
  {
    hide MnemonicText, MnemonicOf, RegsetOf, ImmediateOf, Dec, LabelText, RegsetText, Wide, Num;
    SetIsRead(i.a);
    SetIsRead(i.b);
    ImmediateIsRead(i.b);
    if i.op == Jpi {
      JumpIsRead();
    } else {
      MnemonicsAreRead(i.op);
    }
  }

  lemma OperationOfNop(cond: bv4)
    ensures Operation("nop", [], cond) == Some(Emitted(Instr(Nop, cond, 0, 0)))
  {
    hide MnemonicOf;
    MnemonicsAreRead(Nop);
  }

  /** A printed instruction, as a statement. */
  lemma StatementIsRead(i: Instr)
    requires i.op != Ext && Readable(i)
    ensures Statement(InstrTokens(i), COND_T) == if i.op == Ctr then None else Some(ItemOf(i))
  {
    hide Operation, ConditionOf, CondName, MnemonicText, NamedCond, OperandTokens, IsWord, AllOf, ItemOf;
    var m := MnemonicText(i.op);
    MnemonicIsWord(i.op);
    WordIsAlphanumeric(m);
    var ts := InstrTokens(i);
    assert ts[1..] == OperandTokens(i);
    if i.op == Nop {
      assert HeadText(i) == m by { assert "" + m == m; }
      NoDot(m);
      NopIsRead(i);
    } else if i.cond == COND_T {
      assert HeadText(i) == m by { assert "" + m == m; }
      NoDot(m);
      OperationIsRead(i);
    } else {
      var c := CondName(i.cond);
      CondIsWord(i.cond);
      WordIsAlphanumeric(c);
      assert HeadText(i) == c + "." + m;
      DotBehind(c, m);
      assert HeadText(i)[..|c|] == c && HeadText(i)[|c| + 1..] == m;
      ConditionsAreRead(i.cond);
      OperationIsRead(i);
    }
  }

  lemma NopIsRead(i: Instr)
    requires i.op == Nop
    ensures Operation(MnemonicText(i.op), OperandTokens(i), COND_T) == Some(ItemOf(i))
  {
    OperationOfNop(COND_T);
  }

  // ----- the whole text

  function LabelTokens(targets: set<nat>, k: nat): seq<Token> {
    if k in targets then [NEW_LINE, Token(Label, LabelText(k) + ":"), NEW_LINE] else []
  }

  /** The tokens of the first n instructions' lines. */
  function LineTokens(p: seq<Instr>, targets: set<nat>, n: nat): seq<Token>
    requires n <= |p|
  {
    if n == 0 then []
    else LineTokens(p, targets, n - 1) + (LabelTokens(targets, n - 1) + (InstrTokens(p[n - 1]) + [NEW_LINE]))
  }

  predicate AllReadable(p: seq<Instr>, n: nat)
    requires n <= |p|
  {
    forall k :: 0 <= k < n ==> Readable(p[k])
  }

  /** The unnamed conditions print as a number that runs into a dot. */
  lemma UnreadableFails(i: Instr, rest: string)
    requires !Readable(i)
    ensures TokensOf(InstrText(i) + rest) == None
  {
    hide TokensOf, NamedCond, OperandText, MnemonicText, Then;
    var c := CondName(i.cond);
    UnnamedIsBinary(i.cond);
    var tail := "." + (MnemonicText(i.op) + OperandText(i) + rest);
    assert InstrText(i) + rest == c + tail;
    assert tail[0] == '.';
    NumberFirst(c, tail);
    DotFails(tail);
    NothingThen([Token(Integer, c)]);
  }

  lemma UnnamedIsBinary(c: bv4)
    requires !NamedCond(c)
    ensures CondName(c) != [] && AllOf(CondName(c), Decimal) && Prefix(c) == CondName(c) + "."
  {
    hide BinaryDigit;
    BinaryIsDecimal(c, 8);
    BinaryIsDecimal(c, 4);
    BinaryIsDecimal(c, 2);
    BinaryIsDecimal(c, 1);
  }

  lemma BinaryIsDecimal(c: bv4, m: bv4)
    ensures Decimal.Test(BinaryDigit(c, m))
  {}

  lemma DotFails(text: string)
    requires text != [] && text[0] == '.'
    ensures TokensOf(text) == None
  {}

  lemma NothingThen(ts: seq<Token>)
    ensures Then(ts, None) == None
  {}

  lemma EmptyThen(rest: Option<seq<Token>>)
    ensures Then([], rest) == rest
  {
    if rest.Some? {
      assert [] + rest.value == rest.value;
    }
  }

  lemma LabelLineLexes(targets: set<nat>, k: nat, rest: string)
    ensures TokensOf(LabelLine(targets, k) + rest) == Then(LabelTokens(targets, k), TokensOf(rest))
  {
    hide TokensOf, LabelText;
    if k in targets {
      LabelLexes(k, rest);
    } else {
      assert "" + rest == rest;
      EmptyThen(TokensOf(rest));
    }
  }

  /** Every line falls into its tokens, or the first line with an unnamed condition stops the tokenizer. */
  lemma {:induction false} LinesLex(p: seq<Instr>, targets: set<nat>, n: nat, rest: string)
    requires n <= |p| <= 65536 && !HasExtension(p)
    ensures TokensOf(Lines(p, targets, n, false) + rest) ==
            if AllReadable(p, n) then Then(LineTokens(p, targets, n), TokensOf(rest)) else None
    decreases n
  {
    hide TokensOf, LabelLine, InstrText, LabelTokens, InstrTokens, Then, Readable;
    if n == 0 {
      assert "" + rest == rest;
      EmptyThen(TokensOf(rest));
    } else {
      var i := p[n - 1];
      var line := InstrText(i) + "\n" + rest;
      var tail := LabelLine(targets, n - 1) + line;
      assert Lines(p, targets, n, false) + rest == Lines(p, targets, n - 1, false) + tail;
      LinesLex(p, targets, n - 1, tail);
      LabelLineLexes(targets, n - 1, line);
      if Readable(i) {
        ReadableLexes(i, rest);
        var a, b, c := LineTokens(p, targets, n - 1), LabelTokens(targets, n - 1), InstrTokens(i) + [NEW_LINE];
        ThenThen(b, c, TokensOf(rest));
        ThenThen(a, b + c, TokensOf(rest));
      } else {
        assert line == InstrText(i) + ("\n" + rest);
        UnreadableFails(i, "\n" + rest);
        NothingThen(LabelTokens(targets, n - 1));
        NothingThen(LineTokens(p, targets, n - 1));
      }
    }
  }

  lemma ReadableLexes(i: Instr, rest: string)
    requires Readable(i) && i.op != Ext
    ensures TokensOf(InstrText(i) + "\n" + rest) == Then(InstrTokens(i) + [NEW_LINE], TokensOf(rest))
  {
    hide TokensOf, InstrText, InstrTokens, Then, NamedCond;
    InstrLexes(i, rest);
  }

  // ----- the items

  function LabelItems(targets: set<nat>, k: nat): seq<Item> {
    if k in targets then [Mark(LabelText(k))] else []
  }

  function LineItems(p: seq<Instr>, targets: set<nat>, n: nat): seq<Item>
    requires n <= |p|
  {
    if n == 0 then [] else LineItems(p, targets, n - 1) + LabelItems(targets, n - 1) + [ItemOf(p[n - 1])]
  }

  predicate NoCtr(p: seq<Instr>, n: nat)
    requires n <= |p|
  {
    forall k :: 0 <= k < n ==> p[k].op != Ctr
  }

  lemma LabelElaborates(targets: set<nat>, k: nat, rest: seq<Token>)
    ensures Elab(LabelTokens(targets, k) + rest, COND_T) == Joined(Some(LabelItems(targets, k)), Elab(rest, COND_T))
  {
    hide LabelText;
    if k in targets {
      var label_ := Token(Label, LabelText(k) + ":");
      var ts := LabelTokens(targets, k) + rest;
      assert ts == [NEW_LINE] + ([label_] + ([NEW_LINE] + rest));
      BreakElaborates(rest);
      LabelIsLong(k);
      LabelTokenElaborates(LabelText(k), [NEW_LINE] + rest);
      BreakElaborates([label_] + ([NEW_LINE] + rest));
    } else {
      assert [] + rest == rest;
      if Elab(rest, COND_T).Some? {
        assert [] + Elab(rest, COND_T).value == Elab(rest, COND_T).value;
      }
    }
  }

  lemma BreakElaborates(rest: seq<Token>)
    ensures Elab([NEW_LINE] + rest, COND_T) == Elab(rest, COND_T)
  {
    assert ([NEW_LINE] + rest)[1..] == rest;
  }

  lemma LabelIsLong(k: nat)
    ensures |LabelText(k)| > 2
  {
    hide Dec;
  }

  lemma LabelTokenElaborates(name: string, rest: seq<Token>)
    requires |name| >= 2
    ensures Elab([Token(Label, name + ":")] + rest, COND_T) == Joined(Some([Mark(name)]), Elab(rest, COND_T))
  {
    var t := Token(Label, name + ":");
    assert ([t] + rest)[1..] == rest && ([t] + rest)[0] == t;
    assert LabelName(t) == name;
    assert |t.text| > |IF|;
  }

  lemma HeadIsLong(i: Instr)
    requires i.op != Ext
    ensures |HeadText(i)| > 2
  {
    hide CondName;
    assert |MnemonicText(i.op)| == 3;
  }

  lemma NoBreaks(i: Instr)
    ensures forall k :: 0 <= k < |InstrTokens(i)| ==> InstrTokens(i)[k].kind != Break
  {
    hide RegsetText, Dec, LabelText, HeadText, Wide, Num;
  }

  lemma InstrElaborates(i: Instr, rest: seq<Token>)
    requires i.op != Ext && Readable(i)
    ensures Elab(InstrTokens(i) + [NEW_LINE] + rest, COND_T) ==
            if i.op == Ctr then None else Joined(Some([ItemOf(i)]), Elab(rest, COND_T))
  {
    hide Statement, ItemOf, OperandTokens, HeadText, Elab, Readable;
    StatementIsRead(i);
    NoBreaks(i);
    HeadIsLong(i);
    StatementScopes(InstrTokens(i), NEW_LINE, rest, COND_T);
  }

  lemma JoinedJoined(a: seq<Item>, b: seq<Item>, rest: Option<seq<Item>>)
    ensures Joined(Some(a), Joined(Some(b), rest)) == Joined(Some(a + b), rest)
  {
    if rest.Some? {
      assert a + (b + rest.value) == a + b + rest.value;
    }
  }

  /** Every line elaborates to its items, or the first `ctr` stops the assembler. */
  lemma {:induction false} LinesElaborate(p: seq<Instr>, targets: set<nat>, n: nat, rest: seq<Token>)
    requires n <= |p| && !HasExtension(p) && AllReadable(p, n)
    ensures Elab(LineTokens(p, targets, n) + rest, COND_T) ==
            if NoCtr(p, n) then Joined(Some(LineItems(p, targets, n)), Elab(rest, COND_T)) else None
    decreases n
  {
    hide Elab, LabelTokens, InstrTokens, ItemOf, LabelItems, Readable;
    if n == 0 {
      assert [] + rest == rest;
      if Elab(rest, COND_T).Some? {
        assert [] + Elab(rest, COND_T).value == Elab(rest, COND_T).value;
      }
    } else {
      var i := p[n - 1];
      assert Readable(p[n - 1]);
      var line := InstrTokens(i) + [NEW_LINE] + rest;
      var tail := LabelTokens(targets, n - 1) + line;
      assert LineTokens(p, targets, n) + rest == LineTokens(p, targets, n - 1) + tail;
      LinesElaborate(p, targets, n - 1, tail);
      LabelElaborates(targets, n - 1, line);
      InstrElaborates(i, rest);
      if i.op != Ctr {
        JoinedJoined(LabelItems(targets, n - 1), [ItemOf(i)], Elab(rest, COND_T));
        JoinedJoined(LineItems(p, targets, n - 1), LabelItems(targets, n - 1) + [ItemOf(i)], Elab(rest, COND_T));
        assert LineItems(p, targets, n - 1) + (LabelItems(targets, n - 1) + [ItemOf(i)]) == LineItems(p, targets, n);
      }
    }
  }

  // ----- labels and program

  /** The marks among the lines of the first n instructions. */
  predicate MarksAre(marks: map<string, nat>, targets: set<nat>, n: nat) {
    && (forall k: nat :: k < n && k in targets ==> LabelText(k) in marks && marks[LabelText(k)] == k)
    && (forall s :: s in marks ==> exists k: nat :: k < n && k in targets && s == LabelText(k))
  }

  lemma ItemsGrow(items: seq<Item>, item: Item)
    ensures CodeCount(items + [item]) == CodeCount(items) + if item.Mark? then 0 else 1
    ensures Marks(items + [item]) == if item.Mark? then Marks(items)[item.name := CodeCount(items)] else Marks(items)
    ensures DistinctMarks(items + [item]) <==> DistinctMarks(items) && (item.Mark? ==> item.name !in Marks(items))
  {
    assert (items + [item])[..|items|] == items;
  }

  lemma MarksExtend(marks: map<string, nat>, targets: set<nat>, n: nat)
    requires MarksAre(marks, targets, n)
    ensures n in targets ==> LabelText(n) !in marks && MarksAre(marks[LabelText(n) := n], targets, n + 1)
    ensures n !in targets ==> MarksAre(marks, targets, n + 1)
  {
    hide LabelText;
    forall k: nat | k < n ensures LabelText(k) != LabelText(n) {
      LabelsDiffer(k, n);
    }
  }

  lemma {:induction false} ItemsAreLabelled(p: seq<Instr>, targets: set<nat>, n: nat)
    requires n <= |p|
    ensures var items := LineItems(p, targets, n);
            CodeCount(items) == n && DistinctMarks(items) && MarksAre(Marks(items), targets, n)
    decreases n
  {
    hide CodeCount, Marks, DistinctMarks, MarksAre, ItemOf, LabelText;
    if n == 0 {
      EmptyItems(targets);
    } else {
      var before := LineItems(p, targets, n - 1);
      ItemsAreLabelled(p, targets, n - 1);
      MarksExtend(Marks(before), targets, n - 1);
      if n - 1 in targets {
        ItemsGrow(before, Mark(LabelText(n - 1)));
      } else {
        assert before + [] == before;
      }
      ItemIsCode(p[n - 1]);
      ItemsGrow(before + LabelItems(targets, n - 1), ItemOf(p[n - 1]));
    }
  }

  lemma ItemIsCode(i: Instr)
    ensures !ItemOf(i).Mark?
  {}

  lemma EmptyItems(targets: set<nat>)
    ensures CodeCount([]) == 0 && DistinctMarks([]) && MarksAre(Marks([]), targets, 0)
  {}

  predicate TargetsInside(p: seq<Instr>) {
    forall k :: 0 <= k < |p| && p[k].op == Jpi ==> Wide(p[k].a, p[k].b) < |p|
  }

  lemma {:induction false} TargetsAre(p: seq<Instr>, n: nat, k: nat)
    requires k < n <= |p| && p[k].op == Jpi
    ensures Wide(p[k].a, p[k].b) in Targets(p, n)
    decreases n
  {
    hide Wide;
    if k < n - 1 {
      TargetsAre(p, n - 1, k);
    }
  }

  /** Every instruction has its item, and every jump item is that of an instruction. */
  lemma {:induction false} ItemIndex(p: seq<Instr>, targets: set<nat>, n: nat, k: nat) returns (j: nat)
    requires k < n <= |p|
    ensures j < |LineItems(p, targets, n)| && LineItems(p, targets, n)[j] == ItemOf(p[k])
    decreases n
  {
    hide ItemOf, LabelItems;
    if k == n - 1 {
      j := |LineItems(p, targets, n)| - 1;
    } else {
      j := ItemIndex(p, targets, n - 1, k);
    }
  }

  lemma {:induction false} GotoIndex(p: seq<Instr>, targets: set<nat>, n: nat, j: nat) returns (k: nat)
    requires n <= |p| && j < |LineItems(p, targets, n)| && LineItems(p, targets, n)[j].Goto?
    ensures k < n && LineItems(p, targets, n)[j] == ItemOf(p[k]) && p[k].op == Jpi
    decreases n
  {
    var before := LineItems(p, targets, n - 1);
    if j < |before| {
      k := GotoIndex(p, targets, n - 1, j);
    } else {
      k := n - 1;
    }
  }

  /** All labels are declared exactly if no immediate jump leads past the program. */
  lemma LabelsDeclared(p: seq<Instr>)
    ensures var items := LineItems(p, Targets(p, |p|), |p|);
            WellLabelled(items) <==> TargetsInside(p)
  {
    hide LineItems, Marks, DistinctMarks, Targets, Wide, LabelText;
    var targets := Targets(p, |p|);
    var items := LineItems(p, targets, |p|);
    ItemsAreLabelled(p, targets, |p|);
    if TargetsInside(p) {
      forall j | 0 <= j < |items| && items[j].Goto? ensures items[j].name in Marks(items) {
        var k := GotoIndex(p, targets, |p|, j);
        TargetsAre(p, |p|, k);
      }
    } else {
      var k :| 0 <= k < |p| && p[k].op == Jpi && Wide(p[k].a, p[k].b) >= |p|;
      var t := Wide(p[k].a, p[k].b);
      var j := ItemIndex(p, targets, |p|, k);
      if LabelText(t) in Marks(items) {
        var m: nat :| m < |p| && m in targets && LabelText(t) == LabelText(m);
        LabelsDiffer(t, m);
      }
    }
  }

  lemma ProgramLast(items: seq<Item>, last: Item, marks: map<string, nat>)
    requires Covers(marks, items + [last]) && !last.Mark?
    ensures Covers(marks, items) && (last.Goto? ==> last.name in marks)
    ensures Program(items + [last], marks) == Program(items, marks) + [Resolved(last, marks)]
  {
    hide Resolved;
    CoversPrefix(marks, items, last);
    assert (items + [last])[..|items|] == items;
  }

  lemma {:induction false} ProgramIs(p: seq<Instr>, targets: set<nat>, n: nat, marks: map<string, nat>)
    requires n <= |p| && Covers(marks, LineItems(p, targets, n))
    ensures var items := LineItems(p, targets, n);
            && |Program(items, marks)| == n
            && forall k :: 0 <= k < n ==>
                 (ItemOf(p[k]).Goto? ==> ItemOf(p[k]).name in marks) && Program(items, marks)[k] == Resolved(ItemOf(p[k]), marks)
    decreases n
  {
    hide ItemOf, Resolved, LabelText, Program, Covers, LabelItems;
    if n > 0 {
      var before, i := LineItems(p, targets, n - 1), p[n - 1];
      ItemIsCode(i);
      ProgramLast(before + LabelItems(targets, n - 1), ItemOf(i), marks);
      ProgramWithLabel(before, targets, n - 1, marks);
      ProgramIs(p, targets, n - 1, marks);
    } else {
      NoProgram(marks);
    }
  }

  lemma NoProgram(marks: map<string, nat>)
    ensures Covers(marks, []) && Program([], marks) == []
  {}

  lemma CoversPrefix(marks: map<string, nat>, items: seq<Item>, last: Item)
    requires Covers(marks, items + [last])
    ensures Covers(marks, items) && (last.Goto? ==> last.name in marks)
  {
    assert (items + [last])[|items|] == last;
    forall k | 0 <= k < |items| ensures (items + [last])[k] == items[k] {}
  }

  lemma ProgramWithLabel(items: seq<Item>, targets: set<nat>, k: nat, marks: map<string, nat>)
    requires Covers(marks, items + LabelItems(targets, k))
    ensures Covers(marks, items) && Program(items + LabelItems(targets, k), marks) == Program(items, marks)
  {
    if k in targets {
      CoversPrefix(marks, items, Mark(LabelText(k)));
      assert (items + LabelItems(targets, k))[..|items|] == items;
    } else {
      assert items + [] == items;
    }
  }

  lemma WideIsInjective(a: bv8, b: bv8)
    ensures HighPart(Wide(a, b)) == a && LowPart(Wide(a, b)) == b
  {
    hide Num, ByteOf;
    assert Wide(a, b) / 256 == Num(a) && Wide(a, b) % 256 == Num(b);
    ByteOfNum(a);
    ByteOfNum(b);
  }

  /** An item resolves to the instruction it was printed from, as far as that was printed. */
  lemma ItemResolves(i: Instr, marks: map<string, nat>)
    requires i.op == Jpi ==> LabelText(Wide(i.a, i.b)) in marks && marks[LabelText(Wide(i.a, i.b))] == Wide(i.a, i.b)
    requires i.op == Jpi ==> 3 * Wide(i.a, i.b) <= 65535
    ensures !ItemOf(i).Mark? && (ItemOf(i).Goto? ==> ItemOf(i).name in marks) && Resolved(ItemOf(i), marks) == Reprinted(i)
  {
    hide LabelText, Wide, HighPart, LowPart, Target;
    if i.op == Jpi {
      TargetExactly(Wide(i.a, i.b));
      WideIsInjective(i.a, i.b);
    }
  }

  function ReprintedAll(p: seq<Instr>): (q: seq<Instr>)
    ensures |q| == |p|
  {
    seq(|p|, k requires 0 <= k < |p| => Reprinted(p[k]))
  }

  lemma ProgramIsReprinted(p: seq<Instr>)
    requires TargetsInside(p) && 3 * |p| <= 65535
    ensures var items := LineItems(p, Targets(p, |p|), |p|);
            WellLabelled(items) && Program(items, Marks(items)) == ReprintedAll(p)
  {
    hide LineItems, Marks, DistinctMarks, Targets, Wide, LabelText, Reprinted, ItemOf, Resolved, Program;
    var targets := Targets(p, |p|);
    var items := LineItems(p, targets, |p|);
    var marks := Marks(items);
    LabelsDeclared(p);
    ItemsAreLabelled(p, targets, |p|);
    ProgramIs(p, targets, |p|, marks);
    forall k | 0 <= k < |p| ensures Program(items, marks)[k] == Reprinted(p[k]) {
      if p[k].op == Jpi {
        TargetsAre(p, |p|, k);
      }
      ItemResolves(p[k], marks);
    }
    assert Program(items, marks) == ReprintedAll(p);
  }

  // ----- the round trip

  /** Tokenize, parse and link a text. */
  function Assembled(text: string): Option<seq<bv8>> {
    match TokensOf(text)
    case Some(ts) => ImageOf(ts)
    case None => None
  }

  lemma EndTokens()
    ensures TokensOf("") == Some([Token(Break, "")]) && Elab([Token(Break, "")], COND_T) == Some([])
  {
    var t := Token(Break, "");
    assert Pieces("") == Some([Tok(Break, 0)]);
    assert TokensIn("", [Tok(Break, 0)]) == [t] by {
      assert [Tok(Break, 0)][1..] == [];
      assert TokensIn("", []) == [];
    }
    assert [t][1..] == [];
    assert Elab([], COND_T) == Some([]);
  }

  /** What assembling a listing gives, for every program the reader accepts: an image of the program as far as it
      was printed, or a refusal if some condition has no name, some operation is `ctr`, or some jump leads past
      the program. */
  lemma ListingAssembles(p: seq<Instr>)
    requires !HasExtension(p) && 3 * |p| <= 65535
    ensures Assembled(Listed(p)) ==
            if AllReadable(p, |p|) && NoCtr(p, |p|) && TargetsInside(p) then Some(EncodeAll(ReprintedAll(p))) else None
  {
    hide TokensOf, Elab, Lines, LineTokens, LineItems, EncodeAll, Program, Marks, DistinctMarks, Targets, TargetsInside, GotosDefined;
    var targets := Targets(p, |p|);
    var items := LineItems(p, targets, |p|);
    var last := Token(Break, "");
    EndTokens();
    LinesLex(p, targets, |p|, "");
    assert Listed(p) + "" == Listed(p);
    if AllReadable(p, |p|) {
      LinesElaborate(p, targets, |p|, [last]);
      if NoCtr(p, |p|) {
        assert items + [] == items;
        LabelsDeclared(p);
        if TargetsInside(p) {
          ProgramIsReprinted(p);
        }
      }
    }
  }

  /** The instructions that printing keeps, in a program of n instructions. */
  predicate Printable(i: Instr, n: nat) {
    && i.op != Ctr && Readable(i) && Reprinted(i) == i
    && (i.op == Jpi ==> Wide(i.a, i.b) < n)
  }

  lemma {:induction false} EncodeAllInjective(p: seq<Instr>, q: seq<Instr>)
    requires EncodeAll(p) == EncodeAll(q)
    ensures p == q
    decreases |p|
  {
    hide Encode;
    if p != [] {
      var n := |p| - 1;
      var a, b := EncodeAll(p[..n]), EncodeAll(q[..n]);
      assert a == EncodeAll(p)[..3 * n] && b == EncodeAll(q)[..3 * n];
      EncodeAllInjective(p[..n], q[..n]);
      assert Encode(p[n]) == EncodeAll(p)[3 * n..] && Encode(q[n]) == EncodeAll(q)[3 * n..];
      EncodeInjective(p[n], q[n]);
      assert p == p[..n] + [p[n]] && q == q[..n] + [q[n]];
    }
  }

  lemma EncodeInjective(i: Instr, j: Instr)
    requires Encode(i) == Encode(j)
    ensures i == j
  {
    hide Head;
    HeadRoundTrip(i.op, i.cond);
    HeadRoundTrip(j.op, j.cond);
    assert Encode(i)[0] == Encode(j)[0] && Encode(i)[1] == Encode(j)[1] && Encode(i)[2] == Encode(j)[2];
  }

  /** The listing round trip. For every image of at most 65535 bytes that the reader accepts, the listing without
      its address column assembles back to the identical image exactly if every instruction is printable: a
      named condition, `nop` and `cid` in the form they print, no `ctr`, and no jump past the program. */
  lemma ListingRoundTrips(p: seq<Instr>)
    requires !HasExtension(p) && 3 * |p| <= 65535
    ensures Assembled(Listed(p)) == Some(EncodeAll(p)) <==> forall k :: 0 <= k < |p| ==> Printable(p[k], |p|)
  {
    hide Assembled, Listed, EncodeAll, Readable, Reprinted, Wide;
    ListingAssembles(p);
    if Assembled(Listed(p)) == Some(EncodeAll(p)) {
      EncodeAllInjective(ReprintedAll(p), p);
    }
    if forall k :: 0 <= k < |p| ==> Printable(p[k], |p|) {
      assert ReprintedAll(p) == p;
    }
  }
}
