/** The tokenizer on the disassembler's text: every line falls into the tokens it was printed from. */
module ListingLexing {
  import opened Isa
  import opened Options
  import opened Parsing
  import opened Scanning
  import opened Listing

  function Then(ts: seq<Token>, rest: Option<seq<Token>>): Option<seq<Token>> {
    match rest
    case Some(r) => Some(ts + r)
    case None => None
  }

  lemma ThenThen(a: seq<Token>, b: seq<Token>, rest: Option<seq<Token>>)
    ensures Then(a, Then(b, rest)) == Then(a + b, rest)
  {
    if rest.Some? {
      assert a + (b + rest.value) == a + b + rest.value;
    }
  }

  // ----- one token at a time

  lemma TokenFirst(text: string, kind: Kind, n: nat)
    requires 0 < n <= |text| && Round(text) == Some([Tok(kind, n)])
    ensures TokensOf(text) == Then([Token(kind, text[..n])], TokensOf(text[n..]))
  {
    hide Round;
    var r := [Tok(kind, n)];
    assert Extent(r) == n by { assert r[..0] == []; }
    RoundTakesSome(text);
    if Pieces(text[n..]).Some? {
      var rest := Pieces(text[n..]).value;
      assert Pieces(text) == Some(r + rest);
      assert (r + rest)[1..] == rest;
    }
  }

  lemma GapFirst(text: string, n: nat)
    requires 0 < n <= |text| && Round(text) == Some([Gap(n)])
    ensures TokensOf(text) == TokensOf(text[n..])
  {
    hide Round;
    var r := [Gap(n)];
    assert Extent(r) == n by { assert r[..0] == []; }
    RoundTakesSome(text);
    if Pieces(text[n..]).Some? {
      var rest := Pieces(text[n..]).value;
      assert Pieces(text) == Some(r + rest);
      assert (r + rest)[1..] == rest;
      assert [] + TokensIn(text[n..], rest) == TokensIn(text[n..], rest);
    }
  }

  lemma {:induction false} GreedyAll(w: string, rest: string, p: CharClass)
    requires (forall k :: 0 <= k < |w| ==> p.Test(w[k])) && !Sees(rest, p)
    ensures Greedy(w + rest, p) == |w|
    decreases |w|
  {
    if w == [] {
      assert w + rest == rest;
    } else {
      assert (w + rest)[1..] == w[1..] + rest;
      GreedyAll(w[1..], rest, p);
    }
  }

  predicate AllOf(w: string, p: CharClass) {
    forall k :: 0 <= k < |w| ==> p.Test(w[k])
  }

  /** A word: a letter and then letters or digits. */
  predicate IsWord(w: string) {
    w != [] && Alphabetic.Test(w[0]) && AllOf(w, Alphanumeric)
  }

  /** Something that ends a word, a number or a set. */
  predicate Ends(rest: string) {
    rest != [] && !Alphanumeric.Test(rest[0])
  }

  lemma RoundOfWord(text: string)
    requires text != [] && Alphabetic.Test(text[0])
    ensures Round(text) == Some([Tok(Word(text[1..]).0, 1 + Word(text[1..]).1)])
  {
    hide Word;
  }

  lemma WordFirst(w: string, rest: string)
    requires IsWord(w) && Ends(rest) && rest[0] != ':' && rest[0] != '.'
    ensures TokensOf(w + rest) == Then([Token(Identifier, w)], TokensOf(rest))
  {
    hide Round, Greedy, TokensOf;
    var text := w + rest;
    assert text[1..] == w[1..] + rest;
    GreedyAll(w[1..], rest, Alphanumeric);
    assert text[1..][|w| - 1..] == rest;
    RoundOfWord(text);
    TokenFirst(text, Identifier, |w|);
    assert text[..|w|] == w && text[|w|..] == rest;
  }

  lemma DottedFirst(w: string, v: string, rest: string)
    requires IsWord(w) && AllOf(v, Alphanumeric) && Ends(rest)
    ensures TokensOf(w + "." + v + rest) == Then([Token(Identifier, w + "." + v)], TokensOf(rest))
  {
    hide Round, Greedy, TokensOf;
    var text, all := w + "." + v + rest, w + "." + v;
    assert text[1..] == w[1..] + ("." + (v + rest));
    GreedyAll(w[1..], "." + (v + rest), Alphanumeric);
    assert text[1..][|w| - 1..] == "." + (v + rest);
    assert text[1..][|w|..] == v + rest;
    GreedyAll(v, rest, Alphanumeric);
    RoundOfWord(text);
    TokenFirst(text, Identifier, |all|);
    assert text[..|all|] == all && text[|all|..] == rest;
  }

  lemma LabelFirst(w: string, rest: string)
    requires IsWord(w)
    ensures TokensOf(w + ":" + rest) == Then([Token(Label, w + ":")], TokensOf(rest))
  {
    hide Round, Greedy, TokensOf;
    var text, all := w + ":" + rest, w + ":";
    assert text[1..] == w[1..] + (":" + rest);
    GreedyAll(w[1..], ":" + rest, Alphanumeric);
    assert text[1..][|w| - 1..] == ":" + rest;
    RoundOfWord(text);
    TokenFirst(text, Label, |all|);
    assert text[..|all|] == all && text[|all|..] == rest;
  }

  lemma NumberFirst(d: string, rest: string)
    requires d != [] && AllOf(d, Decimal) && Ends(rest) && rest[0] != '\''
    ensures TokensOf(d + rest) == Then([Token(Integer, d)], TokensOf(rest))
  {
    hide Greedy, TokensOf, Digits;
    var text := d + rest;
    GreedyAll(d, rest, Decimal);
    assert text[|d|..] == rest && text[..|d|] == d;
    assert !SeesText(text, "0x") && !SeesText(text, "0o") && !SeesText(text, "0b") by { Second(text, d, rest); }
    assert Number(text) == Some(|d|);
    assert Round(text) == OneToken(Integer, Number(text)) by { RoundOfNumber(text); }
    TokenFirst(text, Integer, |d|);
  }

  lemma Second(text: string, d: string, rest: string)
    requires text == d + rest && d != [] && AllOf(d, Decimal) && Ends(rest)
    ensures |text| >= 2 && text[1] != 'x' && text[1] != 'o' && text[1] != 'b'
  {
    if |d| == 1 {
      assert text[1] == rest[0];
    } else {
      assert text[1] == d[1] && Decimal.Test(d[1]);
    }
  }

  lemma RoundOfNumber(text: string)
    requires text != [] && Decimal.Test(text[0])
    ensures Round(text) == OneToken(Integer, Number(text))
  {
    hide Number;
  }

  lemma SymbolFirst(rest: string)
    ensures TokensOf("," + rest) == Then([Token(Symbol, ",")], TokensOf(rest))
  {
    hide TokensOf;
    var text := "," + rest;
    assert text[0] == ',' && text[..1] == "," && text[1..] == rest;
    assert Round(text) == Some([Tok(Symbol, 1)]);
    TokenFirst(text, Symbol, 1);
  }

  lemma SpaceFirst(rest: string)
    ensures TokensOf(" " + rest) == TokensOf(rest)
  {
    hide TokensOf;
    var text := " " + rest;
    assert text[0] == ' ' && text[1..] == rest;
    assert Round(text) == Some([Gap(1)]);
    GapFirst(text, 1);
  }

  const NEW_LINE := Token(Break, "\n")

  lemma BreakFirst(rest: string)
    ensures TokensOf("\n" + rest) == Then([NEW_LINE], TokensOf(rest))
  {
    hide TokensOf;
    var text := "\n" + rest;
    assert text[0] == '\n' && text[..1] == "\n" && text[1..] == rest;
    assert Round(text) == Some([Tok(Break, 1)]);
    TokenFirst(text, Break, 1);
  }

  // ----- register sets

  lemma DigitOrder(k: nat, m: nat)
    requires k < m < 10
    ensures DigitChar(k) < DigitChar(m) && BEFORE_ZERO < DigitChar(k)
    ensures m < 8 ==> '0' <= DigitChar(m) <= '7' && '0' <= DigitChar(k) <= '7'
  {}

  lemma SetDigitsCons(c: char, t: string, previous: char)
    requires '0' <= c <= '7' && previous < c
    ensures SetDigits([c] + t, previous) == Plus(1, SetDigits(t, c))
  {
    var text := [c] + t;
    assert text[0] == c && text[1..] == t;
  }

  lemma SetTextNext(mask: bv8, k: nat)
    requires k < 8
    ensures SetText(mask, k) == if Has(mask, k) then [DigitChar(k)] + SetText(mask, k + 1) else SetText(mask, k + 1)
  {
    hide Has, DigitChar;
  }

  lemma SetEnds(mask: bv8, previous: char, rest: string)
    requires Ends(rest)
    ensures SetText(mask, 8) == "" && SetDigits(rest, previous) == Some(0)
  {}

  lemma {:induction false} SetDigitsAscend(mask: bv8, k: nat, previous: char, rest: string)
    requires k <= 8 && Ends(rest) && (forall m: nat :: k <= m < 8 ==> previous < DigitChar(m))
    ensures SetDigits(SetText(mask, k) + rest, previous) == Some(|SetText(mask, k)|)
    decreases 8 - k
  {
    hide Has, DigitChar, SetText, SetDigits, Ends;
    if k == 8 {
      SetEnds(mask, previous, rest);
      assert "" + rest == rest;
    } else {
      SetTextNext(mask, k);
      if Has(mask, k) {
        forall m: nat | k + 1 <= m < 8 ensures DigitChar(k) < DigitChar(m) {
          DigitOrder(k, m);
        }
        DigitRange(k);
        var c, t := DigitChar(k), SetText(mask, k + 1) + rest;
        SetDigitsAscend(mask, k + 1, c, rest);
        SetDigitsCons(c, t, previous);
        assert SetText(mask, k) + rest == [c] + t;
      } else {
        SetDigitsAscend(mask, k + 1, previous, rest);
      }
    }
  }

  lemma DigitRange(k: nat)
    requires k < 8
    ensures '0' <= DigitChar(k) <= '7'
  {}

  lemma SetFirst(mask: bv8, rest: string)
    requires Ends(rest)
    ensures TokensOf(RegsetText(mask) + rest) == Then([Token(Regset, RegsetText(mask))], TokensOf(rest))
  {
    hide TokensOf, SetText;
    forall m: nat | m < 8 ensures BEFORE_ZERO < DigitChar(m) {
      DigitOrder(m, 9);
    }
    SetDigitsAscend(mask, 0, BEFORE_ZERO, rest);
    var set_ := RegsetText(mask);
    var text := set_ + rest;
    assert text[0] == '$' && text[1..] == SetText(mask, 0) + rest && text[..|set_|] == set_ && text[|set_|..] == rest;
    RoundOfSet(text);
    TokenFirst(text, Regset, |set_|);
  }

  lemma RoundOfSet(text: string)
    requires text != [] && text[0] == '$'
    ensures Round(text) == OneToken(Regset, Plus(1, SetDigits(text[1..], BEFORE_ZERO)))
  {
    hide SetDigits;
  }

  // ----- numbers

  lemma {:induction false} DecIsDecimal(n: nat)
    ensures AllOf(Dec(n), Decimal)
    decreases n
  {
    DigitIsDecimal(n % 10);
    if n >= 10 {
      DecIsDecimal(n / 10);
    }
  }

  lemma DigitIsDecimal(d: nat)
    requires d < 10
    ensures Decimal.Test(DigitChar(d))
  {}

  lemma LabelIsWord(k: nat)
    ensures IsWord(LabelText(k))
  {
    DecIsDecimal(k);
    var w := LabelText(k);
    assert w[0] == 'l' && w[1] == '_';
    forall j | 0 <= j < |w| ensures Alphanumeric.Test(w[j]) {
      if j >= 2 {
        assert w[j] == Dec(k)[j - 2];
      }
    }
  }

  // ----- operands

  function SetToken(mask: bv8): Token {
    Token(Regset, RegsetText(mask))
  }

  const COMMA := Token(Symbol, ",")

  function OperandTokens(i: Instr): seq<Token> {
    match i.op
    case Nop => []
    case Ext => []
    case Set => [SetToken(i.a), COMMA, Token(Integer, Dec(Num(i.b)))]
    case Shr => [SetToken(i.a), COMMA, Token(Integer, Dec(Num(i.b)))]
    case Cid => [Token(Integer, Dec(Num(i.b)))]
    case Ctr => [Token(Integer, Dec(Num(i.b)))]
    case Jpi => [Token(Identifier, LabelText(Wide(i.a, i.b)))]
    case Ldm | Stm | Jpr | Nad | And | Xor | Mov | Add | Cmp => [SetToken(i.a), COMMA, SetToken(i.b)]
  }

  /** Set and comma in front of another operand. */
  lemma SetCommaLexes(a: bv8, rest: string)
    ensures TokensOf(" " + RegsetText(a) + ", " + rest) == Then([SetToken(a), COMMA], TokensOf(rest))
  {
    hide TokensOf, RegsetText;
    var afterComma := " " + rest;
    var afterSet := "," + afterComma;
    var all := RegsetText(a) + afterSet;
    assert " " + RegsetText(a) + ", " + rest == " " + all;
    SpaceFirst(all);
    SetFirst(a, afterSet);
    SymbolFirst(afterComma);
    SpaceFirst(rest);
    ThenThen([SetToken(a)], [COMMA], TokensOf(rest));
    assert [SetToken(a)] + [COMMA] == [SetToken(a), COMMA];
  }

  lemma TwoSetsLex(a: bv8, b: bv8, rest: string)
    ensures TokensOf(" " + RegsetText(a) + ", " + RegsetText(b) + "\n" + rest) ==
            Then([SetToken(a), COMMA, SetToken(b), NEW_LINE], TokensOf(rest))
  {
    hide TokensOf, RegsetText;
    var line := "\n" + rest;
    assert " " + RegsetText(a) + ", " + RegsetText(b) + "\n" + rest == " " + RegsetText(a) + ", " + (RegsetText(b) + line);
    SetCommaLexes(a, RegsetText(b) + line);
    SetFirst(b, line);
    BreakFirst(rest);
    ThenThen([SetToken(b)], [NEW_LINE], TokensOf(rest));
    ThenThen([SetToken(a), COMMA], [SetToken(b)] + [NEW_LINE], TokensOf(rest));
    assert [SetToken(a), COMMA] + ([SetToken(b)] + [NEW_LINE]) == [SetToken(a), COMMA, SetToken(b), NEW_LINE];
  }

  lemma NumberLexes(n: nat, rest: string)
    ensures TokensOf(Dec(n) + ("\n" + rest)) == Then([Token(Integer, Dec(n)), NEW_LINE], TokensOf(rest))
  {
    hide TokensOf, Dec;
    DecIsDecimal(n);
    NumberFirst(Dec(n), "\n" + rest);
    BreakFirst(rest);
    ThenThen([Token(Integer, Dec(n))], [NEW_LINE], TokensOf(rest));
    assert [Token(Integer, Dec(n))] + [NEW_LINE] == [Token(Integer, Dec(n)), NEW_LINE];
  }

  lemma SetAndByteLex(a: bv8, n: nat, rest: string)
    ensures TokensOf(" " + RegsetText(a) + ", " + Dec(n) + "\n" + rest) ==
            Then([SetToken(a), COMMA, Token(Integer, Dec(n)), NEW_LINE], TokensOf(rest))
  {
    hide TokensOf, RegsetText, Dec;
    assert " " + RegsetText(a) + ", " + Dec(n) + "\n" + rest == " " + RegsetText(a) + ", " + (Dec(n) + ("\n" + rest));
    SetCommaLexes(a, Dec(n) + ("\n" + rest));
    NumberLexes(n, rest);
    ThenThen([SetToken(a), COMMA], [Token(Integer, Dec(n)), NEW_LINE], TokensOf(rest));
    assert [SetToken(a), COMMA] + [Token(Integer, Dec(n)), NEW_LINE] == [SetToken(a), COMMA, Token(Integer, Dec(n)), NEW_LINE];
  }

  lemma ByteLexes(n: nat, rest: string)
    ensures TokensOf(" " + Dec(n) + "\n" + rest) == Then([Token(Integer, Dec(n)), NEW_LINE], TokensOf(rest))
  {
    hide TokensOf, Dec;
    assert " " + Dec(n) + "\n" + rest == " " + (Dec(n) + ("\n" + rest));
    SpaceFirst(Dec(n) + ("\n" + rest));
    NumberLexes(n, rest);
  }

  lemma LabelUseLexes(k: nat, rest: string)
    ensures TokensOf(" " + LabelText(k) + "\n" + rest) == Then([Token(Identifier, LabelText(k)), NEW_LINE], TokensOf(rest))
  {
    hide TokensOf, LabelText;
    LabelIsWord(k);
    var line := "\n" + rest;
    assert " " + LabelText(k) + "\n" + rest == " " + (LabelText(k) + line);
    SpaceFirst(LabelText(k) + line);
    WordFirst(LabelText(k), line);
    BreakFirst(rest);
    ThenThen([Token(Identifier, LabelText(k))], [NEW_LINE], TokensOf(rest));
    assert [Token(Identifier, LabelText(k))] + [NEW_LINE] == [Token(Identifier, LabelText(k)), NEW_LINE];
  }

  lemma OperandsLex(i: Instr, rest: string)
    ensures TokensOf(OperandText(i) + "\n" + rest) == Then(OperandTokens(i) + [NEW_LINE], TokensOf(rest))
  {
    hide TokensOf, RegsetText, Dec, LabelText, Wide, Num;
    match i.op
    case Nop | Ext =>
      assert "" + "\n" + rest == "\n" + rest;
      BreakFirst(rest);
      assert [] + [NEW_LINE] == [NEW_LINE];
    case Set | Shr =>
      SetAndByteLex(i.a, Num(i.b), rest);
      assert OperandTokens(i) + [NEW_LINE] == [SetToken(i.a), COMMA, Token(Integer, Dec(Num(i.b))), NEW_LINE];
    case Cid | Ctr =>
      ByteLexes(Num(i.b), rest);
      assert OperandTokens(i) + [NEW_LINE] == [Token(Integer, Dec(Num(i.b))), NEW_LINE];
    case Jpi =>
      LabelUseLexes(Wide(i.a, i.b), rest);
      assert OperandTokens(i) + [NEW_LINE] == [Token(Identifier, LabelText(Wide(i.a, i.b))), NEW_LINE];
    case Ldm | Stm | Jpr | Nad | And | Xor | Mov | Add | Cmp =>
      TwoSetsLex(i.a, i.b, rest);
      assert OperandTokens(i) + [NEW_LINE] == [SetToken(i.a), COMMA, SetToken(i.b), NEW_LINE];
  }

  // ----- lines

  function HeadText(i: Instr): string {
    (if i.op == Nop then "" else Prefix(i.cond)) + MnemonicText(i.op)
  }

  function InstrTokens(i: Instr): seq<Token> {
    [Token(Identifier, HeadText(i))] + OperandTokens(i)
  }

  lemma MnemonicIsWord(op: Op)
    requires op != Ext
    ensures IsWord(MnemonicText(op))
  {}

  lemma CondIsWord(c: bv4)
    requires NamedCond(c) && c != COND_T
    ensures IsWord(CondName(c))
  {}

  lemma OperandsEndWord(i: Instr, rest: string)
    ensures var t := OperandText(i) + "\n" + rest; Ends(t) && t[0] != ':' && t[0] != '.'
  {
    hide RegsetText, Dec, LabelText, Wide, Num;
    var t := OperandText(i) + "\n" + rest;
    assert t[0] == ' ' || t[0] == '\n';
  }

  /** A printed instruction with its new line is read as the tokens it was printed from. */
  lemma InstrLexes(i: Instr, rest: string)
    requires i.op != Ext && (i.op == Nop || NamedCond(i.cond))
    ensures TokensOf(InstrText(i) + "\n" + rest) == Then(InstrTokens(i) + [NEW_LINE], TokensOf(rest))
  {
    hide TokensOf, OperandText, OperandTokens, MnemonicText, CondName, NamedCond, IsWord;
    var m := MnemonicText(i.op);
    var tail := OperandText(i) + "\n" + rest;
    MnemonicIsWord(i.op);
    OperandsEndWord(i, rest);
    OperandsLex(i, rest);
    if i.op == Nop || i.cond == COND_T {
      assert HeadText(i) == m by { assert "" + m == m; }
      assert InstrText(i) + "\n" + rest == m + tail;
      WordFirst(m, tail);
    } else {
      CondIsWord(i.cond);
      assert HeadText(i) == CondName(i.cond) + "." + m;
      assert InstrText(i) + "\n" + rest == CondName(i.cond) + "." + m + tail;
      WordIsAlphanumeric(m);
      DottedFirst(CondName(i.cond), m, tail);
    }
    ThenThen([Token(Identifier, HeadText(i))], OperandTokens(i) + [NEW_LINE], TokensOf(rest));
    assert InstrTokens(i) + [NEW_LINE] == [Token(Identifier, HeadText(i))] + (OperandTokens(i) + [NEW_LINE]);
  }

  lemma WordIsAlphanumeric(w: string)
    requires IsWord(w)
    ensures AllOf(w, Alphanumeric)
  {}

  /** A printed label line. */
  lemma LabelLexes(k: nat, rest: string)
    ensures TokensOf("\n" + LabelText(k) + ":\n" + rest) ==
            Then([NEW_LINE, Token(Label, LabelText(k) + ":"), NEW_LINE], TokensOf(rest))
  {
    hide TokensOf, LabelText;
    LabelIsWord(k);
    var line := "\n" + rest;
    var all := LabelText(k) + ":" + line;
    assert "\n" + LabelText(k) + ":\n" + rest == "\n" + all;
    BreakFirst(all);
    LabelFirst(LabelText(k), line);
    BreakFirst(rest);
    var l := Token(Label, LabelText(k) + ":");
    ThenThen([l], [NEW_LINE], TokensOf(rest));
    ThenThen([NEW_LINE], [l] + [NEW_LINE], TokensOf(rest));
    assert [NEW_LINE] + ([l] + [NEW_LINE]) == [NEW_LINE, l, NEW_LINE];
  }
}
