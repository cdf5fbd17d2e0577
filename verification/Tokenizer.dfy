/** The tokenizer as it runs: a cursor over the source with a mark where the current token began, scanning loops
    that move it, and a sink for the tokens. It finds the tokens that Scanning describes. */
module Tokenizer {
  import opened Options
  import opened Parsing
  import opened Scanning

  lemma Suffixes(text: string, i: nat, j: nat)
    requires i + j <= |text|
    ensures text[i..][j..] == text[i + j..]
  {}

  class Lexer {
    const source: string
    var previous: nat
    var offset: nat

    ghost predicate Valid()
      reads this
    {
      previous <= offset <= |source|
    }

    /** The text the cursor stands in front of. */
    ghost function Ahead(): string
      requires Valid()
      reads this
    {
      source[offset..]
    }

    constructor (source: string)
      ensures Valid() && this.source == source && offset == 0 && previous == 0
    {
      this.source, previous, offset := source, 0, 0;
    }

    predicate Empty()
      reads this
    {
      offset >= |source|
    }

    method BeginToken()
      requires Valid()
      modifies `previous
      ensures Valid() && previous == offset
    {
      previous := offset;
    }

    method Rewind()
      requires Valid()
      modifies `offset
      ensures Valid() && offset == previous
    {
      offset := previous;
    }

    method EndToken(kind: Kind) returns (s: Span)
      requires Valid()
      modifies `previous
      ensures Valid() && s == Span(kind, old(previous), offset) && previous == offset
    {
      s := Span(kind, previous, offset);
      previous := offset;
    }

    method Advance()
      requires Valid()
      modifies `offset
      ensures Valid() && offset == if old(Ahead()) == [] then old(offset) else old(offset) + 1
    {
      if offset < |source| {
        offset := offset + 1;
      }
    }

    /** The next character, or None where the source raises a message. */
    method Next() returns (c: Option<char>)
      requires Valid()
      modifies `offset
      ensures Valid() && c == if old(Ahead()) == [] then None else Some(old(Ahead())[0])
      ensures offset == if c.Some? then old(offset) + 1 else old(offset)
    {
      if Empty() {
        return None;
      }
      c := Some(source[offset]);
      Advance();
    }

    method Match(p: CharClass) returns (matched: bool)
      requires Valid()
      modifies `offset
      ensures Valid() && matched == Sees(old(Ahead()), p) && offset == if matched then old(offset) + 1 else old(offset)
    {
      if offset < |source| && p.Test(source[offset]) {
        Advance();
        return true;
      }
      matched := false;
    }

    /** A fixed text, or nothing is consumed. */
    method MatchText(s: string) returns (matched: bool)
      requires Valid()
      modifies `offset
      ensures Valid() && matched == SeesText(old(Ahead()), s) && offset == if matched then old(offset) + |s| else old(offset)
    {
      var start := offset;
      ghost var text := Ahead();
      for i := 0 to |s|
        invariant Valid() && offset == start + i && s[..i] <= text
      {
        var next := Match(Exactly(s[i]));
        if !next {
          offset := start;
          return false;
        }
      }
      matched := true;
    }

    method GreedyMatch(p: CharClass) returns (matched: bool)
      requires Valid()
      modifies `offset
      ensures Valid() && offset == old(offset) + Greedy(old(Ahead()), p) && matched == (offset > old(offset))
    {
      matched := false;
      ghost var text, start := Ahead(), offset;
      var more := Match(p);
      while more
        invariant Valid() && start <= offset && matched == (offset > start + (if more then 1 else 0))
        invariant more ==> start < offset && start + Greedy(text, p) == offset + Greedy(Ahead(), p)
        invariant !more ==> start + Greedy(text, p) == offset
        decreases |source| - offset, more
      {
        matched := true;
        more := Match(p);
      }
    }
  }

  // ----- comments

  /** Emits the break of a comment that runs up to a new line. */
  method ScanInlineComment(lexer: Lexer) returns (tokens: seq<Span>)
    requires lexer.Valid()
    modifies lexer
    ensures lexer.Valid()
    ensures var text, at := old(lexer.Ahead()), old(lexer.offset);
            var n := InlineComment(text);
            && lexer.offset == at + n + (if BreaksLine(text) then 1 else 0)
            && tokens == if BreaksLine(text) then [Span(Break, at + n, at + n + 1)] else []
  {
    tokens := [];
    ghost var text, at := lexer.Ahead(), lexer.offset;
    while !lexer.Empty()
      invariant lexer.Valid() && at <= lexer.offset
      invariant at + InlineComment(text) == lexer.offset + InlineComment(lexer.Ahead())
      invariant BreaksLine(text) == BreaksLine(lexer.Ahead()) && tokens == []
      decreases |lexer.source| - lexer.offset
    {
      lexer.BeginToken();
      var newLine := lexer.Match(Exactly('\n'));
      if newLine {
        var t := lexer.EndToken(Break);
        tokens := [t];
        return;
      }
      var slashes := lexer.MatchText("//");
      if slashes {
        return;
      }
      var c := lexer.Next();
    }
  }

  lemma BlockStep(source: string, i: nat, depth: nat)
    requires i < |source| && depth > 0
    ensures var text := source[i..];
            BlockComment(text, depth) ==
              if SeesText(text, "/*") then 2 + BlockComment(source[i + 2..], depth + 1)
              else if SeesText(text, "*/") then 2 + BlockComment(source[i + 2..], depth - 1)
              else 1 + BlockComment(source[i + 1..], depth)
  {
    Suffixes(source, i, 1);
    if i + 2 <= |source| {
      Suffixes(source, i, 2);
    }
  }

  lemma BlockDone(source: string, i: nat, depth: nat)
    requires i <= |source| && (i == |source| || depth == 0)
    ensures BlockComment(source[i..], depth) == 0
  {}

  method ScanMultilineComment(lexer: Lexer)
    requires lexer.Valid()
    modifies lexer
    ensures lexer.Valid() && lexer.offset == old(lexer.offset) + BlockComment(old(lexer.Ahead()), 1)
  {
    hide BlockComment;
    var depth := 1;
    ghost var text, at := lexer.Ahead(), lexer.offset;
    while !lexer.Empty()
      invariant lexer.Valid() && at <= lexer.offset && depth >= 0
      invariant at + BlockComment(text, 1) == lexer.offset + BlockComment(lexer.Ahead(), depth)
      decreases |lexer.source| - lexer.offset
    {
      if depth <= 0 {
        BlockDone(lexer.source, lexer.offset, depth);
        return;
      }
      BlockStep(lexer.source, lexer.offset, depth);
      var opens := lexer.MatchText("/*");
      if opens {
        depth := depth + 1;
        continue;
      }
      var closes := lexer.MatchText("*/");
      if closes {
        depth := depth - 1;
        continue;
      }
      var c := lexer.Next();
    }
    BlockDone(lexer.source, lexer.offset, depth);
  }

  // ----- words and numbers

  method ScanIdentifierOrLabel(lexer: Lexer) returns (t: Span)
    requires lexer.Valid()
    modifies lexer
    ensures lexer.Valid()
    ensures var (kind, n) := Word(old(lexer.Ahead()));
            lexer.offset == old(lexer.offset) + n && t == Span(kind, old(lexer.previous), lexer.offset)
  {
    hide Greedy;
    var some := lexer.GreedyMatch(Alphanumeric);
    var colon := lexer.Match(Exactly(':'));
    if colon {
      t := lexer.EndToken(Label);
      return;
    }
    var dot := lexer.Match(Exactly('.'));
    if dot {
      some := lexer.GreedyMatch(Alphanumeric);
    }
    t := lexer.EndToken(Identifier);
  }

  lemma DigitsStep(source: string, i: nat, p: CharClass)
    requires i <= |source|
    ensures var n := Greedy(source[i..], p);
            Digits(source[i..], p) ==
              if n > 0 && Sees(source[i + n..], Exactly('\'')) then n + 1 + Digits(source[i + n + 1..], p) else n
  {
    hide Greedy;
    var n := Greedy(source[i..], p);
    Suffixes(source, i, n);
    if i + n < |source| {
      Suffixes(source, i, n + 1);
    }
  }

  method ScanDigits(lexer: Lexer, p: CharClass)
    requires lexer.Valid()
    modifies lexer`offset
    ensures lexer.Valid() && lexer.offset == old(lexer.offset) + Digits(old(lexer.Ahead()), p)
  {
    hide Greedy, Digits;
    ghost var text, at := lexer.Ahead(), lexer.offset;
    ghost var mark := at;
    var more := lexer.GreedyMatch(p);
    while more
      invariant lexer.Valid() && at <= mark <= lexer.offset
      invariant lexer.offset == mark + Greedy(lexer.source[mark..], p) && more == (lexer.offset > mark)
      invariant at + Digits(text, p) == mark + Digits(lexer.source[mark..], p)
      decreases |lexer.source| - lexer.offset, more
    {
      DigitsStep(lexer.source, mark, p);
      var separator := lexer.Match(Exactly('\''));
      if !separator {
        return;
      }
      mark := lexer.offset;
      more := lexer.GreedyMatch(p);
    }
    DigitsStep(lexer.source, mark, p);
  }

  /** None where the source raises: a number may not run into a letter. */
  method ScanNumberTail(lexer: Lexer) returns (t: Option<Span>)
    requires lexer.Valid()
    modifies lexer
    ensures lexer.Valid() && (t.None? <==> Sees(old(lexer.Ahead()), Alphanumeric))
    ensures t.Some? ==> t.value == Span(Integer, old(lexer.previous), old(lexer.offset)) && lexer.offset == old(lexer.offset)
  {
    var letter := lexer.Match(Alphanumeric);
    if letter {
      return None;
    }
    var s := lexer.EndToken(Integer);
    t := Some(s);
  }

  lemma {:induction false} GreedyStops(text: string, p: CharClass)
    ensures !Sees(text[Greedy(text, p)..], p)
    decreases |text|
  {
    if Sees(text, p) {
      GreedyStops(text[1..], p);
    }
  }

  lemma DecimalStep(source: string, i: nat)
    requires i <= |source|
    ensures var n := Greedy(source[i..], Decimal);
            DecimalDigits(source[i..]) ==
              if n == 0 then Some(0)
              else if !Sees(source[i + n..], Exactly('\'')) then Plus(n, DecimalDigits(source[i + n..]))
              else if Sees(source[i + n + 1..], Decimal) then Plus(n + 2, DecimalDigits(source[i + n + 2..]))
              else None
  {
    hide Greedy;
    var n := Greedy(source[i..], Decimal);
    Suffixes(source, i, n);
    if i + n < |source| {
      Suffixes(source, i, n + 1);
    }
    if i + n + 1 < |source| {
      Suffixes(source, i, n + 2);
    }
    if n > 0 && !Sees(source[i + n..], Exactly('\'')) {
      GreedyStops(source[i..], Decimal);
      NoDigits(source[i + n..]);
    }
  }

  lemma NoDigits(text: string)
    requires !Sees(text, Decimal)
    ensures DecimalDigits(text) == Some(0)
  {}

  /** Decimal digits, from the cursor on. */
  method ScanDecimal(lexer: Lexer) returns (ok: bool)
    requires lexer.Valid()
    modifies lexer`offset
    ensures lexer.Valid() && ok == DecimalDigits(old(lexer.Ahead())).Some?
    ensures ok ==> lexer.offset == old(lexer.offset) + DecimalDigits(old(lexer.Ahead())).value
  {
    hide Greedy, DecimalDigits;
    ghost var text, at := lexer.Ahead(), lexer.offset;
    while true
      invariant lexer.Valid() && at <= lexer.offset
      invariant DecimalDigits(text) == Plus(lexer.offset - at, DecimalDigits(lexer.Ahead()))
      decreases |lexer.source| - lexer.offset
    {
      DecimalStep(lexer.source, lexer.offset);
      var some := lexer.GreedyMatch(Decimal);
      if !some {
        return true;
      }
      var separator := lexer.Match(Exactly('\''));
      if separator {
        var digit := lexer.Match(Decimal);
        if !digit {
          return false;
        }
      }
    }
  }

  /** The digits a two-character prefix announces. */
  function BaseOf(text: string): Option<CharClass> {
    if |text| < 2 || text[0] != '0' then None
    else if text[1] == 'x' then Some(Hexadecimal)
    else if text[1] == 'o' then Some(Octal)
    else if text[1] == 'b' then Some(Binary)
    else None
  }

  lemma NumberIs(text: string)
    ensures Number(text) ==
            match BaseOf(text)
            case Some(p) => if |text| < 2 then None else Tail(text, 2 + Digits(text[2..], p))
            case None => if DecimalDigits(text).Some? then Tail(text, DecimalDigits(text).value) else None
  {
    hide Digits, DecimalDigits, SeesText, Tail;
    Prefixes(text);
  }

  method MatchBase(lexer: Lexer) returns (p: Option<CharClass>)
    requires lexer.Valid()
    modifies lexer`offset
    ensures lexer.Valid() && p == BaseOf(old(lexer.Ahead()))
    ensures p.Some? ==> lexer.offset == old(lexer.offset) + 2
  {
    p := None;
    var zero := lexer.Match(Exactly('0'));
    if zero {
      var x := lexer.Match(Exactly('x'));
      if x {
        return Some(Hexadecimal);
      }
      var o := lexer.Match(Exactly('o'));
      if o {
        return Some(Octal);
      }
      var b := lexer.Match(Exactly('b'));
      if b {
        return Some(Binary);
      }
    }
  }

  /** `scanInteger`: from the beginning of the token again. */
  method ScanInteger(lexer: Lexer) returns (t: Option<Span>)
    requires lexer.Valid()
    modifies lexer
    ensures lexer.Valid()
    ensures var text, at := lexer.source[old(lexer.previous)..], old(lexer.previous);
            match Number(text)
            case None => t.None?
            case Some(n) => t == Some(Span(Integer, at, at + n)) && lexer.offset == at + n
  {
    hide Digits, DecimalDigits, Number, BaseOf;
    lexer.Rewind();
    ghost var text, at := lexer.Ahead(), lexer.offset;
    NumberIs(text);
    var base := MatchBase(lexer);
    if base.Some? {
      t := ScanBased(lexer, base.value, text, at);
      return;
    }
    lexer.Rewind();
    var ok := ScanDecimal(lexer);
    if !ok {
      return None;
    }
    Suffixes(lexer.source, at, lexer.offset - at);
    t := ScanNumberTail(lexer);
  }

  method ScanBased(lexer: Lexer, p: CharClass, ghost text: string, ghost at: nat) returns (t: Option<Span>)
    requires lexer.Valid() && lexer.previous == at && lexer.offset == at + 2 && text == lexer.source[at..]
    modifies lexer
    ensures lexer.Valid()
    ensures match Tail(text, 2 + Digits(text[2..], p))
            case None => t.None?
            case Some(n) => t == Some(Span(Integer, at, at + n)) && lexer.offset == at + n
  {
    hide Digits;
    Suffixes(lexer.source, at, 2);
    ScanDigits(lexer, p);
    Suffixes(lexer.source, at, lexer.offset - at);
    t := ScanNumberTail(lexer);
  }

  lemma Prefixes(text: string)
    ensures SeesText(text, "0x") <==> |text| >= 2 && text[0] == '0' && text[1] == 'x'
    ensures SeesText(text, "0o") <==> |text| >= 2 && text[0] == '0' && text[1] == 'o'
    ensures SeesText(text, "0b") <==> |text| >= 2 && text[0] == '0' && text[1] == 'b'
  {}

  // ----- register sets and strings

  method ScanRegisterSet(lexer: Lexer) returns (t: Option<Span>)
    requires lexer.Valid()
    modifies lexer
    ensures lexer.Valid()
    ensures match SetDigits(old(lexer.Ahead()), BEFORE_ZERO)
            case None => t.None?
            case Some(n) => lexer.offset == old(lexer.offset) + n && t == Some(Span(Regset, old(lexer.previous), lexer.offset))
  {
    var previous := BEFORE_ZERO;
    ghost var text, at := lexer.Ahead(), lexer.offset;
    while true
      invariant lexer.Valid() && at <= lexer.offset && lexer.previous == old(lexer.previous)
      invariant SetDigits(text, BEFORE_ZERO) == Plus(lexer.offset - at, SetDigits(lexer.Ahead(), previous))
      decreases |lexer.source| - lexer.offset
    {
      if lexer.Empty() {
        return None;
      }
      var c := lexer.source[lexer.offset];
      if '0' <= c <= '7' {
        if c <= previous {
          return None;
        }
        previous := c;
        lexer.Advance();
        continue;
      }
      var letter := lexer.Match(Alphanumeric);
      if letter {
        return None;
      }
      break;
    }
    var s := lexer.EndToken(Regset);
    t := Some(s);
  }

  /** False where the source reports an error: only at the end of the text. An unknown escape is a warning. */
  method ScanCharEscape(lexer: Lexer) returns (ok: bool)
    requires lexer.Valid()
    modifies lexer`offset
    ensures lexer.Valid() && ok == EscapeCode(old(lexer.Ahead())).Some?
    ensures ok ==> lexer.offset == old(lexer.offset) + EscapeCode(old(lexer.Ahead())).value
  {
    ok := true;
    var known := lexer.Match(Escape);
    if known {
      return;
    }
    var hex := lexer.Match(Exactly('x'));
    if hex {
      var digit := lexer.Match(Hexadecimal);
      digit := lexer.Match(Hexadecimal);
      return;
    }
    var c := lexer.Next();
    ok := c.Some?;
  }

  /** Behind the opening quote. None where the source raises or records an error. */
  method ScanString(lexer: Lexer) returns (t: Option<Span>)
    requires lexer.Valid()
    modifies lexer
    ensures lexer.Valid()
    ensures match StringRest(old(lexer.Ahead()))
            case None => t.None?
            case Some(n) => lexer.offset == old(lexer.offset) + n && t == Some(Span(Text, old(lexer.previous), lexer.offset))
  {
    hide StringRest, EscapeCode;
    ghost var text, at := lexer.Ahead(), lexer.offset;
    while !lexer.Empty()
      invariant lexer.Valid() && at <= lexer.offset && lexer.previous == old(lexer.previous)
      invariant StringRest(text) == Plus(lexer.offset - at, StringRest(lexer.Ahead()))
      decreases |lexer.source| - lexer.offset
    {
      StringStep(lexer.source, lexer.offset);
      var newLine := lexer.Match(Exactly('\n'));
      if newLine {
        return None;
      }
      var backslash := lexer.Match(Exactly('\\'));
      if backslash {
        var ok := ScanCharEscape(lexer);
        if !ok {
          return None;
        }
      }
      var quote := lexer.Match(Exactly('"'));
      if quote {
        break;
      }
      var c := lexer.Next();
      if c.None? {
        return None;
      }
    }
    StringEnds();
    var s := lexer.EndToken(Text);
    t := Some(s);
  }

  lemma StringEnds()
    ensures StringRest([]) == Some(0)
  {}

  lemma StringStep(source: string, i: nat)
    requires i < |source|
    ensures var c := source[i];
            StringRest(source[i..]) ==
              if c == '\n' then None
              else if c == '\\' then
                match EscapeCode(source[i + 1..])
                case None => None
                case Some(e) =>
                  if i + 1 + e > |source| then None
                  else if Sees(source[i + 1 + e..], Exactly('"')) then Some(2 + e)
                  else if i + 1 + e == |source| then None
                  else Plus(2 + e, StringRest(source[i + 2 + e..]))
              else if c == '"' then Some(1)
              else Plus(1, StringRest(source[i + 1..]))
  {
    hide EscapeCode;
    Suffixes(source, i, 1);
    if source[i] == '\\' && EscapeCode(source[i + 1..]).Some? {
      var e := EscapeCode(source[i + 1..]).value;
      Suffixes(source, i, 1 + e);
      if i + 1 + e < |source| {
        Suffixes(source, i, 2 + e);
      }
    }
  }

  // ----- the tokenizer

  lemma OnePiece(p: Piece, at: nat)
    ensures Extent([p]) == p.len
    ensures Spans([p], at) == if p.Tok? then [Span(p.kind, at, at + p.len)] else []
  {
    assert [p][..0] == [] && [p][1..] == [];
  }

  lemma TwoPieces(p: Piece, q: Piece, at: nat)
    requires p.Gap? && q.Tok?
    ensures Extent([p] + [q]) == p.len + q.len
    ensures Spans([p] + [q], at) == [Span(q.kind, at + p.len, at + p.len + q.len)]
  {
    ExtentAppends([p], [q]);
    SpansAppend([p], [q], at);
    OnePiece(p, at);
    OnePiece(q, at + p.len);
  }

  /** The two comment branches of the loop. */
  method ScanComment(lexer: Lexer) returns (found: bool, tokens: seq<Span>)
    requires lexer.Valid() && !lexer.Empty()
    modifies lexer
    ensures lexer.Valid()
    ensures var text, at := old(lexer.Ahead()), old(lexer.offset);
            && found == (SeesText(text, "//") || SeesText(text, "/*"))
            && (!found ==> lexer.offset == at && lexer.previous == old(lexer.previous))
            && (found && Round(text).Some? ==>
                  tokens == Spans(Round(text).value, at) && lexer.offset == at + Extent(Round(text).value))
  {
    hide InlineComment, BlockComment, BreaksLine;
    tokens := [];
    ghost var text, at := lexer.Ahead(), lexer.offset;
    CommentRounds(text);
    found := lexer.MatchText("//");
    if found {
      Suffixes(lexer.source, at, 2);
      var rest := lexer.offset;
      ghost var gap := Gap(2 + InlineComment(text[2..]));
      OnePiece(gap, at);
      TwoPieces(gap, Tok(Break, 1), at);
      tokens := ScanInlineComment(lexer);
      return;
    }
    found := lexer.MatchText("/*");
    if found {
      Suffixes(lexer.source, at, 2);
      OnePiece(Gap(2 + BlockComment(text[2..], 1)), at);
      ScanMultilineComment(lexer);
    }
  }

  lemma CommentRounds(text: string)
    requires text != []
    ensures SeesText(text, "//") ==>
              var gap := Gap(2 + InlineComment(text[2..]));
              Round(text) == Some(if BreaksLine(text[2..]) then [gap] + [Tok(Break, 1)] else [gap])
    ensures SeesText(text, "/*") && !SeesText(text, "//") ==> Round(text) == Some([Gap(2 + BlockComment(text[2..], 1))])
  {
    hide InlineComment, BlockComment, BreaksLine;
    if SeesText(text, "//") {
      assert text[0] == '/';
      assert [Gap(2 + InlineComment(text[2..]))] + [] == [Gap(2 + InlineComment(text[2..]))];
    }
    if SeesText(text, "/*") {
      assert text[0] == '/';
    }
  }

  /** What Round makes of a text that does not begin with white space or a comment. */
  lemma TokenRounds(text: string)
    requires text != [] && !Whitespace.Test(text[0]) && text[0] != ';' && !SeesText(text, "//") && !SeesText(text, "/*")
    ensures Round(text) ==
            var c, rest := text[0], text[1..];
            if Alphabetic.Test(c) then Some([Tok(Word(rest).0, 1 + Word(rest).1)])
            else if c == '"' then OneToken(Text, Plus(1, StringRest(rest)))
            else if Decimal.Test(c) then OneToken(Integer, Number(text))
            else if c == '$' then OneToken(Regset, Plus(1, SetDigits(rest, BEFORE_ZERO)))
            else if c == ',' then Some([Tok(Symbol, 1)])
            else None
  {
    hide Word, StringRest, Number, SetDigits, SeesText;
  }

  lemma BlankRounds(text: string)
    requires text != [] && (Whitespace.Test(text[0]) || text[0] == ';')
    ensures Round(text) == Some([if text[0] == '\n' || text[0] == ';' then Tok(Break, 1) else Gap(1)])
  {}

  /** The token branches of the loop. */
  method ScanToken(lexer: Lexer) returns (t: Option<Span>)
    requires lexer.Valid() && !lexer.Empty() && lexer.previous == lexer.offset
    requires var text := lexer.Ahead();
             !Whitespace.Test(text[0]) && text[0] != ';' && !SeesText(text, "//") && !SeesText(text, "/*")
    modifies lexer
    ensures lexer.Valid()
    ensures var text, at := old(lexer.Ahead()), old(lexer.offset);
            match Round(text)
            case None => t.None?
            case Some(p) => t.Some? && [t.value] == Spans(p, at) && lexer.offset == at + Extent(p)
  {
    hide Word, StringRest, Number, SetDigits, Round, SeesText, Spans, Extent;
    ghost var text, at := lexer.Ahead(), lexer.offset;
    TokenRounds(text);
    Suffixes(lexer.source, at, 1);
    var letter := lexer.Match(Alphabetic);
    if letter {
      var s := ScanIdentifierOrLabel(lexer);
      OnePiece(Tok(s.kind, s.end - s.begin), at);
      return Some(s);
    }
    var quote := lexer.Match(Exactly('"'));
    if quote {
      t := ScanString(lexer);
      OnePieceOf(t, at);
      return;
    }
    var digit := lexer.Match(Decimal);
    if digit {
      t := ScanInteger(lexer);
      OnePieceOf(t, at);
      return;
    }
    var dollar := lexer.Match(Exactly('$'));
    if dollar {
      t := ScanRegisterSet(lexer);
      OnePieceOf(t, at);
      return;
    }
    var comma := lexer.Match(Exactly(','));
    if comma {
      var s := lexer.EndToken(Symbol);
      OnePiece(Tok(Symbol, 1), at);
      return Some(s);
    }
    t := None;
  }

  lemma OnePieceOf(t: Option<Span>, at: nat)
    ensures t.Some? && t.value.begin == at && at <= t.value.end ==>
              var p := Tok(t.value.kind, t.value.end - at); Spans([p], at) == [t.value] && Extent([p]) == t.value.end - at
  {
    hide Spans, Extent;
    if t.Some? && t.value.begin == at && at <= t.value.end {
      OnePiece(Tok(t.value.kind, t.value.end - at), at);
    }
  }

  /** One turn of the loop. */
  method ScanRound(lexer: Lexer) returns (r: Option<seq<Span>>)
    requires lexer.Valid() && !lexer.Empty()
    modifies lexer
    ensures lexer.Valid()
    ensures match Round(old(lexer.Ahead()))
            case None => r.None?
            case Some(p) => r == Some(Spans(p, old(lexer.offset))) && lexer.offset == old(lexer.offset) + Extent(p)
  {
    hide Round, SeesText, Spans, Extent;
    ghost var text, at := lexer.Ahead(), lexer.offset;
    lexer.BeginToken();
    OnePiece(Tok(Break, 1), at);
    OnePiece(Gap(1), at);
    var newLine := lexer.Match(Exactly('\n'));
    var semicolon := false;
    if !newLine {
      semicolon := lexer.Match(Exactly(';'));
    }
    if newLine || semicolon {
      BlankRounds(text);
      var s := lexer.EndToken(Break);
      return Some([s]);
    }
    var blank := lexer.Match(Whitespace);
    if blank {
      BlankRounds(text);
      return Some([]);
    }
    var comment, tokens := ScanComment(lexer);
    if comment {
      CommentRounds(text);
      return Some(tokens);
    }
    var t := ScanToken(lexer);
    if t.None? {
      return None;
    }
    r := Some([t.value]);
  }

  lemma PiecesStep(source: string, i: nat)
    requires i < |source|
    ensures match Round(source[i..])
            case None => Pieces(source[i..]) == None
            case Some(p) =>
              && i + Extent(p) <= |source| && Extent(p) > 0
              && Pieces(source[i..]) == (match Pieces(source[i + Extent(p)..]) case None => None case Some(rest) => Some(p + rest))
  {
    hide Round, Extent;
    if Round(source[i..]).Some? {
      RoundTakesSome(source[i..]);
      Suffixes(source, i, Extent(Round(source[i..]).value));
    }
  }

  /** `tokenize`: the tokens of the source with their places, or None if the source reports a lexical error. */
  method Tokenize(source: string) returns (r: Option<seq<Span>>)
    ensures r == SpansOf(source)
  {
    hide Round, Spans, Extent, Pieces;
    var lexer := new Lexer(source);
    var sink: seq<Span> := [];
    assert source[0..] == source;
    if Pieces(source).Some? {
      assert [] + Spans(Pieces(source).value, 0) == Spans(Pieces(source).value, 0);
    }
    while !lexer.Empty()
      invariant lexer.Valid() && lexer.source == source
      invariant match Pieces(lexer.Ahead())
                case None => Pieces(source).None?
                case Some(p) => SpansOf(source) == Some(sink + Spans(p, lexer.offset))
      decreases |source| - lexer.offset
    {
      ghost var at := lexer.offset;
      PiecesStep(source, at);
      var tokens := ScanRound(lexer);
      if tokens.None? {
        return None;
      }
      ghost var p := Round(source[at..]).value;
      if Pieces(lexer.Ahead()).Some? {
        var rest := Pieces(lexer.Ahead()).value;
        SpansAppend(p, rest, at);
        assert sink + (tokens.value + Spans(rest, lexer.offset)) == sink + tokens.value + Spans(rest, lexer.offset);
      }
      sink := sink + tokens.value;
    }
    assert lexer.Ahead() == [];
    EndOfText(|source|);
    lexer.BeginToken();
    var last := lexer.EndToken(Break);
    r := Some(sink + [last]);
  }

  lemma EndOfText(at: nat)
    ensures Pieces([]) == Some([Tok(Break, 0)]) && Spans([Tok(Break, 0)], at) == [Span(Break, at, at)]
  {
    OnePiece(Tok(Break, 0), at);
  }
}
