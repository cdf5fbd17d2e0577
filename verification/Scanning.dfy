/** How source text falls into tokens, white space and comments. Every scanner here looks at the text ahead of the
    cursor and says how much of it it takes, or None where the source reports an error. */
module Scanning {
  import opened Options
  import opened Parsing

  // ----- characters

  datatype CharClass = Exactly(c: char) | Whitespace | Alphabetic | Alphanumeric | Decimal | Hexadecimal | Octal | Binary | Escape {
    predicate Test(x: char) {
      match this
      case Exactly(c) => x == c
      case Whitespace => x == ' ' || x == '\t' || x == '\r' || x == '\n' || x == '\U{000B}' || x == '\U{000C}'
      case Alphabetic => 'a' <= x <= 'z' || 'A' <= x <= 'Z' || x == '_'
      case Alphanumeric => 'a' <= x <= 'z' || 'A' <= x <= 'Z' || '0' <= x <= '9' || x == '_'
      case Decimal => '0' <= x <= '9'
      case Hexadecimal => '0' <= x <= '9' || 'a' <= x <= 'f' || 'A' <= x <= 'F'
      case Octal => '0' <= x <= '7'
      case Binary => x == '0' || x == '1'
      case Escape => x in "abefnrtv\\'\""
    }
  }

  /** Does the text ahead begin with a character of the class? Never at the end of the text. */
  predicate Sees(text: string, p: CharClass) {
    text != [] && p.Test(text[0])
  }

  predicate SeesText(text: string, s: string) {
    s <= text
  }

  function Greedy(text: string, p: CharClass): (n: nat)
    ensures n <= |text|
  {
    if Sees(text, p) then 1 + Greedy(text[1..], p) else 0
  }

  function Plus(n: nat, m: Option<nat>): Option<nat> {
    match m
    case Some(k) => Some(n + k)
    case None => None
  }

  // ----- comments

  /** What an inline comment takes behind its slashes: up to a new line, a second pair of slashes, or the end. */
  function InlineComment(text: string): (n: nat)
    ensures n <= |text|
  {
    if text == [] || text[0] == '\n' then 0
    else if SeesText(text, "//") then 2
    else 1 + InlineComment(text[1..])
  }

  /** Is the new line in front of which an inline comment stopped part of what it emits? */
  predicate BreaksLine(text: string) {
    text != [] && !EndsInline(text) && InlineComment(text) < |text|
  }

  /** Did the comment stop behind a second pair of slashes? */
  predicate EndsInline(text: string) {
    if text == [] || text[0] == '\n' then false
    else if SeesText(text, "//") then true
    else EndsInline(text[1..])
  }

  /** What a block comment takes with `depth` openings unmatched. */
  function BlockComment(text: string, depth: nat): (n: nat)
    ensures n <= |text|
  {
    if text == [] || depth == 0 then 0
    else if SeesText(text, "/*") then 2 + BlockComment(text[2..], depth + 1)
    else if SeesText(text, "*/") then 2 + BlockComment(text[2..], depth - 1)
    else 1 + BlockComment(text[1..], depth)
  }

  // ----- words, numbers, sets, strings

  /** Behind the first letter. */
  function Word(text: string): (r: (Kind, nat))
    ensures r.1 <= |text|
  {
    var n := Greedy(text, Alphanumeric);
    if Sees(text[n..], Exactly(':')) then (Label, n + 1)
    else if Sees(text[n..], Exactly('.')) then (Identifier, n + 1 + Greedy(text[n + 1..], Alphanumeric))
    else (Identifier, n)
  }

  /** Digits with separators, at most one between two runs. */
  function Digits(text: string, p: CharClass): (n: nat)
    ensures n <= |text|
    decreases |text|
  {
    var n := Greedy(text, p);
    if n > 0 && Sees(text[n..], Exactly('\'')) then n + 1 + Digits(text[n + 1..], p) else n
  }

  /** Decimal digits; a separator has to be followed by a digit. */
  function DecimalDigits(text: string): (n: Option<nat>)
    ensures n.Some? ==> n.value <= |text|
    decreases |text|
  {
    var n := Greedy(text, Decimal);
    if n > 0 && Sees(text[n..], Exactly('\'')) then
      if Sees(text[n + 1..], Decimal) then Plus(n + 2, DecimalDigits(text[n + 2..])) else None
    else Some(n)
  }

  /** A number may not run into a letter. */
  function Tail(text: string, n: nat): Option<nat>
    requires n <= |text|
  {
    if Sees(text[n..], Alphanumeric) then None else Some(n)
  }

  function Number(text: string): (n: Option<nat>)
    ensures n.Some? ==> n.value <= |text|
  {
    if SeesText(text, "0x") then Tail(text, 2 + Digits(text[2..], Hexadecimal))
    else if SeesText(text, "0o") then Tail(text, 2 + Digits(text[2..], Octal))
    else if SeesText(text, "0b") then Tail(text, 2 + Digits(text[2..], Binary))
    else
      match DecimalDigits(text)
      case Some(n) => Tail(text, n)
      case None => None
  }

  /** Register digits in ascending order; the text may not end here. */
  function SetDigits(text: string, previous: char): (n: Option<nat>)
    ensures n.Some? ==> n.value <= |text|
  {
    if text == [] then None
    else if '0' <= text[0] <= '7' then if text[0] <= previous then None else Plus(1, SetDigits(text[1..], text[0]))
    else if Alphanumeric.Test(text[0]) then None
    else Some(0)
  }

  const BEFORE_ZERO := '/'

  /** What an escape takes behind its backslash. */
  function EscapeCode(text: string): (n: Option<nat>)
    ensures n.Some? ==> 0 < n.value <= |text|
  {
    if text == [] then None
    else if Escape.Test(text[0]) then Some(1)
    else if text[0] == 'x' then
      var one := if Sees(text[1..], Hexadecimal) then 2 else 1;
      Some(if Sees(text[one..], Hexadecimal) then one + 1 else one)
    else Some(1)
  }

  /** Behind the opening quote. A character behind an escape is taken unseen, and the text may end the string. */
  function StringRest(text: string): (n: Option<nat>)
    ensures n.Some? ==> n.value <= |text|
    decreases |text|
  {
    if text == [] then Some(0)
    else if text[0] == '\n' then None
    else if text[0] == '\\' then
      match EscapeCode(text[1..])
      case None => None
      case Some(e) =>
        if Sees(text[1 + e..], Exactly('"')) then Some(2 + e)
        else if text[1 + e..] == [] then None
        else Plus(2 + e, StringRest(text[2 + e..]))
    else if text[0] == '"' then Some(1)
    else Plus(1, StringRest(text[1..]))
  }

  // ----- the whole text

  /** A stretch of text that is a token, or that is white space or a comment. */
  datatype Piece = Tok(kind: Kind, len: nat) | Gap(len: nat)

  function OneToken(kind: Kind, len: Option<nat>): Option<seq<Piece>> {
    match len
    case Some(n) => Some([Tok(kind, n)])
    case None => None
  }

  /** The pieces that one round of the tokenizer takes from a non-empty text. */
  function Round(text: string): Option<seq<Piece>>
    requires text != []
  {
    if text[0] == '\n' || text[0] == ';' then Some([Tok(Break, 1)])
    else if Whitespace.Test(text[0]) then Some([Gap(1)])
    else if SeesText(text, "//") then
      var rest := text[2..];
      Some([Gap(2 + InlineComment(rest))] + if BreaksLine(rest) then [Tok(Break, 1)] else [])
    else if SeesText(text, "/*") then Some([Gap(2 + BlockComment(text[2..], 1))])
    else if Alphabetic.Test(text[0]) then
      var (kind, n) := Word(text[1..]);
      Some([Tok(kind, 1 + n)])
    else if text[0] == '"' then OneToken(Text, Plus(1, StringRest(text[1..])))
    else if Decimal.Test(text[0]) then OneToken(Integer, Number(text))
    else if text[0] == '$' then OneToken(Regset, Plus(1, SetDigits(text[1..], BEFORE_ZERO)))
    else if text[0] == ',' then Some([Tok(Symbol, 1)])
    else None
  }

  function Extent(pieces: seq<Piece>): nat {
    if pieces == [] then 0 else Extent(pieces[..|pieces| - 1]) + pieces[|pieces| - 1].len
  }

  lemma {:induction false} ExtentAppends(a: seq<Piece>, b: seq<Piece>)
    ensures Extent(a + b) == Extent(a) + Extent(b)
    decreases |b|
  {
    if b == [] {
      assert a + b == a;
    } else {
      assert (a + b)[..|a + b| - 1] == a + b[..|b| - 1];
      ExtentAppends(a, b[..|b| - 1]);
    }
  }

  lemma InlineStops(text: string)
    ensures BreaksLine(text) ==> InlineComment(text) < |text| && text[InlineComment(text)] == '\n'
    ensures !EndsInline(text) ==> InlineComment(text) == |text| || text[InlineComment(text)] == '\n'
  {
    if text != [] && text[0] != '\n' && !SeesText(text, "//") {
      InlineStops(text[1..]);
    }
  }

  lemma NumberTakesSome(text: string)
    requires Sees(text, Decimal)
    ensures Number(text).Some? ==> Number(text).value > 0
  {
    assert Greedy(text, Decimal) > 0;
  }

  /** A round takes at least one character and no more than there are. */
  lemma RoundTakesSome(text: string)
    requires text != [] && Round(text).Some?
    ensures 0 < Extent(Round(text).value) <= |text|
    ensures Round(text).value != [] && forall k :: 0 <= k < |Round(text).value| ==> Round(text).value[k].len > 0
  {
    hide Greedy, Number, SetDigits, StringRest, Word, InlineComment, BlockComment, EndsInline;
    if SeesText(text, "//") {
      InlineStops(text[2..]);
      var a, b := Gap(2 + InlineComment(text[2..])), Tok(Break, 1);
      assert Extent([a]) == a.len by { assert [a][..0] == []; }
      assert Extent([a] + [b]) == a.len + 1 by { ExtentAppends([a], [b]); assert [b][..0] == []; }
      assert [a] + [] == [a];
    }
    if Sees(text, Decimal) {
      NumberTakesSome(text);
    }
    var r := Round(text).value;
    if |r| == 1 {
      assert r[..0] == [];
    }
  }

  /** The whole text, with an empty break at its end. */
  function Pieces(text: string): Option<seq<Piece>>
    decreases |text|
  {
    if text == [] then Some([Tok(Break, 0)])
    else
      match Round(text)
      case None => None
      case Some(r) =>
        RoundTakesSome(text);
        match Pieces(text[Extent(r)..])
        case None => None
        case Some(rest) => Some(r + rest)
  }

  // ----- tokens and their places

  datatype Span = Span(kind: Kind, begin: nat, end: nat)

  /** The tokens among pieces that start at a position. */
  function Spans(pieces: seq<Piece>, at: nat): seq<Span> {
    if pieces == [] then []
    else
      var p := pieces[0];
      (if p.Tok? then [Span(p.kind, at, at + p.len)] else []) + Spans(pieces[1..], at + p.len)
  }

  function SpansOf(source: string): Option<seq<Span>> {
    match Pieces(source)
    case Some(p) => Some(Spans(p, 0))
    case None => None
  }

  /** The tokens among pieces of a text. */
  function TokensIn(text: string, pieces: seq<Piece>): seq<Token>
    decreases |pieces|
  {
    if pieces == [] || pieces[0].len > |text| then []
    else
      (if pieces[0].Tok? then [Token(pieces[0].kind, text[..pieces[0].len])] else []) +
      TokensIn(text[pieces[0].len..], pieces[1..])
  }

  /** The tokens of a source, or None if it has a lexical error. */
  function TokensOf(source: string): Option<seq<Token>> {
    match Pieces(source)
    case Some(p) => Some(TokensIn(source, p))
    case None => None
  }

  // ----- tiling

  /** Piece k of a text lies at this position. */
  function PlaceOf(pieces: seq<Piece>, k: nat): nat
    requires k <= |pieces|
  {
    Extent(pieces[..k])
  }

  /** The pieces tile the source: their lengths add up to its length, and the last of them is an empty break. */
  lemma {:induction false} PiecesTile(source: string)
    requires Pieces(source).Some?
    ensures var p := Pieces(source).value;
            p != [] && p[|p| - 1] == Tok(Break, 0) && Extent(p) == |source|
    decreases |source|
  {
    hide Round;
    if source == [] {
      assert [Tok(Break, 0)][..0] == [];
    } else {
      RoundTakesSome(source);
      var r := Round(source).value;
      PiecesTile(source[Extent(r)..]);
      ExtentAppends(r, Pieces(source[Extent(r)..]).value);
    }
  }

  predicate Sorted(spans: seq<Span>, low: nat, high: nat) {
    && (forall i :: 0 <= i < |spans| ==> low <= spans[i].begin <= spans[i].end <= high)
    && (forall i, j :: 0 <= i < j < |spans| ==> spans[i].end <= spans[j].begin)
  }

  lemma {:induction false} ExtentFront(pieces: seq<Piece>)
    requires pieces != []
    ensures Extent(pieces) == pieces[0].len + Extent(pieces[1..])
  {
    assert pieces == [pieces[0]] + pieces[1..];
    ExtentAppends([pieces[0]], pieces[1..]);
    assert [pieces[0]][..0] == [];
  }

  lemma SortedCons(first: Span, rest: seq<Span>, low: nat, mid: nat, high: nat)
    requires low <= first.begin <= first.end <= mid <= high && Sorted(rest, mid, high)
    ensures Sorted([first] + rest, low, high)
  {}

  lemma SortedWider(spans: seq<Span>, low: nat, mid: nat, high: nat)
    requires low <= mid && Sorted(spans, mid, high)
    ensures Sorted(spans, low, high)
  {}

  lemma {:induction false} SpansSorted(pieces: seq<Piece>, at: nat)
    ensures Sorted(Spans(pieces, at), at, at + Extent(pieces))
    decreases |pieces|
  {
    hide Sorted, Extent;
    if pieces == [] {
      NoSpans(at);
    } else {
      var p := pieces[0];
      ExtentFront(pieces);
      SpansSorted(pieces[1..], at + p.len);
      var rest := Spans(pieces[1..], at + p.len);
      if p.Tok? {
        SortedCons(Span(p.kind, at, at + p.len), rest, at, at + p.len, at + Extent(pieces));
      } else {
        SortedWider(rest, at, at + p.len, at + Extent(pieces));
        assert [] + rest == rest;
      }
    }
  }

  lemma NoSpans(at: nat)
    ensures Sorted([], at, at + Extent([])) && Spans([], at) == [] && Extent([]) == 0
  {}

  /** Token spans are in bounds, ordered and disjoint, and the last one is the empty break at the end. */
  lemma TokensAreOrdered(source: string)
    requires SpansOf(source).Some?
    ensures var s := SpansOf(source).value;
            Sorted(s, 0, |source|) && s != [] && s[|s| - 1] == Span(Break, |source|, |source|)
  {
    hide Sorted, Spans, Extent;
    var p := Pieces(source).value;
    PiecesTile(source);
    SpansSorted(p, 0);
    LastSpan(p, 0);
  }

  lemma {:induction false} LastSpan(pieces: seq<Piece>, at: nat)
    requires pieces != [] && pieces[|pieces| - 1] == Tok(Break, 0)
    ensures var s := Spans(pieces, at);
            s != [] && s[|s| - 1] == Span(Break, at + Extent(pieces), at + Extent(pieces))
    decreases |pieces|
  {
    ExtentFront(pieces);
    if |pieces| == 1 {
      assert pieces[1..] == [];
      assert Spans(pieces, at) == [Span(Break, at, at)];
    } else {
      LastSpan(pieces[1..], at + pieces[0].len);
    }
  }

  lemma {:induction false} SpansAppend(a: seq<Piece>, b: seq<Piece>, at: nat)
    ensures Spans(a + b, at) == Spans(a, at) + Spans(b, at + Extent(a))
    decreases |a|
  {
    hide Extent, Spans;
    if a == [] {
      assert a + b == b;
      NoSpans(at);
    } else {
      assert (a + b)[1..] == a[1..] + b && (a + b)[0] == a[0];
      ExtentFront(a);
      SpansFront(a, at);
      SpansFront(a + b, at);
      SpansAppend(a[1..], b, at + a[0].len);
    }
  }

  lemma SpansFront(pieces: seq<Piece>, at: nat)
    requires pieces != []
    ensures var p := pieces[0];
            Spans(pieces, at) == (if p.Tok? then [Span(p.kind, at, at + p.len)] else []) + Spans(pieces[1..], at + p.len)
  {}
}
