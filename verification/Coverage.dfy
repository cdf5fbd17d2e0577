/** What lies between tokens: nothing but white space and comments, and which text is a comment. */
module Coverage {
  import opened Scanning

  // ----- nested comments

  /** The inside of a block comment: plain characters and whole comments. */
  datatype Note = Finished | Plain(c: char, rest: Note) | Nested(inner: Note, rest: Note)

  function Render(n: Note): string {
    match n
    case Finished => ""
    case Plain(c, rest) => [c] + Render(rest)
    case Nested(inner, rest) => "/*" + Render(inner) + "*/" + Render(rest)
  }

  /** No plain character of the note, with this text behind it, begins a mark. */
  predicate Proper(n: Note, after: string) {
    match n
    case Finished => true
    case Plain(c, rest) =>
      var here := [c] + (Render(rest) + after);
      !SeesText(here, "/*") && !SeesText(here, "*/") && Proper(rest, after)
    case Nested(inner, rest) => Proper(inner, "*/" + (Render(rest) + after)) && Proper(rest, after)
  }

  /** Behind an opening mark, the comment's own closing mark ends at k. */
  ghost predicate ClosesAt(text: string, k: nat) {
    && k <= |text|
    && exists n: Note :: text[..k] == Render(n) + "*/" && Proper(n, "*/" + text[k..])
  }

  lemma BlockOpens(t: string, depth: nat)
    requires depth > 0
    ensures BlockComment("/*" + t, depth) == 2 + BlockComment(t, depth + 1)
  {
    assert ("/*" + t)[2..] == t;
  }

  lemma BlockCloses(t: string, depth: nat)
    requires depth > 0
    ensures BlockComment("*/" + t, depth) == 2 + BlockComment(t, depth - 1)
  {
    var all := "*/" + t;
    assert all[2..] == t && all[0] == '*' && all[..2] == "*/";
  }

  lemma BlockContinues(c: char, t: string, depth: nat)
    requires depth > 0 && !SeesText([c] + t, "/*") && !SeesText([c] + t, "*/")
    ensures BlockComment([c] + t, depth) == 1 + BlockComment(t, depth)
  {
    var all := [c] + t;
    assert all[1..] == t;
  }

  lemma {:induction false} NotesAreSkipped(n: Note, depth: nat, text: string)
    requires Proper(n, text) && depth > 0
    ensures BlockComment(Render(n) + text, depth) == |Render(n)| + BlockComment(text, depth)
    decreases n
  {
    hide BlockComment;
    match n
    case Finished =>
      assert Render(n) + text == text;
    case Plain(c, rest) =>
      assert Render(n) + text == [c] + (Render(rest) + text);
      BlockContinues(c, Render(rest) + text, depth);
      NotesAreSkipped(rest, depth, text);
    case Nested(inner, rest) =>
      var after := "*/" + (Render(rest) + text);
      assert Render(n) + text == "/*" + (Render(inner) + after);
      BlockOpens(Render(inner) + after, depth);
      NotesAreSkipped(inner, depth + 1, after);
      BlockCloses(Render(rest) + text, depth + 1);
      NotesAreSkipped(rest, depth, text);
  }

  lemma NothingOpen(text: string)
    ensures BlockComment(text, 0) == 0
  {}

  /** Every opening that is unmatched at the start finds its closing mark. */
  predicate Closed(text: string, depth: nat) {
    if depth == 0 then true
    else if text == [] then false
    else if SeesText(text, "/*") then Closed(text[2..], depth + 1)
    else if SeesText(text, "*/") then Closed(text[2..], depth - 1)
    else Closed(text[1..], depth)
  }

  lemma {:induction false} UnclosedTakesAll(text: string, depth: nat)
    requires !Closed(text, depth)
    ensures BlockComment(text, depth) == |text|
    decreases |text|
  {
    if text == [] {
    } else if SeesText(text, "/*") {
      UnclosedTakesAll(text[2..], depth + 1);
    } else if SeesText(text, "*/") {
      UnclosedTakesAll(text[2..], depth - 1);
    } else {
      UnclosedTakesAll(text[1..], depth);
    }
  }

  /** The text up to the mark that closes the innermost opening is a note. */
  lemma {:induction false} NoteAhead(text: string, depth: nat) returns (n: Note, rest: string)
    requires depth > 0 && Closed(text, depth)
    ensures text == Render(n) + ("*/" + rest) && Proper(n, "*/" + rest) && Closed(rest, depth - 1)
    decreases |text|
  {
    if SeesText(text, "/*") {
      var inner, after := NoteAhead(text[2..], depth + 1);
      var outer, last := NoteAhead(after, depth);
      n, rest := Nested(inner, outer), last;
      assert text == "/*" + text[2..];
      assert text == Render(n) + ("*/" + rest) by {
        NestedText(inner, outer, "*/" + rest);
      }
    } else if SeesText(text, "*/") {
      n, rest := Finished, text[2..];
      assert text == "*/" + rest;
    } else {
      var later, last := NoteAhead(text[1..], depth);
      n, rest := Plain(text[0], later), last;
      assert text == [text[0]] + text[1..];
      assert text == Render(n) + ("*/" + rest);
    }
  }

  lemma NestedText(inner: Note, outer: Note, after: string)
    ensures Render(Nested(inner, outer)) + after == "/*" + (Render(inner) + ("*/" + (Render(outer) + after)))
  {}

  /** A block comment ends at k exactly if what it takes is a note and the note's closing mark; a comment that is
      never closed takes the rest of the source. */
  lemma CommentEndsExactly(text: string)
    ensures forall k: nat :: ClosesAt(text, k) ==> BlockComment(text, 1) == k
    ensures ClosesAt(text, BlockComment(text, 1)) || (BlockComment(text, 1) == |text| && forall k: nat :: !ClosesAt(text, k))
  {
    hide BlockComment, Closed, ClosesAt;
    forall k: nat | ClosesAt(text, k) ensures BlockComment(text, 1) == k && Closed(text, 1) {
      ClosingEnds(text, k);
    }
    if Closed(text, 1) {
      ClosedCloses(text);
    } else {
      UnclosedTakesAll(text, 1);
    }
  }

  lemma ClosingEnds(text: string, k: nat)
    requires ClosesAt(text, k)
    ensures BlockComment(text, 1) == k && Closed(text, 1)
  {
    hide BlockComment, Closed, Proper, Render;
    var n: Note :| text[..k] == Render(n) + "*/" && Proper(n, "*/" + text[k..]);
    assert text == text[..k] + text[k..];
    assert text == Render(n) + ("*/" + text[k..]);
    EndsBehind(n, text[k..]);
  }

  lemma ClosedCloses(text: string)
    requires Closed(text, 1)
    ensures ClosesAt(text, BlockComment(text, 1))
  {
    hide BlockComment, Closed, Proper, Render;
    var n, rest := NoteAhead(text, 1);
    EndsBehind(n, rest);
    var k := |Render(n)| + 2;
    assert text[..k] == Render(n) + "*/" && text[k..] == rest;
  }

  lemma EndsBehind(n: Note, rest: string)
    requires Proper(n, "*/" + rest)
    ensures BlockComment(Render(n) + ("*/" + rest), 1) == |Render(n)| + 2 && Closed(Render(n) + ("*/" + rest), 1)
  {
    hide BlockComment, Closed;
    NotesAreSkipped(n, 1, "*/" + rest);
    BlockCloses(rest, 1);
    NothingOpen(rest);
    NotesAreClosed(n, 1, "*/" + rest);
    MarkCloses(rest);
  }

  lemma MarkCloses(rest: string)
    ensures Closed("*/" + rest, 1)
  {
    var all := "*/" + rest;
    assert all[2..] == rest && all[..2] == "*/" && all[0] == '*';
  }

  lemma {:induction false} NotesAreClosed(n: Note, depth: nat, text: string)
    requires Proper(n, text) && depth > 0
    ensures Closed(Render(n) + text, depth) == Closed(text, depth)
    decreases n
  {
    match n
    case Finished =>
      assert Render(n) + text == text;
    case Plain(c, rest) =>
      var all := Render(n) + text;
      assert all == [c] + (Render(rest) + text) && all[1..] == Render(rest) + text;
      NotesAreClosed(rest, depth, text);
    case Nested(inner, rest) =>
      var after := "*/" + (Render(rest) + text);
      var all := Render(n) + text;
      assert all == "/*" + (Render(inner) + after) && all[2..] == Render(inner) + after;
      NotesAreClosed(inner, depth + 1, after);
      assert after[2..] == Render(rest) + text && after[..2] == "*/" && after[0] == '*';
      NotesAreClosed(rest, depth, text);
  }

  // ----- gaps

  /** One white-space character other than a new line. */
  predicate Blank(t: string) {
    |t| == 1 && Whitespace.Test(t[0]) && t[0] != '\n'
  }

  predicate SlashesAt(t: string, k: nat) {
    k + 2 <= |t| && t[k] == '/' && t[k + 1] == '/'
  }

  /** Two slashes and one line of text, up to the next two slashes, the new line or the end of the source. */
  ghost predicate LineComment(t: string, after: string) {
    && SlashesAt(t, 0) && '\n' !in t
    && (forall k: nat :: 2 <= k && SlashesAt(t, k) ==> k + 2 == |t|)
    && ((|t| >= 4 && SlashesAt(t, |t| - 2)) || after == [] || after[0] == '\n')
  }

  /** From its opening mark to the mark that closes it, or all the rest if none does. */
  ghost predicate NestedComment(t: string, after: string) {
    && SeesText(t, "/*")
    && (ClosesAt(t[2..] + after, |t| - 2) || (after == [] && forall k: nat :: !ClosesAt(t[2..], k)))
  }

  ghost predicate GapText(t: string, after: string) {
    Blank(t) || LineComment(t, after) || NestedComment(t, after)
  }

  lemma SlashesAhead(text: string)
    ensures SlashesAt(text, 0) ==> SeesText(text, "//")
  {}

  lemma {:induction false} InlineIsLine(text: string)
    ensures var n := InlineComment(text);
            && '\n' !in text[..n]
            && (forall k: nat :: SlashesAt(text[..n], k) ==> k + 2 == n)
            && ((n >= 2 && SlashesAt(text[..n], n - 2)) || n == |text| || text[n] == '\n')
    decreases |text|
  {
    var n := InlineComment(text);
    if text == [] || text[0] == '\n' {
    } else if SeesText(text, "//") {
      assert text[..2] == "//";
    } else {
      var rest := text[1..];
      InlineIsLine(rest);
      var m := InlineComment(rest);
      assert text[..n] == [text[0]] + rest[..m];
      SlashesAhead(text);
      forall k: nat | SlashesAt(text[..n], k) ensures k + 2 == n {
        assert SlashesAt(rest[..m], k - 1);
      }
      if m >= 2 && SlashesAt(rest[..m], m - 2) {
        assert SlashesAt(text[..n], n - 2);
      }
    }
  }

  lemma LineGap(text: string)
    requires SeesText(text, "//")
    ensures var n := 2 + InlineComment(text[2..]); LineComment(text[..n], text[n..])
  {
    hide InlineComment;
    var rest := text[2..];
    InlineIsLine(rest);
    var n := InlineComment(rest);
    var t := text[..2 + n];
    assert text[..2] == "//" && t == "//" + rest[..n] && text[2 + n..] == rest[n..];
    forall k: nat | 2 <= k && SlashesAt(t, k) ensures k + 2 == |t| {
      assert SlashesAt(rest[..n], k - 2);
    }
    if n >= 2 && SlashesAt(rest[..n], n - 2) {
      assert SlashesAt(t, |t| - 2);
    }
  }

  lemma CommentGap(text: string)
    requires SeesText(text, "/*")
    ensures var n := 2 + BlockComment(text[2..], 1); NestedComment(text[..n], text[n..])
  {
    hide BlockComment, ClosesAt;
    var rest := text[2..];
    var k := BlockComment(rest, 1);
    CommentEndsExactly(rest);
    var t, after := text[..2 + k], text[2 + k..];
    assert text[..2] == "/*" && t[..2] == "/*";
    assert t[2..] + after == rest;
    if k == |rest| {
      assert after == [] && t[2..] == rest;
    }
  }

  /** The first piece of a round is a token or a gap as GapText describes it. */
  lemma RoundIsProper(text: string)
    requires text != [] && Round(text).Some?
    ensures var r := Round(text).value;
            && r != [] && |r| <= 2 && (|r| == 2 ==> r[1].Tok?)
            && (r[0].Gap? ==> r[0].len <= |text| && GapText(text[..r[0].len], text[r[0].len..]))
  {
    hide Greedy, Number, SetDigits, StringRest, Word, InlineComment, BlockComment, EndsInline, BreaksLine, LineComment, NestedComment;
    if SeesText(text, "//") {
      LineGap(text);
    } else if SeesText(text, "/*") {
      CommentGap(text);
    }
  }

  // ----- coverage

  lemma PlaceBehind(r: seq<Piece>, rest: seq<Piece>, k: nat)
    requires |r| <= k <= |r| + |rest|
    ensures PlaceOf(r + rest, k) == Extent(r) + PlaceOf(rest, k - |r|)
  {
    assert (r + rest)[..k] == r + rest[..k - |r|];
    ExtentAppends(r, rest[..k - |r|]);
  }

  /** Every gap that the tokenizer takes is white space or one whole comment. */
  lemma {:induction false} GapsAreGaps(text: string, k: nat)
    requires Pieces(text).Some? && k < |Pieces(text).value| && Pieces(text).value[k].Gap?
    ensures var p := PlaceOf(Pieces(text).value, k);
            var e := p + Pieces(text).value[k].len;
            e <= |text| && GapText(text[p..e], text[e..])
    decreases |text|
  {
    hide Round, GapText, Extent;
    RoundTakesSome(text);
    RoundIsProper(text);
    var r := Round(text).value;
    var n := Extent(r);
    var rest := Pieces(text[n..]).value;
    if k < |r| {
      assert k == 0;
      StartsAtZero(r + rest);
      assert text[0..r[0].len] == text[..r[0].len];
    } else {
      GapsAreGaps(text[n..], k - |r|);
      PlaceBehind(r, rest, k);
      var p := PlaceOf(rest, k - |r|);
      var e := p + rest[k - |r|].len;
      assert text[n..][p..e] == text[n + p..n + e] && text[n..][e..] == text[n + e..];
    }
  }

  lemma StartsAtZero(pieces: seq<Piece>)
    ensures PlaceOf(pieces, 0) == 0
  {}

  lemma {:induction false} InSomePiece(pieces: seq<Piece>, q: nat) returns (k: nat)
    requires q < Extent(pieces)
    ensures k < |pieces| && PlaceOf(pieces, k) <= q < PlaceOf(pieces, k) + pieces[k].len
    decreases |pieces|
  {
    var before := pieces[..|pieces| - 1];
    if q < Extent(before) {
      k := InSomePiece(before, q);
      assert before[..k] == pieces[..k];
    } else {
      k := |before|;
    }
  }

  lemma {:induction false} TokenIsSpan(pieces: seq<Piece>, at: nat, k: nat)
    requires k < |pieces| && pieces[k].Tok?
    ensures var p := at + PlaceOf(pieces, k); Span(pieces[k].kind, p, p + pieces[k].len) in Spans(pieces, at)
    decreases |pieces|
  {
    if k == 0 {
      StartsAtZero(pieces);
    } else {
      TokenIsSpan(pieces[1..], at + pieces[0].len, k - 1);
      assert [pieces[0]] + pieces[1..] == pieces;
      PlaceBehind([pieces[0]], pieces[1..], k);
      assert [pieces[0]][..0] == [];
    }
  }

  /** Position q lies in one of the pieces: one of the tokens, or white space or a comment that the tokenizer
      took as such. */
  ghost predicate Covered(source: string, pieces: seq<Piece>, q: nat) {
    exists k: nat :: k < |pieces| && CoveredBy(source, pieces, q, k)
  }

  ghost predicate CoveredBy(source: string, pieces: seq<Piece>, q: nat, k: nat)
    requires k < |pieces|
  {
    var p := PlaceOf(pieces, k);
    var e := p + pieces[k].len;
    && p <= q < e <= |source|
    && (pieces[k].Tok? ==> Span(pieces[k].kind, p, e) in Spans(pieces, 0))
    && (pieces[k].Gap? ==> GapText(source[p..e], source[e..]))
  }

  /** Coverage. In an accepted source every character is in a token, or it is white space or in a comment. */
  lemma EveryCharacterIsCovered(source: string, q: nat)
    requires Pieces(source).Some? && q < |source|
    ensures Covered(source, Pieces(source).value, q)
  {
    hide Round, GapText, Spans, Extent, Pieces;
    var pieces := Pieces(source).value;
    PiecesTile(source);
    var k := InSomePiece(pieces, q);
    PieceInside(pieces, k);
    if pieces[k].Tok? {
      TokenIsSpan(pieces, 0, k);
    } else {
      GapsAreGaps(source, k);
    }
    assert CoveredBy(source, pieces, q, k);
  }

  lemma PieceInside(pieces: seq<Piece>, k: nat)
    requires k < |pieces|
    ensures PlaceOf(pieces, k) + pieces[k].len <= Extent(pieces)
  {
    assert pieces[..k + 1][..k] == pieces[..k];
    assert pieces == pieces[..k + 1] + pieces[k + 1..];
    ExtentAppends(pieces[..k + 1], pieces[k + 1..]);
  }
}
