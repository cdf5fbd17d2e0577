/** Which texts are words, labels, numbers and register sets, and where each of them ends. */
module Lexemes {
  import opened Options
  import opened Parsing
  import opened Scanning

  // ----- characters

  const SMALL_LETTERS := "abcdefghijklmnopqrstuvwxyz"
  const CAPITALS := "ABCDEFGHIJKLMNOPQRSTUVWXYZ"
  const DIGITS := "0123456789"
  const HEX_DIGITS := "0123456789abcdefABCDEF"

  lemma LettersAre(k: nat)
    requires k < 26
    ensures SMALL_LETTERS[k] as int == 'a' as int + k && CAPITALS[k] as int == 'A' as int + k
  {}

  lemma DigitsAre(k: nat)
    requires k < 10
    ensures DIGITS[k] as int == '0' as int + k
  {}

  lemma HexDigitsAre(k: nat)
    requires k < 22
    ensures HEX_DIGITS[k] as int == if k < 10 then '0' as int + k else if k < 16 then 'a' as int + k - 10 else 'A' as int + k - 16
  {}

  /** The letters are those of both cases and the underscore. */
  predicate IsLetter(c: char) {
    c in SMALL_LETTERS || c in CAPITALS || c == '_'
  }

  lemma AlphabeticMeans(c: char)
    ensures Alphabetic.Test(c) <==> IsLetter(c)
  {
    if 'a' <= c <= 'z' {
      LettersAre(c as int - 'a' as int);
    } else if 'A' <= c <= 'Z' {
      LettersAre(c as int - 'A' as int);
    }
    if k: nat :| k < 26 && (SMALL_LETTERS[k] == c || CAPITALS[k] == c) {
      LettersAre(k);
    }
  }

  lemma DecimalMeans(c: char)
    ensures Decimal.Test(c) <==> c in DIGITS
  {
    if '0' <= c <= '9' {
      DigitsAre(c as int - '0' as int);
    }
    if k: nat :| k < 10 && DIGITS[k] == c {
      DigitsAre(k);
    }
  }

  lemma AlphanumericMeans(c: char)
    ensures Alphanumeric.Test(c) <==> IsLetter(c) || c in DIGITS
  {
    AlphabeticMeans(c);
    DecimalMeans(c);
  }

  lemma HexadecimalMeans(c: char)
    ensures Hexadecimal.Test(c) <==> c in HEX_DIGITS
  {
    if '0' <= c <= '9' {
      HexDigitsAre(c as int - '0' as int);
    } else if 'a' <= c <= 'f' {
      HexDigitsAre(c as int - 'a' as int + 10);
    } else if 'A' <= c <= 'F' {
      HexDigitsAre(c as int - 'A' as int + 16);
    }
    if k: nat :| k < 22 && HEX_DIGITS[k] == c {
      HexDigitsAre(k);
    }
  }

  lemma SmallClassesMean(c: char)
    ensures Octal.Test(c) <==> c in "01234567"
    ensures Binary.Test(c) <==> c in "01"
    ensures Whitespace.Test(c) <==> c in " \t\r\n\U{000B}\U{000C}"
    ensures Escape.Test(c) <==> c in "abefnrtv\\\'\""
  {
    assert "01234567"[0] == '0' && "01234567"[1] == '1' && "01234567"[2] == '2' && "01234567"[3] == '3';
    assert "01234567"[4] == '4' && "01234567"[5] == '5' && "01234567"[6] == '6' && "01234567"[7] == '7';
    assert "01"[0] == '0' && "01"[1] == '1';
    assert " \t\r\n\U{000B}\U{000C}"[0] == ' ' && " \t\r\n\U{000B}\U{000C}"[1] == '\t' && " \t\r\n\U{000B}\U{000C}"[2] == '\r';
    assert " \t\r\n\U{000B}\U{000C}"[3] == '\n' && " \t\r\n\U{000B}\U{000C}"[4] == '\U{000B}' && " \t\r\n\U{000B}\U{000C}"[5] == '\U{000C}';
  }

  // ----- words and labels

  predicate All(t: string, p: CharClass) {
    forall k :: 0 <= k < |t| ==> p.Test(t[k])
  }

  /** Nothing more of the class at n. */
  predicate Stops(text: string, n: nat, p: CharClass) {
    n >= |text| || !p.Test(text[n])
  }

  lemma {:induction false} GreedyIs(text: string, p: CharClass)
    ensures var n := Greedy(text, p); All(text[..n], p) && Stops(text, n, p)
    decreases |text|
  {
    if Sees(text, p) {
      GreedyIs(text[1..], p);
      var n := Greedy(text[1..], p);
      assert text[..1 + n] == [text[0]] + text[1..][..n];
    }
  }

  lemma {:induction false} OneStretch(text: string, n: nat, m: nat, p: CharClass)
    requires n <= |text| && m <= |text| && All(text[..n], p) && All(text[..m], p) && Stops(text, n, p) && Stops(text, m, p)
    ensures n == m
  {
    if n < m {
      InStretch(text, n, m, p);
    } else if m < n {
      InStretch(text, m, n, p);
    }
  }

  lemma InStretch(text: string, n: nat, m: nat, p: CharClass)
    requires n < m <= |text| && All(text[..m], p)
    ensures p.Test(text[n])
  {
    assert text[..m][n] == text[n];
  }

  predicate WordText(t: string) {
    t != [] && Alphabetic.Test(t[0]) && All(t[1..], Alphanumeric)
  }

  /** A label is a word and a colon; an identifier is a word, or a word, a dot and letters and digits. */
  ghost predicate WordAt(text: string, kind: Kind, n: nat) {
    && n <= |text|
    && match kind
       case Label => n > 0 && WordText(text[..n - 1]) && text[n - 1] == ':'
       case Identifier => PlainWordAt(text, n) || exists d: nat :: d < n && DottedWordAt(text, d, n)
       case _ => false
  }

  predicate PlainWordAt(text: string, n: nat)
    requires n <= |text|
  {
    WordText(text[..n]) && Stops(text, n, Alphanumeric) && Stops(text, n, Exactly(':')) && Stops(text, n, Exactly('.'))
  }

  predicate DottedWordAt(text: string, d: nat, n: nat)
    requires d < n <= |text|
  {
    WordText(text[..d]) && text[d] == '.' && All(text[d + 1..n], Alphanumeric) && Stops(text, n, Alphanumeric)
  }

  /** The length of the word in front. */
  function WordLength(text: string): (n: nat)
    requires text != []
    ensures n <= |text|
  {
    1 + Greedy(text[1..], Alphanumeric)
  }

  lemma WordLengthIs(text: string, n: nat)
    requires Sees(text, Alphabetic) && n <= |text|
    ensures WordText(text[..n]) && Stops(text, n, Alphanumeric) <==> n == WordLength(text)
  {
    var rest := text[1..];
    GreedyIs(rest, Alphanumeric);
    var w := WordLength(text);
    assert text[..w][1..] == rest[..w - 1];
    if n > 0 {
      assert text[..n][1..] == rest[..n - 1];
      if WordText(text[..n]) && Stops(text, n, Alphanumeric) {
        OneStretch(rest, n - 1, w - 1, Alphanumeric);
      }
    }
  }

  lemma WordShape(text: string)
    requires Sees(text, Alphabetic)
    ensures var w := WordLength(text);
            var r := Word(text[1..]);
            r == if Sees(text[w..], Exactly(':')) then (Label, w)
                 else if Sees(text[w..], Exactly('.')) then (Identifier, w + Greedy(text[w + 1..], Alphanumeric))
                 else (Identifier, w - 1)
  {
    var w := WordLength(text);
    assert text[1..][w - 1..] == text[w..];
    if Sees(text[w..], Exactly('.')) {
      assert text[1..][w..] == text[w + 1..];
    }
  }

  lemma LabelsExactly(text: string, n: nat)
    requires Sees(text, Alphabetic) && 0 < n <= |text|
    ensures WordText(text[..n - 1]) && text[n - 1] == ':' <==> n - 1 == WordLength(text) && text[n - 1] == ':'
  {
    hide WordText;
    WordLengthIs(text, n - 1);
    ColonAndDot();
  }

  lemma PlainExactly(text: string, n: nat)
    requires Sees(text, Alphabetic) && n <= |text|
    ensures PlainWordAt(text, n) <==>
            n == WordLength(text) && !Sees(text[n..], Exactly(':')) && !Sees(text[n..], Exactly('.'))
  {
    hide WordText;
    WordLengthIs(text, n);
  }

  lemma DotsExactly(text: string, n: nat)
    requires Sees(text, Alphabetic) && n <= |text|
    ensures (exists d: nat :: d < n && DottedWordAt(text, d, n)) <==>
            var w := WordLength(text);
            Sees(text[w..], Exactly('.')) && n == w + 1 + Greedy(text[w + 1..], Alphanumeric)
  {
    hide WordText, All, Greedy, WordLength;
    var w := WordLength(text);
    ColonAndDot();
    WordLengthIs(text, w);
    forall d: nat | d < n && DottedWordAt(text, d, n) ensures d == w {
      WordLengthIs(text, d);
    }
    if Sees(text[w..], Exactly('.')) {
      DottedExactly(text, w, n);
      if n == w + 1 + Greedy(text[w + 1..], Alphanumeric) {
        assert DottedWordAt(text, w, n);
      }
    }
  }

  /** A word, a dotted word or a label ends exactly where the tokenizer ends it. */
  lemma WordsExactly(text: string, kind: Kind, n: nat)
    requires Sees(text, Alphabetic)
    ensures Round(text) == Some([Tok(kind, n)]) <==> WordAt(text, kind, n)
  {
    hide Word, Greedy, WordText, All, WordLength, PlainWordAt, DottedWordAt, Round;
    WordShape(text);
    WordRound(text);
    if n <= |text| {
      PlainExactly(text, n);
      DotsExactly(text, n);
      if n > 0 {
        LabelsExactly(text, n);
      }
    }
  }

  lemma ColonAndDot()
    ensures !Alphanumeric.Test(':') && !Alphanumeric.Test('.')
  {}

  lemma WordRound(text: string)
    requires Sees(text, Alphabetic)
    ensures var r := Word(text[1..]); Round(text) == Some([Tok(r.0, 1 + r.1)])
  {
    hide Word;
  }

  lemma DottedExactly(text: string, d: nat, n: nat)
    requires d < |text| && n <= |text|
    ensures d < n && All(text[d + 1..n], Alphanumeric) && Stops(text, n, Alphanumeric) <==> n == d + 1 + Greedy(text[d + 1..], Alphanumeric)
  {
    var rest := text[d + 1..];
    GreedyIs(rest, Alphanumeric);
    var g := Greedy(rest, Alphanumeric);
    assert text[d + 1..d + 1 + g] == rest[..g];
    if d < n {
      assert text[d + 1..n] == rest[..n - d - 1];
      if All(text[d + 1..n], Alphanumeric) && Stops(text, n, Alphanumeric) {
        OneStretch(rest, n - d - 1, g, Alphanumeric);
      }
    }
  }

  // ----- numbers

  const QUOTE := '\''

  /** Digits and single separators, the first of them a digit. */
  predicate Separated(t: string, p: CharClass) {
    && (forall k :: 0 <= k < |t| ==> p.Test(t[k]) || t[k] == QUOTE)
    && (t != [] ==> t[0] != QUOTE)
    && (forall k :: 0 < k < |t| ==> !(t[k] == QUOTE && t[k - 1] == QUOTE))
  }

  /** No digit at n, and a separator only at the start or behind a separator. */
  predicate DigitsStop(text: string, n: nat, p: CharClass) {
    n >= |text| || (!p.Test(text[n]) && (text[n] == QUOTE ==> n == 0 || text[n - 1] == QUOTE))
  }

  predicate DigitsAt(text: string, n: nat, p: CharClass) {
    n <= |text| && Separated(text[..n], p) && DigitsStop(text, n, p)
  }

  lemma SeparatedJoins(run: string, rest: string, p: CharClass)
    requires run != [] && All(run, p) && !p.Test(QUOTE) && Separated(rest, p)
    ensures Separated(run + [QUOTE] + rest, p)
  {
    var t := run + [QUOTE] + rest;
    assert p.Test(run[0]) && p.Test(run[|run| - 1]);
    forall k | 0 < k < |t| ensures !(t[k] == QUOTE && t[k - 1] == QUOTE) {
      if k < |run| {
        assert p.Test(run[k]);
      } else if k > |run| + 1 {
        assert t[k] == rest[k - |run| - 1] && t[k - 1] == rest[k - |run| - 2];
      }
    }
  }

  lemma {:induction false} SeparatedDigits(text: string, p: CharClass)
    requires !p.Test(QUOTE)
    ensures DigitsAt(text, Digits(text, p), p)
    decreases |text|
  {
    hide DigitsAt, All, Stops;
    GreedyIs(text, p);
    var n := Greedy(text, p);
    if n > 0 && Sees(text[n..], Exactly(QUOTE)) {
      var rest := text[n + 1..];
      SeparatedDigits(rest, p);
      DigitsGoOn(text, n, Digits(rest, p), p);
    } else {
      DigitsEndHere(text, n, p);
    }
  }

  lemma DigitsGoOn(text: string, n: nat, m: nat, p: CharClass)
    requires 0 < n < |text| && All(text[..n], p) && text[n] == QUOTE && DigitsAt(text[n + 1..], m, p) && !p.Test(QUOTE)
    ensures DigitsAt(text, n + 1 + m, p)
  {
    hide Separated, DigitsStop, All;
    var rest := text[n + 1..];
    assert text[..n + 1 + m] == text[..n] + [QUOTE] + rest[..m];
    SeparatedJoins(text[..n], rest[..m], p);
    DigitsStopLater(text, n, m, p);
  }

  lemma DigitsEndHere(text: string, n: nat, p: CharClass)
    requires n <= |text| && All(text[..n], p) && Stops(text, n, p) && !(n > 0 && Sees(text[n..], Exactly(QUOTE))) && !p.Test(QUOTE)
    ensures DigitsAt(text, n, p)
  {
    hide Separated, DigitsStop, All, Stops;
    AllIsSeparated(text[..n], p);
    RunStops(text, n, p);
  }

  lemma DigitsStopLater(text: string, n: nat, m: nat, p: CharClass)
    requires n < |text| && text[n] == QUOTE && DigitsStop(text[n + 1..], m, p)
    ensures DigitsStop(text, n + 1 + m, p)
  {
    var rest := text[n + 1..];
    if m < |rest| {
      assert text[n + 1 + m] == rest[m];
    }
    if 0 < m <= |rest| {
      assert text[n + m] == rest[m - 1];
    }
  }

  lemma RunStops(text: string, n: nat, p: CharClass)
    requires n <= |text| && Stops(text, n, p) && !(n > 0 && Sees(text[n..], Exactly(QUOTE)))
    ensures DigitsStop(text, n, p)
  {}

  lemma AllIsSeparated(t: string, p: CharClass)
    requires All(t, p) && !p.Test(QUOTE)
    ensures Separated(t, p)
  {}

  lemma DigitsEndOnce(text: string, n: nat, m: nat, p: CharClass)
    requires DigitsAt(text, n, p) && m <= |text| && Separated(text[..m], p)
    ensures m <= n
  {
    if n < m {
      CharOf(text, n, m, p);
    }
  }

  lemma CharOf(text: string, n: nat, m: nat, p: CharClass)
    requires n < m <= |text| && Separated(text[..m], p)
    ensures p.Test(text[n]) || (text[n] == QUOTE && n > 0 && text[n - 1] != QUOTE)
  {
    assert text[..m][n] == text[n] && text[..m][0] == text[0];
    if n > 0 {
      assert text[..m][n - 1] == text[n - 1];
    }
  }

  /** Digits with separators end at n exactly if they are that and cannot go on. */
  lemma DigitsExactly(text: string, p: CharClass, n: nat)
    requires !p.Test(QUOTE)
    ensures Digits(text, p) == n <==> DigitsAt(text, n, p)
  {
    hide Separated, DigitsStop, Digits;
    SeparatedDigits(text, p);
    var m := Digits(text, p);
    if DigitsAt(text, n, p) {
      DigitsEndOnce(text, n, m, p);
      DigitsEndOnce(text, m, n, p);
    }
  }

  /** In decimal a separator has a digit behind it, and a group behind a separator has to be longer than one digit
      for another separator to follow. */
  predicate Grouped(t: string) {
    && Separated(t, Decimal)
    && (t != [] ==> t[|t| - 1] != QUOTE)
    && (forall k :: 2 <= k < |t| ==> !(t[k] == QUOTE && t[k - 2] == QUOTE))
  }

  /** No digit at n, and a separator only at the start or behind a single digit that has a separator before it. */
  predicate GroupsStop(text: string, n: nat) {
    n >= |text| || (!Decimal.Test(text[n]) && (text[n] == QUOTE ==> n == 0 || (n >= 2 && text[n - 2] == QUOTE)))
  }

  predicate GroupsAt(text: string, n: nat) {
    n <= |text| && Grouped(text[..n]) && GroupsStop(text, n)
  }

  lemma GroupedJoins(run: string, d: char, rest: string)
    requires run != [] && All(run, Decimal) && Decimal.Test(d) && Grouped(rest)
    ensures Grouped(run + [QUOTE, d] + rest)
  {
    hide Grouped, Separated;
    var t := run + [QUOTE, d] + rest;
    DigitInFront(d, rest);
    assert [d] + rest != [] && t == run + [QUOTE] + ([d] + rest);
    SeparatedJoins(run, [d] + rest, Decimal);
    GroupsJoin(run, d, rest);
  }

  lemma DigitInFront(d: char, rest: string)
    requires Decimal.Test(d) && Grouped(rest)
    ensures Separated([d] + rest, Decimal)
  {}

  lemma GroupsJoin(run: string, d: char, rest: string)
    requires run != [] && All(run, Decimal) && Decimal.Test(d) && Grouped(rest) && Separated(run + [QUOTE, d] + rest, Decimal)
    ensures Grouped(run + [QUOTE, d] + rest)
  {
    hide Separated;
    var t := run + [QUOTE, d] + rest;
    NoQuoteAhead(rest);
    forall k | 2 <= k < |t| ensures !(t[k] == QUOTE && t[k - 2] == QUOTE) {
      if k < |run| {
        assert Decimal.Test(run[k]);
      } else if k == |run| {
        assert Decimal.Test(run[k - 2]);
      } else if k == |run| + 2 {
        assert t[k] == rest[0];
      } else if k == |run| + 3 {
        assert t[k - 2] == d;
      } else if k > |run| + 3 {
        assert t[k] == rest[k - |run| - 2] && t[k - 2] == rest[k - |run| - 4];
      }
    }
    if rest != [] {
      assert t[|t| - 1] == rest[|rest| - 1];
    }
  }

  lemma NoQuoteAhead(rest: string)
    requires Grouped(rest)
    ensures rest != [] ==> rest[0] != QUOTE
  {}

  lemma {:induction false} GroupsAre(text: string)
    requires DecimalDigits(text).Some?
    ensures GroupsAt(text, DecimalDigits(text).value)
    decreases |text|
  {
    hide GroupsAt, All, Stops;
    GreedyIs(text, Decimal);
    var n := Greedy(text, Decimal);
    if n > 0 && Sees(text[n..], Exactly(QUOTE)) {
      var rest := text[n + 2..];
      GroupsAre(rest);
      assert text[n + 1..][0] == text[n + 1];
      GroupsGoOn(text, n, DecimalDigits(rest).value);
    } else {
      GroupsEndHere(text, n);
    }
  }

  lemma GroupsGoOn(text: string, n: nat, m: nat)
    requires 0 < n && n + 1 < |text| && All(text[..n], Decimal) && text[n] == QUOTE && Decimal.Test(text[n + 1])
    requires GroupsAt(text[n + 2..], m)
    ensures GroupsAt(text, n + 2 + m)
  {
    hide Grouped, All;
    var rest := text[n + 2..];
    assert text[..n + 2 + m] == text[..n] + [QUOTE, text[n + 1]] + rest[..m];
    GroupedJoins(text[..n], text[n + 1], rest[..m]);
    if m < |rest| {
      assert text[n + 2 + m] == rest[m];
    }
    if m >= 2 {
      assert text[n + m] == rest[m - 2];
    }
  }

  lemma GroupsEndHere(text: string, n: nat)
    requires n <= |text| && All(text[..n], Decimal) && Stops(text, n, Decimal) && !(n > 0 && Sees(text[n..], Exactly(QUOTE)))
    ensures GroupsAt(text, n)
  {
    hide Grouped, All;
    AllIsGrouped(text[..n]);
  }

  lemma AllIsGrouped(t: string)
    requires All(t, Decimal)
    ensures Grouped(t)
  {}

  lemma GroupCharOf(text: string, n: nat, m: nat)
    requires n < m <= |text| && Grouped(text[..m])
    ensures Decimal.Test(text[n]) || (text[n] == QUOTE && n > 0 && (n >= 2 ==> text[n - 2] != QUOTE))
  {
    assert text[..m][n] == text[n] && text[..m][0] == text[0];
    if n >= 2 {
      assert text[..m][n - 2] == text[n - 2];
    }
  }

  lemma GroupsEndOnce(text: string, n: nat, m: nat)
    requires GroupsAt(text, n) && m <= |text| && Grouped(text[..m])
    ensures m <= n
  {
    if n < m {
      GroupCharOf(text, n, m);
    }
  }

  /** A separator at k, where one may stand, with no digit behind it. */
  predicate RefusedAt(text: string, k: nat) {
    && 0 < k < |text| && Grouped(text[..k]) && text[k] == QUOTE && (k >= 2 ==> text[k - 2] != QUOTE)
    && Stops(text, k + 1, Decimal)
  }

  lemma RefusedLater(text: string, n: nat, m: nat)
    requires 0 < n && n + 1 < |text| && All(text[..n], Decimal) && text[n] == QUOTE && Decimal.Test(text[n + 1])
    requires RefusedAt(text[n + 2..], m)
    ensures RefusedAt(text, n + 2 + m)
  {
    hide Grouped, All;
    var rest, k := text[n + 2..], n + 2 + m;
    assert text[..k] == text[..n] + [QUOTE, text[n + 1]] + rest[..m];
    GroupedJoins(text[..n], text[n + 1], rest[..m]);
    assert text[k] == rest[m];
    if m == 1 {
      assert text[k - 2] == text[n + 1];
    } else {
      assert text[k - 2] == rest[m - 2];
    }
    if k + 1 < |text| {
      assert text[k + 1] == rest[m + 1];
    }
  }

  lemma RefusedHere(text: string, n: nat)
    requires 0 < n < |text| && All(text[..n], Decimal) && text[n] == QUOTE && Stops(text, n + 1, Decimal)
    ensures RefusedAt(text, n)
  {
    AllIsGrouped(text[..n]);
    if n >= 2 {
      assert Decimal.Test(text[..n][n - 2]);
    }
  }

  /** A decimal number that is refused has a separator with no digit behind it. */
  lemma {:induction false} RefusedDecimal(text: string) returns (k: nat)
    requires DecimalDigits(text).None?
    ensures RefusedAt(text, k)
    decreases |text|
  {
    hide Grouped, RefusedAt, All;
    GreedyIs(text, Decimal);
    var n := Greedy(text, Decimal);
    if n + 1 < |text| {
      assert text[n + 1..][0] == text[n + 1];
    }
    if Sees(text[n + 1..], Decimal) {
      var m := RefusedDecimal(text[n + 2..]);
      RefusedLater(text, n, m);
      k := n + 2 + m;
    } else {
      RefusedHere(text, n);
      k := n;
    }
  }

  /** Decimal digits end at n exactly if they are grouped digits that cannot go on. */
  lemma DecimalExactly(text: string, n: nat)
    ensures DecimalDigits(text) == Some(n) ==> GroupsAt(text, n)
    ensures DecimalDigits(text).Some? && GroupsAt(text, n) ==> DecimalDigits(text) == Some(n)
    ensures DecimalDigits(text).None? ==> !GroupsAt(text, n)
  {
    hide Grouped, GroupsStop, DecimalDigits;
    if DecimalDigits(text).Some? {
      GroupsAre(text);
      var m := DecimalDigits(text).value;
      if GroupsAt(text, n) {
        GroupsEndOnce(text, n, m);
        GroupsEndOnce(text, m, n);
      }
    } else {
      var m := RefusedDecimal(text);
      NoGroupsThere(text, n, m);
    }
  }

  lemma NoGroupsThere(text: string, n: nat, m: nat)
    requires RefusedAt(text, m)
    ensures !GroupsAt(text, n)
  {
    if GroupsAt(text, n) {
      GroupsEndOnce(text, n, m);
      if n > m {
        DigitBehindQuote(text, n, m);
      }
    }
  }

  lemma DigitBehindQuote(text: string, n: nat, m: nat)
    requires m < n <= |text| && Grouped(text[..n]) && text[m] == QUOTE
    ensures m + 1 < n && Decimal.Test(text[m + 1])
  {
    var t := text[..n];
    assert t[m] == QUOTE && t[|t| - 1] != QUOTE;
    assert t[m + 1] == text[m + 1];
  }

  /** A number in front of the text: a mark and digits of its base with separators, or decimal digits; and no
      letter or digit behind it. */
  predicate NumberAt(text: string, n: nat) {
    && n <= |text| && Stops(text, n, Alphanumeric)
    && if SeesText(text, "0x") then n >= 2 && DigitsAt(text[2..], n - 2, Hexadecimal)
       else if SeesText(text, "0o") then n >= 2 && DigitsAt(text[2..], n - 2, Octal)
       else if SeesText(text, "0b") then n >= 2 && DigitsAt(text[2..], n - 2, Binary)
       else GroupsAt(text, n)
  }

  lemma TailIs(text: string, n: nat)
    requires n <= |text|
    ensures Tail(text, n) == if Stops(text, n, Alphanumeric) then Some(n) else None
  {
    if n < |text| {
      assert text[n..][0] == text[n];
    }
  }

  /** The tokenizer reads a number of n characters exactly if the text starts with one. */
  lemma NumbersExactly(text: string, n: nat)
    ensures Number(text) == Some(n) <==> NumberAt(text, n)
  {
    hide DigitsAt, GroupsAt, Digits, DecimalDigits, Stops, Tail;
    if SeesText(text, "0x") {
      MarkedExactly(text, Hexadecimal, n);
    } else if SeesText(text, "0o") {
      MarkedExactly(text, Octal, n);
    } else if SeesText(text, "0b") {
      MarkedExactly(text, Binary, n);
    } else {
      DecimalExactly(text, n);
      if DecimalDigits(text).Some? {
        TailIs(text, DecimalDigits(text).value);
      }
    }
  }

  lemma MarkedExactly(text: string, p: CharClass, n: nat)
    requires |text| >= 2 && !p.Test(QUOTE)
    ensures Tail(text, 2 + Digits(text[2..], p)) == Some(n) <==>
            n <= |text| && Stops(text, n, Alphanumeric) && n >= 2 && DigitsAt(text[2..], n - 2, p)
  {
    hide DigitsAt, Digits, Stops, Tail;
    TailIs(text, 2 + Digits(text[2..], p));
    if n >= 2 {
      DigitsExactly(text[2..], p, n - 2);
    }
  }

  // ----- register sets

  function CharBefore(text: string, previous: char, k: nat): char
    requires k <= |text|
  {
    if k == 0 then previous else text[k - 1]
  }

  /** Behind the dollar: register digits in ascending order, and something behind them that is no letter or digit. */
  predicate SetAt(text: string, previous: char, n: nat) {
    && n < |text| && !Alphanumeric.Test(text[n])
    && forall k: nat :: k < n ==> '0' <= text[k] <= '7' && CharBefore(text, previous, k) < text[k]
  }

  lemma SetFront(text: string, previous: char, n: nat)
    requires text != [] && n > 0
    ensures SetAt(text, previous, n) <==> '0' <= text[0] <= '7' && previous < text[0] && SetAt(text[1..], text[0], n - 1)
  {
    var rest := text[1..];
    if SetAt(text, previous, n) {
      assert rest[n - 1] == text[n] && CharBefore(text, previous, 0) == previous;
      forall k: nat | k < n - 1 ensures '0' <= rest[k] <= '7' && CharBefore(rest, text[0], k) < rest[k] {
        assert rest[k] == text[k + 1] && CharBefore(text, previous, k + 1) == CharBefore(rest, text[0], k);
      }
    }
    if '0' <= text[0] <= '7' && previous < text[0] && SetAt(rest, text[0], n - 1) {
      assert rest[n - 1] == text[n];
      forall k: nat | k < n ensures '0' <= text[k] <= '7' && CharBefore(text, previous, k) < text[k] {
        if k > 0 {
          assert rest[k - 1] == text[k] && CharBefore(text, previous, k) == CharBefore(rest, text[0], k - 1);
        }
      }
    }
  }

  lemma SetEmpty(text: string, previous: char)
    ensures SetAt(text, previous, 0) <==> text != [] && !Alphanumeric.Test(text[0])
  {}

  /** The tokenizer reads a set of n digits exactly if there is one. */
  lemma {:induction false} SetsExactly(text: string, previous: char, n: nat)
    ensures SetDigits(text, previous) == Some(n) <==> SetAt(text, previous, n)
    decreases |text|
  {
    hide SetAt;
    SetEmpty(text, previous);
    if text == [] {
      NoSet(previous, n);
    } else if n > 0 {
      SetFront(text, previous, n);
      SetsExactly(text[1..], text[0], n - 1);
    }
  }

  lemma NoSet(previous: char, n: nat)
    ensures !SetAt("", previous, n)
  {}

  // ----- strings and the rest

  /** A string without escapes ends at its closing quote, or with the source; it may not contain a new line. */
  lemma {:induction false} PlainStrings(body: string, rest: string)
    requires forall k :: 0 <= k < |body| ==> body[k] != '"' && body[k] != '\\' && body[k] != '\n'
    ensures StringRest(body + "\"" + rest) == Some(|body| + 1)
    ensures StringRest(body) == Some(|body|)
    ensures StringRest(body + "\n" + rest) == None
    decreases |body|
  {
    if body == [] {
      var t := "" + "\"" + rest;
      assert t[0] == '"';
      var u := "" + "\n" + rest;
      assert u[0] == '\n';
    } else {
      PlainStrings(body[1..], rest);
      assert (body + "\"" + rest)[1..] == body[1..] + "\"" + rest;
      assert (body + "\n" + rest)[1..] == body[1..] + "\n" + rest;
    }
  }

  /** An escape takes one character, or `x` and up to two hexadecimal digits. */
  lemma EscapesMean(text: string)
    requires text != []
    ensures var h := |text| > 1 && Hexadecimal.Test(text[1]);
            EscapeCode(text) == Some(if text[0] != 'x' || !h then 1 else if |text| > 2 && Hexadecimal.Test(text[2]) then 3 else 2)
  {}

  /** What a round makes of the first character. */
  lemma OtherCharacters(text: string)
    requires text != []
    ensures text[0] == '\n' || text[0] == ';' ==> Round(text) == Some([Tok(Break, 1)])
    ensures text[0] == ',' ==> Round(text) == Some([Tok(Symbol, 1)])
    ensures text[0] in " \t\r\U{000B}\U{000C}" ==> Round(text) == Some([Gap(1)])
    ensures text[0] == '/' && !SeesText(text, "//") && !SeesText(text, "/*") ==> Round(text) == None
    ensures !Whitespace.Test(text[0]) && !Alphanumeric.Test(text[0]) && text[0] !in ";,/\"$" ==> Round(text) == None
  {
    hide Word, Number, StringRest, SetDigits, InlineComment, BlockComment, BreaksLine;
    assert ";,/\"$"[0] == ';' && ";,/\"$"[1] == ',' && ";,/\"$"[2] == '/' && ";,/\"$"[3] == '"' && ";,/\"$"[4] == '$';
  }

  /** Numbers, sets and strings become tokens of their own kind. */
  lemma OtherTokens(text: string)
    requires text != []
    ensures Decimal.Test(text[0]) ==> Round(text) == OneToken(Integer, Number(text))
    ensures text[0] == '$' ==> Round(text) == OneToken(Regset, Plus(1, SetDigits(text[1..], BEFORE_ZERO)))
    ensures text[0] == '"' ==> Round(text) == OneToken(Text, Plus(1, StringRest(text[1..])))
  {
    hide Word, Number, StringRest, SetDigits, InlineComment, BlockComment, BreaksLine;
  }
}
