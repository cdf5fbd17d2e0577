/** Tokens, and the cursor over a range of tokens that the assembler parses with. */
module Parsing {
  import opened Options

  datatype Kind = Identifier | Label | Integer | Text | Break | Symbol | Regset

  datatype Token = Token(kind: Kind, text: string)

  datatype Predicate = IsText(text: string) | IsKind(kind: Kind) {
    predicate Test(t: Token) {
      match this
      case IsText(s) => t.text == s
      case IsKind(k) => t.kind == k
    }
  }

  const BEGIN := "begin"
  const END := "end"

  // ----- blocks

  function Weight(t: Token): int {
    if t.text == "begin" then 1 else if t.text == "end" then -1 else 0
  }

  /** Opening less closing tokens. */
  function Nesting(ts: seq<Token>): int {
    if ts == [] then 0 else Weight(ts[0]) + Nesting(ts[1..])
  }

  /** A Dyck word in `begin` and `end`, with other tokens between. */
  predicate Balanced(ts: seq<Token>) {
    Nesting(ts) == 0 && forall j :: 0 <= j <= |ts| ==> Nesting(ts[..j]) >= 0
  }

  function Later(k: Option<nat>, n: nat): Option<nat> {
    match k
    case Some(i) => Some(i + n)
    case None => None
  }

  /** Where the closing token is that brings `depth` open blocks down to none. */
  function Closing(ts: seq<Token>, depth: nat): (k: Option<nat>)
    requires depth > 0
    ensures k.Some? ==> k.value < |ts|
  {
    if ts == [] then None
    else if Weight(ts[0]) == 1 then Later(Closing(ts[1..], depth + 1), 1)
    else if Weight(ts[0]) == -1 then if depth == 1 then Some(0) else Later(Closing(ts[1..], depth - 1), 1)
    else Later(Closing(ts[1..], depth), 1)
  }

  function DropLast(ts: seq<Token>): (r: seq<Token>)
    ensures |r| <= |ts|
  {
    if ts == [] then [] else ts[..|ts| - 1]
  }

  /** Split at the token with index k; without one the last token is lost. */
  function SplitAt(ts: seq<Token>, k: Option<nat>): (r: (seq<Token>, seq<Token>))
    requires k.Some? ==> k.value < |ts|
    ensures ts != [] ==> |r.0| < |ts| && |r.1| < |ts|
    ensures |r.0| <= |ts| && |r.1| <= |ts|
  {
    match k
    case Some(i) => (ts[..i], ts[i + 1..])
    case None => (DropLast(ts), [])
  }

  /** The body of the block whose opening token was just consumed, and what follows its closing token. */
  function BlockOf(ts: seq<Token>): (r: (seq<Token>, seq<Token>)) {
    SplitAt(ts, Closing(ts, 1))
  }

  function FirstBreak(ts: seq<Token>): (k: Option<nat>)
    ensures k.Some? ==> k.value < |ts|
  {
    if ts == [] then None
    else if ts[0].kind == Break then Some(0)
    else Later(FirstBreak(ts[1..]), 1)
  }

  lemma {:induction false} FirstBreakIsFirst(ts: seq<Token>, k: nat)
    ensures FirstBreak(ts) == Some(k) <==> k < |ts| && ts[k].kind == Break && forall j :: 0 <= j < k ==> ts[j].kind != Break
    decreases |ts|
  {
    if ts != [] && k > 0 {
      FirstBreakIsFirst(ts[1..], k - 1);
      if k < |ts| && forall j :: 0 <= j < k ==> ts[j].kind != Break {
        forall j | 0 <= j < k - 1 ensures ts[1..][j].kind != Break {
          assert ts[1..][j] == ts[j + 1];
        }
      }
      if FirstBreak(ts) == Some(k) {
        forall j | 0 <= j < k ensures ts[j].kind != Break {
          if j > 0 {
            assert ts[1..][j - 1] == ts[j];
          }
        }
      }
    }
  }

  function StatementOf(ts: seq<Token>): (r: (seq<Token>, seq<Token>)) {
    SplitAt(ts, FirstBreak(ts))
  }

  // ----- what block matching finds

  /** The conditions on the closing token of `depth` open blocks. */
  predicate ClosesAt(ts: seq<Token>, depth: nat, k: nat) {
    && k < |ts| && Weight(ts[k]) == -1 && depth + Nesting(ts[..k]) == 1
    && forall j :: 0 <= j <= k ==> depth + Nesting(ts[..j]) >= 1
  }

  lemma NestingStep(ts: seq<Token>, j: nat)
    requires 0 < j <= |ts|
    ensures Nesting(ts[..j]) == Weight(ts[0]) + Nesting(ts[1..][..j - 1])
  {
    assert ts[..j][1..] == ts[1..][..j - 1];
  }

  lemma ClosesLater(ts: seq<Token>, depth: nat, k: nat)
    requires ts != [] && 0 < k < |ts| && depth + Weight(ts[0]) >= 1 && depth >= 1
    ensures ClosesAt(ts, depth, k) <==> ClosesAt(ts[1..], depth + Weight(ts[0]), k - 1)
  {
    var d := depth + Weight(ts[0]);
    NestingStep(ts, k);
    if ClosesAt(ts, depth, k) {
      forall j | 0 <= j <= k - 1 ensures d + Nesting(ts[1..][..j]) >= 1 {
        NestingStep(ts, j + 1);
      }
    }
    if ClosesAt(ts[1..], d, k - 1) {
      forall j | 0 <= j <= k ensures depth + Nesting(ts[..j]) >= 1 {
        if j > 0 {
          NestingStep(ts, j);
        }
      }
    }
  }

  lemma {:induction false} ClosingExactly(ts: seq<Token>, depth: nat, k: nat)
    requires depth > 0
    ensures Closing(ts, depth) == Some(k) <==> ClosesAt(ts, depth, k)
    decreases |ts|
  {
    if ts != [] {
      if depth + Weight(ts[0]) >= 1 {
        if 0 < k < |ts| {
          ClosesLater(ts, depth, k);
          ClosingExactly(ts[1..], depth + Weight(ts[0]), k - 1);
        }
      } else {
        assert Closing(ts, depth) == Some(0);
        assert ts[..0] == [];
        if k > 0 && k < |ts| {
          NestingStep(ts, 1);
          assert Nesting(ts[..1]) == Weight(ts[0]);
        }
      }
    }
  }

  /** Block matching finds index k exactly if token k closes and the tokens before it are balanced. */
  lemma BlockIsBalanced(ts: seq<Token>, k: nat)
    ensures Closing(ts, 1) == Some(k) <==> k < |ts| && ts[k].text == "end" && Balanced(ts[..k])
  {
    ClosingExactly(ts, 1, k);
    if k < |ts| {
      forall j | 0 <= j <= k ensures ts[..k][..j] == ts[..j] {}
    }
  }

  /** A balanced body is cut out whole, whatever follows. */
  lemma BalancedBlock(body: seq<Token>, end: Token, rest: seq<Token>)
    requires Balanced(body) && end.text == "end"
    ensures BlockOf(body + [end] + rest) == (body, rest)
  {
    var ts := body + [end] + rest;
    assert ts[..|body|] == body && ts[|body|] == end && ts[|body| + 1..] == rest;
    BlockIsBalanced(ts, |body|);
  }

  // ----- the cursor

  class Parser {
    const tokens: seq<Token>
    const begin: nat
    const end: int
    var offset: nat

    ghost predicate Valid()
      reads this
    {
      end <= |tokens| && offset <= |tokens|
    }

    /** The tokens still to be read. */
    ghost function Rest(): seq<Token>
      requires Valid()
      reads this
    {
      if offset < end then tokens[offset..end] else []
    }

    constructor (tokens: seq<Token>, begin: nat, end: int, offset: nat)
      requires end <= |tokens| && offset <= |tokens|
      ensures Valid() && this.tokens == tokens && this.begin == begin && this.end == end && this.offset == offset
    {
      this.tokens, this.begin, this.end, this.offset := tokens, begin, end, offset;
    }

    predicate Empty()
      reads this
    {
      offset >= end
    }

    /** The next token, or None where the source raises a message. */
    method Peek() returns (t: Option<Token>)
      requires Valid()
      ensures t == if Rest() == [] then None else Some(Rest()[0])
    {
      if Empty() {
        return None;
      }
      t := Some(tokens[offset]);
    }

    method Advance()
      requires Valid()
      modifies this
      ensures Valid() && Rest() == if old(Rest()) == [] then [] else old(Rest())[1..]
      ensures offset == if old(Rest()) == [] then old(offset) else old(offset) + 1
    {
      if !Empty() {
        offset := offset + 1;
      }
    }

    method Match(p: Predicate) returns (matched: bool)
      requires Valid()
      modifies this
      ensures matched <==> old(Rest()) != [] && p.Test(old(Rest())[0])
      ensures Valid() && Rest() == if matched then old(Rest())[1..] else old(Rest())
      ensures offset == if matched then old(offset) + 1 else old(offset)
    {
      if Empty() {
        return false;
      }
      if p.Test(tokens[offset]) {
        Advance();
        return true;
      }
      matched := false;
    }

    /** The next token if it passes the test, else None where the source raises a message. */
    method Expect(p: Predicate) returns (t: Option<Token>)
      requires Valid()
      modifies this
      ensures t == if old(Rest()) != [] && p.Test(old(Rest())[0]) then Some(old(Rest())[0]) else None
      ensures Valid() && Rest() == if t.Some? then old(Rest())[1..] else old(Rest())
      ensures offset == if t.Some? then old(offset) + 1 else old(offset)
    {
      if Empty() {
        return None;
      }
      var token := tokens[offset];
      if p.Test(token) {
        Advance();
        return Some(token);
      }
      t := None;
    }

    /** The tokens between two positions, cut off by a new end. */
    lemma Cut(start: nat, all: seq<Token>, n: nat)
      requires Valid() && n <= |all| && all == if start < end then tokens[start..end] else []
      ensures n > 0 ==> start + n - 1 <= |tokens|
      ensures n > 0 ==> (if start < start + n - 1 then tokens[start..start + n - 1] else []) == all[..n - 1]
    {}

    /** The opening token is consumed already. The sub-parser gets the block without its closing token. */
    method Block() returns (sub: Parser)
      requires Valid() && offset > 0
      modifies this
      ensures Valid() && fresh(sub) && sub.Valid() && sub.Rest() == BlockOf(old(Rest())).0 && Rest() == BlockOf(old(Rest())).1
    {
      hide Closing;
      var depth := 1;
      var start := offset;
      ghost var all := Rest();
      ghost var n: nat := 0;
      assert all[0..] == all;
      LaterZero(Closing(all, 1));
      while !Empty() && depth > 0
        invariant Valid() && depth >= 0 && offset == start + n && n <= |all| && Rest() == all[n..]
        invariant depth > 0 ==> Closing(all, 1) == Later(Closing(all[n..], depth), n)
        invariant depth == 0 ==> n > 0 && Closing(all, 1) == Some(n - 1)
        decreases |all| - n
      {
        ClosingStep(all, n, depth);
        n := n + 1;
        var opens := Match(IsText(BEGIN));
        if opens {
          depth := depth + 1;
          continue;
        }
        var closes := Match(IsText(END));
        if closes {
          depth := depth - 1;
          continue;
        }
        Advance();
      }
      if depth > 0 {
        NothingCloses(depth);
        assert n == |all|;
      }
      Cut(start, all, n);
      sub := new Parser(tokens, start, offset - 1, start);
    }

    /** The tokens up to a break, which is consumed too. Without one the sub-parser lacks the last token. */
    method UntilBreak() returns (sub: Parser)
      requires Valid() && !Empty()
      modifies this
      ensures Valid() && fresh(sub) && sub.Valid() && sub.Rest() == StatementOf(old(Rest())).0 && Rest() == StatementOf(old(Rest())).1
    {
      hide FirstBreak;
      var start := offset;
      ghost var all := Rest();
      ghost var n: nat := 0;
      assert all[0..] == all;
      LaterZero(FirstBreak(all));
      while !Empty()
        invariant Valid() && offset == start + n && n <= |all| && Rest() == all[n..]
        invariant FirstBreak(all) == Later(FirstBreak(all[n..]), n)
        decreases |all| - n
      {
        BreakStep(all, n);
        n := n + 1;
        var found := Match(IsKind(Break));
        if found {
          break;
        }
        Advance();
      }
      Cut(start, all, n);
      sub := new Parser(tokens, start, offset - 1, start);
    }
  }

  lemma LaterZero(k: Option<nat>)
    ensures Later(k, 0) == k
  {}

  lemma ClosingStep(all: seq<Token>, n: nat, depth: nat)
    requires n < |all| && depth > 0
    ensures all[n..][1..] == all[n + 1..]
    ensures var k, t := Closing(all[n..], depth), all[n];
            if t.text == BEGIN then Later(k, n) == Later(Closing(all[n + 1..], depth + 1), n + 1)
            else if t.text == END then
              if depth == 1 then Later(k, n) == Some(n) else Later(k, n) == Later(Closing(all[n + 1..], depth - 1), n + 1)
            else Later(k, n) == Later(Closing(all[n + 1..], depth), n + 1)
  {
    assert all[n..][1..] == all[n + 1..];
  }

  lemma NothingCloses(depth: nat)
    requires depth > 0
    ensures Closing([], depth) == None
  {}

  lemma BreakStep(all: seq<Token>, n: nat)
    requires n < |all|
    ensures all[n..][1..] == all[n + 1..]
    ensures Later(FirstBreak(all[n..]), n) == if all[n].kind == Break then Some(n) else Later(FirstBreak(all[n + 1..]), n + 1)
  {
    assert all[n..][1..] == all[n + 1..];
  }
}
