/** The line table of a source: built in one pass, searched from the front. */
module SourceText {

  datatype Line = Line(offset: nat, length: nat) {
    function End(): nat {
      offset + length
    }
  }

  /** Both one-based. */
  datatype Position = Position(line: nat, column: nat)

  /** Lines one after the other, from the beginning of the source to its end. */
  predicate Tiles(lines: seq<Line>, size: nat) {
    && lines != [] && lines[0].offset == 0 && lines[|lines| - 1].End() == size
    && forall k :: 0 < k < |lines| ==> lines[k].offset == lines[k - 1].End()
  }

  predicate NoNewLine(source: string, from: nat, to: nat)
    requires to <= |source|
  {
    forall i :: from <= i < to ==> source[i] != '\n'
  }

  /** A line ends with its only new line, except that the last has none. */
  predicate Shaped(source: string, lines: seq<Line>) {
    forall k :: 0 <= k < |lines| ==>
      var l := lines[k];
      && l.End() <= |source|
      && if k < |lines| - 1 then l.length > 0 && source[l.End() - 1] == '\n' && NoNewLine(source, l.offset, l.End() - 1)
         else NoNewLine(source, l.offset, l.End())
  }

  predicate IsLineTable(source: string, lines: seq<Line>) {
    if source == [] then lines == [] else Tiles(lines, |source|) && Shaped(source, lines)
  }

  /** The text of each line but the last ends with a new line and has no other; the last has none. */
  lemma LinesMean(source: string, lines: seq<Line>, k: nat)
    requires IsLineTable(source, lines) && k < |lines|
    ensures lines[k].End() <= |source|
    ensures var t := source[lines[k].offset..lines[k].End()];
            if k < |lines| - 1 then t != [] && t[|t| - 1] == '\n' && '\n' !in t[..|t| - 1] else '\n' !in t
  {}

  predicate Contains(l: Line, offset: nat) {
    l.offset <= offset < l.End()
  }

  /** Search from line k on. */
  function FoundFrom(lines: seq<Line>, offset: nat, k: nat): Position
    requires k <= |lines|
    decreases |lines| - k
  {
    if k == |lines| then Position(|lines| + 1, 1)
    else if Contains(lines[k], offset) then Position(k + 1, offset - lines[k].offset + 1)
    else FoundFrom(lines, offset, k + 1)
  }

  /** Offset of a position, with line and column cut off to what exists. */
  function At(lines: seq<Line>, pos: Position): nat {
    var sl := if pos.line > 0 then pos.line - 1 else 0;
    var sc := if pos.column > 0 then pos.column - 1 else 0;
    if lines == [] then 0
    else
      var l := lines[if sl >= |lines| then |lines| - 1 else sl];
      l.offset + if sc >= l.length then l.length else sc
  }

  lemma {:induction false} LaterLinesAreLater(lines: seq<Line>, size: nat, j: nat, k: nat)
    requires Tiles(lines, size) && j < k < |lines|
    ensures lines[j].End() <= lines[k].offset
    decreases k
  {
    if j < k - 1 {
      LaterLinesAreLater(lines, size, j, k - 1);
    }
  }

  lemma {:induction false} SomeLineContains(lines: seq<Line>, size: nat, offset: nat, n: nat) returns (k: nat)
    requires Tiles(lines, size) && 0 < n <= |lines| && offset < lines[n - 1].End()
    ensures k < n && Contains(lines[k], offset)
    decreases n
  {
    if lines[n - 1].offset <= offset {
      k := n - 1;
    } else {
      k := SomeLineContains(lines, size, offset, n - 1);
    }
  }

  lemma {:induction false} FoundIs(lines: seq<Line>, size: nat, offset: nat, k: nat, m: nat)
    requires Tiles(lines, size) && m <= k < |lines| && Contains(lines[k], offset)
    ensures FoundFrom(lines, offset, m) == Position(k + 1, offset - lines[k].offset + 1)
    decreases k - m
  {
    if m < k {
      LaterLinesAreLater(lines, size, m, k);
      FoundIs(lines, size, offset, k, m + 1);
    }
  }

  /** Every offset inside the source is found in the one line that contains it, and leads back to itself. */
  lemma PositionsInvert(source: string, lines: seq<Line>, offset: nat)
    requires IsLineTable(source, lines) && offset < |source|
    ensures var pos := FoundFrom(lines, offset, 0);
            && 1 <= pos.line <= |lines| && Contains(lines[pos.line - 1], offset) && pos.column >= 1
            && At(lines, pos) == offset
    ensures forall k :: 0 <= k < |lines| && Contains(lines[k], offset) ==> FoundFrom(lines, offset, 0).line == k + 1
  {
    var k := SomeLineContains(lines, |source|, offset, |lines|);
    FoundIs(lines, |source|, offset, k, 0);
    forall j | 0 <= j < |lines| && Contains(lines[j], offset) ensures FoundFrom(lines, offset, 0).line == j + 1 {
      FoundIs(lines, |source|, offset, j, 0);
    }
  }

  /** A position inside a line leads to an offset that is found at that position. */
  lemma OffsetsInvert(source: string, lines: seq<Line>, pos: Position)
    requires IsLineTable(source, lines) && 1 <= pos.line <= |lines| && 1 <= pos.column <= lines[pos.line - 1].length
    ensures At(lines, pos) < |source| && FoundFrom(lines, At(lines, pos), 0) == pos
  {
    var k := pos.line - 1;
    assert Shaped(source, lines);
    FoundIs(lines, |source|, At(lines, pos), k, 0);
  }

  /** Offsets behind the source are found one past the last line. */
  lemma {:induction false} BehindTheEnd(lines: seq<Line>, offset: nat, k: nat)
    requires k <= |lines| && forall j :: 0 <= j < |lines| ==> lines[j].End() <= offset
    ensures FoundFrom(lines, offset, k) == Position(|lines| + 1, 1)
    decreases |lines| - k
  {
    if k < |lines| {
      BehindTheEnd(lines, offset, k + 1);
    }
  }

  // ----- building the table

  /** The table after i characters; the length of its last line is not settled yet. */
  predicate Growing(source: string, lines: seq<Line>, i: nat) {
    && i <= |source| && lines != [] && lines[0].offset == 0 && lines[|lines| - 1].offset <= i
    && (forall k :: 0 < k < |lines| ==> lines[k].offset == lines[k - 1].End())
    && (forall k :: 0 <= k < |lines| - 1 ==> EndsWithNewLine(source, lines[k]))
    && NoNewLine(source, lines[|lines| - 1].offset, i)
  }

  predicate EndsWithNewLine(source: string, l: Line) {
    && 0 < l.length && l.End() <= |source| && source[l.End() - 1] == '\n' && NoNewLine(source, l.offset, l.End() - 1)
  }

  function Settled(lines: seq<Line>, end: nat): (r: seq<Line>)
    requires lines != [] && lines[|lines| - 1].offset <= end
    ensures |r| == |lines|
  {
    var back := lines[|lines| - 1];
    lines[|lines| - 1 := Line(back.offset, end - back.offset)]
  }

  lemma GrowsByNewLine(source: string, lines: seq<Line>, i: nat)
    requires Growing(source, lines, i) && i < |source| && source[i] == '\n'
    ensures Growing(source, Settled(lines, i + 1) + [Line(i + 1, 0)], i + 1)
  {
    var next := Settled(lines, i + 1) + [Line(i + 1, 0)];
    forall k | 0 <= k < |next| - 1 ensures EndsWithNewLine(source, next[k]) {
      if k < |lines| - 1 {
        assert next[k] == lines[k];
      }
    }
  }

  lemma GrowsByOther(source: string, lines: seq<Line>, i: nat)
    requires Growing(source, lines, i) && i < |source| && source[i] != '\n'
    ensures Growing(source, lines, i + 1)
  {}

  lemma SettledGrows(source: string, lines: seq<Line>, i: nat)
    requires Growing(source, lines, i)
    ensures Growing(source, Settled(lines, i), i)
  {
    var next := Settled(lines, i);
    forall k | 0 <= k < |next| - 1 ensures EndsWithNewLine(source, next[k]) {
      assert next[k] == lines[k];
    }
  }

  lemma GrownIsTable(source: string, lines: seq<Line>)
    requires source != [] && Growing(source, lines, |source|) && lines[|lines| - 1].End() == |source|
    ensures IsLineTable(source, lines)
  {
    forall k | 0 <= k < |lines| - 1 ensures EndsWithNewLine(source, lines[k]) {}
  }

  class SourceUnit {
    const source: string
    var lines: seq<Line>

    ghost predicate Valid()
      reads this
    {
      IsLineTable(source, lines)
    }

    /** The length of a line is known at its new line, or at the last character. */
    constructor (source: string)
      ensures Valid() && this.source == source
    {
      hide Growing, Settled, IsLineTable;
      this.source := source;
      lines := [];
      new;
      EmptyTable();
      if source == [] {
        return;
      }
      var last := |source| - 1;
      lines := [Line(0, 0)];
      FirstLine(source);
      for i := 0 to |source|
        invariant Growing(source, lines, i)
        invariant i == |source| ==> lines != [] && lines[|lines| - 1].End() == |source|
      {
        BackIsThere(source, lines, i);
        if source[i] == '\n' {
          GrowsByNewLine(source, lines, i);
          lines := Settled(lines, i + 1);
          lines := lines + [Line(i + 1, 0)];
        } else {
          GrowsByOther(source, lines, i);
        }
        if i == last {
          BackIsThere(source, lines, i + 1);
          SettledGrows(source, lines, i + 1);
          SettledEnds(lines, i + 1);
          lines := Settled(lines, i + 1);
        }
      }
      GrownIsTable(source, lines);
    }

    /** `find`, for a pointer given by its distance from the beginning of the source. */
    method Find(point: int) returns (pos: Position)
      ensures pos == if point < 0 then Position(1, 1) else FoundFrom(lines, point, 0)
    {
      if point < 0 {
        return Position(1, 1);
      }
      var offset: nat := point;
      for index := 0 to |lines|
        invariant FoundFrom(lines, offset, 0) == FoundFrom(lines, offset, index)
      {
        var desc := lines[index];
        if desc.offset <= offset && desc.End() > offset {
          return Position(index + 1, offset - desc.offset + 1);
        }
      }
      pos := Position(|lines| + 1, 1);
    }
  }

  lemma EmptyTable()
    ensures IsLineTable([], [])
  {}

  lemma FirstLine(source: string)
    ensures Growing(source, [Line(0, 0)], 0)
  {}

  lemma BackIsThere(source: string, lines: seq<Line>, i: nat)
    requires Growing(source, lines, i)
    ensures i <= |source| && lines != [] && lines[|lines| - 1].offset <= i
  {}

  lemma SettledEnds(lines: seq<Line>, end: nat)
    requires lines != [] && lines[|lines| - 1].offset <= end
    ensures Settled(lines, end)[|lines| - 1].End() == end
  {}
}
