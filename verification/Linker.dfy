/** The writer that the assembler emits into, and its linking step. */
module Linker {
  import opened Isa
  import opened Encoding

  /** What was emitted: a finished instruction, or a jump whose operand is still to be linked. */
  datatype Emit = Plain(i: Instr) | Jump(cond: bv4, id: nat)

  datatype Link = Link(id: nat, offset: nat)

  const UNLINKED: bv8 := 0xFF

  function Written(e: Emit): Instr {
    if e.Plain? then e.i else Instr(Jpi, e.cond, UNLINKED, UNLINKED)
  }

  function WrittenAll(code: seq<Emit>): (p: seq<Instr>)
    ensures |p| == |code|
  {
    seq(|code|, k requires 0 <= k < |code| => Written(code[k]))
  }

  function LinksOf(code: seq<Emit>): seq<Link> {
    if code == [] then []
    else
      var n := |code| - 1;
      LinksOf(code[..n]) + if code[n].Jump? then [Link(code[n].id, 3 * n + 1)] else []
  }

  // ----- linking

  /** The word address of a byte offset; only its low sixteen bits are looked at. */
  function Target(offset: nat): (t: nat)
    ensures t < 65536
  {
    (offset % 65536) / 3
  }

  function HighPart(t: nat): bv8
    requires t < 65536
  {
    ByteOf(t / 256)
  }

  function LowPart(t: nat): bv8 {
    ByteOf(t % 256)
  }

  lemma PartsOfTarget(t: nat)
    requires t < 65536
    ensures Wide(HighPart(t), LowPart(t)) == t
  {
    hide Num, ByteOf;
    NumOfByte(t / 256);
    NumOfByte(t % 256);
  }

  /** A label is reached through its word address exactly if its byte offset fits sixteen bits. */
  lemma TargetExactly(k: nat)
    ensures Target(3 * k) == k <==> 3 * k <= 65535
  {}

  /** Byte offsets are cut to sixteen bits before they become word addresses. */
  lemma TargetWraps(offset: nat)
    ensures Target(offset + 65536) == Target(offset)
    ensures offset < 65536 ==> Target(offset) == offset / 3
  {}

  function Patched(bytes: seq<bv8>, offset: nat, t: nat): (r: seq<bv8>)
    requires offset + 1 < |bytes| && t < 65536
    ensures |r| == |bytes|
  {
    bytes[offset := HighPart(t)][offset + 1 := LowPart(t)]
  }

  function Patch(bytes: seq<bv8>, links: seq<Link>, labels: map<nat, nat>): Result<seq<bv8>>
    decreases |links|
  {
    if links == [] then Ok(bytes)
    else if links[0].id !in labels then Err(UnknownLabel)
    else if |bytes| <= links[0].offset + 1 then Err(LinkOutOfBounds)
    else Patch(Patched(bytes, links[0].offset, Target(labels[links[0].id])), links[1..], labels)
  }

  lemma {:induction false} PatchAppends(bytes: seq<bv8>, a: seq<Link>, b: seq<Link>, labels: map<nat, nat>)
    requires Patch(bytes, a, labels).Ok?
    ensures Patch(bytes, a + b, labels) == Patch(Patch(bytes, a, labels).value, b, labels)
    decreases |a|
  {
    hide Patched, Target;
    if a == [] {
      assert a + b == b;
    } else {
      assert (a + b)[1..] == a[1..] + b;
      PatchAppends(Patched(bytes, a[0].offset, Target(labels[a[0].id])), a[1..], b, labels);
    }
  }

  predicate Linkable(code: seq<Emit>, labels: map<nat, nat>) {
    forall k :: 0 <= k < |code| && code[k].Jump? ==> code[k].id in labels
  }

  function Linked(e: Emit, labels: map<nat, nat>): Instr
    requires e.Jump? ==> e.id in labels
  {
    if e.Plain? then e.i
    else var t := Target(labels[e.id]); Instr(Jpi, e.cond, HighPart(t), LowPart(t))
  }

  /** The program the linker is to produce. */
  function LinkedAll(code: seq<Emit>, labels: map<nat, nat>): (p: seq<Instr>)
    requires Linkable(code, labels)
    ensures |p| == |code|
  {
    seq(|code|, k requires 0 <= k < |code| => Linked(code[k], labels))
  }

  lemma PatchOne(before: seq<bv8>, e: Emit, after: seq<bv8>, labels: map<nat, nat>)
    requires e.Jump? && e.id in labels
    ensures Patch(before + Encode(Written(e)) + after, [Link(e.id, |before| + 1)], labels) ==
            Ok(before + Encode(Linked(e, labels)) + after)
  {
    hide Head, Target, HighPart, LowPart;
    var t := Target(labels[e.id]);
    var bytes := before + Encode(Written(e)) + after;
    assert Patched(bytes, |before| + 1, t) == before + Encode(Linked(e, labels)) + after;
    assert Patch(Patched(bytes, |before| + 1, t), [], labels).Ok?;
  }

  lemma WrittenPrefix(code: seq<Emit>, labels: map<nat, nat>)
    requires code != [] && Linkable(code, labels)
    ensures var n := |code| - 1;
            && Linkable(code[..n], labels)
            && EncodeAll(WrittenAll(code)) == EncodeAll(WrittenAll(code[..n])) + Encode(Written(code[n]))
            && EncodeAll(LinkedAll(code, labels)) == EncodeAll(LinkedAll(code[..n], labels)) + Encode(Linked(code[n], labels))
  {
    hide Encode, Linked;
    var n := |code| - 1;
    assert WrittenAll(code)[..n] == WrittenAll(code[..n]);
    assert LinkedAll(code, labels)[..n] == LinkedAll(code[..n], labels);
  }

  /** Linking never fails when every label is defined, whatever follows the code, and yields the linked program. */
  lemma {:induction false} PatchLinks(code: seq<Emit>, labels: map<nat, nat>, after: seq<bv8>)
    requires Linkable(code, labels)
    ensures Patch(EncodeAll(WrittenAll(code)) + after, LinksOf(code), labels) == Ok(EncodeAll(LinkedAll(code, labels)) + after)
    decreases |code|
  {
    hide Encode, Linked, Written;
    if code == [] {
    } else {
      var n := |code| - 1;
      var e := code[n];
      WrittenPrefix(code, labels);
      PatchLinks(code[..n], labels, Encode(Written(e)) + after);
      var before := EncodeAll(WrittenAll(code[..n]));
      var linked := EncodeAll(LinkedAll(code[..n], labels));
      assert before + (Encode(Written(e)) + after) == EncodeAll(WrittenAll(code)) + after;
      assert linked + (Encode(Written(e)) + after) == linked + Encode(Written(e)) + after;
      if e.Jump? {
        PatchAppends(EncodeAll(WrittenAll(code)) + after, LinksOf(code[..n]), [Link(e.id, 3 * n + 1)], labels);
        PatchOne(linked, e, after, labels);
      } else {
        PlainIsItself(e, labels);
        assert LinksOf(code) == LinksOf(code[..n]);
      }
    }
  }

  lemma PlainIsItself(e: Emit, labels: map<nat, nat>)
    requires e.Plain?
    ensures Linked(e, labels) == Written(e)
  {}

  /** Linking changes nothing but the operands of jumps. */
  lemma OnlyJumpOperandsChange(code: seq<Emit>, labels: map<nat, nat>, p: nat)
    requires Linkable(code, labels) && p < 3 * |code|
    requires EncodeAll(LinkedAll(code, labels))[p] != EncodeAll(WrittenAll(code))[p]
    ensures code[p / 3].Jump? && p % 3 != 0
  {
    hide Target, HighPart, LowPart, Head, EncodeAll;
    var k := p / 3;
    EncodedAt(LinkedAll(code, labels), k);
    EncodedAt(WrittenAll(code), k);
    assert EncodeAll(LinkedAll(code, labels))[p] == EncodeAll(LinkedAll(code, labels))[3 * k..3 * k + 3][p - 3 * k];
    assert EncodeAll(WrittenAll(code))[p] == EncodeAll(WrittenAll(code))[3 * k..3 * k + 3][p - 3 * k];
  }

  predicate NoExtension(code: seq<Emit>) {
    forall k :: 0 <= k < |code| && code[k].Plain? ==> code[k].i.op != Ext
  }

  /** Link correctness. An image of at most 65535 bytes in which every label lies within the image decodes to the
      emitted instructions, each jump leading to the instruction its label was put in front of. */
  lemma JumpsReachTheirLabels(code: seq<Emit>, labels: map<nat, nat>, marks: map<nat, nat>)
    requires Linkable(code, labels) && NoExtension(code)
    requires labels.Keys == marks.Keys && forall l :: l in labels ==> labels[l] == 3 * marks[l] && marks[l] <= |code|
    requires 3 * |code| <= 65535
    ensures var r := ToProgram(EncodeAll(LinkedAll(code, labels)));
            && r.Ok? && |r.value| == |code|
            && forall k :: 0 <= k < |code| ==>
                 if code[k].Jump? then r.value[k].op == Jpi && r.value[k].cond == code[k].cond && Wide(r.value[k].a, r.value[k].b) == marks[code[k].id]
                 else r.value[k] == Normal(code[k].i)
  {
    hide Target, HighPart, LowPart, EncodeAll, Wide, ToProgram;
    var p := LinkedAll(code, labels);
    assert !HasExtension(p);
    ReadBack(p);
    forall k | 0 <= k < |code| && code[k].Jump? ensures Wide(p[k].a, p[k].b) == marks[code[k].id] {
      var l := code[k].id;
      TargetExactly(marks[l]);
      PartsOfTarget(Target(labels[l]));
    }
  }

  // ----- the writer

  class MicroWriter {
    var stack: seq<bv4>
    var bytes: seq<bv8>
    var links: seq<Link>
    var labels: map<nat, nat>
    ghost var code: seq<Emit>
    ghost var marks: map<nat, nat>

    /** Bytes, links and label offsets are those of the emitted code. */
    ghost predicate Valid()
      reads this
    {
      && bytes == EncodeAll(WrittenAll(code)) && links == LinksOf(code)
      && labels.Keys == marks.Keys
      && forall l :: l in labels ==> labels[l] == 3 * marks[l] && marks[l] <= |code|
    }

    constructor ()
      ensures Valid() && stack == [COND_T] && code == [] && marks == map[]
    {
      stack, bytes, links, labels := [COND_T], [], [], map[];
      code, marks := [], map[];
    }

    /** The condition in force is the top of the stack. */
    method PutOp(op: Op, a: bv8, b: bv8)
      requires Valid() && |stack| > 0
      modifies `bytes, `code
      ensures Valid() && code == old(code) + [Plain(Instr(op, stack[|stack| - 1], a, b))]
    {
      hide Head;
      var cond := stack[|stack| - 1];
      ghost var e := Plain(Instr(op, cond, a, b));
      Appended(code, e);
      bytes := bytes + [Head(op, cond)];
      bytes := bytes + [a];
      bytes := bytes + [b];
      code := code + [e];
    }

    method PutJump(id: nat)
      requires Valid() && |stack| > 0
      modifies `bytes, `links, `code
      ensures Valid() && code == old(code) + [Jump(stack[|stack| - 1], id)]
      ensures bytes == old(bytes) + [Head(Jpi, stack[|stack| - 1]), 0xFF, 0xFF]
    {
      hide Head;
      var cond := stack[|stack| - 1];
      ghost var e := Jump(cond, id);
      Appended(code, e);
      links := links + [Link(id, |bytes| + 1)];
      bytes := bytes + [Head(Jpi, cond), UNLINKED, UNLINKED];
      code := code + [e];
    }

    method PushCondition(cond: bv4)
      requires Valid()
      modifies `stack
      ensures Valid() && stack == old(stack) + [cond]
    {
      stack := stack + [cond];
    }

    method PopCondition()
      requires Valid()
      modifies `stack
      ensures Valid() && stack == if old(stack) == [] then [] else old(stack)[..|old(stack)| - 1]
    {
      if stack != [] {
        stack := stack[..|stack| - 1];
      }
    }

    method PutLabel(id: nat)
      requires Valid()
      modifies `labels, `marks
      ensures Valid() && marks == old(marks)[id := |code|]
    {
      labels := labels[id := |bytes|];
      marks := marks[id := |code|];
    }

    /** The linked image, or the failure of the first link that cannot be resolved. */
    method Bake() returns (r: Result<seq<bv8>>)
      requires Valid()
      ensures r == Patch(bytes, links, labels)
      ensures r.Ok? <==> Linkable(code, labels)
      ensures r.Ok? ==> r.value == EncodeAll(LinkedAll(code, labels)) && |r.value| == 3 * |code|
    {
      hide Patched, Target, EncodeAll, LinksOf;
      var result := bytes;
      for i := 0 to |links|
        invariant Patch(result, links[i..], labels) == Patch(bytes, links, labels)
        invariant forall j :: 0 <= j < i ==> links[j].id in labels
      {
        assert links[i..][1..] == links[i + 1..];
        if links[i].id !in labels {
          LinkOfJump(code, i);
          return Err(UnknownLabel);
        }
        var target := Target(labels[links[i].id]);
        if |result| <= links[i].offset + 1 {
          BakeSucceeds();
          return Err(LinkOutOfBounds);
        }
        result := Patched(result, links[i].offset, target);
      }
      BakeSucceeds();
      JumpsHaveLinks(code, labels);
      r := Ok(result);
    }

    /** The outcome of linking this writer's code when every label is defined. */
    lemma BakeSucceeds()
      requires Valid()
      ensures Linkable(code, labels) ==> Patch(bytes, links, labels) == Ok(EncodeAll(LinkedAll(code, labels)))
      ensures !Linkable(code, labels) ==> Patch(bytes, links, labels).Err?
    {
      hide EncodeAll;
      if Linkable(code, labels) {
        PatchLinks(code, labels, []);
        assert EncodeAll(WrittenAll(code)) + [] == bytes;
        assert EncodeAll(LinkedAll(code, labels)) + [] == EncodeAll(LinkedAll(code, labels));
      } else {
        var k :| 0 <= k < |code| && code[k].Jump? && code[k].id !in labels;
        var i := LinkOf(code, k);
        UnlinkableFails(bytes, LinksOf(code), labels, i);
      }
    }
  }

  lemma Appended(code: seq<Emit>, e: Emit)
    ensures EncodeAll(WrittenAll(code + [e])) == EncodeAll(WrittenAll(code)) + Encode(Written(e))
    ensures LinksOf(code + [e]) == LinksOf(code) + if e.Jump? then [Link(e.id, 3 * |code| + 1)] else []
  {
    hide Encode, EncodeAll, Written, LinksOf;
    assert WrittenAll(code + [e]) == WrittenAll(code) + [Written(e)];
    EncodeAppend(WrittenAll(code), Written(e));
    LinksAppend(code, e);
  }

  lemma LinksAppend(code: seq<Emit>, e: Emit)
    ensures LinksOf(code + [e]) == LinksOf(code) + if e.Jump? then [Link(e.id, 3 * |code| + 1)] else []
  {
    hide LinksOf;
    var c := code + [e];
    LinksLast(c);
    assert c[..|c| - 1] == code;
  }

  lemma LinksLast(c: seq<Emit>)
    requires c != []
    ensures var n := |c| - 1;
            LinksOf(c) == LinksOf(c[..n]) + if c[n].Jump? then [Link(c[n].id, 3 * n + 1)] else []
  {}

  /** Every link comes from a jump. */
  lemma {:induction false} LinkOfJump(code: seq<Emit>, i: nat)
    requires i < |LinksOf(code)|
    ensures exists k :: 0 <= k < |code| && code[k].Jump? && code[k].id == LinksOf(code)[i].id
    decreases |code|
  {
    var n := |code| - 1;
    if i < |LinksOf(code[..n])| {
      LinkOfJump(code[..n], i);
      var k :| 0 <= k < n && code[..n][k].Jump? && code[..n][k].id == LinksOf(code[..n])[i].id;
      assert code[k] == code[..n][k];
    }
  }

  /** The link of a jump. */
  lemma {:induction false} LinkOf(code: seq<Emit>, k: nat) returns (i: nat)
    requires k < |code| && code[k].Jump?
    ensures i < |LinksOf(code)| && LinksOf(code)[i].id == code[k].id
    decreases |code|
  {
    var n := |code| - 1;
    if k == n {
      i := |LinksOf(code)| - 1;
    } else {
      i := LinkOf(code[..n], k);
    }
  }

  lemma JumpsHaveLinks(code: seq<Emit>, labels: map<nat, nat>)
    requires forall j :: 0 <= j < |LinksOf(code)| ==> LinksOf(code)[j].id in labels
    ensures Linkable(code, labels)
  {
    forall k | 0 <= k < |code| && code[k].Jump? ensures code[k].id in labels {
      var i := LinkOf(code, k);
    }
  }

  lemma {:induction false} UnlinkableFails(bytes: seq<bv8>, links: seq<Link>, labels: map<nat, nat>, i: nat)
    requires i < |links| && links[i].id !in labels
    ensures Patch(bytes, links, labels).Err?
    decreases |links|
  {
    hide Patched, Target;
    if i > 0 && links[0].id in labels && links[0].offset + 1 < |bytes| {
      UnlinkableFails(Patched(bytes, links[0].offset, Target(labels[links[0].id])), links[1..], labels, i - 1);
    }
  }
}
