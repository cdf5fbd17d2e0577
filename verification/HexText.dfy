/** The hexadecimal text form of an image: two upper-case digits per byte, three bytes per line. */
module HexText {
  import opened Isa
  import opened Listing

  predicate IsHexDigit(c: char) {
    '0' <= c <= '9' || 'a' <= c <= 'f' || 'A' <= c <= 'F'
  }

  function HexValue(c: char): (v: nat)
    requires IsHexDigit(c)
    ensures v < 16
  {
    if '0' <= c <= '9' then c as int - '0' as int
    else if 'a' <= c <= 'f' then c as int - 'a' as int + 10
    else c as int - 'A' as int + 10
  }

  /** Pairs of digits make bytes; anything else is skipped one character at a time. */
  function Decoded(s: string): seq<bv8> {
    if |s| < 2 then []
    else if IsHexDigit(s[0]) && IsHexDigit(s[1]) then [ByteOf(HexValue(s[0]) * 16 + HexValue(s[1]))] + Decoded(s[2..])
    else Decoded(s[1..])
  }

  function ByteText(b: bv8): string {
    [HexDigit(Num(b) / 16), HexDigit(Num(b) % 16)]
  }

  /** The text of bytes when `column` of a line are already written. */
  function Encoded(bytes: seq<bv8>, column: nat): string
    requires column < 3
  {
    if bytes == [] then ""
    else
      ByteText(bytes[0]) + (if column == 2 then "\n" else "") + Encoded(bytes[1..], (column + 1) % 3)
  }

  const LOWER_DIGITS := "0123456789abcdef"
  const UPPER_DIGITS := "0123456789ABCDEF"

  /** A digit is worth its place, in either case; upper case is written. */
  lemma HexDigitsMean(d: nat)
    requires d < 16
    ensures IsHexDigit(LOWER_DIGITS[d]) && HexValue(LOWER_DIGITS[d]) == d
    ensures IsHexDigit(UPPER_DIGITS[d]) && HexValue(UPPER_DIGITS[d]) == d
    ensures HexDigit(d) == UPPER_DIGITS[d]
  {
    LowerAt(d);
    UpperAt(d);
  }

  lemma LowerAt(d: nat)
    requires d < 16
    ensures LOWER_DIGITS[d] as int == if d < 10 then '0' as int + d else 'a' as int + d - 10
  {}

  lemma UpperAt(d: nat)
    requires d < 16
    ensures UPPER_DIGITS[d] as int == if d < 10 then '0' as int + d else 'A' as int + d - 10
  {}

  /** Nothing else is a digit. */
  lemma OnlyHexDigits(c: char)
    ensures IsHexDigit(c) <==> c in LOWER_DIGITS || c in UPPER_DIGITS
  {
    if '0' <= c <= '9' {
      LowerAt(c as int - '0' as int);
    } else if 'a' <= c <= 'f' {
      LowerAt(c as int - 'a' as int + 10);
    } else if 'A' <= c <= 'F' {
      UpperAt(c as int - 'A' as int + 10);
    }
    if d: nat :| d < 16 && LOWER_DIGITS[d] == c {
      LowerAt(d);
    }
    if d: nat :| d < 16 && UPPER_DIGITS[d] == c {
      UpperAt(d);
    }
  }

  lemma DigitIsRead(d: nat)
    requires d < 16
    ensures IsHexDigit(HexDigit(d)) && HexValue(HexDigit(d)) == d
  {}

  lemma ByteIsRead(b: bv8, rest: string)
    ensures Decoded(ByteText(b) + rest) == [b] + Decoded(rest)
  {
    hide Num, ByteOf, HexDigit, HexValue, IsHexDigit;
    var s := ByteText(b) + rest;
    DigitIsRead(Num(b) / 16);
    DigitIsRead(Num(b) % 16);
    ByteOfNum(b);
    assert s[2..] == rest;
  }

  lemma NewLineIsSkipped(rest: string)
    ensures Decoded("\n" + rest) == Decoded(rest)
  {
    var s := "\n" + rest;
    assert s[0] == '\n' && s[1..] == rest;
  }

  lemma {:induction false} EncodedIsDecoded(bytes: seq<bv8>, column: nat)
    requires column < 3
    ensures Decoded(Encoded(bytes, column)) == bytes
    decreases |bytes|
  {
    hide Decoded, ByteText;
    if bytes == [] {
      NothingDecodes();
    } else {
      var rest := Encoded(bytes[1..], (column + 1) % 3);
      EncodedIsDecoded(bytes[1..], (column + 1) % 3);
      if column == 2 {
        assert Encoded(bytes, column) == ByteText(bytes[0]) + ("\n" + rest);
        ByteIsRead(bytes[0], "\n" + rest);
        NewLineIsSkipped(rest);
      } else {
        assert Encoded(bytes, column) == ByteText(bytes[0]) + rest;
        ByteIsRead(bytes[0], rest);
      }
    }
  }

  lemma NothingDecodes()
    ensures Decoded("") == []
  {}

  /** Hex file round trip: decoding the text of any bytes returns them. */
  lemma HexRoundTrips(bytes: seq<bv8>)
    ensures Decoded(Encoded(bytes, 0)) == bytes
  {
    EncodedIsDecoded(bytes, 0);
  }

  // ----- text in any case, with anything between the bytes

  /** A text of bytes: two digits each, upper or lower case as it comes, and between them stretches that hold no
      digit. */
  datatype Written = Written(high: char, low: char, between: string)

  predicate Writes(w: Written, b: bv8) {
    && IsHexDigit(w.high) && IsHexDigit(w.low) && HexValue(w.high) == Num(b) / 16 && HexValue(w.low) == Num(b) % 16
    && forall k :: 0 <= k < |w.between| ==> !IsHexDigit(w.between[k])
  }

  function TextOf(ws: seq<Written>): string {
    if ws == [] then "" else [ws[0].high, ws[0].low] + ws[0].between + TextOf(ws[1..])
  }

  lemma {:induction false} StretchIsSkipped(s: string, rest: string)
    requires forall k :: 0 <= k < |s| ==> !IsHexDigit(s[k])
    ensures Decoded(s + rest) == Decoded(rest)
    decreases |s|
  {
    hide IsHexDigit, HexValue;
    if s == [] {
      assert s + rest == rest;
    } else {
      var t := s + rest;
      assert t[1..] == s[1..] + rest && t[0] == s[0];
      StretchIsSkipped(s[1..], rest);
      if |t| < 2 {
        assert rest == [];
      }
    }
  }

  lemma PairIsRead(w: Written, b: bv8, rest: string)
    requires Writes(w, b)
    ensures Decoded([w.high, w.low] + rest) == [b] + Decoded(rest)
  {
    hide Num, ByteOf, IsHexDigit, HexValue;
    var s := [w.high, w.low] + rest;
    ByteOfNum(b);
    assert s[2..] == rest;
  }

  /** Decoding any such text returns its bytes. */
  lemma {:induction false} WrittenIsDecoded(ws: seq<Written>, bytes: seq<bv8>)
    requires |ws| == |bytes| && forall k :: 0 <= k < |ws| ==> Writes(ws[k], bytes[k])
    ensures Decoded(TextOf(ws)) == bytes
    decreases |ws|
  {
    hide Decoded, Writes;
    if ws == [] {
      NothingDecodes();
    } else {
      var w := ws[0];
      WrittenIsDecoded(ws[1..], bytes[1..]);
      assert TextOf(ws) == [w.high, w.low] + (w.between + TextOf(ws[1..]));
      PairIsRead(w, bytes[0], w.between + TextOf(ws[1..]));
      NothingBetween(w, bytes[0]);
      StretchIsSkipped(w.between, TextOf(ws[1..]));
    }
  }

  lemma NothingBetween(w: Written, b: bv8)
    requires Writes(w, b)
    ensures forall k :: 0 <= k < |w.between| ==> !IsHexDigit(w.between[k])
  {}

  /** In lower case as well as in upper case. */
  lemma ByteIsWritten(b: bv8, lower: bool)
    ensures var digits := if lower then LOWER_DIGITS else UPPER_DIGITS;
            Num(b) / 16 < 16 && Writes(Written(digits[Num(b) / 16], digits[Num(b) % 16], ""), b)
  {
    hide Num, IsHexDigit, HexValue;
    HexDigitsMean(Num(b) / 16);
    HexDigitsMean(Num(b) % 16);
  }

  // ----- as it runs

  /** `decodeHexString`. */
  method DecodeHexString(data: string) returns (bytes: seq<bv8>)
    ensures bytes == Decoded(data)
  {
    hide ByteOf, HexValue, IsHexDigit;
    bytes := [];
    var i := 0;
    while i + 1 < |data|
      invariant 0 <= i <= |data|
      invariant bytes + Decoded(data[i..]) == Decoded(data)
    {
      assert data[i..][1..] == data[i + 1..] && data[i..][2..] == data[i + 2..];
      if IsHexDigit(data[i]) && IsHexDigit(data[i + 1]) {
        var value := HexValue(data[i]) * 16 + HexValue(data[i + 1]);
        bytes := bytes + [ByteOf(value)];
        i := i + 1;
      }
      i := i + 1;
    }
  }

  /** One byte moves from what is to be written to what is written. */
  lemma EncodedFront(done: string, bytes: seq<bv8>, column: nat)
    requires bytes != [] && column < 3
    ensures var digits := done + [HexDigit(Num(bytes[0]) / 16)] + [HexDigit(Num(bytes[0]) % 16)];
            done + Encoded(bytes, column) ==
            (if column == 2 then digits + "\n" else digits) + Encoded(bytes[1..], (column + 1) % 3)
  {
    hide Num, HexDigit;
    Regroup(done, HexDigit(Num(bytes[0]) / 16), HexDigit(Num(bytes[0]) % 16), if column == 2 then "\n" else "",
            Encoded(bytes[1..], (column + 1) % 3));
  }

  lemma Regroup(done: string, a: char, b: char, mid: string, rest: string)
    ensures done + ([a, b] + mid + rest) == (if mid == "" then done + [a] + [b] else done + [a] + [b] + mid) + rest
  {}

  /** The encoder of `assemble`: a counter starts a new line after every third byte. */
  method EncodeHex(bytes: seq<bv8>) returns (result: string)
    ensures result == Encoded(bytes, 0)
  {
    hide Num, HexDigit, Encoded;
    assert bytes[0..] == bytes && "" + Encoded(bytes, 0) == Encoded(bytes, 0);
    result := "";
    var c := 0;
    for i := 0 to |bytes|
      invariant 0 <= c < 3
      invariant result + Encoded(bytes[i..], c) == Encoded(bytes, 0)
    {
      EncodedFront(result, bytes[i..], c);
      assert bytes[i..][1..] == bytes[i + 1..];
      var byte := Num(bytes[i]);
      result := result + [HexDigit(byte / 16)];
      result := result + [HexDigit(byte % 16)];
      c := c + 1;
      if c >= 3 {
        result := result + "\n";
        c := 0;
      }
    }
    NothingLeft();
    assert bytes[|bytes|..] == [] && result + "" == result;
  }

  lemma NothingLeft()
    ensures Encoded([], 0) == "" && Encoded([], 1) == "" && Encoded([], 2) == ""
  {}
}
