/** Decoding of chunked transfers (`decodeChunkedTransfer`), measured against the
    chunked coding of section 7.1 of RFC 9112. Text is bytes. */
module Chunked {
  import opened Machine
  import opened Tokens

  const LF: Byte := 10
  const CR: Byte := 13
  const U32: int := 0x1_0000_0000

  type Bytes = seq<Byte>

  // ------------------------------------------------ stream operations

  /** Length of the line that `getline` takes from the rest of the stream. */
  function LineLength(rest: Bytes): (n: nat)
    ensures n <= |rest| && LF !in rest[..n]
    ensures n < |rest| ==> rest[n] == LF
  {
    if rest == [] || rest[0] == LF then 0
    else
      var n := 1 + LineLength(rest[1..]);
      assert rest[..n] == [rest[0]] + rest[1..][..n - 1];
      n
  }

  /** What is left after that line and its line feed. */
  function AfterLine(rest: Bytes): Bytes {
    var n := LineLength(rest);
    if n < |rest| then rest[n + 1..] else []
  }

  function StripCR(line: Bytes): Bytes {
    if line != [] && line[|line| - 1] == CR then line[..|line| - 1] else line
  }

  function Drop(rest: Bytes, n: nat): Bytes {
    if n <= |rest| then rest[n..] else []
  }

  /** A buffer of `n` bytes read from the stream; where the stream ends early the
      buffer keeps what happened to be in it. */
  function ReadInto(rest: Bytes, n: nat, junk: nat -> Byte): (r: Bytes)
    ensures |r| == n
  {
    seq(n, i requires 0 <= i < n => if i < |rest| then rest[i] else junk(i))
  }

  // ------------------------------------------------ hexadecimal extraction

  predicate IsSpace(b: Byte) { b == 32 || 9 <= b <= 13 }

  predicate IsHex(b: Byte) { 48 <= b <= 57 || 65 <= b <= 70 || 97 <= b <= 102 }

  function HexDigit(b: Byte): (d: nat)
    requires IsHex(b)
    ensures d < 16
  {
    if b <= 57 then b - 48 else if b <= 70 then b - 55 else b - 87
  }

  function SkipSpace(s: Bytes): Bytes {
    if s != [] && IsSpace(s[0]) then SkipSpace(s[1..]) else s
  }

  function HexRun(s: Bytes): (n: nat)
    ensures n <= |s| && forall i :: 0 <= i < n ==> IsHex(s[i])
    ensures n < |s| ==> !IsHex(s[n])
  {
    if s != [] && IsHex(s[0]) then 1 + HexRun(s[1..]) else 0
  }

  function HexValue(s: Bytes): nat
    requires forall i :: 0 <= i < |s| ==> IsHex(s[i])
  {
    if s == [] then 0 else 16 * HexValue(s[..|s| - 1]) + HexDigit(s[|s| - 1])
  }

  /** `stream >> std::hex >> value` for a 32-bit unsigned value: blanks, a sign, a
      `0x` prefix, then digits; it fails without digits and on overflow. */
  function ExtractHex(line: Bytes): Option<nat> {
    var s := SkipSpace(line);
    var signed := s != [] && (s[0] == 43 || s[0] == 45);
    var t := if signed then s[1..] else s;
    var digits := if |t| >= 2 && t[0] == 48 && (t[1] == 120 || t[1] == 88) then t[2..] else t;
    var n := HexRun(digits);
    var v := HexValue(digits[..n]);
    if n == 0 || v >= U32 then None
    else if signed && s[0] == 45 && v > 0 then Some(U32 - v)
    else Some(v)
  }

  // ------------------------------------------------ the decoder

  /** One round of the loop: what it appends, and the rest to go on with unless
      the last chunk was met. */
  datatype Round = Stop | Next(emitted: Bytes, rest: Bytes)

  function RoundOn(line: Bytes, after: Bytes, junk: nat -> Byte): Round {
    if line == [] then Next([], after)
    else
      var size := ExtractHex(line);
      if size.None? then Next(line + [LF], after)
      else if size.value == 0 then Stop
      else Next(ReadInto(after, size.value, junk), Drop(after, size.value + 2))
  }

  function Decode(rest: Bytes, junk: nat -> Byte): Bytes
    decreases |rest|
  {
    if rest == [] then []
    else
      match RoundOn(StripCR(rest[..LineLength(rest)]), AfterLine(rest), junk)
      case Stop => []
      case Next(emitted, more) => emitted + Decode(more, junk)
  }

  method DecodeChunkedTransfer(data: Bytes, junk: nat -> Byte) returns (result: Bytes)
    ensures result == Decode(data, junk)
  {
    hide Decode, LineLength, AfterLine, ExtractHex, ReadInto, Drop;
    result := [];
    var rest := data;
    while rest != []
      invariant Decode(data, junk) == result + Decode(rest, junk)
      decreases |rest|
    {
      var line := rest[..LineLength(rest)];
      var after := AfterLine(rest);
      if line != [] && line[|line| - 1] == CR {
        line := line[..|line| - 1];
      }
      RoundStep(result, line, rest, junk);
      if line != [] {
        var size := ExtractHex(line);
        if size.None? {
          result := result + (line + [LF]);
        } else if size.value == 0 {
          return;
        } else {
          result := result + ReadInto(after, size.value, junk);
          after := Drop(after, size.value + 2);
        }
      } else {
        assert result + [] == result;
      }
      rest := after;
    }
    EmptyDecodes(junk);
  }

  lemma EmptyDecodes(junk: nat -> Byte)
    ensures Decode([], junk) == []
  {
  }

  /** What one round does to the result and to the rest of the stream. */
  lemma RoundStep(result: Bytes, line: Bytes, rest: Bytes, junk: nat -> Byte)
    requires rest != [] && line == StripCR(rest[..LineLength(rest)])
    ensures match RoundOn(line, AfterLine(rest), junk)
            case Stop => result + Decode(rest, junk) == result
            case Next(emitted, more) =>
              |more| < |rest| && result + Decode(rest, junk) == (result + emitted) + Decode(more, junk)
  {
    hide ExtractHex, StripCR;
    match RoundOn(line, AfterLine(rest), junk)
    case Stop =>
    case Next(emitted, more) =>
      RoundJoins(result, emitted, rest, more, junk);
  }

  lemma RoundJoins(result: Bytes, emitted: Bytes, rest: Bytes, more: Bytes, junk: nat -> Byte)
    requires rest != []
    requires RoundOn(StripCR(rest[..LineLength(rest)]), AfterLine(rest), junk) == Next(emitted, more)
    ensures result + Decode(rest, junk) == (result + emitted) + Decode(more, junk)
  {
    hide RoundOn, StripCR, LineLength, AfterLine;
    assert Decode(rest, junk) == emitted + Decode(more, junk);
  }

  // ------------------------------------------------ the coding of RFC 9112

  /** A chunk as section 7.1 writes it: size in hexadecimal digits, an optional
      extension (section 7.1.1), CRLF, data, CRLF. */
  datatype Chunk = Chunk(size: Bytes, ext: Bytes, data: Bytes)

  predicate AllHex(s: Bytes) { forall i :: 0 <= i < |s| ==> IsHex(s[i]) }

  /** An extension begins with a semicolon or with blanks before one, and stays on
      its line. */
  predicate IsExtension(ext: Bytes) {
    LF !in ext && (ext == [] || ext[0] == 59 || ext[0] == 32 || ext[0] == 9)
  }

  predicate WellFormed(c: Chunk) {
    && c.size != [] && AllHex(c.size) && HexValue(c.size) == |c.data|
    && IsExtension(c.ext) && 0 < |c.data| < U32 - 1
  }

  function Encode(c: Chunk): Bytes {
    c.size + c.ext + [CR, LF] + c.data + [CR, LF]
  }

  function EncodeAll(chunks: seq<Chunk>): Bytes {
    if chunks == [] then [] else Encode(chunks[0]) + EncodeAll(chunks[1..])
  }

  /** The last chunk: one or more zeros, an optional extension, CRLF. */
  predicate IsLast(zeros: Bytes, ext: Bytes) {
    zeros != [] && (forall i :: 0 <= i < |zeros| ==> zeros[i] == 48) && IsExtension(ext)
  }

  function Payload(chunks: seq<Chunk>): Bytes {
    if chunks == [] then [] else chunks[0].data + Payload(chunks[1..])
  }

  // ------------------------------------------------ decoding undoes encoding

  lemma LineLengthIs(line: Bytes, more: Bytes)
    requires LF !in line
    ensures LineLength(line + [LF] + more) == |line|
  {
    var rest := line + [LF] + more;
    assert rest[|line|] == LF;
  }

  lemma HexRunIs(size: Bytes, ext: Bytes)
    requires AllHex(size) && IsExtension(ext)
    ensures HexRun(size + ext) == |size|
  {
    var s := size + ext;
    assert forall i :: 0 <= i < |size| ==> s[i] == size[i];
    assert ext != [] ==> s[|size|] == ext[0] && !IsHex(s[|size|]);
  }

  /** A size line is read as the number its digits spell. */
  lemma SizeIsRead(size: Bytes, ext: Bytes)
    requires size != [] && AllHex(size) && HexValue(size) < U32 && IsExtension(ext)
    ensures ExtractHex(size + ext) == Some(HexValue(size))
  {
    hide HexValue, HexRun;
    var s := size + ext;
    assert IsHex(size[0]) && s[0] == size[0];
    assert |s| >= 2 ==> s[1] == if |size| >= 2 then size[1] else ext[0];
    assert |size| >= 2 ==> IsHex(size[1]);
    HexRunIs(size, ext);
    assert s[..|size|] == size;
  }

  lemma SizeLine(size: Bytes, ext: Bytes, more: Bytes)
    requires size != [] && AllHex(size) && IsExtension(ext)
    ensures var rest := size + ext + [CR, LF] + more;
            && StripCR(rest[..LineLength(rest)]) == size + ext && AfterLine(rest) == more
  {
    var line := size + ext + [CR];
    var rest := size + ext + [CR, LF] + more;
    assert LF !in line by {
      assert forall i :: 0 <= i < |size| ==> IsHex(size[i]);
    }
    assert rest == line + [LF] + more;
    LineLengthIs(line, more);
    assert rest[..|line|] == line && rest[|line| + 1..] == more;
    assert line[..|line| - 1] == size + ext;
  }

  /** One well-formed chunk is decoded to its data. */
  lemma DecodeChunk(c: Chunk, more: Bytes, junk: nat -> Byte)
    requires WellFormed(c)
    ensures Decode(Encode(c) + more, junk) == c.data + Decode(more, junk)
  {
    hide ExtractHex, StripCR, AfterLine, HexValue;
    var after := c.data + [CR, LF] + more;
    var rest := c.size + c.ext + [CR, LF] + after;
    assert Encode(c) + more == rest;
    SizeLine(c.size, c.ext, after);
    SizeIsRead(c.size, c.ext);
    assert ReadInto(after, |c.data|, junk) == c.data;
    assert Drop(after, |c.data| + 2) == more;
  }

  lemma {:induction false} ZerosAreZero(zeros: Bytes)
    requires forall i :: 0 <= i < |zeros| ==> zeros[i] == 48
    ensures AllHex(zeros) && HexValue(zeros) == 0
  {
    if zeros != [] {
      ZerosAreZero(zeros[..|zeros| - 1]);
    }
  }

  lemma DecodeLast(zeros: Bytes, ext: Bytes, tail: Bytes, junk: nat -> Byte)
    requires IsLast(zeros, ext)
    ensures Decode(zeros + ext + [CR, LF] + tail, junk) == []
  {
    hide ExtractHex, StripCR, AfterLine, HexValue;
    ZerosAreZero(zeros);
    SizeLine(zeros, ext, tail);
    SizeIsRead(zeros, ext);
  }

  /** Decoding an encoded body gives the concatenation of its chunks, whatever
      bytes they hold, and ignores everything after the last chunk. */
  lemma {:induction false} DecodeIsPayload(chunks: seq<Chunk>, zeros: Bytes, ext: Bytes, tail: Bytes, junk: nat -> Byte)
    requires (forall c :: c in chunks ==> WellFormed(c)) && IsLast(zeros, ext)
    ensures Decode(EncodeAll(chunks) + (zeros + ext + [CR, LF] + tail), junk) == Payload(chunks)
  {
    hide Decode, WellFormed, IsLast, Encode;
    var last := zeros + ext + [CR, LF] + tail;
    if chunks == [] {
      assert EncodeAll(chunks) + last == last;
      DecodeLast(zeros, ext, tail, junk);
    } else {
      var more := EncodeAll(chunks[1..]) + last;
      assert EncodeAll(chunks) + last == Encode(chunks[0]) + more;
      DecodeChunk(chunks[0], more, junk);
      DecodeIsPayload(chunks[1..], zeros, ext, tail, junk);
    }
  }

  /** A line that cannot begin a number is data: it is copied with its line feed. */
  lemma PlainLineCopied(line: Bytes, more: Bytes, junk: nat -> Byte)
    requires line != [] && LF !in line && line[|line| - 1] != CR
    requires !IsHex(line[0]) && !IsSpace(line[0]) && line[0] != 43 && line[0] != 45
    ensures Decode(line + [LF] + more, junk) == line + [LF] + Decode(more, junk)
  {
    hide HexValue;
    var rest := line + [LF] + more;
    LineLengthIs(line, more);
    assert rest[..|line|] == line && rest[|line| + 1..] == more;
    assert ExtractHex(line) == None;
  }

  /** Empty lines are skipped, with or without a carriage return. */
  lemma EmptyLineSkipped(more: Bytes, junk: nat -> Byte)
    ensures Decode([LF] + more, junk) == Decode(more, junk)
    ensures Decode([CR, LF] + more, junk) == Decode(more, junk)
  {
    hide ExtractHex;
    LineLengthIs([], more);
    assert [] + [LF] + more == [LF] + more && ([LF] + more)[1..] == more;
    LineLengthIs([CR], more);
    var s := [CR, LF] + more;
    assert [CR] + [LF] + more == s && s[2..] == more && s[..1] == [CR];
    assert StripCR([CR]) == [];
  }
}
