/** The input buffer of the scanner: a window over a byte sequence, and UTF-8 decoding. */
module GcodeBuffer {

  type byte = x: int | 0 <= x < 256

  const EoF: int := 65536
  const INT_MAX: int := 2147483647
  const MIN_BUFFER: nat := 1024
  const MAX_BUFFER: nat := 65536

  function Min(a: nat, b: nat): nat {
    if a < b then a else b
  }

  /** What is read at a position: a byte, or the end of the file. */
  function ByteAt(file: seq<byte>, pos: int): int {
    if 0 <= pos < |file| then file[pos] else EoF
  }

  class Buffer {
    var buf: array<byte>
    var bufStart: int
    var bufLen: nat
    var fileLen: nat
    var bufPos: int
    var stream: bool          // a seekable stream is open
    const file: seq<byte>     // what the stream, or the memory, holds

    ghost predicate Valid()
      reads this, buf
    {
      && fileLen == |file| && 0 <= bufStart && bufLen <= buf.Length
      && bufStart + bufLen <= fileLen && 0 <= bufPos <= bufLen && bufStart + bufPos <= fileLen
      && buf[..bufLen] == file[bufStart..bufStart + bufLen]
      && (if stream then buf.Length > 0 && fileLen > 0 else bufStart == 0 && bufLen == fileLen)
    }

    /** The abstract cursor. */
    ghost function Cursor(): int
      reads this
    {
      bufStart + bufPos
    }

    /** A copy of bytes in memory; the empty one, too, is at position 0. */
    constructor FromMemory(bytes: seq<byte>)
      ensures file == bytes && Cursor() == 0 && !stream && fresh(buf)
      ensures Valid()
    {
      file := bytes;
      buf := new byte[|bytes|](i requires 0 <= i < |bytes| => bytes[i]);
      bufStart, bufLen, fileLen, bufPos, stream := 0, |bytes|, |bytes|, 0, false;
      new;
      assert buf[..|bytes|] == bytes;
    }

    /** What an empty stream leaves: the window has never been moved to a position. */
    ghost predicate Unset()
      reads this
    {
      fileLen == |file| == 0 && bufLen == bufPos == 0 && bufStart == INT_MAX
    }

    /** A seekable stream; a small one that is not the user's is read at once and closed.  For
        an empty one the position is not 0 but what marks an empty window. */
    constructor FromStream(bytes: seq<byte>, isUserStream: bool)
      ensures file == bytes && fresh(buf)
      ensures bytes != [] ==> Valid() && Cursor() == 0
      ensures bytes == [] ==> Unset() && Cursor() == INT_MAX
    {
      file := bytes;
      fileLen := |bytes|;
      var len := if |bytes| < MAX_BUFFER then |bytes| else MAX_BUFFER;
      buf := new byte[if len > 0 then len else MIN_BUFFER];
      bufStart, bufLen, bufPos, stream := INT_MAX, len, 0, true;
      new;
      if |bytes| > 0 {
        Fetch(0);  // what SetPos(0) does here
      } else {
        bufPos := 0;
      }
      if bufLen == fileLen && !isUserStream {
        stream := false;
      }
    }

    /** `fseek` and `fread`: the window is moved to value */
    method Fetch(value: nat)
      requires value <= |file| == fileLen
      modifies this`bufLen, this`bufStart, this`bufPos, buf
      ensures bufStart == value && bufPos == 0 && bufLen == Min(buf.Length, fileLen - value)
      ensures buf[..bufLen] == file[value..value + bufLen]
    {
      bufLen := Min(buf.Length, fileLen - value);
      forall i | 0 <= i < bufLen {
        buf[i] := file[value + i];
      }
      bufStart, bufPos := value, 0;
    }

    method GetPos() returns (pos: int)
      ensures pos == Cursor()
    {
      return bufPos + bufStart;
    }

    /** `SetPos`: a position outside the file ends the program */
    method SetPos(value: int) returns (ok: bool)
      requires Valid() || Unset()
      modifies this`bufLen, this`bufStart, this`bufPos, buf
      ensures ok == (0 <= value <= |file|) && (ok ==> Cursor() == value) && (!ok ==> Cursor() == old(Cursor()))
      ensures old(Valid()) ==> Valid() && (ok && value < fileLen ==> bufPos < bufLen)
    {
      if value < 0 || value > fileLen {
        return false;
      }
      if value >= bufStart && value < bufStart + bufLen {
        bufPos := value - bufStart;
      } else if stream {
        Fetch(value);
      } else {
        bufPos := fileLen - bufStart;
      }
      return true;
    }

    /** The byte at the cursor; before the end of the file there is one. */
    method Read() returns (ch: int)
      requires Valid() || Unset()
      modifies this`bufLen, this`bufStart, this`bufPos, buf
      ensures old(Valid()) ==> Valid() && ch == ByteAt(file, old(Cursor()))
      ensures old(Unset()) ==> Unset() && ch == EoF
      ensures Cursor() == if old(Cursor()) < |file| then old(Cursor()) + 1 else old(Cursor())
    {
      if bufPos < bufLen {
        ch := Take();
      } else {
        var pos := GetPos();
        if pos < fileLen {
          var ok := SetPos(pos);
          ch := Take();
        } else {
          return EoF;
        }
      }
    }

    method Take() returns (ch: byte)
      requires Valid() && bufPos < bufLen
      modifies this`bufPos
      ensures Valid() && ch == file[old(Cursor())] && Cursor() == old(Cursor()) + 1
    {
      assert buf[..bufLen][bufPos] == file[bufStart + bufPos];
      bufPos := bufPos + 1;
      return buf[bufPos - 1];
    }

    /** `Peek`: the cursor is back where it was; behind an empty stream it never was in the
        file, and the program ends */
    method Peek() returns (ch: int, ok: bool)
      requires Valid() || Unset()
      modifies this`bufLen, this`bufStart, this`bufPos, buf
      ensures old(Valid()) ==> Valid() && ok && ch == ByteAt(file, Cursor())
      ensures old(Unset()) ==> !ok
      ensures Cursor() == old(Cursor())
    {
      var curPos := GetPos();
      ch := Read();
      ok := SetPos(curPos);
    }

    /** `UTF8Buffer::Read` */
    method ReadUtf8() returns (ch: int)
      requires Valid()
      modifies this`bufLen, this`bufStart, this`bufPos, buf
      ensures Valid() && (ch, Cursor()) == Utf8At(file, old(Cursor()))
    {
      hide Valid;
      hide Unset;
      hide Compose;
      CursorIn();
      ch := Read();
      CursorIn();
      while ch >= 128 && ch / 64 % 4 != 3 && ch != EoF
        invariant Valid() && 0 <= old(Cursor()) <= |file| && 0 <= Cursor() <= |file| && (ch == EoF || 0 <= ch < 256)
        invariant Utf8At(file, old(Cursor())) == Utf8From(file, ch, Cursor())
        decreases |file| - Cursor(), if ch == EoF then 0 else 1
      {
        Masks(ch);
        SkipOne(file, ch, Cursor());
        ch := Read();
        CursorIn();
      }
      if ch != EoF {
        Masks(ch);
      }
      hide Utf8At;
      ch := Continue(ch);
    }

    /** The bytes behind a lead byte */
    method Continue(lead: int) returns (ch: int)
      requires Valid() && 0 <= Cursor() <= |file| && (lead == EoF || 0 <= lead < 256) && Length(lead) > 0
      modifies this`bufLen, this`bufStart, this`bufPos, buf
      ensures Valid() && (ch, Cursor()) == Utf8From(file, lead, old(Cursor()))
    {
      hide Valid;
      hide Unset;
      hide Compose;
      hide ByteAt;
      ch := lead;
      if ch != EoF {
        Masks(ch);
      }
      ComposeIs(ch);
      if ch < 128 || ch == EoF {
      } else if ch / 16 % 16 == 15 {
        var c1 := ch % 8;
        ch := Read();
        var c2 := ch % 64;
        ch := Read();
        var c3 := ch % 64;
        ch := Read();
        var c4 := ch % 64;
        ch := ((c1 * 64 + c2) * 64 + c3) * 64 + c4;
      } else if ch / 32 % 8 == 7 {
        var c1 := ch % 16;
        ch := Read();
        var c2 := ch % 64;
        ch := Read();
        var c3 := ch % 64;
        ch := (c1 * 64 + c2) * 64 + c3;
      } else if ch / 64 % 4 == 3 {
        var c1 := ch % 32;
        ch := Read();
        var c2 := ch % 64;
        ch := c1 * 64 + c2;
      }
    }

    lemma CursorIn()
      requires Valid()
      ensures 0 <= Cursor() <= |file|
    {
    }
  }

  // ---------- UTF-8 ----------

  function Ahead(file: seq<byte>, pos: int): int {
    if pos < |file| then pos + 1 else pos
  }

  /** How many bytes the lead byte announces; 0 for a continuation byte. */
  function Length(ch: int): nat {
    if ch < 128 || ch == EoF then 1 else if ch < 192 then 0 else if ch < 224 then 2 else if ch < 240 then 3 else 4
  }

  /** The bit masks of the source. */
  lemma Masks(ch: int)
    requires 0 <= ch < 256
    ensures ch / 64 % 4 == 3 <==> ch >= 192
    ensures ch / 32 % 8 == 7 <==> ch >= 224
    ensures ch / 16 % 16 == 15 <==> ch >= 240
  {
  }

  function Compose(ch: int, c1: int, c2: int, c3: int): int {
    match Length(ch)
    case 4 => ((ch % 8 * 64 + c1) * 64 + c2) * 64 + c3
    case 3 => (ch % 16 * 64 + c1) * 64 + c2
    case 2 => ch % 32 * 64 + c1
    case _ => ch
  }

  lemma ComposeIs(ch: int)
    ensures Length(ch) == 4 ==> forall c1, c2, c3 :: Compose(ch, c1, c2, c3) == ((ch % 8 * 64 + c1) * 64 + c2) * 64 + c3
    ensures Length(ch) == 3 ==> forall c1, c2, c3 :: Compose(ch, c1, c2, c3) == (ch % 16 * 64 + c1) * 64 + c2
    ensures Length(ch) == 2 ==> forall c1, c2, c3 :: Compose(ch, c1, c2, c3) == ch % 32 * 64 + c1
    ensures Length(ch) == 1 ==> forall c1, c2, c3 :: Compose(ch, c1, c2, c3) == ch
  {
  }

  lemma SkipOne(file: seq<byte>, ch: int, pos: int)
    requires 0 <= pos <= |file| && Length(ch) == 0
    ensures Utf8From(file, ch, pos) == Utf8From(file, ByteAt(file, pos), Ahead(file, pos))
  {
  }

  /** The character at pos, and the position behind it. */
  function Utf8At(file: seq<byte>, pos: int): (int, int)
    requires 0 <= pos <= |file|
    decreases |file| - pos, 1
  {
    Utf8From(file, ByteAt(file, pos), Ahead(file, pos))
  }

  /** The same, when the byte before pos has been read as ch: continuation bytes are skipped. */
  function Utf8From(file: seq<byte>, ch: int, pos: int): (int, int)
    requires 0 <= pos <= |file|
    decreases |file| - pos, if ch == EoF then 0 else 2
  {
    var p1 := Ahead(file, pos);
    var p2 := Ahead(file, p1);
    if Length(ch) == 0 then Utf8From(file, ByteAt(file, pos), p1)
    else
      (Compose(ch, ByteAt(file, pos) % 64, ByteAt(file, p1) % 64, ByteAt(file, p2) % 64),
       match Length(ch)
       case 4 => Ahead(file, p2)
       case 3 => p2
       case 2 => p1
       case _ => pos)
  }

  predicate Scalar(c: int) {
    0 <= c < 0xD800 || 0xE000 <= c < 0x110000
  }

  /** Section 3 of RFC 3629. */
  function Encode(c: int): (b: seq<byte>)
    requires Scalar(c)
    ensures 1 <= |b| <= 4
  {
    if c < 0x80 then [c]
    else if c < 0x800 then [0xC0 + c / 64, 0x80 + c % 64]
    else if c < 0x10000 then [0xE0 + c / 4096, 0x80 + c / 64 % 64, 0x80 + c % 64]
    else [0xF0 + c / 262144, 0x80 + c / 4096 % 64, 0x80 + c / 64 % 64, 0x80 + c % 64]
  }

  /** The examples of section 7 of RFC 3629. */
  lemma EncodeExamples()
    ensures EncodeAll([0x41, 0x2262, 0x391, 0x2E]) == [0x41, 0xE2, 0x89, 0xA2, 0xCE, 0x91, 0x2E]
    ensures EncodeAll([0xD55C, 0x233B4]) == [0xED, 0x95, 0x9C, 0xF0, 0xA3, 0x8E, 0xB4]
  {
    assert EncodeAll([0x391, 0x2E]) == [0xCE, 0x91] + EncodeAll([0x2E]);
    assert EncodeAll([0x2262, 0x391, 0x2E]) == [0xE2, 0x89, 0xA2] + EncodeAll([0x391, 0x2E]);
    assert EncodeAll([0x233B4]) == [0xF0, 0xA3, 0x8E, 0xB4];
  }

  lemma ComposeTwo(c: int, c2: int, c3: int)
    requires 0x80 <= c < 0x800
    ensures Length(0xC0 + c / 64) == 2 && Compose(0xC0 + c / 64, (0x80 + c % 64) % 64, c2, c3) == c
  {
    var q, r := c / 64, c % 64;
    assert (0xC0 + q) % 32 == q && (0x80 + r) % 64 == r;
  }

  lemma ComposeThree(c: int, c3: int)
    requires 0x800 <= c < 0x10000
    ensures Length(0xE0 + c / 4096) == 3
    ensures Compose(0xE0 + c / 4096, (0x80 + c / 64 % 64) % 64, (0x80 + c % 64) % 64, c3) == c
  {
    var q, m, r := c / 4096, c / 64 % 64, c % 64;
    assert c / 64 == q * 64 + m;
    assert (0xE0 + q) % 16 == q && (0x80 + m) % 64 == m && (0x80 + r) % 64 == r;
  }

  lemma ComposeFour(c: int)
    requires 0x10000 <= c < 0x110000
    ensures Length(0xF0 + c / 262144) == 4
    ensures Compose(0xF0 + c / 262144, (0x80 + c / 4096 % 64) % 64, (0x80 + c / 64 % 64) % 64,
                    (0x80 + c % 64) % 64) == c
  {
    var q, k, m, r := c / 262144, c / 4096 % 64, c / 64 % 64, c % 64;
    var d := c / 64;
    assert d / 64 == c / 4096 && c / 4096 == q * 64 + k;
    assert d == d / 64 * 64 + m;
    assert (0xF0 + q) % 8 == q && (0x80 + k) % 64 == k && (0x80 + m) % 64 == m && (0x80 + r) % 64 == r;
  }

  lemma ComposeEncode(c: int, c1: int, c2: int, c3: int)
    requires Scalar(c)
    requires var e := Encode(c);
      (|e| > 1 ==> c1 == e[1] % 64) && (|e| > 2 ==> c2 == e[2] % 64) && (|e| > 3 ==> c3 == e[3] % 64)
    ensures Length(Encode(c)[0]) == |Encode(c)| && Compose(Encode(c)[0], c1, c2, c3) == c
  {
    hide Compose;
    ComposeIs(c);
    if c < 0x80 {
    } else if c < 0x800 {
      ComposeTwo(c, c2, c3);
    } else if c < 0x10000 {
      ComposeThree(c, c3);
    } else {
      ComposeFour(c);
    }
  }

  lemma BytesOf(pre: seq<byte>, e: seq<byte>, rest: seq<byte>, i: nat)
    requires i < |e|
    ensures ByteAt(pre + e + rest, |pre| + i) == e[i] && Ahead(pre + e + rest, |pre| + i) == |pre| + i + 1
  {
  }

  /** Reading the encoding of a character gives the character. */
  lemma EncodeRead(pre: seq<byte>, c: int, rest: seq<byte>)
    requires Scalar(c)
    ensures Utf8At(pre + Encode(c) + rest, |pre|) == (c, |pre| + |Encode(c)|)
  {
    var file, n, e := pre + Encode(c) + rest, |pre|, Encode(c);
    forall i: nat | i < |e| ensures ByteAt(file, n + i) == e[i] && Ahead(file, n + i) == n + i + 1 {
      BytesOf(pre, e, rest, i);
    }
    assert ByteAt(file, n + 0) == e[0];
    ComposeEncode(c, ByteAt(file, n + 1) % 64, ByteAt(file, n + 2) % 64, ByteAt(file, n + 3) % 64);
    hide Encode;
    hide Compose;
    hide ByteAt;
    hide Ahead;
    assert Ahead(file, n + 0) == n + 1;
    if |e| > 1 {
      assert Ahead(file, n + 1) == n + 2;
    }
    if |e| > 2 {
      assert Ahead(file, n + 2) == n + 3;
    }
    if |e| > 3 {
      assert Ahead(file, n + 3) == n + 4;
    }
  }

  function EncodeAll(cs: seq<int>): seq<byte>
    requires forall i :: 0 <= i < |cs| ==> Scalar(cs[i])
  {
    if cs == [] then [] else Encode(cs[0]) + EncodeAll(cs[1..])
  }

  /** What a reader gets that stops when it is told that the file has ended. */
  function ReadAll(file: seq<byte>, pos: int): seq<int>
    requires 0 <= pos <= |file|
    decreases |file| - pos
  {
    var (c, next) := Utf8At(file, pos);
    if c == EoF || next <= pos || next > |file| then [] else [c] + ReadAll(file, next)
  }

  /** One character and what comes behind it. */
  lemma ReadFirst(pre: seq<byte>, c: int, rest: seq<byte>)
    requires Scalar(c)
    ensures var file := pre + Encode(c) + rest; var next := pre + Encode(c);
      ReadAll(file, |pre|) == if c == EoF then [] else [c] + ReadAll(next + rest, |next|)
  {
    hide Utf8At;
    hide ByteAt;
    EncodeRead(pre, c, rest);
    assert |Encode(c)| > 0;
    hide Encode;
  }

  lemma ReadNone(pre: seq<byte>)
    ensures ReadAll(pre + [], |pre|) == []
  {
    assert ByteAt(pre + [], |pre|) == EoF;
  }

  lemma {:induction false} ReadAllPrefix(pre: seq<byte>, cs: seq<int>)
    requires forall i :: 0 <= i < |cs| ==> Scalar(cs[i])
    ensures var r := ReadAll(pre + EncodeAll(cs), |pre|);
      r <= cs && (|r| < |cs| ==> cs[|r|] == EoF) && EoF !in r
    decreases |cs|
  {
    hide Encode;
    hide ReadAll;
    hide Scalar;
    if cs == [] {
      ReadNone(pre);
    } else {
      ReadFirst(pre, cs[0], EncodeAll(cs[1..]));
      assert pre + EncodeAll(cs) == pre + Encode(cs[0]) + EncodeAll(cs[1..]);
      if cs[0] != EoF {
        ReadAllPrefix(pre + Encode(cs[0]), cs[1..]);
        assert cs == [cs[0]] + cs[1..];
      }
    }
  }

  /** Reading the encoding of a text returns the text if and only if the text does not contain
      U+10000, whose code the buffer uses to report the end of the file. */
  lemma Utf8RoundTrip(cs: seq<int>)
    requires forall i :: 0 <= i < |cs| ==> Scalar(cs[i])
    ensures ReadAll(EncodeAll(cs), 0) == cs <==> EoF !in cs
  {
    ReadAllPrefix([], cs);
    assert [] + EncodeAll(cs) == EncodeAll(cs);
  }
}
