/** The ASCII85 codec: groups of four bytes as five base-85 digits, with truncated last groups. */
module Ascii85 {

  type byte = x: int | 0 <= x < 256

  // ---------- positional notation ----------

  type Base = b: nat | b == 85 || b == 256 witness 85

  function Times(b: Base, v: nat): nat {
    if b == 85 then 85 * v else 256 * v
  }

  function Quot(b: Base, v: nat): (q: nat)
    ensures Times(b, q) <= v < Times(b, q + 1)
  {
    if b == 85 then v / 85 else v / 256
  }

  function Rem(b: Base, v: nat): (r: nat)
    ensures r < b && v == Times(b, Quot(b, v)) + r
  {
    if b == 85 then v % 85 else v % 256
  }

  /** v with k zeros appended. */
  function Up(b: Base, v: nat, k: nat): nat {
    if k == 0 then v else Times(b, Up(b, v, k - 1))
  }

  /** v without its last k digits. */
  function Shift(b: Base, v: nat, k: nat): nat {
    if k == 0 then v else Shift(b, Quot(b, v), k - 1)
  }

  /** The number that the digits stand for, the first one being the most significant. */
  function Value(b: Base, d: seq<nat>): nat {
    if d == [] then 0 else Times(b, Value(b, d[..|d| - 1])) + d[|d| - 1]
  }

  /** The last n digits of v. */
  function Digits(b: Base, v: nat, n: nat): (d: seq<nat>)
    ensures |d| == n && forall i :: 0 <= i < n ==> d[i] < b
  {
    if n == 0 then [] else Digits(b, Quot(b, v), n - 1) + [Rem(b, v)]
  }

  lemma {:induction false} UpLess(b: Base, x: nat, y: nat, k: nat)
    requires x < y
    ensures Up(b, x, k) < Up(b, y, k) && Up(b, x + 1, k) <= Up(b, y, k)
  {
    if k > 0 {
      UpLess(b, x, y, k - 1);
    }
  }

  lemma {:induction false} UpAdd(b: Base, x: nat, y: nat, k: nat)
    ensures Up(b, x + y, k) == Up(b, x, k) + Up(b, y, k)
  {
    if k > 0 {
      UpAdd(b, x, y, k - 1);
    }
  }

  lemma {:induction false} UpTwice(b: Base, v: nat, k: nat)
    ensures Up(b, Times(b, v), k) == Times(b, Up(b, v, k))
  {
    if k > 0 {
      UpTwice(b, v, k - 1);
    }
  }

  /** Dropping k digits rounds down to a multiple of b^k. */
  lemma {:induction false} ShiftBounds(b: Base, v: nat, k: nat)
    ensures Up(b, Shift(b, v, k), k) <= v < Up(b, Shift(b, v, k) + 1, k)
    decreases k
  {
    if k > 0 {
      ShiftBounds(b, Quot(b, v), k - 1);
    }
  }

  lemma ShiftIs(b: Base, v: nat, q: nat, k: nat)
    requires Up(b, q, k) <= v < Up(b, q + 1, k)
    ensures Shift(b, v, k) == q
  {
    ShiftBounds(b, v, k);
    if Shift(b, v, k) < q {
      UpLess(b, Shift(b, v, k), q, k);
    } else if q < Shift(b, v, k) {
      UpLess(b, q, Shift(b, v, k), k);
    }
  }

  lemma {:induction false} ValueDigits(b: Base, v: nat, n: nat)
    requires v < Up(b, 1, n)
    ensures Value(b, Digits(b, v, n)) == v
  {
    if n > 0 {
      var q := Quot(b, v);
      ValueDigits(b, q, n - 1);
      assert Digits(b, v, n)[..n - 1] == Digits(b, q, n - 1);
    }
  }

  lemma {:induction false} DigitsValue(b: Base, d: seq<nat>)
    requires forall i :: 0 <= i < |d| ==> d[i] < b
    ensures Digits(b, Value(b, d), |d|) == d && Value(b, d) < Up(b, 1, |d|)
  {
    if d != [] {
      var init, last := d[..|d| - 1], d[|d| - 1];
      DigitsValue(b, init);
      assert Quot(b, Value(b, d)) == Value(b, init);
      assert d == init + [last];
    }
  }

  lemma {:induction false} DigitsPrefix(b: Base, v: nat, n: nat, k: nat)
    ensures Digits(b, v, n + k)[..n] == Digits(b, Shift(b, v, k), n)
    decreases k
  {
    if k == 0 {
      assert Digits(b, v, n)[..n] == Digits(b, v, n);
    } else {
      DigitsPrefix(b, Quot(b, v), n, k - 1);
      assert Digits(b, v, n + k)[..n] == Digits(b, Quot(b, v), n + (k - 1))[..n];
    }
  }

  function Zeros(k: nat): (z: seq<byte>)
    ensures |z| == k
  {
    seq(k, i => 0)
  }

  lemma {:induction false} ValueZeros(b: Base, d: seq<nat>, k: nat)
    ensures Value(b, d + Zeros(k)) == Up(b, Value(b, d), k)
    decreases k
  {
    if k == 0 {
      assert d + Zeros(0) == d;
    } else {
      ValueZeros(b, d, k - 1);
      var e := d + Zeros(k);
      assert e[..|e| - 1] == d + Zeros(k - 1);
    }
  }

  // ---------- encoding ----------

  /** '!' + digit */
  function Char(d: nat): byte
    requires d < 85
  {
    33 + d
  }

  function Chars(d: seq<nat>): (t: seq<byte>)
    requires forall i :: 0 <= i < |d| ==> d[i] < 85
    ensures |t| == |d|
  {
    seq(|d|, i requires 0 <= i < |d| => Char(d[i]))
  }

  /** The text of one group of 1 to 4 bytes: one digit more than bytes. */
  function GroupText(c: seq<byte>): seq<byte>
    requires 1 <= |c| <= 4
  {
    if c == Zeros(4) then ['z' as int]
    else Chars(Digits(85, Value(256, c + Zeros(4 - |c|)), 5)[..|c| + 1])
  }

  function BodyText(s: seq<byte>): seq<byte> {
    if s == [] then []
    else if |s| < 4 then GroupText(s)
    else GroupText(s[..4]) + BodyText(s[4..])
  }

  function EncodeText(s: seq<byte>): seq<byte> {
    ['<' as int, '~' as int] + BodyText(s) + ['~' as int, '>' as int]
  }

  // ---------- decoding ----------

  /** The text is decoded, refused, or read beyond its end. */
  datatype Result = Bytes(b: seq<byte>) | Nothing | Overrun

  function ToByte(d: nat): byte
    requires d < 256
  {
    d
  }

  function ByteSeq(v: nat, n: nat): (r: seq<byte>)
    ensures |r| == n
  {
    var d := Digits(256, v, n);
    seq(n, i requires 0 <= i < n => ToByte(d[i]))
  }

  /** The bytes of a group of n digits; a missing digit counts as one unit too many of the
      last one present. */
  function GroupBytes(t: seq<nat>): (r: seq<byte>)
    requires 1 <= |t| <= 5
    ensures |r| == |t| - 1
  {
    var v := if |t| == 5 then Value(85, t) else Value(85, t + [85] + Zeros(4 - |t|));
    ByteSeq(v, 4)[..|t| - 1]
  }

  predicate Blank(c: byte) {
    c == 10 || c == 13 || c == 9 || c == 32 || c == 0 || c == 12 || c == 8 || c == 127
  }

  /** Decodes s, given the digits t of the unfinished group and the output so far. */
  function DecodeBody(s: seq<byte>, t: seq<nat>, out: seq<byte>): Result
    requires |t| < 5
    decreases |s|
  {
    if s == [] then Overrun
    else
      var c := s[0];
      if c == 'z' as int then DecodeBody(s[1..], t, out + Zeros(4))
      else if c == '~' as int then
        if |s| >= 2 && s[1] == '>' as int then Bytes(if t == [] then out else out + GroupBytes(t)) else Nothing
      else if Blank(c) then DecodeBody(s[1..], t, out)
      else if c < 33 || c > 117 then Nothing
      else if |t| == 4 then DecodeBody(s[1..], [], out + GroupBytes(t + [c - 33]))
      else DecodeBody(s[1..], t + [c - 33], out)
  }

  function DecodeText(s: seq<byte>): Result {
    if |s| < 2 || s[0] != '<' as int || s[1] != '~' as int then Nothing
    else DecodeBody(s[2..], [], [])
  }

  // ---------- the round trip ----------

  lemma {:induction false} UpUp(b: Base, n: nat, k: nat)
    ensures Up(b, Up(b, 1, n), k) == Up(b, 1, n + k)
  {
    if k > 0 {
      UpUp(b, n, k - 1);
    }
  }

  /** A unit of 85^k is less than one of 256^k. */
  lemma {:induction false} UnitLess(k: nat)
    ensures Up(85, 1, k) <= Up(256, 1, k) && (k > 0 ==> Up(85, 1, k) < Up(256, 1, k))
  {
    if k > 0 {
      UnitLess(k - 1);
    }
  }

  /** Rounding a truncated group up by one unit of 85^k does not reach the next multiple of
      256^k, so the bytes that are kept are not changed. */
  lemma RoundUp(v: nat, k: nat)
    requires k > 0
    ensures Shift(256, Up(85, Shift(85, Up(256, v, k), k) + 1, k), k) == v
  {
    var tuple := Up(256, v, k);
    var q := Shift(85, tuple, k);
    ShiftBounds(85, tuple, k);
    UpAdd(85, q, 1, k);
    UpAdd(256, v, 1, k);
    UnitLess(k);
    ShiftIs(256, Up(85, q + 1, k), v, k);
  }

  /** Five digits are enough for four bytes. */
  lemma FiveDigits()
    ensures Up(256, 1, 4) == 4294967296 && Up(85, 1, 5) == 4437053125
  {
    assert Up(256, 1, 2) == 65536;
    assert Up(85, 1, 3) == 614125;
  }

  lemma TupleBound(c: seq<byte>)
    requires |c| <= 4
    ensures Value(256, c + Zeros(4 - |c|)) < Up(85, 1, 5)
  {
    DigitsValue(256, c + Zeros(4 - |c|));
    FiveDigits();
  }

  lemma ByteSeqIs(v: nat, n: nat, c: seq<byte>)
    requires |c| <= n && Digits(256, v, n)[..|c|] == c
    ensures ByteSeq(v, n)[..|c|] == c
  {
    forall i | 0 <= i < |c| ensures ByteSeq(v, n)[i] == c[i] {
      assert Digits(256, v, n)[..|c|][i] == c[i];
    }
  }

  function GroupDigits(c: seq<byte>): (d: seq<nat>)
    requires 1 <= |c| <= 4
    ensures |d| == |c| + 1 && forall i :: 0 <= i < |d| ==> d[i] < 85
  {
    Digits(85, Value(256, c + Zeros(4 - |c|)), 5)[..|c| + 1]
  }

  lemma FullRound(c: seq<byte>)
    requires |c| == 4
    ensures GroupBytes(GroupDigits(c)) == c
  {
    var v := Value(256, c);
    assert c + Zeros(0) == c;
    TupleBound(c);
    ValueDigits(85, v, 5);
    assert Digits(85, v, 5)[..5] == Digits(85, v, 5);
    DigitsValue(256, c);
    assert Digits(256, v, 4)[..4] == c;
    ByteSeqIs(v, 4, c);
  }

  lemma PartRound(c: seq<byte>)
    requires 1 <= |c| < 4
    ensures GroupBytes(GroupDigits(c)) == c
  {
    hide Digits;
    hide Value;
    hide Up;
    hide Shift;
    hide ByteSeq;
    var m, k := |c|, 4 - |c|;
    var tuple := Value(256, c + Zeros(k));
    ValueZeros(256, c, k);
    TupleBound(c);
    var q := Shift(85, tuple, k);
    DigitsPrefix(85, tuple, m + 1, k);
    var d := GroupDigits(c);
    ShiftSmall(tuple, m + 1, k);
    ValueDigits(85, q, m + 1);
    LastUnit(d, k);
    var v := Up(85, q + 1, k);
    RoundUp(Value(256, c), k);
    DigitsPrefix(256, v, m, k);
    DigitsValue(256, c);
    ByteSeqIs(v, 4, c);
  }

  lemma ShiftSmall(v: nat, n: nat, k: nat)
    requires v < Up(85, 1, n + k)
    ensures Shift(85, v, k) < Up(85, 1, n)
  {
    ShiftBounds(85, v, k);
    UpUp(85, n, k);
    var q := Shift(85, v, k);
    if q > Up(85, 1, n) {
      UpLess(85, Up(85, 1, n), q, k);
    }
  }

  /** The digit 85 that `Ldecode` supplies for a missing one is a unit of the last present. */
  lemma LastUnit(d: seq<nat>, k: nat)
    requires k > 0
    ensures Value(85, d + [85] + Zeros(k - 1)) == Up(85, Value(85, d) + 1, k)
  {
    var e := d + [85];
    assert e[..|e| - 1] == d;
    ValueZeros(85, e, k - 1);
    UpTwice(85, Value(85, d) + 1, k - 1);
  }

  /** Decoding a group inverts encoding it. */
  lemma GroupRound(c: seq<byte>)
    requires 1 <= |c| <= 4
    ensures GroupBytes(GroupDigits(c)) == c
  {
    if |c| == 4 {
      FullRound(c);
    } else {
      PartRound(c);
    }
  }

  /** Reading digits: a fifth one completes the group. */
  lemma {:induction false} Feed(d: seq<nat>, rest: seq<byte>, t: seq<nat>, out: seq<byte>)
    requires |t| < 5 && |t| + |d| <= 5 && (forall i :: 0 <= i < |d| ==> d[i] < 85)
    ensures DecodeBody(Chars(d) + rest, t, out) ==
      if d != [] && |t| + |d| == 5 then DecodeBody(rest, [], out + GroupBytes(t + d)) else DecodeBody(rest, t + d, out)
    decreases |d|
  {
    if d == [] {
      assert Chars(d) + rest == rest && t + d == t;
    } else {
      var s, d' := Chars(d) + rest, d[1..];
      assert s[1..] == Chars(d') + rest;
      assert t + [d[0]] + d' == t + d;
      hide Chars;
      hide GroupBytes;
      if |t| == 4 {
        Feed(d', rest, [], out + GroupBytes(t + [d[0]]));
      } else {
        Feed(d', rest, t + [d[0]], out);
      }
    }
  }

  /** Reading a group: a whole one is put out. */
  lemma ReadGroup(c: seq<byte>, more: seq<byte>, out: seq<byte>)
    requires 1 <= |c| <= 4
    ensures DecodeBody(GroupText(c) + more, [], out) ==
      if |c| == 4 then DecodeBody(more, [], out + c) else DecodeBody(more, GroupDigits(c), out)
  {
    GroupRound(c);
    if c == Zeros(4) {
      assert (GroupText(c) + more)[1..] == more;
    } else {
      Feed(GroupDigits(c), more, [], out);
      assert [] + GroupDigits(c) == GroupDigits(c);
    }
  }

  lemma {:induction false} BodyRound(s: seq<byte>, out: seq<byte>)
    ensures DecodeBody(BodyText(s) + ['~' as int, '>' as int], [], out) == Bytes(out + s)
    decreases |s|
  {
    hide GroupText;
    hide GroupDigits;
    hide GroupBytes;
    hide DecodeBody;
    var tail: seq<byte> := ['~' as int, '>' as int];
    if s == [] {
      assert BodyText(s) + tail == tail && out + s == out;
      TailNone(out);
    } else if |s| < 4 {
      GroupRound(s);
      ReadGroup(s, tail, out);
      TailEnd(GroupDigits(s), out);
    } else {
      var c, rest := s[..4], s[4..];
      var more := BodyText(rest) + tail;
      assert BodyText(s) + tail == GroupText(c) + more;
      assert out + c + rest == out + s;
      ReadGroup(c, more, out);
      BodyRound(rest, out + c);
    }
  }

  lemma TailNone(out: seq<byte>)
    ensures DecodeBody(['~' as int, '>' as int], [], out) == Bytes(out)
  {
  }

  lemma TailEnd(t: seq<nat>, out: seq<byte>)
    requires 0 < |t| < 5
    ensures DecodeBody(['~' as int, '>' as int], t, out) == Bytes(out + GroupBytes(t))
  {
  }

  /** Decoding what was encoded gives it back, for every byte string. */
  lemma RoundTrip(s: seq<byte>)
    ensures DecodeText(EncodeText(s)) == Bytes(s)
  {
    var t := EncodeText(s);
    assert t[2..] == BodyText(s) + ['~' as int, '>' as int];
    BodyRound(s, []);
    assert [] + s == s;
  }

  // ---------- other texts ----------

  /** Blanks are ignored everywhere but inside the end mark. */
  lemma {:induction false} BlankIgnored(a: seq<byte>, c: byte, b: seq<byte>, t: seq<nat>, out: seq<byte>)
    requires |t| < 5 && Blank(c) && (a != [] ==> a[|a| - 1] != '~' as int)
    ensures DecodeBody(a + [c] + b, t, out) == DecodeBody(a + b, t, out)
    decreases |a|
  {
    if a == [] {
      assert (a + [c] + b)[1..] == b && a + b == b;
    } else {
      var a' := a[1..];
      assert (a + [c] + b)[1..] == a' + [c] + b && (a + b)[1..] == a' + b;
      var x := a[0];
      if x == '~' as int {
        assert (a + [c] + b)[1] == a[1] == (a + b)[1];
      } else if x == 'z' as int {
        BlankIgnored(a', c, b, t, out + Zeros(4));
      } else if Blank(x) {
        BlankIgnored(a', c, b, t, out);
      } else if 33 <= x <= 117 {
        if |t| == 4 {
          BlankIgnored(a', c, b, [], out + GroupBytes(t + [x - 33]));
        } else {
          BlankIgnored(a', c, b, t + [x - 33], out);
        }
      }
    }
  }

  predicate Accepted(c: byte) {
    c == 'z' as int || Blank(c) || 33 <= c <= 117
  }

  /** The reader runs past the end exactly if nothing in the text stops it. */
  lemma {:induction false} OverrunExactly(s: seq<byte>, t: seq<nat>, out: seq<byte>)
    requires |t| < 5
    ensures DecodeBody(s, t, out) == Overrun <==> forall i :: 0 <= i < |s| ==> Accepted(s[i])
    decreases |s|
  {
    if s != [] {
      var c, r := s[0], s[1..];
      assert (forall i :: 0 <= i < |s| ==> Accepted(s[i])) <==>
        Accepted(c) && (forall i :: 0 <= i < |r| ==> Accepted(r[i])) by {
        if Accepted(c) && (forall i :: 0 <= i < |r| ==> Accepted(r[i])) {
          forall i | 0 <= i < |s| ensures Accepted(s[i]) {
            assert i > 0 ==> s[i] == r[i - 1];
          }
        }
        if forall i :: 0 <= i < |s| ==> Accepted(s[i]) {
          forall i | 0 <= i < |r| ensures Accepted(r[i]) {
            assert r[i] == s[i + 1];
          }
        }
      }
      if c == 'z' as int {
        OverrunExactly(r, t, out + Zeros(4));
      } else if Blank(c) {
        OverrunExactly(r, t, out);
      } else if 33 <= c <= 117 {
        if |t| == 4 {
          OverrunExactly(r, [], out + GroupBytes(t + [c - 33]));
        } else {
          OverrunExactly(r, t + [c - 33], out);
        }
      }
    }
  }

  // ---------- the functions themselves ----------

  /** `luaL_Buffer` */
  class Buffer {
    var data: seq<byte>

    constructor ()
      ensures data == []
    {
      data := [];
    }

    /** `luaL_addlstring` */
    method Add(s: seq<byte>)
      modifies this
      ensures data == old(data) + s
    {
      data := data + s;
    }
  }

  function Group(c: seq<byte>, n: nat): seq<byte>
    requires |c| == 4 && 1 <= n <= 4
  {
    var v := Value(256, c);
    if v == 0 && n == 4 then ['z' as int] else Chars(Digits(85, v, 5)[..n + 1])
  }

  /** `encode` */
  method Encode(b: Buffer, c1: byte, c2: byte, c3: byte, c4: byte, n: nat)
    requires 1 <= n <= 4
    modifies b
    ensures b.data == old(b.data) + Group([c1, c2, c3, c4], n)
  {
    hide Digits;
    hide Value;
    hide Chars;
    var tuple: nat := c4 + 256 * (c3 + 256 * (c2 + 256 * c1));
    TupleIs(c1, c2, c3, c4);
    if tuple == 0 && n == 4 {
      b.Add(['z' as int]);
    } else {
      ghost var v := tuple;
      var s := new byte[5];
      var i := 0;
      while i < 5
        invariant 0 <= i <= 5 && b.data == old(b.data)
        invariant Digits(85, v, 5)[..5 - i] == Digits(85, tuple, 5 - i)
        invariant forall j :: 5 - i <= j < 5 ==> s[j] == Char(Digits(85, v, 5)[j])
      {
        LastDigit(v, tuple, 4 - i);
        s[4 - i] := 33 + tuple % 85;
        tuple := tuple / 85;
        i := i + 1;
      }
      CharsAre(s[..n + 1], Digits(85, v, 5), n + 1);
      b.Add(s[..n + 1]);
    }
  }

  lemma CharsAre(s: seq<byte>, d: seq<nat>, n: nat)
    requires |s| == n <= |d| && (forall i :: 0 <= i < |d| ==> d[i] < 85)
    requires forall i :: 0 <= i < n ==> s[i] == Char(d[i])
    ensures s == Chars(d[..n])
  {
  }

  lemma LastDigit(v: nat, tuple: nat, i: nat)
    requires i < 5 && Digits(85, v, 5)[..i + 1] == Digits(85, tuple, i + 1)
    ensures Digits(85, v, 5)[..i] == Digits(85, tuple / 85, i) && Digits(85, v, 5)[i] == tuple % 85
  {
    var d := Digits(85, v, 5);
    assert d[..i] == d[..i + 1][..i] && d[i] == d[..i + 1][i];
  }

  lemma TupleIs(c1: byte, c2: byte, c3: byte, c4: byte)
    ensures Value(256, [c1, c2, c3, c4]) == c4 + 256 * (c3 + 256 * (c2 + 256 * c1))
  {
    assert [c1, c2, c3, c4][..3] == [c1, c2, c3] && [c1, c2, c3][..2] == [c1, c2] && [c1, c2][..1] == [c1];
    assert Value(256, [c1]) == c1;
    assert Value(256, [c1, c2]) == 256 * c1 + c2;
    assert Value(256, [c1, c2, c3]) == 256 * (256 * c1 + c2) + c3;
  }

  /** Four bytes are zero if their number is. */
  lemma ZeroTuple(c: seq<byte>)
    requires |c| == 4
    ensures Value(256, c) == 0 <==> c == Zeros(4)
  {
    assert c == [c[0], c[1], c[2], c[3]];
    TupleIs(c[0], c[1], c[2], c[3]);
    if Value(256, c) == 0 {
      assert c[0] == 0 && c[1] == 0 && c[2] == 0 && c[3] == 0;
    }
  }

  lemma GroupIs(c: seq<byte>, d: seq<byte>)
    requires 1 <= |c| <= 4 && d == c + Zeros(4 - |c|)
    ensures Group(d, |c|) == GroupText(c)
  {
    hide Digits;
    hide Chars;
    if |c| == 4 {
      assert d == c;
      ZeroTuple(c);
    }
    hide Value;
  }

  lemma WholeGroup(r: seq<byte>)
    requires |r| >= 4
    ensures BodyText(r) == Group(r[..4], 4) + BodyText(r[4..])
  {
    hide Group;
    hide GroupText;
    hide BodyText;
    var c := r[..4];
    assert c == c + Zeros(0);
    BodyUnfold(r);
    GroupIs(c, c);
  }

  lemma BodyUnfold(r: seq<byte>)
    requires |r| >= 4
    ensures BodyText(r) == GroupText(r[..4]) + BodyText(r[4..])
  {
    hide GroupText;
  }

  lemma LastGroup(r: seq<byte>)
    requires 0 < |r| < 4
    ensures BodyText(r) == Group(r + Zeros(4 - |r|), |r|)
  {
    hide Group;
    hide GroupText;
    GroupIs(r, r + Zeros(4 - |r|));
  }

  /** The end of `Lencode`: an unfinished group, filled with zeros. */
  method EncodeTail(b: Buffer, r: seq<byte>)
    requires |r| < 4
    modifies b
    ensures b.data == old(b.data) + BodyText(r)
  {
    hide Group;
    hide GroupText;
    if r != [] {
      LastGroup(r);
    }
    if |r| == 1 {
      assert r + Zeros(3) == [r[0], 0, 0, 0];
      Encode(b, r[0], 0, 0, 0, 1);
    } else if |r| == 2 {
      assert r + Zeros(2) == [r[0], r[1], 0, 0];
      Encode(b, r[0], r[1], 0, 0, 2);
    } else if |r| == 3 {
      assert r + Zeros(1) == [r[0], r[1], r[2], 0];
      Encode(b, r[0], r[1], r[2], 0, 3);
    }
  }

  // ---------- what the text looks like ----------

  /** The bytes as one number, the first one being the most significant; a missing byte is zero. */
  function Number(c: seq<byte>): nat {
    16777216 * At(c, 0) + 65536 * At(c, 1) + 256 * At(c, 2) + At(c, 3)
  }

  function At(c: seq<byte>, i: nat): nat {
    if i < |c| then c[i] else 0
  }

  /** A group is `z` for four zero bytes, and otherwise the digits of its number in base 85, the
      most significant first, from `!` (33) to `u`: one more than there are bytes. */
  ghost predicate Spells(c: seq<byte>, g: seq<byte>)
    requires 1 <= |c| <= 4
  {
    if c == [0, 0, 0, 0] then g == [122]
    else
      var v := Number(c);
      && |g| == |c| + 1
      && g[0] == 33 + v / 52200625
      && g[1] == 33 + v / 614125 % 85
      && (|c| > 1 ==> g[2] == 33 + v / 7225 % 85)
      && (|c| > 2 ==> g[3] == 33 + v / 85 % 85)
      && (|c| > 3 ==> g[4] == 33 + v % 85)
  }

  function Joined(gs: seq<seq<byte>>): seq<byte> {
    if gs == [] then [] else gs[0] + Joined(gs[1..])
  }

  /** The texts of the groups of four bytes, the last of which may be shorter. */
  ghost predicate Grouped(s: seq<byte>, gs: seq<seq<byte>>) {
    && |gs| == (|s| + 3) / 4
    && forall j :: 0 <= j < |gs| ==> Spells(s[4 * j..if 4 * j + 4 < |s| then 4 * j + 4 else |s|], gs[j])
  }

  lemma QuotTwice(v: nat)
    ensures v / 85 / 85 == v / 7225 && v / 85 / 85 / 85 == v / 614125 && v / 85 / 85 / 85 / 85 == v / 52200625
  {
  }

  /** The five digits of a number of four bytes. */
  lemma DigitsAre(v: nat)
    requires v < 4294967296
    ensures Digits(85, v, 5) == [v / 52200625, v / 614125 % 85, v / 7225 % 85, v / 85 % 85, v % 85]
  {
    QuotTwice(v);
    var q1, q2, q3, q4 := v / 85, v / 7225, v / 614125, v / 52200625;
    assert Digits(85, q4, 1) == [q4];
    assert Digits(85, q3, 2) == [q4, q3 % 85];
    assert Digits(85, q2, 3) == [q4, q3 % 85, q2 % 85];
    assert Digits(85, q1, 4) == [q4, q3 % 85, q2 % 85, q1 % 85];
  }

  lemma NumberIs(c: seq<byte>)
    requires 1 <= |c| <= 4
    ensures Value(256, c + Zeros(4 - |c|)) == Number(c) < 4294967296
    ensures c == Zeros(4) <==> c == [0, 0, 0, 0]
  {
    hide Value;
    var d := c + Zeros(4 - |c|);
    assert Zeros(4) == [0, 0, 0, 0];
    assert d == [d[0], d[1], d[2], d[3]];
    TupleIs(d[0], d[1], d[2], d[3]);
    assert d[0] == At(c, 0) && d[1] == At(c, 1) && d[2] == At(c, 2) && d[3] == At(c, 3);
  }

  lemma GroupSpells(c: seq<byte>)
    requires 1 <= |c| <= 4
    ensures Spells(c, GroupText(c))
  {
    hide Value;
    hide Digits;
    NumberIs(c);
    DigitsAre(Number(c));
  }

  lemma {:induction false} BodySpells(s: seq<byte>) returns (gs: seq<seq<byte>>)
    ensures Grouped(s, gs) && BodyText(s) == Joined(gs)
    decreases |s|
  {
    hide GroupText;
    hide Spells;
    if s == [] {
      gs := [];
    } else if |s| < 4 {
      GroupSpells(s);
      gs := [GroupText(s)];
      assert s[0..|s|] == s;
      assert Joined(gs[1..]) == [];
    } else {
      GroupSpells(s[..4]);
      var more := BodySpells(s[4..]);
      gs := [GroupText(s[..4])] + more;
      assert gs[1..] == more;
      forall j | 0 <= j < |gs| ensures Spells(s[4 * j..if 4 * j + 4 < |s| then 4 * j + 4 else |s|], gs[j]) {
        if j > 0 {
          var r := s[4..];
          var end := if 4 * (j - 1) + 4 < |r| then 4 * (j - 1) + 4 else |r|;
          assert r[4 * (j - 1)..end] == s[4 * j..end + 4];
        }
      }
    }
  }

  /** The text begins with `<~`, ends with `~>` and is the groups between them. */
  lemma TextSpelled(s: seq<byte>)
    ensures exists gs :: Grouped(s, gs) && EncodeText(s) == [60, 126] + Joined(gs) + [126, 62]
  {
    hide Grouped;
    var gs := BodySpells(s);
  }

  /** `Lencode` */
  method Lencode(s: seq<byte>) returns (r: seq<byte>)
    ensures r == EncodeText(s)
    ensures exists gs :: Grouped(s, gs) && r == [60, 126] + Joined(gs) + [126, 62]
  {
    TextSpelled(s);
    hide Grouped;
    hide Joined;
    hide Group;
    hide GroupText;
    var b := new Buffer();
    b.Add(['<' as int, '~' as int]);
    var n, i := |s| / 4, 0;
    while n > 0
      invariant 0 <= i && 0 <= n && i + 4 * n <= |s| < i + 4 * n + 4 && i % 4 == 0
      invariant b.data + BodyText(s[i..]) == ['<' as int, '~' as int] + BodyText(s)
    {
      n := n - 1;
      WholeGroup(s[i..]);
      assert s[i..][..4] == [s[i], s[i + 1], s[i + 2], s[i + 3]];
      assert s[i..][4..] == s[i + 4..];
      Encode(b, s[i], s[i + 1], s[i + 2], s[i + 3], 4);
      i := i + 4;
    }
    EncodeTail(b, s[i..]);
    b.Add(['~' as int, '>' as int]);
    return b.data;
  }

  /** `decode` */
  method Decode(b: Buffer, c1: nat, c2: nat, c3: nat, c4: nat, c5: nat, n: nat)
    requires 1 <= n <= 5
    modifies b
    ensures b.data == old(b.data) + ByteSeq(Value(85, [c1, c2, c3, c4, c5]), 4)[..n - 1]
  {
    var tuple := c5 + 85 * (c4 + 85 * (c3 + 85 * (c2 + 85 * c1)));
    CodeIs(c1, c2, c3, c4, c5);
    BytesOf(tuple);
    var m := n - 1;
    var s := new byte[4];
    if m >= 4 {
      s[3] := tuple % 256;
    }
    if m >= 3 {
      s[2] := tuple / 256 % 256;
    }
    if m >= 2 {
      s[1] := tuple / 65536 % 256;
    }
    if m >= 1 {
      s[0] := tuple / 16777216 % 256;
    }
    assert s[..m] == ByteSeq(tuple, 4)[..m];
    b.Add(s[..m]);
  }

  lemma CodeIs(c1: nat, c2: nat, c3: nat, c4: nat, c5: nat)
    ensures Value(85, [c1, c2, c3, c4, c5]) == c5 + 85 * (c4 + 85 * (c3 + 85 * (c2 + 85 * c1)))
  {
    assert [c1, c2, c3, c4, c5][..4] == [c1, c2, c3, c4] && [c1, c2, c3, c4][..3] == [c1, c2, c3];
    assert [c1, c2, c3][..2] == [c1, c2] && [c1, c2][..1] == [c1];
    assert Value(85, [c1]) == c1;
    assert Value(85, [c1, c2]) == 85 * c1 + c2;
    assert Value(85, [c1, c2, c3]) == 85 * (85 * c1 + c2) + c3;
    assert Value(85, [c1, c2, c3, c4]) == 85 * (85 * (85 * c1 + c2) + c3) + c4;
  }

  lemma BytesOf(v: nat)
    ensures ByteSeq(v, 4) == [v / 16777216 % 256, v / 65536 % 256, v / 256 % 256, v % 256]
  {
    var v1, v2, v3 := v / 256, v / 256 / 256, v / 256 / 256 / 256;
    assert v2 == v / 65536 && v3 == v / 16777216;
    assert Digits(256, v3, 1) == [v3 % 256];
    assert Digits(256, v2, 2) == [v3 % 256, v2 % 256];
    assert Digits(256, v1, 3) == [v3 % 256, v2 % 256, v1 % 256];
    assert Digits(256, v, 4) == [v3 % 256, v2 % 256, v1 % 256, v % 256];
  }

  /** `Ldecode`; reading at |s| gives the terminating zero, reading beyond is an overrun. */
  method Ldecode(s: seq<byte>) returns (r: Result)
    ensures r == DecodeText(s)
  {
    if |s| == 0 || s[0] != '<' as int {
      return Nothing;
    }
    if |s| == 1 || s[1] != '~' as int {
      return Nothing;
    }
    var b := new Buffer();
    var n, t := 0, new nat[5];
    var i := 2;
    while true
      invariant 2 <= i <= |s| + 1 && 0 <= n < 5 && t.Length == 5
      invariant DecodeBody(s[2..], [], []) == DecodeBody(if i <= |s| then s[i..] else [], t[..n], b.data)
      decreases |s| + 1 - i
    {
      if i > |s| {
        return Overrun;
      }
      var c: byte := if i < |s| then s[i] else 0;
      ghost var rest := s[i..];
      assert i < |s| ==> rest[0] == c && rest[1..] == s[i + 1..];
      i := i + 1;
      if c == 'z' as int {
        b.Add([0, 0, 0, 0]);
        assert [0, 0, 0, 0] == Zeros(4);
      } else if c == '~' as int {
        if i >= |s| || s[i] != '>' as int {
          return Nothing;
        }
        Flush(b, t, n);
        return Bytes(b.data);
      } else if Blank(c) {
      } else {
        if c < 33 || c > 117 {
          return Nothing;
        }
        ghost var t0 := t[..n];
        t[n] := c - 33;
        n := n + 1;
        assert t[..n] == t0 + [c - 33];
        if n == 5 {
          assert t[..5] == [t[0], t[1], t[2], t[3], t[4]];
          Decode(b, t[0], t[1], t[2], t[3], t[4], 5);
          n := 0;
        }
      }
    }
  }

  /** The end of `Ldecode`: the digits of an unfinished group. */
  method Flush(b: Buffer, t: array<nat>, n: nat)
    requires n < 5 && t.Length == 5
    modifies b
    ensures b.data == if n == 0 then old(b.data) else old(b.data) + GroupBytes(t[..n])
  {
    if n == 1 {
      assert t[..1] + [85] + Zeros(3) == [t[0], 85, 0, 0, 0];
      Decode(b, t[0], 85, 0, 0, 0, 1);
    } else if n == 2 {
      assert t[..2] + [85] + Zeros(2) == [t[0], t[1], 85, 0, 0];
      Decode(b, t[0], t[1], 85, 0, 0, 2);
    } else if n == 3 {
      assert t[..3] + [85] + Zeros(1) == [t[0], t[1], t[2], 85, 0];
      Decode(b, t[0], t[1], t[2], 85, 0, 3);
    } else if n == 4 {
      assert t[..4] + [85] + Zeros(0) == [t[0], t[1], t[2], t[3], 85];
      Decode(b, t[0], t[1], t[2], t[3], 85, 4);
    }
  }
}
