/** What the scanner makes of a byte sequence: blanks and comments, then one token after the
    other. */
module GcodeScan {
  import opened GcodeBuffer

  const NO_SYM: int := 42

  /** `kind` 0 is the end of the file; `pos` is the first byte; `line` starts at 1. */
  datatype Token = Token(kind: int, pos: nat, line: nat, val: seq<int>)

  // ---------- characters ----------

  /** The character at pos; an isolated CR is shown as LF. */
  function Val(s: seq<byte>, pos: nat): int {
    var c := ByteAt(s, pos);
    if c == 13 && ByteAt(s, pos + 1) != 10 then 10 else c
  }

  function Lower(c: int): int {
    if 65 <= c <= 90 then c + 32 else c
  }

  /** The character that the automaton sees. */
  function Ch(s: seq<byte>, pos: nat): int {
    Lower(Val(s, pos))
  }

  /** The number of line ends before n. */
  function LineEnds(s: seq<byte>, n: nat): nat {
    if n == 0 then 0 else LineEnds(s, n - 1) + if Val(s, n - 1) == 10 then 1 else 0
  }

  /** The line of the character at pos; a line end belongs to the line it starts. */
  function LineAt(s: seq<byte>, pos: nat): nat {
    1 + LineEnds(s, pos + 1)
  }

  predicate Letter(c: int) { c == 95 || 97 <= c <= 122 }

  predicate Digit(c: int) { 48 <= c <= 57 }

  /** What may follow in a token of any other characters. */
  predicate Other(c: int) {
    c <= 9 || 11 <= c <= 12 || 14 <= c <= 36 || 38 <= c <= 39 || c == 44 || 58 <= c <= 60 || 62 <= c <= 90
    || c == 92 || c == 96 || 123 <= c <= 65535
  }

  /** The table of start states. */
  function StartState(c: int): int {
    if c == EoF then -1
    else if c == 93 then 20
    else if c == 91 then 19
    else if c == 94 then 18
    else if c == 42 then 17
    else if c == 47 then 16
    else if c == 45 then 15
    else if c == 43 then 14
    else if c == 61 then 13
    else if c == 37 then 12
    else if c == 40 then 11
    else if c == 41 then 21
    else if c == 35 then 10
    else if c == 46 then 4
    else if c == 13 then 7
    else if c == 10 then 6
    else if Digit(c) then 2
    else if Letter(c) then 1
    else if Other(c) then 9
    else 0
  }

  /** Every character starts a token. */
  lemma StartKnown(s: seq<byte>, pos: nat)
    ensures StartState(Ch(s, pos)) != 0 && (Ch(s, pos) == EoF <==> pos >= |s|)
  {
  }

  // ---------- tokens ----------

  datatype Class = Letters | Digits | Others

  predicate In(cls: Class, c: int) {
    match cls
    case Letters => Letter(c)
    case Digits => Digit(c)
    case Others => Other(c)
  }

  /** The end of the longest run of a class from pos. */
  function Run(s: seq<byte>, cls: Class, pos: nat): (end: nat)
    requires pos <= |s|
    ensures pos <= end <= |s|
    ensures forall i :: pos <= i < end ==> In(cls, Ch(s, i))
    ensures !In(cls, Ch(s, end))
    decreases |s| - pos
  {
    if pos < |s| && In(cls, Ch(s, pos)) then Run(s, cls, pos + 1) else pos
  }

  /** Single-letter keywords. */
  function KeywordKind(word: seq<int>): int {
    if |word| != 1 then 1
    else
      match word[0]
      case 103 => 16 case 109 => 17 case 116 => 18 case 115 => 19 case 102 => 20 case 112 => 21 case 100 => 22
      case 101 => 23 case 104 => 24 case 108 => 25 case 110 => 26 case 111 => 27 case 120 => 28 case 121 => 29
      case 122 => 30 case 97 => 31 case 98 => 32 case 99 => 33 case 117 => 34 case 118 => 35 case 119 => 36
      case 105 => 37 case 106 => 38 case 107 => 39 case 114 => 40
      case _ => 1
  }

  function Vals(s: seq<byte>, pos: nat, end: nat): (v: seq<int>)
    requires pos <= end
    ensures |v| == end - pos && forall i :: 0 <= i < |v| ==> v[i] == Val(s, pos + i)
  {
    seq(end - pos, i requires 0 <= i < end - pos => Val(s, pos + i))
  }

  function LowerAll(v: seq<int>): (w: seq<int>)
    ensures |w| == |v| && forall i :: 0 <= i < |v| ==> w[i] == Lower(v[i])
  {
    seq(|v|, i requires 0 <= i < |v| => Lower(v[i]))
  }

  /** Kind and end of the token that starts at pos. */
  function TokenAt(s: seq<byte>, pos: nat): (t: (int, nat))
    requires pos <= |s|
    ensures pos <= t.1 <= |s| && (pos < |s| ==> pos < t.1)
  {
    match StartState(Ch(s, pos))
    case -1 => (0, pos)
    case 1 => var e := Run(s, Letters, pos + 1); (KeywordKind(LowerAll(Vals(s, pos, e))), e)
    case 2 => var e := Run(s, Digits, pos + 1); (2, if Ch(s, e) == 46 then Run(s, Digits, e + 1) else e)
    case 4 => (2, Run(s, Digits, pos + 1))
    case 6 => (4, if Ch(s, pos + 1) == 13 then pos + 2 else pos + 1)
    case 7 => (4, if Ch(s, pos + 1) == 10 then pos + 2 else pos + 1)
    case 9 => (5, Run(s, Others, pos + 1))
    case 10 =>
      if Digit(Ch(s, pos + 1)) then (3, Run(s, Digits, pos + 2))
      else (5, Run(s, Others, pos + 1))
    case 11 => (6, pos + 1)
    case 12 => (7, pos + 1)
    case 13 => (8, pos + 1)
    case 14 => (9, pos + 1)
    case 15 => (10, pos + 1)
    case 16 => (11, pos + 1)
    case 17 => (12, pos + 1)
    case 18 => (13, pos + 1)
    case 19 => (14, pos + 1)
    case 20 => (15, pos + 1)
    case 21 => (41, pos + 1)
    case _ => (NO_SYM, if pos < |s| then pos + 1 else pos)
  }

  // ---------- what lies between tokens ----------

  /** The line end that ends a comment, or the end of the file. */
  function CommentEnd(s: seq<byte>, pos: nat): (end: nat)
    requires pos <= |s|
    ensures pos <= end <= |s| && (end < |s| ==> Ch(s, end) == 10)
    ensures forall i :: pos <= i < end ==> Ch(s, i) != 10
    decreases |s| - pos
  {
    if pos < |s| && Ch(s, pos) != 10 then CommentEnd(s, pos + 1) else pos
  }

  predicate Blank(c: int) { c == 32 || c == 9 }

  /** The start of the next token. */
  function Skip(s: seq<byte>, pos: nat): (start: nat)
    requires pos <= |s|
    ensures pos <= start <= |s|
    decreases |s| - pos
  {
    if pos < |s| && Blank(Ch(s, pos)) then Skip(s, pos + 1)
    else if pos < |s| && Ch(s, pos) == 59 then CommentEnd(s, pos + 1)
    else pos
  }

  /** The next token from pos on, and the position behind it. */
  function NextToken(s: seq<byte>, pos: nat): (Token, nat)
    requires pos <= |s|
  {
    var start := Skip(s, pos);
    var (kind, end) := TokenAt(s, start);
    (Token(kind, start, LineAt(s, start), Stored(Vals(s, start, end))), end)
  }

  // ---------- the text of a token ----------

  /** Bytes in a heap block, which must hold the text of a token. */
  const BLOCK_SIZE: nat := 65536

  /** With its final zero, and four bytes to a character, the text does not fit a block. */
  predicate TooLong(n: nat) {
    (n + 1) * 4 > BLOCK_SIZE
  }

  /** The text as `wcsncpy` copies it: all zeros from the first zero on. */
  function Stored(v: seq<int>): (w: seq<int>)
    ensures |w| == |v| && forall i :: 0 <= i < |v| ==> w[i] == if 0 in v[..i + 1] then 0 else v[i]
  {
    seq(|v|, i requires 0 <= i < |v| => if 0 in v[..i + 1] then 0 else v[i])
  }

  /** Something comes after a zero. */
  predicate CutShort(v: seq<int>) {
    exists i, j :: 0 <= i < j < |v| && v[i] == 0 && v[j] != 0
  }

  /** A text is stored as it is if and only if nothing in it comes after a zero. */
  lemma StoredExactly(v: seq<int>)
    ensures Stored(v) == v <==> !CutShort(v)
  {
    if CutShort(v) {
      var i, j :| 0 <= i < j < |v| && v[i] == 0 && v[j] != 0;
      assert v[..j + 1][i] == 0;
      assert Stored(v)[j] == 0;
    } else {
      forall i | 0 <= i < |v| ensures Stored(v)[i] == v[i] {
        if 0 in v[..i + 1] {
          var j :| 0 <= j < i + 1 && v[..i + 1][j] == 0;
          assert v[j] == 0;
        }
      }
    }
  }

  // ---------- all tokens ----------

  /** All tokens from pos on; the last one is the end of the file. */
  function Tokens(s: seq<byte>, pos: nat): seq<Token>
    requires pos <= |s|
    decreases |s| - pos
  {
    var (t, end) := NextToken(s, pos);
    if Skip(s, pos) == |s| then [t] else [t] + Tokens(s, end)
  }

  /** The tokens that are delivered, and whether these are all: the scanner exits at a token
      that is too long. */
  function Delivered(s: seq<byte>, pos: nat): (seq<Token>, bool)
    requires pos <= |s|
    decreases |s| - pos
  {
    var (t, end) := NextToken(s, pos);
    if TooLong(|t.val|) then ([], false)
    else if Skip(s, pos) == |s| then ([t], true)
    else var (ts, ok) := Delivered(s, end); ([t] + ts, ok)
  }

  /** The tokens delivered of all, up to the first one that is too long. */
  ghost predicate UpToLong(ts: seq<Token>, ok: bool, all: seq<Token>) {
    && ok == (forall k :: 0 <= k < |all| ==> !TooLong(|all[k].val|))
    && (if ok then ts == all else |ts| < |all| && ts == all[..|ts|] && TooLong(|all[|ts|].val|))
    && (forall k :: 0 <= k < |ts| ==> !TooLong(|ts[k].val|))
  }

  lemma OneMore(t: Token, all: seq<Token>, ts: seq<Token>, ok: bool)
    requires UpToLong(ts, ok, all) && !TooLong(|t.val|)
    ensures UpToLong([t] + ts, ok, [t] + all)
  {
    hide TooLong;
    assert forall k :: 0 <= k < |all| ==> ([t] + all)[k + 1] == all[k];
  }

  /** Those before the first token that is too long; all of them if and only if none is. */
  lemma {:induction false} DeliveredExactly(s: seq<byte>, pos: nat)
    requires pos <= |s|
    ensures UpToLong(Delivered(s, pos).0, Delivered(s, pos).1, Tokens(s, pos))
    decreases |s| - pos
  {
    hide Skip;
    hide TokenAt;
    hide TooLong;
    var (t, end) := NextToken(s, pos);
    if TooLong(|t.val|) {
      assert Tokens(s, pos)[0] == t;
    } else if Skip(s, pos) != |s| {
      DeliveredExactly(s, end);
      OneMore(t, Tokens(s, end), Delivered(s, end).0, Delivered(s, end).1);
    }
  }

  /** All bytes are letters: one token, which is too long from 16384 letters on. */
  lemma {:induction false} LettersRun(s: seq<byte>, pos: nat)
    requires pos <= |s| && (forall i :: 0 <= i < |s| ==> s[i] == 97)
    ensures Run(s, Letters, pos) == |s|
    decreases |s| - pos
  {
    if pos < |s| {
      LettersRun(s, pos + 1);
    }
  }

  /** A word of 16384 letters is never delivered. */
  lemma TooLongInput(n: nat)
    requires n >= 16384
    ensures Delivered(seq(n, _ => 97), 0) == ([], false)
  {
    var s: seq<byte> := seq(n, _ => 97);
    assert Ch(s, 0) == 97;
    LettersRun(s, 1);
    assert Skip(s, 0) == 0;
    assert TokenAt(s, 0).1 == n;
  }

  // ---------- nothing is lost ----------

  /** Blanks up to c, and then maybe a comment, which ends before a line end or with the file. */
  ghost predicate GapAt(s: seq<byte>, from: nat, to: nat, c: nat)
    requires from <= to <= |s|
  {
    && from <= c <= to
    && (forall i :: from <= i < c ==> Blank(Ch(s, i)))
    && (c < to ==> Ch(s, c) == 59 && (to == |s| || Ch(s, to) == 10) && forall i :: c < i < to ==> Ch(s, i) != 10)
  }

  ghost predicate Gap(s: seq<byte>, from: nat, to: nat)
    requires from <= to <= |s|
  {
    exists c :: GapAt(s, from, to, c)
  }

  lemma {:induction false} SkipGap(s: seq<byte>, pos: nat)
    requires pos <= |s|
    ensures Gap(s, pos, Skip(s, pos))
    ensures var c := Ch(s, Skip(s, pos)); !Blank(c) && c != 59
    decreases |s| - pos
  {
    var to := Skip(s, pos);
    EndIs(s, |s|);
    hide Ch;
    if pos < |s| && Blank(Ch(s, pos)) {
      SkipGap(s, pos + 1);
      var c :| GapAt(s, pos + 1, to, c);
      assert GapAt(s, pos, to, c);
    } else {
      assert GapAt(s, pos, to, pos);
    }
  }

  lemma EndIs(s: seq<byte>, pos: nat)
    requires pos == |s|
    ensures Ch(s, pos) == EoF
  {
  }

  /** What the input has at a token. */
  function Slice(s: seq<byte>, t: Token): seq<int> {
    Vals(s, t.pos, t.pos + |t.val|)
  }

  /** Gaps and tokens tile s from pos on, and every token has the text that is stored for it. */
  ghost predicate Tiles(s: seq<byte>, pos: nat, ts: seq<Token>)
    decreases |ts|
  {
    && ts != [] && pos <= ts[0].pos <= |s| && Gap(s, pos, ts[0].pos)
    && ts[0].pos + |ts[0].val| <= |s|
    && ts[0].val == Stored(Slice(s, ts[0]))
    && ts[0].line == LineAt(s, ts[0].pos)
    && (if |ts| == 1 then ts[0].kind == 0 && ts[0].pos == |s|
        else ts[0].kind != 0 && ts[0].val != [] && Tiles(s, ts[0].pos + |ts[0].val|, ts[1..]))
  }

  /** Lossless scanning: the tokens with the gaps between them tile the input, up to the end of
      the file; every token has the text stored for its bytes, and its line is right. */
  lemma {:induction false} Lossless(s: seq<byte>, pos: nat)
    requires pos <= |s|
    ensures Tiles(s, pos, Tokens(s, pos))
    decreases |s| - pos
  {
    hide TokenAt;
    hide Skip;
    hide LineEnds;
    hide Gap;
    var (t, end) := NextToken(s, pos);
    SkipGap(s, pos);
    KindKnown(s, t.pos);
    if t.pos < |s| {
      Lossless(s, end);
      assert ([t] + Tokens(s, end))[1..] == Tokens(s, end);
    }
  }

  /** Every token shows its own bytes if and only if none of them has something after a zero. */
  lemma ShownExactly(s: seq<byte>, ts: seq<Token>)
    requires Tiles(s, 0, ts)
    ensures (forall k :: 0 <= k < |ts| ==> ts[k].val == Slice(s, ts[k])) <==>
      forall k :: 0 <= k < |ts| ==> !CutShort(Slice(s, ts[k]))
  {
    hide CutShort;
    hide Slice;
    forall k | 0 <= k < |ts| ensures ts[k].val == Slice(s, ts[k]) <==> !CutShort(Slice(s, ts[k])) {
      TileStored(s, 0, ts, k);
      StoredExactly(Slice(s, ts[k]));
    }
  }

  lemma {:induction false} TileStored(s: seq<byte>, pos: nat, ts: seq<Token>, k: nat)
    requires Tiles(s, pos, ts) && k < |ts|
    ensures ts[k].pos + |ts[k].val| <= |s| && ts[k].val == Stored(Slice(s, ts[k]))
    decreases k
  {
    hide Gap;
    hide LineAt;
    if k > 0 {
      TileStored(s, ts[0].pos + |ts[0].val|, ts[1..], k - 1);
    }
  }

  /** So an input without a zero byte is shown as it is. */
  lemma ShownWithoutZero(s: seq<byte>, ts: seq<Token>)
    requires Tiles(s, 0, ts) && 0 !in s
    ensures forall k :: 0 <= k < |ts| ==> ts[k].val == Slice(s, ts[k])
  {
    forall k | 0 <= k < |ts| ensures !CutShort(Slice(s, ts[k])) {
      TileStored(s, 0, ts, k);
      forall i | 0 <= i < |Slice(s, ts[k])| ensures Slice(s, ts[k])[i] != 0 {
        assert s[ts[k].pos + i] in s;
      }
    }
    ShownExactly(s, ts);
  }

  /** Zero is an ordinary character of a token, but what follows it is not shown. */
  lemma ZeroInput()
    ensures Tokens([58, 0, 58], 0)[0] == Token(5, 0, 1, [58, 0, 0])
    ensures Slice([58, 0, 58], Tokens([58, 0, 58], 0)[0]) == [58, 0, 58]
  {
    var s: seq<byte> := [58, 0, 58];
    assert Ch(s, 0) == 58 && Ch(s, 1) == 0 && Ch(s, 2) == 58 && Ch(s, 3) == EoF;
    assert Run(s, Others, 3) == 3;
    assert Run(s, Others, 2) == 3;
    assert Run(s, Others, 1) == 3;
    assert Skip(s, 0) == 0 && TokenAt(s, 0) == (5, 3);
    var v := Vals(s, 0, 3);
    assert v == [58, 0, 58];
    assert v[..2][1] == 0 && v[..3][1] == 0;
    assert Stored(v) == [58, 0, 0];
    assert LineEnds(s, 1) == LineEnds(s, 0) == 0;
  }

  lemma KindKnown(s: seq<byte>, pos: nat)
    requires pos <= |s|
    ensures if pos < |s| then 0 < TokenAt(s, pos).0 < NO_SYM else TokenAt(s, pos) == (0, pos)
  {
    StartKnown(s, pos);
  }

  // ---------- longest match ----------

  /** Digits with a point at dot, or without one if dot is the end. */
  ghost predicate NumberWith(s: seq<byte>, pos: nat, end: nat, dot: nat) {
    && pos <= dot <= end && (forall i :: pos <= i < dot ==> Digit(Ch(s, i)))
    && (dot < end ==> Ch(s, dot) == 46 && forall i :: dot < i < end ==> Digit(Ch(s, i)))
  }

  ghost predicate AllIn(s: seq<byte>, cls: Class, pos: nat, end: nat) {
    forall i :: pos <= i < end ==> In(cls, Ch(s, i))
  }

  ghost predicate LineEnd(s: seq<byte>, pos: nat, end: nat) {
    || (end == pos + 1 && Ch(s, pos) == 10)
    || (end == pos + 2 && ((Ch(s, pos) == 13 && Ch(s, pos + 1) == 10) || (Ch(s, pos) == 10 && Ch(s, pos + 1) == 13)))
  }

  /** The bytes from pos to end form a token of this kind. */
  ghost predicate Shape(s: seq<byte>, kind: int, pos: nat, end: nat)
    requires pos < end <= |s|
  {
    match kind
    case 2 => exists dot :: NumberWith(s, pos, end, dot)
    case 3 => pos + 1 < end && Ch(s, pos) == 35 && AllIn(s, Digits, pos + 1, end)
    case 4 => LineEnd(s, pos, end)
    case 5 => AllIn(s, Others, pos, end)
    case 6 => end == pos + 1 && Ch(s, pos) == 40
    case 7 => end == pos + 1 && Ch(s, pos) == 37
    case 8 => end == pos + 1 && Ch(s, pos) == 61
    case 9 => end == pos + 1 && Ch(s, pos) == 43
    case 10 => end == pos + 1 && Ch(s, pos) == 45
    case 11 => end == pos + 1 && Ch(s, pos) == 47
    case 12 => end == pos + 1 && Ch(s, pos) == 42
    case 13 => end == pos + 1 && Ch(s, pos) == 94
    case 14 => end == pos + 1 && Ch(s, pos) == 91
    case 15 => end == pos + 1 && Ch(s, pos) == 93
    case 41 => end == pos + 1 && Ch(s, pos) == 41
    case _ => AllIn(s, Letters, pos, end) && KeywordKind(LowerAll(Vals(s, pos, end))) == kind
  }

  lemma LongestNumber(s: seq<byte>, pos: nat, end: nat)
    requires pos < |s| && (StartState(Ch(s, pos)) == 2 || StartState(Ch(s, pos)) == 4)
    requires TokenAt(s, pos).1 <= end <= |s|
    ensures TokenAt(s, pos).0 == 2 && (exists dot :: NumberWith(s, pos, TokenAt(s, pos).1, dot))
    ensures TokenAt(s, pos).1 < end ==> forall dot :: !NumberWith(s, pos, end, dot)
  {
    hide Ch;
    var e := TokenAt(s, pos).1;
    if StartState(Ch(s, pos)) == 4 {
      assert NumberWith(s, pos, e, pos);
      forall dot ensures e < end ==> !NumberWith(s, pos, end, dot) {
        assert !Digit(Ch(s, pos)) && !Digit(Ch(s, e));
      }
    } else {
      var e1 := Run(s, Digits, pos + 1);
      forall i | pos <= i < e1 ensures In(Digits, Ch(s, i)) && Digit(Ch(s, i)) {
      }
      assert !In(Digits, Ch(s, e1)) && !Digit(Ch(s, e1));
      assert !In(Digits, Ch(s, e)) && !Digit(Ch(s, e));
      if Ch(s, e1) == 46 {
        forall i | e1 < i < e ensures Digit(Ch(s, i)) {
          assert In(Digits, Ch(s, i));
        }
      }
      assert NumberWith(s, pos, e, e1);
      forall dot ensures e < end ==> !NumberWith(s, pos, end, dot) {
      }
    }
  }

  lemma LongestRun(s: seq<byte>, cls: Class, pos: nat, end: nat)
    requires pos < |s| && In(cls, Ch(s, pos)) && Run(s, cls, pos + 1) <= end <= |s|
    ensures var e := Run(s, cls, pos + 1); AllIn(s, cls, pos, e) && (e < end ==> !AllIn(s, cls, pos, end))
  {
    hide In;
    hide Ch;
  }

  lemma LongestParam(s: seq<byte>, pos: nat, end: nat)
    requires pos < |s| && Ch(s, pos) == 35 && Digit(Ch(s, pos + 1)) && TokenAt(s, pos).1 <= end <= |s|
    ensures var (kind, e) := TokenAt(s, pos);
      kind == 3 && pos + 1 < e && AllIn(s, Digits, pos + 1, e) && (e < end ==> !AllIn(s, Digits, pos + 1, end))
  {
    assert In(Digits, Ch(s, pos + 1));
    hide Ch;
    LongestRun(s, Digits, pos + 1, end);
  }

  lemma LongestLineEnd(s: seq<byte>, pos: nat, end: nat)
    requires pos < |s| && (Ch(s, pos) == 10 || Ch(s, pos) == 13) && TokenAt(s, pos).1 <= end <= |s|
    ensures var (kind, e) := TokenAt(s, pos); kind == 4 && LineEnd(s, pos, e) && (e < end ==> !LineEnd(s, pos, end))
  {
  }

  lemma Singles(s: seq<byte>, pos: nat, end: nat)
    requires pos < |s| && 11 <= StartState(Ch(s, pos)) <= 21 && pos + 1 <= end <= |s|
    ensures var (kind, e) := TokenAt(s, pos);
      e == pos + 1 && (6 <= kind <= 15 || kind == 41) && Shape(s, kind, pos, e)
        && (e < end ==> !Shape(s, kind, pos, end))
  {
    hide Ch;
  }

  /** A keyword or an identifier. */
  lemma LongestWord(s: seq<byte>, pos: nat, end: nat)
    requires pos < |s| && StartState(Ch(s, pos)) == 1 && TokenAt(s, pos).1 <= end <= |s|
    ensures var (kind, e) := TokenAt(s, pos);
      && (kind == 1 || 16 <= kind <= 40) && Shape(s, kind, pos, e) && (e < end ==> !AllIn(s, Letters, pos, end))
  {
    hide Ch;
    hide Vals;
    LongestRun(s, Letters, pos, end);
  }

  /** The token found has the shape of its kind, and no longer piece of the input has it. */
  lemma LongestMatch(s: seq<byte>, pos: nat, end: nat)
    requires pos < |s| && TokenAt(s, pos).1 <= end <= |s|
    ensures var (kind, e) := TokenAt(s, pos);
      Shape(s, kind, pos, e) && (e < end ==> !Shape(s, kind, pos, end))
  {
    hide TokenAt;
    hide Run;
    StartKnown(s, pos);
    OtherStarts(s, pos);
    hide Ch;
    match StartState(Ch(s, pos))
    case 1 => LongestWord(s, pos, end);
    case 2 => LongestNumber(s, pos, end);
    case 4 => LongestNumber(s, pos, end);
    case 6 => LongestLineEnd(s, pos, end);
    case 7 => LongestLineEnd(s, pos, end);
    case 9 =>
      OtherToken(s, pos);
      LongestRun(s, Others, pos, end);
    case 10 =>
      OtherToken(s, pos);
      if Digit(Ch(s, pos + 1)) {
        LongestParam(s, pos, end);
      } else {
        LongestRun(s, Others, pos, end);
      }
    case _ => Singles(s, pos, end);
  }

  lemma OtherStarts(s: seq<byte>, pos: nat)
    requires pos < |s|
    ensures StartState(Ch(s, pos)) == 9 || StartState(Ch(s, pos)) == 10 ==> In(Others, Ch(s, pos))
    ensures StartState(Ch(s, pos)) == 10 <==> Ch(s, pos) == 35
    ensures StartState(Ch(s, pos)) == 6 <==> Ch(s, pos) == 10
    ensures StartState(Ch(s, pos)) == 7 <==> Ch(s, pos) == 13
    ensures -1 <= StartState(Ch(s, pos)) <= 21 && StartState(Ch(s, pos)) !in {-1, 0, 3, 5, 8}
  {
  }

  lemma OtherToken(s: seq<byte>, pos: nat)
    requires pos < |s|
    ensures StartState(Ch(s, pos)) == 9 || (StartState(Ch(s, pos)) == 10 && !Digit(Ch(s, pos + 1))) ==>
      TokenAt(s, pos) == (5, Run(s, Others, pos + 1))
  {
  }

  // ---------- kinds by character ----------

  /** The keywords in the order of their kinds, from 16 to 40. */
  const LETTERS: string := "gmtsfpdehlnoxyzabcuvwijkr"

  /** The one-character tokens in the order of their kinds, from 6 to 15; `)` is 41. */
  const SIGNS: string := "(%=+-/*^[]"

  /** Letters of both cases and the underscore. */
  predicate InWord(b: byte) {
    65 <= b <= 90 || b == 95 || 97 <= b <= 122
  }

  lemma WordChar(s: seq<byte>, pos: nat)
    requires pos < |s|
    ensures In(Letters, Ch(s, pos)) <==> InWord(s[pos])
    ensures InWord(s[pos]) ==> StartState(Ch(s, pos)) == 1 && Skip(s, pos) == pos
    ensures InWord(s[pos]) ==> Ch(s, pos) == if s[pos] <= 90 then s[pos] + 32 else s[pos]
  {
  }

  lemma {:induction false} WordRun(s: seq<byte>, pos: nat, end: nat)
    requires pos <= end <= |s| && (forall i :: pos <= i < end ==> InWord(s[i])) && (end < |s| ==> !InWord(s[end]))
    ensures Run(s, Letters, pos) == end
    decreases end - pos
  {
    if pos < |s| {
      WordChar(s, pos);
    }
    if pos < end {
      WordRun(s, pos + 1, end);
    }
  }

  predicate IsLetter(b: byte, i: nat)
    requires i < 25
  {
    b == LETTERS[i] as int || b == LETTERS[i] as int - 32
  }

  lemma KindOfLetter(i: nat)
    requires i < 25
    ensures KeywordKind([LETTERS[i] as int]) == 16 + i
  {
  }

  lemma LetterKind(b: byte, c: int)
    requires c == if b <= 90 then b + 32 else b as int
    requires InWord(b)
    ensures forall i :: 0 <= i < 25 && IsLetter(b, i) ==> KeywordKind([c]) == 16 + i
    ensures (forall i :: 0 <= i < 25 ==> !IsLetter(b, i)) ==> KeywordKind([c]) == 1
  {
    forall i | 0 <= i < 25 && IsLetter(b, i) ensures KeywordKind([c]) == 16 + i {
      KindOfLetter(i);
      assert c == LETTERS[i] as int;
    }
    var k := KeywordKind([c]);
    if k != 1 {
      assert LETTERS[k - 16] as int == c;
      assert IsLetter(b, k - 16);
    }
  }

  lemma FirstToken(s: seq<byte>, pos: nat)
    requires pos < |s| && Skip(s, pos) == pos
    ensures var ts := Tokens(s, pos);
      ts[0].pos == pos && ts[0].kind == TokenAt(s, pos).0 && ts[1..] == Tokens(s, TokenAt(s, pos).1)
  {
    hide TokenAt;
    hide Skip;
  }

  lemma WordToken(s: seq<byte>, pos: nat, end: nat)
    requires pos < end <= |s| && (forall i :: pos <= i < end ==> InWord(s[i])) && (end < |s| ==> !InWord(s[end]))
    ensures TokenAt(s, pos) == (KeywordKind(LowerAll(Vals(s, pos, end))), end)
  {
    WordChar(s, pos);
    WordRun(s, pos + 1, end);
    hide KeywordKind;
    hide Ch;
  }

  /** A word that is one of the 25 letters, in upper or lower case, is the keyword of that
      letter; any other word is an identifier. */
  lemma WordKind(s: seq<byte>, pos: nat, end: nat)
    requires pos < end <= |s| && (forall i :: pos <= i < end ==> InWord(s[i])) && (end < |s| ==> !InWord(s[end]))
    ensures var ts := Tokens(s, pos);
      && ts[0].pos == pos && ts[1..] == Tokens(s, end)
      && (forall i :: 0 <= i < 25 && end == pos + 1 && IsLetter(s[pos], i) ==> ts[0].kind == 16 + i)
      && ((end > pos + 1 || forall i :: 0 <= i < 25 ==> !IsLetter(s[pos], i)) ==> ts[0].kind == 1)
  {
    hide IsLetter;
    hide Tokens;
    hide TokenAt;
    WordChar(s, pos);
    WordToken(s, pos, end);
    FirstToken(s, pos);
    LetterKind(s[pos], Ch(s, pos));
    assert end == pos + 1 ==> LowerAll(Vals(s, pos, end)) == [Ch(s, pos)];
  }

  /** Each of the other characters is a token by itself, whatever comes after it. */
  lemma SignKind(s: seq<byte>, pos: nat, i: nat)
    requires pos < |s| && i < 10 && (s[pos] == SIGNS[i] as int || s[pos] == 41)
    ensures var ts := Tokens(s, pos);
      && ts[0].pos == pos && ts[1..] == Tokens(s, pos + 1)
      && ts[0].kind == if s[pos] == 41 then 41 else 6 + i
  {
    hide Tokens;
    hide TokenAt;
    hide Skip;
    hide StartState;
    hide Lower;
    SignStart(s[pos], i);
    SignToken(s, pos);
    FirstToken(s, pos);
  }

  lemma SignStart(c: int, i: nat)
    requires i < 10 && (c == SIGNS[i] as int || c == 41)
    ensures StartState(c) == if c == 41 then 21 else 11 + i
    ensures Lower(c) == c && !Blank(c) && c != 59 && c != 13
  {
  }

  lemma SignToken(s: seq<byte>, pos: nat)
    requires pos < |s| && 11 <= StartState(s[pos]) <= 21
    requires Lower(s[pos]) == s[pos] && !Blank(s[pos]) && s[pos] != 59 && s[pos] != 13
    ensures Skip(s, pos) == pos
    ensures TokenAt(s, pos) == (if StartState(s[pos]) == 21 then 41 else StartState(s[pos]) - 5, pos + 1)
  {
    hide StartState;
    hide Lower;
    assert Val(s, pos) == s[pos];
    assert Ch(s, pos) == s[pos];
    hide Ch;
    hide Run;
  }
}
