/** The scanner as it is written: one character of look-ahead over the buffer, an automaton per
    token, and the text of the token in a growing array. */
module GcodeScanner {
  import opened GcodeBuffer
  import opened GcodeTable
  import opened GcodeScan

  /** `coco_string_hash`, in 32 bits */
  function Hash32(word: seq<int>): bv32 {
    if word == [] then 0 else (Hash32(word[..|word| - 1]) * 7) ^ ((word[|word| - 1] % 65536) as bv32)
  }

  function WordHash(word: seq<int>): nat {
    var h := Hash32(word) as int;
    if h < 0x8000_0000 then h else 0x1_0000_0000 - h
  }

  /** `((unsigned int) key)` */
  function KeyHash(key: int): nat {
    key % 0x1_0000_0000
  }

  function Lookup<K>(entries: map<K, int>, key: K, default: int): int {
    if key in entries then entries[key] else default
  }

  lemma LookupSet<K>(entries: map<K, int>, key: K, val: int, default: int)
    ensures forall c :: Lookup(entries[key := val], c, default) == if c == key then val else Lookup(entries, c, default)
  {
    forall c ensures Lookup(entries[key := val], c, default) == if c == key then val else Lookup(entries, c, default) {
      var more := entries[key := val];
      assert c in more <==> c == key || c in entries;
    }
  }

  /** `start.set` for a range of characters */
  method SetRange(start: Table<int>, lo: int, hi: int, state: int)
    requires start.Valid() && lo <= hi + 1
    modifies start`entries, start.tab
    ensures start.Valid()
    ensures forall c :: Lookup(start.entries, c, 0) == if lo <= c <= hi then state else Lookup(old(start.entries), c, 0)
  {
    var i := lo;
    while i <= hi
      invariant lo <= i <= hi + 1 && start.Valid()
      invariant forall c :: Lookup(start.entries, c, 0) == if lo <= c < i then state
        else Lookup(old(start.entries), c, 0)
    {
      ghost var before := start.entries;
      start.Set(i, state);
      LookupSet(before, i, state, 0);
      assert start.entries == before[i := state];
      i := i + 1;
    }
  }

  /** The table of start states that `Init` builds */
  method InitStart() returns (start: Table<int>)
    ensures start.Valid() && fresh(start) && fresh(start.tab)
    ensures forall c :: 0 <= c <= EoF ==> Lookup(start.entries, c, 0) == StartState(c)
  {
    start := new Table<int>(KeyHash);
    SetClasses(start);
    SetSigns(start);
  }

  method SetClasses(start: Table<int>)
    requires start.Valid() && start.entries == map[]
    modifies start`entries, start.tab
    ensures start.Valid()
    ensures forall c :: 0 <= c <= 65535 ==> Lookup(start.entries, c, 0) == ClassState(c)
  {
    hide start.Valid;
    hide Lookup;
    assert forall c :: Lookup(start.entries, c, 0) == 0 by {
      NoEntry(start.entries);
    }
    SetRange(start, 95, 95, 1);
    SetRange(start, 97, 122, 1);
    SetRange(start, 48, 57, 2);
    SetRange(start, 10, 10, 6);
    SetRange(start, 13, 13, 7);
    SetRange(start, 0, 9, 9);
    SetRange(start, 11, 12, 9);
    SetRange(start, 14, 34, 9);
    SetRange(start, 36, 36, 9);
    SetRange(start, 38, 39, 9);
    SetRange(start, 44, 44, 9);
    SetRange(start, 58, 60, 9);
    SetRange(start, 62, 90, 9);
    SetRange(start, 92, 92, 9);
    SetRange(start, 96, 96, 9);
    SetRange(start, 123, 65535, 9);
  }

  lemma NoEntry(entries: map<int, int>)
    requires entries == map[]
    ensures forall c :: Lookup(entries, c, 0) == 0
  {
  }

  /** The states of the classes, before the single signs are set. */
  function ClassState(c: int): int {
    if Letter(c) then 1 else if Digit(c) then 2 else if c == 10 then 6 else if c == 13 then 7
    else if Other(c) && c != 35 then 9 else 0
  }

  method SetSigns(start: Table<int>)
    requires start.Valid()
    requires forall c :: 0 <= c <= 65535 ==> Lookup(start.entries, c, 0) == ClassState(c)
    modifies start`entries, start.tab
    ensures start.Valid()
    ensures forall c :: 0 <= c <= EoF ==> Lookup(start.entries, c, 0) == StartState(c)
  {
    hide start.Valid;
    hide Lookup;
    SetRange(start, 46, 46, 4);
    SetRange(start, 35, 35, 10);
    SetRange(start, 40, 40, 11);
    SetRange(start, 37, 37, 12);
    SetRange(start, 61, 61, 13);
    SetRange(start, 43, 43, 14);
    SetRange(start, 45, 45, 15);
    SetRange(start, 47, 47, 16);
    SetRange(start, 42, 42, 17);
    SetRange(start, 94, 94, 18);
    SetRange(start, 91, 91, 19);
    SetRange(start, 93, 93, 20);
    SetRange(start, 41, 41, 21);
    SetRange(start, EoF, EoF, -1);
  }

  const KEYWORDS: seq<int> := [103, 109, 116, 115, 102, 112, 100, 101, 104, 108, 110, 111, 120, 121, 122, 97, 98, 99,
                               117, 118, 119, 105, 106, 107, 114]

  method InitKeywords() returns (keywords: Table<seq<int>>)
    ensures keywords.Valid() && fresh(keywords) && fresh(keywords.tab)
    ensures forall word :: Lookup(keywords.entries, word, 1) == KeywordKind(word)
  {
    keywords := new Table<seq<int>>(WordHash);
    hide KindSoFar;
    hide Lookup;
    KeywordsAll();
    NoWord(keywords.entries);
    var i := 0;
    while i < |KEYWORDS|
      invariant 0 <= i <= |KEYWORDS| && keywords.Valid() && fresh(keywords.tab)
      invariant forall word :: Lookup(keywords.entries, word, 1) == KindSoFar(word, i)
    {
      ghost var before := keywords.entries;
      keywords.Set([KEYWORDS[i]], 16 + i);
      KeywordStep(before, keywords.entries, i);
      i := i + 1;
    }
  }

  lemma LookupWord(entries: map<seq<int>, int>, key: seq<int>, val: int, word: seq<int>)
    ensures Lookup(entries[key := val], word, 1) == if word == key then val else Lookup(entries, word, 1)
  {
    var more := entries[key := val];
    assert word in more <==> word == key || word in entries;
  }

  lemma KeywordStep(entries: map<seq<int>, int>, more: map<seq<int>, int>, i: nat)
    requires i < |KEYWORDS| && more == entries[[KEYWORDS[i]] := 16 + i]
    requires forall word :: Lookup(entries, word, 1) == KindSoFar(word, i)
    ensures forall word :: Lookup(more, word, 1) == KindSoFar(word, i + 1)
  {
    hide KindSoFar;
    hide Lookup;
    forall word ensures Lookup(more, word, 1) == KindSoFar(word, i + 1) {
      LookupWord(entries, [KEYWORDS[i]], 16 + i, word);
      KeywordNext(i, word);
    }
  }

  lemma NoWord(entries: map<seq<int>, int>)
    requires entries == map[]
    ensures forall word :: Lookup(entries, word, 1) == 1
  {
  }

  /** The kind of a word once the first i keywords are in the table. */
  function KindSoFar(word: seq<int>, i: nat): int {
    if KeywordKind(word) < 16 + i then KeywordKind(word) else 1
  }

  lemma KeywordNext(i: nat, word: seq<int>)
    requires i < |KEYWORDS|
    ensures KindSoFar(word, i + 1) == if word == [KEYWORDS[i]] then 16 + i else KindSoFar(word, i)
  {
    if |word| == 1 {
      assert word == [word[0]];
    }
  }

  lemma KeywordsAll()
    ensures forall word :: KindSoFar(word, |KEYWORDS|) == KeywordKind(word)
    ensures forall word :: KindSoFar(word, 0) == 1
  {
  }

  const EOL: int := 10

  /** The line of the next character. */
  lemma LineNext(s: seq<byte>, pos: nat)
    ensures LineAt(s, pos) == (if pos == 0 then 1 else LineAt(s, pos - 1)) + if Val(s, pos) == 10 then 1 else 0
    ensures pos >= |s| ==> Val(s, pos) == EoF
  {
    if pos == 0 {
      assert LineEnds(s, 0) == 0;
    }
  }

  lemma EndSeen(s: seq<byte>, pos: nat)
    ensures Ch(s, pos) == EoF <==> pos >= |s|
  {
  }

  lemma ValsNext(s: seq<byte>, from: nat, pos: nat)
    requires from <= pos
    ensures Vals(s, from, pos + 1) == Vals(s, from, pos) + [Val(s, pos)]
  {
  }

  class Scanner {
    const buffer: Buffer
    const start: Table<int>
    const keywords: Table<seq<int>>
    var ch: int           // current character, in lower case
    var valCh: int        // current character, for the token's value
    var pos: int          // its position
    var line: nat
    var oldEols: nat      // line ends that were seen in a comment
    var tval: array<int>  // text of the current token
    var tlen: nat

    ghost function Source(): seq<byte> { buffer.file }

    ghost predicate Tables()
      reads start, start.tab, keywords, keywords.tab
    {
      && start.Valid() && keywords.Valid()
      && (forall c :: 0 <= c <= EoF ==> Lookup(start.entries, c, 0) == StartState(c))
      && (forall word :: Lookup(keywords.entries, word, 1) == KeywordKind(word))
    }

    /** The buffer is one character ahead of the scanner. */
    ghost predicate Ahead()
      reads this, buffer, buffer.buf
    {
      buffer.Valid() && 0 <= pos <= |Source()| && buffer.Cursor() == if pos < |Source()| then pos + 1 else pos
    }

    /** The current character is the one at pos, and its line is known. */
    ghost predicate At(p: int)
      reads this, buffer, buffer.buf
    {
      Ahead() && pos == p && oldEols == 0 && ch == Ch(Source(), pos) && valCh == Val(Source(), pos)
        && line == LineAt(Source(), pos)
    }

    /** `Init`, for a buffer that does not start with a byte order mark */
    constructor (bytes: seq<byte>)
      requires bytes != [] ==> bytes[0] != 0xEF
      ensures Source() == bytes && At(0) && Tables() && tval.Length > 0
      ensures fresh(buffer) && fresh(buffer.buf) && fresh(tval)
    {
      hide StartState;
      hide KeywordKind;
      hide LineAt;
      hide Val;
      hide Ch;
      hide Lookup;
      hide Ahead;
      var b := new Buffer.FromMemory(bytes);
      var states := InitStart();
      var words := InitKeywords();
      buffer, start, keywords := b, states, words;
      tval, tlen := new int[128], 0;
      ch, valCh, pos, line, oldEols := 0, 0, -1, 1, 0;
      new;
      assert Tables();
      hide Tables;
      NextCh();
    }

    /** Reads a character; an isolated CR is replaced */
    method ReadVal() returns (c: int)
      requires buffer.Valid() && 0 <= buffer.Cursor() <= |Source()|
      modifies buffer`bufLen, buffer`bufStart, buffer`bufPos, buffer.buf
      ensures buffer.Valid() && c == Val(Source(), old(buffer.Cursor()))
      ensures buffer.Cursor() == if old(buffer.Cursor()) < |Source()| then old(buffer.Cursor()) + 1
        else old(buffer.Cursor())
    {
      c := buffer.Read();
      if c == 13 {
        var next, ok := buffer.Peek();
        if next != 10 {
          c := EOL;
        }
      }
    }

    /** `NextCh` */
    method NextCh()
      requires buffer.Valid()
      requires oldEols == 0 ==>
        (pos == -1 && line == 1 && buffer.Cursor() == 0) || (Ahead() && line == LineAt(Source(), pos))
      modifies this`ch, this`valCh, this`pos, this`line, this`oldEols
      modifies buffer`bufLen, buffer`bufStart, buffer`bufPos, buffer.buf
      ensures buffer.Valid()
      ensures old(oldEols) == 0 ==> At(if old(pos) < |Source()| then old(pos) + 1 else old(pos))
      ensures old(oldEols) > 0 ==>
        oldEols == old(oldEols) - 1 && ch == valCh == EOL && pos == old(pos) && line == old(line)
      ensures old(oldEols) > 0 ==> buffer.Cursor() == old(buffer.Cursor())
    {
      hide Val;
      hide LineAt;
      hide buffer.Valid;
      if oldEols > 0 {
        ch := EOL;
        oldEols := oldEols - 1;
      } else {
        pos := buffer.GetPos();
        LineNext(Source(), pos);
        ch := ReadVal();
        if ch == EOL {
          line := line + 1;
        }
      }
      valCh := ch;
      if 65 <= ch && ch <= 90 {
        ch := ch - 65 + 97;
      }
    }

    /** The text collected since `from`, while the scanner has come to pos. */
    ghost predicate Collected(from: nat)
      reads this, buffer, buffer.buf, tval
    {
      At(pos) && from <= pos && tlen <= tval.Length && tval.Length > 0 && tval[..tlen] == Vals(Source(), from, pos)
    }

    lemma Seen(from: nat)
      requires Collected(from)
      ensures ch == Ch(Source(), pos) && from <= pos <= |Source()| && (ch == EoF <==> pos == |Source()|)
      ensures tlen <= tval.Length && tval[..tlen] == Vals(Source(), from, pos)
    {
      EndSeen(Source(), pos);
    }

    lemma AtIs(p: int)
      requires At(p)
      ensures pos == p && 0 <= pos <= |Source()| && At(pos) && ch == Ch(Source(), pos) && line == LineAt(Source(), pos)
    {
    }

    /** `AddCh` */
    method AddCh(ghost from: nat)
      requires Collected(from)
      modifies this`ch, this`valCh, this`pos, this`line, this`oldEols, this`tval, this`tlen, tval
      modifies buffer`bufLen, buffer`bufStart, buffer`bufPos, buffer.buf
      ensures Collected(from) && pos == (if old(pos) < |Source()| then old(pos) + 1 else old(pos))
      ensures tval == old(tval) || fresh(tval)
    {
      hide Val;
      hide Vals;
      hide LineAt;
      hide buffer.Valid;
      ghost var text := tval[..tlen];
      if tlen >= tval.Length {
        Grow();
      }
      if ch != EoF {
        ValsNext(Source(), from, pos);
        EndSeen(Source(), pos);
        tval[tlen] := valCh;
        tlen := tlen + 1;
        assert tval[..tlen] == text + [valCh];
        NextCh();
      } else {
        EndSeen(Source(), pos);
      }
    }

    method Grow()
      requires tlen <= tval.Length && tval.Length > 0
      modifies this`tval
      ensures fresh(tval) && tval.Length > tlen && tval[..tlen] == old(tval[..tlen])
    {
      var newBuf := new int[tval.Length * 2];
      forall i | 0 <= i < tlen {
        newBuf[i] := tval[i];
      }
      tval := newBuf;
    }

    /** `Comment0`: skips to the line end that ends the comment, which is then seen again as a
        character of its own; without one, everything is skipped */
    method Comment0() returns (found: bool)
      requires At(pos) && pos < |Source()| && ch == 59
      modifies this`ch, this`valCh, this`pos, this`line, this`oldEols
      modifies buffer`bufLen, buffer`bufStart, buffer`bufPos, buffer.buf
      ensures At(CommentEnd(Source(), old(pos) + 1)) && found == (pos < |Source()|)
    {
      var level, line0 := 1, line;
      ghost var from := pos + 1;
      NextCh();
      while true
        invariant level == 1 && At(pos) && from <= pos && CommentEnd(Source(), from) == CommentEnd(Source(), pos)
        invariant line == line0 + if ch == EOL then 1 else 0
        decreases |Source()| - pos, if ch == EoF then 0 else 1
      {
        if ch == 10 {
          level := level - 1;
          oldEols := line - line0;
          NextCh();
          return true;
        } else if ch == EoF {
          return false;
        } else {
          NextCh();
        }
      }
    }

    /** `case n: ... AddCh(); goto case n;` as long as the class goes on */
    method AddRun(cls: Class, ghost from: nat)
      requires Collected(from)
      modifies this`ch, this`valCh, this`pos, this`line, this`oldEols, this`tval, this`tlen, tval
      modifies buffer`bufLen, buffer`bufStart, buffer`bufPos, buffer.buf
      ensures Collected(from) && pos == Run(Source(), cls, old(pos)) && (tval == old(tval) || fresh(tval))
    {
      hide Val;
      hide Vals;
      while In(cls, ch)
        invariant Collected(from) && Run(Source(), cls, pos) == Run(Source(), cls, old(pos))
        invariant tval == old(tval) || fresh(tval)
        decreases |Source()| - pos
      {
        NotEnd(cls, ch);
        EndSeen(Source(), pos);
        AddCh(from);
      }
      RunStops(Source(), cls, pos);
    }

    /** The state that the current character leads to; it is the first one of the token */
    method BeginToken() returns (state: int)
      requires At(pos) && Tables() && tval.Length > 0
      modifies this`ch, this`valCh, this`pos, this`line, this`oldEols, this`tval, this`tlen, tval
      modifies buffer`bufLen, buffer`bufStart, buffer`bufPos, buffer.buf
      ensures Collected(old(pos)) && pos == (if old(pos) < |Source()| then old(pos) + 1 else old(pos))
      ensures tval == old(tval) || fresh(tval)
      ensures 0 <= old(pos) <= |Source()| && state == StartState(Ch(Source(), old(pos)))
    {
      hide StartState;
      hide Vals;
      hide LineAt;
      ghost var from := pos;
      CharRange(Source(), pos);
      state := start.Get(ch, 0);
      assert Lookup(start.entries, ch, 0) == StartState(ch);
      tlen := 0;
      NoVals(Source(), pos);
      AddCh(from);
    }

    /** The text and kind of the token that starts at the current character */
    method ScanToken() returns (kind: int)
      requires At(pos) && Tables() && tval.Length > 0
      modifies this`ch, this`valCh, this`pos, this`line, this`oldEols, this`tval, this`tlen, tval
      modifies buffer`bufLen, buffer`bufStart, buffer`bufPos, buffer.buf
      ensures Collected(old(pos)) && (kind, pos) == TokenAt(Source(), old(pos)) && (tval == old(tval) || fresh(tval))
    {
      hide TokenAt;
      hide StartState;
      hide Ch;
      hide Collected;
      hide At;
      hide Run;
      hide RunToken;
      hide KeywordKind;
      ghost var from := pos;
      var state := BeginToken();
      TokenCases(Source(), from);
      if state == -1 {
        kind := 0;
      } else if state == 1 {
        kind := ScanWord(from);
      } else if state == 6 || state == 7 {
        kind := 4;
        Seen(from);
        if ch == if state == 6 then 13 else 10 {
          AddCh(from);
        }
      } else if state == 2 || state == 4 || state == 9 || state == 10 {
        kind := ScanRuns(from, state);
      } else {
        kind := if state == 21 then 41 else state - 5;
      }
    }

    /** Identifiers and keywords */
    method ScanWord(ghost from: nat) returns (kind: int)
      requires Collected(from) && from < pos && keywords.Valid()
      requires forall word :: Lookup(keywords.entries, word, 1) == KeywordKind(word)
      modifies this`ch, this`valCh, this`pos, this`line, this`oldEols, this`tval, this`tlen, tval
      modifies buffer`bufLen, buffer`bufStart, buffer`bufPos, buffer.buf
      ensures Collected(from) && pos == Run(Source(), Letters, old(pos)) && (tval == old(tval) || fresh(tval))
      ensures kind == KeywordKind(LowerAll(Vals(Source(), from, pos)))
    {
      hide Collected;
      hide KeywordKind;
      hide Vals;
      AddRun(Letters, from);
      Seen(from);
      var literal := LowerAll(tval[..tlen]);
      kind := keywords.Get(literal, 1);
      assert Lookup(keywords.entries, literal, 1) == KeywordKind(literal);
    }

    /** Numbers, parameters and tokens of other characters */
    method ScanRuns(ghost from: nat, state: int) returns (kind: int)
      requires Collected(from) && pos == from + 1 && state in {2, 4, 9, 10}
      modifies this`ch, this`valCh, this`pos, this`line, this`oldEols, this`tval, this`tlen, tval
      modifies buffer`bufLen, buffer`bufStart, buffer`bufPos, buffer.buf
      ensures Collected(from) && (kind, pos) == RunToken(Source(), from, state) && (tval == old(tval) || fresh(tval))
    {
      hide Collected;
      hide Ch;
      hide Run;
      Seen(from);
      if state == 2 {
        AddRun(Digits, from);
        Seen(from);
        kind := 2;
        if ch == 46 {
          AddCh(from);
          AddRun(Digits, from);
        }
      } else if state == 4 {
        AddRun(Digits, from);
        kind := 2;
      } else if state == 9 {
        AddRun(Others, from);
        kind := 5;
      } else {
        if Digit(ch) {
          AddCh(from);
          AddRun(Digits, from);
          kind := 3;
        } else {
          AddRun(Others, from);
          kind := 5;
        }
      }
    }

    /** The blanks before a token */
    method SkipBlanks()
      requires At(pos)
      modifies this`ch, this`valCh, this`pos, this`line, this`oldEols
      modifies buffer`bufLen, buffer`bufStart, buffer`bufPos, buffer.buf
      ensures At(pos) && Skip(Source(), pos) == Skip(Source(), old(pos)) && pos >= old(pos) && !Blank(ch)
    {
      hide Ch;
      hide Val;
      hide LineAt;
      hide Skip;
      while ch == 32 || ch == 9
        invariant At(pos) && Skip(Source(), pos) == Skip(Source(), old(pos)) && pos >= old(pos)
        decreases |Source()| - pos
      {
        EndSeen(Source(), pos);
        SkipStep(Source(), pos);
        NextCh();
      }
    }

    /** `AppendVal`: the text is copied up to its first zero and padded with zeros; a text
        that does not fit a heap block ends the program */
    method AppendVal() returns (val: seq<int>, ok: bool)
      requires tlen <= tval.Length
      ensures ok == !TooLong(tlen) && (ok ==> val == Stored(tval[..tlen]))
    {
      var reqMem := (tlen + 1) * 4;
      val, ok := [], reqMem <= BLOCK_SIZE;
      var ended := false;
      while ok && |val| < tlen
        invariant ok == !TooLong(tlen) && |val| <= tlen
        invariant ended == (0 in tval[..|val|]) && val == Stored(tval[..|val|])
        decreases tlen - |val|
      {
        assert tval[..|val| + 1] == tval[..|val|] + [tval[|val|]];
        StoredNext(tval[..|val|], tval[|val|]);
        ended := ended || tval[|val|] == 0;
        val := val + [if ended then 0 else tval[|val|]];
      }
    }

    /** The token at the current character, and its text */
    method TakeToken() returns (t: Token, ok: bool)
      requires At(pos) && Tables() && tval.Length > 0
      modifies this`ch, this`valCh, this`pos, this`line, this`oldEols, this`tval, this`tlen, tval
      modifies buffer`bufLen, buffer`bufStart, buffer`bufPos, buffer.buf
      ensures At(pos) && tval.Length > 0 && (tval == old(tval) || fresh(tval)) && 0 <= old(pos) <= |Source()|
      ensures var (kind, end) := TokenAt(Source(), old(pos));
        && pos == end && ok == !TooLong(end - old(pos))
        && (ok ==> t == Token(kind, old(pos), LineAt(Source(), old(pos)), Stored(Vals(Source(), old(pos), end))))
    {
      hide Val;
      hide Vals;
      hide LineAt;
      hide TokenAt;
      hide Stored;
      hide Tables;
      hide TooLong;
      hide buffer.Valid;
      var pos0, line0 := pos, line;
      var kind := ScanToken();
      var val;
      val, ok := AppendVal();
      t := Token(kind, pos0, line0, val);
    }

    /** `NextToken`; when the program ends there is no token */
    method NextToken() returns (t: Token, ok: bool)
      requires At(pos) && Tables() && tval.Length > 0
      modifies this`ch, this`valCh, this`pos, this`line, this`oldEols, this`tval, this`tlen, tval
      modifies buffer`bufLen, buffer`bufStart, buffer`bufPos, buffer.buf
      ensures At(pos) && tval.Length > 0 && (tval == old(tval) || fresh(tval))
      ensures 0 <= old(pos) <= |Source()| && pos == GcodeScan.NextToken(Source(), old(pos)).1
      ensures ok == !TooLong(|GcodeScan.NextToken(Source(), old(pos)).0.val|)
      ensures ok ==> t == GcodeScan.NextToken(Source(), old(pos)).0
      decreases |Source()| - pos
    {
      hide Val;
      hide Vals;
      hide LineAt;
      hide TokenAt;
      hide Skip;
      hide Stored;
      hide Tables;
      hide TooLong;
      hide buffer.Valid;
      SkipBlanks();
      EndSeen(Source(), pos);
      SkipStep(Source(), pos);
      if ch == 59 {
        var found := Comment0();
        EndSeen(Source(), pos);
        if found {
          SkipStep(Source(), pos);
          t, ok := NextToken();
          return;
        }
      }
      t, ok := TakeToken();
    }

    /** Scanning to the end, or to a token that is too long: the tokens delivered, and whether
        these are all */
    method ScanAll() returns (ts: seq<Token>, ok: bool)
      requires At(0) && Tables() && tval.Length > 0
      modifies this, tval, buffer`bufLen, buffer`bufStart, buffer`bufPos, buffer.buf
      ensures ts == Delivered(Source(), 0).0 && ok == Delivered(Source(), 0).1 && (ok ==> Tiles(Source(), 0, ts))
    {
      hide Tokens;
      hide At;
      hide Tables;
      hide Tiles;
      hide Skip;
      hide GcodeScan.NextToken;
      hide Delivered;
      hide TooLong;
      ts, ok := [], true;
      AtIs(0);
      Lossless(Source(), 0);
      DeliveredExactly(Source(), 0);
      var more := true;
      while more
        invariant At(pos) && Tables() && tval.Length > 0 && 0 <= pos <= |Source()| && (tval == old(tval) || fresh(tval))
        invariant more ==> ok
        invariant ts + (if more then Delivered(Source(), pos).0 else []) == Delivered(Source(), 0).0
        invariant (if more then Delivered(Source(), pos).1 else ok) == Delivered(Source(), 0).1
        decreases |Source()| - pos, if more then 1 else 0
      {
        TokensStep(Source(), pos);
        var t;
        t, ok := NextToken();
        AtIs(pos);
        if ok {
          ts := ts + [t];
        }
        more := ok && t.kind != 0;
      }
    }
  }

  lemma StoredNext(v: seq<int>, c: int)
    ensures Stored(v + [c]) == Stored(v) + [if 0 in v || c == 0 then 0 else c]
  {
    var w := v + [c];
    assert w[..|w|] == w;
    forall i | 0 <= i < |v| ensures Stored(w)[i] == Stored(v)[i] {
      assert w[..i + 1] == v[..i + 1];
    }
  }

  lemma TokensStep(s: seq<byte>, pos: nat)
    requires pos <= |s|
    ensures var (t, end) := NextToken(s, pos);
      && pos <= end <= |s| && (t.kind == 0 <==> Skip(s, pos) == |s|) && (t.kind != 0 ==> pos < end)
      && Delivered(s, pos) == if TooLong(|t.val|) then ([], false)
         else if t.kind == 0 then ([t], true) else ([t] + Delivered(s, end).0, Delivered(s, end).1)
  {
    hide TokenAt;
    KindKnown(s, Skip(s, pos));
  }

  lemma NotEnd(cls: Class, c: int)
    requires In(cls, c)
    ensures c != EoF
  {
  }

  lemma RunStops(s: seq<byte>, cls: Class, pos: nat)
    requires pos <= |s| && !In(cls, Ch(s, pos))
    ensures Run(s, cls, pos) == pos
  {
  }

  lemma CharRange(s: seq<byte>, pos: nat)
    ensures 0 <= Ch(s, pos) <= EoF
  {
  }

  lemma NoVals(s: seq<byte>, pos: nat)
    ensures Vals(s, pos, pos) == []
  {
  }

  function RunToken(s: seq<byte>, pos: nat, state: int): (int, nat)
    requires pos < |s| && state in {2, 4, 9, 10}
  {
    if state == 2 then var e := Run(s, Digits, pos + 1); (2, if Ch(s, e) == 46 then Run(s, Digits, e + 1) else e)
    else if state == 4 then (2, Run(s, Digits, pos + 1))
    else if state == 10 && Digit(Ch(s, pos + 1)) then (3, Run(s, Digits, pos + 2))
    else (5, Run(s, Others, pos + 1))
  }

  /** The token by the state that its first character leads to. */
  lemma TokenCases(s: seq<byte>, pos: nat)
    requires pos <= |s|
    ensures var state := StartState(Ch(s, pos));
      && state in {-1, 1, 2, 4, 6, 7, 9, 10, 11, 12, 13, 14, 15, 16, 17, 18, 19, 20, 21}
      && (state == -1 <==> pos == |s|) && (state == -1 ==> TokenAt(s, pos) == (0, pos))
      && (state == 1 ==>
            var e := Run(s, Letters, pos + 1); TokenAt(s, pos) == (KeywordKind(LowerAll(Vals(s, pos, e))), e))
      && (state in {2, 4, 9, 10} ==> TokenAt(s, pos) == RunToken(s, pos, state))
      && (state == 6 ==> TokenAt(s, pos) == (4, if Ch(s, pos + 1) == 13 then pos + 2 else pos + 1))
      && (state == 7 ==> TokenAt(s, pos) == (4, if Ch(s, pos + 1) == 10 then pos + 2 else pos + 1))
      && (state > 10 ==> TokenAt(s, pos) == (if state == 21 then 41 else state - 5, pos + 1))
      && (pos < |s| && (Ch(s, pos + 1) == 13 || Ch(s, pos + 1) == 10) ==> pos + 1 < |s|)
  {
    StartKnown(s, pos);
    EndSeen(s, pos + 1);
    hide Ch;
    hide KeywordKind;
  }

  lemma SkipStep(s: seq<byte>, pos: nat)
    requires pos <= |s|
    ensures var c := Ch(s, pos);
      Skip(s, pos) == if pos == |s| then pos else if Blank(c) then Skip(s, pos + 1) else if c == 59
        then CommentEnd(s, pos + 1) else pos
  {
  }
}
