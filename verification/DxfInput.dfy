/** Reading a DXF file: blocks, a stack of characters that were put back, and the small readers
    built on them. */
module DxfInput {

  type byte = x: int | 0 <= x < 256

  predicate IsSpace(c: int) { c == 32 || 9 <= c <= 13 }

  predicate IsDigit(c: int) { 48 <= c <= 57 }

  predicate IsEnd(c: int) { c == 10 || c == 13 }

  // ---------- positions ----------

  /** Where the reader is: how much of the file has been read in blocks, the index in the last
      block and its length, the height of the push-back stack, and the position it reports for
      a binary file. */
  datatype State = State(fileRead: nat, index: nat, len: nat, back: nat, position: int)

  /** The position of the next character. */
  function At(s: State): int {
    s.fileRead - (s.len - s.index) - s.back
  }

  function Smaller(a: int, b: int): int {
    if a < b then a else b
  }

  /** `get` on a binary file of `total` bytes that is read in blocks of `size` */
  function GetStep(size: nat, total: nat, s: State): State {
    if s.back > 0 then s.(back := s.back - 1)
    else if s.index < s.len then s.(index := s.index + 1, position := s.position + 1)
    else
      var n := Smaller(total - s.fileRead, size);
      if n <= 0 then s.(index := 0, len := 0)
      else s.(fileRead := s.fileRead + n, index := 1, len := n, position := s.position + 1)
  }

  /** Putting back moves the index, as long as the block reaches back so far and the stack is
      empty. */
  predicate MovesIndex(s: State, n: nat) {
    n <= s.index && s.back == 0
  }

  /** `putBack` of n characters */
  function BackStep(s: State, n: nat): State {
    if MovesIndex(s, n) then s.(index := s.index - n) else s.(back := s.back + n)
  }

  datatype Op = GetOp | BackOp(n: nat)

  function Start(): State {
    State(0, 0, 0, 0, 0)
  }

  /** The state after the operations. */
  function RunOps(size: nat, total: nat, ops: seq<Op>): State {
    if ops == [] then Start()
    else
      var s := RunOps(size, total, ops[..|ops| - 1]);
      match ops[|ops| - 1]
      case GetOp => GetStep(size, total, s)
      case BackOp(n) => BackStep(s, n)
  }

  /** Operation k puts something back by moving the index. */
  predicate StepsBack(size: nat, total: nat, ops: seq<Op>, k: nat)
    requires k < |ops|
  {
    ops[k].BackOp? && ops[k].n > 0 && MovesIndex(RunOps(size, total, ops[..k]), ops[k].n)
  }

  /** All characters that were put back by moving the index. */
  function SteppedBack(size: nat, total: nat, ops: seq<Op>): nat {
    if ops == [] then 0
    else
      var k := |ops| - 1;
      SteppedBack(size, total, ops[..k]) + if StepsBack(size, total, ops, k) then ops[k].n else 0
  }

  /** What one operation counts. */
  lemma StepCounts(size: nat, total: nat, s: State, op: Op, stepped: nat)
    requires s.index <= s.len && s.position == At(s) + s.back + stepped
    ensures var s' := if op.GetOp? then GetStep(size, total, s) else BackStep(s, op.n);
      && s'.index <= s'.len
      && s'.position == At(s') + s'.back + stepped + if op.BackOp? && op.n > 0 && MovesIndex(s, op.n) then op.n else 0
  {
  }

  lemma {:induction false} PositionCounts(size: nat, total: nat, ops: seq<Op>)
    ensures var s := RunOps(size, total, ops);
      s.index <= s.len && s.position == At(s) + s.back + SteppedBack(size, total, ops)
    decreases |ops|
  {
    if ops != [] {
      var k := |ops| - 1;
      PositionCounts(size, total, ops[..k]);
      StepCounts(size, total, RunOps(size, total, ops[..k]), ops[k], SteppedBack(size, total, ops[..k]));
      hide GetStep;
      hide BackStep;
      hide MovesIndex;
      hide At;
    }
  }

  lemma {:induction false} SteppedNone(size: nat, total: nat, ops: seq<Op>)
    ensures SteppedBack(size, total, ops) == 0 <==> forall k :: 0 <= k < |ops| ==> !StepsBack(size, total, ops, k)
    decreases |ops|
  {
    if ops != [] {
      var n := |ops| - 1;
      var init := ops[..n];
      SteppedNone(size, total, init);
      forall k | 0 <= k < n ensures StepsBack(size, total, init, k) == StepsBack(size, total, ops, k) {
        assert init[..k] == ops[..k] && init[k] == ops[k];
      }
    }
  }

  /** The position reported after a run is that of the next character if and only if the stack
      is empty and nothing was put back by moving the index: what is read again then is counted
      again. */
  lemma PositionExact(size: nat, total: nat, ops: seq<Op>)
    ensures var s := RunOps(size, total, ops);
      s.position == At(s) <==> s.back == 0 && forall k :: 0 <= k < |ops| ==> !StepsBack(size, total, ops, k)
  {
    hide RunOps;
    hide StepsBack;
    PositionCounts(size, total, ops);
    SteppedNone(size, total, ops);
  }

  /** Reading a character, putting it back and reading it again: the position is 2 where one
      character has been read. */
  lemma WrongPosition(size: nat, total: nat)
    requires size > 0 && total > 0
    ensures var s := RunOps(size, total, [GetOp, BackOp(1), GetOp]); s.position == 2 && At(s) == 1
  {
    var one, two := [GetOp], [GetOp, BackOp(1)];
    assert one[..0] == [] && two[..1] == one && [GetOp, BackOp(1), GetOp][..2] == two;
    var n := Smaller(total, size);
    assert RunOps(size, total, one) == State(n, 1, n, 0, 1);
    assert RunOps(size, total, two) == State(n, 0, n, 0, 1);
  }

  // ---------- the reader ----------

  class Input {
    const file: seq<byte>         // what the file holds
    var fileRead: nat             // how much of it has been read in blocks
    const readbuf: array<byte>
    var readbufIndex: nat
    var readbufLen: nat
    var backBuf: seq<byte>
    var backBufIndex: int
    const binary: bool
    var filePosition: int

    /** The position of the next character. */
    ghost function Cursor(): int
      reads this
    {
      fileRead - (readbufLen - readbufIndex) - (backBufIndex + 1)
    }

    ghost function View(): State
      reads this
      requires backBufIndex >= -1
    {
      State(fileRead, readbufIndex, readbufLen, backBufIndex + 1, filePosition)
    }

    ghost predicate Valid()
      reads this, readbuf
    {
      && readbuf.Length > 0 && readbufIndex <= readbufLen <= readbuf.Length && readbufLen <= fileRead <= |file|
      && readbuf[..readbufLen] == file[fileRead - readbufLen..fileRead]
      && -1 <= backBufIndex < |backBuf| && 0 <= Cursor()
      && BackOK()
    }

    /** The stack holds the characters from the cursor on, the next one on top. */
    ghost predicate BackOK()
      reads this
      requires 0 <= Cursor() && readbufIndex <= readbufLen && fileRead <= |file| && backBufIndex < |backBuf|
    {
      forall i :: 0 <= i <= backBufIndex ==> backBuf[i] == file[Cursor() + (backBufIndex - i)]
    }

    constructor (file: seq<byte>, blockSize: nat, binary: bool)
      requires blockSize > 0
      ensures Valid() && Cursor() == 0 && this.file == file && this.binary == binary
      ensures View() == Start() && readbuf.Length == blockSize && fresh(readbuf)
    {
      this.file, this.binary := file, binary;
      readbuf := new byte[blockSize];
      fileRead, readbufIndex, readbufLen, backBuf, backBufIndex, filePosition := 0, 0, 0, [], -1, 0;
    }

    /** `doBufferRead`: the next block, or nothing at the end of the file */
    method DoBufferRead() returns (ok: bool)
      requires Valid() && readbufIndex == readbufLen && backBufIndex == -1
      modifies this`fileRead, this`readbufIndex, this`readbufLen, readbuf
      ensures Valid() && Cursor() == old(Cursor()) && ok == (Cursor() < |file|) && readbufIndex == 0
      ensures fileRead == old(fileRead) + readbufLen && readbufLen == Smaller(|file| - old(fileRead), readbuf.Length)
    {
      var len := if |file| - fileRead < readbuf.Length then |file| - fileRead else readbuf.Length;
      forall i | 0 <= i < len {
        readbuf[i] := file[fileRead + i];
      }
      assert readbuf[..len] == file[fileRead..fileRead + len];
      fileRead := fileRead + len;
      readbufIndex, readbufLen := 0, len;
      ok := len > 0;
    }

    /** `get` */
    method Get() returns (ok: bool, c: byte)
      requires Valid()
      modifies this`fileRead, this`readbufIndex, this`readbufLen, this`backBufIndex, this`filePosition, readbuf
      ensures Valid() && 0 <= old(Cursor()) <= |file| && 0 <= Cursor() <= |file| && ok == (old(Cursor()) < |file|)
      ensures ok ==> c == file[old(Cursor())] && Cursor() == old(Cursor()) + 1
      ensures !ok ==> Cursor() == old(Cursor())
      ensures binary ==> View() == GetStep(readbuf.Length, |file|, old(View()))
    {
      hide BackOK;
      c := 0;
      if backBufIndex >= 0 {
        c := Pop();
        assert View() == GetStep(readbuf.Length, |file|, old(View()));
        return true, c;
      }
      if readbufIndex >= readbufLen {
        var more := DoBufferRead();
        if !more {
          return false, c;
        }
      }
      c := Take();
      if binary {
        Count();
      }
      return true, c;
    }

    method Pop() returns (c: byte)
      requires Valid() && backBufIndex >= 0
      modifies this`backBufIndex
      ensures Valid() && 0 <= old(Cursor()) < |file| && c == file[old(Cursor())] && Cursor() == old(Cursor()) + 1
      ensures backBufIndex == old(backBufIndex) - 1
    {
      c := backBuf[backBufIndex];
      backBufIndex := backBufIndex - 1;
    }

    method Take() returns (c: byte)
      requires Valid() && backBufIndex == -1 && readbufIndex < readbufLen
      modifies this`readbufIndex
      ensures Valid() && 0 <= old(Cursor()) < |file| && c == file[old(Cursor())] && Cursor() == old(Cursor()) + 1
    {
      c := readbuf[readbufIndex];
      assert c == readbuf[..readbufLen][readbufIndex];
      readbufIndex := readbufIndex + 1;
    }

    method Push(c: byte)
      requires Valid() && 0 < Cursor() && c == file[Cursor() - 1]
      modifies this`backBuf, this`backBufIndex
      ensures Valid() && Cursor() == old(Cursor()) - 1 && backBufIndex == old(backBufIndex) + 1
    {
      ghost var before := backBuf;
      backBufIndex := backBufIndex + 1;
      if backBufIndex < |backBuf| {
        backBuf := backBuf[backBufIndex := c];
      } else {
        backBuf := backBuf + [c];
      }
      assert forall i :: 0 <= i < backBufIndex ==> backBuf[i] == before[i];
    }

    /** `putBack` of the character that was just got */
    method PutBack(c: byte)
      requires Valid() && 0 < Cursor() && c == file[Cursor() - 1]
      modifies this`readbufIndex, this`backBuf, this`backBufIndex
      ensures Valid() && Cursor() == old(Cursor()) - 1 && View() == BackStep(old(View()), 1)
    {
      if readbufIndex > 0 && backBufIndex < 0 {
        readbufIndex := readbufIndex - 1;
      } else {
        Push(c);
      }
    }

    /** `putBack` of a string that was just got */
    method PutBackString(s: seq<byte>)
      requires Valid() && |s| <= Cursor() && s == file[Cursor() - |s|..Cursor()]
      modifies this`readbufIndex, this`backBuf, this`backBufIndex
      ensures Valid() && Cursor() == old(Cursor()) - |s| && View() == BackStep(old(View()), |s|)
    {
      var n := |s|;
      if n <= readbufIndex && backBufIndex < 0 {
        readbufIndex := readbufIndex - n;
      } else {
        var i := n - 1;
        while i >= 0
          invariant -1 <= i < n && Valid() && Cursor() == old(Cursor()) - (n - 1 - i)
          invariant View() == old(View()).(back := old(View()).back + (n - 1 - i))
        {
          Push(s[i]);
          i := i - 1;
        }
      }
    }

    lemma CursorIn()
      requires Valid()
      ensures 0 <= Cursor() <= |file|
    {
    }

    // ---------- the readers ----------

    /** `skipWhiteSpace`: to the first character that is no blank, or to the line end */
    method SkipWhiteSpace() returns (ok: bool)
      requires Valid()
      modifies this, readbuf
      ensures Valid() && (binary ==> ok && Cursor() == old(Cursor()))
      ensures !binary ==> Cursor() == BlanksEnd(file, old(Cursor())) && ok == (Cursor() < |file|)
    {
      hide Valid;
      CursorIn();
      if binary {
        return true;
      }
      var gotChar, c := Get();
      while gotChar && IsSpace(c) && !IsEnd(c)
        invariant Valid() && 0 <= old(Cursor()) <= Cursor() <= |file|
        invariant gotChar ==> 0 < Cursor() && c == file[Cursor() - 1]
        invariant BlanksEnd(file, old(Cursor())) == BlanksEnd(file, if gotChar then Cursor() - 1 else Cursor())
        invariant !gotChar ==> Cursor() == |file|
        decreases |file| - Cursor(), if gotChar then 1 else 0
      {
        gotChar, c := Get();
      }
      if !gotChar {
        return false;
      }
      PutBack(c);
      return true;
    }

    /** `nextLine`: behind the next line end; a run of CR ends with a LF that follows it */
    method NextLine() returns (ok: bool)
      requires Valid()
      modifies this, readbuf
      ensures Valid() && (binary ==> ok && Cursor() == old(Cursor()))
      ensures !binary ==> Cursor() == LineEnd(file, old(Cursor())).1 && ok == LineEnd(file, old(Cursor())).0
    {
      hide Valid;
      CursorIn();
      if binary {
        return true;
      }
      var gotChar, c := Get();
      while gotChar && !IsEnd(c)
        invariant Valid() && 0 <= old(Cursor()) <= Cursor() <= |file|
        invariant gotChar ==> 0 < Cursor() && c == file[Cursor() - 1]
        invariant LineEnd(file, old(Cursor())) == LineEnd(file, if gotChar then Cursor() - 1 else Cursor())
        invariant !gotChar ==> Cursor() == |file|
        decreases |file| - Cursor(), if gotChar then 1 else 0
      {
        gotChar, c := Get();
      }
      if !gotChar {
        return false;
      }
      while c == 13
        invariant Valid() && 0 < Cursor() <= |file| && 0 <= old(Cursor()) <= |file| && c == file[Cursor() - 1]
        invariant LineEnd(file, old(Cursor())) == if c == 13 then CrEnd(file, Cursor())
          else (true, if c == 10 then Cursor() else Cursor() - 1)
        decreases |file| - Cursor()
      {
        gotChar, c := Get();
        if !gotChar {
          return false;
        }
      }
      if !IsEnd(c) {
        PutBack(c);
      }
      Count();
      return true;
    }

    method Count()
      requires Valid()
      modifies this`filePosition
      ensures Valid() && Cursor() == old(Cursor()) && filePosition == old(filePosition) + 1
    {
      filePosition := filePosition + 1;
    }

    /** `readChar`: takes the character if it is the one wanted */
    method ReadChar(want: byte) returns (found: bool)
      requires Valid()
      modifies this, readbuf
      ensures Valid() && found == (old(Cursor()) < |file| && file[old(Cursor())] == want)
      ensures Cursor() == old(Cursor()) + if found then 1 else 0
    {
      var gotChar, c := Get();
      if !gotChar {
        return false;
      } else if c == want {
        return true;
      } else {
        PutBack(c);
        return false;
      }
    }

    /** `readDigits`: the longest run of digits */
    method ReadDigits() returns (digits: seq<byte>)
      requires Valid()
      modifies this, readbuf
      ensures Valid() && Cursor() == DigitsEnd(file, old(Cursor())) && digits == file[old(Cursor())..Cursor()]
    {
      hide Valid;
      CursorIn();
      digits := [];
      ghost var from := Cursor();
      var gotChar, c := Get();
      while gotChar && IsDigit(c)
        invariant Valid() && from <= Cursor() <= |file| && (gotChar ==> from < Cursor() && c == file[Cursor() - 1])
        invariant digits == file[from..if gotChar then Cursor() - 1 else Cursor()]
        invariant DigitsEnd(file, from) == DigitsEnd(file, if gotChar then Cursor() - 1 else Cursor())
        invariant !gotChar ==> Cursor() == |file|
        decreases |file| - Cursor(), if gotChar then 1 else 0
      {
        digits := digits + [c];
        gotChar, c := Get();
      }
      if gotChar {
        PutBack(c);
      }
    }
  }

  function BlanksEnd(file: seq<byte>, pos: int): (end: int)
    requires 0 <= pos <= |file|
    ensures pos <= end <= |file| && forall i :: pos <= i < end ==> file[i] in {9, 11, 12, 32}
    ensures end < |file| ==> file[end] !in {9, 11, 12, 32}
    decreases |file| - pos
  {
    if pos < |file| && IsSpace(file[pos]) && !IsEnd(file[pos]) then BlanksEnd(file, pos + 1) else pos
  }

  function DigitsEnd(file: seq<byte>, pos: int): (end: int)
    requires 0 <= pos <= |file|
    ensures pos <= end <= |file| && forall i :: pos <= i < end ==> IsDigit(file[i])
    ensures end < |file| ==> !IsDigit(file[end])
    decreases |file| - pos
  {
    if pos < |file| && IsDigit(file[pos]) then DigitsEnd(file, pos + 1) else pos
  }

  /** Whether the line is complete, and where the next one starts. */
  function LineEnd(file: seq<byte>, pos: int): (r: (bool, int))
    requires 0 <= pos <= |file|
    decreases |file| - pos
  {
    if pos >= |file| then (false, |file|)
    else if file[pos] == 10 then (true, pos + 1)
    else if file[pos] == 13 then CrEnd(file, pos + 1)
    else LineEnd(file, pos + 1)
  }

  /** Behind a CR. */
  function CrEnd(file: seq<byte>, pos: int): (bool, int)
    requires 0 <= pos <= |file|
    decreases |file| - pos
  {
    if pos >= |file| then (false, |file|)
    else if file[pos] == 13 then CrEnd(file, pos + 1)
    else if file[pos] == 10 then (true, pos + 1)
    else (true, pos)
  }

  /** No line end from pos to k. */
  ghost predicate NoEnd(file: seq<byte>, pos: int, k: int) {
    0 <= pos <= k <= |file| && forall i :: pos <= i < k ==> file[i] != 10 && file[i] != 13
  }

  /** CRs from k to j. */
  ghost predicate Crs(file: seq<byte>, k: int, j: int) {
    0 <= k <= j <= |file| && forall i :: k <= i < j ==> file[i] == 13
  }

  /** The line ends with an LF, or with CRs and an LF if there is one behind them; CRs are no line
      end if nothing follows them. */
  ghost predicate EndsLine(file: seq<byte>, k: int, j: int, next: int) {
    && Crs(file, k, j) && j < |file|
    && if file[j] == 10 then next == j + 1 else next == j && j > k && file[j] != 13
  }

  /** The line whose first end, or the end of the file, is at k. */
  ghost predicate LineWith(file: seq<byte>, k: int, ok: bool, next: int) {
    if ok then exists j :: EndsLine(file, k, j, next) else next == |file| && Crs(file, k, |file|)
  }

  lemma {:induction false} CrEndIs(file: seq<byte>, k: int, pos: int)
    requires Crs(file, k, pos) && k < pos
    ensures LineWith(file, k, CrEnd(file, pos).0, CrEnd(file, pos).1)
    decreases |file| - pos
  {
    if pos < |file| {
      if file[pos] == 13 {
        CrEndIs(file, k, pos + 1);
      } else {
        var (ok, next) := CrEnd(file, pos);
        assert EndsLine(file, k, pos, next);
      }
    }
  }

  /** A line is complete if and only if its first end, at k, is an LF or has something other than
      CRs behind it. */
  lemma {:induction false} LineEndIs(file: seq<byte>, pos: int)
    requires 0 <= pos <= |file|
    ensures exists k :: NoEnd(file, pos, k) && LineWith(file, k, LineEnd(file, pos).0, LineEnd(file, pos).1)
    decreases |file| - pos
  {
    var (ok, next) := LineEnd(file, pos);
    if pos == |file| || file[pos] == 10 || file[pos] == 13 {
      assert NoEnd(file, pos, pos);
      if pos == |file| {
        assert Crs(file, pos, |file|);
      } else if file[pos] == 10 {
        assert EndsLine(file, pos, pos, next);
      } else {
        CrEndIs(file, pos, pos + 1);
      }
    } else {
      LineEndIs(file, pos + 1);
      var k :| NoEnd(file, pos + 1, k) && LineWith(file, k, ok, next);
      assert NoEnd(file, pos, k);
    }
  }
}
