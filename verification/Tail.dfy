/** The last lines of a file, found by reading it backwards block by block (exercise 13.5). */
module Tail {
  import opened Files

  /** The position just after the (n+1)-th newline from the end, or 0 if there are at most n. */
  function CutPoint(s: seq<Byte>, n: nat): (c: nat)
    ensures c <= |s|
  {
    if s == [] then 0
    else if s[|s| - 1] != NEWLINE then CutPoint(s[..|s| - 1], n)
    else if n == 0 then |s|
    else CutPoint(s[..|s| - 1], n - 1)
  }

  function Newlines(s: seq<Byte>): nat {
    if s == [] then 0 else Newlines(s[..|s| - 1]) + (if s[|s| - 1] == NEWLINE then 1 else 0)
  }

  /** The first block read backwards begins here. */
  function FirstBlock(size: nat, bufSize: nat): nat
  {
    if size >= bufSize then size - bufSize + 1 else 0
  }

  /** Where printing starts, for every -n argument but 0. A buffer of one byte is read at the
      end of the file; a negative count only looks at the block at the end. */
  function StartOf(content: seq<Byte>, n: int, bufSize: nat): (p: nat)
    requires bufSize >= 1
    ensures p <= |content|
  {
    if n < 0 then
      var first := FirstBlock(|content|, bufSize);
      first + CutPoint(content[first..], 0)
    else if bufSize == 1 then |content|
    else CutPoint(content, n)
  }

  /** What the program prints. */
  function Printed(content: seq<Byte>, n: int, bufSize: nat): seq<Byte>
    requires bufSize >= 1
  {
    if n == 0 then [] else content[StartOf(content, n, bufSize)..]
  }

  /** `n` is the argument of -n; `bufSize` is BUF_SIZE. */
  method Tail(file: Source, n: int, bufSize: nat) returns (out: seq<Byte>)
    requires bufSize >= 1
    modifies file
    ensures out == Printed(file.content, n, bufSize)
  {
    if n == 0 { return []; }
    ScanBack(file, n, bufSize);
    out := PrintRest(file);
  }

  /** Cutting a file whose end is a block with k newlines. */
  lemma {:induction false} CutAppend(s: seq<Byte>, block: seq<Byte>, n: nat)
    ensures CutPoint(s + block, n) ==
            if Newlines(block) <= n then CutPoint(s, n - Newlines(block)) else |s| + CutPoint(block, n)
    decreases |block|
  {
    if block == [] {
      assert s + block == s;
    } else {
      var front := block[..|block| - 1];
      assert (s + block)[..|s + block| - 1] == s + front;
      if block[|block| - 1] != NEWLINE { CutAppend(s, front, n); } else if n > 0 { CutAppend(s, front, n - 1); }
    }
  }

  /** Looks at one block from its end. A count that drops below zero marks the newline to cut at. */
  method ScanBlock(buffer: array<Byte>, nread: nat, lines: int) returns (left: int, processed: int)
    requires nread <= buffer.Length
    ensures -1 <= processed < nread || nread == 0
    ensures Decided(buffer[..nread], lines, left, processed)
  {
    ghost var block := buffer[..nread];
    left, processed := lines, nread - 1;
    assert block[..nread] == block;
    while processed >= 0
      invariant -1 <= processed < nread || nread == 0
      invariant -1 <= processed
      invariant lines < 0 ==> left == lines && CutPoint(block[..processed + 1], 0) == CutPoint(block, 0)
      invariant lines >= 0 ==> left >= 0 && Newlines(block[..processed + 1]) - left == Newlines(block) - lines
      invariant lines >= 0 ==> CutPoint(block[..processed + 1], left) == CutPoint(block, lines)
    {
      assert block[..processed + 1][..processed] == block[..processed];
      assert buffer[processed] == block[processed];
      if buffer[processed] == NEWLINE {
        left := left - 1;
        if left < 0 { break; }
      }
      processed := processed - 1;
    }
  }

  function Available(content: seq<Byte>, position: nat, count: nat): (n: nat)
    requires position <= |content|
    ensures position + n <= |content|
  {
    if count <= |content| - position then count else |content| - position
  }

  method ReadAt(file: Source, buffer: array<Byte>, position: nat, count: nat) returns (nread: nat)
    requires position <= |file.content| && count <= buffer.Length
    modifies file, buffer
    ensures nread == Available(file.content, position, count)
    ensures file.offset == position + nread && buffer[..nread] == file.content[position..position + nread]
  {
    file.Seek(position);
    nread := file.Read(buffer, count);
  }

  /** Cutting at a block in the middle of the file. */
  lemma {:induction false} CutAtBlock(s: seq<Byte>, from: nat, to: nat, block: seq<Byte>, n: nat)
    requires from <= to <= |s| && block == s[from..to]
    ensures CutPoint(s[..to], n) ==
            if Newlines(block) <= n then CutPoint(s[..from], n - Newlines(block)) else from + CutPoint(block, n)
  {
    assert s[..from] + block == s[..to];
    CutAppend(s[..from], block, n);
  }

  /** Before a block of nread bytes at currPos is looked at: everything after it has been, and
      `lines` more newlines may be passed. */
  ghost predicate Scanning(content: seq<Byte>, n: int, bufSize: nat, lines: int, currPos: int, bytesToRead: int,
                           nread: int) {
    && (bytesToRead == bufSize || currPos == 0) && 0 <= bytesToRead <= bufSize
    && 0 <= currPos <= |content| && nread == Available(content, currPos, bytesToRead)
    && (n > 0 ==> 0 <= lines && CutPoint(content[..currPos + nread], lines) == CutPoint(content, n))
    && (n < 0 ==> lines == n && currPos == FirstBlock(|content|, bufSize) && currPos + nread == |content|)
    && (nread == 0 ==> currPos == 0 || bufSize == 1)
    && (bufSize == 1 ==> nread == 0 && currPos == |content|)
  }

  /** What ScanBlock decides about a block. */
  ghost predicate Decided(block: seq<Byte>, lines: int, left: int, processed: int) {
    if lines < 0 then left < 0 && processed + 1 == CutPoint(block, 0)
    else if Newlines(block) <= lines then left == lines - Newlines(block)
    else left < 0 && processed + 1 == CutPoint(block, lines)
  }

  lemma {:induction false} ScanStarts(content: seq<Byte>, n: int, bufSize: nat)
    requires n != 0 && bufSize >= 1
    ensures var p := FirstPosition(|content|, bufSize);
            Scanning(content, n, bufSize, n, p, bufSize, Available(content, p, bufSize))
  {
    assert content[..|content|] == content;
  }

  lemma {:induction false} BlockDecides(content: seq<Byte>, n: int, bufSize: nat, lines: int, currPos: nat,
                                        bytesToRead: nat, nread: nat, left: int, processed: int)
    requires n != 0 && bufSize >= 1 && nread > 0 && Scanning(content, n, bufSize, lines, currPos, bytesToRead, nread)
    requires Decided(content[currPos..currPos + nread], lines, left, processed)
    ensures left < 0 ==> currPos + processed + 1 == StartOf(content, n, bufSize)
    ensures left >= 0 ==> n > 0 && CutPoint(content[..currPos], left) == CutPoint(content, n)
  {
    var block := content[currPos..currPos + nread];
    if n > 0 {
      CutAtBlock(content, currPos, currPos + nread, block, lines);
    } else {
      assert block == content[currPos..];
    }
  }

  /** The block before, and where it begins. */
  lemma {:induction false} NextBlock(content: seq<Byte>, n: int, bufSize: nat, lines: int, currPos: nat,
                                     bytesToRead: nat, nread: nat, left: int, position: nat, count: nat)
    requires nread > 0 && Scanning(content, n, bufSize, lines, currPos, bytesToRead, nread)
    requires left >= 0 && n > 0 && CutPoint(content[..currPos], left) == CutPoint(content, n)
    requires if currPos >= bufSize then position == currPos - bufSize && count == bytesToRead
             else position == 0 && count == currPos
    ensures Scanning(content, n, bufSize, left, position, count, Available(content, position, count))
    ensures position + Available(content, position, count) == currPos
  {
  }

  lemma {:induction false} ScanEnds(content: seq<Byte>, n: int, bufSize: nat, lines: int, currPos: nat,
                                    bytesToRead: nat)
    requires n != 0 && bufSize >= 1 && Scanning(content, n, bufSize, lines, currPos, bytesToRead, 0)
    ensures currPos == StartOf(content, n, bufSize)
  {
    assert content[..0] == [];
  }

  /** Reads backwards, block by block, and leaves the file at the place to print from. */
  method ScanBack(file: Source, n: int, bufSize: nat)
    requires n != 0 && bufSize >= 1
    modifies file
    ensures file.offset == StartOf(file.content, n, bufSize)
  {
    var buffer := new Byte[bufSize];
    var lines := n;
    var currPos: nat := FirstPosition(|file.content|, bufSize);
    var bytesToRead: nat := bufSize;
    ScanStarts(file.content, n, bufSize);
    var nread := ReadAt(file, buffer, currPos, bytesToRead);
    while nread > 0
      invariant Scanning(file.content, n, bufSize, lines, currPos, bytesToRead, nread)
      invariant file.offset == currPos + nread && buffer[..nread] == file.content[currPos..currPos + nread]
      decreases currPos + nread
    {
      var left, processed := ScanBlock(buffer, nread, lines);
      BlockDecides(file.content, n, bufSize, lines, currPos, bytesToRead, nread, left, processed);
      ghost var allowed := lines;
      lines := left;
      if lines < 0 {
        processed := processed + 1;
        file.Seek(currPos + processed);
        return;
      }
      ghost var passed, count := currPos, bytesToRead;
      if currPos >= bufSize {
        currPos := currPos - bufSize;
      } else {
        bytesToRead := currPos;
        currPos := 0;
      }
      NextBlock(file.content, n, bufSize, allowed, passed, count, nread, lines, currPos, bytesToRead);
      nread := ReadAt(file, buffer, currPos, bytesToRead);
    }
    ScanEnds(file.content, n, bufSize, lines, currPos, bytesToRead);
  }

  /** curr_pos = max(0, curr_pos - BUF_SIZE + 1), from the end of the file. */
  function FirstPosition(size: nat, bufSize: nat): (p: nat)
    requires bufSize >= 1
    ensures p == FirstBlock(size, bufSize) <= size
  {
    var p := size - bufSize + 1;
    if 0 > p then 0 else p
  }

  /** Copies the file from its offset to the output, one byte at a time. */
  method PrintRest(file: Source) returns (out: seq<Byte>)
    requires file.offset <= |file.content|
    modifies file
    ensures out == file.content[old(file.offset)..]
  {
    out := [];
    var ch := new Byte[1];
    var nread := file.Read(ch, 1);
    while nread > 0
      invariant nread <= 1 && old(file.offset) + |out| + nread == file.offset <= |file.content|
      invariant nread > 0 ==> ch[..nread] == file.content[file.offset - 1..file.offset]
      invariant nread == 0 ==> file.offset == |file.content|
      invariant out == file.content[old(file.offset)..old(file.offset) + |out|]
      decreases |file.content| - |out|
    {
      assert ch[0] == ch[..1][0] == file.content[file.offset - 1];
      out := out + [ch[0]];
      nread := file.Read(ch, 1);
    }
  }

  // ----- what the cut point means -----

  /** The part printed holds n newlines and follows one, or is the whole file and holds at most n. */
  lemma {:induction false} CutPointMeaning(s: seq<Byte>, n: nat)
    ensures var c := CutPoint(s, n);
            if c > 0 then s[c - 1] == NEWLINE && Newlines(s[c..]) == n else Newlines(s) <= n
  {
    if s != [] {
      var t := s[..|s| - 1];
      var c := CutPoint(s, n);
      if s[|s| - 1] != NEWLINE {
        CutPointMeaning(t, n);
        if c > 0 { assert s[c..][..|s[c..]| - 1] == t[c..]; }
      } else if n > 0 {
        CutPointMeaning(t, n - 1);
        if c > 0 { assert s[c..][..|s[c..]| - 1] == t[c..]; }
      }
    }
  }

  /** One line: no newline but the last byte. */
  predicate Line(l: seq<Byte>) {
    |l| > 0 && l[|l| - 1] == NEWLINE && NoNewline(l[..|l| - 1])
  }

  predicate NoNewline(t: seq<Byte>) { forall i :: 0 <= i < |t| ==> t[i] != NEWLINE }

  predicate Lines(ls: seq<seq<Byte>>) { forall k :: 0 <= k < |ls| ==> Line(ls[k]) }

  function Unlines(ls: seq<seq<Byte>>): seq<Byte> {
    if ls == [] then [] else Unlines(ls[..|ls| - 1]) + ls[|ls| - 1]
  }

  lemma {:induction false} CutWithinLine(s: seq<Byte>, t: seq<Byte>, n: nat)
    requires NoNewline(t)
    ensures CutPoint(s + t, n) == CutPoint(s, n)
    decreases |t|
  {
    if t == [] {
      assert s + t == s;
    } else {
      assert (s + t)[..|s + t| - 1] == s + t[..|t| - 1];
      CutWithinLine(s, t[..|t| - 1], n);
    }
  }

  function Skipped(count: nat, n: nat): nat { if n <= count then count - n else 0 }

  /** The part of the file printed for -n is its last n lines, or all if there are fewer. */
  predicate PrintsLast(ls: seq<seq<Byte>>, n: nat) {
    var s := Unlines(ls);
    s[CutPoint(s, n)..] == Unlines(ls[Skipped(|ls|, n)..])
  }

  /** Of every file that consists of complete lines, the last n are printed. */
  lemma {:induction false} LastLines(ls: seq<seq<Byte>>, n: nat)
    requires Lines(ls)
    ensures PrintsLast(ls, n)
    decreases |ls|
  {
    if ls == [] {
      NoLines(ls, n);
    } else if n == 0 {
      NoneWanted(ls);
    } else {
      var front := FrontLines(ls);
      LastLines(front, n - 1);
      OneMoreLine(ls, front, n);
    }
  }

  lemma {:induction false} NoLines(ls: seq<seq<Byte>>, n: nat)
    requires ls == []
    ensures PrintsLast(ls, n)
  {
    assert ls[0..] == [];
  }

  lemma {:induction false} NoneWanted(ls: seq<seq<Byte>>)
    requires Lines(ls) && ls != []
    ensures PrintsLast(ls, 0)
  {
    LineEnds(ls);
    assert ls[|ls|..] == [];
  }

  lemma {:induction false} OneMoreLine(ls: seq<seq<Byte>>, front: seq<seq<Byte>>, n: nat)
    requires ls != [] && n > 0 && Line(ls[|ls| - 1]) && front == ls[..|ls| - 1] && PrintsLast(front, n - 1)
    ensures PrintsLast(ls, n)
  {
    var s, last := Unlines(ls[..|ls| - 1]), ls[|ls| - 1];
    CutLastLine(s, last, n);
    DropThenAppend(s, last, CutPoint(s, n - 1));
    UnlinesSuffix(ls, Skipped(|ls|, n));
  }

  lemma {:induction false} FrontLines(ls: seq<seq<Byte>>) returns (front: seq<seq<Byte>>)
    requires Lines(ls) && ls != []
    ensures front == ls[..|ls| - 1] && Lines(front) && Line(ls[|ls| - 1])
  {
    front := ls[..|ls| - 1];
  }

  lemma {:induction false} DropThenAppend(s: seq<Byte>, t: seq<Byte>, c: nat)
    requires c <= |s|
    ensures (s + t)[c..] == s[c..] + t
  {
  }

  lemma {:induction false} UnlinesSuffix(ls: seq<seq<Byte>>, k: nat)
    requires k < |ls|
    ensures Unlines(ls[k..]) == Unlines(ls[..|ls| - 1][k..]) + ls[|ls| - 1]
  {
    assert ls[k..][..|ls[k..]| - 1] == ls[..|ls| - 1][k..];
  }

  lemma {:induction false} CutLastLine(s: seq<Byte>, l: seq<Byte>, n: nat)
    requires Line(l) && n > 0
    ensures CutPoint(s + l, n) == CutPoint(s, n - 1)
  {
    assert (s + l)[..|s + l| - 1] == s + l[..|l| - 1];
    CutWithinLine(s, l[..|l| - 1], n - 1);
  }

  lemma {:induction false} LineEnds(ls: seq<seq<Byte>>)
    requires Lines(ls) && ls != []
    ensures var s := Unlines(ls); s != [] && s[|s| - 1] == NEWLINE
  {
    assert Line(ls[|ls| - 1]);
  }

  lemma {:induction false} UnlinesAppend(ls: seq<seq<Byte>>, rest: seq<Byte>)
    ensures Unlines(ls + [rest]) == Unlines(ls) + rest
  {
    assert (ls + [rest])[..|ls + [rest]| - 1] == ls;
  }

  lemma {:induction false} LineAppended(ls: seq<seq<Byte>>, line: seq<Byte>)
    requires Lines(ls) && Line(line)
    ensures Lines(ls + [line])
  {
  }

  lemma {:induction false} LastByte(s: seq<Byte>, front: seq<Byte>, t: seq<Byte>)
    requires s != [] && s[..|s| - 1] == front + t && NoNewline(t)
    ensures var line := t + [s[|s| - 1]];
            s == front + line && (if s[|s| - 1] == NEWLINE then Line(line) else NoNewline(line))
  {
    assert s == s[..|s| - 1] + [s[|s| - 1]];
    assert (t + [s[|s| - 1]])[..|t|] == t;
  }

  /** Every file is complete lines and a rest without a newline. */
  lemma {:induction false} LinesOfFile(s: seq<Byte>) returns (ls: seq<seq<Byte>>, rest: seq<Byte>)
    ensures Lines(ls) && NoNewline(rest) && s == Unlines(ls) + rest
    ensures rest == [] <==> s == [] || s[|s| - 1] == NEWLINE
  {
    if s == [] { return [], []; }
    var front, t := LinesOfFile(s[..|s| - 1]);
    var line := t + [s[|s| - 1]];
    LastByte(s, Unlines(front), t);
    if s[|s| - 1] == NEWLINE {
      UnlinesAppend(front, line);
      LineAppended(front, line);
      ls, rest := front + [line], [];
      assert Unlines(ls) + rest == Unlines(ls);
    } else {
      ls, rest := front, line;
    }
  }

  lemma {:induction false} UnlinesSize(ls: seq<seq<Byte>>)
    requires ls != []
    ensures |Unlines(ls)| == |ls[0]| + |Unlines(ls[1..])|
    decreases |ls|
  {
    if |ls| > 1 {
      assert ls[..|ls| - 1][1..] == ls[1..][..|ls[1..]| - 1];
      UnlinesSize(ls[..|ls| - 1]);
    } else {
      assert ls[..0] == [] && ls[1..] == [];
    }
  }

  lemma {:induction false} SuffixShorter(ls: seq<seq<Byte>>, k: nat)
    requires Lines(ls) && k < |ls|
    ensures |Unlines(ls[k..])| > |Unlines(ls[k + 1..])|
  {
    assert ls[k..][1..] == ls[k + 1..] && Line(ls[k]);
    UnlinesSize(ls[k..]);
  }

  /** The lines of a file, a rest without a newline counted as one. */
  function AllLines(ls: seq<seq<Byte>>, rest: seq<Byte>): seq<seq<Byte>> { if rest == [] then ls else ls + [rest] }

  lemma {:induction false} LastOfAll(ls: seq<seq<Byte>>, rest: seq<Byte>, n: nat)
    requires n >= 1 && rest != []
    ensures Unlines(AllLines(ls, rest)[Skipped(|ls| + 1, n)..]) == Unlines(ls[Skipped(|ls| + 1, n)..]) + rest
  {
    var k := Skipped(|ls| + 1, n);
    assert (ls + [rest])[k..] == ls[k..] + [rest];
    UnlinesAppend(ls[k..], rest);
  }

  /** What is printed is the last n complete lines and the rest behind them. */
  lemma {:induction false} LinesAndRest(ls: seq<seq<Byte>>, rest: seq<Byte>, n: nat)
    requires Lines(ls) && NoNewline(rest)
    ensures var s := Unlines(ls) + rest; s[CutPoint(s, n)..] == Unlines(ls[Skipped(|ls|, n)..]) + rest
  {
    LastLines(ls, n);
    CutWithinLine(Unlines(ls), rest, n);
    DropThenAppend(Unlines(ls), rest, CutPoint(Unlines(ls), n));
  }

  lemma {:induction false} SameLinesIff(ls: seq<seq<Byte>>, rest: seq<Byte>, n: nat)
    requires Lines(ls) && n >= 1
    ensures var all := AllLines(ls, rest);
            Unlines(ls[Skipped(|ls|, n)..]) + rest == Unlines(all[Skipped(|all|, n)..]) <==> rest == [] || |ls| < n
  {
    var printed := Unlines(ls[Skipped(|ls|, n)..]);
    if rest == [] {
      assert printed + rest == printed;
    } else {
      LastOfAll(ls, rest, n);
      if |ls| < n {
        assert Skipped(|ls|, n) == 0 == Skipped(|ls| + 1, n);
      } else {
        SuffixShorter(ls, |ls| - n);
        assert |printed + rest| > |Unlines(ls[|ls| - n + 1..]) + rest|;
      }
    }
  }

  /** Counting a rest without a newline as a line, the last n lines are printed exactly when the file
      ends in a newline, or is empty, or has fewer than n newlines; otherwise one line more is. */
  lemma {:induction false} LastLinesIff(ls: seq<seq<Byte>>, rest: seq<Byte>, n: nat)
    requires Lines(ls) && NoNewline(rest) && n >= 1
    ensures var s := Unlines(ls) + rest; var all := AllLines(ls, rest);
            && s[CutPoint(s, n)..] == Unlines(ls[Skipped(|ls|, n)..]) + rest
            && (s[CutPoint(s, n)..] == Unlines(all[Skipped(|all|, n)..]) <==> rest == [] || |ls| < n)
  {
    LinesAndRest(ls, rest, n);
    SameLinesIff(ls, rest, n);
  }

  /** The program prints what follows the (n+1)-th newline from the end exactly when the buffer
      holds two bytes or more, or the file is empty: a buffer of one byte is read at the end. */
  lemma {:induction false} PrintedIsTail(content: seq<Byte>, n: nat, bufSize: nat)
    requires n >= 1 && bufSize >= 1
    ensures Printed(content, n, bufSize) == content[CutPoint(content, n)..] <==> bufSize >= 2 || content == []
  {
    if content != [] { CutBeforeEnd(content, n); }
  }

  lemma {:induction false} CutBeforeEnd(s: seq<Byte>, n: nat)
    requires s != [] && n >= 1
    ensures CutPoint(s, n) < |s|
  {
  }

  /** Nothing is printed for a count of 0, nor by a buffer of one byte. */
  lemma {:induction false} PrintsNothing(content: seq<Byte>, n: nat, bufSize: nat)
    requires bufSize >= 1 && (n == 0 || bufSize == 1)
    ensures Printed(content, n, bufSize) == []
  {
  }

  function LastBytes(content: seq<Byte>, count: nat): seq<Byte> {
    if count <= |content| then content[|content| - count..] else content
  }

  /** For a negative count what is printed is what stands behind the last newline of the last
      bufSize - 1 bytes, or all of those bytes if there is none among them. */
  lemma {:induction false} NegativeCount(content: seq<Byte>, n: int, bufSize: nat) returns (front: seq<Byte>)
    requires n < 0 && bufSize >= 1
    ensures LastBytes(content, bufSize - 1) == front + Printed(content, n, bufSize)
    ensures NoNewline(Printed(content, n, bufSize))
    ensures front == [] || front[|front| - 1] == NEWLINE
  {
    var block := LastBytes(content, bufSize - 1);
    front := block[..CutPoint(block, 0)];
    LastBlock(content, bufSize);
    AfterCut(block);
    SuffixOfSuffix(content, FirstBlock(|content|, bufSize), CutPoint(block, 0));
  }

  lemma {:induction false} LastBlock(content: seq<Byte>, bufSize: nat)
    requires bufSize >= 1
    ensures FirstBlock(|content|, bufSize) <= |content|
    ensures content[FirstBlock(|content|, bufSize)..] == LastBytes(content, bufSize - 1)
  {
  }

  lemma {:induction false} SuffixOfSuffix(s: seq<Byte>, i: nat, j: nat)
    requires i <= |s| && j <= |s| - i
    ensures s[i..][j..] == s[i + j..]
  {
  }

  lemma {:induction false} AfterCut(block: seq<Byte>)
    ensures var c := CutPoint(block, 0); NoNewline(block[c..]) && (c > 0 ==> block[c - 1] == NEWLINE)
  {
    CutPointMeaning(block, 0);
    NewlinesNone(block);
    NewlinesNone(block[CutPoint(block, 0)..]);
  }

  lemma {:induction false} NewlinesNone(s: seq<Byte>)
    ensures Newlines(s) == 0 <==> NoNewline(s)
  {
    if s != [] {
      NewlinesNone(s[..|s| - 1]);
      assert forall i :: 0 <= i < |s| - 1 ==> s[..|s| - 1][i] == s[i];
    }
  }
}
