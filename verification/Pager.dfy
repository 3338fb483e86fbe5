/** The windowed file pager of the text box: a 10 KiB buffer slides over a file, and every key
    must leave it agreeing with the whole file. */
module Pager {
  const MAX_LEN: nat := 2048
  const BUF_SIZE: nat := 10240
  const HALF_BUF: nat := 5120

  // ---------- the file as lines ----------

  ghost predicate NulFree(file: string) {
    forall i :: 0 <= i < |file| ==> file[i] != '\0'
  }

  /** How many newlines there are before position p. */
  ghost function Newlines(file: string, p: nat): (n: nat)
    requires p <= |file|
  {
    if p == 0 then 0
    else if file[p - 1] == '\n' then Newlines(file, p - 1) + 1
    else Newlines(file, p - 1)
  }

  /** The number of the last line.  Lines are numbered from 0, and the empty line behind a
      final newline counts. */
  ghost function LastLine(file: string): (n: nat) {
    Newlines(file, |file|)
  }

  ghost predicate IsLineStart(file: string, p: nat)
    requires p <= |file|
  {
    p == 0 || file[p - 1] == '\n'
  }

  /** Where the line that covers position p ends: at its newline or at the end of the file. */
  ghost function LineEnd(file: string, p: nat): (e: nat)
    requires p <= |file|
    ensures p <= e <= |file|
    decreases |file| - p
  {
    if p == |file| || file[p] == '\n' then p else LineEnd(file, p + 1)
  }

  /** Where line c starts; the end of the file for every c behind the last line. */
  ghost function Start(file: string, c: nat): (p: nat)
    ensures p <= |file|
  {
    if c == 0 then 0
    else
      var e := LineEnd(file, Start(file, c - 1));
      if e < |file| then e + 1 else e
  }

  ghost function Cut(s: string): (t: string)
    ensures t <= s && |t| == if |s| <= 2048 then |s| else 2048
  {
    if |s| <= MAX_LEN then s else s[..MAX_LEN]
  }

  /** The text of line c, cut to MAX_LEN; empty behind the last line. */
  ghost function LineText(file: string, c: nat): (t: string) {
    if c <= LastLine(file) then Cut(file[Start(file, c)..LineEnd(file, Start(file, c))]) else ""
  }

  /** The cursor a lines further on, where it stops behind the last line. */
  ghost function Forward(file: string, c: nat, a: nat): (d: nat) {
    if c + a <= LastLine(file) then c + a else LastLine(file) + 1
  }

  ghost function Back(c: nat, a: nat): (d: nat) {
    if a <= c then c - a else 0
  }

  lemma {:induction false} NewlinesMonotonic(file: string, p: nat, q: nat)
    requires p <= q <= |file|
    ensures Newlines(file, p) <= Newlines(file, q)
    ensures p < q && file[q - 1] == '\n' ==> Newlines(file, p) < Newlines(file, q)
    decreases q
  {
    if p < q {
      NewlinesMonotonic(file, p, q - 1);
    }
  }

  lemma LineEndStep(file: string, p: nat)
    requires p <= |file|
    ensures LineEnd(file, p) == if p == |file| || file[p] == '\n' then p else LineEnd(file, p + 1)
  {
  }

  lemma {:induction false} NewlinesToEnd(file: string, p: nat)
    requires p <= |file|
    ensures Newlines(file, LineEnd(file, p)) == Newlines(file, p)
    ensures LineEnd(file, p) < |file| ==> file[LineEnd(file, p)] == '\n'
    decreases |file| - p
  {
    if p < |file| && file[p] != '\n' {
      NewlinesToEnd(file, p + 1);
    }
  }

  /** Line c starts behind exactly c newlines; behind the last line there is only the end. */
  lemma {:induction false} StartNumbers(file: string, c: nat)
    ensures c <= LastLine(file) ==> IsLineStart(file, Start(file, c)) && Newlines(file, Start(file, c)) == c
    ensures c > LastLine(file) ==> Start(file, c) == |file|
  {
    if c > 0 {
      StartNumbers(file, c - 1);
      NewlinesToEnd(file, Start(file, c - 1));
      NewlinesMonotonic(file, Start(file, c), |file|);
      NewlinesMonotonic(file, Start(file, c - 1), |file|);
    }
  }

  /** A line start is known by the number of newlines before it. */
  lemma StartIsUnique(file: string, p: nat)
    requires p <= |file| && IsLineStart(file, p)
    ensures Newlines(file, p) <= LastLine(file) && Start(file, Newlines(file, p)) == p
  {
    var c := Newlines(file, p);
    NewlinesMonotonic(file, p, |file|);
    StartNumbers(file, c);
    if p < Start(file, c) {
      NewlinesMonotonic(file, p, Start(file, c));
    } else if Start(file, c) < p {
      NewlinesMonotonic(file, Start(file, c), p);
    }
  }

  /** The newlines before the character in front of line c, and before the end. */
  lemma CursorNumbers(file: string, c: nat)
    ensures Start(file, 0) == 0
    ensures 0 < c <= LastLine(file)
            ==> var p := Start(file, c); p > 0 && file[p - 1] == '\n' && Newlines(file, p - 1) == c - 1
    ensures c == LastLine(file) + 1 ==> Newlines(file, Start(file, c)) == c - 1
  {
    StartNumbers(file, c);
  }

  lemma FileStart(file: string)
    ensures Newlines(file, 0) == 0 && Start(file, 0) == 0
  {
  }

  lemma BehindNewline(file: string, p: nat)
    requires p < |file| && file[p] == '\n'
    ensures Newlines(file, p) + 1 <= LastLine(file) && Start(file, Newlines(file, p) + 1) == p + 1
  {
    StartIsUnique(file, p + 1);
  }

  /** Only the last line ends without a newline. */
  lemma LastLineEnds(file: string, c: nat)
    requires c <= LastLine(file)
    ensures LineEnd(file, Start(file, c)) == |file| <==> c == LastLine(file)
  {
    StartNumbers(file, c);
    StartNumbers(file, c + 1);
    NewlinesToEnd(file, Start(file, c));
  }

  /** What a scan from the start of line c to its end finds. */
  lemma ScanLine(file: string, c: nat)
    requires c <= LastLine(file) + 1
    ensures LineEnd(file, Start(file, c)) == |file| <==> c >= LastLine(file)
    ensures Start(file, Forward(file, c, 1)) == Start(file, c + 1)
    ensures LineText(file, c) == Cut(file[Start(file, c)..LineEnd(file, Start(file, c))])
  {
    StartNumbers(file, c);
    StartNumbers(file, c + 1);
    if c <= LastLine(file) {
      LastLineEnds(file, c);
    }
  }

  /** The text of the first c lines, uncut, each with the newline that ends it. */
  ghost function Joined(file: string, c: nat): (t: string) {
    if c == 0 then ""
    else
      var s := Start(file, c - 1);
      Joined(file, c - 1) + file[s..LineEnd(file, s)] + if c - 1 < LastLine(file) then "\n" else ""
  }

  /** The lines are the whole file, and no newline is inside one. */
  lemma LinesJoin(file: string, c: nat)
    requires c <= LastLine(file) + 1
    ensures Joined(file, c) == file[..Start(file, c)]
    ensures Joined(file, LastLine(file) + 1) == file
    ensures c > 0 ==> '\n' !in file[Start(file, c - 1)..LineEnd(file, Start(file, c - 1))]
  {
    LinesJoinTo(file, c);
    LinesJoinTo(file, LastLine(file) + 1);
    StartNumbers(file, LastLine(file) + 1);
    if c > 0 {
      NoNewlineInside(file, Start(file, c - 1));
    }
  }

  lemma {:induction false} LinesJoinTo(file: string, c: nat)
    requires c <= LastLine(file) + 1
    ensures Joined(file, c) == file[..Start(file, c)]
  {
    if c == 0 {
      assert Joined(file, 0) == "" == file[..0];
    } else {
      JoinedNext(file, c);
      LinesJoinTo(file, c - 1);
      hide *;
      PrefixStep(file, Start(file, c - 1), LineEnd(file, Start(file, c - 1)));
    }
  }

  lemma JoinedNext(file: string, c: nat)
    requires 0 < c <= LastLine(file) + 1
    ensures var s := Start(file, c - 1);
            var e := LineEnd(file, s);
            && (e < |file| ==> file[e] == '\n') && Start(file, c) == (if e < |file| then e + 1 else e)
            && Joined(file, c) == Joined(file, c - 1) + file[s..e] + if e < |file| then "\n" else ""
  {
    LastLineEnds(file, c - 1);
    NewlinesToEnd(file, Start(file, c - 1));
  }

  lemma PrefixStep(file: string, s: nat, e: nat)
    requires s <= e <= |file| && (e < |file| ==> file[e] == '\n')
    ensures file[..s] + file[s..e] + (if e < |file| then "\n" else "") == file[..if e < |file| then e + 1 else e]
  {
  }

  lemma {:induction false} NoNewlineInside(file: string, p: nat)
    requires p <= |file|
    ensures '\n' !in file[p..LineEnd(file, p)]
    decreases |file| - p
  {
    if p < |file| && file[p] != '\n' {
      NoNewlineInside(file, p + 1);
      assert file[p..LineEnd(file, p)] == [file[p]] + file[p + 1..LineEnd(file, p)];
    }
  }

  /** The length of a page of h rows from line top: the lines up to and with the last one. */
  ghost function PageLength(file: string, top: nat, h: nat): (n: nat)
    requires top <= LastLine(file)
  {
    if top + h <= LastLine(file) then h else LastLine(file) + 1 - top
  }

  ghost function PageText(file: string, top: nat, h: nat): (rows: seq<string>)
    ensures |rows| == h && forall i :: 0 <= i < h ==> rows[i] == LineText(file, top + i)
  {
    seq(h, i requires 0 <= i < h => LineText(file, top + i))
  }

  /** Going back by the page length undoes a page, passed the end of the file or not. */
  lemma PageRoundTrip(file: string, top: nat, h: nat)
    requires top <= LastLine(file)
    ensures Forward(file, top, h) == top + PageLength(file, top, h)
    ensures Back(Forward(file, top, h), PageLength(file, top, h)) == top
  {
  }

  // ---------- the pager ----------

  /** The buffer holds the bytes of the file before the file position, and then a NUL. */
  ghost predicate Holds(buf: seq<char>, file: string, fpos: nat, bytesRead: nat)
    requires bytesRead <= fpos <= |file| && bytesRead < |buf|
  {
    buf[bytesRead] == '\0' && forall i :: 0 <= i < bytesRead ==> buf[i] == file[fpos - bytesRead + i]
  }

  class Window {
    const file: string
    const buf: array<char>
    const line: array<char>
    var fpos: nat
    var bytesRead: nat
    var page: nat
    var beginReached: bool
    var endReached: bool
    var pageLength: nat
    /** The number of text rows, height - 4, and what they show. */
    const h: nat
    var rows: seq<string>

    ghost predicate Valid()
      reads this, buf
    {
      && NulFree(file)
      && buf != line && buf.Length == BUF_SIZE + 1 && line.Length == MAX_LEN + 1
      && page <= bytesRead <= fpos <= |file| && bytesRead <= BUF_SIZE
      && (fpos < |file| ==> bytesRead == BUF_SIZE)
      && Holds(buf[..], file, fpos, bytesRead)
    }

    /** The position in the file that the page pointer stands for. */
    ghost function Pos(): (p: nat)
      requires Valid()
      reads this, buf
      ensures p <= |file|
    {
      fpos - bytesRead + page
    }

    /** The page pointer is at the start of line c. */
    ghost predicate At(c: nat)
      reads this, buf
    {
      Valid() && c <= LastLine(file) + 1 && Pos() == Start(file, c)
    }

    /** Reads from offset base into the buffer: lseek and read. */
    method ReadAt(base: nat, pos: nat)
      requires NulFree(file) && buf != line && buf.Length == BUF_SIZE + 1 && line.Length == MAX_LEN + 1
      requires base <= pos <= |file| && pos <= base + BUF_SIZE
      modifies this`fpos, this`bytesRead, this`page, buf
      ensures Valid() && Pos() == pos && fpos - bytesRead == base
      ensures base < |file| ==> fpos > base
    {
      bytesRead := if |file| - base < BUF_SIZE then |file| - base else BUF_SIZE;
      forall i | 0 <= i < bytesRead {
        buf[i] := file[base + i];
      }
      fpos := base + bytesRead;
      buf[bytesRead] := '\0';
      page := pos - base;
    }

    /** The byte under the page pointer: the file's, or the NUL behind the buffered bytes. */
    lemma CurrentByte()
      requires Valid()
      ensures buf[page] == '\0' <==> page == bytesRead
      ensures page < bytesRead ==> Pos() < |file| && buf[page] == file[Pos()]
    {
    }

    /** Stores the next character of a line, or the NUL that cuts it. */
    method StoreChar(i: nat, ch: char, ghost rest: string) returns (next: nat)
      requires line.Length == MAX_LEN + 1 && Copied(line[..], rest, i)
      requires i <= MAX_LEN ==> i < |rest| && rest[i] == ch
      modifies line
      ensures next == CopyIndex(i + 1) && Copied(line[..], rest, next)
    {
      next := i;
      if i < MAX_LEN {
        line[i] := ch;
        next := i + 1;
      } else if i == MAX_LEN {
        line[i] := '\0';
        next := i + 1;
      }
    }

    /** The loop of get_line: copies up to the newline or the end of the file, across refills. */
    method ScanLineEnd() returns (i: nat)
      requires Valid()
      modifies this`fpos, this`bytesRead, this`page, this`endReached, buf, line
      ensures Valid() && Pos() == LineEnd(file, old(Pos()))
      ensures i == CopyIndex(Pos() - old(Pos())) && Copied(line[..], file[old(Pos())..], i)
      ensures endReached == (Pos() == |file|) && (!endReached ==> page < bytesRead)
    {
      hide Holds, NulFree, Copied, LineEnd;
      ghost var start, rest := Pos(), file[Pos()..];
      i := 0;
      NothingCopied(line[..], rest);
      endReached := false;
      while buf[page] != '\n'
        invariant Valid() && start <= Pos() && LineEnd(file, Pos()) == LineEnd(file, start)
        invariant i == CopyIndex(Pos() - start) && Copied(line[..], rest, i)
        invariant !endReached
        decreases |file| - Pos(), |file| - fpos
      {
        CurrentByte();
        LineEndStep(file, Pos());
        if buf[page] == '\0' {
          if fpos < |file| {
            ReadAt(fpos, fpos);
          } else {
            endReached := true;
            break;
          }
        } else {
          i := StoreChar(i, buf[page], rest);
          page := page + 1;
        }
      }
      CurrentByte();
      LineEndStep(file, Pos());
    }

    /** Returns the current line, cut, as a NUL-terminated string in the line buffer, and
        moves to the start of the next one. */
    method GetLine(ghost c: nat)
      requires At(c)
      modifies this`fpos, this`bytesRead, this`page, this`endReached, buf, line
      ensures At(Forward(file, c, 1)) && endReached == (c >= LastLine(file))
      ensures TextOf(line[..]) == LineText(file, c)
    {
      ScanLine(file, c);
      ghost var start, end := Start(file, c), LineEnd(file, Start(file, c));
      assert Start(file, c + 1) == if end < |file| then end + 1 else end;
      hide Start, LastLine, LineText, Newlines, Cut, Holds, Copied, NulFree, CString;
      var i := ScanLineEnd();
      if i <= MAX_LEN {
        line[i] := '\0';
      }
      CutLine(line[..], file, start, end, i);
      StringText(line[..], Cut(file[start..end]));
      if !endReached {
        page := page + 1;
      }
    }

    /** Slides the window back by half a buffer, or to the start of the file. */
    method SlideBack() returns (moved: bool)
      requires Valid() && page == 0
      modifies this`fpos, this`bytesRead, this`page, buf
      ensures Valid() && Pos() == old(Pos()) && moved == (Pos() > 0) && (moved ==> page > 0)
    {
      moved := fpos > bytesRead;
      if moved {
        if fpos < HALF_BUF + bytesRead {
          ReadAt(0, fpos - bytesRead);
        } else {
          ReadAt(fpos - bytesRead - HALF_BUF, fpos - bytesRead);
        }
      }
    }

    /** Moves back to the newline before the position, across refills, or to the start of the
        file. */
    method BackToNewline() returns (found: bool)
      requires Valid()
      modifies this`fpos, this`bytesRead, this`page, buf
      ensures Valid() && found == (Newlines(file, old(Pos())) > 0)
      ensures found ==> OnNewline(Newlines(file, old(Pos())))
      ensures !found ==> Pos() == 0
    {
      hide Holds, NulFree;
      while true
        invariant Valid() && Newlines(file, Pos()) == Newlines(file, old(Pos()))
        decreases Pos()
      {
        if page == 0 {
          var moved := SlideBack();
          if !moved {
            return false;
          }
        }
        page := page - 1;
        CurrentByte();
        if buf[page] == '\n' {
          return true;
        }
      }
    }

    /** The line that the cursor stands for: the end flag puts it behind the line at the page
        pointer, which is right only at the end of the file. */
    ghost function Cursor(): (c: nat)
      requires Valid()
      reads this, buf
    {
      Newlines(file, Pos()) + if endReached then 1 else 0
    }

    /** It does agree with the position behind a page, before anything has gone back. */
    lemma CursorAt(c: nat)
      requires At(c) && endReached == (c == LastLine(file) + 1)
      ensures Cursor() == c && (endReached || IsLineStart(file, Pos()))
    {
      StartNumbers(file, c);
      CursorNumbers(file, c);
    }

    /** Steps back over the newline in front of the page pointer.  The internal error that is
        reported when there is none never occurs. */
    method LeaveLine() returns (atStart: bool, internalError: bool)
      requires Valid() && IsLineStart(file, Pos())
      modifies this`fpos, this`bytesRead, this`page, buf
      ensures Valid() && !internalError && atStart == (old(Pos()) == 0) && (atStart ==> Pos() == 0)
      ensures !atStart ==> OnNewline(Newlines(file, old(Pos())))
    {
      hide Holds, NulFree;
      atStart, internalError := false, false;
      if page == 0 {
        var moved := SlideBack();
        if !moved {
          return true, false;
        }
      }
      page := page - 1;
      CurrentByte();
      internalError := buf[page] != '\n';
    }

    /** The page pointer is at the c-th newline, c counted from 1. */
    ghost predicate OnNewline(c: nat)
      reads this, buf
    {
      Valid() && page < bytesRead && Pos() < |file| && file[Pos()] == '\n' && Newlines(file, Pos()) + 1 == c
    }

    /** Goes back n lines: to the line n lines before the cursor, or to the start of the file.
        With the end flag and no line to go back, it goes one character forward instead, past
        the end of the file. */
    method BackLines(n: nat) returns (internalError: bool)
      requires Valid() && (endReached || IsLineStart(file, Pos()))
      modifies this`fpos, this`bytesRead, this`page, this`beginReached, buf
      ensures !internalError
      ensures n > 0 || !endReached ==> At(Back(old(Cursor()), n)) && beginReached == (old(Cursor()) <= n)
      ensures n == 0 && endReached
              ==> page == old(page) + 1 && fpos == old(fpos) && bytesRead == old(bytesRead) && !beginReached
    {
      hide Holds, NulFree, IsLineStart, Start, LastLine, Newlines;
      FileStart(file);
      beginReached, internalError := false, false;
      if !endReached {
        var atStart;
        atStart, internalError := LeaveLine();
        if atStart {
          beginReached := true;
          return;
        }
        if internalError {
          return;
        }
      }
      for i := 0 to n
        invariant Valid() && Newlines(file, Pos()) + 1 + i == old(Cursor()) && !beginReached
        invariant i > 0 || !endReached ==> OnNewline(old(Cursor()) - i)
        invariant i == 0 && endReached ==> page == old(page) && fpos == old(fpos) && bytesRead == old(bytesRead)
      {
        var found := BackToNewline();
        if !found {
          beginReached := true;
          return;
        }
      }
      if n > 0 || !endReached {
        BehindNewline(file, Pos());
      }
      page := page + 1;
    }

    // ---------- the dialog ----------

    /** The screen shows the page from line top, and every flag agrees with that. */
    ghost predicate Shows(top: nat)
      reads this, buf
    {
      && h > 0 && top <= LastLine(file)
      && At(Forward(file, top, h)) && rows == PageText(file, top, h)
      && endReached == (top + h > LastLine(file)) && beginReached == (top == 0)
      && pageLength == PageLength(file, top, h)
    }

    /** The loop of print_page: fetches h lines and counts them up to the end of the file. */
    method TakePage(ghost c: nat) returns (texts: seq<string>)
      requires h > 0 ==> At(c) && c <= LastLine(file)
      modifies this`fpos, this`bytesRead, this`page, this`endReached, this`pageLength, buf, line
      ensures |texts| == h
      ensures h > 0
              ==> && At(Forward(file, c, h)) && texts == PageText(file, c, h)
                  && endReached == (c + h > LastLine(file)) && pageLength == PageLength(file, c, h)
      ensures h == 0 ==> pageLength == 0 && Unmoved(old(page), old(fpos), old(bytesRead), old(endReached), old(buf[..]))
    {
      hide LastLine, Start, LineText, TextOf, Holds, NulFree;
      var passedEnd := false;
      pageLength, texts := 0, [];
      for i := 0 to h
        invariant h > 0 ==> At(Forward(file, c, i)) && texts == PageText(file, c, i)
        invariant h > 0 ==> passedEnd == (c + i > LastLine(file)) && pageLength == PageLength(file, c, i)
        invariant |texts| == i && (i > 0 ==> endReached == passedEnd)
        invariant h == 0
                  ==> pageLength == 0 && Unmoved(old(page), old(fpos), old(bytesRead), old(endReached), old(buf[..]))
      {
        GetLine(Forward(file, c, i));
        LineBehindEnd(file, c, i);
        texts := texts + [TextOf(line[..])];
        if !passedEnd {
          pageLength := pageLength + 1;
        }
        if endReached && !passedEnd {
          passedEnd := true;
        }
      }
    }

    /** The cursor and the buffer are where they were. */
    ghost predicate Unmoved(page: nat, fpos: nat, bytesRead: nat, endReached: bool, bytes: seq<char>)
      reads this, buf
    {
      && this.page == page && this.fpos == fpos && this.bytesRead == bytesRead && this.endReached == endReached
      && buf[..] == bytes
    }

    method PrintPage(ghost top: nat)
      requires h > 0 ==> At(top) && top <= LastLine(file) && beginReached == (top == 0)
      modifies this`fpos, this`bytesRead, this`page, this`endReached, this`pageLength, this`rows, buf, line
      ensures h > 0 ==> Shows(top)
      ensures h == 0
              ==> rows == [] && pageLength == 0
                  && Unmoved(old(page), old(fpos), old(bytesRead), old(endReached), old(buf[..]))
    {
      rows := TakePage(top);
    }

    /** A page, and the way back over it by its length, end where they started, whether the page
        has passed the end of the file or not. */
    method PageAndBack(ghost top: nat)
      requires At(top) && top <= LastLine(file) && h > 0
      modifies this`fpos, this`bytesRead, this`page, this`beginReached, this`endReached, this`pageLength, this`rows,
               buf, line
      ensures At(top) && rows == PageText(file, top, h) && beginReached == (top == 0)
    {
      hide Start, LineText, TextOf, LineEnd, Newlines, LastLine, Holds, NulFree;
      rows := TakePage(top);
      BackOverPage(top, 0);
    }

    /** Goes back over a page that was printed, and so many lines more. */
    method BackOverPage(ghost top: nat, n: nat)
      requires h > 0 && top <= LastLine(file) && At(Forward(file, top, h))
      requires endReached == (top + h > LastLine(file)) && pageLength == PageLength(file, top, h)
      modifies this`fpos, this`bytesRead, this`page, this`beginReached, buf
      ensures At(Back(top, n)) && beginReached == (top <= n)
    {
      hide Start, LineText, TextOf, LineEnd, Newlines, LastLine, Holds, NulFree;
      PageRoundTrip(file, top, h);
      CursorAt(Forward(file, top, h));
      var _ := BackLines(pageLength + n);
    }

    constructor (file: string, height: nat)
      requires NulFree(file)
      ensures this.file == file && h == if height > 4 then height - 4 else 0
      ensures if height > 4 then Shows(0) else At(0) && rows == [] && pageLength == 0
      ensures fresh(buf) && fresh(line)
    {
      this.file := file;
      this.buf := new char[BUF_SIZE + 1];
      this.line := new char[MAX_LEN + 1];
      h, rows := if height > 4 then height - 4 else 0, [];
      beginReached, endReached, pageLength := true, false, 0;
      fpos, bytesRead, page := 0, 0, 0;
      new;
      ReadAt(0, 0);
      PrintPage(0);
    }

    /** Handles one key. */
    method Press(key: Key, ghost top: nat)
      requires Shows(top)
      modifies this, buf, line
      ensures Shows(Move(file, h, top, key))
    {
      hide Start, LineText, TextOf, LineEnd, Newlines, LastLine, Holds, NulFree;
      match key {
        case Home => PressHome(top);
        case End => PressEnd();
        case Up => PressUp(top);
        case Down => PressDown(top);
        case PageUp =>
          if !beginReached {
            BackOverPage(top, h);
            PrintPage(Back(top, h));
          }
        case PageDown =>
          if !endReached {
            beginReached := false;
            PrintPage(Forward(file, top, h));
          }
        case Scroll =>
          BackOverPage(top, 0);
          PrintPage(top);
      }
    }

    method PressHome(ghost top: nat)
      requires Shows(top)
      modifies this, buf, line
      ensures Shows(0)
    {
      if !beginReached {
        beginReached := true;
        if fpos > bytesRead {
          ReadAt(0, 0);
        }
        page := 0;
        PrintPage(0);
      }
    }

    /** Shows the last page; with no text rows it leaves the file by one character instead. */
    method PressEnd()
      requires Valid()
      modifies this, buf, line
      ensures h > 0 ==> Shows(Back(LastLine(file) + 1, h))
      ensures h == 0 ==> page == bytesRead + 1 && fpos == |file| && endReached && rows == []
    {
      endReached := true;
      if fpos < |file| {
        ReadAt(|file| - BUF_SIZE, |file|);
      }
      page := bytesRead;
      StartNumbers(file, LastLine(file) + 1);
      CursorAt(LastLine(file) + 1);
      var _ := BackLines(h);
      PrintPage(Back(LastLine(file) + 1, h));
    }

    /** The screen is scrolled down, its first row printed, and the lines counted anew. */
    method PressUp(ghost top: nat)
      requires Shows(top)
      modifies this, buf, line
      ensures Shows(Back(top, 1))
    {
      hide Start, LineText, TextOf, LineEnd, Newlines, LastLine, Holds, NulFree;
      if !beginReached {
        BackOverPage(top, 1);
        var texts := TakePage(top - 1);
        rows := [texts[0]] + rows[..h - 1];
      }
    }

    /** The screen is scrolled up and its last row printed. */
    method PressDown(ghost top: nat)
      requires Shows(top)
      modifies this, buf, line
      ensures Shows(if top + h <= LastLine(file) then top + 1 else top)
    {
      hide Start, LineText, TextOf, LineEnd, Newlines, LastLine, Holds, NulFree;
      if !endReached {
        beginReached := false;
        GetLine(top + h);
        rows := rows[1..] + [TextOf(line[..])];
      }
    }

    /** Handles any sequence of keys. */
    method Run(keys: seq<Key>)
      requires Shows(0)
      modifies this, buf, line
      ensures Shows(TopAfter(file, h, keys))
    {
      for i := 0 to |keys|
        invariant Shows(TopAfter(file, h, keys[..i]))
      {
        assert keys[..i + 1][..i] == keys[..i];
        Press(keys[i], TopAfter(file, h, keys[..i]));
      }
      assert keys[..|keys|] == keys;
    }
  }

  datatype Key = Home | End | Up | Down | PageUp | PageDown | Scroll

  /** How a key moves the first shown line, on the whole file. */
  ghost function Move(file: string, h: nat, top: nat, key: Key): (t: nat) {
    match key
    case Home => 0
    case End => Back(LastLine(file) + 1, h)
    case Up => Back(top, 1)
    case Down => if top + h <= LastLine(file) then top + 1 else top
    case PageUp => Back(top, h)
    case PageDown => if top + h <= LastLine(file) then top + h else top
    case Scroll => top
  }

  ghost function TopAfter(file: string, h: nat, keys: seq<Key>): (top: nat) {
    if keys == [] then 0 else Move(file, h, TopAfter(file, h, keys[..|keys| - 1]), keys[|keys| - 1])
  }

  /** Away from the ends of the file, the keys of each pair undo each other. */
  lemma KeysUndone(file: string, h: nat, top: nat)
    requires top <= LastLine(file)
    ensures top + h <= LastLine(file)
            ==> && Move(file, h, Move(file, h, top, Down), Up) == top
                && Move(file, h, Move(file, h, top, PageDown), PageUp) == top
    ensures top >= 1 && top + h <= LastLine(file) + 1 ==> Move(file, h, Move(file, h, top, Up), Down) == top
    ensures top >= h ==> Move(file, h, Move(file, h, top, PageUp), PageDown) == top
  {
  }

  /** At the first page the keys that go back do nothing, and at the last one, which ends with the
      last line if the file has h lines, those that go on. */
  lemma KeysStop(file: string, h: nat)
    requires h > 0
    ensures var first, last := Move(file, h, 0, Home), Move(file, h, 0, End);
            && first == Move(file, h, first, Up) == Move(file, h, first, PageUp) == 0
            && last == Move(file, h, last, Down) == Move(file, h, last, PageDown)
            && if h <= LastLine(file) then last + h == LastLine(file) + 1 else last == 0
  {
  }

  /** Paging down from the start shows every line in its turn: after n keys, those from n * h on. */
  lemma {:induction false} PagesFollow(file: string, h: nat, keys: seq<Key>)
    requires forall i :: 0 <= i < |keys| ==> keys[i] == PageDown
    requires |keys| * h <= LastLine(file)
    ensures TopAfter(file, h, keys) == |keys| * h
  {
    if keys != [] {
      var n := |keys| - 1;
      NextMultiple(n, h);
      hide LastLine;
      PagesFollow(file, h, keys[..n]);
    }
  }

  lemma NextMultiple(n: nat, h: nat)
    ensures (n + 1) * h == n * h + h
  {
  }

  lemma LineBehindEnd(file: string, c: nat, i: nat)
    requires c <= LastLine(file)
    ensures LineText(file, Forward(file, c, i)) == LineText(file, c + i)
    ensures Forward(file, Forward(file, c, i), 1) == Forward(file, c, i + 1)
  {
  }

  /** The index in the line buffer when n characters of the line have been passed. */
  function CopyIndex(n: nat): (i: nat) {
    if n <= MAX_LEN then n else MAX_LEN + 1
  }

  /** The first bytes of the line buffer, and the NUL that cuts a line that is too long. */
  ghost predicate Copied(line: seq<char>, rest: string, i: nat) {
    && |line| == MAX_LEN + 1 && i <= MAX_LEN + 1
    && (if i <= MAX_LEN then i <= |rest| && line[..i] == rest[..i]
        else MAX_LEN < |rest| && line[..MAX_LEN] == rest[..MAX_LEN] && line[MAX_LEN] == '\0')
  }

  lemma NothingCopied(line: seq<char>, rest: string)
    requires |line| == MAX_LEN + 1
    ensures Copied(line, rest, 0)
  {
  }

  lemma CutLine(line: seq<char>, file: string, start: nat, end: nat, i: nat)
    requires NulFree(file) && start <= end <= |file|
    requires Copied(line, file[start..], i) && (i <= MAX_LEN ==> line[i] == '\0')
    requires i == CopyIndex(end - start)
    ensures CString(line, Cut(file[start..end])) && NulFree(Cut(file[start..end]))
  {
    assert file[start..end] == file[start..][..end - start];
    assert NulFree(file[start..end]) && NulFree(Cut(file[start..end]));
  }

  ghost predicate CString(line: seq<char>, text: string) {
    |text| < |line| && line[..|text|] == text && line[|text|] == '\0'
  }

  /** The C string in a buffer: what is before the first NUL. */
  function TextOf(line: seq<char>): (text: string) {
    if line == [] || line[0] == '\0' then "" else [line[0]] + TextOf(line[1..])
  }

  lemma {:induction false} StringText(line: seq<char>, text: string)
    requires CString(line, text) && NulFree(text)
    ensures TextOf(line) == text
  {
    if text != "" {
      assert line[0] == line[..|text|][0] == text[0] != '\0';
      assert line[1..][..|text| - 1] == line[..|text|][1..] == text[1..];
      StringText(line[1..], text[1..]);
      assert text == [text[0]] + text[1..];
    }
  }
}
