/** The line runner as it works on the shell's line buffer: separators are overwritten
    with NUL, and each call sees the text from its starting point up to the next NUL. */
module ShellBuffer {
  import opened Descriptors
  import opened Shell
  import opened ShellText

  const NUL := '\0'

  /** The buffer of a line: the newline has become a NUL and another one follows it. */
  predicate Terminated(buffer: string) {
    |buffer| >= 2 && buffer[|buffer| - 2] == NUL && buffer[|buffer| - 1] == NUL
  }

  /** Where the first `c` of the C string at `start` is, or else its end. */
  function Scan(buffer: string, start: nat, c: char): (k: nat)
    requires Terminated(buffer) && start < |buffer|
    ensures start <= k < |buffer| && (buffer[k] == c || buffer[k] == NUL)
    decreases |buffer| - start
  {
    if buffer[start] == c || buffer[start] == NUL then start else Scan(buffer, start + 1, c)
  }

  /** The C string at `start`. */
  function Text(buffer: string, start: nat): string
    requires Terminated(buffer) && start < |buffer|
  {
    Stretch(buffer, start, Scan(buffer, start, NUL))
  }

  /** The buffer once the separator at `at` is overwritten. */
  function Cut(buffer: string, at: nat): (r: string)
    requires Terminated(buffer) && at < |buffer| && (buffer[at] == ';' || buffer[at] == '|')
    ensures Terminated(r) && |r| == |buffer| && at + 2 < |buffer|
  {
    buffer[at := NUL]
  }

  lemma {:induction false} ScanFinds(buffer: string, start: nat, c: char)
    requires Terminated(buffer) && start < |buffer|
    ensures forall j | start <= j < Scan(buffer, start, c) :: buffer[j] != c && buffer[j] != NUL
    decreases |buffer| - start
  {
    if buffer[start] != c && buffer[start] != NUL {
      ScanFinds(buffer, start + 1, c);
    }
  }

  lemma {:induction false} ScanStops(buffer: string, start: nat, c: char, k: nat)
    requires Terminated(buffer) && start <= k < |buffer| && (buffer[k] == c || buffer[k] == NUL)
    requires forall j | start <= j < k :: buffer[j] != c && buffer[j] != NUL
    ensures Scan(buffer, start, c) == k
    decreases k - start
  {
    if start < k {
      ScanStops(buffer, start + 1, c, k);
    }
  }

  /** A split shortens the text of the call. */
  lemma CutShortens(buffer: string, start: nat, sep: nat, c: char)
    requires Terminated(buffer) && start < |buffer| && (c == ';' || c == '|')
    requires sep == Scan(buffer, start, c) && buffer[sep] == c
    ensures sep + 2 < |buffer| && Scan(Cut(buffer, sep), start, NUL) == sep < Scan(buffer, start, NUL)
  {
    ScanFinds(buffer, start, c);
    ScanFinds(buffer, start, NUL);
    ScanStops(Cut(buffer, sep), start, NUL, sep);
  }

  /** How any buffer is split. The right side of a bar starts two places behind it, even
      where the text of this call has ended by then. */
  function SplitBuffer(buffer: string, start: nat): (r: (Program, string))
    requires Terminated(buffer) && start < |buffer|
    ensures Terminated(r.1) && |r.1| == |buffer|
    decreases |buffer| - start, Scan(buffer, start, NUL)
  {
    var sep := Scan(buffer, start, ';');
    if buffer[sep] == ';' then
      CutShortens(buffer, start, sep, ';');
      var left := SplitBuffer(Cut(buffer, sep), start);
      var right := SplitBuffer(left.1, sep + 1);
      (Sequence(left.0, right.0), right.1)
    else
      var bar := Scan(buffer, start, '|');
      if buffer[bar] == '|' then
        var right := SplitBuffer(Cut(buffer, bar), bar + 2);
        (Piped(Stretch(buffer, start, bar), right.0), right.1)
      else
        (Command(Stretch(buffer, start, bar)), buffer)
  }

  /** The runner on any line. */
  function RunBuffer(s: Process, buffer: string, start: nat): (Process, string)
    requires Terminated(buffer) && start < |buffer| && |s.table| >= 3
  {
    var split := SplitBuffer(buffer, start);
    (Execute(s, split.0), split.1)
  }

  lemma SplitAtBar(buffer: string, start: nat, bar: nat)
    requires Terminated(buffer) && start < |buffer|
    requires buffer[Scan(buffer, start, ';')] == NUL && bar == Scan(buffer, start, '|') && buffer[bar] == '|'
    ensures bar + 2 < |buffer|
    ensures var right := SplitBuffer(Cut(buffer, bar), bar + 2);
      SplitBuffer(buffer, start) == (Piped(Stretch(buffer, start, bar), right.0), right.1)
  {
  }

  lemma SplitAtSemicolon(buffer: string, start: nat, sep: nat)
    requires Terminated(buffer) && start < |buffer|
    requires sep == Scan(buffer, start, ';') && buffer[sep] == ';'
    ensures sep + 1 < |buffer|
    ensures var left := SplitBuffer(Cut(buffer, sep), start);
      var right := SplitBuffer(left.1, sep + 1);
      SplitBuffer(buffer, start) == (Sequence(left.0, right.0), right.1)
  {
  }

  lemma BufferAtBar(s: Process, buffer: string, start: nat, bar: nat)
    requires Terminated(buffer) && start < |buffer| && |s.table| >= 3
    requires buffer[Scan(buffer, start, ';')] == NUL && bar == Scan(buffer, start, '|') && buffer[bar] == '|'
    ensures bar + 2 < |buffer|
    ensures var right := RunBuffer(BeforeBar(s, Stretch(buffer, start, bar)), Cut(buffer, bar), bar + 2);
      RunBuffer(s, buffer, start) == (AfterBar(s.table, s.pipes, right.0), right.1)
  {
    SplitAtBar(buffer, start, bar);
    var command, right := Stretch(buffer, start, bar), SplitBuffer(Cut(buffer, bar), bar + 2).0;
    assert Execute(s, Piped(command, right)) == AfterBar(s.table, s.pipes, Execute(BeforeBar(s, command), right));
  }

  lemma BufferAtSemicolon(s: Process, buffer: string, start: nat, sep: nat)
    requires Terminated(buffer) && start < |buffer| && |s.table| >= 3
    requires sep == Scan(buffer, start, ';') && buffer[sep] == ';'
    ensures sep + 1 < |buffer| && Scan(Cut(buffer, sep), start, NUL) < Scan(buffer, start, NUL)
    ensures var left := RunBuffer(s, Cut(buffer, sep), start);
      && Terminated(left.1) && |left.1| == |buffer| && |left.0.table| >= 3
      && RunBuffer(s, buffer, start) == RunBuffer(left.0, left.1, sep + 1)
  {
    CutShortens(buffer, start, sep, ';');
    SplitAtSemicolon(buffer, start, sep);
  }

  // ---------------------------------------------------------------- in place

  /** The first `size` places of a line's memory. */
  function Held(line: array<char>, size: nat): (r: string)
    requires size <= line.Length
    reads line
    ensures |r| == size && forall j | 0 <= j < size :: r[j] == line[j]
  {
    Stretch(line[..], 0, size)
  }

  /** The shell process. */
  class Dsh {
    var table: Table
    var pipes: nat
    var trace: seq<Launch>

    function Snapshot(): Process
      reads this
    {
      Process(table, pipes, trace)
    }

    /** strstr for a needle of one character. */
    method FindInText(line: array<char>, ghost size: nat, start: nat, c: char) returns (k: nat)
      requires size <= line.Length && Terminated(Held(line, size)) && start < size
      ensures k == Scan(Held(line, size), start, c) && line[k] == Held(line, size)[k]
    {
      k := start;
      ghost var held := Held(line, size);
      while line[k] != c && line[k] != NUL
        invariant start <= k < size && held == Held(line, size) && Scan(held, start, c) == Scan(held, k, c)
        decreases size - k
      {
        assert line[k] == held[k];
        k := k + 1;
      }
      assert line[k] == held[k];
    }

    /** The runner, on a line whose first `size` places it stays in. */
    method Run(line: array<char>, ghost size: nat, start: nat)
      requires size <= line.Length && Terminated(Held(line, size)) && start < size && |table| >= 3
      modifies this, line
      ensures (Snapshot(), Held(line, size)) == RunBuffer(old(Snapshot()), old(Held(line, size)), start)
      ensures forall j | size <= j < line.Length :: line[j] == old(line[j])
      decreases size - start, Scan(Held(line, size), start, NUL), 1
    {
      var sep := FindInText(line, size, start, ';');
      if line[sep] == ';' {
        RunSequence(line, size, start, sep);
        return;
      }
      var bar := FindInText(line, size, start, '|');
      if line[bar] == '|' {
        RunPipeline(line, size, start, bar);
      } else {
        var command := Stretch(line[..], start, bar);
        assert command == Stretch(Held(line, size), start, bar);
        trace := trace + [Launch(command, Lookup(table, 0), Lookup(table, 1), Lookup(table, 2))];
      }
    }

    /** The part of a line around its first semicolon. */
    method RunSequence(line: array<char>, ghost size: nat, start: nat, sep: nat)
      requires size <= line.Length && Terminated(Held(line, size)) && start < size && |table| >= 3
      requires sep == Scan(Held(line, size), start, ';') && line[sep] == ';'
      modifies this, line
      ensures (Snapshot(), Held(line, size)) == RunBuffer(old(Snapshot()), old(Held(line, size)), start)
      ensures forall j | size <= j < line.Length :: line[j] == old(line[j])
      decreases size - start, Scan(Held(line, size), start, NUL), 0
    {
      ghost var cut := Cut(Held(line, size), sep);
      BufferAtSemicolon(Snapshot(), Held(line, size), start, sep);
      ghost var left := RunBuffer(Snapshot(), cut, start);
      line[sep] := NUL;
      assert Held(line, size) == cut;
      Run(line, size, start);
      assert Snapshot() == left.0 && Held(line, size) == left.1;
      Run(line, size, sep + 1);
    }

    /** The part of a line around its first bar. */
    method RunPipeline(line: array<char>, ghost size: nat, start: nat, bar: nat)
      requires size <= line.Length && Terminated(Held(line, size)) && start < size && |table| >= 3
      requires Held(line, size)[Scan(Held(line, size), start, ';')] == NUL
      requires bar == Scan(Held(line, size), start, '|') && line[bar] == '|'
      modifies this, line
      ensures (Snapshot(), Held(line, size)) == RunBuffer(old(Snapshot()), old(Held(line, size)), start)
      ensures forall j | size <= j < line.Length :: line[j] == old(line[j])
      decreases size - start, Scan(Held(line, size), start, NUL), 0
    {
      ghost var cut := Cut(Held(line, size), bar);
      BufferAtBar(Snapshot(), Held(line, size), start, bar);
      var head := Stretch(line[..], start, bar);
      assert head == Stretch(Held(line, size), start, bar);
      line[bar] := NUL;
      assert Held(line, size) == cut;
      var n := StartPipe(head);
      Run(line, size, bar + 2);
      FinishPipe(n);
    }

    /** The shell's own input again. */
    method FinishPipe(n: PipeNumbers)
      requires |table| >= 3
      modifies this
      ensures Snapshot() == old(Snapshot()).(table := RestoredTable(old(table), n))
    {
      table := Close(table, n.read);
      table := Dup2(table, n.origin, 0);
    }

    /** pipe and both dups. */
    method OpenPipe() returns (n: PipeNumbers)
      modifies this`table
      ensures n == NumbersFor(old(table), pipes) && table == Prepared(old(table), pipes)
    {
      var read := LowestFree(table);
      table := Allocate(table, ReadEnd(pipes));
      var write := LowestFree(table);
      table := Allocate(table, WriteEnd(pipes));
      var origin := DupNumber(table, 0);
      table := Dup(table, 0);
      var origout := DupNumber(table, 1);
      table := Dup(table, 1);
      n := PipeNumbers(read, write, origin, origout);
    }

    /** The child that runs `head`, and the shell's own input. */
    method ForkLeft(head: string, n: PipeNumbers)
      requires |table| >= 3
      modifies this
      ensures Snapshot() == AtTheRight(old(Snapshot()), n, old(table), head)
    {
      var child := Close(Dup2(table, n.write, 1), n.read);
      trace := trace + [Launch(head, Lookup(child, 0), Lookup(child, 1), Lookup(child, 2))];
      table := Dup2(table, n.read, 0);
      table := Close(table, n.write);
      pipes := pipes + 1;
    }

    method StartPipe(head: string) returns (n: PipeNumbers)
      requires |table| >= 3
      modifies this
      ensures n == NumbersFor(old(table), old(pipes))
      ensures Snapshot() == BeforeBar(old(Snapshot()), head)
    {
      n := OpenPipe();
      ForkLeft(head, n);
    }
  }

  // ---------------------------------------------------------------- texts in the buffer

  /** The text of the call is `text`. */
  ghost predicate Reads(buffer: string, start: nat, text: string) {
    && Terminated(buffer) && start + |text| < |buffer| && buffer[start + |text|] == NUL
    && forall j | 0 <= j < |text| :: text[j] == buffer[start + j] && text[j] != NUL
  }

  lemma TextIsRead(buffer: string, start: nat)
    requires Terminated(buffer) && start < |buffer|
    ensures Reads(buffer, start, Text(buffer, start))
  {
    ScanFinds(buffer, start, NUL);
  }

  lemma ScanText(buffer: string, start: nat, text: string, c: char)
    requires Reads(buffer, start, text) && c != NUL
    ensures Scan(buffer, start, c) == start + Find(text, c)
    ensures buffer[Scan(buffer, start, c)] == c <==> Find(text, c) < |text|
  {
    FoundFirst(text, c);
    ScanStopsAt(buffer, start, text, c, Find(text, c));
  }

  lemma ScanStopsAt(buffer: string, start: nat, text: string, c: char, i: nat)
    requires Reads(buffer, start, text) && i <= |text| && NoneBefore(text, c, i) && (i < |text| ==> text[i] == c)
    ensures Scan(buffer, start, c) == start + i
    ensures i < |text| ==> buffer[start + i] == c
  {
    forall j | start <= j < start + i
      ensures buffer[j] != c && buffer[j] != NUL
    {
      assert text[j - start] == buffer[j];
    }
    ScanStops(buffer, start, c, start + i);
  }

  /** Nothing outside the text of the call is touched. */
  ghost predicate SameOutside(buffer: string, start: nat, length: nat, after: string) {
    && |after| == |buffer|
    && forall j | 0 <= j < |buffer| && !(start <= j < start + length) :: after[j] == buffer[j]
  }

  lemma LeftText(buffer: string, start: nat, text: string, i: nat)
    requires Reads(buffer, start, text) && i < |text| && (text[i] == ';' || text[i] == '|')
    ensures buffer[start + i] == text[i] && Stretch(buffer, start, start + i) == Stretch(text, 0, i)
    ensures Reads(Cut(buffer, start + i), start, Stretch(text, 0, i))
  {
  }

  lemma RightText(buffer: string, start: nat, text: string, i: nat, after: string, skip: nat)
    requires Reads(buffer, start, text) && i < skip <= |text| && Terminated(after)
    requires SameOutside(buffer, start, i + 1, after)
    ensures Reads(after, start + skip, Stretch(text, skip, |text|))
  {
    forall j | 0 <= j < |text| - skip
      ensures Stretch(text, skip, |text|)[j] == after[start + skip + j] && Stretch(text, skip, |text|)[j] != NUL
    {
      assert text[skip + j] == buffer[start + (skip + j)];
    }
  }

  lemma Widen(buffer: string, start: nat, length: nat, middle: string, from: nat, more: nat, after: string, total: nat)
    requires SameOutside(buffer, start, length, middle) && SameOutside(middle, from, more, after)
    requires start <= from && length <= total && from + more <= start + total
    ensures SameOutside(buffer, start, total, after)
  {
  }

  /** The texts of a pipeline: nothing in them is a semicolon. */
  lemma PartHasNoSemicolon(text: string, lo: nat, hi: nat)
    requires NoneBefore(text, ';', |text|) && lo <= hi <= |text|
    ensures NoneBefore(Stretch(text, lo, hi), ';', hi - lo)
  {
  }

  lemma AroundBar(buffer: string, start: nat, text: string, i: nat)
    requires Reads(buffer, start, text) && i + 2 <= |text| && text[i] == '|'
    ensures buffer[start + i] == '|' && Stretch(buffer, start, start + i) == Stretch(text, 0, i)
    ensures Reads(Cut(buffer, start + i), start + i + 2, Stretch(text, i + 2, |text|))
  {
    LeftText(buffer, start, text, i);
    RightText(buffer, start, text, i, Cut(buffer, start + i), i + 2);
  }

  lemma ReadsTo(buffer: string, start: nat, text: string)
    requires Reads(buffer, start, text)
    ensures Scan(buffer, start, NUL) == start + |text|
  {
    forall j | start <= j < start + |text|
      ensures buffer[j] != NUL
    {
      assert text[j - start] == buffer[j];
    }
    ScanStops(buffer, start, NUL, start + |text|);
  }

  lemma SemicolonFound(buffer: string, start: nat, text: string, i: nat)
    requires Reads(buffer, start, text) && i == Find(text, ';') < |text|
    ensures Scan(buffer, start, ';') == start + i < Scan(buffer, start, NUL)
    ensures buffer[start + i] == ';'
  {
    ReadsTo(buffer, start, text);
    ScanText(buffer, start, text, ';');
  }

  /** Any line at all, well-formed or not: what is launched and how it is wired follows
      the splitting, what was open is as it was, and two more descriptors are open for
      each bar that was split at. */
  lemma AnyLine(s: Process, buffer: string, start: nat)
    requires Terminated(buffer) && start < |buffer| && Standard(s.table)
    ensures WiredRun(s, SplitBuffer(buffer, start).0, RunBuffer(s, buffer, start).0)
  {
    Wiring(s, SplitBuffer(buffer, start).0);
  }
}
