/** The shell's main loop: every line runs with the null device for its input and two
    files of its own for its output, and the terminal comes back afterwards. */
module ShellSession {
  import opened Descriptors
  import opened Shell
  import opened ShellText
  import opened ShellBuffer
  import opened ShellLines

  /** The copies of descriptors 0, 1 and 2 made at the start. */
  datatype Originals = Originals(input: int, output: int, error: int)

  function SaveAll(t: Table): (r: (Table, Originals))
    ensures |r.0| >= |t|
  {
    var first := Dup(t, 0);
    var second := Dup(first, 1);
    (Dup(second, 2), Originals(DupNumber(t, 0), DupNumber(first, 1), DupNumber(second, 2)))
  }

  /** The copies are in place. */
  ghost predicate Saved(t: Table, o: Originals) {
    && Standard(t) && o.input >= 3 && o.output >= 3 && o.error >= 3
    && Lookup(t, o.input) == t[0] && Lookup(t, o.output) == t[1] && Lookup(t, o.error) == t[2]
  }

  /** Descriptors 0, 1 and 2 as a line gets them; opening its files succeeds. */
  function Redirect(t: Table, line: nat): (r: Table)
    requires |t| >= 3
    ensures |r| >= |t|
  {
    var out := LowestFree(t);
    var t1 := Allocate(t, Output(line));
    var err := LowestFree(t1);
    var t2 := Allocate(t1, Errors(line));
    var dev := LowestFree(t2);
    var t3 := Allocate(t2, NullDevice);
    Close(Close(Close(Dup2(Dup2(Dup2(t3, out, 1), dev, 0), err, 2), err), dev), out)
  }

  function Restore(t: Table, o: Originals): (r: Table)
    requires |t| >= 3
    ensures |r| >= |t|
  {
    Dup2(Dup2(Dup2(t, o.input, 0), o.output, 1), o.error, 2)
  }

  /** One turn of the loop. */
  function RunLine(s: Process, o: Originals, program: Program, line: nat): (r: Process)
    requires |s.table| >= 3
    ensures |r.table| >= |s.table|
  {
    var ran := Execute(s.(table := Redirect(s.table, line)), program);
    ran.(table := Restore(ran.table, o))
  }

  /** The turns for a list of lines. */
  function Session(s: Process, o: Originals, programs: seq<Program>, line: nat): (r: Process)
    requires |s.table| >= 3
    ensures |r.table| >= |s.table|
    decreases programs
  {
    if programs == [] then s
    else Session(RunLine(s, o, programs[0], line), o, programs[1..], line + 1)
  }

  // ---------------------------------------------------------------- the copies

  lemma DupIs(t: Table, fd: nat)
    requires Standard(t) && fd < 3
    ensures var u, n := Dup(t, fd), DupNumber(t, fd);
      && n >= 3 && !IsOpen(t, n) && Lookup(u, n) == t[fd] && Standard(u)
      && (forall other: nat | other != n :: Lookup(u, other) == Lookup(t, other))
      && OpenCount(u) == OpenCount(t) + 1
  {
    AllocateCounts(t, t[fd].target);
    var u, n := Dup(t, fd), DupNumber(t, fd);
    assert Lookup(u, 0) == t[0] && Lookup(u, 1) == t[1] && Lookup(u, 2) == t[2];
  }

  lemma SaveAllSaves(t: Table)
    requires Standard(t)
    ensures var (u, o) := SaveAll(t);
      Saved(u, o) && Kept(t, u) && OpenCount(u) == OpenCount(t) + 3
  {
    var first := Dup(t, 0);
    var second := Dup(first, 1);
    DupIs(t, 0);
    DupIs(first, 1);
    DupIs(second, 2);
    var (u, o) := SaveAll(t);
    assert forall fd: nat | fd < 3 :: Lookup(u, fd) == t[fd];
  }

  // ---------------------------------------------------------------- one line

  /** Everything but descriptors 0, 1 and 2 is the same. */
  ghost predicate OthersSame(t: Table, u: Table) {
    forall fd: nat | fd >= 3 :: Lookup(u, fd) == Lookup(t, fd)
  }

  lemma OpenOne(t: Table, target: Target)
    requires Standard(t)
    ensures var u, n := Allocate(t, target), LowestFree(t);
      && n >= 3 && !IsOpen(t, n) && Standard(u) && Lookup(u, n) == Open(target)
      && (forall other: nat | other != n :: Lookup(u, other) == Lookup(t, other))
      && OpenCount(u) == OpenCount(t) + 1
  {
    AllocateCounts(t, target);
    var u := Allocate(t, target);
    assert Lookup(u, 0) == t[0] && Lookup(u, 1) == t[1] && Lookup(u, 2) == t[2];
  }

  /** dup2 onto one of the first three. */
  lemma Dup2Is(t: Table, from: nat, to: nat)
    requires Standard(t) && IsOpen(t, from) && to < 3
    ensures var u := Dup2(t, from, to);
      && Standard(u) && Lookup(u, to) == t[from]
      && (forall other: nat | other != to :: Lookup(u, other) == Lookup(t, other))
      && OpenCount(u) == OpenCount(t)
  {
    Dup2Counts(t, from, to);
  }

  lemma CloseIs(t: Table, fd: nat)
    requires Standard(t) && IsOpen(t, fd) && fd >= 3
    ensures var u := Close(t, fd);
      && Standard(u) && Lookup(u, fd) == Free
      && (forall other: nat | other != fd :: Lookup(u, other) == Lookup(t, other))
      && OpenCount(u) == OpenCount(t) - 1
  {
    CloseCounts(t, fd);
  }

  lemma RedirectIs(t: Table, line: nat)
    requires Standard(t)
    ensures var u := Redirect(t, line);
      && Standard(u) && OthersSame(t, u) && OpenCount(u) == OpenCount(t)
      && u[0] == Open(NullDevice) && u[1] == Open(Output(line)) && u[2] == Open(Errors(line))
  {
    var out := LowestFree(t);
    var t1 := Allocate(t, Output(line));
    var err := LowestFree(t1);
    var t2 := Allocate(t1, Errors(line));
    var dev := LowestFree(t2);
    var t3 := Allocate(t2, NullDevice);
    OpenOne(t, Output(line));
    OpenOne(t1, Errors(line));
    OpenOne(t2, NullDevice);
    FilesIntoPlace(t3, out, err, dev);
    var u := Redirect(t, line);
    assert Lookup(u, 0) == Open(NullDevice) && Lookup(u, 1) == Open(Output(line)) && Lookup(u, 2) == Open(Errors(line));
  }

  /** Moves three distinct descriptors to 1, 2 and 0. */
  lemma FilesIntoPlace(t: Table, out: nat, err: nat, dev: nat)
    requires Standard(t) && IsOpen(t, out) && IsOpen(t, err) && IsOpen(t, dev)
    requires out >= 3 && err >= 3 && dev >= 3 && out != err && out != dev && err != dev
    ensures var u := Close(Close(Close(Dup2(Dup2(Dup2(t, out, 1), dev, 0), err, 2), err), dev), out);
      && Standard(u) && OpenCount(u) == OpenCount(t) - 3
      && Lookup(u, 0) == t[dev] && Lookup(u, 1) == t[out] && Lookup(u, 2) == t[err]
      && Lookup(u, out) == Free && Lookup(u, err) == Free && Lookup(u, dev) == Free
      && (forall fd: nat | fd >= 3 && fd != out && fd != err && fd != dev :: Lookup(u, fd) == Lookup(t, fd))
  {
    Dup2Is(t, out, 1);
    var a := Dup2(t, out, 1);
    assert Lookup(a, dev) == t[dev] && Lookup(a, err) == t[err] && Lookup(a, out) == t[out];
    Dup2Is(a, dev, 0);
    var b := Dup2(a, dev, 0);
    assert Lookup(b, dev) == t[dev] && Lookup(b, err) == t[err] && Lookup(b, out) == t[out];
    Dup2Is(b, err, 2);
    var c := Dup2(b, err, 2);
    assert Lookup(c, dev) == t[dev] && Lookup(c, err) == t[err] && Lookup(c, out) == t[out];
    CloseIs(c, err);
    var d := Close(c, err);
    assert Lookup(d, dev) == t[dev] && Lookup(d, out) == t[out];
    CloseIs(d, dev);
    var e := Close(d, dev);
    assert Lookup(e, out) == t[out];
    CloseIs(e, out);
  }

  lemma RestoreIs(t: Table, o: Originals, u: Table)
    requires Saved(t, o) && Standard(u)
    requires forall fd: nat | fd >= 3 && IsOpen(t, fd) :: Lookup(u, fd) == t[fd]
    ensures var r := Restore(u, o);
      Saved(r, o) && Kept(t, r) && OpenCount(r) == OpenCount(u)
  {
    assert Lookup(u, o.input) == t[0] && Lookup(u, o.output) == t[1] && Lookup(u, o.error) == t[2];
    Dup2Is(u, o.input, 0);
    var a := Dup2(u, o.input, 0);
    assert Lookup(a, o.output) == t[1] && Lookup(a, o.error) == t[2];
    Dup2Is(a, o.output, 1);
    var b := Dup2(a, o.output, 1);
    assert Lookup(b, 0) == t[0] && Lookup(b, o.error) == t[2];
    Dup2Is(b, o.error, 2);
    var r := Restore(u, o);
    assert Lookup(r, 0) == t[0] && Lookup(r, 1) == t[1] && Lookup(r, 2) == t[2];
    assert Lookup(r, o.input) == t[0] && Lookup(r, o.output) == t[1] && Lookup(r, o.error) == t[2];
  }

  /** One turn, for any line: what was open is as it was, the copies included, and two
      more descriptors are open for each pipe. */
  lemma AfterLine(s: Process, o: Originals, program: Program, line: nat)
    requires Saved(s.table, o)
    ensures var r := RunLine(s, o, program, line);
      && r.pipes >= s.pipes && Saved(r.table, o) && Kept(s.table, r.table)
      && OpenCount(r.table) == OpenCount(s.table) + 2 * (r.pipes - s.pipes)
  {
    RedirectIs(s.table, line);
    var from := s.(table := Redirect(s.table, line));
    Wiring(from, program);
    var ran := Execute(from, program);
    RightStays(from.table, ran.table);
    forall fd: nat | fd >= 3 && IsOpen(s.table, fd)
      ensures Lookup(ran.table, fd) == s.table[fd]
    {
      assert Lookup(from.table, fd) == s.table[fd];
    }
    RestoreIs(s.table, o, ran.table);
  }

  /** What a line launches: nothing sees the terminal. */
  lemma LineOfSession(s: Process, o: Originals, program: Program, line: nat)
    requires Saved(s.table, o)
    ensures RunLine(s, o, program, line).trace
         == s.trace + Launches(program, Open(NullDevice), Open(Output(line)), Open(Errors(line)), s.pipes)
  {
    RedirectIs(s.table, line);
    Wiring(s.(table := Redirect(s.table, line)), program);
  }

  /** What the line in `memory` is cut to: the last character before its first NUL, the
      newline as a rule, is overwritten. */
  function LineOf(memory: string): (line: string)
    requires 0 < Find(memory, NUL) < |memory|
    ensures Terminated(line)
  {
    var length := Find(memory, NUL);
    Stretch(memory, 0, length + 1)[length - 1 := NUL]
  }

  /** Exactly one character goes: the newline, or at the end of an input that has none the
      last character of the text. */
  lemma LineIsCut(text: string, last: char, rest: string)
    requires NoneBefore(text, NUL, |text|) && last != NUL
    ensures var memory := text + [last, NUL] + rest;
      Find(memory, NUL) == |text| + 1 && LineOf(memory) == text + [NUL, NUL]
  {
    FoundAt(text + [last, NUL] + rest, NUL, |text| + 1);
  }

  /** A typed line is run as what its text means. */
  lemma TypedLine(text: string, rest: string)
    requires NoneBefore(text, NUL, |text|)
    ensures var memory := text + ['\n', NUL] + rest;
      && 0 < Find(memory, NUL) < |memory|
      && SplitBuffer(LineOf(memory), 0).0 == Meaning(ReadLine(text))
  {
    LineIsCut(text, '\n', rest);
    EveryLine(text + [NUL, NUL], 0, text);
  }

  /** strlen. */
  method Strlen(memory: array<char>) returns (k: nat)
    requires NUL in memory[..]
    ensures k == Find(memory[..], NUL) < memory.Length
  {
    ghost var i :| 0 <= i < memory.Length && memory[i] == NUL;
    k := 0;
    while memory[k] != NUL
      invariant k <= i && FindFrom(memory[..], NUL, 0) == FindFrom(memory[..], NUL, k)
      decreases memory.Length - k
    {
      k := k + 1;
    }
  }

  /** One turn in place, on the memory getline has read a line into. A line that starts
      with a NUL has no last character, and the place before the first is written to. */
  method OneLine(shell: Dsh, o: Originals, memory: array<char>, line: nat) returns (inside: bool)
    requires NUL in memory[..] && |shell.table| >= 3
    modifies shell, memory
    ensures inside <==> old(memory[0]) != NUL
    ensures inside ==>
              && 0 < Find(old(memory[..]), NUL) < memory.Length
              && shell.Snapshot() == RunLine(old(shell.Snapshot()), o, SplitBuffer(LineOf(old(memory[..])), 0).0, line)
  {
    OpenFiles(shell, line);
    var length := Strlen(memory);
    if length == 0 {
      return false;
    }
    ghost var cut := LineOf(memory[..]);
    memory[length - 1] := NUL;
    assert Held(memory, length + 1) == cut;
    shell.Run(memory, length + 1, 0);
    shell.table := Dup2(shell.table, o.input, 0);
    shell.table := Dup2(shell.table, o.output, 1);
    shell.table := Dup2(shell.table, o.error, 2);
    inside := true;
  }

  method OpenFiles(shell: Dsh, line: nat)
    requires |shell.table| >= 3
    modifies shell
    ensures shell.Snapshot() == old(shell.Snapshot()).(table := Redirect(old(shell.table), line))
  {
    var out := LowestFree(shell.table);
    shell.table := Allocate(shell.table, Output(line));
    var err := LowestFree(shell.table);
    shell.table := Allocate(shell.table, Errors(line));
    var dev := LowestFree(shell.table);
    shell.table := Allocate(shell.table, NullDevice);
    shell.table := Dup2(shell.table, out, 1);
    shell.table := Dup2(shell.table, dev, 0);
    shell.table := Dup2(shell.table, err, 2);
    shell.table := Close(shell.table, err);
    shell.table := Close(shell.table, dev);
    shell.table := Close(shell.table, out);
  }

  // ---------------------------------------------------------------- whole sessions

  /** Over any number of lines the shell keeps its input, output and errors, and leaks
      two descriptors for each pipe. */
  lemma {:induction false} SessionKeepsTerminal(s: Process, o: Originals, programs: seq<Program>, line: nat)
    requires Saved(s.table, o)
    ensures var r := Session(s, o, programs, line);
      && r.pipes >= s.pipes && Saved(r.table, o) && Kept(s.table, r.table)
      && OpenCount(r.table) == OpenCount(s.table) + 2 * (r.pipes - s.pipes)
    decreases programs
  {
    if programs != [] {
      AfterLine(s, o, programs[0], line);
      var next := RunLine(s, o, programs[0], line);
      SessionKeepsTerminal(next, o, programs[1..], line + 1);
      KeptTwice(s.table, next.table, Session(next, o, programs[1..], line + 1).table);
    }
  }

  lemma SessionFirst(s: Process, o: Originals, first: Program, rest: seq<Program>, line: nat) returns (next: Process)
    requires Saved(s.table, o)
    ensures next == RunLine(s, o, first, line) && Saved(next.table, o)
    ensures Session(s, o, [first] + rest, line) == Session(next, o, rest, line + 1)
  {
    next := RunLine(s, o, first, line);
    AfterLine(s, o, first, line);
    assert ([first] + rest)[1..] == rest;
  }

  /** From `before` to `after` the program was launched as line `number`. */
  predicate RunsAsLine(before: Process, after: Process, program: Program, number: nat) {
    after.trace
    == before.trace + Launches(program, Open(NullDevice), Open(Output(number)), Open(Errors(number)), before.pipes)
  }

  lemma OnlyLine(s: Process, o: Originals, program: Program, line: nat)
    requires Saved(s.table, o)
    ensures RunsAsLine(Session(s, o, [], line), Session(s, o, [program], line), program, line)
  {
    var next := SessionFirst(s, o, program, [], line);
    LineOfSession(s, o, program, line);
    assert [program] == [program] + [];
  }

  /** The first of several lines, without and with one more line at the end. */
  lemma BothAfterFirst(s: Process, o: Originals, first: Program, rest: seq<Program>, last: Program, line: nat)
    returns (next: Process)
    requires Saved(s.table, o)
    ensures Saved(next.table, o)
    ensures Session(s, o, [first] + rest, line) == Session(next, o, rest, line + 1)
    ensures Session(s, o, [first] + rest + [last], line) == Session(next, o, rest + [last], line + 1)
  {
    assert [first] + rest + [last] == [first] + (rest + [last]);
    next := SessionFirst(s, o, first, rest, line);
    var again := SessionFirst(s, o, first, rest + [last], line);
  }

  /** A line runs after the lines before it and writes to the files with their number. */
  lemma {:induction false} LinesAreNumbered(s: Process, o: Originals, earlier: seq<Program>, last: Program,
                                            line: nat, number: nat)
    requires Saved(s.table, o) && number == line + |earlier|
    ensures RunsAsLine(Session(s, o, earlier, line), Session(s, o, earlier + [last], line), last, number)
    decreases |earlier|
  {
    if earlier == [] {
      assert earlier + [last] == [last];
      OnlyLine(s, o, last, line);
    } else {
      var first, rest := earlier[0], earlier[1..];
      assert earlier == [first] + rest;
      var next := BothAfterFirst(s, o, first, rest, last, line);
      LinesAreNumbered(next, o, rest, last, line + 1, number);
    }
  }

  lemma KeptTwice(t: Table, u: Table, v: Table)
    requires Kept(t, u) && Kept(u, v)
    ensures Kept(t, v)
  {
    forall fd: nat | IsOpen(t, fd)
      ensures Lookup(v, fd) == t[fd]
    {
      assert Lookup(u, fd) == t[fd];
    }
  }

  /** The shell from its start. */
  lemma TerminalComesBack(s: Process, programs: seq<Program>)
    requires Standard(s.table)
    ensures var (t, o) := SaveAll(s.table);
      var r := Session(s.(table := t), o, programs, 0);
      && Standard(r.table) && r.table[0] == s.table[0] && r.table[1] == s.table[1] && r.table[2] == s.table[2]
      && r.pipes >= s.pipes && OpenCount(r.table) == OpenCount(s.table) + 3 + 2 * (r.pipes - s.pipes)
  {
    SaveAllSaves(s.table);
    var (t, o) := SaveAll(s.table);
    SessionKeepsTerminal(s.(table := t), o, programs, 0);
    var r := Session(s.(table := t), o, programs, 0);
    KeptTwice(s.table, t, r.table);
    SameEnds(s.table, r.table);
  }
}
