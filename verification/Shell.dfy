/** The shell's line runner: what a line asks for, one pipe and one fork for each `|`,
    and what each command finds as its standard descriptors. */
module Shell {
  import opened Descriptors

  /** A command handed to exec, and descriptors 0, 1 and 2 of the process it runs in. */
  datatype Launch = Launch(command: string, input: Slot, output: Slot, error: Slot)

  /** The shell process: its table, the pipes made so far, and the commands launched. */
  datatype Process = Process(table: Table, pipes: nat, trace: seq<Launch>)

  /** What a call of the runner does: fork a command, connect one to whatever is right of
      its bar, or run two parts one after the other. */
  datatype Program =
    | Command(text: string)
    | Piped(left: string, right: Program)
    | Sequence(first: Program, second: Program)

  /** fork, and in the child exec: the child's table is a copy that ends with it. */
  function Exec(s: Process, child: Table, command: string): Process {
    s.(trace := s.trace + [Launch(command, Lookup(child, 0), Lookup(child, 1), Lookup(child, 2))])
  }

  /** The table after `pipe`: the read end at the lowest free number, then the write end. */
  function WithPipe(t: Table, pipe: nat): (r: Table)
    ensures |r| >= |t|
  {
    Allocate(Allocate(t, ReadEnd(pipe)), WriteEnd(pipe))
  }

  /** The numbers involved in one call of run_pipeline; the saved ones are -1 if there
      was nothing to save. */
  datatype PipeNumbers = PipeNumbers(read: nat, write: nat, origin: int, origout: int)

  function NumbersFor(t: Table, pipe: nat): PipeNumbers {
    var piped := WithPipe(t, pipe);
    PipeNumbers(LowestFree(t), LowestFree(Allocate(t, ReadEnd(pipe))), DupNumber(piped, 0), DupNumber(Dup(piped, 0), 1))
  }

  /** The table after pipe and both dups. */
  function Prepared(t: Table, pipe: nat): (r: Table)
    ensures |r| >= |t|
  {
    Dup(Dup(WithPipe(t, pipe), 0), 1)
  }

  /** The table of the child that runs the left-hand command. */
  function ChildTable(t: Table, n: PipeNumbers): Table
    requires |t| >= 2
  {
    Close(Dup2(t, n.write, 1), n.read)
  }

  /** The table of the shell while it runs what is right of the bar. */
  function RightTable(t: Table, n: PipeNumbers): (r: Table)
    requires |t| >= 1
    ensures |r| >= |t|
  {
    Close(Dup2(t, n.read, 0), n.write)
  }

  /** The table after run_pipeline has put standard input back. */
  function RestoredTable(t: Table, n: PipeNumbers): (r: Table)
    requires |t| >= 1
    ensures |r| >= |t|
  {
    Dup2(Close(t, n.read), n.origin, 0)
  }

  /** Descriptors 0, 1 and 2 are open. */
  predicate Standard(t: Table) {
    IsOpen(t, 0) && IsOpen(t, 1) && IsOpen(t, 2)
  }

  /** The shell when the left command has ended and the right side is to be run. */
  function AtTheRight(s: Process, n: PipeNumbers, prepared: Table, command: string): Process
    requires |prepared| >= 2
  {
    Exec(s, ChildTable(prepared, n), command).(table := RightTable(prepared, n), pipes := s.pipes + 1)
  }

  /** A bar's left side, up to where its right side is to be run. */
  function BeforeBar(s: Process, command: string): (r: Process)
    requires |s.table| >= 3
    ensures |r.table| >= |s.table|
  {
    AtTheRight(s, NumbersFor(s.table, s.pipes), Prepared(s.table, s.pipes), command)
  }

  /** The end of a call that started at `t` with `pipe` pipes made. */
  function AfterBar(t: Table, pipe: nat, right: Process): (r: Process)
    requires |right.table| >= 3
    ensures |r.table| >= |right.table|
  {
    right.(table := RestoredTable(right.table, NumbersFor(t, pipe)))
  }

  function Execute(s: Process, program: Program): (r: Process)
    requires |s.table| >= 3
    ensures |r.table| >= |s.table|
    decreases program
  {
    match program
    case Command(text) => Exec(s, s.table, text)
    case Piped(left, right) => AfterBar(s.table, s.pipes, Execute(BeforeBar(s, left), right))
    case Sequence(first, second) => Execute(Execute(s, first), second)
  }

  // ---------------------------------------------------------------- what should be launched

  function Bars(program: Program): nat {
    match program
    case Command(_) => 0
    case Piped(_, right) => 1 + Bars(right)
    case Sequence(first, second) => Bars(first) + Bars(second)
  }

  /** Whatever is left of a bar writes into a pipe of its own, whatever is right of it
      reads from that pipe; otherwise a part has the ends of the whole. */
  function Launches(program: Program, input: Slot, output: Slot, error: Slot, pipe: nat): seq<Launch> {
    match program
    case Command(text) => [Launch(text, input, output, error)]
    case Piped(left, right) =>
      [Launch(left, input, Open(WriteEnd(pipe)), error)] + Launches(right, Open(ReadEnd(pipe)), output, error, pipe + 1)
    case Sequence(first, second) =>
      Launches(first, input, output, error, pipe) + Launches(second, input, output, error, pipe + Bars(first))
  }

  // ---------------------------------------------------------------- one bar

  /** Everything open stays open and refers to what it did. */
  ghost predicate Kept(t: Table, u: Table) {
    forall fd: nat | IsOpen(t, fd) :: Lookup(u, fd) == t[fd]
  }

  /** The four descriptors a bar opens, and nothing else, are new. */
  ghost predicate IsPrepared(t: Table, pipe: nat, n: PipeNumbers, u: Table) {
    && n.origin >= 0 && n.origout >= 0
    && !IsOpen(t, n.read) && !IsOpen(t, n.write) && !IsOpen(t, n.origin) && !IsOpen(t, n.origout)
    && n.read < n.write && n.read != n.origin && n.read != n.origout
    && n.write != n.origin && n.write != n.origout && n.origin != n.origout
    && Lookup(u, n.read) == Open(ReadEnd(pipe)) && Lookup(u, n.write) == Open(WriteEnd(pipe))
    && Lookup(u, n.origin) == Lookup(t, 0) && Lookup(u, n.origout) == Lookup(t, 1)
    && (forall fd: nat | fd != n.read && fd != n.write && fd != n.origin && fd != n.origout ::
          Lookup(u, fd) == Lookup(t, fd))
    && OpenCount(u) == OpenCount(t) + 4
  }

  lemma PreparedIs(t: Table, pipe: nat)
    requires Standard(t)
    ensures IsPrepared(t, pipe, NumbersFor(t, pipe), Prepared(t, pipe))
  {
    var reading := Allocate(t, ReadEnd(pipe));
    var piped := WithPipe(t, pipe);
    var saved := Dup(piped, 0);
    AllocateCounts(t, ReadEnd(pipe));
    AllocateCounts(reading, WriteEnd(pipe));
    assert Lookup(piped, 0) == Lookup(t, 0) && Lookup(piped, 1) == Lookup(t, 1);
    AllocateCounts(piped, piped[0].target);
    assert Lookup(saved, 1) == Lookup(t, 1);
    AllocateCounts(saved, saved[1].target);
  }

  /** The child writes into the pipe and cannot read from it; all else it has from the
      shell. */
  lemma ChildIs(t: Table, pipe: nat, n: PipeNumbers, u: Table)
    requires Standard(t) && |u| >= |t| && IsPrepared(t, pipe, n, u)
    ensures var child := ChildTable(u, n);
      && Lookup(child, 0) == t[0] && Lookup(child, 1) == Open(WriteEnd(pipe)) && Lookup(child, 2) == t[2]
      && Lookup(child, n.read) == Free
      && forall fd: nat | fd != 1 && fd != n.read :: Lookup(child, fd) == Lookup(u, fd)
  {
    Dup2Counts(u, n.write, 1);
    CloseCounts(Dup2(u, n.write, 1), n.read);
  }

  lemma RightIs(t: Table, pipe: nat, n: PipeNumbers, u: Table)
    requires Standard(t) && |u| >= |t| && IsPrepared(t, pipe, n, u)
    ensures var right := RightTable(u, n);
      && Standard(right) && right[0] == Open(ReadEnd(pipe)) && right[1] == t[1] && right[2] == t[2]
      && Lookup(right, n.read) == Open(ReadEnd(pipe)) && Lookup(right, n.origin) == t[0]
      && (forall fd: nat | fd != 0 && IsOpen(t, fd) :: Lookup(right, fd) == t[fd])
      && OpenCount(right) == OpenCount(t) + 3
  {
    assert Lookup(u, 1) == Lookup(t, 1) && Lookup(u, 2) == Lookup(t, 2);
    Dup2Counts(u, n.read, 0);
    CloseCounts(Dup2(u, n.read, 0), n.write);
    var right := RightTable(u, n);
    assert Lookup(right, 0) == Open(ReadEnd(pipe));
    assert Lookup(right, 1) == Lookup(u, 1) && Lookup(right, 2) == Lookup(u, 2);
  }

  lemma RestoredIs(t: Table, n: PipeNumbers, v: Table)
    requires Standard(t) && Standard(v)
    requires n.origin >= 0 && !IsOpen(t, n.read) && !IsOpen(t, n.origin) && n.read != n.origin
    requires IsOpen(v, n.read) && Lookup(v, n.origin) == t[0]
    requires forall fd: nat | fd != 0 && IsOpen(t, fd) :: Lookup(v, fd) == t[fd]
    ensures Kept(t, RestoredTable(v, n)) && OpenCount(RestoredTable(v, n)) == OpenCount(v) - 1
  {
    CloseCounts(v, n.read);
    Dup2Counts(Close(v, n.read), n.origin, 0);
  }

  // ---------------------------------------------------------------- the wiring

  /** What running a pipeline does: its stages are launched in order, each reading
      from the pipe the one before it writes to, the first and the last with the
      input and output the shell had; afterwards everything that was open refers to
      what it did, and two more descriptors are open for each bar. */
  ghost predicate RunsAs(s: Process, r: Process, launches: seq<Launch>, bars: nat) {
    && r.trace == s.trace + launches
    && r.pipes == s.pipes + bars
    && Kept(s.table, r.table)
    && OpenCount(r.table) == OpenCount(s.table) + 2 * bars
  }

  /** One bar: the left command writes into a new pipe, and whatever ran on the right
      with that pipe as its input leaves a table that can be restored. */
  lemma OneBar(s: Process, n: PipeNumbers, prepared: Table, command: string,
               right: Process, launches: seq<Launch>, bars: nat)
    requires Standard(s.table) && |prepared| >= |s.table| && IsPrepared(s.table, s.pipes, n, prepared)
    requires RunsAs(AtTheRight(s, n, prepared, command), right, launches, bars)
    requires |right.table| >= |s.table|
    ensures RunsAs(s, right.(table := RestoredTable(right.table, n)),
                   [Launch(command, s.table[0], Open(WriteEnd(s.pipes)), s.table[2])] + launches, bars + 1)
  {
    var t, pipe := s.table, s.pipes;
    ChildIs(t, pipe, n, prepared);
    RightIs(t, pipe, n, prepared);
    RightStays(RightTable(prepared, n), right.table);
    RestoredIs(t, n, right.table);
    assert right.trace == s.trace + ([Launch(command, t[0], Open(WriteEnd(pipe)), t[2])] + launches);
  }

  lemma RightStays(t: Table, u: Table)
    requires Standard(t) && Kept(t, u)
    ensures Standard(u)
  {
    assert Lookup(u, 0) == t[0] && Lookup(u, 1) == t[1] && Lookup(u, 2) == t[2];
  }

  lemma RunsOn(s: Process, u: Process, r: Process, first: seq<Launch>, second: seq<Launch>, bars: nat, more: nat)
    requires RunsAs(s, u, first, bars) && RunsAs(u, r, second, more)
    ensures RunsAs(s, r, first + second, bars + more)
  {
    assert r.trace == s.trace + (first + second);
    forall fd: nat | IsOpen(s.table, fd)
      ensures Lookup(r.table, fd) == s.table[fd]
    {
      assert Lookup(u.table, fd) == s.table[fd];
    }
  }

  lemma SameEnds(t: Table, u: Table)
    requires Standard(t) && Kept(t, u)
    ensures Standard(u) && u[0] == t[0] && u[1] == t[1] && u[2] == t[2]
  {
    RightStays(t, u);
    assert Lookup(u, 0) == t[0] && Lookup(u, 1) == t[1] && Lookup(u, 2) == t[2];
  }

  /** Running the program from `s` may end in `r`. */
  ghost predicate WiredRun(s: Process, program: Program, r: Process) {
    && Standard(s.table)
    && RunsAs(s, r, Launches(program, s.table[0], s.table[1], s.table[2], s.pipes), Bars(program))
  }

  lemma SequenceWiring(s: Process, first: Program, u: Process, second: Program, r: Process)
    requires WiredRun(s, first, u) && WiredRun(u, second, r)
    ensures WiredRun(s, Sequence(first, second), r)
  {
    var t := s.table;
    SameEnds(t, u.table);
    RunsOn(s, u, r, Launches(first, t[0], t[1], t[2], s.pipes), Launches(second, t[0], t[1], t[2], u.pipes),
           Bars(first), Bars(second));
  }

  /** Where the right of a bar starts. */
  lemma BarStarts(s: Process, left: string)
    requires Standard(s.table)
    ensures var from := BeforeBar(s, left);
      && Standard(from.table) && from.pipes == s.pipes + 1
      && from.table[0] == Open(ReadEnd(s.pipes)) && from.table[1] == s.table[1] && from.table[2] == s.table[2]
  {
    PreparedIs(s.table, s.pipes);
    RightIs(s.table, s.pipes, NumbersFor(s.table, s.pipes), Prepared(s.table, s.pipes));
  }

  /** The same as `OneBar`, for the numbers and the table that the shell gets. */
  lemma ThisBar(s: Process, left: string, right: Process, launches: seq<Launch>, bars: nat)
    requires Standard(s.table) && |right.table| >= |s.table| && RunsAs(BeforeBar(s, left), right, launches, bars)
    ensures RunsAs(s, AfterBar(s.table, s.pipes, right),
                   [Launch(left, s.table[0], Open(WriteEnd(s.pipes)), s.table[2])] + launches, bars + 1)
  {
    PreparedIs(s.table, s.pipes);
    OneBar(s, NumbersFor(s.table, s.pipes), Prepared(s.table, s.pipes), left, right, launches, bars);
  }

  lemma BarWiring(s: Process, left: string, right: Program, r: Process)
    requires Standard(s.table) && |r.table| >= |s.table|
    requires WiredRun(BeforeBar(s, left), right, r)
    ensures WiredRun(s, Piped(left, right), AfterBar(s.table, s.pipes, r))
  {
    BarStarts(s, left);
    ThisBar(s, left, r, Launches(right, Open(ReadEnd(s.pipes)), s.table[1], s.table[2], s.pipes + 1), Bars(right));
  }

  /** The wiring of every program. */
  lemma {:induction false} Wiring(s: Process, program: Program)
    requires Standard(s.table)
    ensures WiredRun(s, program, Execute(s, program))
    decreases program
  {
    match program
    case Command(text) =>
    case Piped(left, right) =>
      BarStarts(s, left);
      Wiring(BeforeBar(s, left), right);
      BarWiring(s, left, right, Execute(BeforeBar(s, left), right));
    case Sequence(first, second) =>
      var u := Execute(s, first);
      Wiring(s, first);
      RightStays(s.table, u.table);
      Wiring(u, second);
      SequenceWiring(s, first, u, second, Execute(u, second));
  }

  // ---------------------------------------------------------------- pipelines and lines

  function PipelineOf(stages: seq<string>): Program
    requires stages != []
  {
    if |stages| == 1 then Command(stages[0]) else Piped(stages[0], PipelineOf(stages[1..]))
  }

  predicate AllNonEmpty(pipelines: seq<seq<string>>) {
    pipelines != [] && forall k | 0 <= k < |pipelines| :: pipelines[k] != []
  }

  /** Pipelines one after the other: `;` is looser than `|`. */
  function ProgramOf(pipelines: seq<seq<string>>): Program
    requires AllNonEmpty(pipelines)
  {
    if |pipelines| == 1 then PipelineOf(pipelines[0])
    else Sequence(PipelineOf(pipelines[0]), ProgramOf(pipelines[1..]))
  }

  /** Stage by stage: the first reads what the shell read and the last writes where the
      shell wrote; in between, stage `k + 1` reads the pipe that stage `k` writes. */
  lemma {:induction false} PipelineWiring(stages: seq<string>, input: Slot, output: Slot, error: Slot,
                                          pipe: nat, k: nat)
    requires k < |stages|
    ensures var launches := Launches(PipelineOf(stages), input, output, error, pipe);
      && |launches| == |stages|
      && launches[k].command == stages[k] && launches[k].error == error
      && launches[k].input == (if k == 0 then input else Open(ReadEnd(pipe + k - 1)))
      && launches[k].output == (if k == |stages| - 1 then output else Open(WriteEnd(pipe + k)))
  {
    if |stages| > 1 {
      PipelineWiring(stages[1..], Open(ReadEnd(pipe)), output, error, pipe + 1, if k == 0 then 0 else k - 1);
    }
  }

  /** All commands, in order. */
  function Flatten(pipelines: seq<seq<string>>): seq<string> {
    if pipelines == [] then [] else pipelines[0] + Flatten(pipelines[1..])
  }

  function Commands(launches: seq<Launch>): seq<string> {
    seq(|launches|, k requires 0 <= k < |launches| => launches[k].command)
  }

  lemma CommandsJoin(a: seq<Launch>, b: seq<Launch>)
    ensures Commands(a + b) == Commands(a) + Commands(b)
  {
  }

  lemma PipelineCommands(stages: seq<string>, input: Slot, output: Slot, error: Slot, pipe: nat)
    requires stages != []
    ensures Commands(Launches(PipelineOf(stages), input, output, error, pipe)) == stages
  {
    forall k | 0 <= k < |stages|
      ensures var launches := Launches(PipelineOf(stages), input, output, error, pipe);
        |launches| == |stages| && launches[k].command == stages[k]
    {
      PipelineWiring(stages, input, output, error, pipe, k);
    }
  }

  lemma SequenceCommands(left: Program, right: Program, input: Slot, output: Slot, error: Slot, pipe: nat)
    ensures Commands(Launches(Sequence(left, right), input, output, error, pipe))
         == Commands(Launches(left, input, output, error, pipe))
          + Commands(Launches(right, input, output, error, pipe + Bars(left)))
  {
    CommandsJoin(Launches(left, input, output, error, pipe), Launches(right, input, output, error, pipe + Bars(left)));
  }

  lemma {:induction false} LineCommands(pipelines: seq<seq<string>>, input: Slot, output: Slot, error: Slot, pipe: nat)
    requires AllNonEmpty(pipelines)
    ensures Commands(Launches(ProgramOf(pipelines), input, output, error, pipe)) == Flatten(pipelines)
  {
    PipelineCommands(pipelines[0], input, output, error, pipe);
    if |pipelines| == 1 {
      assert pipelines[1..] == [];
    } else {
      var first := PipelineOf(pipelines[0]);
      LineCommands(pipelines[1..], input, output, error, pipe + Bars(first));
      SequenceCommands(first, ProgramOf(pipelines[1..]), input, output, error, pipe);
    }
  }

  /** Running a line runs exactly its commands, in their order. */
  lemma RunsTheCommands(s: Process, pipelines: seq<seq<string>>)
    requires Standard(s.table) && AllNonEmpty(pipelines)
    ensures Commands(Execute(s, ProgramOf(pipelines)).trace) == Commands(s.trace) + Flatten(pipelines)
  {
    var t := s.table;
    Wiring(s, ProgramOf(pipelines));
    LineCommands(pipelines, t[0], t[1], t[2], s.pipes);
    CommandsJoin(s.trace, Launches(ProgramOf(pipelines), t[0], t[1], t[2], s.pipes));
  }
}
