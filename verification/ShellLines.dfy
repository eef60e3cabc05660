/** What the runner does with a line, read off its text: every line, whatever its bars and
    semicolons, means one program. */
module ShellLines {
  import opened Shell
  import opened ShellText
  import opened ShellBuffer

  // ---------------------------------------------------------------- reading a line

  /** The part of a line between semicolons: its stages, and whether a bar with nothing
      after it ends it. */
  datatype Piece = Piece(stages: seq<string>, open: bool)

  function ReadPiece(part: string): (piece: Piece)
    ensures piece.stages != []
    decreases |part|
  {
    var i := Find(part, '|');
    if i == |part| then Piece([part], false)
    else if i + 1 == |part| then Piece([Stretch(part, 0, i)], true)
    else
      var rest := ReadPiece(Stretch(part, i + 2, |part|));
      Piece([Stretch(part, 0, i)] + rest.stages, rest.open)
  }

  /** A line is its pieces, with a semicolon between one and the next. */
  datatype Line = Only(piece: Piece) | Then(piece: Piece, rest: Line)

  predicate AllRead(line: Line) {
    line.piece.stages != [] && (line.Then? ==> AllRead(line.rest))
  }

  predicate AllClosed(line: Line) {
    !line.piece.open && (line.Then? ==> AllClosed(line.rest))
  }

  function LastPiece(line: Line): Piece {
    if line.Then? then LastPiece(line.rest) else line.piece
  }

  function ReadLine(text: string): (line: Line)
    ensures AllRead(line)
    decreases |text|
  {
    var i := Find(text, ';');
    if i == |text| then Only(ReadPiece(text))
    else Then(ReadPiece(Stretch(text, 0, i)), ReadLine(Stretch(text, i + 1, |text|)))
  }

  /** A pipeline of the given stages whose last one is piped into `rest`. */
  function Chain(stages: seq<string>, rest: Program): Program {
    if stages == [] then rest else Piped(stages[0], Chain(stages[1..], rest))
  }

  /** An open piece is piped into all that follows its semicolon, and after that the first
      stage of what follows is run once more. At the end of a line it is piped into the
      empty command. */
  function Meaning(line: Line): Program
    requires AllRead(line)
  {
    var stages := line.piece.stages;
    if line.Only? then
      if line.piece.open then Chain(stages, Command("")) else PipelineOf(stages)
    else if line.piece.open then
      Sequence(Chain(stages, Meaning(line.rest)), Command(line.rest.piece.stages[0]))
    else Sequence(PipelineOf(stages), Meaning(line.rest))
  }

  // ---------------------------------------------------------------- the pieces in the buffer

  /** From `start` to `end` the buffer holds the stages, with a bar and a character that is
      skipped between one and the next, and one more bar at the end if they are open. */
  predicate Parts(buffer: string, start: nat, stages: seq<string>, open: bool, end: nat)
    requires stages != []
    decreases |stages|
  {
    var next := start + |stages[0]|;
    && next <= end < |buffer|
    && (forall j | 0 <= j < |stages[0]| :: buffer[start + j] == stages[0][j] != '|')
    && (if |stages| > 1 then next + 2 <= end && buffer[next] == '|' && Parts(buffer, next + 2, stages[1..], open, end)
        else if open then next + 1 == end && buffer[next] == '|'
        else next == end)
  }

  /** Nothing ends a piece before `end`. */
  predicate Quiet(buffer: string, start: nat, end: nat) {
    start <= end < |buffer| && forall j | start <= j < end :: buffer[j] != ';' && buffer[j] != NUL
  }

  /** Where the pieces end. */
  datatype Ends = At(end: nat) | Upto(end: nat, more: Ends)

  function Last(ends: Ends): nat {
    if ends.Upto? then Last(ends.more) else ends.end
  }

  /** The pieces, one after the other. */
  predicate Pieces(buffer: string, start: nat, line: Line, ends: Ends)
    requires AllRead(line)
    decreases line
  {
    && Parts(buffer, start, line.piece.stages, line.piece.open, ends.end) && Quiet(buffer, start, ends.end)
    && (if line.Only? then ends.At? && buffer[ends.end] == NUL
        else ends.Upto? && buffer[ends.end] == ';' && Pieces(buffer, ends.end + 1, line.rest, ends.more))
  }

  lemma {:induction false} PartsFrame(buffer: string, start: nat, stages: seq<string>, open: bool, end: nat,
                                      other: string)
    requires stages != [] && Parts(buffer, start, stages, open, end) && |other| == |buffer|
    requires forall j | start <= j < end :: other[j] == buffer[j]
    ensures Parts(other, start, stages, open, end)
    decreases |stages|
  {
    if |stages| > 1 {
      PartsFrame(buffer, start + |stages[0]| + 2, stages[1..], open, end, other);
    }
  }

  lemma {:induction false} PiecesFrame(buffer: string, start: nat, line: Line, ends: Ends, other: string)
    requires AllRead(line) && Pieces(buffer, start, line, ends) && |other| == |buffer|
    requires forall j | start <= j < |buffer| :: other[j] == buffer[j]
    ensures Pieces(other, start, line, ends)
    decreases line
  {
    PartsFrame(buffer, start, line.piece.stages, line.piece.open, ends.end, other);
    if line.Then? {
      PiecesFrame(buffer, ends.end + 1, line.rest, ends.more, other);
    }
  }

  /** The first scan for a bar. */
  lemma FirstPart(buffer: string, start: nat, stages: seq<string>, open: bool, end: nat)
    requires Terminated(buffer) && stages != [] && Parts(buffer, start, stages, open, end)
    requires Quiet(buffer, start, end) && buffer[end] == NUL
    ensures var next := start + |stages[0]|;
      && buffer[Scan(buffer, start, ';')] == NUL && Scan(buffer, start, '|') == next
      && Stretch(buffer, start, next) == stages[0]
  {
    ScanStops(buffer, start, ';', end);
    forall j | start <= j < start + |stages[0]|
      ensures buffer[j] != '|'
    {
      assert buffer[start + (j - start)] == stages[0][j - start];
    }
    ScanStops(buffer, start, '|', start + |stages[0]|);
  }

  lemma PartsAfterBar(buffer: string, start: nat, stages: seq<string>, open: bool, end: nat)
    requires Terminated(buffer) && |stages| > 1 && Parts(buffer, start, stages, open, end)
    requires Quiet(buffer, start, end) && buffer[end] == NUL
    ensures var bar := start + |stages[0]|;
      && buffer[bar] == '|' && bar + 2 <= end && Parts(Cut(buffer, bar), bar + 2, stages[1..], open, end)
      && Quiet(Cut(buffer, bar), bar + 2, end) && Cut(buffer, bar)[end] == NUL
  {
    var bar := start + |stages[0]|;
    PartsFrame(buffer, bar + 2, stages[1..], open, end, Cut(buffer, bar));
  }

  // ---------------------------------------------------------------- a closed piece

  lemma JoinParts(buffer: string, start: nat, stages: seq<string>, end: nat, after: string)
    requires Terminated(buffer) && |stages| > 1 && Parts(buffer, start, stages, false, end)
    requires Quiet(buffer, start, end) && buffer[end] == NUL
    requires var bar := start + |stages[0]|;
      && SplitBuffer(Cut(buffer, bar), bar + 2) == (PipelineOf(stages[1..]), after)
      && SameOutside(Cut(buffer, bar), bar + 2, end - (bar + 2), after)
    ensures SplitBuffer(buffer, start) == (PipelineOf(stages), after)
    ensures SameOutside(buffer, start, end - start, after)
  {
    var bar := start + |stages[0]|;
    FirstPart(buffer, start, stages, false, end);
    SplitAtBar(buffer, start, bar);
    Widen(buffer, start, bar + 1 - start, Cut(buffer, bar), bar + 2, end - (bar + 2), after, end - start);
  }

  lemma OnePart(buffer: string, start: nat, stage: string, end: nat)
    requires Terminated(buffer) && Parts(buffer, start, [stage], false, end)
    requires Quiet(buffer, start, end) && buffer[end] == NUL
    ensures SplitBuffer(buffer, start) == (Command(stage), buffer)
  {
    FirstPart(buffer, start, [stage], false, end);
  }

  lemma {:induction false} PartsRun(buffer: string, start: nat, stages: seq<string>, end: nat) returns (after: string)
    requires Terminated(buffer) && stages != [] && Parts(buffer, start, stages, false, end)
    requires Quiet(buffer, start, end) && buffer[end] == NUL
    ensures SplitBuffer(buffer, start) == (PipelineOf(stages), after)
    ensures SameOutside(buffer, start, end - start, after)
    decreases |stages|
  {
    if |stages| == 1 {
      assert stages == [stages[0]];
      OnePart(buffer, start, stages[0], end);
      after := buffer;
    } else {
      var bar := start + |stages[0]|;
      PartsAfterBar(buffer, start, stages, false, end);
      after := PartsRun(Cut(buffer, bar), bar + 2, stages[1..], end);
      JoinParts(buffer, start, stages, end, after);
    }
  }

  // ---------------------------------------------------------------- an open piece

  /** What the runner makes of a text that starts with `stages`, each before a bar, and
      goes on with whatever it finds at `at` then. */
  ghost predicate ChainsInto(buffer: string, start: nat, stages: seq<string>, middle: string, at: nat) {
    && Terminated(buffer) && start < |buffer| && Terminated(middle) && at < |middle|
    && var right := SplitBuffer(middle, at);
       SplitBuffer(buffer, start) == (Chain(stages, right.0), right.1)
  }

  /** The calls for the stages, each from behind the bar of the one before, lead to
      `middle` and `at`. */
  predicate Barred(buffer: string, start: nat, stages: seq<string>, middle: string, at: nat)
    decreases |stages|
  {
    if stages == [] then Terminated(buffer) && start < |buffer| && buffer == middle && start == at
    else
      && BarNext(buffer, start, stages[0], start + |stages[0]|)
      && Barred(Cut(buffer, start + |stages[0]|), start + |stages[0]| + 2, stages[1..], middle, at)
  }

  predicate BarNext(buffer: string, start: nat, stage: string, bar: nat) {
    && Terminated(buffer) && start <= bar < |buffer| && buffer[Scan(buffer, start, ';')] == NUL
    && Scan(buffer, start, '|') == bar && buffer[bar] == '|' && Stretch(buffer, start, bar) == stage
  }

  lemma {:induction false} BarredChains(buffer: string, start: nat, stages: seq<string>, middle: string, at: nat)
    requires Barred(buffer, start, stages, middle, at)
    ensures ChainsInto(buffer, start, stages, middle, at)
    decreases |stages|
  {
    if stages != [] {
      var bar := start + |stages[0]|;
      BarredChains(Cut(buffer, bar), bar + 2, stages[1..], middle, at);
      SplitAtBar(buffer, start, bar);
    }
  }

  lemma LastBar(buffer: string, start: nat, stages: seq<string>, end: nat) returns (middle: string)
    requires Terminated(buffer) && |stages| == 1 && Parts(buffer, start, stages, true, end)
    requires Quiet(buffer, start, end) && buffer[end] == NUL
    ensures SameOutside(buffer, start, end - start, middle) && Barred(buffer, start, stages, middle, end + 1)
  {
    FirstPart(buffer, start, stages, true, end);
    middle := Cut(buffer, start + |stages[0]|);
    assert stages[1..] == [];
  }

  lemma {:induction false} BarsLead(buffer: string, start: nat, stages: seq<string>, end: nat) returns (middle: string)
    requires Terminated(buffer) && stages != [] && Parts(buffer, start, stages, true, end)
    requires Quiet(buffer, start, end) && buffer[end] == NUL
    ensures SameOutside(buffer, start, end - start, middle) && Barred(buffer, start, stages, middle, end + 1)
    decreases |stages|
  {
    if |stages| == 1 {
      middle := LastBar(buffer, start, stages, end);
    } else {
      var bar := start + |stages[0]|;
      FirstPart(buffer, start, stages, true, end);
      PartsAfterBar(buffer, start, stages, true, end);
      middle := BarsLead(Cut(buffer, bar), bar + 2, stages[1..], end);
      Widen(buffer, start, bar + 1 - start, Cut(buffer, bar), bar + 2, end - (bar + 2), middle, end - start);
    }
  }

  /** The stages are piped into whatever the runner finds one place beyond the end. */
  lemma BarsRun(buffer: string, start: nat, stages: seq<string>, end: nat) returns (middle: string)
    requires Terminated(buffer) && stages != [] && Parts(buffer, start, stages, true, end)
    requires Quiet(buffer, start, end) && buffer[end] == NUL
    ensures SameOutside(buffer, start, end - start, middle)
    ensures ChainsInto(buffer, start, stages, middle, end + 1)
  {
    middle := BarsLead(buffer, start, stages, end);
    BarredChains(buffer, start, stages, middle, end + 1);
  }

  // ---------------------------------------------------------------- running over the same text again

  /** Nothing before a call's text is touched, whatever the text. */
  lemma {:induction false} KeepsBefore(buffer: string, start: nat)
    requires Terminated(buffer) && start < |buffer|
    ensures forall j | 0 <= j < start :: SplitBuffer(buffer, start).1[j] == buffer[j]
    decreases |buffer| - start, Scan(buffer, start, NUL)
  {
    var sep := Scan(buffer, start, ';');
    if buffer[sep] == ';' {
      CutShortens(buffer, start, sep, ';');
      KeepsBefore(Cut(buffer, sep), start);
      KeepsBefore(SplitBuffer(Cut(buffer, sep), start).1, sep + 1);
    } else {
      var bar := Scan(buffer, start, '|');
      if buffer[bar] == '|' {
        KeepsBefore(Cut(buffer, bar), bar + 2);
      }
    }
  }

  /** `m` is the first separator of either kind from `start` on, or the end. */
  predicate IsFirst(buffer: string, start: nat, m: nat) {
    && start <= m < |buffer| && (buffer[m] == ';' || buffer[m] == '|' || buffer[m] == NUL)
    && (forall j | start <= j < m :: buffer[j] != ';' && buffer[j] != '|' && buffer[j] != NUL)
  }

  /** A call leaves its text cut at the first separator of either kind. */
  lemma {:induction false} CutAtFirst(buffer: string, start: nat, m: nat)
    requires Terminated(buffer) && IsFirst(buffer, start, m)
    ensures CutThere(buffer, m, SplitBuffer(buffer, start).1)
    decreases |buffer| - start, Scan(buffer, start, NUL), 1
  {
    if buffer[Scan(buffer, start, ';')] == ';' {
      CutAtSemicolon(buffer, start, m, Scan(buffer, start, ';'));
    } else {
      CutAtBar(buffer, start, m);
    }
  }

  /** The place is cut and nothing before it is touched. */
  predicate CutThere(buffer: string, m: nat, after: string) {
    m < |buffer| == |after| && after[m] == NUL && forall j | 0 <= j < m :: after[j] == buffer[j]
  }

  lemma {:induction false} CutAtSemicolon(buffer: string, start: nat, m: nat, sep: nat)
    requires Terminated(buffer) && IsFirst(buffer, start, m)
    requires sep == Scan(buffer, start, ';') && buffer[sep] == ';'
    ensures CutThere(buffer, m, SplitBuffer(buffer, start).1)
    decreases |buffer| - start, Scan(buffer, start, NUL), 0
  {
    var cut := Cut(buffer, sep);
    var middle := SplitBuffer(cut, start).1;
    FirstIsBefore(buffer, start, m, sep);
    CutShortens(buffer, start, sep, ';');
    CutAtFirst(cut, start, m);
    KeepsBefore(middle, sep + 1);
    SplitAtSemicolon(buffer, start, sep);
    KeptThrough(buffer, cut, middle, SplitBuffer(middle, sep + 1).1, m, sep);
  }

  lemma FirstIsBefore(buffer: string, start: nat, m: nat, sep: nat)
    requires Terminated(buffer) && IsFirst(buffer, start, m)
    requires sep == Scan(buffer, start, ';') && buffer[sep] == ';'
    ensures m <= sep && IsFirst(Cut(buffer, sep), start, m)
  {
    ScanFinds(buffer, start, ';');
  }

  lemma KeptThrough(buffer: string, cut: string, middle: string, after: string, m: nat, sep: nat)
    requires |cut| == |buffer| == |after| && m <= sep < |buffer| && cut == buffer[sep := NUL]
    requires CutThere(cut, m, middle) && forall j | 0 <= j < sep + 1 :: after[j] == middle[j]
    ensures CutThere(buffer, m, after)
  {
  }

  lemma CutAtBar(buffer: string, start: nat, m: nat)
    requires Terminated(buffer) && IsFirst(buffer, start, m) && buffer[Scan(buffer, start, ';')] == NUL
    ensures CutThere(buffer, m, SplitBuffer(buffer, start).1)
  {
    var bar := Scan(buffer, start, '|');
    ScanFinds(buffer, start, ';');
    ScanFinds(buffer, start, '|');
    if buffer[bar] == '|' {
      SplitAtBar(buffer, start, bar);
      KeepsBefore(Cut(buffer, bar), bar + 2);
    }
  }

  /** So a second call there runs one command. */
  lemma SecondRun(buffer: string, start: nat, m: nat, again: string)
    requires Terminated(buffer) && IsFirst(buffer, start, m) && again == SplitBuffer(buffer, start).1
    ensures SplitBuffer(again, start).0 == Command(Stretch(buffer, start, m))
  {
    CutAtFirst(buffer, start, m);
    OneCommand(again, start, m);
    assert Stretch(again, start, m) == Stretch(buffer, start, m);
  }

  lemma OneCommand(buffer: string, start: nat, m: nat)
    requires Terminated(buffer) && IsFirst(buffer, start, m) && buffer[m] == NUL
    ensures SplitBuffer(buffer, start) == (Command(Stretch(buffer, start, m)), buffer)
  {
    ScanStops(buffer, start, ';', m);
    ScanStops(buffer, start, '|', m);
  }

  // ---------------------------------------------------------------- all pieces

  /** Where the first stage of the first piece ends. */
  lemma FirstStageEnds(buffer: string, start: nat, line: Line, ends: Ends)
    requires AllRead(line) && Pieces(buffer, start, line, ends)
    ensures var m := start + |line.piece.stages[0]|;
      IsFirst(buffer, start, m) && Stretch(buffer, start, m) == line.piece.stages[0]
  {
    var stage := line.piece.stages[0];
    forall j | start <= j < start + |stage|
      ensures buffer[j] == stage[j - start] != '|'
    {
      assert buffer[start + (j - start)] == stage[j - start];
    }
  }

  /** The first piece, cut off at its semicolon. */
  lemma FirstPiece(buffer: string, start: nat, line: Line, ends: Ends)
    requires Terminated(buffer) && AllRead(line) && line.Then? && Pieces(buffer, start, line, ends)
    ensures Scan(buffer, start, ';') == ends.end && buffer[ends.end] == ';'
    ensures var cut := Cut(buffer, ends.end);
      && Parts(cut, start, line.piece.stages, line.piece.open, ends.end) && Quiet(cut, start, ends.end)
      && cut[ends.end] == NUL
  {
    ScanStops(buffer, start, ';', ends.end);
    PartsFrame(buffer, start, line.piece.stages, line.piece.open, ends.end, Cut(buffer, ends.end));
  }

  lemma RestOfLine(buffer: string, start: nat, line: Line, ends: Ends, middle: string)
    requires Terminated(buffer) && AllRead(line) && line.Then? && Pieces(buffer, start, line, ends)
    requires Terminated(middle) && SameOutside(Cut(buffer, ends.end), start, ends.end - start, middle)
    ensures Pieces(middle, ends.end + 1, line.rest, ends.more)
    ensures SameOutside(buffer, start, ends.end + 1 - start, middle)
  {
    PiecesFrame(buffer, ends.end + 1, line.rest, ends.more, middle);
    Widen(buffer, start, ends.end + 1 - start, Cut(buffer, ends.end), start, ends.end - start, middle,
          ends.end + 1 - start);
  }

  lemma JoinClosed(buffer: string, start: nat, sep: nat, stages: seq<string>, rest: Program, middle: string,
                   after: string)
    requires Terminated(buffer) && start < |buffer| && Scan(buffer, start, ';') == sep && buffer[sep] == ';'
    requires stages != [] && SplitBuffer(Cut(buffer, sep), start) == (PipelineOf(stages), middle)
    requires SplitBuffer(middle, sep + 1) == (rest, after)
    ensures SplitBuffer(buffer, start) == (Sequence(PipelineOf(stages), rest), after)
  {
    SplitAtSemicolon(buffer, start, sep);
  }

  lemma JoinOpen(buffer: string, start: nat, sep: nat, stages: seq<string>, middle: string, rest: Program,
                 again: string, first: string)
    returns (after: string)
    requires Terminated(buffer) && start < |buffer| && Scan(buffer, start, ';') == sep && buffer[sep] == ';'
    requires ChainsInto(Cut(buffer, sep), start, stages, middle, sep + 1)
    requires SplitBuffer(middle, sep + 1) == (rest, again)
    requires SplitBuffer(again, sep + 1).0 == Command(first)
    ensures SplitBuffer(buffer, start) == (Sequence(Chain(stages, rest), Command(first)), after)
  {
    SplitAtSemicolon(buffer, start, sep);
    after := SplitBuffer(again, sep + 1).1;
  }

  lemma SplitAtEnd(buffer: string)
    requires Terminated(buffer)
    ensures SplitBuffer(buffer, |buffer| - 1).0 == Command("")
  {
  }

  lemma LastOpen(buffer: string, start: nat, stages: seq<string>) returns (after: string)
    requires Terminated(buffer) && stages != [] && Parts(buffer, start, stages, true, |buffer| - 2)
    requires Quiet(buffer, start, |buffer| - 2)
    ensures SplitBuffer(buffer, start) == (Chain(stages, Command("")), after)
  {
    var middle := BarsRun(buffer, start, stages, |buffer| - 2);
    SplitAtEnd(middle);
    after := SplitBuffer(buffer, start).1;
  }

  /** The run of a line, and how far it reaches if all its pieces are closed. */
  ghost predicate RunsTo(buffer: string, start: nat, line: Line, end: nat, after: string)
    requires Terminated(buffer) && start < |buffer| && AllRead(line)
  {
    && SplitBuffer(buffer, start) == (Meaning(line), after)
    && (AllClosed(line) ==> start <= end && SameOutside(buffer, start, end - start, after))
  }

  lemma OnlyRuns(buffer: string, start: nat, line: Line, ends: Ends) returns (after: string)
    requires Terminated(buffer) && AllRead(line) && line.Only? && Pieces(buffer, start, line, ends)
    requires line.piece.open ==> ends.end + 2 == |buffer|
    ensures RunsTo(buffer, start, line, ends.end, after)
  {
    if line.piece.open {
      after := LastOpen(buffer, start, line.piece.stages);
    } else {
      after := PartsRun(buffer, start, line.piece.stages, ends.end);
    }
  }

  /** The first of several pieces, and the buffer it leaves to the rest. */
  lemma ClosedFirst(buffer: string, start: nat, line: Line, ends: Ends) returns (middle: string)
    requires Terminated(buffer) && AllRead(line) && line.Then? && Pieces(buffer, start, line, ends)
    requires !line.piece.open
    ensures Scan(buffer, start, ';') == ends.end && buffer[ends.end] == ';' && Terminated(middle)
    ensures SplitBuffer(Cut(buffer, ends.end), start) == (PipelineOf(line.piece.stages), middle)
    ensures SameOutside(buffer, start, ends.end + 1 - start, middle)
    ensures Pieces(middle, ends.end + 1, line.rest, ends.more)
  {
    FirstPiece(buffer, start, line, ends);
    middle := PartsRun(Cut(buffer, ends.end), start, line.piece.stages, ends.end);
    RestOfLine(buffer, start, line, ends, middle);
  }

  lemma OpenFirst(buffer: string, start: nat, line: Line, ends: Ends) returns (middle: string)
    requires Terminated(buffer) && AllRead(line) && line.Then? && Pieces(buffer, start, line, ends)
    requires line.piece.open
    ensures Scan(buffer, start, ';') == ends.end && buffer[ends.end] == ';'
    ensures ChainsInto(Cut(buffer, ends.end), start, line.piece.stages, middle, ends.end + 1)
    ensures SameOutside(buffer, start, ends.end + 1 - start, middle)
    ensures Pieces(middle, ends.end + 1, line.rest, ends.more)
  {
    FirstPiece(buffer, start, line, ends);
    middle := BarsRun(Cut(buffer, ends.end), start, line.piece.stages, ends.end);
    RestOfLine(buffer, start, line, ends, middle);
  }

  lemma ClosedJoins(buffer: string, start: nat, line: Line, sep: nat, end: nat, middle: string, after: string)
    requires Terminated(buffer) && start <= sep < |buffer| && Scan(buffer, start, ';') == sep && buffer[sep] == ';'
    requires AllRead(line) && line.Then? && !line.piece.open
    requires SplitBuffer(Cut(buffer, sep), start) == (PipelineOf(line.piece.stages), middle)
    requires SameOutside(buffer, start, sep + 1 - start, middle) && Terminated(middle) && sep + 1 < |middle|
    requires RunsTo(middle, sep + 1, line.rest, end, after)
    ensures RunsTo(buffer, start, line, end, after)
  {
    JoinClosed(buffer, start, sep, line.piece.stages, Meaning(line.rest), middle, after);
    if AllClosed(line) {
      Widen(buffer, start, sep + 1 - start, middle, sep + 1, end - (sep + 1), after, end - start);
    }
  }

  lemma OpenJoins(buffer: string, start: nat, line: Line, ends: Ends, end: nat, middle: string, again: string)
    returns (after: string)
    requires Terminated(buffer) && start <= ends.end < |buffer|
    requires Scan(buffer, start, ';') == ends.end && buffer[ends.end] == ';'
    requires AllRead(line) && line.Then? && line.piece.open && ends.Upto?
    requires ChainsInto(Cut(buffer, ends.end), start, line.piece.stages, middle, ends.end + 1)
    requires Pieces(middle, ends.end + 1, line.rest, ends.more)
    requires RunsTo(middle, ends.end + 1, line.rest, end, again)
    ensures RunsTo(buffer, start, line, end, after)
  {
    var sep, first := ends.end, line.rest.piece.stages[0];
    FirstStageEnds(middle, sep + 1, line.rest, ends.more);
    SecondRun(middle, sep + 1, sep + 1 + |first|, again);
    after := JoinOpen(buffer, start, sep, line.piece.stages, middle, Meaning(line.rest), again, first);
  }

  /** What the lemmas about the run of a line ask for. */
  ghost predicate Runnable(buffer: string, start: nat, line: Line, ends: Ends) {
    && Terminated(buffer) && AllRead(line) && Pieces(buffer, start, line, ends)
    && (LastPiece(line).open ==> Last(ends) + 2 == |buffer|)
  }

  lemma {:induction false} OpenRuns(buffer: string, start: nat, line: Line, ends: Ends) returns (after: string)
    requires Runnable(buffer, start, line, ends) && line.Then? && line.piece.open
    ensures RunsTo(buffer, start, line, Last(ends), after)
    decreases line, 0
  {
    var middle := OpenFirst(buffer, start, line, ends);
    var again := PiecesRun(middle, ends.end + 1, line.rest, ends.more);
    after := OpenJoins(buffer, start, line, ends, Last(ends), middle, again);
  }

  lemma {:induction false} ClosedRuns(buffer: string, start: nat, line: Line, ends: Ends) returns (after: string)
    requires Runnable(buffer, start, line, ends) && line.Then? && !line.piece.open
    ensures RunsTo(buffer, start, line, Last(ends), after)
    decreases line, 0
  {
    var middle := ClosedFirst(buffer, start, line, ends);
    after := PiecesRun(middle, ends.end + 1, line.rest, ends.more);
    ClosedJoins(buffer, start, line, ends.end, Last(ends), middle, after);
  }

  /** The runner on a line does what the line means; if all pieces are closed it stays
      inside it. */
  lemma {:induction false} PiecesRun(buffer: string, start: nat, line: Line, ends: Ends) returns (after: string)
    requires Runnable(buffer, start, line, ends)
    ensures RunsTo(buffer, start, line, Last(ends), after)
    decreases line, 1
  {
    if line.Only? {
      after := OnlyRuns(buffer, start, line, ends);
    } else if line.piece.open {
      after := OpenRuns(buffer, start, line, ends);
    } else {
      after := ClosedRuns(buffer, start, line, ends);
    }
  }

  // ---------------------------------------------------------------- texts and pieces

  /** The text is in the buffer. */
  predicate Holds(buffer: string, start: nat, text: string) {
    start + |text| < |buffer| && forall j | 0 <= j < |text| :: buffer[start + j] == text[j]
  }

  lemma HoldsRight(buffer: string, start: nat, text: string, lo: nat)
    requires Holds(buffer, start, text) && lo <= |text|
    ensures Holds(buffer, start + lo, Stretch(text, lo, |text|))
  {
    forall j | 0 <= j < |text| - lo
      ensures buffer[start + lo + j] == Stretch(text, lo, |text|)[j]
    {
      assert buffer[start + (lo + j)] == text[lo + j];
    }
  }

  lemma FirstBarOf(part: string, i: nat)
    requires i == Find(part, '|') && i + 2 <= |part|
    ensures var head, tail := Stretch(part, 0, i), Stretch(part, i + 2, |part|);
      && part[i] == '|' && NoneBefore(head, '|', i)
      && ReadPiece(part) == Piece([head] + ReadPiece(tail).stages, ReadPiece(tail).open)
  {
    FoundFirst(part, '|');
  }

  lemma MoreParts(buffer: string, start: nat, head: string, rest: seq<string>, open: bool, end: nat)
    requires rest != [] && Parts(buffer, start + |head| + 2, rest, open, end) && NoneBefore(head, '|', |head|)
    requires start + |head| + 2 <= end && buffer[start + |head|] == '|'
    requires forall j | 0 <= j < |head| :: buffer[start + j] == head[j]
    ensures Parts(buffer, start, [head] + rest, open, end)
  {
    assert ([head] + rest)[1..] == rest;
  }

  lemma {:induction false} TextHasParts(buffer: string, start: nat, part: string)
    requires Holds(buffer, start, part)
    ensures Parts(buffer, start, ReadPiece(part).stages, ReadPiece(part).open, start + |part|)
    decreases |part|
  {
    var i := Find(part, '|');
    if i + 2 <= |part| {
      var head, tail := Stretch(part, 0, i), Stretch(part, i + 2, |part|);
      FirstBarOf(part, i);
      HoldsRight(buffer, start, part, i + 2);
      TextHasParts(buffer, start + i + 2, tail);
      MoreParts(buffer, start, head, ReadPiece(tail).stages, ReadPiece(tail).open, start + |part|);
    } else {
      FoundFirst(part, '|');
    }
  }

  lemma QuietBefore(buffer: string, start: nat, text: string, i: nat)
    requires Holds(buffer, start, text) && i <= |text| && NoneBefore(text, ';', i) && NoneBefore(text, NUL, i)
    ensures Quiet(buffer, start, start + i)
  {
    forall j | start <= j < start + i
      ensures buffer[j] != ';' && buffer[j] != NUL
    {
      assert buffer[start + (j - start)] == text[j - start];
    }
  }

  lemma OnePiece(buffer: string, start: nat, text: string)
    requires Holds(buffer, start, text) && NoneBefore(text, NUL, |text|) && buffer[start + |text|] == NUL
    requires Find(text, ';') == |text|
    ensures Pieces(buffer, start, ReadLine(text), At(start + |text|))
  {
    FoundFirst(text, ';');
    QuietBefore(buffer, start, text, |text|);
    TextHasParts(buffer, start, text);
  }

  lemma MorePieces(buffer: string, start: nat, text: string, i: nat, more: Ends)
    requires Holds(buffer, start, text) && NoneBefore(text, NUL, |text|) && i == Find(text, ';') < |text|
    requires Pieces(buffer, start + i + 1, ReadLine(Stretch(text, i + 1, |text|)), more)
    ensures Pieces(buffer, start, ReadLine(text), Upto(start + i, more))
  {
    FoundFirst(text, ';');
    QuietBefore(buffer, start, text, i);
    TextHasParts(buffer, start, Stretch(text, 0, i));
  }

  lemma {:induction false} TextHasPieces(buffer: string, start: nat, text: string) returns (ends: Ends)
    requires Holds(buffer, start, text) && NoneBefore(text, NUL, |text|) && buffer[start + |text|] == NUL
    ensures Pieces(buffer, start, ReadLine(text), ends) && Last(ends) == start + |text|
    decreases |text|
  {
    var i := Find(text, ';');
    if i == |text| {
      OnePiece(buffer, start, text);
      ends := At(start + i);
    } else {
      HoldsRight(buffer, start, text, i + 1);
      var more := TextHasPieces(buffer, start + i + 1, Stretch(text, i + 1, |text|));
      MorePieces(buffer, start, text, i, more);
      ends := Upto(start + i, more);
    }
  }

  lemma ReadsHolds(buffer: string, start: nat, text: string)
    requires Reads(buffer, start, text)
    ensures Holds(buffer, start, text) && NoneBefore(text, NUL, |text|) && buffer[start + |text|] == NUL
  {
  }

  /** Every line that fills its buffer up to the two NULs, be it well-formed or not, is run
      as what it means. */
  lemma EveryLine(buffer: string, start: nat, text: string)
    requires Reads(buffer, start, text) && start + |text| + 2 == |buffer|
    ensures SplitBuffer(buffer, start).0 == Meaning(ReadLine(text))
  {
    ReadsHolds(buffer, start, text);
    var ends := TextHasPieces(buffer, start, text);
    var after := PiecesRun(buffer, start, ReadLine(text), ends);
  }

  /** So the shell does with such a line what it means. */
  lemma RunsEveryLine(s: Process, buffer: string)
    requires Terminated(buffer) && |s.table| >= 3 && |Text(buffer, 0)| + 2 == |buffer|
    ensures RunBuffer(s, buffer, 0).0 == Execute(s, Meaning(ReadLine(Text(buffer, 0))))
  {
    TextIsRead(buffer, 0);
    EveryLine(buffer, 0, Text(buffer, 0));
  }

  // ---------------------------------------------------------------- well-formed texts

  lemma {:induction false} ClosedPiece(part: string)
    ensures WellFormedPipeline(part) <==> !ReadPiece(part).open
    ensures WellFormedPipeline(part) ==> ReadPiece(part).stages == Stages(part)
    decreases |part|
  {
    var i := Find(part, '|');
    if i + 2 <= |part| {
      ClosedPiece(Stretch(part, i + 2, |part|));
    }
  }

  lemma {:induction false} ClosedLine(text: string)
    ensures WellFormed(text) <==> AllClosed(ReadLine(text))
    ensures WellFormed(text) ==> Meaning(ReadLine(text)) == ProgramOf(Pipelines(text))
    decreases |text|
  {
    var i := Find(text, ';');
    if i == |text| {
      ClosedPiece(text);
    } else {
      var left, right := Stretch(text, 0, i), Stretch(text, i + 1, |text|);
      ClosedPiece(left);
      ClosedLine(right);
      if WellFormed(text) {
        ProgramOfMore(Stages(left), Pipelines(right));
      }
    }
  }

  lemma {:induction false} ClosedAtLast(line: Line)
    requires AllClosed(line)
    ensures !LastPiece(line).open
  {
    if line.Then? {
      ClosedAtLast(line.rest);
    }
  }

  lemma ProgramOfMore(first: seq<string>, rest: seq<seq<string>>)
    requires first != [] && AllNonEmpty(rest)
    ensures AllNonEmpty([first] + rest)
    ensures ProgramOf([first] + rest) == Sequence(PipelineOf(first), ProgramOf(rest))
  {
    assert ([first] + rest)[1..] == rest;
  }

  /** A well-formed pipeline is split into its stages. */
  lemma SplitsPipeline(buffer: string, start: nat, text: string) returns (after: string)
    requires Reads(buffer, start, text) && NoneBefore(text, ';', |text|) && WellFormedPipeline(text)
    ensures SplitBuffer(buffer, start) == (PipelineOf(Stages(text)), after)
    ensures SameOutside(buffer, start, |text|, after)
  {
    ReadsHolds(buffer, start, text);
    QuietBefore(buffer, start, text, |text|);
    TextHasParts(buffer, start, text);
    ClosedPiece(text);
    after := PartsRun(buffer, start, Stages(text), start + |text|);
  }

  /** A well-formed text is split in the buffer as it is read on its own, wherever it
      stands, and the splitting stays inside it. */
  lemma SplitsTheText(buffer: string, start: nat, text: string)
    requires Reads(buffer, start, text) && WellFormed(text)
    ensures SplitBuffer(buffer, start).0 == ProgramOf(Pipelines(text))
    ensures SameOutside(buffer, start, |text|, SplitBuffer(buffer, start).1)
  {
    ReadsHolds(buffer, start, text);
    ClosedLine(text);
    ClosedAtLast(ReadLine(text));
    var ends := TextHasPieces(buffer, start, text);
    var after := PiecesRun(buffer, start, ReadLine(text), ends);
  }

  /** On a line whose text is well-formed the runner on the buffer does what the text
      says and leaves the rest of the buffer alone. */
  lemma RunsTheText(s: Process, buffer: string, start: nat)
    requires Terminated(buffer) && start < |buffer| && |s.table| >= 3 && WellFormed(Text(buffer, start))
    ensures RunBuffer(s, buffer, start).0 == Execute(s, ProgramOf(Pipelines(Text(buffer, start))))
    ensures SameOutside(buffer, start, |Text(buffer, start)|, RunBuffer(s, buffer, start).1)
  {
    TextIsRead(buffer, start);
    SplitsTheText(buffer, start, Text(buffer, start));
  }

  /** Printing pipelines into the buffer and running it runs exactly their commands, in
      their order. */
  lemma PrintAndRun(s: Process, buffer: string, pipelines: seq<seq<string>>)
    requires Terminated(buffer) && Standard(s.table)
    requires AllPrintable(pipelines) && Text(buffer, 0) == ShowLine(pipelines)
    ensures Commands(RunBuffer(s, buffer, 0).0.trace) == Commands(s.trace) + Flatten(pipelines)
  {
    PipelinesOfShown(pipelines);
    RunsTheText(s, buffer, 0);
    RunsTheCommands(s, pipelines);
  }
}
