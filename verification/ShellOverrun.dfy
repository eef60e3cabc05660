/** Lines that are not well-formed. After a bar the runner skips one character without
    looking at it; where that is the end of its text it runs on in what follows. */
module ShellOverrun {
  import opened Shell
  import opened ShellText
  import opened ShellBuffer
  import opened ShellLines

  // ---------------------------------------------------------------- staying inside

  /** Along the splitting every call starts no later than its caller's text ends. */
  predicate StaysInside(buffer: string, start: nat)
    requires Terminated(buffer) && start < |buffer|
    decreases |buffer| - start, Scan(buffer, start, NUL)
  {
    var end := Scan(buffer, start, NUL);
    var sep := Scan(buffer, start, ';');
    if buffer[sep] == ';' then
      CutShortens(buffer, start, sep, ';');
      && sep + 1 <= end
      && StaysInside(Cut(buffer, sep), start)
      && StaysInside(SplitBuffer(Cut(buffer, sep), start).1, sep + 1)
    else
      var bar := Scan(buffer, start, '|');
      buffer[bar] == '|' ==> bar + 2 <= end && StaysInside(Cut(buffer, bar), bar + 2)
  }

  lemma InsideAtBar(buffer: string, start: nat, bar: nat)
    requires Terminated(buffer) && start < |buffer|
    requires buffer[Scan(buffer, start, ';')] == NUL && bar == Scan(buffer, start, '|') <= Scan(buffer, start, NUL)
    ensures buffer[bar] == NUL ==> StaysInside(buffer, start)
    ensures buffer[bar] == '|' && Scan(buffer, start, NUL) < bar + 2 ==> !StaysInside(buffer, start)
    ensures buffer[bar] == '|' && bar + 2 <= Scan(buffer, start, NUL) ==>
              (StaysInside(buffer, start) <==> StaysInside(Cut(buffer, bar), bar + 2))
  {
  }

  lemma BarFound(buffer: string, start: nat, text: string, i: nat)
    requires Reads(buffer, start, text) && NoneBefore(text, ';', |text|) && i == Find(text, '|')
    ensures buffer[Scan(buffer, start, ';')] == NUL && Scan(buffer, start, NUL) == start + |text|
    ensures Scan(buffer, start, '|') == start + i && buffer[start + i] == if i < |text| then '|' else NUL
  {
    ReadsTo(buffer, start, text);
    ScanStopsAt(buffer, start, text, ';', |text|);
    ScanText(buffer, start, text, '|');
  }

  /** Behind a bar that something follows. */
  lemma BehindBar(buffer: string, start: nat, text: string, i: nat) returns (cut: string, rest: string)
    requires Reads(buffer, start, text) && NoneBefore(text, ';', |text|) && i == Find(text, '|') && i + 2 <= |text|
    ensures |rest| < |text| && Reads(cut, start + i + 2, rest) && NoneBefore(rest, ';', |rest|)
    ensures StaysInside(buffer, start) <==> StaysInside(cut, start + i + 2)
    ensures WellFormedPipeline(text) <==> WellFormedPipeline(rest)
  {
    BarFound(buffer, start, text, i);
    InsideAtBar(buffer, start, start + i);
    cut, rest := Cut(buffer, start + i), Stretch(text, i + 2, |text|);
    AroundBar(buffer, start, text, i);
    PartHasNoSemicolon(text, i + 2, |text|);
  }

  lemma {:induction false} PipelineStaysInside(buffer: string, start: nat, text: string)
    requires Reads(buffer, start, text) && NoneBefore(text, ';', |text|)
    ensures StaysInside(buffer, start) <==> WellFormedPipeline(text)
    decreases |text|
  {
    var i := Find(text, '|');
    if i + 2 <= |text| {
      var cut, rest := BehindBar(buffer, start, text, i);
      PipelineStaysInside(cut, start + i + 2, rest);
    } else {
      BarFound(buffer, start, text, i);
      InsideAtBar(buffer, start, start + i);
    }
  }

  lemma InsideAtSemicolon(buffer: string, start: nat, sep: nat, middle: string)
    requires Terminated(buffer) && start < |buffer|
    requires sep == Scan(buffer, start, ';') && buffer[sep] == ';' && sep < Scan(buffer, start, NUL)
    requires middle == SplitBuffer(Cut(buffer, sep), start).1
    ensures sep + 1 < |buffer|
    ensures StaysInside(buffer, start) <==> StaysInside(Cut(buffer, sep), start) && StaysInside(middle, sep + 1)
  {
  }

  /** Left of a semicolon the text is a pipeline. */
  lemma LeftIsRead(buffer: string, start: nat, text: string, i: nat) returns (left: string)
    requires Reads(buffer, start, text) && i == Find(text, ';') < |text|
    ensures left == Stretch(text, 0, i) && NoneBefore(left, ';', i)
    ensures buffer[start + i] == ';' && Reads(Cut(buffer, start + i), start, left)
  {
    left := Stretch(text, 0, i);
    FoundFirst(text, ';');
    LeftText(buffer, start, text, i);
  }

  /** If that is well-formed the right side is read as it stands in the text. */
  lemma RightIsRead(buffer: string, start: nat, text: string, i: nat, left: string, middle: string)
    requires Reads(buffer, start, text) && i < |text| && buffer[start + i] == ';'
    requires Reads(Cut(buffer, start + i), start, left)
    requires |left| == i && NoneBefore(left, ';', i) && WellFormedPipeline(left)
    requires middle == SplitBuffer(Cut(buffer, start + i), start).1
    ensures Reads(middle, start + i + 1, Stretch(text, i + 1, |text|))
  {
    var after := SplitsPipeline(Cut(buffer, start + i), start, left);
    Widen(buffer, start, i + 1, Cut(buffer, start + i), start, i, middle, i + 1);
    RightText(buffer, start, text, i, middle, i + 1);
  }

  lemma {:induction false} LineStaysInside(buffer: string, start: nat, text: string)
    requires Reads(buffer, start, text)
    ensures StaysInside(buffer, start) <==> WellFormed(text)
    decreases |text|, 1
  {
    var i := Find(text, ';');
    if i == |text| {
      FoundFirst(text, ';');
      PipelineStaysInside(buffer, start, text);
    } else {
      MoreStaysInside(buffer, start, text, i);
    }
  }

  lemma {:induction false} MoreStaysInside(buffer: string, start: nat, text: string, i: nat)
    requires Reads(buffer, start, text) && i == Find(text, ';') < |text|
    ensures StaysInside(buffer, start) <==> WellFormed(text)
    decreases |text|, 0
  {
    var right := Stretch(text, i + 1, |text|);
    var well, middle := LeftStaysInside(buffer, start, text, i);
    InsideAtSemicolon(buffer, start, start + i, middle);
    if well {
      LineStaysInside(middle, start + i + 1, right);
    }
  }

  lemma LeftStaysInside(buffer: string, start: nat, text: string, i: nat) returns (well: bool, middle: string)
    requires Reads(buffer, start, text) && i == Find(text, ';') < |text|
    ensures Scan(buffer, start, ';') == start + i < Scan(buffer, start, NUL) && buffer[start + i] == ';'
    ensures middle == SplitBuffer(Cut(buffer, start + i), start).1
    ensures well == WellFormedPipeline(Stretch(text, 0, i)) == StaysInside(Cut(buffer, start + i), start)
    ensures well ==> Reads(middle, start + i + 1, Stretch(text, i + 1, |text|))
  {
    SemicolonFound(buffer, start, text, i);
    var left := LeftIsRead(buffer, start, text, i);
    PipelineStaysInside(Cut(buffer, start + i), start, left);
    middle := SplitBuffer(Cut(buffer, start + i), start).1;
    well := WellFormedPipeline(left);
    if well {
      RightIsRead(buffer, start, text, i, left, middle);
    }
  }

  /** The runner stays inside the text of its call exactly if that is well-formed. */
  lemma StaysInsideExactlyWhen(buffer: string, start: nat)
    requires Terminated(buffer) && start < |buffer|
    ensures StaysInside(buffer, start) <==> WellFormed(Text(buffer, start))
  {
    TextIsRead(buffer, start);
    LineStaysInside(buffer, start, Text(buffer, start));
  }

  // ---------------------------------------------------------------- where a part goes wrong

  /** A part that is not well-formed is one that is, with one more bar at its end. */
  lemma {:induction false} IllFormedPart(part: string)
    ensures !WellFormedPipeline(part) <==>
              part != "" && part[|part| - 1] == '|' && WellFormedPipeline(Stretch(part, 0, |part| - 1))
    decreases |part|
  {
    var i := Find(part, '|');
    if i + 2 < |part| {
      var tail := Stretch(part, i + 2, |part|);
      IllFormedPart(tail);
      FrontOfTail(part, i, tail);
    } else {
      ShortPart(part, i);
    }
  }

  lemma FrontOfTail(part: string, i: nat, tail: string)
    requires i == Find(part, '|') && i + 2 < |part| && tail == Stretch(part, i + 2, |part|)
    ensures part[|part| - 1] == tail[|tail| - 1]
    ensures WellFormedPipeline(part) <==> WellFormedPipeline(tail)
    ensures WellFormedPipeline(Stretch(part, 0, |part| - 1)) <==> WellFormedPipeline(Stretch(tail, 0, |tail| - 1))
  {
    var front := Stretch(part, 0, |part| - 1);
    FoundFirst(part, '|');
    FoundAt(front, '|', i);
    assert Stretch(front, i + 2, |front|) == Stretch(tail, 0, |tail| - 1);
  }

  lemma ShortPart(part: string, i: nat)
    requires i == Find(part, '|') && |part| <= i + 2
    ensures !WellFormedPipeline(part) <==>
              part != "" && part[|part| - 1] == '|' && WellFormedPipeline(Stretch(part, 0, |part| - 1))
  {
    FoundFirst(part, '|');
    if i < |part| {
      FoundAt(Stretch(part, 0, |part| - 1), '|', i);
    }
  }

  // ---------------------------------------------------------------- what is cut first

  /** The first separator of either kind, or the end of the text. */
  function FirstSeparator(text: string): (m: nat)
    ensures m <= |text|
  {
    if Find(text, ';') < Find(text, '|') then Find(text, ';') else Find(text, '|')
  }

  lemma FirstSeparatorIs(text: string)
    ensures var m := FirstSeparator(text);
      && NoneBefore(text, ';', m) && NoneBefore(text, '|', m)
      && (m < |text| ==> text[m] == ';' || text[m] == '|')
  {
    FoundFirst(text, ';');
    FoundFirst(text, '|');
  }

  // ---------------------------------------------------------------- a part that ends in a bar

  lemma {:induction false} WithBar(buffer: string, start: nat, stages: seq<string>, end: nat)
    requires stages != [] && Parts(buffer, start, stages, false, end) && buffer[end] == '|' && end + 1 < |buffer|
    ensures Parts(buffer, start, stages, true, end + 1)
    decreases |stages|
  {
    if |stages| > 1 {
      WithBar(buffer, start + |stages[0]| + 2, stages[1..], end);
    }
  }

  lemma BarIsHeld(buffer: string, start: nat, front: string)
    requires Reads(buffer, start, front + "|") && NoneBefore(front, ';', |front|)
    ensures Holds(buffer, start, front) && buffer[start + |front|] == '|'
    ensures Quiet(buffer, start, start + |front| + 1) && buffer[start + |front| + 1] == NUL
  {
    var text := front + "|";
    ReadsHolds(buffer, start, text);
    QuietBefore(buffer, start, text, |text|);
    forall j | 0 <= j < |front|
      ensures buffer[start + j] == front[j]
    {
      assert text[j] == buffer[start + j];
    }
    assert text[|front|] == '|';
  }

  /** A pipeline with a bar at its end: the stages before that bar, piped into whatever
      the runner finds one place beyond the end of the text. */
  lemma BarAtEnd(buffer: string, start: nat, front: string) returns (middle: string)
    requires Reads(buffer, start, front + "|") && NoneBefore(front, ';', |front|) && WellFormedPipeline(front)
    ensures SameOutside(buffer, start, |front| + 1, middle)
    ensures ChainsInto(buffer, start, Stages(front), middle, start + |front| + 2)
  {
    BarIsHeld(buffer, start, front);
    TextHasParts(buffer, start, front);
    ClosedPiece(front);
    WithBar(buffer, start, Stages(front), start + |front|);
    middle := BarsRun(buffer, start, Stages(front), start + |front| + 1);
  }

  lemma FrontAndSemicolon(buffer: string, start: nat, front: string, rest: string)
    requires Reads(buffer, start, front + "|;" + rest) && NoneBefore(front, ';', |front|)
    ensures var n := start + |front| + 1;
      && Scan(buffer, start, ';') == n && buffer[n] == ';' && n + 1 < |buffer|
      && Reads(Cut(buffer, n), start, front + "|")
  {
    var text, n := front + "|;" + rest, |front| + 1;
    FoundAt(text, ';', n);
    SemicolonFound(buffer, start, text, n);
    LeftText(buffer, start, text, n);
    assert Stretch(text, 0, n) == front + "|";
  }

  /** What follows the semicolon is still there. */
  lemma RestIsRead(buffer: string, start: nat, front: string, rest: string, middle: string)
    requires Reads(buffer, start, front + "|;" + rest) && Terminated(middle)
    requires SameOutside(buffer, start, |front| + 2, middle)
    ensures Reads(middle, start + |front| + 2, rest)
  {
    var text, n := front + "|;" + rest, |front| + 2;
    assert Stretch(text, n, |text|) == rest;
    RightText(buffer, start, text, n - 1, middle, n);
  }

  lemma FirstOfRest(buffer: string, at: nat, rest: string)
    requires Reads(buffer, at, rest)
    ensures var m := FirstSeparator(rest);
      IsFirst(buffer, at, at + m) && Stretch(buffer, at, at + m) == Stretch(rest, 0, m)
  {
    var m := FirstSeparator(rest);
    FirstSeparatorIs(rest);
    forall j | at <= j < at + m
      ensures buffer[j] != ';' && buffer[j] != '|' && buffer[j] != NUL
    {
      assert buffer[j] == rest[j - at];
    }
  }

  /** Up to the bar, and the buffer left to the rest. */
  lemma FrontRuns(buffer: string, start: nat, front: string, rest: string) returns (middle: string)
    requires Reads(buffer, start, front + "|;" + rest)
    requires NoneBefore(front, ';', |front|) && WellFormedPipeline(front)
    ensures var sep := start + |front| + 1;
      && Scan(buffer, start, ';') == sep && buffer[sep] == ';'
      && ChainsInto(Cut(buffer, sep), start, Stages(front), middle, sep + 1)
    ensures SameOutside(buffer, start, |front| + 2, middle) && Reads(middle, start + |front| + 2, rest)
  {
    var n := |front| + 1;
    FrontAndSemicolon(buffer, start, front, rest);
    var cut := Cut(buffer, start + n);
    middle := BarAtEnd(cut, start, front);
    Widen(buffer, start, n + 1, cut, start, n, middle, n + 1);
    RestIsRead(buffer, start, front, rest, middle);
  }

  lemma RunTwice(middle: string, at: nat, rest: string, again: string)
    requires Reads(middle, at, rest) && again == SplitBuffer(middle, at).1
    ensures SplitBuffer(again, at).0 == Command(Stretch(rest, 0, FirstSeparator(rest)))
  {
    FirstOfRest(middle, at, rest);
    SecondRun(middle, at, at + FirstSeparator(rest), again);
  }

  lemma RestAsRead(middle: string, at: nat, rest: string)
    requires Reads(middle, at, rest)
    ensures WellFormed(rest) ==> SplitBuffer(middle, at).0 == ProgramOf(Pipelines(rest))
  {
    if WellFormed(rest) {
      SplitsTheText(middle, at, rest);
    }
  }

  lemma RestRuns(buffer: string, start: nat, sep: nat, stages: seq<string>, middle: string, rest: string)
    requires Terminated(buffer) && start < |buffer| && Scan(buffer, start, ';') == sep && buffer[sep] == ';'
    requires ChainsInto(Cut(buffer, sep), start, stages, middle, sep + 1) && Reads(middle, sep + 1, rest)
    ensures SplitBuffer(buffer, start).0
         == Sequence(Chain(stages, SplitBuffer(middle, sep + 1).0), Command(Stretch(rest, 0, FirstSeparator(rest))))
  {
    var right := SplitBuffer(middle, sep + 1);
    RunTwice(middle, sep + 1, rest, right.1);
    var after := JoinOpen(buffer, start, sep, stages, middle, right.0, right.1, Stretch(rest, 0, FirstSeparator(rest)));
  }

  /** So before a semicolon the pipeline's right side is all that follows the semicolon,
      as it reads if that is well-formed, and after it, a second time, what follows up to
      its first separator, where the first time has cut it. */
  lemma BarBeforeSemicolon(buffer: string, start: nat, front: string, rest: string) returns (middle: string)
    requires Reads(buffer, start, front + "|;" + rest)
    requires NoneBefore(front, ';', |front|) && WellFormedPipeline(front)
    ensures SameOutside(buffer, start, |front| + 2, middle) && Reads(middle, start + |front| + 2, rest)
    ensures WellFormed(rest) ==> SplitBuffer(middle, start + |front| + 2).0 == ProgramOf(Pipelines(rest))
    ensures SplitBuffer(buffer, start).0
         == Sequence(Chain(Stages(front), SplitBuffer(middle, start + |front| + 2).0),
                     Command(Stretch(rest, 0, FirstSeparator(rest))))
  {
    middle := FrontRuns(buffer, start, front, rest);
    RestAsRead(middle, start + |front| + 2, rest);
    RestRuns(buffer, start, start + |front| + 1, Stages(front), middle, rest);
  }
}
