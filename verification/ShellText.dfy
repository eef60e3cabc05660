/** What the text of a line asks for, and the text that asks for given pipelines. */
module ShellText {
  import opened Shell

  /** The characters from `lo` to `hi`. */
  function Stretch(line: string, lo: nat, hi: nat): (r: string)
    requires lo <= hi <= |line|
    ensures |r| == hi - lo
  {
    seq(hi - lo, j requires 0 <= j < hi - lo => line[lo + j])
  }

  /** There is no `c` before `end`. */
  predicate NoneBefore(line: string, c: char, end: nat)
    requires end <= |line|
  {
    forall j | 0 <= j < end :: line[j] != c
  }

  /** The first position of `c`, or the length of the line if there is none. */
  function Find(line: string, c: char): (i: nat)
    ensures i <= |line| && (i < |line| ==> line[i] == c)
  {
    FindFrom(line, c, 0)
  }

  function FindFrom(line: string, c: char, k: nat): (i: nat)
    requires k <= |line|
    ensures k <= i <= |line| && (i < |line| ==> line[i] == c)
    decreases |line| - k
  {
    if k == |line| || line[k] == c then k else FindFrom(line, c, k + 1)
  }

  lemma {:induction false} FoundFrom(line: string, c: char, k: nat)
    requires k <= |line| && NoneBefore(line, c, k)
    ensures NoneBefore(line, c, FindFrom(line, c, k))
    decreases |line| - k
  {
    if k < |line| && line[k] != c {
      FoundFrom(line, c, k + 1);
    }
  }

  /** It is the first. */
  lemma FoundFirst(line: string, c: char)
    ensures NoneBefore(line, c, Find(line, c))
  {
    FoundFrom(line, c, 0);
  }

  lemma {:induction false} FoundFromAt(line: string, c: char, k: nat, i: nat)
    requires k <= i <= |line| && NoneBefore(line, c, i) && (i < |line| ==> line[i] == c)
    ensures FindFrom(line, c, k) == i
    decreases i - k
  {
    if k < i {
      FoundFromAt(line, c, k + 1, i);
    }
  }

  /** And what is the first is found. */
  lemma FoundAt(line: string, c: char, i: nat)
    requires i <= |line| && NoneBefore(line, c, i) && (i < |line| ==> line[i] == c)
    ensures Find(line, c) == i
  {
    FoundFromAt(line, c, 0, i);
  }

  // ---------------------------------------------------------------- reading

  /** A character follows every bar that is split at; the runner skips it. */
  predicate WellFormedPipeline(line: string)
    decreases |line|
  {
    var i := Find(line, '|');
    i == |line| || (i + 1 < |line| && WellFormedPipeline(Stretch(line, i + 2, |line|)))
  }

  predicate WellFormed(line: string)
    decreases |line|
  {
    var i := Find(line, ';');
    if i == |line| then WellFormedPipeline(line)
    else WellFormedPipeline(Stretch(line, 0, i)) && WellFormed(Stretch(line, i + 1, |line|))
  }

  /** The commands of a pipeline, in order. */
  function Stages(line: string): (stages: seq<string>)
    requires WellFormedPipeline(line)
    ensures stages != []
    decreases |line|
  {
    var i := Find(line, '|');
    if i == |line| then [line] else [Stretch(line, 0, i)] + Stages(Stretch(line, i + 2, |line|))
  }

  /** The pipelines of a line, in order. */
  function Pipelines(line: string): (pipelines: seq<seq<string>>)
    requires WellFormed(line)
    ensures AllNonEmpty(pipelines)
    decreases |line|
  {
    var i := Find(line, ';');
    if i == |line| then [Stages(line)] else [Stages(Stretch(line, 0, i))] + Pipelines(Stretch(line, i + 1, |line|))
  }

  // ---------------------------------------------------------------- printing

  /** Commands that the runner does not split, at least one of them. */
  predicate Printable(stages: seq<string>) {
    && stages != []
    && forall k | 0 <= k < |stages| ::
         NoneBefore(stages[k], ';', |stages[k]|) && NoneBefore(stages[k], '|', |stages[k]|)
  }

  predicate AllPrintable(pipelines: seq<seq<string>>) {
    pipelines != [] && forall k | 0 <= k < |pipelines| :: Printable(pipelines[k])
  }

  function ShowPipeline(stages: seq<string>): string
    requires Printable(stages)
  {
    if |stages| == 1 then stages[0] else stages[0] + "| " + ShowPipeline(stages[1..])
  }

  function ShowLine(pipelines: seq<seq<string>>): string
    requires AllPrintable(pipelines)
  {
    if |pipelines| == 1 then ShowPipeline(pipelines[0])
    else ShowPipeline(pipelines[0]) + ";" + ShowLine(pipelines[1..])
  }

  lemma Joint(first: string, middle: string, rest: string, c: char)
    requires middle != "" && middle[0] == c && NoneBefore(first, c, |first|)
    ensures var line := first + middle + rest;
      && Find(line, c) == |first| && Stretch(line, 0, |first|) == first
      && Stretch(line, |first| + |middle|, |line|) == rest
  {
    FoundAt(first + middle + rest, c, |first|);
  }

  lemma ReadBar(first: string, rest: string)
    requires NoneBefore(first, '|', |first|) && WellFormedPipeline(rest)
    ensures var line := first + "| " + rest;
      WellFormedPipeline(line) && Stages(line) == [first] + Stages(rest)
  {
    Joint(first, "| ", rest, '|');
  }

  lemma ReadSemicolon(first: string, rest: string)
    requires NoneBefore(first, ';', |first|) && WellFormedPipeline(first) && WellFormed(rest)
    ensures var line := first + ";" + rest;
      WellFormed(line) && Pipelines(line) == [Stages(first)] + Pipelines(rest)
  {
    Joint(first, ";", rest, ';');
  }

  lemma ReadOne(text: string)
    requires NoneBefore(text, ';', |text|) && WellFormedPipeline(text)
    ensures WellFormed(text) && Pipelines(text) == [Stages(text)]
  {
    FoundAt(text, ';', |text|);
  }

  lemma {:induction false} StagesOfShown(stages: seq<string>)
    requires Printable(stages)
    ensures NoneBefore(ShowPipeline(stages), ';', |ShowPipeline(stages)|)
    ensures WellFormedPipeline(ShowPipeline(stages)) && Stages(ShowPipeline(stages)) == stages
  {
    if |stages| == 1 {
      assert stages == [stages[0]];
      FoundAt(stages[0], '|', |stages[0]|);
    } else {
      StagesOfShown(stages[1..]);
      ReadBar(stages[0], ShowPipeline(stages[1..]));
      assert stages == [stages[0]] + stages[1..];
    }
  }

  /** Reading the text of a line gives back the pipelines it was put together from with
      `;`, and their commands, put together with `| `. */
  lemma {:induction false} PipelinesOfShown(pipelines: seq<seq<string>>)
    requires AllPrintable(pipelines)
    ensures WellFormed(ShowLine(pipelines)) && Pipelines(ShowLine(pipelines)) == pipelines
  {
    var first := ShowPipeline(pipelines[0]);
    StagesOfShown(pipelines[0]);
    if |pipelines| == 1 {
      assert pipelines == [pipelines[0]];
      ReadOne(first);
    } else {
      PipelinesOfShown(pipelines[1..]);
      ReadSemicolon(first, ShowLine(pipelines[1..]));
      assert pipelines == [pipelines[0]] + pipelines[1..];
    }
  }
}
