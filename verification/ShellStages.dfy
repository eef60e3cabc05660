/** From a printed line to what its programs find: each stage of a pipeline with its
    words, its redirections and its ends of the pipes. */
module ShellStages {
  import opened Descriptors
  import opened Shell
  import opened ShellText
  import opened ShellBuffer
  import opened ShellLines
  import opened Redirects

  /** Words that are read back and that the runner does not split. */
  predicate Plain(words: seq<string>) {
    forall k | 0 <= k < |words| ::
      && words[k] != "" && NoneBefore(words[k], ' ', |words[k]|)
      && NoneBefore(words[k], ';', |words[k]|) && NoneBefore(words[k], '|', |words[k]|)
  }

  predicate AllPlain(stages: seq<seq<string>>) {
    stages != [] && forall k | 0 <= k < |stages| :: Plain(stages[k])
  }

  lemma {:induction false} PlainShown(words: seq<string>)
    requires Plain(words)
    ensures NoneBefore(ShowWords(words), ';', |ShowWords(words)|)
    ensures NoneBefore(ShowWords(words), '|', |ShowWords(words)|)
  {
    if |words| > 1 {
      PlainShown(words[1..]);
    }
  }

  /** The texts of a pipeline's stages. */
  function Texts(stages: seq<seq<string>>): (texts: seq<string>)
    requires AllPlain(stages)
    ensures Printable(texts) && |texts| == |stages|
    ensures forall k | 0 <= k < |stages| :: texts[k] == ShowWords(stages[k])
  {
    var texts := seq(|stages|, k requires 0 <= k < |stages| => ShowWords(stages[k]));
    assert Printable(texts) by {
      forall k | 0 <= k < |stages|
        ensures NoneBefore(texts[k], ';', |texts[k]|) && NoneBefore(texts[k], '|', |texts[k]|)
      {
        PlainShown(stages[k]);
      }
    }
    texts
  }

  /** `t` is the table of the child in which the launch happens. */
  predicate RunsIn(launch: Launch, t: Table) {
    Lookup(t, 0) == launch.input && Lookup(t, 1) == launch.output && Lookup(t, 2) == launch.error
  }

  /** Descriptor `d` of stage `k` of `n`, before its redirections: an end of a pipe, or what
      the shell has. */
  function EndOf(s: Process, n: nat, k: nat, d: nat): Slot
    requires d < 3 <= |s.table|
  {
    if d == 0 && k > 0 then Open(ReadEnd(s.pipes + k - 1))
    else if d == 1 && k + 1 < n then Open(WriteEnd(s.pipes + k))
    else s.table[d]
  }

  /** The child's table once the redirection loop is done with the words of its command. */
  predicate Finds(words: seq<string>, openable: set<string>, u: Table, input: Slot, output: Slot, error: Slot) {
    && Lookup(u, 0) == RedirectedSlot(input, words, openable, "<", |words|)
    && Lookup(u, 1) == RedirectedSlot(output, words, openable, ">", |words|)
    && Lookup(u, 2) == RedirectedSlot(error, words, openable, "2>", |words|)
  }

  lemma ChildFinds(launch: Launch, words: seq<string>, openable: set<string>, t: Table, u: Table)
    requires RunsIn(launch, t) && IsRedirected(t, words, openable, |words|, u)
    ensures Finds(words, openable, u, launch.input, launch.output, launch.error)
  {
  }

  /** The launch of stage `k`. */
  predicate LaunchOf(s: Process, stages: seq<seq<string>>, k: nat, launch: Launch)
    requires 3 <= |s.table| && k < |stages|
  {
    && Words(launch.command) == stages[k]
    && launch.input == EndOf(s, |stages|, k, 0)
    && launch.output == EndOf(s, |stages|, k, 1)
    && launch.error == EndOf(s, |stages|, k, 2)
  }

  lemma StageLaunch(s: Process, buffer: string, stages: seq<seq<string>>, k: nat)
    requires Terminated(buffer) && Standard(s.table) && AllPlain(stages) && k < |stages|
    requires Text(buffer, 0) == ShowPipeline(Texts(stages))
    ensures var trace := RunBuffer(s, buffer, 0).0.trace;
      |trace| == |s.trace| + |stages| && LaunchOf(s, stages, k, trace[|s.trace| + k])
  {
    var texts, t := Texts(stages), s.table;
    PipelineRuns(s, buffer, texts);
    PipelineWiring(texts, t[0], t[1], t[2], s.pipes, k);
    WordsOfShown(stages[k]);
  }

  lemma LaunchFinds(s: Process, stages: seq<seq<string>>, openable: set<string>, k: nat, launch: Launch, t: Table,
                    u: Table)
    requires 3 <= |s.table| && k < |stages| && LaunchOf(s, stages, k, launch)
    requires RunsIn(launch, t) && IsRedirected(t, stages[k], openable, |stages[k]|, u)
    ensures Finds(stages[k], openable, u,
                  EndOf(s, |stages|, k, 0), EndOf(s, |stages|, k, 1), EndOf(s, |stages|, k, 2))
  {
    ChildFinds(launch, stages[k], openable, t, u);
  }

  /** Stage `k` of a pipeline of words, if it has a program and fits its places: the table
      that the child hands to its program, whatever else is open there, has for each of
      descriptors 0, 1 and 2 the file of the last operator for it that could be opened,
      or else the stage's end of the pipe, or else what the shell has. */
  lemma StageFinds(s: Process, buffer: string, stages: seq<seq<string>>, openable: set<string>, k: nat)
    requires Terminated(buffer) && Standard(s.table) && AllPlain(stages)
    requires k < |stages| && 0 < |stages[k]| < PLACES
    requires Text(buffer, 0) == ShowPipeline(Texts(stages))
    ensures var trace := RunBuffer(s, buffer, 0).0.trace;
      && |trace| == |s.trace| + |stages|
      && var launch := trace[|s.trace| + k];
         && Words(launch.command) == stages[k]
         && forall t: Table, u: Table | RunsIn(launch, t) && IsRedirected(t, stages[k], openable, |stages[k]|, u) ::
              Finds(stages[k], openable, u,
                    EndOf(s, |stages|, k, 0), EndOf(s, |stages|, k, 1), EndOf(s, |stages|, k, 2))
  {
    StageLaunch(s, buffer, stages, k);
    var launch := RunBuffer(s, buffer, 0).0.trace[|s.trace| + k];
    forall t: Table, u: Table | RunsIn(launch, t) && IsRedirected(t, stages[k], openable, |stages[k]|, u)
      ensures Finds(stages[k], openable, u,
                    EndOf(s, |stages|, k, 0), EndOf(s, |stages|, k, 1), EndOf(s, |stages|, k, 2))
    {
      LaunchFinds(s, stages, openable, k, launch, t, u);
    }
  }

  lemma PipelineRuns(s: Process, buffer: string, texts: seq<string>)
    requires Terminated(buffer) && Standard(s.table) && Printable(texts) && Text(buffer, 0) == ShowPipeline(texts)
    ensures RunBuffer(s, buffer, 0).0.trace
         == s.trace + Launches(PipelineOf(texts), s.table[0], s.table[1], s.table[2], s.pipes)
  {
    assert ShowLine([texts]) == ShowPipeline(texts);
    PipelinesOfShown([texts]);
    RunsTheText(s, buffer, 0);
    assert ProgramOf([texts]) == PipelineOf(texts);
    Wiring(s, PipelineOf(texts));
  }
}
