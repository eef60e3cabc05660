/** Replacing every "evolution" by "GOD": what the replacement is, that nothing it
    replaces is left, and that it can be undone. */
module Rewriter {

  const PATTERN := "evolution"
  const REPLACEMENT := "GOD"

  /** `pat` stands in `s` at position `i`. */
  predicate MatchesAt(s: string, pat: string, i: nat) {
    i + |pat| <= |s| && s[i..i + |pat|] == pat
  }

  ghost predicate Contains(s: string, pat: string) {
    exists i: nat :: MatchesAt(s, pat, i)
  }

  datatype Found = Missing | At(index: nat)

  /** The first match at or after `from`: what strstr finds. */
  function FirstMatchFrom(s: string, pat: string, from: nat): (r: Found)
    ensures r.At? ==> from <= r.index && r.index + |pat| <= |s|
    decreases |s| - from
  {
    if MatchesAt(s, pat, from) then At(from)
    else if from >= |s| then Missing
    else FirstMatchFrom(s, pat, from + 1)
  }

  /** It is a match, and there is none before it, or none at all. */
  lemma {:induction false} FirstMatchIsFirst(s: string, pat: string, from: nat)
    ensures var r := FirstMatchFrom(s, pat, from);
      && (r.At? ==> MatchesAt(s, pat, r.index) && forall j: nat | from <= j < r.index :: !MatchesAt(s, pat, j))
      && (r.Missing? ==> forall j: nat | from <= j :: !MatchesAt(s, pat, j))
    decreases |s| - from
  {
    if !MatchesAt(s, pat, from) && from < |s| {
      FirstMatchIsFirst(s, pat, from + 1);
    }
  }

  function FirstMatch(s: string, pat: string): Found {
    FirstMatchFrom(s, pat, 0)
  }

  /** Leftmost, non-overlapping replacement. */
  function Replace(s: string, pat: string, rep: string): string
    requires pat != ""
    decreases |s|
  {
    match FirstMatch(s, pat)
    case Missing => s
    case At(i) => s[..i] + rep + Replace(s[i + |pat|..], pat, rep)
  }

  /** How many times. */
  function Replacements(s: string, pat: string): nat
    requires pat != ""
    decreases |s|
  {
    match FirstMatch(s, pat)
    case Missing => 0
    case At(i) => 1 + Replacements(s[i + |pat|..], pat)
  }

  function Rewrite(s: string): string {
    Replace(s, PATTERN, REPLACEMENT)
  }

  /** The same with the two words exchanged. */
  function Restore(s: string): string {
    Replace(s, REPLACEMENT, PATTERN)
  }

  /** Each replacement shortens the text by six characters. */
  lemma {:induction false} RewriteLength(s: string)
    ensures |Rewrite(s)| == |s| - 6 * Replacements(s, PATTERN)
    decreases |s|
  {
    match FirstMatch(s, PATTERN)
    case Missing =>
    case At(i) => RewriteLength(s[i + 9..]);
  }

  // ---------------------------------------------------------------- nothing is left to replace

  ghost predicate NoLetterIn(rep: string, pat: string) {
    forall c | c in rep :: c !in pat
  }

  /** A match that reaches into `rep` shares a letter with it. */
  lemma OverlapSharesLetter(before: string, rep: string, after: string, pat: string, i: nat)
    requires rep != "" && pat != ""
    requires MatchesAt(before + rep + after, pat, i)
    requires |before| - |pat| < i < |before| + |rep|
    ensures !NoLetterIn(rep, pat)
  {
    var s := before + rep + after;
    var m := if i < |before| then |before| else i;
    assert rep[m - |before|] in rep;
    assert s[m] == s[i..i + |pat|][m - i] == pat[m - i];
  }

  /** So if they share none, a match lies in what comes before, or in what comes after. */
  lemma MatchAvoids(before: string, rep: string, after: string, pat: string, i: nat)
    requires NoLetterIn(rep, pat) && rep != "" && pat != ""
    requires MatchesAt(before + rep + after, pat, i)
    ensures || MatchesAt(before, pat, i)
            || (i >= |before| + |rep| && MatchesAt(after, pat, i - |before| - |rep|))
  {
    var s := before + rep + after;
    if |before| - |pat| < i < |before| + |rep| {
      OverlapSharesLetter(before, rep, after, pat, i);
    } else if i + |pat| <= |before| {
      assert s[i..i + |pat|] == before[i..i + |pat|];
    } else {
      var k := i - |before| - |rep|;
      assert s[i..i + |pat|] == after[k..k + |pat|];
    }
  }

  lemma MatchInPrefix(s: string, i: nat, pat: string, j: nat)
    requires i <= |s| && MatchesAt(s[..i], pat, j)
    ensures MatchesAt(s, pat, j)
  {
    assert s[j..j + |pat|] == s[..i][j..j + |pat|];
  }

  lemma PrefixHasNone(s: string, pat: string, i: nat)
    requires pat != "" && FirstMatch(s, pat) == At(i) && i <= |s|
    ensures !Contains(s[..i], pat)
  {
    FirstMatchIsFirst(s, pat, 0);
    forall j: nat
      ensures !MatchesAt(s[..i], pat, j)
    {
      if MatchesAt(s[..i], pat, j) {
        MatchInPrefix(s, i, pat, j);
      }
    }
  }

  lemma JoinedHasNone(before: string, rep: string, after: string, pat: string)
    requires pat != "" && rep != "" && NoLetterIn(rep, pat) && !Contains(before, pat) && !Contains(after, pat)
    ensures !Contains(before + rep + after, pat)
  {
    forall j: nat
      ensures !MatchesAt(before + rep + after, pat, j)
    {
      if MatchesAt(before + rep + after, pat, j) {
        MatchAvoids(before, rep, after, pat, j);
      }
    }
  }

  lemma {:induction false} ReplaceLeavesNone(s: string, pat: string, rep: string)
    requires pat != "" && rep != "" && NoLetterIn(rep, pat)
    ensures !Contains(Replace(s, pat, rep), pat)
    decreases |s|
  {
    FirstMatchIsFirst(s, pat, 0);
    match FirstMatch(s, pat)
    case Missing =>
    case At(i) =>
      PrefixHasNone(s, pat, i);
      ReplaceLeavesNone(s[i + |pat|..], pat, rep);
      JoinedHasNone(s[..i], rep, Replace(s[i + |pat|..], pat, rep), pat);
  }

  lemma ReplaceNothing(s: string, pat: string, rep: string)
    requires pat != "" && !Contains(s, pat)
    ensures Replace(s, pat, rep) == s
  {
    FirstMatchIsFirst(s, pat, 0);
  }

  /** The rewritten text nowhere contains "evolution", not even across the places
      where segments were joined. */
  lemma RewriteLeavesNone(s: string)
    ensures !Contains(Rewrite(s), PATTERN)
  {
    ReplaceLeavesNone(s, PATTERN, REPLACEMENT);
  }

  /** So rewriting twice is rewriting once. */
  lemma RewriteIdempotent(s: string)
    ensures Rewrite(Rewrite(s)) == Rewrite(s)
  {
    RewriteLeavesNone(s);
    ReplaceNothing(Rewrite(s), PATTERN, REPLACEMENT);
  }

  // ---------------------------------------------------------------- undoing it

  /** In front of an inserted copy no other copy begins: "GOD" does not overlap itself. */
  lemma InsertedCopyIsFirst(before: string, after: string)
    requires !Contains(before, REPLACEMENT)
    ensures FirstMatch(before + REPLACEMENT + after, REPLACEMENT) == At(|before|)
  {
    var s := before + REPLACEMENT + after;
    FirstMatchIsFirst(s, REPLACEMENT, 0);
    assert s[|before|..|before| + 3] == REPLACEMENT;
    assert MatchesAt(s, REPLACEMENT, |before|);
    forall j: nat | j < |before|
      ensures !MatchesAt(s, REPLACEMENT, j)
    {
      if j + 3 <= |before| {
        assert s[j..j + 3] == before[j..j + 3];
        assert !MatchesAt(before, REPLACEMENT, j);
      } else {
        assert s[|before|] == 'G' && |before| - j in {1, 2};
        assert s[j..j + 3][|before| - j] == 'G';
      }
    }
  }

  lemma ContainsLonger(s: string, lo: nat, hi: nat, pat: string)
    requires lo <= hi <= |s| && Contains(s[lo..hi], pat)
    ensures Contains(s, pat)
  {
    var i: nat :| MatchesAt(s[lo..hi], pat, i);
    forall k | 0 <= k < |pat|
      ensures s[lo + i..lo + i + |pat|][k] == pat[k]
    {
      assert pat[k] == s[lo..hi][i..i + |pat|][k] == s[lo + i + k];
    }
    assert MatchesAt(s, pat, lo + i);
  }

  lemma RestoreAtCopy(before: string, after: string)
    requires !Contains(before, REPLACEMENT)
    ensures Restore(before + REPLACEMENT + after) == before + PATTERN + Restore(after)
  {
    var t, i := before + REPLACEMENT + after, |before|;
    InsertedCopyIsFirst(before, after);
    assert t[..i] == before && t[i + 3..] == after;
  }

  /** The texts around the first match have no copy either. */
  lemma AroundHasNone(s: string, i: nat)
    requires !Contains(s, REPLACEMENT) && i + 9 <= |s|
    ensures !Contains(s[..i], REPLACEMENT) && !Contains(s[i + 9..], REPLACEMENT)
  {
    if Contains(s[..i], REPLACEMENT) {
      assert s[..i] == s[0..i];
      ContainsLonger(s, 0, i, REPLACEMENT);
    }
    if Contains(s[i + 9..], REPLACEMENT) {
      assert s[i + 9..] == s[i + 9..|s|];
      ContainsLonger(s, i + 9, |s|, REPLACEMENT);
    }
  }

  lemma RewriteAt(s: string, i: nat)
    requires FirstMatch(s, PATTERN) == At(i)
    ensures i + 9 <= |s| && s == s[..i] + PATTERN + s[i + 9..]
    ensures Rewrite(s) == s[..i] + REPLACEMENT + Rewrite(s[i + 9..])
  {
    FirstMatchIsFirst(s, PATTERN, 0);
  }

  lemma NothingToUndo(s: string)
    requires FirstMatch(s, PATTERN).Missing? && !Contains(s, REPLACEMENT)
    ensures Restore(Rewrite(s)) == s
  {
    assert Rewrite(s) == s;
    ReplaceNothing(s, REPLACEMENT, PATTERN);
  }

  lemma {:induction false} RestoreUndoes(s: string)
    requires !Contains(s, REPLACEMENT)
    ensures Restore(Rewrite(s)) == s
    decreases |s|
  {
    if FirstMatch(s, PATTERN).Missing? {
      NothingToUndo(s);
    } else {
      var i := FirstMatch(s, PATTERN).index;
      RewriteAt(s, i);
      AroundHasNone(s, i);
      RestoreUndoes(s[i + 9..]);
      RestoreAtCopy(s[..i], Rewrite(s[i + 9..]));
    }
  }

  /** Restoring gives back exactly the texts without "GOD". */
  lemma RoundTrip(s: string)
    ensures Restore(Rewrite(s)) == s <==> !Contains(s, REPLACEMENT)
  {
    if !Contains(s, REPLACEMENT) {
      RestoreUndoes(s);
    }
    ReplaceLeavesNone(Rewrite(s), REPLACEMENT, PATTERN);
  }

  /** Texts without "GOD" that are rewritten to the same text are the same. */
  lemma RewriteInjective(s: string, t: string)
    requires !Contains(s, REPLACEMENT) && !Contains(t, REPLACEMENT)
    requires Rewrite(s) == Rewrite(t)
    ensures s == t
  {
    RestoreUndoes(s);
    RestoreUndoes(t);
  }

  /** With "GOD" in the input two texts can be rewritten to the same one. */
  lemma RewriteNotInjective()
    ensures Rewrite("GOD") == Rewrite("evolution")
  {
    InsertedCopyIsFirst("", "");
    RewriteLeavesNone("evolution");
    assert MatchesAt("evolution", PATTERN, 0);
    assert FirstMatch("evolution", PATTERN) == At(0);
    assert !Contains("GOD", PATTERN);
    ReplaceNothing("GOD", PATTERN, REPLACEMENT);
    assert "evolution"[9..] == "" && Rewrite("") == "";
  }

  // ---------------------------------------------------------------- the loop over C strings

  /** The text of a C string that starts at `from`: what stands before the next NUL. */
  function TextFrom(s: string, from: nat): string
    requires from <= |s|
    decreases |s| - from
  {
    if from == |s| || s[from] == '\0' then "" else [s[from]] + TextFrom(s, from + 1)
  }

  predicate Terminated(s: string) {
    '\0' in s
  }

  lemma {:induction false} TextFromIs(s: string, from: nat, end: nat)
    requires from <= end < |s| && s[end] == '\0' && '\0' !in s[from..end]
    ensures TextFrom(s, from) == s[from..end]
    decreases end - from
  {
    if from < end {
      assert s[from] == s[from..end][0];
      assert s[from + 1..end] == s[from..end][1..];
      TextFromIs(s, from + 1, end);
    }
  }

  lemma {:induction false} TextLength(s: string, from: nat)
    requires from <= |s|
    ensures |TextFrom(s, from)| <= |s| - from && TextFrom(s, from) == s[from..from + |TextFrom(s, from)|]
    ensures '\0' !in TextFrom(s, from)
    ensures '\0' in s[from..] ==> |TextFrom(s, from)| < |s| - from && s[from + |TextFrom(s, from)|] == '\0'
    decreases |s| - from
  {
    if from < |s| && s[from] != '\0' {
      TextLength(s, from + 1);
      assert s[from..] == [s[from]] + s[from + 1..];
    }
  }

  /** The size of the buffer the text is rewritten into. */
  const BUFFER: nat := 1024

  datatype Outcome = Written(count: int) | OutOfBounds

  /** memcpy: what is copied stands at `at`, the rest is untouched. */
  method Memcpy(dst: array<char>, at: nat, src: string)
    requires at + |src| <= dst.Length
    modifies dst
    ensures dst[..at + |src|] == old(dst[..at]) + src
    ensures dst[at + |src|..] == old(dst[at + |src|..])
  {
    forall k | 0 <= k < |src| {
      dst[at + k] := src[k];
    }
  }

  /** The memory a C string occupies, after its text has been rewritten in place. */
  function Overwritten(s: string): string {
    var out := Rewrite(TextFrom(s, 0));
    if |out| < |s| then out + ['\0'] + s[|out| + 1..] else s
  }

  /** The rewritten text fits where the text was, and is what stands there now. */
  lemma OverwrittenText(s: string)
    requires Terminated(s)
    ensures |Rewrite(TextFrom(s, 0))| <= |TextFrom(s, 0)| < |s|
    ensures |Overwritten(s)| == |s|
    ensures Overwritten(s)[..|Rewrite(TextFrom(s, 0))|] == Rewrite(TextFrom(s, 0))
    ensures '\0' !in Rewrite(TextFrom(s, 0)) ==> TextFrom(Overwritten(s), 0) == Rewrite(TextFrom(s, 0))
  {
    var out := Rewrite(TextFrom(s, 0));
    assert s[0..] == s;
    TextLength(s, 0);
    RewriteLength(TextFrom(s, 0));
    assert Overwritten(s)[0..|out|] == out;
    if '\0' !in out {
      TextFromIs(Overwritten(s), 0, |out|);
    }
  }

  /** Rewriting brings in no NUL. */
  lemma {:induction false} RewriteKeepsNulFree(s: string)
    requires '\0' !in s
    ensures '\0' !in Rewrite(s)
    decreases |s|
  {
    match FirstMatch(s, PATTERN)
    case Missing =>
    case At(i) => RewriteKeepsNulFree(s[i + 9..]);
  }

  /** One pass of the loop: what it copies, and what it leaves to do. */
  lemma OnePass(rest: string, pat: string, rep: string)
    requires pat != "" && FirstMatch(rest, pat).At?
    ensures var gap := FirstMatch(rest, pat).index;
      && gap + |pat| <= |rest|
      && Replace(rest, pat, rep) == rest[..gap] + rep + Replace(rest[gap + |pat|..], pat, rep)
      && Replacements(rest, pat) == 1 + Replacements(rest[gap + |pat|..], pat)
  {
  }

  /** The loop has turned the text into `done`, up to `rest`, and `passes`
      replacements are still to come. */
  ghost predicate Progress(text: string, pat: string, rep: string, done: string, rest: string, passes: nat)
    requires pat != ""
  {
    && Replace(text, pat, rep) == done + Replace(rest, pat, rep)
    && passes == Replacements(rest, pat)
  }

  lemma ProgressOnePass(text: string, pat: string, rep: string, done: string, rest: string, passes: nat)
    requires pat != "" && Progress(text, pat, rep, done, rest, passes) && FirstMatch(rest, pat).At?
    ensures var gap := FirstMatch(rest, pat).index;
      && passes > 0
      && Progress(text, pat, rep, done + rest[..gap] + rep, rest[gap + |pat|..], passes - 1)
  {
    OnePass(rest, pat, rep);
  }

  lemma ProgressAtLast(text: string, pat: string, rep: string, done: string, rest: string, passes: nat)
    requires pat != "" && Progress(text, pat, rep, done, rest, passes) && FirstMatch(rest, pat).Missing?
    ensures Replace(text, pat, rep) == done + rest && passes == 0
  {
  }

  /** Copies the text up to a match and then the replacement, and moves on. */
  method CopyPass(buffer: array<char>, insert: nat, segment: string) returns (next: nat)
    requires insert + |segment| + |REPLACEMENT| <= buffer.Length
    modifies buffer
    ensures next == insert + |segment| + |REPLACEMENT|
    ensures buffer[..next] == old(buffer[..insert]) + segment + REPLACEMENT
  {
    Memcpy(buffer, insert, segment);
    Memcpy(buffer, insert + |segment|, REPLACEMENT);
    next := insert + |segment| + |REPLACEMENT|;
  }

  /** The two strcpy calls at the end: the rest of the text, then all of it back. */
  method CopyBack(buffer: array<char>, insert: nat, rest: string, buf: array<char>)
    requires buffer != buf && insert + |rest| < buffer.Length && insert + |rest| < buf.Length
    modifies buffer, buf
    ensures buf[..] == old(buffer[..insert]) + rest + ['\0'] + old(buf[insert + |rest| + 1..])
  {
    Memcpy(buffer, insert, rest + ['\0']);
    var end := insert + |rest| + 1;
    Memcpy(buf, 0, buffer[..end]);
    assert buf[..] == buf[..end] + buf[end..];
  }

  /** The replacement loop: turns `text` into `buffer[..insert]`, up to `rest`, which
      holds no match. It stops short when a copy would pass the end of the buffer. */
  method ReplaceAll(text: string, buffer: array<char>, count: int)
    returns (fits: bool, insert: nat, rest: string, left: int)
    modifies buffer
    ensures !fits ==> |Rewrite(text)| > buffer.Length
    ensures fits ==> insert <= buffer.Length && Rewrite(text) == buffer[..insert] + rest
    ensures fits ==> left == count - 6 * Replacements(text, PATTERN)
  {
    fits, insert, rest, left := true, 0, text, count;
    var ret := 0;
    ghost var passes := Replacements(text, PATTERN);
    while FirstMatch(rest, PATTERN).At?
      invariant 0 <= insert <= ret && insert <= buffer.Length && ret + |rest| == |text|
      invariant Progress(text, PATTERN, REPLACEMENT, buffer[..insert], rest, passes)
      invariant left == count - 6 * (Replacements(text, PATTERN) - passes)
      decreases |rest|
    {
      var gap := FirstMatch(rest, PATTERN).index;
      ProgressOnePass(text, PATTERN, REPLACEMENT, buffer[..insert], rest, passes);
      passes := passes - 1;
      if insert + gap + |REPLACEMENT| > buffer.Length {
        fits := false;
        return;
      }
      insert := CopyPass(buffer, insert, rest[..gap]);
      ret, rest := ret + gap + |PATTERN|, rest[gap + |PATTERN|..];
      left := left - 6;
    }
    ProgressAtLast(text, PATTERN, REPLACEMENT, buffer[..insert], rest, passes);
  }

  /** Rewrites the C string in `buf`. `count` is the number of bytes the caller means
      to write; the result is the number passed on to `write`. `OutOfBounds` stands
      for a copy past the end of the local buffer, where the C program's behaviour
      is undefined; it happens exactly when the rewritten text does not fit. */
  method SafeWrite(buf: array<char>, count: int) returns (r: Outcome)
    requires Terminated(buf[..])
    modifies buf
    ensures r.OutOfBounds? <==> |Rewrite(TextFrom(old(buf[..]), 0))| >= BUFFER
    ensures r.OutOfBounds? ==> buf[..] == old(buf[..])
    ensures r.Written? ==> buf[..] == Overwritten(old(buf[..]))
    ensures r.Written? ==> r.count == count - 6 * Replacements(TextFrom(old(buf[..]), 0), PATTERN)
  {
    ghost var was := buf[..];
    var text := TextFrom(buf[..], 0);
    var buffer := new char[BUFFER](_ => '\0');
    var fits, insert, rest, left := ReplaceAll(text, buffer, count);
    if !fits || insert + |rest| >= BUFFER {
      return OutOfBounds;
    }
    OverwrittenText(was);
    CopyBack(buffer, insert, rest, buf);
    return Written(left);
  }

  /** What the caller gets out of it, for a text of `n` characters announced as such:
      unless it is too long when rewritten, the bytes written are exactly the
      rewritten text, free of the pattern. */
  lemma WrittenBytes(s: string)
    requires Terminated(s)
    ensures var text := TextFrom(s, 0); var n := |text| - 6 * Replacements(text, PATTERN);
      && 0 <= n <= |Overwritten(s)| && Overwritten(s)[..n] == Rewrite(text)
      && !Contains(Overwritten(s)[..n], PATTERN)
      && TextFrom(Overwritten(s), 0) == Rewrite(text)
  {
    var text := TextFrom(s, 0);
    OverwrittenText(s);
    assert s[0..] == s;
    TextLength(s, 0);
    RewriteKeepsNulFree(text);
    RewriteLength(text);
    RewriteLeavesNone(text);
  }

  /** A text shorter than the buffer never overflows it. */
  lemma ShortTextFits(s: string)
    requires |TextFrom(s, 0)| < BUFFER
    ensures |Rewrite(TextFrom(s, 0))| < BUFFER
  {
    RewriteLength(TextFrom(s, 0));
  }
}
