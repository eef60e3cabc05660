/** Which texts are rewritten to the same: those that become the same when the words are
    exchanged the other way round. */
module RewriterFibres {
  import opened Rewriter

  /** No match of `pat` reaches over the boundary between `a` and `b`. */
  ghost predicate Separate(a: string, b: string, pat: string) {
    forall j: nat | |a| - |pat| < j < |a| :: !MatchesAt(a + b, pat, j)
  }

  lemma MatchInLeft(a: string, b: string, pat: string, j: nat)
    requires j + |pat| <= |a|
    ensures MatchesAt(a + b, pat, j) <==> MatchesAt(a, pat, j)
  {
    assert (a + b)[j..j + |pat|] == a[j..j + |pat|];
  }

  lemma MatchInRight(a: string, b: string, pat: string, j: nat)
    ensures MatchesAt(a + b, pat, |a| + j) <==> MatchesAt(b, pat, j)
  {
    if j + |pat| <= |b| {
      assert (a + b)[|a| + j..|a| + j + |pat|] == b[j..j + |pat|];
    }
  }

  lemma FirstMatchAt(s: string, pat: string, i: nat)
    requires MatchesAt(s, pat, i) && forall j: nat | j < i :: !MatchesAt(s, pat, j)
    ensures FirstMatch(s, pat) == At(i)
  {
    FirstMatchIsFirst(s, pat, 0);
  }

  lemma FirstMatchMissing(s: string, pat: string)
    requires forall j: nat :: !MatchesAt(s, pat, j)
    ensures FirstMatch(s, pat) == Missing
  {
    FirstMatchIsFirst(s, pat, 0);
  }

  /** The first match of two texts put together. */
  lemma FirstMatchOfTwo(a: string, b: string, pat: string)
    requires pat != "" && Separate(a, b, pat)
    ensures FirstMatch(a + b, pat)
         == match FirstMatch(a, pat)
            case At(i) => At(i)
            case Missing => (match FirstMatch(b, pat) case At(i) => At(|a| + i) case Missing => Missing)
  {
    FirstMatchIsFirst(a, pat, 0);
    FirstMatchIsFirst(b, pat, 0);
    forall j: nat
      ensures MatchesAt(a + b, pat, j) ==> if j < |a| then MatchesAt(a, pat, j) else MatchesAt(b, pat, j - |a|)
    {
      if j + |pat| <= |a| {
        MatchInLeft(a, b, pat, j);
      } else if j >= |a| {
        MatchInRight(a, b, pat, j - |a|);
      }
    }
    match FirstMatch(a, pat)
    case At(i) =>
      MatchInLeft(a, b, pat, i);
      FirstMatchAt(a + b, pat, i);
    case Missing =>
      match FirstMatch(b, pat)
      case At(i) =>
        MatchInRight(a, b, pat, i);
        FirstMatchAt(a + b, pat, |a| + i);
      case Missing => FirstMatchMissing(a + b, pat);
  }

  lemma StaysSeparate(a: string, b: string, pat: string, k: nat)
    requires k <= |a| && Separate(a, b, pat)
    ensures Separate(a[k..], b, pat) && a[k..] + b == (a + b)[k..]
  {
    assert a[k..] + b == (a + b)[k..];
    forall j: nat | |a[k..]| - |pat| < j < |a[k..]|
      ensures !MatchesAt(a[k..] + b, pat, j)
    {
      assert !MatchesAt(a + b, pat, k + j);
      if k + j + |pat| <= |a + b| {
        assert (a + b)[k..][j..j + |pat|] == (a + b)[k + j..k + j + |pat|];
      }
    }
  }

  lemma ReplaceAt(s: string, pat: string, rep: string, head: string, tail: string)
    requires pat != "" && FirstMatch(s, pat) == At(|head|)
    requires |head| + |pat| <= |s| && s[..|head|] == head && s[|head| + |pat|..] == tail
    ensures Replace(s, pat, rep) == head + rep + Replace(tail, pat, rep)
  {
  }

  lemma SlicesRight(a: string, b: string, lo: nat, hi: nat)
    requires lo <= hi <= |b|
    ensures (a + b)[..|a| + lo] == a + b[..lo] && (a + b)[|a| + hi..] == b[hi..]
  {
  }

  lemma SlicesLeft(a: string, b: string, lo: nat, hi: nat)
    requires lo <= hi <= |a|
    ensures (a + b)[..lo] == a[..lo] && (a + b)[hi..] == a[hi..] + b
  {
  }

  lemma RightMatch(a: string, b: string, pat: string) returns (head: string, tail: string)
    requires pat != "" && FirstMatch(b, pat).At? && FirstMatch(a + b, pat) == At(|a| + FirstMatch(b, pat).index)
    requires FirstMatch(b, pat).index + |pat| <= |b|
    ensures FirstMatch(b, pat) == At(|head|) && |head| + |pat| <= |b|
    ensures b[..|head|] == head && b[|head| + |pat|..] == tail
    ensures FirstMatch(a + b, pat) == At(|a| + |head|)
    ensures (a + b)[..|a| + |head|] == a + head && (a + b)[|a| + (|head| + |pat|)..] == tail
  {
    var i := FirstMatch(b, pat).index;
    head, tail := b[..i], b[i + |pat|..];
    SlicesRight(a, b, i, i + |pat|);
  }

  lemma MatchOnTheRight(a: string, b: string, pat: string, rep: string)
    requires pat != "" && Separate(a, b, pat) && FirstMatch(a, pat).Missing?
    ensures Replace(a + b, pat, rep) == a + Replace(b, pat, rep)
  {
    FirstMatchOfTwo(a, b, pat);
    if FirstMatch(b, pat).At? {
      var head, tail := RightMatch(a, b, pat);
      ReplaceAt(b, pat, rep, head, tail);
      RightAt(a, b, pat, rep, head, tail);
    }
  }

  lemma RightAt(a: string, b: string, pat: string, rep: string, head: string, tail: string)
    requires pat != "" && FirstMatch(a + b, pat) == At(|a| + |head|) && |head| + |pat| <= |b|
    requires (a + b)[..|a| + |head|] == a + head && (a + b)[|a| + (|head| + |pat|)..] == tail
    ensures Replace(a + b, pat, rep) == a + (head + rep + Replace(tail, pat, rep))
  {
    ReplaceAt(a + b, pat, rep, a + head, tail);
    Associate(a, head, rep);
    Associate(a, head + rep, Replace(tail, pat, rep));
  }

  /** The texts around a match in the left one. */
  lemma AroundMatch(a: string, b: string, pat: string) returns (head: string, tail: string)
    requires pat != "" && Separate(a, b, pat) && FirstMatch(a, pat).At?
    ensures FirstMatch(a, pat) == At(|head|) && FirstMatch(a + b, pat) == At(|head|) && |head| + |pat| <= |a|
    ensures a[..|head|] == head && a[|head| + |pat|..] == tail && |tail| < |a|
    ensures (a + b)[..|head|] == head && (a + b)[|head| + |pat|..] == tail + b
    ensures Separate(tail, b, pat)
  {
    var i := FirstMatch(a, pat).index;
    head, tail := a[..i], a[i + |pat|..];
    FirstMatchOfTwo(a, b, pat);
    SlicesLeft(a, b, i, i + |pat|);
    StaysSeparate(a, b, pat, i + |pat|);
  }

  /** Such texts are rewritten apart. */
  lemma {:induction false} ReplaceOfTwo(a: string, b: string, pat: string, rep: string)
    requires pat != "" && Separate(a, b, pat)
    ensures Replace(a + b, pat, rep) == Replace(a, pat, rep) + Replace(b, pat, rep)
    decreases |a|
  {
    if FirstMatch(a, pat).At? {
      var head, tail := AroundMatch(a, b, pat);
      ReplaceOfTwo(tail, b, pat, rep);
      ReplaceAt(a, pat, rep, head, tail);
      ReplaceAt(a + b, pat, rep, head, tail + b);
      Associate(head + rep, Replace(tail, pat, rep), Replace(b, pat, rep));
    } else {
      MatchOnTheRight(a, b, pat, rep);
    }
  }

  lemma Associate(a: string, b: string, c: string)
    ensures a + (b + c) == a + b + c
  {
  }

  // ---------------------------------------------------------------- two words with nothing in common

  /** The words share no letter, and the first letter of `rep` occurs in it only once. */
  ghost predicate Unlike(pat: string, rep: string) {
    && pat != "" && rep != "" && NoLetterIn(pat, rep)
    && forall k | 0 < k < |rep| :: rep[k] != rep[0]
  }

  lemma SeparateBefore(a: string, pat: string, b: string, rep: string)
    requires Unlike(pat, rep)
    ensures Separate(a, pat + b, rep)
  {
    forall j: nat | |a| - |rep| < j < |a|
      ensures !MatchesAt(a + (pat + b), rep, j)
    {
      if MatchesAt(a + (pat + b), rep, j) {
        assert a + (pat + b) == a + pat + b;
        OverlapSharesLetter(a, pat, b, rep, j);
      }
    }
  }

  lemma SeparateAfter(pat: string, b: string, rep: string)
    requires Unlike(pat, rep)
    ensures Separate(pat, b, rep)
  {
    forall j: nat | |pat| - |rep| < j < |pat|
      ensures !MatchesAt(pat + b, rep, j)
    {
      if MatchesAt(pat + b, rep, j) {
        assert pat + b == "" + pat + b;
        OverlapSharesLetter("", pat, b, rep, j);
      }
    }
  }

  /** A copy of `rep` is not part of a match that begins before it. */
  lemma SeparateFromCopy(a: string, b: string, pat: string, rep: string)
    requires Unlike(pat, rep)
    ensures Separate(a, rep + b, rep)
  {
    var s := a + (rep + b);
    assert s[|a|] == rep[0];
    forall j: nat | |a| - |rep| < j < |a|
      ensures !MatchesAt(s, rep, j)
    {
      assert j + |rep| <= |s| ==> s[j..j + |rep|][|a| - j] == s[|a|];
    }
  }

  lemma CopyIsReplaced(b: string, pat: string, rep: string)
    requires rep != ""
    ensures Replace(rep + b, rep, pat) == pat + Replace(b, rep, pat)
  {
    assert (rep + b)[0..|rep|] == rep;
    FirstMatchAt(rep + b, rep, 0);
    assert (rep + b)[|rep|..] == b && (rep + b)[..0] == "";
  }

  lemma OtherWordStays(b: string, pat: string, rep: string)
    requires Unlike(pat, rep)
    ensures Replace(pat + b, rep, pat) == pat + Replace(b, rep, pat)
  {
    SeparateAfter(pat, b, rep);
    ReplaceOfTwo(pat, b, rep, pat);
    forall j: nat
      ensures !MatchesAt(pat, rep, j)
    {
      if MatchesAt(pat, rep, j) {
        assert pat == "" + pat + "";
        OverlapSharesLetter("", pat, "", rep, j);
      }
    }
    ReplaceNothing(pat, rep, pat);
  }

  lemma BackAtCopy(before: string, done: string, pat: string, rep: string)
    requires Unlike(pat, rep)
    ensures Replace(before + rep + done, rep, pat) == Replace(before, rep, pat) + pat + Replace(done, rep, pat)
  {
    SeparateFromCopy(before, done, pat, rep);
    ReplaceOfTwo(before, rep + done, rep, pat);
    CopyIsReplaced(done, pat, rep);
    Associate(before, rep, done);
    Associate(Replace(before, rep, pat), pat, Replace(done, rep, pat));
  }

  lemma BackAtOther(before: string, rest: string, pat: string, rep: string)
    requires Unlike(pat, rep)
    ensures Replace(before + pat + rest, rep, pat) == Replace(before, rep, pat) + pat + Replace(rest, rep, pat)
  {
    SeparateBefore(before, pat, rest, rep);
    ReplaceOfTwo(before, pat + rest, rep, pat);
    OtherWordStays(rest, pat, rep);
    Associate(before, pat, rest);
    Associate(Replace(before, rep, pat), pat, Replace(rest, rep, pat));
  }

  /** The texts around the first match, which is exchanged. */
  lemma AroundFirst(s: string, pat: string, rep: string) returns (before: string, rest: string)
    requires pat != "" && FirstMatch(s, pat).At?
    ensures s == before + pat + rest && |rest| < |s|
    ensures Replace(s, pat, rep) == before + rep + Replace(rest, pat, rep)
  {
    var i := FirstMatch(s, pat).index;
    FirstMatchIsFirst(s, pat, 0);
    before, rest := s[..i], s[i + |pat|..];
  }

  /** Whether `pat` was exchanged for `rep` before or not, exchanging `rep` for `pat`
      gives the same. */
  lemma {:induction false} BackIsBack(s: string, pat: string, rep: string)
    requires Unlike(pat, rep)
    ensures Replace(Replace(s, pat, rep), rep, pat) == Replace(s, rep, pat)
    decreases |s|
  {
    if FirstMatch(s, pat).At? {
      var before, rest := AroundFirst(s, pat, rep);
      BackIsBack(rest, pat, rep);
      BackAtOther(before, rest, pat, rep);
      BackAtCopy(before, Replace(rest, pat, rep), pat, rep);
    }
  }

  lemma WordsAreUnlike()
    ensures Unlike(PATTERN, REPLACEMENT) && Unlike(REPLACEMENT, PATTERN)
  {
  }

  /** Two texts have the same output exactly if the opposite exchange makes them the same:
      they differ only in which of the two words stands where either may. */
  lemma SameOutputExactlyWhen(s: string, t: string)
    ensures Rewrite(s) == Rewrite(t) <==> Restore(s) == Restore(t)
  {
    WordsAreUnlike();
    BackIsBack(s, PATTERN, REPLACEMENT);
    BackIsBack(t, PATTERN, REPLACEMENT);
    BackIsBack(s, REPLACEMENT, PATTERN);
    BackIsBack(t, REPLACEMENT, PATTERN);
  }
}
