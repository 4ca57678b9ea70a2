/**
 * Word counting as the orchestrator does it: split the text on runs of white
 * space (`text.split(/\s+/)`) and keep the non-empty fields
 * (`.filter(word => word.length > 0)`).
 */
module Words {
  import opened Text
  import opened Sequences

  predicate HasSpace(s: string) {
    exists i | 0 <= i < |s| :: IsSpace(s[i])
  }

  /** The fields joined back together, with nothing in between. */
  function Concat(fields: seq<string>): string
    decreases |fields|
  {
    if fields == [] then [] else fields[0] + Concat(fields[1..])
  }

  /** `s` with every white-space character removed. */
  function DropSpaces(s: string): string
    decreases |s|
  {
    if s == [] then [] else (if IsSpace(s[0]) then [] else [s[0]]) + DropSpaces(s[1..])
  }

  /** Position `i` holds the last character of a maximal run of white space. */
  predicate IsRunEnd(s: string, i: int)
    requires 0 <= i < |s|
  {
    IsSpace(s[i]) && (i + 1 == |s| || !IsSpace(s[i + 1]))
  }

  /** The number of maximal runs of white space in `s`, counted by their last positions. */
  function SpaceRuns(s: string): nat
    decreases |s|
  {
    if s == [] then 0
    else (if IsRunEnd(s, 0) then 1 else 0) + SpaceRuns(s[1..])
  }

  /** A leading run of white space counts as one run. */
  lemma {:induction false} SkipSpaceRun(s: string)
    requires s != [] && IsSpace(s[0])
    ensures SpaceRuns(s) == 1 + SpaceRuns(TrimStart(s))
    decreases |s|
  {
    var tail := s[1..];
    assert TrimStart(s) == TrimStart(tail);
    if tail == [] {
      assert IsRunEnd(s, 0);
    } else if IsSpace(tail[0]) {
      assert !IsRunEnd(s, 0);
      SkipSpaceRun(tail);
    } else {
      assert IsRunEnd(s, 0);
      assert TrimStart(tail) == tail;
    }
  }

  /** A leading run of white space contributes no character to the joined fields. */
  lemma {:induction false} SkipSpaceDrop(s: string)
    requires s != [] && IsSpace(s[0])
    ensures DropSpaces(s) == DropSpaces(TrimStart(s))
    decreases |s|
  {
    var tail := s[1..];
    assert TrimStart(s) == TrimStart(tail);
    assert DropSpaces(s) == DropSpaces(tail);
    if tail != [] && IsSpace(tail[0]) {
      SkipSpaceDrop(tail);
    }
  }

  lemma ConcatEmptyFirst(fields: seq<string>)
    ensures Concat([""] + fields) == Concat(fields)
  {
    assert ([""] + fields)[1..] == fields;
  }

  /** Gluing a character onto the first field puts it in front of the joined fields. */
  lemma ConcatGlue(c: char, fields: seq<string>)
    requires fields != []
    ensures Concat([[c] + fields[0]] + fields[1..]) == [c] + Concat(fields)
  {
    var glued := [[c] + fields[0]] + fields[1..];
    var tail := Concat(fields[1..]);
    assert glued[0] == [c] + fields[0] && glued[1..] == fields[1..];
    assert Concat(glued) == ([c] + fields[0]) + tail;
    assert Concat(fields) == fields[0] + tail;
    AppendAssociative([c], fields[0], tail);
  }

  /** Every character of `w` is white space. */
  predicate AllSpace(w: string) {
    forall i | 0 <= i < |w| :: IsSpace(w[i])
  }

  /** The maximal runs of white space in `s`, in order. */
  function SpaceRunsOf(s: string): (runs: seq<string>)
    ensures |runs| == SpaceRuns(s)
    ensures forall k | 0 <= k < |runs| :: runs[k] != [] && AllSpace(runs[k])
    decreases |s|
  {
    if s == [] then []
    else if IsSpace(s[0]) then
      var t := TrimStart(s);
      var run := s[..|s| - |t|];
      SkipSpaceRun(s);
      assert AllSpace(run);
      [run] + SpaceRunsOf(t)
    else
      assert !IsRunEnd(s, 0);
      SpaceRunsOf(s[1..])
  }

  /** The fields with `runs[k]` put back between field `k` and field `k + 1`. */
  function Interleave(fields: seq<string>, runs: seq<string>): string
    requires |fields| == |runs| + 1
    decreases |runs|
  {
    if runs == [] then fields[0] else fields[0] + runs[0] + Interleave(fields[1..], runs[1..])
  }

  /** An empty first field puts the first run at the front. */
  lemma InterleaveEmptyFirst(run: string, fields: seq<string>, runs: seq<string>)
    requires |fields| == |runs| + 1
    ensures Interleave([""] + fields, [run] + runs) == run + Interleave(fields, runs)
  {
    assert ([""] + fields)[1..] == fields;
    assert ([run] + runs)[1..] == runs;
  }

  /** Gluing a character onto the first field puts it in front of the interleaving. */
  lemma InterleaveGlue(c: char, fields: seq<string>, runs: seq<string>)
    requires |fields| == |runs| + 1
    ensures Interleave([[c] + fields[0]] + fields[1..], runs) == [c] + Interleave(fields, runs)
  {
    var glued := [[c] + fields[0]] + fields[1..];
    assert glued[1..] == fields[1..];
    if runs != [] {
      var tail := Interleave(fields[1..], runs[1..]);
      assert ([c] + fields[0]) + runs[0] + tail == [c] + (fields[0] + runs[0] + tail);
    }
  }

  /** A text that starts with white space is its leading run followed by the rest. */
  lemma LeadingRun(s: string)
    requires s != [] && IsSpace(s[0])
    ensures var t := TrimStart(s);
      && s == s[..|s| - |t|] + t
      && SpaceRunsOf(s) == [s[..|s| - |t|]] + SpaceRunsOf(t)
  {
    var t := TrimStart(s);
    assert s == s[..|s| - |t|] + s[|s| - |t|..];
  }

  /** A leading run goes back in front of the fields of the rest of the text. */
  lemma SplitAfterRun(s: string, rest: seq<string>)
    requires s != [] && IsSpace(s[0])
    requires |rest| == 1 + |SpaceRunsOf(TrimStart(s))|
    requires Interleave(rest, SpaceRunsOf(TrimStart(s))) == TrimStart(s)
    ensures |[""] + rest| == 1 + |SpaceRunsOf(s)|
    ensures Interleave([""] + rest, SpaceRunsOf(s)) == s
  {
    var t := TrimStart(s);
    var run := s[..|s| - |t|];
    LeadingRun(s);
    InterleaveEmptyFirst(run, rest, SpaceRunsOf(t));
  }

  /** Gluing a non-space character onto a white-space-free first field keeps every field free of white space. */
  lemma GlueNoSpace(c: char, fields: seq<string>)
    requires !IsSpace(c) && fields != []
    requires forall k | 0 <= k < |fields| :: !HasSpace(fields[k])
    ensures var glued := [[c] + fields[0]] + fields[1..];
      forall k | 0 <= k < |glued| :: !HasSpace(glued[k])
  {
    var glued := [[c] + fields[0]] + fields[1..];
    forall k | 0 <= k < |glued|
      ensures !HasSpace(glued[k])
    {
      if k == 0 {
        forall i | 0 <= i < |glued[0]|
          ensures !IsSpace(glued[0][i])
        {
          if i > 0 {
            assert glued[0][i] == fields[0][i - 1];
          }
        }
      } else {
        assert glued[k] == fields[k];
      }
    }
  }

  /** A non-space first character joins the first field of the rest of the text. */
  lemma SplitInWord(s: string, rest: seq<string>)
    requires s != [] && !IsSpace(s[0])
    requires |rest| == 1 + |SpaceRunsOf(s[1..])|
    requires Interleave(rest, SpaceRunsOf(s[1..])) == s[1..]
    ensures Interleave([[s[0]] + rest[0]] + rest[1..], SpaceRunsOf(s)) == s
  {
    assert SpaceRunsOf(s) == SpaceRunsOf(s[1..]);
    InterleaveGlue(s[0], rest, SpaceRunsOf(s[1..]));
    assert s == [s[0]] + s[1..];
  }

  /**
   * `s.split(/\s+/)`: the fields between maximal runs of white space. A leading
   * or trailing run yields an empty first or last field, and `""` splits to `[""]`.
   * Joined together the fields are the text's non-space characters, there is
   * one field more than there are runs, and putting the runs back between the
   * fields gives the text back: the fields split exactly at the runs.
   */
  function SplitOnSpaceRuns(s: string): (fields: seq<string>)
    ensures |fields| >= 1
    ensures forall k | 0 <= k < |fields| :: !HasSpace(fields[k])
    ensures fields[0] <= s
    ensures fields[0] == [] <==> (s == [] || IsSpace(s[0]))
    ensures Concat(fields) == DropSpaces(s)
    ensures |fields| == 1 + SpaceRuns(s)
    ensures Interleave(fields, SpaceRunsOf(s)) == s
    decreases |s|
  {
    if s == [] then [""]
    else if IsSpace(s[0]) then
      var t := TrimStart(s);
      var rest := SplitOnSpaceRuns(t);
      SkipSpaceRun(s);
      SkipSpaceDrop(s);
      ConcatEmptyFirst(rest);
      SplitAfterRun(s, rest);
      [""] + rest
    else
      var rest := SplitOnSpaceRuns(s[1..]);
      ConcatGlue(s[0], rest);
      GlueNoSpace(s[0], rest);
      assert !IsRunEnd(s, 0);
      SplitInWord(s, rest);
      [[s[0]] + rest[0]] + rest[1..]
  }

  /** The number of empty fields. */
  function Empties(fields: seq<string>): nat
    decreases |fields|
  {
    if fields == [] then 0 else (if fields[0] == [] then 1 else 0) + Empties(fields[1..])
  }

  /**
   * `.filter(word => word.length > 0)`: the fields kept in order, every
   * non-empty one and no empty one, so the joined text is unchanged.
   */
  function NonEmpty(fields: seq<string>): (r: seq<string>)
    ensures |r| <= |fields|
    ensures forall k | 0 <= k < |r| :: r[k] != [] && r[k] in fields
    ensures IsSubsequence(r, fields)
    ensures |r| + Empties(fields) == |fields|
    ensures Concat(r) == Concat(fields)
    decreases |fields|
  {
    if fields == [] then []
    else
      var rest := NonEmpty(fields[1..]);
      if fields[0] == [] then
        assert Concat(fields) == Concat(fields[1..]);
        rest
      else
        var r := [fields[0]] + rest;
        assert r[1..] == rest;
        r
  }

  /** The words of `s`: non-empty, white-space-free pieces that together are its non-space characters. */
  function WordsOf(s: string): (ws: seq<string>)
    ensures forall k | 0 <= k < |ws| :: ws[k] != [] && !HasSpace(ws[k])
    ensures Concat(ws) == DropSpaces(s)
  {
    NonEmpty(SplitOnSpaceRuns(s))
  }

  /**
   * The word count of `generateResults`: the number of non-empty fields, which
   * is the number of positions where a word ends.
   */
  function WordCount(s: string): (n: nat)
    ensures n == WordEnds(s)
  {
    WordsOfMatchWordEnds(s);
    |WordsOf(s)|
  }

  // ---------------------------------------------------------------------------
  // Reference definition: one word per position where a word ends
  // ---------------------------------------------------------------------------

  /** Position `i` holds the last character of a word. */
  predicate IsWordEnd(s: string, i: int)
    requires 0 <= i < |s|
  {
    !IsSpace(s[i]) && (i + 1 == |s| || IsSpace(s[i + 1]))
  }

  /** The number of positions of `s` at which a word ends. */
  function WordEnds(s: string): nat
    decreases |s|
  {
    if s == [] then 0
    else (if IsWordEnd(s, 0) then 1 else 0) + WordEnds(s[1..])
  }

  /** Leading white space ends no word. */
  lemma {:induction false} WordEndsSkipSpace(s: string)
    ensures WordEnds(TrimStart(s)) == WordEnds(s)
    decreases |s|
  {
    if |s| > 0 && IsSpace(s[0]) {
      WordEndsSkipSpace(s[1..]);
    }
  }

  /** Splitting and filtering counts exactly the positions at which a word ends. */
  lemma {:induction false} WordsOfMatchWordEnds(s: string)
    ensures |WordsOf(s)| == WordEnds(s)
    decreases |s|
  {
    if s == [] {
    } else if IsSpace(s[0]) {
      var t := TrimStart(s);
      WordsOfMatchWordEnds(t);
      WordEndsSkipSpace(s);
      assert SplitOnSpaceRuns(s) == [""] + SplitOnSpaceRuns(t);
      assert ([""] + SplitOnSpaceRuns(t))[1..] == SplitOnSpaceRuns(t);
    } else {
      var rest := SplitOnSpaceRuns(s[1..]);
      var fields := [[s[0]] + rest[0]] + rest[1..];
      WordsOfMatchWordEnds(s[1..]);
      assert fields[1..] == rest[1..];
      assert |NonEmpty(fields)| == 1 + |NonEmpty(rest[1..])|;
      assert rest == [rest[0]] + rest[1..];
      assert |NonEmpty(rest)| == (if rest[0] == [] then 0 else 1) + |NonEmpty(rest[1..])|;
      assert IsWordEnd(s, 0) <==> rest[0] == [];
    }
  }

  /** A text has a word exactly when it has a character that is not white space. */
  lemma {:induction false} WordCountPositive(s: string)
    ensures WordCount(s) > 0 <==> exists i | 0 <= i < |s| :: !IsSpace(s[i])
  {
    WordEndsPositive(s);
  }

  lemma {:induction false} WordEndsPositive(s: string)
    ensures WordEnds(s) > 0 <==> exists i | 0 <= i < |s| :: !IsSpace(s[i])
    decreases |s|
  {
    if s != [] {
      WordEndsPositive(s[1..]);
      if !IsSpace(s[0]) && WordEnds(s[1..]) == 0 {
        assert forall i | 1 <= i < |s| :: IsSpace(s[i]) by {
          forall i | 1 <= i < |s| ensures IsSpace(s[i]) {
            assert s[1..][i - 1] == s[i];
          }
        }
        assert IsWordEnd(s, 0);
      }
      if i :| 0 <= i < |s| && !IsSpace(s[i]) {
        if i > 0 {
          assert s[1..][i - 1] == s[i];
        }
      }
    }
  }

  /** A trimmed, non-empty text has at least one word. */
  lemma TrimmedHasWord(s: string)
    requires IsTrimmed(s) && s != []
    ensures WordCount(s) >= 1
  {
    WordCountPositive(s);
  }

  /** Lower-casing touches no white space, so it keeps the word ends. */
  lemma {:induction false} WordEndsIgnoreCase(s: string)
    ensures WordEnds(ToLower(s)) == WordEnds(s)
    decreases |s|
  {
    if s != [] {
      var l := ToLower(s);
      assert l[1..] == ToLower(s[1..]);
      assert IsSpace(l[0]) <==> IsSpace(s[0]);
      assert |s| > 1 ==> (IsSpace(l[1]) <==> IsSpace(s[1]));
      WordEndsIgnoreCase(s[1..]);
    }
  }

  /** The word count does not depend on letter case. */
  lemma WordCountIgnoresCase(s: string)
    ensures WordCount(ToLower(s)) == WordCount(s)
  {
    WordEndsIgnoreCase(s);
  }
}
