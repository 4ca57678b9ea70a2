/**
 * Character-level primitives the analysis pipeline relies on: JavaScript's
 * notion of white space (shared by the `\s` regex class and `String.prototype.trim`),
 * ASCII lower-casing, substring search (`String.prototype.includes`) and trimming.
 */
module Text {

  /** The characters ECMAScript counts as WhiteSpace or LineTerminator. */
  predicate IsSpace(c: char) {
    || c == ' ' || c == '\t' || c == '\n' || c == '\r'
    || c == '\U{B}' || c == '\U{C}'
    || c == '\U{A0}' || c == '\U{1680}'
    || ('\U{2000}' <= c <= '\U{200A}')
    || c == '\U{2028}' || c == '\U{2029}'
    || c == '\U{202F}' || c == '\U{205F}' || c == '\U{3000}'
    || c == '\U{FEFF}'
  }

  predicate IsUpperAscii(c: char) {
    'A' <= c <= 'Z'
  }

  function LowerChar(c: char): char {
    if IsUpperAscii(c) then (c as int + 32) as char else c
  }

  /** No character of `s` is an upper-case ASCII letter. */
  predicate IsLower(s: string) {
    forall i | 0 <= i < |s| :: !IsUpperAscii(s[i])
  }

  /** `toLowerCase`, restricted to the ASCII letters. */
  function ToLower(s: string): (r: string)
    ensures |r| == |s|
    ensures IsLower(r)
    ensures forall i | 0 <= i < |s| :: !IsUpperAscii(s[i]) ==> r[i] == s[i]
    ensures forall i | 0 <= i < |s| :: IsUpperAscii(s[i]) ==> r[i] as int == s[i] as int + 32
  {
    seq(|s|, i requires 0 <= i < |s| => LowerChar(s[i]))
  }

  /** Lower-casing twice is lower-casing once; a lower-case string is its own lower case. */
  lemma ToLowerOfLower(s: string)
    requires IsLower(s)
    ensures ToLower(s) == s
  {
  }

  lemma ToLowerIdempotent(s: string)
    ensures ToLower(ToLower(s)) == ToLower(s)
  {
    ToLowerOfLower(ToLower(s));
  }

  // ---------------------------------------------------------------------------
  // Length as JavaScript counts it
  // ---------------------------------------------------------------------------

  /** A character outside the Basic Multilingual Plane, which UTF-16 encodes as a surrogate pair. */
  predicate IsAstral(c: char) {
    c as int > 0xFFFF
  }

  /** The number of UTF-16 code units `c` takes. */
  function CodeUnits(c: char): nat {
    if IsAstral(c) then 2 else 1
  }

  /**
   * `s.length`: JavaScript counts UTF-16 code units, so each astral character
   * counts twice. The count agrees with `|s|` exactly when `s` has no astral character.
   */
  function Utf16Length(s: string): (n: nat)
    ensures |s| <= n <= 2 * |s|
    ensures n == |s| <==> forall i | 0 <= i < |s| :: !IsAstral(s[i])
    decreases |s|
  {
    if s == [] then 0
    else
      assert forall i | 1 <= i < |s| :: s[1..][i - 1] == s[i];
      CodeUnits(s[0]) + Utf16Length(s[1..])
  }

  /** The code-unit count of a concatenation is the sum of the counts. */
  lemma {:induction false} Utf16LengthAppend(a: string, b: string)
    ensures Utf16Length(a + b) == Utf16Length(a) + Utf16Length(b)
    decreases |a|
  {
    if a == [] {
      assert a + b == b;
    } else {
      assert (a + b)[0] == a[0] && (a + b)[1..] == a[1..] + b;
      Utf16LengthAppend(a[1..], b);
    }
  }

  // ---------------------------------------------------------------------------
  // Substring search
  // ---------------------------------------------------------------------------

  /** `pattern` occurs in `text` starting at index `i`. */
  predicate OccursAt(text: string, pattern: string, i: nat) {
    i + |pattern| <= |text| && text[i..i + |pattern|] == pattern
  }

  /** `text.includes(pattern)`, scanning start positions left to right. */
  predicate Contains(text: string, pattern: string)
    ensures Contains(text, pattern) ==> |pattern| <= |text|
    ensures |pattern| == |text| ==> (Contains(text, pattern) <==> pattern == text)
    decreases |text|
  {
    pattern <= text || (|text| > 0 && Contains(text[1..], pattern))
  }

  /** The scan agrees with the declarative reading: some start position holds the pattern. */
  lemma {:induction false} ContainsIffOccurs(text: string, pattern: string)
    ensures Contains(text, pattern) <==> exists i: nat :: OccursAt(text, pattern, i)
    decreases |text|
  {
    if pattern <= text {
      assert OccursAt(text, pattern, 0);
    } else if |text| == 0 {
    } else {
      var tail := text[1..];
      ContainsIffOccurs(tail, pattern);
      if Contains(tail, pattern) {
        var j: nat :| OccursAt(tail, pattern, j);
        assert text[j + 1..j + 1 + |pattern|] == tail[j..j + |pattern|];
        assert OccursAt(text, pattern, j + 1);
      }
      if i: nat :| OccursAt(text, pattern, i) {
        if i > 0 {
          assert tail[i - 1..i - 1 + |pattern|] == text[i..i + |pattern|];
          assert OccursAt(tail, pattern, i - 1);
        }
      }
    }
  }

  /** If `text` contains `middle` and `middle` contains `pattern`, then `text` contains `pattern`. */
  lemma ContainsTransitive(text: string, middle: string, pattern: string)
    requires Contains(text, middle) && Contains(middle, pattern)
    ensures Contains(text, pattern)
  {
    ContainsIffOccurs(text, middle);
    ContainsIffOccurs(middle, pattern);
    var i: nat :| OccursAt(text, middle, i);
    var j: nat :| OccursAt(middle, pattern, j);
    forall k | 0 <= k < |pattern|
      ensures text[i + j + k] == pattern[k]
    {
      assert text[i + j + k] == middle[j + k];
    }
    assert text[i + j..i + j + |pattern|] == pattern;
    assert OccursAt(text, pattern, i + j);
    ContainsIffOccurs(text, pattern);
  }

  lemma AppendAssociative<T>(a: seq<T>, b: seq<T>, c: seq<T>)
    ensures (a + b) + c == a + (b + c)
  {
  }

  /** A pattern found character by character at index `i` is contained. */
  lemma ContainsAt(text: string, pattern: string, i: nat)
    requires i + |pattern| <= |text|
    requires forall k | 0 <= k < |pattern| :: text[i + k] == pattern[k]
    ensures Contains(text, pattern)
  {
    assert text[i..i + |pattern|] == pattern;
    assert OccursAt(text, pattern, i);
    ContainsIffOccurs(text, pattern);
  }

  /** A string ending in `piece` contains it. */
  lemma ContainsEnd(front: string, piece: string)
    ensures Contains(front + piece, piece)
  {
    var s := front + piece;
    assert s[|front|..|front| + |piece|] == piece;
    assert OccursAt(s, piece, |front|);
    ContainsIffOccurs(s, piece);
  }

  /** Appending text keeps every occurrence. */
  lemma ContainsExtend(text: string, more: string, pattern: string)
    requires Contains(text, pattern)
    ensures Contains(text + more, pattern)
  {
    ContainsIffOccurs(text, pattern);
    var i: nat :| OccursAt(text, pattern, i);
    var s := text + more;
    assert s[i..i + |pattern|] == text[i..i + |pattern|];
    assert OccursAt(s, pattern, i);
    ContainsIffOccurs(s, pattern);
  }

  // ---------------------------------------------------------------------------
  // Trimming
  // ---------------------------------------------------------------------------

  /** Every character of `s` from index `lo` up to (not including) `hi` is white space. */
  predicate SpaceRun(s: string, lo: nat, hi: nat) {
    lo <= hi <= |s| && forall i | lo <= i < hi :: IsSpace(s[i])
  }

  /** Neither end of `s` is white space. */
  predicate IsTrimmed(s: string) {
    s == [] || (!IsSpace(s[0]) && !IsSpace(s[|s| - 1]))
  }

  /** Drops the leading run of white space: the result is the suffix of `s` after that run. */
  function TrimStart(s: string): (r: string)
    ensures |r| <= |s| && r == s[|s| - |r|..]
    ensures SpaceRun(s, 0, |s| - |r|)
    ensures r == [] || !IsSpace(r[0])
    decreases |s|
  {
    if |s| > 0 && IsSpace(s[0]) then TrimStart(s[1..]) else s
  }

  /** Drops the trailing run of white space: the result is the prefix of `s` before that run. */
  function TrimEnd(s: string): (r: string)
    ensures |r| <= |s| && r == s[..|r|]
    ensures SpaceRun(s, |r|, |s|)
    ensures r == [] || !IsSpace(r[|r| - 1])
    decreases |s|
  {
    if |s| > 0 && IsSpace(s[|s| - 1]) then TrimEnd(s[..|s| - 1]) else s
  }

  /** `s` is `a` characters of white space, then `core`, then nothing but white space. */
  predicate PaddedBy(s: string, a: nat, core: string) {
    && a + |core| <= |s|
    && core == s[a..a + |core|]
    && SpaceRun(s, 0, a)
    && SpaceRun(s, a + |core|, |s|)
  }

  /**
   * Dropping a leading run of white space and then a trailing run leaves a
   * trimmed core that sits, padded by white space, inside the original.
   */
  lemma TrimmedCore(s: string, front: string, r: string)
    requires |front| <= |s| && front == s[|s| - |front|..]
    requires SpaceRun(s, 0, |s| - |front|) && (front == [] || !IsSpace(front[0]))
    requires |r| <= |front| && r == front[..|r|]
    requires SpaceRun(front, |r|, |front|) && (r == [] || !IsSpace(r[|r| - 1]))
    ensures IsTrimmed(r) && PaddedBy(s, |s| - |front|, r)
  {
    var a := |s| - |front|;
    forall i | 0 <= i < |r|
      ensures r[i] == s[a + i]
    {
      assert r[i] == front[i];
    }
    forall i | a + |r| <= i < |s|
      ensures IsSpace(s[i])
    {
      assert s[i] == front[i - a];
    }
    assert r != [] ==> r[0] == front[0];
  }

  /** `String.prototype.trim`: the result is `s` with white space removed from both ends. */
  function Trim(s: string): (r: string)
    ensures IsTrimmed(r)
    ensures PaddedBy(s, |s| - |TrimStart(s)|, r)
  {
    var front := TrimStart(s);
    var r := TrimEnd(front);
    TrimmedCore(s, front, r);
    r
  }

  /** Trimming a trimmed string changes nothing, so `trim` is idempotent. */
  lemma TrimOfTrimmed(s: string)
    requires IsTrimmed(s)
    ensures Trim(s) == s
  {
  }

  lemma TrimIdempotent(s: string)
    ensures Trim(Trim(s)) == Trim(s)
  {
    TrimOfTrimmed(Trim(s));
  }
}
