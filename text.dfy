/** The three Kotlin string operations the condition classifier applies to
    the free-text labels: `lowercase()`, `trim()` and `contains(...)`. */
module Text {

  /** Kotlin's `Char.isWhitespace()` on the JVM: every Unicode space, line
      and paragraph separator, plus the controls U+0009..U+000D and
      U+001C..U+001F. */
  predicate IsWhitespace(c: char) {
    || ('\t' <= c <= '\r')
    || ('\U{1C}' <= c <= '\U{1F}')
    || c == ' '
    || c == '\U{A0}'
    || c == '\U{1680}'
    || ('\U{2000}' <= c <= '\U{200A}')
    || c == '\U{2028}'
    || c == '\U{2029}'
    || c == '\U{202F}'
    || c == '\U{205F}'
    || c == '\U{3000}'
  }

  predicate IsUpper(c: char) {
    'A' <= c <= 'Z'
  }

  function LowerChar(c: char): char {
    if IsUpper(c) then (c as int + 32) as char else c
  }

  /** `lowercase()`, restricted to the ASCII letters. */
  function Lowercase(s: string): (r: string)
    ensures |r| == |s|
    ensures forall i :: 0 <= i < |r| ==> !IsUpper(r[i])
    ensures forall i :: 0 <= i < |s| && !IsUpper(s[i]) ==> r[i] == s[i]
    ensures forall i :: 0 <= i < |s| && IsUpper(s[i]) ==> r[i] as int == s[i] as int + 32
  {
    seq(|s|, i requires 0 <= i < |s| => LowerChar(s[i]))
  }

  /** `x.equals(y, ignoreCase = true)` over the ASCII letters: the same
      length, and the same character at every position up to letter case. */
  predicate EqualIgnoringCase(x: string, y: string) {
    |x| == |y| && forall i :: 0 <= i < |x| ==> LowerChar(x[i]) == LowerChar(y[i])
  }

  /** Texts that differ only in letter case have the same lower-case form. */
  lemma LowercaseIgnoresCase(x: string, y: string)
    requires EqualIgnoringCase(x, y)
    ensures Lowercase(x) == Lowercase(y)
  {
  }

  predicate AllWhitespace(w: string) {
    forall k :: 0 <= k < |w| ==> IsWhitespace(w[k])
  }

  /** Whitespace has no upper-case letters, so padding passes through
      lower-casing unchanged. */
  lemma LowercasePadded(w1: string, x: string, w2: string)
    requires AllWhitespace(w1) && AllWhitespace(w2)
    ensures Lowercase(w1 + x + w2) == w1 + Lowercase(x) + w2
  {
  }

  /** Drops the leading whitespace. */
  function TrimStart(s: string): (r: string)
    ensures |r| <= |s| && r == s[|s| - |r|..]
    ensures forall k :: 0 <= k < |s| - |r| ==> IsWhitespace(s[k])
    ensures r == [] || !IsWhitespace(r[0])
  {
    if s != [] && IsWhitespace(s[0]) then TrimStart(s[1..]) else s
  }

  /** Drops the trailing whitespace. */
  function TrimEnd(s: string): (r: string)
    ensures |r| <= |s| && r == s[..|r|]
    ensures forall k :: |r| <= k < |s| ==> IsWhitespace(s[k])
    ensures r == [] || !IsWhitespace(r[|r| - 1])
  {
    if s != [] && IsWhitespace(s[|s| - 1]) then TrimEnd(s[..|s| - 1]) else s
  }

  /** `r` is the slice of `s` starting at `i`, and everything of `s` around
      it is whitespace. */
  ghost predicate CutFrom(s: string, r: string, i: int) {
    && 0 <= i <= |s| - |r|
    && r == s[i..i + |r|]
    && (forall k :: 0 <= k < i ==> IsWhitespace(s[k]))
    && (forall k :: i + |r| <= k < |s| ==> IsWhitespace(s[k]))
  }

  /** `trim()`: the longest slice of `s` that neither starts nor ends with
      whitespace; everything cut off is whitespace. */
  function Trim(s: string): (r: string)
    ensures r == [] || (!IsWhitespace(r[0]) && !IsWhitespace(r[|r| - 1]))
    ensures exists i :: CutFrom(s, r, i)
  {
    var t := TrimStart(s);
    var r := TrimEnd(t);
    assert CutFrom(s, r, |s| - |t|);
    r
  }

  /** A string that neither starts nor ends with whitespace is its own trim,
      so trimming twice is trimming once. */
  lemma {:induction false} TrimIdempotent(s: string)
    ensures Trim(Trim(s)) == Trim(s)
  {
    var r := Trim(s);
    if r != [] {
      assert TrimStart(r) == r;
      assert TrimEnd(r) == r;
    }
  }

  /** Where a cut slice sits: it is empty exactly when the text is all
      whitespace, and otherwise its ends are characters of the text. */
  lemma CutShape(s: string, r: string, i: int)
    requires CutFrom(s, r, i)
    requires r == [] || (!IsWhitespace(r[0]) && !IsWhitespace(r[|r| - 1]))
    ensures r == [] <==> AllWhitespace(s)
    ensures r != [] ==> 0 <= i < |s| && s[i] == r[0] && s[i + |r| - 1] == r[|r| - 1]
  {
  }

  /** A trim of a text without upper-case letters has none either. */
  lemma TrimKeepsNoUpper(s: string)
    requires forall k :: 0 <= k < |s| ==> !IsUpper(s[k])
    ensures forall k :: 0 <= k < |Trim(s)| ==> !IsUpper(Trim(s)[k])
  {
    var r := Trim(s);
    var i :| CutFrom(s, r, i);
    forall k | 0 <= k < |r| ensures !IsUpper(r[k]) {
      assert r[k] == s[i + k];
    }
  }

  /** At most one slice is cut out by whitespace and neither starts nor
      ends with whitespace: `trim()` is determined by its contract. */
  lemma TrimUnique(s: string, r: string, i: int)
    requires CutFrom(s, r, i)
    requires r == [] || (!IsWhitespace(r[0]) && !IsWhitespace(r[|r| - 1]))
    ensures r == Trim(s)
  {
    var t := Trim(s);
    var j :| CutFrom(s, t, j);
    CutShape(s, r, i);
    CutShape(s, t, j);
    if r != [] {
      assert i == j;
      assert |r| == |t|;
    }
  }

  /** Whitespace around a text keeps a cut of the text a cut. */
  lemma PaddedCut(w1: string, x: string, w2: string, t: string, j: int)
    requires AllWhitespace(w1) && AllWhitespace(w2) && CutFrom(x, t, j)
    ensures CutFrom(w1 + x + w2, t, |w1| + j)
  {
    var s := w1 + x + w2;
    var n := |w1| + j;
    forall k | 0 <= k < n ensures IsWhitespace(s[k]) {
      if k >= |w1| {
        assert s[k] == x[k - |w1|];
      }
    }
    forall k | n + |t| <= k < |s| ensures IsWhitespace(s[k]) {
      if k < |w1| + |x| {
        assert s[k] == x[k - |w1|];
      } else {
        assert s[k] == w2[k - |w1| - |x|];
      }
    }
    assert t == s[n..n + |t|] by {
      forall k | 0 <= k < |t| ensures t[k] == s[n + k] {
        assert t[k] == x[j + k];
      }
    }
  }

  /** Whitespace around a text does not change its trim. */
  lemma TrimPadded(w1: string, x: string, w2: string)
    requires AllWhitespace(w1) && AllWhitespace(w2)
    ensures Trim(w1 + x + w2) == Trim(x)
  {
    var t := Trim(x);
    var j :| CutFrom(x, t, j);
    PaddedCut(w1, x, w2, t, j);
    TrimUnique(w1 + x + w2, t, |w1| + j);
  }

  /** `sub` occurs in `s` at offset `i`. */
  predicate OccursAt(s: string, sub: string, i: int) {
    0 <= i <= |s| - |sub| && s[i..i + |sub|] == sub
  }

  /** `s.contains(sub)`: `sub` occurs in `s` at some offset. */
  predicate Contains(s: string, sub: string)
    ensures Contains(s, sub) ==> |sub| <= |s|
    ensures sub == [] ==> Contains(s, sub)
  {
    assert sub == [] ==> OccursAt(s, sub, 0);
    exists i | 0 <= i <= |s| - |sub| :: OccursAt(s, sub, i)
  }

  /** A text that starts with a word contains it. */
  lemma PrefixContained(s: string, word: string)
    requires |word| <= |s| && s[..|word|] == word
    ensures Contains(s, word)
  {
    assert OccursAt(s, word, 0);
  }

  /** A text without the first letter of a word does not contain the word. */
  lemma AbsentInitial(s: string, word: string)
    requires word != [] && forall k :: 0 <= k < |s| ==> s[k] != word[0]
    ensures !Contains(s, word)
  {
    forall i | 0 <= i <= |s| - |word|
      ensures !OccursAt(s, word, i)
    {
      assert s[i..i + |word|][0] == s[i];
    }
  }
}
