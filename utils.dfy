/** The keyword matcher and the text truncation helper of src/lib/utils.ts.
    Strings are sequences of characters; case folding maps only the ASCII
    letters and whitespace is the six ASCII whitespace characters. */
module Utils {

  predicate IsSpace(c: char) {
    c == ' ' || c == '\t' || c == '\n' || c == '\r' || c == '\U{000B}' || c == '\U{000C}'
  }

  /** Every character of `s` is whitespace (so is every character of ""). */
  predicate AllSpace(s: string) {
    forall k :: 0 <= k < |s| ==> IsSpace(s[k])
  }

  /** No character of `s` is whitespace. */
  predicate NoSpace(s: string) {
    forall k :: 0 <= k < |s| ==> !IsSpace(s[k])
  }

  function LowerChar(c: char): char {
    if 'A' <= c <= 'Z' then (c as int + 32) as char else c
  }

  function UpperChar(c: char): char {
    if 'a' <= c <= 'z' then (c as int - 32) as char else c
  }

  /** `String.prototype.toLowerCase` on ASCII letters: each upper-case letter
      becomes its lower-case partner (32 code points on), so none is left,
      and every other character stays where it was. */
  function ToLower(s: string): (r: string)
    ensures |r| == |s|
    ensures forall i :: 0 <= i < |s| && 'A' <= s[i] <= 'Z' ==> r[i] as int == s[i] as int + 32
    ensures forall i :: 0 <= i < |r| ==> !('A' <= r[i] <= 'Z')
    ensures forall i :: 0 <= i < |s| && !('A' <= s[i] <= 'Z') ==> r[i] == s[i]
  {
    seq(|s|, i requires 0 <= i < |s| => LowerChar(s[i]))
  }

  /** `String.prototype.toUpperCase` on ASCII letters: each lower-case letter
      becomes its upper-case partner (32 code points back), so none is left,
      and every other character stays where it was. */
  function ToUpper(s: string): (r: string)
    ensures |r| == |s|
    ensures forall i :: 0 <= i < |s| && 'a' <= s[i] <= 'z' ==> r[i] as int == s[i] as int - 32
    ensures forall i :: 0 <= i < |r| ==> !('a' <= r[i] <= 'z')
    ensures forall i :: 0 <= i < |s| && !('a' <= s[i] <= 'z') ==> r[i] == s[i]
  {
    seq(|s|, i requires 0 <= i < |s| => UpperChar(s[i]))
  }

  /** The whitespace characters of `s` fill the index range [lo, hi). */
  predicate SpaceIn(s: string, lo: int, hi: int)
    requires 0 <= lo <= hi <= |s|
  {
    forall k :: lo <= k < hi ==> IsSpace(s[k])
  }

  /** No character of `s` in the index range [lo, hi) is whitespace. */
  predicate NoSpaceIn(s: string, lo: int, hi: int)
    requires 0 <= lo <= hi <= |s|
  {
    forall k :: lo <= k < hi ==> !IsSpace(s[k])
  }

  /** The end of the whitespace run of `s` that starts at index `i`. */
  function SpaceEnd(s: string, i: nat): (n: nat)
    requires i <= |s|
    ensures i <= n <= |s| && (n == |s| || !IsSpace(s[n]))
    decreases |s| - i
  {
    if i < |s| && IsSpace(s[i]) then SpaceEnd(s, i + 1) else i
  }

  lemma {:induction false} SpaceEndIsSpace(s: string, i: nat)
    requires i <= |s|
    ensures SpaceIn(s, i, SpaceEnd(s, i))
    decreases |s| - i
  {
    if i < |s| && IsSpace(s[i]) {
      SpaceEndIsSpace(s, i + 1);
    }
  }

  /** `SpaceEnd` goes at least as far as any whitespace run from `i`. */
  lemma {:induction false} SpaceEndUpTo(s: string, i: nat, k: nat)
    requires i <= k <= |s| && SpaceIn(s, i, k)
    ensures k <= SpaceEnd(s, i)
    decreases k - i
  {
    if i < k {
      SpaceEndUpTo(s, i + 1, k);
    }
  }

  /** The start of the whitespace run of `s` that ends at index `j`, not going
      below `lo`. */
  function SpaceStart(s: string, lo: nat, j: nat): (n: nat)
    requires lo <= j <= |s|
    ensures lo <= n <= j && (n == lo || !IsSpace(s[n - 1]))
    decreases j
  {
    if lo < j && IsSpace(s[j - 1]) then SpaceStart(s, lo, j - 1) else j
  }

  lemma {:induction false} SpaceStartIsSpace(s: string, lo: nat, j: nat)
    requires lo <= j <= |s|
    ensures SpaceIn(s, SpaceStart(s, lo, j), j)
    decreases j
  {
    if lo < j && IsSpace(s[j - 1]) {
      SpaceStartIsSpace(s, lo, j - 1);
    }
  }

  /** `SpaceStart` goes at least as far back as any whitespace run up to `j`. */
  lemma {:induction false} SpaceStartDownTo(s: string, lo: nat, j: nat, k: nat)
    requires lo <= k <= j <= |s| && SpaceIn(s, k, j)
    ensures SpaceStart(s, lo, j) <= k
    decreases j - k
  {
    if k < j {
      SpaceStartDownTo(s, lo, j - 1, k);
    }
  }

  /** The end of the run of non-whitespace characters of `s` that starts at `i`. */
  function WordEnd(s: string, i: nat): (n: nat)
    requires i <= |s|
    ensures i <= n <= |s| && (n == |s| || IsSpace(s[n]))
    decreases |s| - i
  {
    if i < |s| && !IsSpace(s[i]) then WordEnd(s, i + 1) else i
  }

  lemma {:induction false} WordEndHasNoSpace(s: string, i: nat)
    requires i <= |s|
    ensures NoSpaceIn(s, i, WordEnd(s, i))
    decreases |s| - i
  {
    if i < |s| && !IsSpace(s[i]) {
      WordEndHasNoSpace(s, i + 1);
    }
  }

  /** `WordEnd` goes at least as far as any run of non-whitespace from `i`. */
  lemma {:induction false} WordEndUpTo(s: string, i: nat, k: nat)
    requires i <= k <= |s| && NoSpaceIn(s, i, k)
    ensures k <= WordEnd(s, i)
    decreases k - i
  {
    if i < k {
      WordEndUpTo(s, i + 1, k);
    }
  }

  /** `String.prototype.trim`: what lies between the leading and the trailing
      whitespace of `s`. */
  function Trim(s: string): (r: string)
    ensures |r| <= |s|
    ensures r == [] || (!IsSpace(r[0]) && !IsSpace(r[|r| - 1]))
  {
    var i := SpaceEnd(s, 0);
    var j := SpaceStart(s, i, |s|);
    assert i < j ==> s[i..j][0] == s[i] && s[i..j][j - i - 1] == s[j - 1];
    s[i..j]
  }

  /** The pieces of `s[i..]` between maximal runs of whitespace, where `i` is
      the start of a piece. */
  function SplitFrom(s: string, i: nat): (words: seq<string>)
    requires i <= |s|
    ensures |words| >= 1
    decreases |s| - i
  {
    var e := WordEnd(s, i);
    if e == |s| then [s[i..]]
    else [s[i..e]] + SplitFrom(s, SpaceEnd(s, e))
  }

  /** `s.split(/\s+/)`: the pieces of `s` between maximal runs of whitespace. A
      leading or a trailing run yields an empty first or last piece, and ""
      yields [""]. */
  function Split(s: string): (words: seq<string>)
    ensures |words| >= 1
    ensures forall w :: w in words ==> NoSpace(w)
  {
    SplitFromWordsHaveNoSpace(s, 0);
    SplitFrom(s, 0)
  }

  /** `containsKeyword`: after lower-casing and trimming both arguments, the
      keyword is one of the whitespace-separated words of the text. */
  function ContainsKeyword(text: string, keyword: string): (r: bool)
    ensures r ==> NoSpace(Trim(ToLower(keyword)))
  {
    var normalizedText := Trim(ToLower(text));
    var normalizedKeyword := Trim(ToLower(keyword));
    normalizedKeyword in Split(normalizedText)
  }

  /** `w` occurs in `s` at position `p`, delimited on both sides by whitespace
      or by the ends of `s`. */
  ghost predicate IsTokenAt(s: string, w: string, p: int) {
    && 0 <= p && p + |w| <= |s| && s[p..p + |w|] == w
    && (p == 0 || IsSpace(s[p - 1]))
    && (p + |w| == |s| || IsSpace(s[p + |w|]))
  }

  /** `w` is a whole word of `s`: a non-empty run of non-whitespace characters
      delimited in `s` by whitespace or by the ends of `s`. */
  ghost predicate IsToken(s: string, w: string) {
    |w| > 0 && NoSpace(w) && exists p :: IsTokenAt(s, w, p)
  }

  // ---------------------------------------------------------------------------
  // trim

  /** What `Trim` removes is whitespace, before and after the result. */
  lemma TrimRemovesOnlySpace(s: string)
    ensures var i := SpaceEnd(s, 0); var j := SpaceStart(s, i, |s|);
            && Trim(s) == s[i..j] && SpaceIn(s, 0, i) && SpaceIn(s, j, |s|)
  {
    var i := SpaceEnd(s, 0);
    SpaceEndIsSpace(s, 0);
    SpaceStartIsSpace(s, i, |s|);
  }

  /** `Trim` is determined by its contract: whenever `s[i..j]` is surrounded in
      `s` by whitespace only and neither starts nor ends with whitespace, it is
      `Trim(s)`. */
  lemma TrimCharacterized(s: string, i: int, j: int)
    requires 0 <= i <= j <= |s|
    requires SpaceIn(s, 0, i) && SpaceIn(s, j, |s|)
    requires i < j ==> !IsSpace(s[i]) && !IsSpace(s[j - 1])
    ensures Trim(s) == s[i..j]
  {
    TrimRemovesOnlySpace(s);
    var l := SpaceEnd(s, 0);
    var m := SpaceStart(s, l, |s|);
    if i < j {
      SpaceEndUpTo(s, 0, i);
      SpaceStartDownTo(s, l, |s|, j);
    } else {
      assert SpaceIn(s, 0, |s|);
      SpaceEndUpTo(s, 0, |s|);
    }
  }

  /** Whitespace added before or after a string never changes its trimmed form. */
  lemma TrimIgnoresPadding(a: string, s: string, b: string)
    requires AllSpace(a) && AllSpace(b)
    ensures Trim(a + s + b) == Trim(s)
  {
    TrimRemovesOnlySpace(s);
    var l := SpaceEnd(s, 0);
    var m := SpaceStart(s, l, |s|);
    var x := a + s + b;
    var i, j := |a| + l, |a| + m;
    assert x[i..j] == s[l..m];
    forall p | 0 <= p < i ensures IsSpace(x[p]) {
      if p >= |a| { assert x[p] == s[p - |a|]; }
    }
    forall p | j <= p < |x| ensures IsSpace(x[p]) {
      if p < |a| + |s| { assert x[p] == s[p - |a|]; } else { assert x[p] == b[p - |a| - |s|]; }
    }
    assert i < j ==> x[i] == s[l] && x[j - 1] == s[m - 1];
    TrimCharacterized(x, i, j);
  }

  /** A string trims to "" exactly when it is all whitespace. */
  lemma TrimEmptyIffAllSpace(s: string)
    ensures Trim(s) == [] <==> AllSpace(s)
  {
    TrimRemovesOnlySpace(s);
    if AllSpace(s) {
      TrimCharacterized(s, 0, 0);
    }
  }

  // ---------------------------------------------------------------------------
  // case folding

  lemma LowerOfSpaces(s: string)
    ensures forall k :: 0 <= k < |s| ==> (IsSpace(ToLower(s)[k]) <==> IsSpace(s[k]))
  {
  }

  /** Lower-casing after either case conversion is the same as lower-casing. */
  lemma LowerAbsorbsCase(s: string)
    ensures ToLower(ToUpper(s)) == ToLower(s)
    ensures ToLower(ToLower(s)) == ToLower(s)
  {
    assert forall k :: 0 <= k < |s| ==> ToLower(ToUpper(s))[k] == ToLower(s)[k];
    assert forall k :: 0 <= k < |s| ==> ToLower(ToLower(s))[k] == ToLower(s)[k];
  }

  lemma LowerOfConcat(a: string, b: string)
    ensures ToLower(a + b) == ToLower(a) + ToLower(b)
  {
    assert forall k :: 0 <= k < |a + b| ==> ToLower(a + b)[k] == (ToLower(a) + ToLower(b))[k];
  }

  // ---------------------------------------------------------------------------
  // split

  /** No word produced by `SplitFrom` contains whitespace. */
  lemma {:induction false} SplitFromWordsHaveNoSpace(s: string, i: nat)
    requires i <= |s|
    ensures forall w :: w in SplitFrom(s, i) ==> NoSpace(w)
    decreases |s| - i
  {
    var e := WordEnd(s, i);
    WordEndHasNoSpace(s, i);
    var first := s[i..e];
    assert forall k :: 0 <= k < |first| ==> first[k] == s[i + k];
    if e < |s| {
      SplitFromWordsHaveNoSpace(s, SpaceEnd(s, e));
    }
  }

  /** Every non-empty piece of `SplitFrom(s, i)` occurs in `s` at or after `i`
      as a whole word. */
  lemma {:induction false} SplitFromYieldsTokens(s: string, i: nat, w: string)
    requires i <= |s| && (i == 0 || IsSpace(s[i - 1]))
    requires |w| > 0 && w in SplitFrom(s, i)
    ensures exists p :: i <= p && IsTokenAt(s, w, p)
    decreases |s| - i
  {
    var e := WordEnd(s, i);
    if w == s[i..e] {
      assert IsTokenAt(s, w, i);
    } else {
      var f := SpaceEnd(s, e);
      SpaceEndIsSpace(s, e);
      SplitFromYieldsTokens(s, f, w);
    }
  }

  /** Every whole word of `s` that starts at or after the piece start `i` is a
      piece of `SplitFrom(s, i)`. */
  lemma {:induction false} TokenInSplitFrom(s: string, i: nat, w: string, p: int)
    requires i <= |s| && (i == 0 || IsSpace(s[i - 1]))
    requires |w| > 0 && NoSpace(w) && i <= p && IsTokenAt(s, w, p)
    ensures w in SplitFrom(s, i)
    decreases |s| - i
  {
    var e := WordEnd(s, i);
    WordEndHasNoSpace(s, i);
    assert w[0] == s[p];
    if p == i {
      forall k | i <= k < i + |w| ensures !IsSpace(s[k]) {
        assert s[k] == w[k - i];
      }
      WordEndUpTo(s, i, i + |w|);
      assert SplitFrom(s, i)[0] == s[i..e] == w;
    } else {
      var f := SpaceEnd(s, e);
      SpaceEndIsSpace(s, e);
      TokenInSplitFrom(s, f, w, p);
    }
  }

  /** The non-empty words `Split` produces are exactly the whole words of `s`. */
  lemma SplitYieldsTokens(s: string, w: string)
    requires |w| > 0
    ensures w in Split(s) <==> IsToken(s, w)
  {
    if w in Split(s) {
      SplitFromWordsHaveNoSpace(s, 0);
      SplitFromYieldsTokens(s, 0, w);
    }
    if IsToken(s, w) {
      var p :| IsTokenAt(s, w, p);
      TokenInSplitFrom(s, 0, w, p);
    }
  }

  /** From a non-whitespace character of a string that does not end in
      whitespace, no piece is empty. */
  lemma {:induction false} SplitFromOfTrimmedHasNoEmpty(t: string, i: nat)
    requires i < |t| && !IsSpace(t[i]) && !IsSpace(t[|t| - 1])
    ensures [] !in SplitFrom(t, i)
    decreases |t| - i
  {
    var e := WordEnd(t, i);
    if e < |t| {
      var f := SpaceEnd(t, e);
      SpaceEndIsSpace(t, e);
      SplitFromOfTrimmedHasNoEmpty(t, f);
    }
  }

  /** A string without leading or trailing whitespace splits into non-empty
      words, except "" itself, which splits into [""]. */
  lemma SplitOfTrimmed(t: string)
    requires t == [] || (!IsSpace(t[0]) && !IsSpace(t[|t| - 1]))
    ensures [] in Split(t) <==> t == []
  {
    if t != [] {
      SplitFromOfTrimmedHasNoEmpty(t, 0);
    }
  }

  // ---------------------------------------------------------------------------
  // containsKeyword

  /** The matcher is whole-word equality: after lower-casing and trimming, an
      empty keyword matches exactly the empty text, and any other keyword
      matches exactly when it is a whole word of the text (so "link" does not
      match "links"). */
  lemma ContainsKeywordIsWholeWord(text: string, keyword: string)
    ensures var t := Trim(ToLower(text)); var k := Trim(ToLower(keyword));
            ContainsKeyword(text, keyword) <==> if k == [] then t == [] else IsToken(t, k)
  {
    var t := Trim(ToLower(text));
    var k := Trim(ToLower(keyword));
    if k == [] {
      SplitOfTrimmed(t);
    } else {
      SplitYieldsTokens(t, k);
    }
  }

  /** A keyword that is empty or all whitespace matches exactly the empty and
      the all-whitespace comments. */
  lemma BlankKeywordMatchesOnlyBlankText(text: string, keyword: string)
    requires AllSpace(keyword)
    ensures ContainsKeyword(text, keyword) <==> AllSpace(text)
  {
    LowerOfSpaces(text);
    LowerOfSpaces(keyword);
    TrimEmptyIffAllSpace(ToLower(text));
    TrimEmptyIffAllSpace(ToLower(keyword));
    ContainsKeywordIsWholeWord(text, keyword);
  }

  /** Upper- or lower-casing either argument never changes the match. */
  lemma ContainsKeywordIgnoresCase(text: string, keyword: string)
    ensures ContainsKeyword(ToUpper(text), keyword) == ContainsKeyword(text, keyword)
    ensures ContainsKeyword(ToLower(text), keyword) == ContainsKeyword(text, keyword)
    ensures ContainsKeyword(text, ToUpper(keyword)) == ContainsKeyword(text, keyword)
    ensures ContainsKeyword(text, ToLower(keyword)) == ContainsKeyword(text, keyword)
  {
    LowerAbsorbsCase(text);
    LowerAbsorbsCase(keyword);
  }

  /** Leading and trailing whitespace on either argument never changes the match. */
  lemma ContainsKeywordIgnoresPadding(text: string, keyword: string, a: string, b: string, c: string, d: string)
    requires AllSpace(a) && AllSpace(b) && AllSpace(c) && AllSpace(d)
    ensures ContainsKeyword(a + text + b, c + keyword + d) == ContainsKeyword(text, keyword)
  {
    LowerOfConcat(a + text, b);
    LowerOfConcat(a, text);
    LowerOfConcat(c + keyword, d);
    LowerOfConcat(c, keyword);
    LowerOfSpaces(a);
    LowerOfSpaces(b);
    LowerOfSpaces(c);
    LowerOfSpaces(d);
    TrimIgnoresPadding(ToLower(a), ToLower(text), ToLower(b));
    TrimIgnoresPadding(ToLower(c), ToLower(keyword), ToLower(d));
  }

  /** A keyword with a non-whitespace character never matches an empty or
      whitespace-only comment. */
  lemma BlankTextMatchesNoKeyword(text: string, keyword: string)
    requires AllSpace(text) && !AllSpace(keyword)
    ensures !ContainsKeyword(text, keyword)
  {
    LowerOfSpaces(text);
    LowerOfSpaces(keyword);
    TrimEmptyIffAllSpace(ToLower(text));
    TrimEmptyIffAllSpace(ToLower(keyword));
    ContainsKeywordIsWholeWord(text, keyword);
  }

  /** A keyword with whitespace between two non-whitespace characters never
      matches, because no word of a text contains whitespace. */
  lemma InnerSpaceKeywordNeverMatches(text: string, keyword: string, i: int, k: int, j: int)
    requires 0 <= i < k < j < |keyword|
    requires !IsSpace(keyword[i]) && IsSpace(keyword[k]) && !IsSpace(keyword[j])
    ensures !ContainsKeyword(text, keyword)
  {
    var low := ToLower(keyword);
    LowerOfSpaces(keyword);
    TrimRemovesOnlySpace(low);
    var l := SpaceEnd(low, 0);
    var m := SpaceStart(low, l, |low|);
    assert !IsSpace(low[i]) && IsSpace(low[k]) && !IsSpace(low[j]);
    var r := Trim(low);
    assert r[k - l] == low[k];
    SplitFromWordsHaveNoSpace(Trim(ToLower(text)), 0);
  }

  // ---------------------------------------------------------------------------
  // truncateText

  /** The end index that JavaScript's `slice` uses for `end` on a string of
      length `len`: a negative `end` counts from the end, and the result is
      clamped to [0, len]. */
  function SliceEnd(len: nat, end: int): (e: nat)
    ensures e <= len
    ensures 0 <= end <= len ==> e == end
    ensures end > len ==> e == len
    ensures end < 0 ==> e == (if len + end < 0 then 0 else len + end)
  {
    if end < 0 then (if len + end < 0 then 0 else len + end)
    else if end > len then len
    else end
  }

  /** `truncateText`: a text that fits is returned as it is; a longer one is cut
      to `maxLength - 3` characters followed by "...". */
  function TruncateText(text: string, maxLength: int): (r: string)
    ensures |text| <= maxLength ==> r == text
    ensures 3 <= maxLength < |text| ==> |r| == maxLength && r[..maxLength - 3] == text[..maxLength - 3]
    ensures |text| > maxLength ==> |r| >= 3 && r[|r| - 3..] == "..."
    ensures |text| > maxLength ==>
              |r| == SliceEnd(|text|, maxLength - 3) + 3 && r[..|r| - 3] == text[..|r| - 3]
  {
    if |text| <= maxLength then text
    else text[..SliceEnd(|text|, maxLength - 3)] + "..."
  }

  /** With a limit of at least 3 the result always fits, and truncating again
      changes nothing. */
  lemma TruncateTextFits(text: string, maxLength: int)
    requires maxLength >= 3
    ensures |TruncateText(text, maxLength)| <= maxLength
    ensures TruncateText(TruncateText(text, maxLength), maxLength) == TruncateText(text, maxLength)
  {
  }

  /** With a limit below 3 a text longer than the limit comes back longer than
      the limit: `slice` with a negative end keeps characters and "..." is
      added anyway. */
  lemma TruncateTextSmallLimitOverflows(text: string, maxLength: int)
    requires maxLength < 3 && |text| > maxLength
    ensures |TruncateText(text, maxLength)| > maxLength
  {
  }

  /** A limit below 3 gives `slice` a negative end, which counts back from the
      end of the text: "abcdef" with limit 2 keeps all but the last character. */
  lemma TruncateTextNegativeEnd()
    ensures TruncateText("abcdef", 2) == "abcde..."
    ensures TruncateText("abcdef", -10) == "..."
  {
    assert "abcdef"[..5] == "abcde";
  }
}
