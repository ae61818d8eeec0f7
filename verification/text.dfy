/** The string operations the pipeline relies on: substring search, splitting
    on a separator and joining back, Python's whitespace split, JavaScript's
    trim, and character removal. Strings are sequences of Unicode scalar
    values. */
module Text {

  /** Whitespace for Python's `str.split()` without argument (`str.isspace`):
      U+0009..U+000D, U+001C..U+001F, space, U+0085, U+00A0, U+1680,
      U+2000..U+200A, U+2028, U+2029, U+202F, U+205F and U+3000. */
  predicate IsPySpace(c: char) {
    var n := c as int;
    || (0x09 <= n <= 0x0D) || (0x1C <= n <= 0x20) || n == 0x85 || n == 0xA0
    || n == 0x1680 || (0x2000 <= n <= 0x200A) || n == 0x2028 || n == 0x2029
    || n == 0x202F || n == 0x205F || n == 0x3000
  }

  /** Whitespace for JavaScript's `String.prototype.trim` (WhiteSpace and
      LineTerminator): U+0009..U+000D, space, U+00A0, U+1680,
      U+2000..U+200A, U+2028, U+2029, U+202F, U+205F, U+3000 and U+FEFF. */
  predicate IsJsSpace(c: char) {
    var n := c as int;
    || (0x09 <= n <= 0x0D) || n == 0x20 || n == 0xA0
    || n == 0x1680 || (0x2000 <= n <= 0x200A) || n == 0x2028 || n == 0x2029
    || n == 0x202F || n == 0x205F || n == 0x3000 || n == 0xFEFF
  }

  /** `pat` occurs in `s` starting at index `i`. */
  predicate OccursAt(s: string, pat: string, i: int) {
    0 <= i && i + |pat| <= |s| && s[i..i + |pat|] == pat
  }

  /** `pat in s` for Python strings: `pat` occurs as a contiguous slice. */
  predicate Contains(s: string, pat: string) {
    exists i :: 0 <= i <= |s| - |pat| && OccursAt(s, pat, i)
  }

  // ---------------------------------------------------------------------
  // Splitting on a one-character separator and joining

  /** `s.split(sep)` with a one-character separator; Python and JavaScript
      agree here. There is always at least one part, and the empty string
      gives `[""]`. */
  function Split(s: string, sep: char): (parts: seq<string>)
    ensures |parts| >= 1
    ensures forall k :: 0 <= k < |parts| ==> sep !in parts[k]
    decreases |s|
  {
    if |s| == 0 then [""]
    else
      var rest := Split(s[1..], sep);
      if s[0] == sep then [""] + rest
      else [[s[0]] + rest[0]] + rest[1..]
  }

  /** There is one more part than there are separators in `s`. */
  lemma {:induction false} SplitCount(s: string, sep: char)
    ensures |Split(s, sep)| == multiset(s)[sep] + 1
    decreases |s|
  {
    if |s| > 0 {
      SplitCount(s[1..], sep);
      assert s == [s[0]] + s[1..];
    }
  }

  /** `sep.join(parts)` / `parts.join(sep)`. */
  function Join(parts: seq<string>, sep: char): string
    decreases |parts|
  {
    if |parts| == 0 then ""
    else if |parts| == 1 then parts[0]
    else parts[0] + [sep] + Join(parts[1..], sep)
  }

  /** Joining a first part onto a non-empty rest inserts one separator. */
  lemma JoinCons(p: string, rest: seq<string>, sep: char)
    requires |rest| >= 1
    ensures Join([p] + rest, sep) == p + [sep] + Join(rest, sep)
  {
    assert ([p] + rest)[1..] == rest;
  }

  /** Joining the parts of a split restores the original string. */
  lemma {:induction false} JoinSplit(s: string, sep: char)
    ensures Join(Split(s, sep), sep) == s
    decreases |s|
  {
    if |s| > 0 {
      var rest := Split(s[1..], sep);
      JoinSplit(s[1..], sep);
      assert s == [s[0]] + s[1..];
      if s[0] == sep {
        assert Split(s, sep) == [""] + rest;
        JoinCons("", rest, sep);
      } else {
        var first := [s[0]] + rest[0];
        assert Split(s, sep) == [first] + rest[1..];
        if |rest| == 1 {
          assert Join(rest, sep) == rest[0];
          assert [first] + rest[1..] == [first];
        } else {
          JoinCons(first, rest[1..], sep);
          JoinCons(rest[0], rest[1..], sep);
          assert [rest[0]] + rest[1..] == rest;
        }
      }
    }
  }

  /** A string without the separator splits into itself alone. */
  lemma {:induction false} SplitWithoutSeparator(p: string, sep: char)
    requires sep !in p
    ensures Split(p, sep) == [p]
    decreases |p|
  {
    if |p| > 0 {
      SplitWithoutSeparator(p[1..], sep);
      assert [p[0]] + p[1..] == p;
    }
  }

  /** A separator-free prefix followed by the separator becomes the first part. */
  lemma {:induction false} SplitAfterFirstPart(p: string, sep: char, rest: string)
    requires sep !in p
    ensures Split(p + [sep] + rest, sep) == [p] + Split(rest, sep)
    decreases |p|
  {
    var s := p + [sep] + rest;
    if |p| == 0 {
      assert s[1..] == rest;
    } else {
      assert s[1..] == p[1..] + [sep] + rest;
      SplitAfterFirstPart(p[1..], sep, rest);
      assert [p[0]] + p[1..] == p;
    }
  }

  /** Splitting the join of separator-free parts gives the parts back. */
  lemma {:induction false} SplitJoin(parts: seq<string>, sep: char)
    requires |parts| >= 1
    requires forall k :: 0 <= k < |parts| ==> sep !in parts[k]
    ensures Split(Join(parts, sep), sep) == parts
    decreases |parts|
  {
    if |parts| == 1 {
      SplitWithoutSeparator(parts[0], sep);
    } else {
      SplitAfterFirstPart(parts[0], sep, Join(parts[1..], sep));
      SplitJoin(parts[1..], sep);
      assert [parts[0]] + parts[1..] == parts;
    }
  }

  /** An occurrence of a separator-free pattern in a join lies inside one part. */
  lemma {:induction false} ContainsInSomePart(parts: seq<string>, sep: char, pat: string)
    requires |parts| >= 1
    requires sep !in pat
    requires Contains(Join(parts, sep), pat)
    ensures exists k :: 0 <= k < |parts| && Contains(parts[k], pat)
    decreases |parts|
  {
    if |parts| > 1 {
      var head := parts[0];
      var tail := Join(parts[1..], sep);
      var s := Join(parts, sep);
      assert s == head + [sep] + tail;
      var i :| 0 <= i <= |s| - |pat| && OccursAt(s, pat, i);
      assert |s| == |head| + 1 + |tail|;
      assert s[i..i + |pat|] == pat;
      assert s[|head|] == sep;
      if i + |pat| <= |head| {
        assert head[i..i + |pat|] == s[i..i + |pat|];
        assert OccursAt(parts[0], pat, i);
      } else {
        assert i > |head|;
        var j := i - |head| - 1;
        assert tail[j..j + |pat|] == s[i..i + |pat|];
        assert OccursAt(tail, pat, j);
        ContainsInSomePart(parts[1..], sep, pat);
        var k :| 0 <= k < |parts[1..]| && Contains(parts[1..][k], pat);
        assert Contains(parts[k + 1], pat);
      }
    }
  }

  /** If a separator-free pattern occurs in `s`, it occurs in one of the
      parts of `s.split(sep)`: the split never cuts an occurrence in two. */
  lemma SplitKeepsOccurrence(s: string, sep: char, pat: string)
    requires sep !in pat
    requires Contains(s, pat)
    ensures exists k :: 0 <= k < |Split(s, sep)| && Contains(Split(s, sep)[k], pat)
  {
    JoinSplit(s, sep);
    ContainsInSomePart(Split(s, sep), sep, pat);
  }

  // ---------------------------------------------------------------------
  // Python's whitespace split

  /** A non-empty run of non-whitespace characters. */
  predicate IsWord(w: string) {
    |w| > 0 && forall k :: 0 <= k < |w| ==> !IsPySpace(w[k])
  }

  /** Length of the leading run of non-whitespace characters of `s`. */
  function WordLength(s: string): (n: nat)
    ensures n <= |s|
    ensures forall k :: 0 <= k < n ==> !IsPySpace(s[k])
    ensures n < |s| ==> IsPySpace(s[n])
    decreases |s|
  {
    if |s| == 0 || IsPySpace(s[0]) then 0 else 1 + WordLength(s[1..])
  }

  /** `s.split()` in Python: the maximal runs of non-whitespace, in order;
      leading, trailing and repeated whitespace produce no empty words. */
  function Words(s: string): (ws: seq<string>)
    ensures forall k :: 0 <= k < |ws| ==> IsWord(ws[k])
    decreases |s|
  {
    if |s| == 0 then []
    else if IsPySpace(s[0]) then Words(s[1..])
    else
      var n := WordLength(s);
      [s[..n]] + Words(s[n..])
  }

  /** A word followed by nothing or by whitespace is exactly one run. */
  lemma {:induction false} WordLengthOfWord(w: string, rest: string)
    requires IsWord(w)
    requires |rest| == 0 || IsPySpace(rest[0])
    ensures WordLength(w + rest) == |w|
    decreases |w|
  {
    if |w| > 1 {
      assert (w + rest)[1..] == w[1..] + rest;
      WordLengthOfWord(w[1..], rest);
    } else {
      assert (w + rest)[1..] == rest;
    }
  }

  /** Splitting words joined by single spaces gives the words back. */
  lemma {:induction false} WordsOfJoin(ws: seq<string>)
    requires forall k :: 0 <= k < |ws| ==> IsWord(ws[k])
    ensures Words(Join(ws, ' ')) == ws
    decreases |ws|
  {
    if |ws| == 1 {
      WordLengthOfWord(ws[0], "");
      assert ws[0][..|ws[0]|] == ws[0];
      assert ws[0][|ws[0]|..] == "";
    } else if |ws| > 1 {
      var tail := Join(ws[1..], ' ');
      var s := Join(ws, ' ');
      assert s == ws[0] + ([' '] + tail);
      WordLengthOfWord(ws[0], [' '] + tail);
      assert s[..|ws[0]|] == ws[0];
      assert s[|ws[0]|..] == [' '] + tail;
      assert ([' '] + tail)[1..] == tail;
      WordsOfJoin(ws[1..]);
      assert [ws[0]] + ws[1..] == ws;
    }
  }

  /** A run of whitespace characters, possibly empty. */
  predicate AllPySpace(s: string) {
    forall k :: 0 <= k < |s| ==> IsPySpace(s[k])
  }

  /** `gaps[0] + ws[0] + gaps[1] + ... + ws[n - 1] + gaps[n]`: words with
      the text around and between them. */
  function Interleave(gaps: seq<string>, ws: seq<string>): string
    requires |gaps| == |ws| + 1
    decreases |ws|
  {
    if |ws| == 0 then gaps[0] else gaps[0] + ws[0] + Interleave(gaps[1..], ws[1..])
  }

  /** Leading whitespace contributes no word. */
  lemma {:induction false} WordsAfterSpace(g: string, s: string)
    requires AllPySpace(g)
    ensures Words(g + s) == Words(s)
    decreases |g|
  {
    if |g| == 0 {
      assert g + s == s;
    } else {
      assert (g + s)[0] == g[0];
      assert (g + s)[1..] == g[1..] + s;
      WordsAfterSpace(g[1..], s);
    }
  }

  /** A word followed by nothing or by whitespace is the first word. */
  lemma WordsOfWordThen(w: string, rest: string)
    requires IsWord(w)
    requires |rest| == 0 || IsPySpace(rest[0])
    ensures Words(w + rest) == [w] + Words(rest)
  {
    WordLengthOfWord(w, rest);
    assert (w + rest)[..|w|] == w;
    assert (w + rest)[|w|..] == rest;
  }

  /** Splitting words separated by any non-empty whitespace, with any
      whitespace (or none) before the first and after the last, gives the
      words back. */
  lemma {:induction false} WordsOfInterleave(gaps: seq<string>, ws: seq<string>)
    requires |gaps| == |ws| + 1
    requires forall k :: 0 <= k < |gaps| ==> AllPySpace(gaps[k])
    requires forall k :: 0 < k < |ws| ==> |gaps[k]| > 0
    requires forall k :: 0 <= k < |ws| ==> IsWord(ws[k])
    ensures Words(Interleave(gaps, ws)) == ws
    decreases |ws|
  {
    if |ws| == 0 {
      WordsAfterSpace(gaps[0], "");
      assert gaps[0] + "" == gaps[0];
    } else {
      var rest := Interleave(gaps[1..], ws[1..]);
      assert Interleave(gaps, ws) == gaps[0] + (ws[0] + rest);
      WordsAfterSpace(gaps[0], ws[0] + rest);
      if |ws| == 1 {
        assert rest == gaps[1];
      } else {
        assert rest == gaps[1] + ws[1] + Interleave(gaps[2..], ws[2..]);
        assert rest[0] == gaps[1][0];
      }
      WordsOfWordThen(ws[0], rest);
      WordsOfInterleave(gaps[1..], ws[1..]);
      assert [ws[0]] + ws[1..] == ws;
    }
  }

  /** Text put in front of the first gap goes in front of the whole. */
  lemma InterleavePrefix(p: string, gaps: seq<string>, ws: seq<string>)
    requires |gaps| == |ws| + 1
    ensures Interleave([p + gaps[0]] + gaps[1..], ws) == p + Interleave(gaps, ws)
  {
    var g := [p + gaps[0]] + gaps[1..];
    assert g[0] == p + gaps[0];
    if |ws| > 0 {
      assert g[1..] == gaps[1..];
    }
  }

  /** Gaps for the words of a text, as WordsWithGaps promises them. */
  predicate GapsOf(s: string, gaps: seq<string>) {
    && |gaps| == |Words(s)| + 1
    && (forall k :: 0 <= k < |gaps| ==> AllPySpace(gaps[k]))
    && (forall k :: 0 < k < |Words(s)| ==> |gaps[k]| > 0)
    && Interleave(gaps, Words(s)) == s
    && (|s| > 0 && IsPySpace(s[0]) ==> |gaps[0]| > 0)
  }

  /** A leading whitespace character joins the first gap. */
  lemma GapsAfterSpace(s: string, g: seq<string>)
    requires |s| > 0 && IsPySpace(s[0])
    requires GapsOf(s[1..], g)
    ensures GapsOf(s, [[s[0]] + g[0]] + g[1..])
  {
    var gaps := [[s[0]] + g[0]] + g[1..];
    assert gaps[0] == [s[0]] + g[0];
    assert forall k :: 0 < k < |gaps| ==> gaps[k] == g[k];
    InterleavePrefix([s[0]], g, Words(s[1..]));
    assert [s[0]] + s[1..] == s;
  }

  /** The words of a text that starts with a word. */
  lemma WordsOfLeadingWord(s: string)
    requires |s| > 0 && !IsPySpace(s[0])
    ensures Words(s) == [s[..WordLength(s)]] + Words(s[WordLength(s)..])
  {
  }

  /** A word in front of interleaved text, with an empty first gap. */
  lemma InterleaveWord(w: string, gaps: seq<string>, ws: seq<string>)
    requires |gaps| == |ws| + 1
    ensures Interleave([""] + gaps, [w] + ws) == w + Interleave(gaps, ws)
  {
    assert ([w] + ws)[0] == w && ([w] + ws)[1..] == ws;
    assert ([""] + gaps)[0] == "" && ([""] + gaps)[1..] == gaps;
    assert "" + w == w;
  }

  /** A leading word and an empty first gap rebuild the text. */
  lemma GapsAfterWordRebuild(s: string, g: seq<string>)
    requires |s| > 0 && !IsPySpace(s[0])
    requires |g| == |Words(s[WordLength(s)..])| + 1
    requires Interleave(g, Words(s[WordLength(s)..])) == s[WordLength(s)..]
    ensures |[""] + g| == |Words(s)| + 1
    ensures Interleave([""] + g, Words(s)) == s
  {
    var n := WordLength(s);
    var w, rest := s[..n], s[n..];
    var wr := Words(rest);
    WordsOfLeadingWord(s);
    assert Words(s) == [w] + wr;
    calc {
      Interleave([""] + g, Words(s));
      Interleave([""] + g, [w] + wr);
      { InterleaveWord(w, g, wr); }
      w + Interleave(g, wr);
      w + rest;
      { assert w + rest == s; }
      s;
    }
  }

  /** After a leading word the inner gaps stay non-empty: the first of them
      starts at the whitespace that ends the word. */
  lemma GapsAfterWordInner(s: string, g: seq<string>)
    requires |s| > 0 && !IsPySpace(s[0])
    requires GapsOf(s[WordLength(s)..], g)
    ensures forall k :: 0 < k < |Words(s)| ==> |([""] + g)[k]| > 0
  {
    var rest := s[WordLength(s)..];
    var gaps := [""] + g;
    WordsOfLeadingWord(s);
    forall k | 0 < k < |Words(rest)| + 1
      ensures |gaps[k]| > 0
    {
      assert gaps[k] == g[k - 1];
      if k == 1 {
        assert |rest| > 0 && IsPySpace(rest[0]);
      }
    }
  }

  /** Adding an empty gap keeps every gap whitespace. */
  lemma GapsAfterWordSpace(g: seq<string>)
    requires forall k :: 0 <= k < |g| ==> AllPySpace(g[k])
    ensures forall k :: 0 <= k < |[""] + g| ==> AllPySpace(([""] + g)[k])
  {
    var gaps := [""] + g;
    forall k | 0 <= k < |gaps|
      ensures AllPySpace(gaps[k])
    {
      if k > 0 {
        assert gaps[k] == g[k - 1];
      }
    }
  }

  /** A leading word comes with an empty first gap. */
  lemma GapsAfterWord(s: string, g: seq<string>)
    requires |s| > 0 && !IsPySpace(s[0])
    requires GapsOf(s[WordLength(s)..], g)
    ensures GapsOf(s, [""] + g)
  {
    GapsAfterWordRebuild(s, g);
    GapsAfterWordInner(s, g);
    GapsAfterWordSpace(g);
  }

  /** Every text is its words with whitespace gaps around and between them,
      the inner gaps non-empty: together with WordsOfInterleave this says
      that the words are exactly the maximal runs of non-whitespace. */
  lemma {:induction false} WordsWithGaps(s: string) returns (gaps: seq<string>)
    ensures |gaps| == |Words(s)| + 1
    ensures forall k :: 0 <= k < |gaps| ==> AllPySpace(gaps[k])
    ensures forall k :: 0 < k < |Words(s)| ==> |gaps[k]| > 0
    ensures Interleave(gaps, Words(s)) == s
    decreases |s|
  {
    gaps := GapsFor(s);
  }

  /** The induction behind WordsWithGaps. */
  lemma {:induction false} GapsFor(s: string) returns (gaps: seq<string>)
    ensures GapsOf(s, gaps)
    decreases |s|
  {
    if |s| == 0 {
      gaps := [""];
    } else if IsPySpace(s[0]) {
      var g := GapsFor(s[1..]);
      GapsAfterSpace(s, g);
      gaps := [[s[0]] + g[0]] + g[1..];
    } else {
      var g := GapsFor(s[WordLength(s)..]);
      GapsAfterWord(s, g);
      gaps := [""] + g;
    }
  }

  /** `s` with every whitespace character removed. */
  function Squeeze(s: string): (r: string)
    decreases |s|
  {
    if |s| == 0 then ""
    else if IsPySpace(s[0]) then Squeeze(s[1..])
    else [s[0]] + Squeeze(s[1..])
  }

  /** Squeeze distributes over concatenation. */
  lemma {:induction false} SqueezeAppend(a: string, b: string)
    ensures Squeeze(a + b) == Squeeze(a) + Squeeze(b)
    decreases |a|
  {
    if |a| == 0 {
      assert a + b == b;
    } else {
      assert (a + b)[0] == a[0];
      assert (a + b)[1..] == a[1..] + b;
      SqueezeAppend(a[1..], b);
    }
  }

  /** A word is left untouched by Squeeze. */
  lemma {:induction false} SqueezeWord(w: string)
    requires forall k :: 0 <= k < |w| ==> !IsPySpace(w[k])
    ensures Squeeze(w) == w
    decreases |w|
  {
    if |w| > 0 {
      SqueezeWord(w[1..]);
      assert [w[0]] + w[1..] == w;
    }
  }

  /** The concatenation of a sequence of strings. */
  function Concat(ws: seq<string>): string
    decreases |ws|
  {
    if |ws| == 0 then "" else ws[0] + Concat(ws[1..])
  }

  /** The words of `s` are all of its non-whitespace characters, in order:
      no character is lost and none is duplicated. */
  lemma {:induction false} WordsCoverNonSpace(s: string)
    ensures Concat(Words(s)) == Squeeze(s)
    decreases |s|
  {
    if |s| > 0 {
      if IsPySpace(s[0]) {
        WordsCoverNonSpace(s[1..]);
      } else {
        var n := WordLength(s);
        var ws := Words(s);
        assert ws == [s[..n]] + Words(s[n..]);
        assert ws[1..] == Words(s[n..]);
        WordsCoverNonSpace(s[n..]);
        SqueezeWord(s[..n]);
        assert s == s[..n] + s[n..];
        SqueezeAppend(s[..n], s[n..]);
      }
    }
  }

  // ---------------------------------------------------------------------
  // JavaScript's trim

  /** Every character of `t` is JavaScript whitespace. */
  predicate AllJsSpace(t: string) {
    forall k :: 0 <= k < |t| ==> IsJsSpace(t[k])
  }

  /** Neither end of `t` is JavaScript whitespace. */
  predicate IsTrimmed(t: string) {
    |t| == 0 || (!IsJsSpace(t[0]) && !IsJsSpace(t[|t| - 1]))
  }

  /** Whitespace at the front of `s` followed by whitespace at the front
      of its tail is whitespace at the front of `s`. */
  lemma SpaceBeforeTail(s: string, cut: int)
    requires 1 <= cut <= |s| && IsJsSpace(s[0])
    requires AllJsSpace(s[1..][..cut - 1])
    ensures AllJsSpace(s[..cut]) && s[1..][cut - 1..] == s[cut..]
  {
    forall k | 1 <= k < cut
      ensures IsJsSpace(s[..cut][k])
    {
      assert s[..cut][k] == s[1..][..cut - 1][k - 1];
    }
  }

  /** The mirror image of SpaceBeforeTail at the back of `s`. */
  lemma SpaceAfterInit(s: string, keep: int)
    requires 0 <= keep < |s| && IsJsSpace(s[|s| - 1])
    requires AllJsSpace(s[..|s| - 1][keep..])
    ensures AllJsSpace(s[keep..]) && s[..|s| - 1][..keep] == s[..keep]
  {
    forall k | 0 <= k < |s| - keep - 1
      ensures IsJsSpace(s[keep..][k])
    {
      assert s[keep..][k] == s[..|s| - 1][keep..][k];
    }
  }

  function TrimStart(s: string): (r: string)
    ensures |r| <= |s| && r == s[|s| - |r|..]
    ensures AllJsSpace(s[..|s| - |r|])
    ensures |r| == 0 || !IsJsSpace(r[0])
    decreases |s|
  {
    if |s| > 0 && IsJsSpace(s[0]) then
      var r := TrimStart(s[1..]);
      SpaceBeforeTail(s, |s| - |r|);
      r
    else s
  }

  function TrimEnd(s: string): (r: string)
    ensures |r| <= |s| && r == s[..|r|]
    ensures AllJsSpace(s[|r|..])
    ensures |r| == 0 || !IsJsSpace(r[|r| - 1])
    decreases |s|
  {
    if |s| > 0 && IsJsSpace(s[|s| - 1]) then
      var r := TrimEnd(s[..|s| - 1]);
      SpaceAfterInit(s, |r|);
      r
    else s
  }

  /** `r` is the slice of `s` at `i` and only whitespace surrounds it. */
  predicate SliceInSpace(s: string, r: string, i: int) {
    0 <= i && i + |r| <= |s| && s[i..i + |r|] == r
    && AllJsSpace(s[..i]) && AllJsSpace(s[i + |r|..])
  }

  /** A prefix of a suffix, each cut off from whitespace, is a slice
      surrounded by whitespace. */
  lemma SliceOfSuffix(s: string, a: string, r: string)
    requires |a| <= |s| && a == s[|s| - |a|..] && AllJsSpace(s[..|s| - |a|])
    requires |r| <= |a| && r == a[..|r|] && AllJsSpace(a[|r|..])
    ensures SliceInSpace(s, r, |s| - |a|)
  {
    var i := |s| - |a|;
    assert s[i..i + |r|] == a[..|r|];
    assert s[i + |r|..] == a[|r|..];
  }

  /** Cutting whitespace off the back of a string that starts with
      non-whitespace leaves a trimmed string. */
  lemma PrefixKeepsEnds(a: string, r: string)
    requires |a| == 0 || !IsJsSpace(a[0])
    requires |r| <= |a| && r == a[..|r|]
    requires |r| == 0 || !IsJsSpace(r[|r| - 1])
    ensures IsTrimmed(r)
  {
    if |r| > 0 {
      assert r[0] == a[0];
    }
  }

  /** `s.trim()`: the slice of `s` left after removing whitespace from both
      ends; it starts and ends with non-whitespace (or is empty). */
  function Trim(s: string): (r: string)
    ensures IsTrimmed(r)
    ensures exists i :: SliceInSpace(s, r, i)
  {
    var a := TrimStart(s);
    var r := TrimEnd(a);
    SliceOfSuffix(s, a, r);
    PrefixKeepsEnds(a, r);
    r
  }

  /** A string that is already trimmed is its own trim. */
  lemma TrimOfTrimmed(t: string)
    requires IsTrimmed(t)
    ensures Trim(t) == t
  {
  }

  /** Trimming twice is trimming once. */
  lemma TrimIdempotent(s: string)
    ensures Trim(Trim(s)) == Trim(s)
  {
    TrimOfTrimmed(Trim(s));
  }

  /** A slice of `s` holds no character that `s` lacks. */
  lemma SliceKeepsAbsence(s: string, r: string, i: int, c: char)
    requires SliceInSpace(s, r, i)
    requires c !in s
    ensures c !in r
  {
    forall k | 0 <= k < |r|
      ensures r[k] != c
    {
      assert r[k] == s[i + k];
    }
  }

  /** Trimming never introduces a character. */
  lemma TrimKeepsAbsence(s: string, c: char)
    requires c !in s
    ensures c !in Trim(s)
  {
    var r := Trim(s);
    var i :| SliceInSpace(s, r, i);
    SliceKeepsAbsence(s, r, i, c);
  }

  // ---------------------------------------------------------------------
  // Character removal

  /** `s.replace(c, '')`: every occurrence of `c` removed, the rest in order. */
  function Without(s: string, c: char): (r: string)
    ensures multiset(r) == multiset(s)[c := 0]
    ensures c !in s ==> r == s
    decreases |s|
  {
    if |s| == 0 then ""
    else
      assert s == [s[0]] + s[1..];
      if s[0] == c then Without(s[1..], c) else [s[0]] + Without(s[1..], c)
  }

  /** Removal works piece by piece: removing from a concatenation is
      removing from each part, so the characters kept stay in order. */
  lemma {:induction false} WithoutAppend(a: string, b: string, c: char)
    ensures Without(a + b, c) == Without(a, c) + Without(b, c)
    decreases |a|
  {
    if |a| == 0 {
      assert a + b == b;
    } else {
      assert (a + b)[0] == a[0];
      assert (a + b)[1..] == a[1..] + b;
      WithoutAppend(a[1..], b, c);
    }
  }
}
