/** Clean-up of the text of transcript tokens
    (`clean_transcript_text_preserve_spacing`) and the shaping of one
    transcript line (`format_transcript_line`). */
module SonioxText {
  import opened Common
  import opened Text

  // ---- subsequences and bracket pairs ----

  /** `a` is `b` with some characters deleted (greedy matching is complete). */
  predicate IsSubseq(a: string, b: string)
    decreases |b|
  {
    if a == [] then true
    else if b == [] then false
    else if a[0] == b[0] then IsSubseq(a[1..], b[1..])
    else IsSubseq(a, b[1..])
  }

  lemma {:induction false} SubseqRefl(s: string)
    ensures IsSubseq(s, s)
    decreases |s|
  {
    if s != [] {
      SubseqRefl(s[1..]);
    }
  }

  lemma {:induction false} SubseqSkip(a: string, c: string)
    requires c != [] && IsSubseq(a, c[1..])
    ensures IsSubseq(a, c)
    decreases |c|, 0
  {
    if a != [] && a[0] == c[0] {
      SubseqTail(a, c[1..]);
    }
  }

  lemma {:induction false} SubseqTail(a: string, x: string)
    requires a != [] && IsSubseq(a, x)
    ensures IsSubseq(a[1..], x)
    decreases |x|, 1
  {
    if a[0] == x[0] {
      SubseqSkip(a[1..], x);
    } else {
      SubseqTail(a, x[1..]);
      SubseqSkip(a[1..], x);
    }
  }

  lemma {:induction false} SubseqDrop(a: string, c: string, k: nat)
    requires k <= |c| && IsSubseq(a, c[k..])
    ensures IsSubseq(a, c)
    decreases k
  {
    if k > 0 {
      assert c[k..] == c[1..][k - 1..];
      SubseqDrop(a, c[1..], k - 1);
      SubseqSkip(a, c);
    }
  }

  lemma {:induction false} SubseqTrans(a: string, b: string, c: string)
    requires IsSubseq(a, b) && IsSubseq(b, c)
    ensures IsSubseq(a, c)
    decreases |c|
  {
    if a != [] {
      if b[0] == c[0] {
        if a[0] == b[0] {
          SubseqTrans(a[1..], b[1..], c[1..]);
        } else {
          SubseqTrans(a, b[1..], c[1..]);
        }
      } else {
        SubseqTrans(a, b, c[1..]);
        SubseqSkip(a, c);
      }
    }
  }

  lemma {:induction false} SubseqIn(a: string, b: string, ch: char)
    requires IsSubseq(a, b) && ch in a
    ensures ch in b
    decreases |b|
  {
    if a[0] == b[0] {
      if ch != a[0] {
        SubseqIn(a[1..], b[1..], ch);
      }
    } else {
      SubseqIn(a, b[1..], ch);
    }
  }

  /** Some `open` is followed, later on, by a `close`. */
  predicate HasPair(s: string, open: char, close: char)
    decreases |s|
  {
    s != [] && ((s[0] == open && close in s[1..]) || HasPair(s[1..], open, close))
  }

  /** Deleting characters never creates a pair. */
  lemma {:induction false} HasPairSubseq(a: string, b: string, open: char, close: char)
    requires IsSubseq(a, b) && HasPair(a, open, close)
    ensures HasPair(b, open, close)
    decreases |b|
  {
    if a[0] == b[0] {
      if a[0] == open && close in a[1..] {
        SubseqIn(a[1..], b[1..], close);
      } else {
        HasPairSubseq(a[1..], b[1..], open, close);
      }
    } else {
      HasPairSubseq(a, b[1..], open, close);
    }
  }

  /** A string containing a pattern that starts with `open` and ends with
      `close` has a pair. */
  lemma {:induction false} ContainsPair(s: string, m: string, open: char, close: char)
    requires Contains(s, m) && |m| >= 2 && m[0] == open && m[|m| - 1] == close
    ensures HasPair(s, open, close)
    decreases |s|
  {
    if StartsWith(s, m) {
      assert s[1..][|m| - 2] == close;
    } else {
      ContainsPair(s[1..], m, open, close);
    }
  }

  // ---- `str::replace(pattern, "")` ----

  /** Deletes the occurrences of `pat` found scanning left to right, without
      overlap and without rescanning what the deletion joins together. */
  function Remove(s: string, pat: string): (r: string)
    requires pat != []
    decreases |s|
  {
    if |s| < |pat| then s
    else if s[..|pat|] == pat then Remove(s[|pat|..], pat)
    else [s[0]] + Remove(s[1..], pat)
  }

  lemma {:induction false} RemoveSubseq(s: string, pat: string)
    requires pat != []
    ensures IsSubseq(Remove(s, pat), s)
    decreases |s|
  {
    if |s| < |pat| {
      SubseqRefl(s);
    } else if s[..|pat|] == pat {
      RemoveSubseq(s[|pat|..], pat);
      SubseqDrop(Remove(s, pat), s, |pat|);
    } else {
      RemoveSubseq(s[1..], pat);
      var r := Remove(s, pat);
      assert r[0] == s[0] && r[1..] == Remove(s[1..], pat);
    }
  }

  /** A string that does not contain the pattern is left alone. */
  lemma {:induction false} RemoveAbsent(s: string, pat: string)
    requires pat != [] && !Contains(s, pat)
    ensures Remove(s, pat) == s
    decreases |s|
  {
    if |s| >= |pat| {
      RemoveAbsent(s[1..], pat);
      assert [s[0]] + s[1..] == s;
    }
  }

  // ---- `Regex::replace_all` for `<[^>]*>` and `\[[^\]]*\]` ----

  /** What follows the first `close` of `s`. */
  function SkipPast(s: string, close: char): (r: string)
    requires close in s
    ensures |r| < |s| && r == s[|s| - |r|..]
    decreases |s|
  {
    if s[0] == close then s[1..] else SkipPast(s[1..], close)
  }

  /** Deletes every leftmost match of `open [^close]* close`: an `open` with a
      `close` somewhere after it goes, together with everything up to the
      first such `close`; any other character stays. */
  function RemoveSpans(s: string, open: char, close: char): (r: string)
    decreases |s|
  {
    if s == [] then []
    else if s[0] == open && close in s[1..] then RemoveSpans(SkipPast(s[1..], close), open, close)
    else [s[0]] + RemoveSpans(s[1..], open, close)
  }

  lemma {:induction false} RemoveSpansSubseq(s: string, open: char, close: char)
    ensures IsSubseq(RemoveSpans(s, open, close), s)
    decreases |s|
  {
    if s != [] {
      if s[0] == open && close in s[1..] {
        var rest := SkipPast(s[1..], close);
        RemoveSpansSubseq(rest, open, close);
        assert rest == s[|s| - |rest|..];
        SubseqDrop(RemoveSpans(s, open, close), s, |s| - |rest|);
      } else {
        RemoveSpansSubseq(s[1..], open, close);
        var r := RemoveSpans(s, open, close);
        assert r[0] == s[0] && r[1..] == RemoveSpans(s[1..], open, close);
      }
    }
  }

  /** No span survives: no `open` is followed by a `close` afterwards. */
  lemma {:induction false} RemoveSpansNoPair(s: string, open: char, close: char)
    ensures !HasPair(RemoveSpans(s, open, close), open, close)
    decreases |s|
  {
    if s != [] {
      if s[0] == open && close in s[1..] {
        RemoveSpansNoPair(SkipPast(s[1..], close), open, close);
      } else {
        RemoveSpansNoPair(s[1..], open, close);
        RemoveSpansSubseq(s[1..], open, close);
        var r := RemoveSpans(s, open, close);
        assert r[1..] == RemoveSpans(s[1..], open, close);
        if s[0] == open && close in r[1..] {
          SubseqIn(r[1..], s[1..], close);
        }
      }
    }
  }

  /** Text without a span is unchanged. */
  lemma {:induction false} RemoveSpansNoSpan(s: string, open: char, close: char)
    requires !HasPair(s, open, close)
    ensures RemoveSpans(s, open, close) == s
    decreases |s|
  {
    if s != [] {
      RemoveSpansNoSpan(s[1..], open, close);
      assert [s[0]] + s[1..] == s;
    }
  }

  // ---- the clean-up itself ----

  /** The literal markers deleted first, in the order they are deleted. */
  const Markers: seq<string> :=
    ["<END>", "<UNK>", "<SIL>", "<NOISE>", "</s>", "<s>", "[NOISE]", "[SILENCE]", "[UNKNOWN]"]

  /** Each marker is a `<…>` or a `[…]` tag. */
  predicate IsTag(m: string) {
    |m| >= 2 && ((m[0] == '<' && m[|m| - 1] == '>') || (m[0] == '[' && m[|m| - 1] == ']'))
  }

  function RemoveEach(s: string, ms: seq<string>): (r: string)
    requires forall i :: 0 <= i < |ms| ==> ms[i] != []
    decreases |ms|
  {
    if ms == [] then s else RemoveEach(Remove(s, ms[0]), ms[1..])
  }

  lemma {:induction false} RemoveEachSubseq(s: string, ms: seq<string>)
    requires forall i :: 0 <= i < |ms| ==> ms[i] != []
    ensures IsSubseq(RemoveEach(s, ms), s)
    decreases |ms|
  {
    if ms != [] {
      RemoveSubseq(s, ms[0]);
      var rest := RemoveEach(Remove(s, ms[0]), ms[1..]);
      assert RemoveEach(s, ms) == rest;
      RemoveEachSubseq(Remove(s, ms[0]), ms[1..]);
      SubseqTrans(rest, Remove(s, ms[0]), s);
    } else {
      SubseqRefl(s);
    }
  }

  lemma {:induction false} RemoveEachNoTag(s: string, ms: seq<string>)
    requires forall i :: 0 <= i < |ms| ==> IsTag(ms[i])
    requires !HasPair(s, '<', '>') && !HasPair(s, '[', ']')
    requires forall i :: 0 <= i < |ms| ==> ms[i] != []
    ensures RemoveEach(s, ms) == s
    decreases |ms|
  {
    if ms != [] {
      NoPairNoTag(s, ms[0]);
      RemoveAbsent(s, ms[0]);
      RemoveEachNoTag(s, ms[1..]);
    }
  }

  /** Text without a `<…>` or `[…]` pair contains no tag. */
  lemma NoPairNoTag(s: string, m: string)
    requires IsTag(m) && !HasPair(s, '<', '>') && !HasPair(s, '[', ']')
    ensures !Contains(s, m)
  {
    if Contains(s, m) {
      if m[0] == '<' {
        ContainsPair(s, m, '<', '>');
      } else {
        ContainsPair(s, m, '[', ']');
      }
    }
  }

  lemma MarkersAreTags()
    ensures forall i :: 0 <= i < |Markers| ==> IsTag(Markers[i])
  {
  }

  /** `clean_transcript_text_preserve_spacing`. */
  function Clean(s: string): (r: string) {
    var unmarked := RemoveEach(s, Markers);
    RemoveSpans(RemoveSpans(unmarked, '<', '>'), '[', ']')
  }

  /** Cleaning only deletes characters: the spacing and the order of what
      remains are those of the input. */
  lemma CleanSubseq(s: string)
    ensures IsSubseq(Clean(s), s)
  {
    MarkersAreTags();
    var unmarked := RemoveEach(s, Markers);
    var angled := RemoveSpans(unmarked, '<', '>');
    RemoveEachSubseq(s, Markers);
    RemoveSpansSubseq(unmarked, '<', '>');
    RemoveSpansSubseq(angled, '[', ']');
    SubseqTrans(angled, unmarked, s);
    SubseqTrans(Clean(s), angled, s);
  }

  /** No `<…>` tag and no `[…]` tag is left behind. */
  lemma CleanNoTags(s: string)
    ensures !HasPair(Clean(s), '<', '>') && !HasPair(Clean(s), '[', ']')
  {
    var angled := RemoveSpans(RemoveEach(s, Markers), '<', '>');
    RemoveSpansNoPair(RemoveEach(s, Markers), '<', '>');
    RemoveSpansNoPair(angled, '[', ']');
    RemoveSpansSubseq(angled, '[', ']');
    if HasPair(Clean(s), '<', '>') {
      HasPairSubseq(Clean(s), angled, '<', '>');
    }
  }

  /** In particular none of the markers is left. */
  lemma CleanNoMarkers(s: string)
    ensures forall i :: 0 <= i < |Markers| ==> !Contains(Clean(s), Markers[i])
  {
    var c := Clean(s);
    CleanNoTags(s);
    MarkersAreTags();
    forall i | 0 <= i < |Markers|
      ensures !Contains(c, Markers[i])
    {
      NoPairNoTag(c, Markers[i]);
    }
  }

  /** Text without tags comes out unchanged. */
  lemma CleanUntagged(s: string)
    requires !HasPair(s, '<', '>') && !HasPair(s, '[', ']')
    ensures Clean(s) == s
  {
    MarkersAreTags();
    RemoveEachNoTag(s, Markers);
    RemoveSpansNoSpan(s, '<', '>');
    RemoveSpansNoSpan(s, '[', ']');
  }

  // ---- `format_transcript_line` ----

  predicate IsLowerAscii(c: char) {
    'a' <= c <= 'z'
  }

  /** `char::to_uppercase` on ASCII letters. */
  function UpperAscii(c: char): (u: char)
    ensures IsLowerAscii(c) ==> 'A' <= u <= 'Z'
    ensures !IsLowerAscii(c) ==> u == c
  {
    if IsLowerAscii(c) then (c as int - 32) as char else c
  }

  /** The characters a line may already end with. */
  predicate IsEndPunct(c: char) {
    c == '.' || c == '!' || c == '?' || c == ':' || c == ';' || c == ','
  }

  /** Trimmed, first letter capitalised, and a full stop unless the line
      already ends in punctuation; blank text gives the empty line. */
  function FormatLine(text: string): (r: string)
    ensures r == [] <==> Trim(text) == []
    ensures r != [] ==> IsEndPunct(r[|r| - 1])
  {
    Punctuate(Trim(text))
  }

  /** The trimmed text with its first character capitalised and a full stop
      unless it already ends in punctuation. */
  function Punctuate(t: string): (r: string)
    ensures r == [] <==> t == []
    ensures r != [] ==> IsEndPunct(r[|r| - 1])
  {
    if t == [] then []
    else
      var c := [UpperAscii(t[0])] + t[1..];
      if IsEndPunct(c[|c| - 1]) then c else c + ['.']
  }

  /** The line is the trimmed text with its first character capitalised,
      followed by a full stop exactly when the text does not already end in
      punctuation. */
  lemma FormatLineShape(text: string)
    requires Trim(text) != []
    ensures var t, r := Trim(text), FormatLine(text);
      && r[0] == UpperAscii(t[0])
      && r[1..|t|] == t[1..]
      && (|r| == |t| <==> IsEndPunct(r[|t| - 1]))
      && (|r| == |t| + 1 ==> r[|t|] == '.')
      && |t| <= |r| <= |t| + 1
  {
    PunctuateShape(Trim(text));
  }

  lemma PunctuateShape(t: string)
    requires t != []
    ensures var r := Punctuate(t);
      && r[0] == UpperAscii(t[0])
      && r[1..|t|] == t[1..]
      && (|r| == |t| <==> IsEndPunct(r[|t| - 1]))
      && (|r| == |t| + 1 ==> r[|t|] == '.')
      && |t| <= |r| <= |t| + 1
  {
    var c := [UpperAscii(t[0])] + t[1..];
    assert c[1..|t|] == t[1..];
    if !IsEndPunct(c[|c| - 1]) {
      var r := c + ['.'];
      assert r[1..|t|] == t[1..];
    }
  }

  /** Blank text, and only blank text, formats to the empty line. */
  lemma FormatLineBlank(text: string)
    ensures FormatLine(text) == [] <==> IsBlank(text)
  {
    BlankIffTrimEmpty(text);
  }

  lemma TrimNoop(s: string)
    requires s != [] && !IsWhitespace(s[0]) && !IsWhitespace(s[|s| - 1])
    ensures Trim(s) == s
  {
  }

  /** Formatting a formatted line changes nothing. */
  lemma FormatLineIdempotent(text: string)
    ensures FormatLine(FormatLine(text)) == FormatLine(text)
  {
    var r := FormatLine(text);
    if r != [] {
      FormatLineShape(text);
      FormatLineFixed(r);
    }
  }

  /** A line that is trimmed, starts with no lower-case letter and ends in
      punctuation is its own format. */
  lemma FormatLineFixed(r: string)
    requires r != [] && !IsWhitespace(r[0]) && !IsLowerAscii(r[0])
    requires IsEndPunct(r[|r| - 1])
    ensures FormatLine(r) == r
  {
    TrimNoop(r);
    var c := [UpperAscii(r[0])] + r[1..];
    assert c == r;
  }
}
