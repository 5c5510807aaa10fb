/** Diarized rendering of the transcript (`render_tokens`): one line per
    speaker, in the order speakers first appear, final tokens before
    non-final ones. */
module SonioxRender {
  import opened Common
  import opened Text
  import opened SonioxText

  /** The `speaker` field of a token: absent, a JSON integer, a JSON string,
      or any other JSON value. */
  datatype SpeakerField = Absent | Number(n: int) | Str(s: string) | OtherValue

  /** The fields of a token that rendering and the session read; `text`,
      `isFinal` and `language` are `None` when absent or of another JSON
      type. */
  datatype Token = Token(text: Option<string>, isFinal: Option<bool>, speaker: SpeakerField, language: Option<string>)

  /** `extract_speaker_id`: an integer that fits an `i64`, or a string that
      parses as an `i64` once trimmed, is the id; anything else gives the
      fallback, and without a fallback 0. */
  function SpeakerId(raw: SpeakerField, fallback: Option<int>): int {
    if raw.Number? && I64Min <= raw.n <= I64Max then raw.n
    else if raw.Str? && ParseI64(Trim(raw.s)).Some? then ParseI64(Trim(raw.s)).value
    else UnwrapOr(fallback, 0)
  }

  /** Ids are `i64` values: whatever the field holds, the id is in range as
      long as the fallback is. */
  lemma SpeakerIdRange(raw: SpeakerField, fallback: Option<int>)
    requires fallback.Some? ==> I64Min <= fallback.value <= I64Max
    ensures I64Min <= SpeakerId(raw, fallback) <= I64Max
  {
  }

  /** An id printed as a string, with surrounding spaces, reads back as the
      same id whatever the fallback. */
  lemma SpeakerIdPrinted(n: int, fallback: Option<int>)
    requires I64Min <= n <= I64Max
    ensures SpeakerId(Str(" " + IntToDecimal(n) + " "), fallback) == n
  {
    PrintedNotBlankAtEnds(n);
    TrimPadded(IntToDecimal(n));
    ParseI64RoundTrip(n);
  }

  /** One space on each side of text that does not start or end with
      whitespace is what `trim` removes. */
  lemma TrimPadded(d: string)
    requires d != [] && !IsWhitespace(d[0]) && !IsWhitespace(d[|d| - 1])
    ensures Trim(" " + d + " ") == d
  {
    var padded := " " + d + " ";
    assert padded[1..] == d + " ";
    assert TrimStart(padded) == d + " ";
    assert (d + " ")[..|d|] == d;
    assert TrimEnd(d + " ") == TrimEnd(d);
    TrimNoop(d);
    assert TrimEnd(d) == d;
  }

  lemma PrintedNotBlankAtEnds(n: int)
    ensures var d := IntToDecimal(n); !IsWhitespace(d[0]) && !IsWhitespace(d[|d| - 1])
  {
    var d := IntToDecimal(n);
    if n < 0 {
      var m: int := -n;
      var digits := NatToDecimal(m);
      assert IsDigit(digits[|digits| - 1]);
      assert d[|d| - 1] == digits[|digits| - 1];
    } else {
      assert IsDigit(d[0]) && IsDigit(d[|d| - 1]);
    }
  }

  // ---- accumulating tokens ----

  /** A token as rendering uses it: its cleaned text (empty without text),
      its speaker field and its language. */
  datatype Entry = Entry(piece: string, speaker: SpeakerField, language: Option<string>)

  function ToEntry(t: Token): Entry {
    Entry(if t.text.Some? then Clean(t.text.value) else "", t.speaker, t.language)
  }

  function Entries(ts: seq<Token>): (es: seq<Entry>)
    ensures |es| == |ts| && forall i :: 0 <= i < |ts| ==> es[i] == ToEntry(ts[i])
  {
    seq(|ts|, i requires 0 <= i < |ts| => ToEntry(ts[i]))
  }

  /** Tokens whose cleaned text is blank are skipped. */
  predicate Kept(e: Entry) {
    !IsBlank(e.piece)
  }

  function LanguageOf(e: Entry): string {
    if e.language.Some? then e.language.value else "?"
  }

  /** The state `render_tokens` builds: speakers in order of appearance, each
      speaker's text and language, and the last speaker of a kept final
      token. */
  datatype Acc = Acc(order: seq<int>, text: map<int, string>, lang: map<int, string>, last: Option<int>)

  function Extend(text: map<int, string>, sp: int, piece: string): map<int, string> {
    text[sp := (if sp in text then text[sp] else "") + piece]
  }

  function Note(order: seq<int>, sp: int): seq<int> {
    if sp in order then order else order + [sp]
  }

  /** One iteration over a final token. */
  function AddFinal(acc: Acc, t: Entry): Acc {
    if !Kept(t) then acc
    else
      var sp := SpeakerId(t.speaker, None);
      Acc(Note(acc.order, sp), Extend(acc.text, sp, t.piece),
          if sp in acc.lang then acc.lang else acc.lang[sp := LanguageOf(t)], Some(sp))
  }

  /** One iteration over a non-final token: its speaker falls back to the last
      final speaker, and it sets no language. */
  function AddNonFinal(acc: Acc, t: Entry): Acc {
    if !Kept(t) then acc
    else
      var sp := SpeakerId(t.speaker, acc.last);
      Acc(Note(acc.order, sp), Extend(acc.text, sp, t.piece), acc.lang, acc.last)
  }

  function Finals(ts: seq<Entry>): Acc {
    if ts == [] then Acc([], map[], map[], None) else AddFinal(Finals(ts[..|ts| - 1]), ts[|ts| - 1])
  }

  function NonFinals(acc: Acc, ts: seq<Entry>): Acc {
    if ts == [] then acc else AddNonFinal(NonFinals(acc, ts[..|ts| - 1]), ts[|ts| - 1])
  }

  function Collect(finals: seq<Entry>, nonFinals: seq<Entry>): Acc {
    NonFinals(Finals(finals), nonFinals)
  }

  // ---- rendering ----

  const Rule: string := "==============================="

  function Label(sp: int): string {
    if sp > 0 then "Speaker " + IntToDecimal(sp) + ":" else "Speaker:"
  }

  /** A positive speaker is named by its number, which reads back as the
      speaker; every other speaker gets the bare label. */
  lemma LabelNames(sp: int)
    requires sp <= I64Max
    ensures sp <= 0 ==> Label(sp) == "Speaker:"
    ensures sp > 0 ==>
      var l := Label(sp);
      && |l| > 9 && l[..8] == "Speaker " && l[|l| - 1] == ':'
      && ParseI64(l[8..|l| - 1]) == Some(sp)
  {
    if sp > 0 {
      var l := Label(sp);
      ParseI64RoundTrip(sp);
      assert l[8..|l| - 1] == IntToDecimal(sp);
    }
  }

  function Line(acc: Acc, sp: int): (line: string)
    requires sp in acc.text
    ensures line != []
  {
    Label(sp) + " [" + (if sp in acc.lang then acc.lang[sp] else "?") + "] " + FormatLine(acc.text[sp])
  }

  /** The lines of the speakers in `order` whose text formats to something. */
  function Lines(acc: Acc, order: seq<int>): (lines: seq<string>)
    ensures forall i :: 0 <= i < |lines| ==> lines[i] != []
  {
    if order == [] then []
    else
      var sp := order[|order| - 1];
      var init := Lines(acc, order[..|order| - 1]);
      if sp in acc.text && FormatLine(acc.text[sp]) != [] then init + [Line(acc, sp)] else init
  }

  function Join(lines: seq<string>): string {
    if lines == [] then ""
    else if |lines| == 1 then lines[0]
    else Join(lines[..|lines| - 1]) + "\n" + lines[|lines| - 1]
  }

  /** `render_tokens`. */
  function Render(finals: seq<Token>, nonFinals: seq<Token>): string {
    RenderEntries(Entries(finals), Entries(nonFinals))
  }

  function RenderEntries(finals: seq<Entry>, nonFinals: seq<Entry>): string {
    var acc := Collect(finals, nonFinals);
    var lines := Lines(acc, acc.order);
    if lines == [] then "" else Join(lines) + "\n" + Rule
  }

  /** `render_tokens` as written: a loop over the final tokens, one over the
      non-final tokens, and one over the speakers. */
  method RenderTokens(finals: seq<Token>, nonFinals: seq<Token>) returns (result: string)
    ensures result == Render(finals, nonFinals)
  {
    var order, text, lang, last := CollectFinals(finals);
    order, text := CollectNonFinals(order, text, lang, last, nonFinals);
    assert Acc(order, text, lang, last) == Collect(Entries(finals), Entries(nonFinals));
    result := JoinLines(Acc(order, text, lang, last));
    JoinEmpty(Lines(Acc(order, text, lang, last), order));
    if result != [] {
      result := result + "\n" + Rule;
    }
  }

  /** The loop over the final tokens. */
  method CollectFinals(finals: seq<Token>) returns (order: seq<int>, text: map<int, string>, lang: map<int, string>, last: Option<int>)
    ensures Acc(order, text, lang, last) == Finals(Entries(finals))
  {
    order, text, lang, last := [], map[], map[], None;
    ghost var es := Entries(finals);
    for i := 0 to |finals|
      invariant Acc(order, text, lang, last) == Finals(es[..i])
    {
      FinalsStep(es, i);
      var t := finals[i];
      var raw := if t.text.Some? then Clean(t.text.value) else "";
      if IsBlank(raw) {
        continue;
      }
      var speaker := SpeakerId(t.speaker, None);
      var language := if t.language.Some? then t.language.value else "?";
      if speaker !in lang {
        lang := lang[speaker := language];
      }
      text := text[speaker := (if speaker in text then text[speaker] else "") + raw];
      if speaker !in order {
        order := order + [speaker];
      }
      last := Some(speaker);
    }
    assert es[..|finals|] == es;
  }

  /** The loop over the non-final tokens. */
  method CollectNonFinals(order0: seq<int>, text0: map<int, string>, lang: map<int, string>, last: Option<int>,
                          nonFinals: seq<Token>) returns (order: seq<int>, text: map<int, string>)
    ensures Acc(order, text, lang, last) == NonFinals(Acc(order0, text0, lang, last), Entries(nonFinals))
  {
    order, text := order0, text0;
    ghost var es := Entries(nonFinals);
    for i := 0 to |nonFinals|
      invariant Acc(order, text, lang, last) == NonFinals(Acc(order0, text0, lang, last), es[..i])
    {
      NonFinalsStep(Acc(order0, text0, lang, last), es, i);
      var t := nonFinals[i];
      if t.text.Some? {
        var clean := Clean(t.text.value);
        if IsBlank(clean) {
          continue;
        }
        var speaker := SpeakerId(t.speaker, last);
        text := text[speaker := (if speaker in text then text[speaker] else "") + clean];
        if speaker !in order {
          order := order + [speaker];
        }
      } else {
        assert !Kept(es[i]);
      }
    }
    assert es[..|nonFinals|] == es;
  }

  lemma FinalsStep(es: seq<Entry>, i: nat)
    requires i < |es|
    ensures Finals(es[..i + 1]) == AddFinal(Finals(es[..i]), es[i])
  {
    assert es[..i + 1][..i] == es[..i];
  }

  lemma NonFinalsStep(acc: Acc, es: seq<Entry>, i: nat)
    requires i < |es|
    ensures NonFinals(acc, es[..i + 1]) == AddNonFinal(NonFinals(acc, es[..i]), es[i])
  {
    assert es[..i + 1][..i] == es[..i];
  }

  /** The loop over the speakers, separating lines with a newline. */
  method JoinLines(acc: Acc) returns (result: string)
    ensures result == Join(Lines(acc, acc.order))
  {
    result := "";
    for k := 0 to |acc.order|
      invariant result == Join(Lines(acc, acc.order[..k]))
    {
      var speaker := acc.order[k];
      JoinLinesStep(acc, acc.order, k, result);
      if speaker in acc.text {
        var formatted := FormatLine(acc.text[speaker]);
        if formatted != [] {
          var line := LineOf(acc, speaker, formatted);
          if result != [] {
            result := result + "\n";
          }
          result := result + line;
        }
      }
    }
    assert acc.order[..|acc.order|] == acc.order;
  }

  /** The `format!` of one speaker's line. */
  method LineOf(acc: Acc, speaker: int, formatted: string) returns (line: string)
    requires speaker in acc.text && formatted == FormatLine(acc.text[speaker])
    ensures line == Line(acc, speaker)
  {
    var speakerLabel := if speaker > 0 then "Speaker " + IntToDecimal(speaker) + ":" else "Speaker:";
    var language := if speaker in acc.lang then acc.lang[speaker] else "?";
    line := speakerLabel + " [" + language + "] " + formatted;
  }

  /** One more speaker adds its line, after a newline unless it is the
      first, or nothing when its text formats to nothing. */
  lemma JoinLinesStep(acc: Acc, order: seq<int>, k: nat, before: string)
    requires k < |order| && before == Join(Lines(acc, order[..k]))
    ensures var sp := order[k];
      Join(Lines(acc, order[..k + 1])) ==
        if sp in acc.text && FormatLine(acc.text[sp]) != [] then
          (if before == [] then Line(acc, sp) else before + "\n" + Line(acc, sp))
        else before
  {
    var sp := order[k];
    assert order[..k + 1][..k] == order[..k];
    if sp in acc.text && FormatLine(acc.text[sp]) != [] {
      var lines := Lines(acc, order[..k]);
      JoinEmpty(lines);
      JoinSnoc(lines, Line(acc, sp));
    }
  }

  lemma JoinSnoc(lines: seq<string>, line: string)
    ensures Join(lines + [line]) == if lines == [] then line else Join(lines) + "\n" + line
  {
    assert (lines + [line])[..|lines|] == lines;
  }

  /** Every line is non-empty, so the joined text is empty exactly when there
      are no lines. */
  lemma {:induction false} JoinEmpty(lines: seq<string>)
    requires forall i :: 0 <= i < |lines| ==> lines[i] != []
    ensures Join(lines) == [] <==> lines == []
  {
    if |lines| > 1 {
      JoinEmpty(lines[..|lines| - 1]);
    }
  }

  // ---- speaker order ----

  predicate NoDup(s: seq<int>) {
    forall i, j :: 0 <= i < j < |s| ==> s[i] != s[j]
  }

  /** `seen`, then each element of `s` not seen before, once, in order of
      first appearance. */
  function DedupOnto(seen: seq<int>, s: seq<int>): seq<int> {
    if s == [] then seen else Note(DedupOnto(seen, s[..|s| - 1]), s[|s| - 1])
  }

  lemma {:induction false} DedupOntoSpec(seen: seq<int>, s: seq<int>)
    requires NoDup(seen)
    ensures var r := DedupOnto(seen, s);
      && NoDup(r)
      && (r == [] <==> seen == [] && s == [])
      && |seen| <= |r| && r[..|seen|] == seen
      && forall x :: x in r <==> x in seen || x in s
  {
    if s != [] {
      var init := s[..|s| - 1];
      DedupOntoSpec(seen, init);
      assert s == init + [s[|s| - 1]];
      var d := DedupOnto(seen, init);
      assert (d + [s[|s| - 1]])[..|seen|] == d[..|seen|];
    }
  }

  lemma {:induction false} DedupOntoAppend(seen: seq<int>, a: seq<int>, b: seq<int>)
    ensures DedupOnto(DedupOnto(seen, a), b) == DedupOnto(seen, a + b)
  {
    if b == [] {
      assert a + b == a;
    } else {
      DedupOntoAppend(seen, a, b[..|b| - 1]);
      assert (a + b)[..|a + b| - 1] == a + b[..|b| - 1];
    }
  }

  /** The speaker of every kept final token, in order. */
  function FinalSpeakers(ts: seq<Entry>): seq<int> {
    if ts == [] then []
    else
      var t := ts[|ts| - 1];
      FinalSpeakers(ts[..|ts| - 1]) + (if Kept(t) then [SpeakerId(t.speaker, None)] else [])
  }

  /** The speaker of every kept non-final token, in order, falling back to
      `fallback`. */
  function NonFinalSpeakers(fallback: Option<int>, ts: seq<Entry>): seq<int> {
    if ts == [] then []
    else
      var t := ts[|ts| - 1];
      NonFinalSpeakers(fallback, ts[..|ts| - 1]) + (if Kept(t) then [SpeakerId(t.speaker, fallback)] else [])
  }

  function LastOf(s: seq<int>): Option<int> {
    if s == [] then None else Some(s[|s| - 1])
  }

  lemma {:induction false} FinalsSpeakers(ts: seq<Entry>)
    ensures Finals(ts).order == DedupOnto([], FinalSpeakers(ts))
    ensures Finals(ts).last == LastOf(FinalSpeakers(ts))
  {
    if ts != [] {
      var init, t := ts[..|ts| - 1], ts[|ts| - 1];
      FinalsSpeakers(init);
      var fs := FinalSpeakers(init);
      if Kept(t) {
        var s := fs + [SpeakerId(t.speaker, None)];
        assert FinalSpeakers(ts) == s;
        assert s[..|s| - 1] == fs;
      } else {
        assert FinalSpeakers(ts) == fs;
      }
    }
  }

  lemma {:induction false} NonFinalsSpeakers(acc: Acc, ts: seq<Entry>)
    ensures NonFinals(acc, ts).order == DedupOnto(acc.order, NonFinalSpeakers(acc.last, ts))
    ensures NonFinals(acc, ts).lang == acc.lang && NonFinals(acc, ts).last == acc.last
  {
    if ts != [] {
      var init, t := ts[..|ts| - 1], ts[|ts| - 1];
      NonFinalsSpeakers(acc, init);
      var ns := NonFinalSpeakers(acc.last, init);
      if Kept(t) {
        var s := ns + [SpeakerId(t.speaker, acc.last)];
        assert NonFinalSpeakers(acc.last, ts) == s;
        assert s[..|s| - 1] == ns;
      } else {
        assert NonFinalSpeakers(acc.last, ts) == ns;
      }
    }
  }

  /** Speakers are listed once each, in order of first appearance over the
      kept final tokens and then the kept non-final tokens; a non-final
      token without its own id belongs to the speaker of the last kept final
      token. So every speaker of a final token comes before every speaker seen
      only in non-final tokens. */
  lemma SpeakerOrder(finals: seq<Entry>, nonFinals: seq<Entry>)
    ensures var order, fs := Collect(finals, nonFinals).order, FinalSpeakers(finals);
      var ns := NonFinalSpeakers(LastOf(fs), nonFinals);
      && order == DedupOnto([], fs + ns)
      && NoDup(order)
      && (order == [] <==> fs == [] && ns == [])
      && |Finals(finals).order| <= |order| && order[..|Finals(finals).order|] == Finals(finals).order
      && (forall x :: x in Finals(finals).order <==> x in fs)
      && (forall x :: x in order <==> x in fs || x in ns)
  {
    var fs := FinalSpeakers(finals);
    FinalsSpeakers(finals);
    NonFinalsSpeakers(Finals(finals), nonFinals);
    var ns := NonFinalSpeakers(LastOf(fs), nonFinals);
    DedupOntoAppend([], fs, ns);
    DedupOntoSpec([], fs);
    DedupOntoSpec(Finals(finals).order, ns);
    DedupOntoSpec([], fs + ns);
  }

  // ---- languages ----

  /** The language of the first kept final token of `sp`, if any. */
  function FirstLanguage(ts: seq<Entry>, sp: int): Option<string> {
    if ts == [] then None
    else if Kept(ts[0]) && SpeakerId(ts[0].speaker, None) == sp then Some(LanguageOf(ts[0]))
    else FirstLanguage(ts[1..], sp)
  }

  lemma {:induction false} FirstLanguageSnoc(ts: seq<Entry>, t: Entry, sp: int)
    ensures FirstLanguage(ts + [t], sp) ==
      if FirstLanguage(ts, sp).Some? then FirstLanguage(ts, sp)
      else if Kept(t) && SpeakerId(t.speaker, None) == sp then Some(LanguageOf(t))
      else None
  {
    if ts != [] {
      assert (ts + [t])[1..] == ts[1..] + [t];
      FirstLanguageSnoc(ts[1..], t, sp);
    }
  }

  lemma {:induction false} FinalsLanguage(ts: seq<Entry>, sp: int)
    ensures sp in Finals(ts).lang <==> FirstLanguage(ts, sp).Some?
    ensures sp in Finals(ts).lang ==> Finals(ts).lang[sp] == FirstLanguage(ts, sp).value
  {
    if ts != [] {
      var init := ts[..|ts| - 1];
      FinalsLanguage(init, sp);
      FirstLanguageSnoc(init, ts[|ts| - 1], sp);
      assert init + [ts[|ts| - 1]] == ts;
      AddFinalLang(Finals(init), ts[|ts| - 1], sp);
    }
  }

  /** A final token sets its speaker's language only if none is set yet. */
  lemma AddFinalLang(acc: Acc, t: Entry, sp: int)
    ensures var lang := AddFinal(acc, t).lang; var isNew := Kept(t) && SpeakerId(t.speaker, None) == sp;
      && (sp in lang <==> sp in acc.lang || isNew)
      && (sp in acc.lang ==> lang[sp] == acc.lang[sp])
      && (sp !in acc.lang && isNew ==> lang[sp] == LanguageOf(t))
  {
  }

  /** The language shown for a speaker is that of the speaker's first kept
      final token; non-final tokens never set it, so a speaker seen only in
      them shows "?". */
  lemma LanguageShown(finals: seq<Entry>, nonFinals: seq<Entry>, sp: int)
    ensures var lang := Collect(finals, nonFinals).lang;
      (if sp in lang then lang[sp] else "?") ==
      (if FirstLanguage(finals, sp).Some? then FirstLanguage(finals, sp).value else "?")
  {
    NonFinalsSpeakers(Finals(finals), nonFinals);
    FinalsLanguage(finals, sp);
  }

  // ---- the shape of the output ----

  lemma NotBlankAppend(a: string, b: string)
    requires !IsBlank(a) || !IsBlank(b)
    ensures !IsBlank(a + b)
  {
    BlankIffAllWhitespace(a);
    BlankIffAllWhitespace(b);
    BlankIffAllWhitespace(a + b);
    if !IsBlank(a) {
      var k :| 0 <= k < |a| && !IsWhitespace(a[k]);
      assert (a + b)[k] == a[k];
    } else {
      var k :| 0 <= k < |b| && !IsWhitespace(b[k]);
      assert (a + b)[|a| + k] == b[k];
    }
  }

  /** Every listed speaker has text, none of it blank, and only they have
      text. */
  predicate Consistent(acc: Acc) {
    && (forall sp :: sp in acc.order ==> sp in acc.text)
    && (forall sp :: sp in acc.text ==> sp in acc.order)
    && (forall sp :: sp in acc.text ==> !IsBlank(acc.text[sp]))
  }

  /** Appending a non-blank piece to a speaker's text keeps the state
      consistent. */
  lemma ExtendConsistent(acc: Acc, sp: int, piece: string, lang: map<int, string>, last: Option<int>)
    requires Consistent(acc) && !IsBlank(piece)
    ensures Consistent(Acc(Note(acc.order, sp), Extend(acc.text, sp, piece), lang, last))
  {
    NotBlankAppend(if sp in acc.text then acc.text[sp] else "", piece);
  }

  lemma {:induction false} FinalsConsistent(ts: seq<Entry>)
    ensures Consistent(Finals(ts))
  {
    if ts != [] {
      var prev := Finals(ts[..|ts| - 1]);
      FinalsConsistent(ts[..|ts| - 1]);
      var t := ts[|ts| - 1];
      if Kept(t) {
        var sp := SpeakerId(t.speaker, None);
        var next := AddFinal(prev, t);
        ExtendConsistent(prev, sp, t.piece, next.lang, next.last);
      }
    }
  }

  lemma {:induction false} NonFinalsConsistent(acc: Acc, ts: seq<Entry>)
    requires Consistent(acc)
    ensures Consistent(NonFinals(acc, ts))
  {
    if ts != [] {
      var prev := NonFinals(acc, ts[..|ts| - 1]);
      NonFinalsConsistent(acc, ts[..|ts| - 1]);
      var t := ts[|ts| - 1];
      if Kept(t) {
        ExtendConsistent(prev, SpeakerId(t.speaker, prev.last), t.piece, prev.lang, prev.last);
      }
    }
  }

  lemma {:induction false} LinesAll(acc: Acc, order: seq<int>)
    requires Consistent(acc) && forall i :: 0 <= i < |order| ==> order[i] in acc.order
    ensures |Lines(acc, order)| == |order|
  {
    if order != [] {
      var sp := order[|order| - 1];
      assert sp in acc.order;
      assert sp in acc.text;
      LinesAll(acc, order[..|order| - 1]);
      FormatLineBlank(acc.text[sp]);
    }
  }

  lemma {:induction false} NoFinalKept(ts: seq<Entry>)
    ensures FinalSpeakers(ts) == [] <==> forall i :: 0 <= i < |ts| ==> !Kept(ts[i])
  {
    if ts != [] {
      var init := ts[..|ts| - 1];
      NoFinalKept(init);
      if Kept(ts[|ts| - 1]) {
        assert |FinalSpeakers(ts)| == |FinalSpeakers(init)| + 1;
      } else {
        assert FinalSpeakers(ts) == FinalSpeakers(init);
        if forall i :: 0 <= i < |init| ==> !Kept(init[i]) {
          forall i | 0 <= i < |ts|
            ensures !Kept(ts[i])
          {
            if i < |init| {
              assert ts[i] == init[i];
            }
          }
        }
      }
    }
  }

  lemma {:induction false} NoNonFinalKept(fallback: Option<int>, ts: seq<Entry>)
    ensures NonFinalSpeakers(fallback, ts) == [] <==> forall i :: 0 <= i < |ts| ==> !Kept(ts[i])
  {
    if ts != [] {
      var init := ts[..|ts| - 1];
      NoNonFinalKept(fallback, init);
      if Kept(ts[|ts| - 1]) {
        assert |NonFinalSpeakers(fallback, ts)| == |NonFinalSpeakers(fallback, init)| + 1;
      } else {
        assert NonFinalSpeakers(fallback, ts) == NonFinalSpeakers(fallback, init);
        if forall i :: 0 <= i < |init| ==> !Kept(init[i]) {
          forall i | 0 <= i < |ts|
            ensures !Kept(ts[i])
          {
            if i < |init| {
              assert ts[i] == init[i];
            }
          }
        }
      }
    }
  }

  /** No speaker is listed exactly when no token is kept. */
  lemma OrderEmpty(finals: seq<Entry>, nonFinals: seq<Entry>)
    ensures Collect(finals, nonFinals).order == [] <==>
      (forall i :: 0 <= i < |finals| ==> !Kept(finals[i])) && (forall i :: 0 <= i < |nonFinals| ==> !Kept(nonFinals[i]))
  {
    var order := Collect(finals, nonFinals).order;
    SpeakerOrder(finals, nonFinals);
    var fs := FinalSpeakers(finals);
    var ns := NonFinalSpeakers(LastOf(fs), nonFinals);
    NoFinalKept(finals);
    NoNonFinalKept(LastOf(fs), nonFinals);
  }

  /** Every listed speaker gets a line. */
  lemma LinesOfCollect(finals: seq<Entry>, nonFinals: seq<Entry>)
    ensures var acc := Collect(finals, nonFinals); |Lines(acc, acc.order)| == |acc.order|
  {
    var acc := Collect(finals, nonFinals);
    FinalsConsistent(finals);
    NonFinalsConsistent(Finals(finals), nonFinals);
    LinesAll(acc, acc.order);
  }

  /** The rendering is empty exactly when no token, final or not, has text
      that cleans to something non-blank; otherwise it closes with a newline
      and the rule. */
  lemma RenderShape(finals: seq<Entry>, nonFinals: seq<Entry>)
    ensures RenderEntries(finals, nonFinals) == [] <==>
      (forall i :: 0 <= i < |finals| ==> !Kept(finals[i])) && (forall i :: 0 <= i < |nonFinals| ==> !Kept(nonFinals[i]))
    ensures RenderEntries(finals, nonFinals) != [] ==>
      var r := RenderEntries(finals, nonFinals);
      |r| > |Rule| && r[|r| - |Rule| - 1..] == "\n" + Rule
  {
    var acc := Collect(finals, nonFinals);
    var lines := Lines(acc, acc.order);
    LinesOfCollect(finals, nonFinals);
    OrderEmpty(finals, nonFinals);
    if lines != [] {
      var r := RenderEntries(finals, nonFinals);
      var j := Join(lines);
      assert r == j + "\n" + Rule;
      assert r[|r| - |Rule| - 1..] == "\n" + Rule;
    }
  }
}
