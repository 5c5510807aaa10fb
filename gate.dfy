/** The gate that decides whether the main assistant should re-run: the
    prompt sent to a small model, the interpretation of its answer with a
    heuristic fallback when the answer is not the expected JSON, and the
    round trip shared by both providers. */
module Gate {
  import opened Common
  import opened Text

  /** `GateJson`; the confidence is an `f32` in the program, a real here. */
  datatype GateJson = GateJson(run: bool, instruction: Option<string>, reason: Option<string>, confidence: Option<real>)

  datatype GatePrompt = GatePrompt(systemPrompt: string, userPrompt: string,
                                   currentLen: nat, previousLen: nat, lastOutputLen: nat)

  /** The instruction that agrees with a run decision. */
  function InstructionFor(run: bool): string {
    if run then "NEEDED" else "NOT_NEEDED"
  }

  /** The verdict for an empty transcript. */
  const SkipVerdict: GateJson := GateJson(false, Some("NOT_NEEDED"), Some("Empty transcript"), Some(1.0))

  const SystemHead: string := "You decide if the main assistant should re-run.\nRole: "
  const SystemRules: string := "\nRules: "
  const SystemTail: string := "\nOutput MUST be STRICT JSON with keys: run(boolean), instruction(NEEDED|NOT_NEEDED), reason(string), confidence(number). No extra text."

  const UserHead: string := "Current transcript:\n"
  const UserPrevious: string := "\n\nPrevious transcript:\n"
  const UserLast: string := "\n\nLast output (optional):\n"
  const UserTail: string := "\n\nReturn ONLY this JSON: {\"run\": boolean, \"instruction\": \"NEEDED\"|\"NOT_NEEDED\", \"reason\": string, \"confidence\": number}"

  function SystemPrompt(mainSystemPrompt: string, gateInstructions: string): string {
    SystemHead + mainSystemPrompt + SystemRules + gateInstructions + SystemTail
  }

  function UserPrompt(current: string, previous: string, lastOutput: string): string {
    UserHead + current + UserPrevious + previous + UserLast + lastOutput + UserTail
  }

  /** `prepare_gate_prompt`: a blank current transcript is answered at once
      with the skip verdict; otherwise the two prompts and the byte lengths
      of the inputs. */
  function PrepareGatePrompt(mainSystemPrompt: string, gateInstructions: string, current: string,
                             previous: string, lastOutput: Option<string>): (r: Result<GatePrompt, GateJson>)
    ensures r.Err? <==> IsBlank(current)
    ensures r.Err? ==> r.error == SkipVerdict
    ensures r.Ok? ==> r.value.currentLen == Utf8Len(current) && r.value.previousLen == Utf8Len(previous)
    ensures r.Ok? ==> r.value.lastOutputLen == (if lastOutput.Some? then Utf8Len(lastOutput.value) else 0)
    ensures r.Ok? ==> r.value.systemPrompt == SystemPrompt(mainSystemPrompt, gateInstructions)
    ensures r.Ok? ==> r.value.userPrompt == UserPrompt(current, previous, if lastOutput.Some? then lastOutput.value else "")
  {
    BlankIffTrimEmpty(current);
    if Trim(current) == [] then Err(SkipVerdict)
    else
      var lastText := if lastOutput.Some? then lastOutput.value else "";
      Ok(GatePrompt(SystemPrompt(mainSystemPrompt, gateInstructions),
                    UserPrompt(current, previous, lastText),
                    Utf8Len(current), Utf8Len(previous), Utf8Len(lastText)))
  }

  /** The system prompt opens with the role heading, then holds the main
      prompt and, after the rules heading, the gate instructions. */
  lemma SystemPromptLayout(mainSystemPrompt: string, gateInstructions: string)
    ensures var sys := SystemPrompt(mainSystemPrompt, gateInstructions);
      && StartsWith(sys, SystemHead)
      && OccursAt(sys, mainSystemPrompt, |SystemHead|)
      && OccursAt(sys, gateInstructions, |SystemHead| + |mainSystemPrompt| + |SystemRules|)
  {
    FiveParts(SystemHead, mainSystemPrompt, SystemRules, gateInstructions, SystemTail);
  }

  /** The user prompt holds the current transcript, the previous one and the
      last output, in that order, each after its heading, and closes with
      the request for JSON. */
  lemma UserPromptLayout(current: string, previous: string, lastOutput: string)
    ensures var user := UserPrompt(current, previous, lastOutput);
      var p := |UserHead| + |current| + |UserPrevious|;
      var l := p + |previous| + |UserLast|;
      && StartsWith(user, UserHead) && OccursAt(user, current, |UserHead|)
      && OccursAt(user, previous, p) && OccursAt(user, lastOutput, l)
      && user[l + |lastOutput|..] == UserTail
  {
    SevenParts(UserHead, current, UserPrevious, previous, UserLast, lastOutput, UserTail);
  }

  lemma FiveParts(a: string, b: string, c: string, d: string, e: string)
    ensures var s := a + b + c + d + e;
      StartsWith(s, a) && OccursAt(s, b, |a|) && OccursAt(s, d, |a| + |b| + |c|)
  {
    var s := a + b + c + d + e;
    assert s[..|a|] == a;
    assert s[|a|..|a| + |b|] == b;
    assert s[|a| + |b| + |c|..|a| + |b| + |c| + |d|] == d;
  }

  lemma SevenParts(a: string, b: string, c: string, d: string, e: string, f: string, g: string)
    ensures var s := a + b + c + d + e + f + g;
      var p := |a| + |b| + |c|;
      var l := p + |d| + |e|;
      && StartsWith(s, a) && OccursAt(s, b, |a|)
      && OccursAt(s, d, p) && OccursAt(s, f, l)
      && s[l + |f|..] == g
  {
    var s := a + b + c + d + e + f + g;
    var p := |a| + |b| + |c|;
    var l := p + |d| + |e|;
    assert s[..|a|] == a;
    assert s[|a|..|a| + |b|] == b;
    assert s[p..p + |d|] == d;
    assert s[l..l + |f|] == f;
    assert s[l + |f|..] == g;
  }

  /** `trim_end().ends_with(['.', '!', '?'])`. */
  predicate EndsSentence(s: string) {
    var t := TrimEnd(s);
    t != [] && t[|t| - 1] in {'.', '!', '?'}
  }

  /** The sentence test looks at the last character that is not
      whitespace: it holds iff some `.`, `!` or `?` is followed only by
      whitespace. */
  lemma EndsSentenceIff(s: string)
    ensures EndsSentence(s) <==>
      exists k :: 0 <= k < |s| && s[k] in {'.', '!', '?'} && forall j :: k < j < |s| ==> IsWhitespace(s[j])
  {
    var t := TrimEnd(s);
    if EndsSentence(s) {
      var k := |t| - 1;
      assert s[k] == t[k];
    }
    if exists k :: 0 <= k < |s| && s[k] in {'.', '!', '?'} && forall j :: k < j < |s| ==> IsWhitespace(s[j]) {
      var k :| 0 <= k < |s| && s[k] in {'.', '!', '?'} && forall j :: k < j < |s| ==> IsWhitespace(s[j]);
      assert !IsWhitespace(s[k]);
      assert |t| == k + 1 && t[k] == s[k];
    }
  }

  /** The fallback decision: a finished sentence that grew by at least 50
      bytes over the previous transcript (a shrink counts as no growth). */
  predicate FallbackRun(current: string, previous: string) {
    EndsSentence(current) && SaturatingSub(Utf8Len(current), Utf8Len(previous)) >= 50
  }

  /** The fallback runs only when the current transcript is at least 50
      bytes longer than the previous one. */
  lemma FallbackGrowth(current: string, previous: string)
    ensures FallbackRun(current, previous) ==> Utf8Len(current) >= Utf8Len(previous) + 50
    ensures EndsSentence(current) && Utf8Len(current) >= Utf8Len(previous) + 50 ==> FallbackRun(current, previous)
  {
  }

  /** `interpret_gate_response`, given the outcome of parsing the content as
      `GateJson` (`None` when it does not parse). */
  function InterpretGateResponse(parsed: Option<GateJson>, current: string, previous: string): (g: GateJson)
    ensures g.instruction.Some?
    ensures parsed.Some? ==> g.run == parsed.value.run && g.reason == parsed.value.reason && g.confidence == parsed.value.confidence
    ensures parsed.Some? && parsed.value.instruction.Some? ==> g.instruction == parsed.value.instruction
    ensures parsed.None? || parsed.value.instruction.None? ==> g.instruction == Some(InstructionFor(g.run))
    ensures parsed.None? ==> (g.run <==> FallbackRun(current, previous))
    ensures parsed.None? ==> g.reason == Some("Fallback heuristic") && g.confidence == Some(0.3)
  {
    match parsed
    case Some(gate) =>
      if gate.instruction.None? then gate.(instruction := Some(InstructionFor(gate.run))) else gate
    case None =>
      var endsSentence := EndsSentence(current);
      var growth := SaturatingSub(Utf8Len(current), Utf8Len(previous));
      var run := endsSentence && growth >= 50;
      GateJson(run, Some(InstructionFor(run)), Some("Fallback heuristic"), Some(0.3))
  }

  /** Interpreting a verdict that already has an instruction changes
      nothing, so interpreting a serialised verdict again is the identity. */
  lemma InterpretIdempotent(g: GateJson, current: string, previous: string)
    ensures var once := InterpretGateResponse(Some(g), current, previous);
      InterpretGateResponse(Some(once), current, previous) == once
    ensures g.instruction.Some? ==> InterpretGateResponse(Some(g), current, previous) == g
  {
  }

  /** The reply of the chat-completion call: a failure (connection, HTTP
      status, request building or body parsing, with its message), no
      choice, or the first choice's content parsed as `GateJson`. */
  datatype GateReply = CallFailed(message: string) | NoChoice | FirstChoice(parsed: Option<GateJson>)

  /** The gate round trip of `should_run_gate` and `run_gate`: the request
      is only built, and `reply` only consulted, for a transcript that is
      not blank. */
  function RunGate(provider: string, mainSystemPrompt: string, gateInstructions: string, current: string,
                   previous: string, lastOutput: Option<string>, reply: GateReply): (r: Result<GateJson, string>)
    ensures IsBlank(current) ==> r == Ok(SkipVerdict)
    ensures !IsBlank(current) && reply.FirstChoice? ==> r == Ok(InterpretGateResponse(reply.parsed, current, previous))
    ensures !IsBlank(current) && !reply.FirstChoice? ==> r.Err?
  {
    match PrepareGatePrompt(mainSystemPrompt, gateInstructions, current, previous, lastOutput)
    case Err(skip) => Ok(skip)
    case Ok(_) =>
      match reply
      case CallFailed(message) => Err(message)
      case NoChoice => Err("No response from " + provider)
      case FirstChoice(parsed) => Ok(InterpretGateResponse(parsed, current, previous))
  }

  /** A blank transcript gives the skip verdict whatever the service would
      have answered: no request matters. */
  lemma BlankSkipsRequest(provider: string, mainSystemPrompt: string, gateInstructions: string, current: string,
                          previous: string, lastOutput: Option<string>, reply1: GateReply, reply2: GateReply)
    requires forall k :: 0 <= k < |current| ==> IsWhitespace(current[k])
    ensures RunGate(provider, mainSystemPrompt, gateInstructions, current, previous, lastOutput, reply1)
         == RunGate(provider, mainSystemPrompt, gateInstructions, current, previous, lastOutput, reply2)
         == Ok(SkipVerdict)
  {
    BlankIffAllWhitespace(current);
  }

  /** Every verdict the gate returns carries an instruction. */
  lemma VerdictHasInstruction(provider: string, mainSystemPrompt: string, gateInstructions: string, current: string,
                              previous: string, lastOutput: Option<string>, reply: GateReply)
    ensures var r := RunGate(provider, mainSystemPrompt, gateInstructions, current, previous, lastOutput, reply);
      r.Ok? ==> r.value.instruction.Some?
  {
  }
}
