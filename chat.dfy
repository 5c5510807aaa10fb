/** The messages of a main-assistant request, built the same way by both
    providers (`compose_messages`, and the message assembly of
    `analyze_conversation`): the system prompt with the output policy, the
    previous answer for context when there is one, and the user prompt. */
module Chat {
  import opened Common
  import opened Text

  datatype Role = System | Assistant | User

  datatype Message = Message(role: Role, content: string)

  const ContextPrefix: string := "Previous assistant answer (for context):\n"

  /** The system prompt, followed by a blank line and the output policy
      unless the policy is blank. */
  function EffectiveSystemPrompt(systemPrompt: string, outputPolicy: string): (r: string)
    ensures IsBlank(outputPolicy) ==> r == systemPrompt
    ensures !IsBlank(outputPolicy) ==> r == systemPrompt + "\n\n" + outputPolicy
  {
    BlankIffTrimEmpty(outputPolicy);
    if Trim(outputPolicy) == [] then systemPrompt else systemPrompt + "\n\n" + outputPolicy
  }

  /** The previous answer is sent for context when it is present and not
      blank. */
  predicate HasContext(lastOutput: Option<string>) {
    lastOutput.Some? && !IsBlank(lastOutput.value)
  }

  /** The messages of a request, in order. */
  function Composed(systemPrompt: string, outputPolicy: string, userPrompt: string, lastOutput: Option<string>): seq<Message> {
    [Message(System, EffectiveSystemPrompt(systemPrompt, outputPolicy))]
    + (if HasContext(lastOutput) then [Message(Assistant, ContextPrefix + lastOutput.value)] else [])
    + [Message(User, userPrompt)]
  }

  /** The vector grown with `push`; `render` is `render_user_prompt`, which
      is not part of this model. */
  method ComposeMessages(systemPrompt: string, outputPolicy: string, template: string, transcript: string,
                         lastOutput: Option<string>, render: (string, string) -> string) returns (messages: seq<Message>)
    ensures messages == Composed(systemPrompt, outputPolicy, render(template, transcript), lastOutput)
  {
    var effective := if IsBlank(outputPolicy) then systemPrompt else systemPrompt + "\n\n" + outputPolicy;
    messages := [Message(System, effective)];
    if lastOutput.Some? {
      var prev := lastOutput.value;
      if !IsBlank(prev) {
        messages := messages + [Message(Assistant, ContextPrefix + prev)];
      }
    }
    var userPrompt := render(template, transcript);
    messages := messages + [Message(User, userPrompt)];
  }

  /** Two or three messages: the system message first, the user message
      last, and in between the previous answer exactly when it is present
      and not blank, prefixed with its heading. */
  lemma ComposedShape(systemPrompt: string, outputPolicy: string, userPrompt: string, lastOutput: Option<string>)
    ensures var m := Composed(systemPrompt, outputPolicy, userPrompt, lastOutput);
      && 2 <= |m| <= 3
      && m[0] == Message(System, EffectiveSystemPrompt(systemPrompt, outputPolicy))
      && m[|m| - 1] == Message(User, userPrompt)
      && (|m| == 3 <==> HasContext(lastOutput))
      && ((exists i :: 0 <= i < |m| && m[i].role == Assistant) <==> HasContext(lastOutput))
      && (HasContext(lastOutput) ==>
            StartsWith(m[1].content, ContextPrefix) && m[1].content[|ContextPrefix|..] == lastOutput.value)
  {
    var m := Composed(systemPrompt, outputPolicy, userPrompt, lastOutput);
    if HasContext(lastOutput) {
      assert m[1].role == Assistant;
      assert (ContextPrefix + lastOutput.value)[|ContextPrefix|..] == lastOutput.value;
    } else {
      assert forall i :: 0 <= i < |m| ==> m[i].role != Assistant;
    }
  }
}
