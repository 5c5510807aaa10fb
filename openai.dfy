/** The OpenAI provider: the temperature rule, the analysis request and its
    outcome, and the list of chat models offered to the user, filtered and
    sorted by a fixed priority. */
module OpenAI {
  import opened Common
  import opened Text
  import opened Sorting
  import Chat

  /** `temperature_for_model`: models of the "gpt-5" family only accept
      1.0. */
  function TemperatureForModel(model: string, default: real): (t: real)
    ensures Contains(model, "gpt-5") ==> t == 1.0
    ensures !Contains(model, "gpt-5") ==> t == default
  {
    if StartsWith(model, "gpt-5") || Contains(model, "gpt-5") then 1.0 else default
  }

  /** The temperature is 1.0 iff "gpt-5" occurs somewhere in the id (or the
      default already is 1.0). */
  lemma TemperatureIff(model: string, default: real)
    requires default != 1.0
    ensures TemperatureForModel(model, default) == 1.0 <==> exists i :: OccursAt(model, "gpt-5", i)
  {
    ContainsAt(model, "gpt-5");
  }

  /** `get_model_priority`: lower is offered first. */
  function ModelPriority(model: string): (p: int)
    ensures 1 <= p <= 6
  {
    if model == "o1-preview" then 1
    else if model == "o1-mini" then 2
    else if model == "gpt-4.1-nano" || model == "gpt-4.1" then 3
    else if StartsWith(model, "gpt-4") then 4
    else if StartsWith(model, "gpt-3.5") then 5
    else 6
  }

  /** The chat models kept from the listing. */
  predicate IsChatModel(id: string) {
    StartsWith(id, "gpt-") || id == "o1-preview" || id == "o1-mini"
  }

  /** Every model that gets a priority better than the last is a chat model,
      and the ids of each priority class. */
  lemma PriorityClasses(model: string)
    ensures ModelPriority(model) < 6 ==> IsChatModel(model)
    ensures ModelPriority(model) == 1 <==> model == "o1-preview"
    ensures ModelPriority(model) == 2 <==> model == "o1-mini"
    ensures ModelPriority(model) == 3 <==> model == "gpt-4.1-nano" || model == "gpt-4.1"
    ensures ModelPriority(model) == 4 <==> StartsWith(model, "gpt-4") && model != "gpt-4.1-nano" && model != "gpt-4.1"
    ensures ModelPriority(model) == 5 <==> StartsWith(model, "gpt-3.5")
  {
    if StartsWith(model, "gpt-4") || StartsWith(model, "gpt-3.5") {
      assert model[..4] == "gpt-";
      assert model[0] == 'g';
    }
    if StartsWith(model, "gpt-3.5") {
      // the fifth character is '3', so no "gpt-4" prefix and no gpt-4.1 id
      assert model[4] == "gpt-3.5"[4] == '3';
    }
  }

  /** The `filter`/`map` chain over the listing, in order. */
  function ChatModels(ids: seq<string>): (kept: seq<string>)
    ensures forall i :: 0 <= i < |kept| ==> IsChatModel(kept[i])
  {
    if ids == [] then []
    else ChatModels(ids[..|ids| - 1]) + (if IsChatModel(ids[|ids| - 1]) then [ids[|ids| - 1]] else [])
  }

  /** The filter keeps exactly the chat models, each as often as listed. */
  lemma {:induction false} ChatModelsCount(ids: seq<string>)
    ensures forall id :: multiset(ChatModels(ids))[id] == if IsChatModel(id) then multiset(ids)[id] else 0
  {
    if ids != [] {
      var init := ids[..|ids| - 1];
      ChatModelsCount(init);
      assert ids == init + [ids[|ids| - 1]];
    }
  }

  /** The list offered to the user: the chat models sorted by priority,
      keeping the listing's order within a priority. */
  function OfferedModels(ids: seq<string>): seq<string> {
    SortByKey(ChatModels(ids), ModelPriority)
  }

  /** The offered list is a permutation of the chat models in the listing. */
  lemma OfferedModelsPermutation(ids: seq<string>)
    ensures forall id :: multiset(OfferedModels(ids))[id] == if IsChatModel(id) then multiset(ids)[id] else 0
  {
    ChatModelsCount(ids);
    SortByKeySorted(ChatModels(ids), ModelPriority);
  }

  /** The offered list is in non-decreasing priority. */
  lemma OfferedModelsOrdered(ids: seq<string>)
    ensures var o := OfferedModels(ids);
      forall i, j :: 0 <= i < j < |o| ==> ModelPriority(o[i]) <= ModelPriority(o[j])
  {
    SortByKeySorted(ChatModels(ids), ModelPriority);
  }

  /** Models of equal priority keep their listing order. */
  lemma OfferedModelsStable(ids: seq<string>, p: int)
    ensures WithKey(OfferedModels(ids), ModelPriority, p) == WithKey(ChatModels(ids), ModelPriority, p)
  {
    SortByKeyStable(ChatModels(ids), ModelPriority, p);
  }

  /** The reply to a request: no connection, an HTTP status other than
      success, a body that does not parse, or the parsed body. */
  datatype Reply<T> = ConnectFailed(connectError: string) | HttpError(status: string) | BadBody(parseError: string) | Body(body: T)

  /** `get_available_models`: a blank key is refused before any request;
      `reply` is what the models endpoint answered (the `id`s of `data`). */
  method GetAvailableModels(apiKey: string, reply: Reply<seq<string>>) returns (requested: bool, r: Result<seq<string>, string>)
    ensures requested <==> !IsBlank(apiKey)
    ensures !requested ==> r == Err("OpenAI API key is required")
    ensures requested && reply.Body? ==> r == Ok(OfferedModels(reply.body))
    ensures requested && !reply.Body? ==> r.Err?
  {
    if IsBlank(apiKey) {
      return false, Err("OpenAI API key is required");
    }
    requested := true;
    match reply
    case ConnectFailed(e) => r := Err("Failed to connect to OpenAI: " + e);
    case HttpError(status) => r := Err("OpenAI API error: " + status);
    case BadBody(e) => r := Err("Failed to parse OpenAI models response: " + e);
    case Body(ids) => r := Ok(SortByKey(ChatModels(ids), ModelPriority));
  }

  /** The analysis request. */
  datatype ChatRequest = ChatRequest(model: string, messages: seq<Chat.Message>, maxCompletionTokens: nat, temperature: real)

  datatype Options = Options(apiKey: string, model: string, systemPrompt: string, outputPolicy: string, userPrompt: string)

  const NothingToAnalyze: string := "No conversation to analyze yet."

  /** `analyze_conversation`: a blank transcript is answered without a
      request; otherwise the request carries the composed messages, at most
      500 tokens and the model's temperature, and the answer is the first
      choice's content. */
  method AnalyzeConversation(opts: Options, transcript: string, lastOutput: Option<string>,
                             render: (string, string) -> string, reply: Reply<seq<string>>)
    returns (request: Option<ChatRequest>, r: Result<string, string>)
    ensures request.None? <==> IsBlank(transcript)
    ensures request.None? ==> r == Ok(NothingToAnalyze)
    ensures request.Some? ==> request.value == ChatRequest(opts.model,
              Chat.Composed(opts.systemPrompt, opts.outputPolicy, render(opts.userPrompt, transcript), lastOutput),
              500, TemperatureForModel(opts.model, 0.0))
    ensures request.Some? ==> (r.Ok? <==> reply.Body? && reply.body != [])
    ensures request.Some? && r.Ok? ==> r.value == reply.body[0]
  {
    if IsBlank(transcript) {
      return None, Ok(NothingToAnalyze);
    }
    var messages := Chat.ComposeMessages(opts.systemPrompt, opts.outputPolicy, opts.userPrompt, transcript, lastOutput, render);
    var temp := TemperatureForModel(opts.model, 0.0);
    request := Some(ChatRequest(opts.model, messages, 500, temp));
    match reply
    case ConnectFailed(e) => r := Err("Failed to connect to OpenAI: " + e);
    case HttpError(status) => r := Err("OpenAI API error: " + status);
    case BadBody(e) => r := Err("Failed to parse OpenAI response: " + e);
    case Body(choices) =>
      if choices == [] {
        r := Err("No response from OpenAI");
      } else {
        r := Ok(choices[0]);
      }
  }
}
