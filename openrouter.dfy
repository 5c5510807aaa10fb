/** The OpenRouter provider: the model list sorted by id and the
    main-assistant request. Its message composition is `Chat.ComposeMessages`
    and its gate round trip is `Gate.RunGate`. */
module OpenRouter {
  import opened Common
  import opened Text
  import opened Sorting
  import Chat
  import OpenAI

  /** What the client gave for the model listing: it could not be built, the
      listing failed, or the ids of the models listed. */
  datatype ListReply = ClientFailed(clientError: string) | ListFailed(listError: string) | Models(ids: seq<string>)

  function Identity(s: string): string {
    s
  }

  /** `list_models`: the ids sorted with `sort()`. */
  method ListModels(reply: ListReply) returns (r: Result<seq<string>, string>)
    ensures reply.Models? <==> r.Ok?
    ensures r.Ok? ==> multiset(r.value) == multiset(reply.ids)
    ensures r.Ok? ==> SortedIds(r.value)
  {
    match reply
    case ClientFailed(e) => r := Err("OpenRouter client error: " + e);
    case ListFailed(e) => r := Err("Failed to fetch OpenRouter models: " + e);
    case Models(ids) =>
      var sorted := SortByName(ids, Identity);
      SortByNameSorted(ids, Identity);
      r := Ok(sorted);
  }

  predicate SortedIds(s: seq<string>) {
    forall i, j :: 0 <= i < j < |s| ==> StrLe(s[i], s[j])
  }

  /** Two sorted orderings of the same non-empty ids start alike. */
  lemma SortedHeads(a: seq<string>, b: seq<string>)
    requires multiset(a) == multiset(b) && a != []
    requires SortedIds(a) && SortedIds(b)
    ensures b != [] && a[0] == b[0]
  {
    assert a[0] in multiset(b);
    var i :| 0 <= i < |b| && b[i] == a[0];
    assert b[0] in multiset(a);
    var j :| 0 <= j < |a| && a[j] == b[0];
    if i > 0 && j > 0 {
      StrLeAntisymmetric(a[0], b[0]);
    }
  }

  /** Sorted ids are in the one order `sort()` can give: two sorted orderings
      of the same ids agree. */
  lemma {:induction false} SortedUnique(a: seq<string>, b: seq<string>)
    requires multiset(a) == multiset(b)
    requires SortedIds(a) && SortedIds(b)
    ensures a == b
    decreases |a|
  {
    if a == [] {
      assert |b| == |multiset(b)| == 0;
    } else {
      SortedHeads(a, b);
      DropHead(a);
      DropHead(b);
      SortedUnique(a[1..], b[1..]);
      assert a == [a[0]] + a[1..] && b == [b[0]] + b[1..];
    }
  }

  /** Dropping the first of sorted ids leaves them sorted and removes one
      occurrence of that id. */
  lemma DropHead(s: seq<string>)
    requires s != [] && SortedIds(s)
    ensures SortedIds(s[1..])
    ensures multiset(s[1..]) == multiset(s) - multiset{s[0]}
  {
    assert s == [s[0]] + s[1..];
    assert multiset(s) == multiset{s[0]} + multiset(s[1..]);
  }

  datatype ChatRequest = ChatRequest(model: string, messages: seq<Chat.Message>, maxTokens: nat, temperature: real)

  /** `build_chat_request`: the temperature follows the model's rule with 0
      as default. */
  function BuildChatRequest(model: string, messages: seq<Chat.Message>, maxTokens: nat): (r: ChatRequest)
    ensures r.messages == messages && r.maxTokens == maxTokens && r.model == model
    ensures r.temperature == 1.0 <==> Contains(model, "gpt-5")
    ensures !Contains(model, "gpt-5") ==> r.temperature == 0.0
  {
    ChatRequest(model, messages, maxTokens, OpenAI.TemperatureForModel(model, 0.0))
  }
}
