/** Helpers shared by the classifiers (grant_search/ai/common.py): the chat message list and
    the lazily built, shared OpenAI client. */
module AiCommon {
  import opened Wrappers

  datatype Message = Message(role: string, content: string)

  /** format_for_llm: a system message with the prompt, then a user message with the text. */
  function FormatForLlm(systemPrompt: string, text: string): (r: seq<Message>)
    ensures |r| == 2
    ensures r[0].role == "system" && r[0].content == systemPrompt
    ensures r[1].role == "user" && r[1].content == text
  {
    [Message("system", systemPrompt), Message("user", text)]
  }

  /** Prompt and text can be read back from the messages: different inputs never give the same
      conversation. */
  lemma FormatForLlmInjective(p1: string, t1: string, p2: string, t2: string)
    requires FormatForLlm(p1, t1) == FormatForLlm(p2, t2)
    ensures p1 == p2 && t1 == t2
  {
    assert FormatForLlm(p1, t1)[0].content == p1 && FormatForLlm(p2, t2)[0].content == p2;
    assert FormatForLlm(p1, t1)[1].content == t1 && FormatForLlm(p2, t2)[1].content == t2;
  }

  /** The request timeout the client is built with, in seconds. */
  const ClientTimeout: real := 12.0

  /** A client; `serial` tells apart clients built at different times. */
  datatype Client = Client(serial: nat, timeout: real)

  /** The module-level `_ai_client` and the number of clients built so far. */
  class ClientHolder {
    var client: Option<Client>
    var built: nat

    ghost predicate Valid()
      reads this
    {
      && built <= 1
      && (client.None? <==> built == 0)
      && (client.Some? ==> client.value.timeout == ClientTimeout)
    }

    constructor ()
      ensures Valid() && client.None? && built == 0
    {
      client := None;
      built := 0;
    }

    /** get_ai_client: builds the client only when none exists; afterwards it is returned. */
    method GetAiClient() returns (c: Client)
      requires Valid()
      modifies this
      ensures Valid()
      ensures client == Some(c) && c.timeout == ClientTimeout
      ensures old(client).Some? ==> c == old(client).value && built == old(built)
      ensures old(client).None? ==> built == old(built) + 1
    {
      if client.None? {
        c := Client(built, ClientTimeout);
        client := Some(c);
        built := built + 1;
      } else {
        c := client.value;
      }
    }
  }

  /** Two calls in a row hand out the same client, and at most one client is ever built. */
  method GetTwice(h: ClientHolder) returns (a: Client, b: Client)
    requires h.Valid()
    modifies h
    ensures a == b && h.built <= 1 && h.Valid()
  {
    a := h.GetAiClient();
    b := h.GetAiClient();
  }
}
