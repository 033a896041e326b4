/**
 * The request envelope sent to the Bedrock endpoint. Both the synchronous and
 * the streaming call build it from the same literal.
 */
module Payload {
  import opened Wrappers

  const SystemPrompt := "You are a coding assistant. Output only code without explanations, comments, or any other text. Do not wrap the code in markdown code blocks."
  const AnthropicVersion := "bedrock-2023-05-31"
  const MaxTokens := 4096 * 16

  /** What precedes the user's prompt in the one text block. */
  const Preamble := SystemPrompt + "\n\n"

  datatype ContentBlock = ContentBlock(blockType: string, text: string)
  datatype Message = Message(role: string, content: seq<ContentBlock>)
  datatype Envelope = Envelope(anthropicVersion: string, maxTokens: int, messages: seq<Message>)

  /**
   * The shape every envelope of this client has: the fixed version tag and
   * token budget, one user message holding one text block that starts with
   * the system instruction.
   */
  predicate WellFormed(e: Envelope)
  {
    && e.anthropicVersion == AnthropicVersion
    && e.maxTokens == MaxTokens
    && |e.messages| == 1
    && e.messages[0].role == "user"
    && |e.messages[0].content| == 1
    && e.messages[0].content[0].blockType == "text"
    && Preamble <= e.messages[0].content[0].text
  }

  function BuildPayload(prompt: string): (e: Envelope)
    ensures WellFormed(e)
    ensures e.maxTokens == 65536
    ensures e.messages[0].content[0].text == SystemPrompt + "\n\n" + prompt
  {
    Envelope(AnthropicVersion, MaxTokens,
      [Message("user", [ContentBlock("text", Preamble + prompt)])])
  }

  /** The user's prompt carried by an envelope of this client, if it is one. */
  function PromptOf(e: Envelope): (r: Option<string>)
    ensures r.Some? <==> WellFormed(e)
  {
    if WellFormed(e) then Some(e.messages[0].content[0].text[|Preamble|..]) else None
  }

  /** The prompt can be read back from the envelope built for it. */
  lemma PayloadRoundTrip(prompt: string)
    ensures PromptOf(BuildPayload(prompt)) == Some(prompt)
  {
    var text := BuildPayload(prompt).messages[0].content[0].text;
    assert text == Preamble + prompt;
    assert text[|Preamble|..] == prompt;
  }

  /** Every envelope of this shape is the one built for the prompt it carries. */
  lemma {:induction false} WellFormedIsBuilt(e: Envelope)
    requires WellFormed(e)
    ensures BuildPayload(PromptOf(e).value) == e
  {
    var text := e.messages[0].content[0].text;
    var rest := PromptOf(e).value;
    assert Preamble + rest == text;
    assert e.messages[0].content == [ContentBlock("text", text)];
    assert e.messages[0] == Message("user", [ContentBlock("text", Preamble + rest)]);
    assert e.messages == [e.messages[0]];
  }

  /** Different prompts give different envelopes. */
  lemma BuildPayloadInjective(p: string, q: string)
    requires BuildPayload(p) == BuildPayload(q)
    ensures p == q
  {
    PayloadRoundTrip(p);
    PayloadRoundTrip(q);
  }
}
