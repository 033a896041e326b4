/**
 * One run of the client: prepare the request, then dispatch exactly one of the
 * synchronous or the streaming call and write what it decodes. The Bedrock
 * calls themselves are not part of the model: their replies are inputs, and
 * the request that would be sent is an output.
 */
module Converse {
  import opened Wrappers
  import opened Errors
  import opened JsonModel
  import opened Payload
  import opened ResponseDecoder
  import opened StreamDecoder
  import opened Cli
  import Text

  /** The reply to InvokeModel: a transport or service failure, or a body. */
  datatype Reply = InvokeFailed | Body(body: Parse)

  /** The reply to InvokeModelWithResponseStream: a failure, or the events of the stream in order. */
  datatype StreamReply = StreamInvokeFailed | Events(events: seq<Event>)

  /** The input of either Bedrock call. */
  datatype InvokeInput = InvokeInput(modelId: string, contentType: string, body: Envelope)

  /** The input both callClaude and streamClaude build for a request. */
  function InvokeInputFor(request: Request): (input: InvokeInput)
    ensures input.modelId == request.modelId
    ensures input.contentType == "application/json"
    ensures WellFormed(input.body) && PromptOf(input.body) == Some(request.prompt)
  {
    PayloadRoundTrip(request.prompt);
    InvokeInput(request.modelId, "application/json", BuildPayload(request.prompt))
  }

  /** What a failure before the network call writes to standard output (the rest goes to standard error). */
  function EarlyFailureOutput(e: Error): (out: string)
    ensures e.FileReadError? ==> out == "Error reading file: " + e.reason + "\n"
    ensures e.StdinReadError? ==> out == "Error reading stdin: " + e.reason + "\n"
    ensures out != "" <==> e.FileReadError? || e.StdinReadError?
  {
    match e
    case FileReadError(reason) => "Error reading file: " + reason + "\n"
    case StdinReadError(reason) => "Error reading stdin: " + reason + "\n"
    case _ => ""
  }

  /** Standard output and failure of the synchronous path: the decoded text and a newline, or nothing. */
  function SyncOutcome(reply: Reply): (r: Outcome)
    ensures r.failure.None? <==> reply.Body? && ResponseText(reply.body).Ok?
    ensures r.failure.None? ==> r.output == ResponseText(reply.body).value + "\n"
    ensures r.failure.Some? ==> r.output == ""
    ensures reply.InvokeFailed? ==> r.failure == Some(InvokeError)
    ensures reply.Body? && ResponseText(reply.body).Err? ==> r.failure == Some(ResponseText(reply.body).error)
  {
    match reply
    case InvokeFailed => Outcome("", Some(InvokeError))
    case Body(body) =>
      match ResponseText(body)
      case Ok(text) => Outcome(text + "\n", None)
      case Err(e) => Outcome("", Some(e))
  }

  /** Standard output and failure of the streaming path. */
  function StreamingOutcome(reply: StreamReply): (r: Outcome)
    ensures reply.StreamInvokeFailed? ==> r == Outcome("", Some(InvokeStreamError))
    ensures reply.Events? ==> r == RunStream(reply.events)
    ensures reply.Events? && NoAbort(reply.events) ==>
      r == Outcome(Text.Concat(Fragments(reply.events)) + "\n", None)
    ensures reply.Events? ==> (r.failure.None? <==> NoAbort(reply.events))
    ensures r.failure.Some? ==> r.failure.value in {InvokeStreamError, UnmarshalChunkError}
  {
    match reply
    case StreamInvokeFailed => Outcome("", Some(InvokeStreamError))
    case Events(events) =>
      StreamFailsIff(events);
      if NoAbort(events) then StreamCompletes(events); RunStream(events) else RunStream(events)
  }

  /**
   * `main` after flag parsing: `stdout` is everything written to standard
   * output, `failure` is the reason for exit status 1 (none: status 0), and
   * `sent` is the input of the one Bedrock call made, if any.
   */
  method Run(args: seq<string>, version: string, streaming: bool, file: Source, stdin: Source,
             configLoads: bool, reply: Reply, streamReply: StreamReply)
    returns (stdout: string, failure: Option<Error>, sent: Option<InvokeInput>)
    ensures var prompt := AssembledPrompt(args, file, stdin);
      var prepared := !file.ReadFailed? && !stdin.ReadFailed? && prompt != "";
      && (sent.Some? <==> prepared && configLoads)
      && (sent.Some? ==> sent.value == InvokeInputFor(Request(ModelIdFor(version), prompt)))
      && (file.ReadFailed? ==> failure == Some(FileReadError(file.reason)))
      && (!file.ReadFailed? && stdin.ReadFailed? ==> failure == Some(StdinReadError(stdin.reason)))
      && (!file.ReadFailed? && !stdin.ReadFailed? && prompt == "" ==> failure == Some(Usage))
      && (!prepared ==> stdout == EarlyFailureOutput(failure.value))
      && (prepared && !configLoads ==> stdout == "" && failure == Some(ConfigError))
      && (sent.Some? && !streaming ==> Outcome(stdout, failure) == SyncOutcome(reply))
      && (sent.Some? && streaming ==> Outcome(stdout, failure) == StreamingOutcome(streamReply))
  {
    var prepared := PrepareRequest(args, version, file, stdin);
    if prepared.Err? {
      return EarlyFailureOutput(prepared.error), Some(prepared.error), None;
    }
    if !configLoads {
      return "", Some(ConfigError), None;
    }
    var input := InvokeInputFor(prepared.value);
    sent := Some(input);
    if streaming {
      match streamReply {
        case StreamInvokeFailed =>
          stdout, failure := "", Some(InvokeStreamError);
        case Events(events) =>
          stdout, failure := DecodeStream(events);
      }
    } else {
      match reply {
        case InvokeFailed =>
          stdout, failure := "", Some(InvokeError);
        case Body(body) =>
          var response := DecodeResponse(body);
          if response.Err? {
            stdout, failure := "", Some(response.error);
          } else {
            stdout, failure := response.value + "\n", None;
          }
      }
    }
  }

  /** Whatever the path, a run that ends with status 0 has ended its output with a newline. */
  lemma SuccessEndsWithNewline(streaming: bool, reply: Reply, streamReply: StreamReply)
    ensures var o := if streaming then StreamingOutcome(streamReply) else SyncOutcome(reply);
      o.failure.None? ==> o.output != [] && o.output[|o.output| - 1] == '\n'
  {
    if streaming && streamReply.Events? {
      var events := streamReply.events;
      StreamFailsIff(events);
      if NoAbort(events) {
        StreamCompletes(events);
      }
    }
  }

  /** The synchronous path writes nothing to standard output unless it succeeds. */
  lemma SyncFailureWritesNothing(reply: Reply)
    ensures SyncOutcome(reply).failure.Some? <==> SyncOutcome(reply).output == ""
  {
  }

  /** {"content":[{"text":"fn "},{"text":"main(){}"}]} prints "fn main(){}" and a newline. */
  lemma SyncExample()
    ensures SyncOutcome(Body(Parsed(Obj(map["content" := Arr([
      Obj(map["text" := Str("fn ")]), Obj(map["text" := Str("main(){}")])])])))) ==
      Outcome("fn main(){}\n", None)
  {
    TwoTextBlocksExample();
  }

  /** {"content":[]} prints nothing and fails. */
  lemma MalformedExample()
    ensures SyncOutcome(Body(Parsed(Obj(map["content" := Arr([])])))) ==
      Outcome("", Some(UnexpectedFormat))
  {
    EmptyContentExample();
  }
}
