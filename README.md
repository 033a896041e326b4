# converse — a Dafny model of its request/response core

`converse` is a command-line client that sends a prompt to a Claude model on
AWS Bedrock and prints the code the model answers with. This project models
the deterministic core of `main.go`:

- **prompt assembly** (`Cli`). `main` reads an optional file and piped standard input. It joins them with one newline.
  It picks the model identifier from the version flag and joins the arguments with spaces.
  If there is a buffer, it appends `" - use the following file contents:\n"` and the buffer.
  An empty prompt is rejected.
- **the request envelope** (`Payload`). This is the same literal in `callClaude` and `streamClaude`:
  version tag `bedrock-2023-05-31`, `max_tokens` 4096*16 = 65536, and one `user` message.
  That message holds one `text` block: the system instruction, a blank line, then the prompt.
- **the synchronous response decoder** (`ResponseDecoder`). This is the `strings.Builder` loop of `callClaude`.
  It is a method proved against the specification function `ResponseText`.
- **the stream event decoder** (`StreamDecoder`). This is the event loop of `streamClaude`.
  It is a method proved against the specification function `RunStream`.
- **the dispatcher** (`Converse.Run`). This is `main` from flag parsing on: it makes at most one of the two calls, never both, and none when preparation fails or the configuration does not load.
  It returns what reaches standard output, the reason for exit status 1, and the request that would be sent.

JSON is a tree datatype (`JsonModel.Json`). The byte-level parser is represented by its outcome,
`Parsed(doc)` or `SyntaxError`. `JsonModel.ToObject` states what Go does when it decodes into `map[string]interface{}`:
- a parse failure fails; `SyntaxError` stands for bytes Go's decoder rejects and also for a number outside the float64 range, which it rejects too;
- which bytes count as `Parsed` differs by path. The response body is read with `json.NewDecoder(...).Decode` (main.go:141, main.go:231-232), so `Parsed(doc)` is the first complete JSON value of the body and any bytes after it are ignored. A chunk goes through `json.Unmarshal` (main.go:202), so `Parsed(doc)` means the whole payload is exactly one JSON value, and trailing bytes make it a `SyntaxError`;
- well-formed documents that are not objects fail;
- `null` succeeds and acts as an empty map.

The Bedrock calls are not modelled. Their replies (`Converse.Reply`, `Converse.StreamReply`) are inputs.
The file contents, standard input and whether the AWS configuration loads are inputs too (`Cli.Source`, `configLoads`).

Two behaviours of the code are easy to miss, and the model keeps them:
- File and stdin read errors are printed with `fmt.Println`, so they go to standard output, not standard error (main.go:38, main.go:49).
  `Converse.EarlyFailureOutput` says so.
- A chunk that is valid JSON but neither an object nor `null` (`[1]`, `"x"`) also aborts the stream.
  This is because decoding it into a map fails.

## Model

| member | source | states |
|---|---|---|
| JsonModel.ToObject | main.go:140-143 | decoding into a Go map fails exactly on a parse failure (`SyntaxError`, which includes out-of-range numbers) or a parsed document that is neither an object nor `null`; an object gives its fields, `null` an empty map |
| JsonModel.StringField | main.go:157 | the comma-ok assertion `m[key].(string)` succeeds exactly when the key is present with a string value, and yields that string |
| JsonModel.ObjectField | main.go:206-207 | the comma-ok assertion `m[key].(map[string]interface{})` succeeds exactly when the key is present with an object value (not `null`), and yields its fields |
| JsonModel.ArrayField | main.go:145 | the comma-ok assertion `m[key].([]interface{})` succeeds exactly when the key is present with an array value (not `null`), and yields its items |
| Text.Join | main.go:72 | `strings.Join`: `""` for no elements; otherwise it starts with the first element and its length is the elements' total length plus one separator between each pair |
| Text.JoinIsSeparated | main.go:72 | a join is the first element followed by every later element, in order, each preceded by exactly one separator |
| Text.JoinSnoc | main.go:72 | joining one more element appends one separator and that element to the join |
| Text.JoinEmptyIff | main.go:72 | `strings.Join(args, " ")` is empty exactly when there are no arguments or one empty argument |
| Payload.BuildPayload | main.go:108-122 | the envelope (built identically at main.go:166-180) is well formed: version `bedrock-2023-05-31`, `max_tokens` 65536, exactly one `user` message with exactly one `text` block whose text is the system prompt, `"\n\n"`, then the prompt |
| Payload.PayloadRoundTrip | main.go:108-122 | the prompt is recovered unchanged from the envelope built for it |
| Payload.WellFormedIsBuilt | main.go:108-122 | conversely every envelope of that shape is exactly the one built for the prompt it carries |
| Payload.BuildPayloadInjective | main.go:166-180 | distinct prompts give distinct envelopes |
| ResponseDecoder.BlockText | main.go:152-157 | an element contributes text exactly when it is an object whose `"text"` is a string, and the text it contributes is that string |
| ResponseDecoder.ContentText | main.go:150-162 | reference definition of the decoded text: `""` for an empty list; otherwise it starts with the first element's contribution (its other properties are the lemmas below) |
| ResponseDecoder.ResponseText | main.go:140-162 | unmarshal error exactly when the body does not decode to a map (a parse failure, or a document that is neither an object nor `null`); a `null` body decodes to an empty map and so gives "unexpected response format"; "unexpected response format" exactly when `"content"` is missing, not a list, or empty; otherwise success with the content text |
| ResponseDecoder.DecodeResponse | main.go:140-162 | the builder loop returns exactly `ResponseText(body)`: the same error, or the in-order concatenation of the element texts |
| ResponseDecoder.ContentTextAppend | main.go:150-160 | the decoded text of two consecutive runs of elements is the concatenation of their decoded texts (no separator) |
| ResponseDecoder.SkippedBlockIsNoOp | main.go:151-159 | an element without a string `"text"`, or not an object, changes nothing wherever it stands |
| ResponseDecoder.TextBlocksConcatenate | main.go:150-162 | N elements carrying texts t1..tN decode to t1 + ... + tN, in list order |
| ResponseDecoder.NoTextsYieldEmpty | main.go:150-162 | elements none of which carries text decode to `""` |
| ResponseDecoder.TextlessContentSucceeds | main.go:145-162 | a non-empty `"content"` list without texts is a success with `""`, not an error |
| ResponseDecoder.TwoTextBlocksExample | main.go:140-162 | `{"content":[{"text":"fn "},{"text":"main(){}"}]}` decodes to `fn main(){}` |
| ResponseDecoder.EmptyContentExample | main.go:145-148 | `{"content":[]}` fails with "unexpected response format" |
| StreamDecoder.EventStep | main.go:199-221 | a chunk aborts exactly when it does not decode to a map; it emits exactly when it has a `"delta"` object with a string `"text"`, and emits that text; everything else is skipped |
| StreamDecoder.RunStream | main.go:198-224 | reference definition of the stream's output and failure: a stream that does not fail ends its output with a newline, and the only failure it reports is the chunk error |
| StreamDecoder.DecodeStream | main.go:198-224 | the event loop writes and returns exactly `RunStream(events)`, returning at once on a chunk that does not decode |
| StreamDecoder.FragmentsAppend | main.go:198-222 | the texts of two consecutive runs of events are those of the first followed by those of the second |
| StreamDecoder.RunStreamAppend | main.go:198-222 | after a run of events that all decode, output continues after that run's texts in arrival order |
| StreamDecoder.StreamCompletes | main.go:198-224 | when every chunk decodes, the output is exactly the delta texts in arrival order and then one `"\n"`, with no error |
| StreamDecoder.StreamAbortKeepsPrefix | main.go:200-204 | at the first chunk that does not decode the stream ends with the chunk error and no newline; the texts before it remain written |
| StreamDecoder.StreamFailsIff | main.go:198-224 | the stream fails exactly when some chunk does not decode, and only with the chunk error |
| StreamDecoder.SilentEventIsNoOp | main.go:206-221 | a chunk with no `"delta"`, a non-object delta, no string `"text"`, an unknown union member or another event changes nothing wherever it stands |
| StreamDecoder.OutputOfPrefixIsKept | main.go:213 | text written for a run of events stays at the head of the output whatever follows |
| StreamDecoder.ThreeChunkExample | main.go:198-224 | `[{"delta":{"text":"a"}}, {}, {"delta":{"text":"b"}}]` writes `ab\n` |
| Cli.ModelIdFor | main.go:61-70 | total: `4` selects Sonnet 4, `3.7` Sonnet 3.7, `3.5` Sonnet 3.5, and every other version (including `3`) the Claude 3 Sonnet fallback, which no named version gets |
| Cli.ModelIdDistinguishesVersions | main.go:61-70 | the three named versions select three different models |
| Cli.DefaultAndLegacyVersions | main.go:27 | the default version `4` selects Sonnet 4, and `3` takes the fallback |
| Cli.FileBuffer | main.go:44-59 | the buffer is empty exactly when both inputs are; with only the file it is the file text, with only stdin it is the stdin text; when both are present it is the file text, one newline, then stdin |
| Cli.PromptFor | main.go:72-75 | the prompt starts with the joined arguments; the separator and the buffer follow only when the buffer is non-empty |
| Cli.PromptEmptyIff | main.go:72-81 | the prompt is empty exactly when there are no arguments (or one empty one) and no input text, so any input text gives a prompt |
| Cli.PrepareRequest | main.go:33-81 | a file read error comes first, then a stdin read error, then usage exactly when the prompt is empty; otherwise the request is the chosen model and the assembled prompt |
| Converse.InvokeInputFor | main.go:129-133 | both calls send the model id, content type `application/json` and the well-formed envelope carrying the prompt (also main.go:187-191) |
| Converse.EarlyFailureOutput | main.go:36-50 | a file read error prints `Error reading file: <reason>` and a newline, a stdin read error `Error reading stdin: <reason>` and a newline, to standard output; no other failure writes to standard output |
| Converse.SyncOutcome | main.go:98-103 | the synchronous path succeeds exactly when the call returns a body that decodes, and then prints the decoded text and a newline; otherwise it prints nothing and fails with the call error or the decoder's error (decoder at main.go:135-162) |
| Converse.StreamingOutcome | main.go:92-96 | a failed streaming call (main.go:193-196) prints nothing and fails; a started stream writes exactly what the stream decoder writes: its delta texts in arrival order and one newline when every chunk decodes, only the texts before the first bad chunk otherwise (main.go:198-224); it fails exactly when some chunk does not decode; its only failures are the call error and the chunk error |
| Converse.Run | main.go:83-104 | one call is sent exactly when preparation succeeds and the configuration loads; it carries the chosen model and the assembled prompt; the synchronous path prints the decoded text and a newline, the streaming path writes the stream decoder's output; every failure is reported |
| Converse.SuccessEndsWithNewline | main.go:103 | on both paths a run that succeeds ends its output with a newline (`Println` on the synchronous path, main.go:223 on the streaming one) |
| Converse.SyncFailureWritesNothing | main.go:98-103 | the synchronous path writes to standard output exactly when it succeeds |
| Converse.SyncExample | main.go:98-103 | `{"content":[{"text":"fn "},{"text":"main(){}"}]}` prints `fn main(){}\n` |
| Converse.MalformedExample | main.go:145-148 | `{"content":[]}` prints nothing and fails with "unexpected response format" |

## Left out

- The AWS SDK is not modelled: loading the configuration, creating the client, `InvokeModel` and `InvokeModelWithResponseStream`. These are networked, credentialed foreign calls. Their outcomes are inputs to `Converse.Run`.
- Byte-level JSON encoding and decoding (`json.Marshal`, `json.Decoder.Decode`, `json.Unmarshal`) is library code and is not modelled. Decoding is represented by its outcome. Marshalling the fixed envelope cannot fail and is treated as total.
- JSON numbers are `real`s, and Go's `float64` rounding is not modelled.
- Go strings are byte strings, while the model's strings are sequences of Unicode characters. The file and stdin contents (main.go:41, main.go:54-56) may hold bytes that are not valid UTF-8, and the model cannot represent those. `json.Marshal` (main.go:124, main.go:182) replaces such bytes with U+FFFD. For such input, the text actually sent differs from the assembled prompt, while `Converse.InvokeInputFor` and `Converse.Run` describe the envelope as carrying the prompt unchanged. Byte-level encoding, including that replacement and JSON escaping, is not modelled.
- JsonModel.ToObject: a document containing a number outside the float64 range (`1e400`) is rejected by Go's decoder. The model does not derive this from the number. Such a document must be given as `SyntaxError`; given as `Parsed`, it would be decoded. So a response body or chunk like that fails only when it is represented as `SyntaxError`.
- The stream's Go channel is a finite sequence of events. There is no concurrency in this core.
- The SDK's event channel also closes when the stream breaks mid-way, and main.go:198-224 never reads the stream's `Err()`. A broken stream therefore ends like a complete one: its texts, one newline, exit status 0. The model does the same, because its event sequence simply ends; it has no transport error for a stream once it has started.
- Flag parsing, `os.Stdin.Stat`, the reading of the file and of standard input, and `os.Exit` are I/O. Their results are inputs (`Cli.Source`) and outputs (`failure`).
  The wording of the messages on standard error, and the usage text, are not modelled.
  A failing `Stat` would make the Go code dereference a nil value; that case is not modelled.
- The `fmt.Errorf` values built for unknown stream events are discarded by the source, so nothing observable is modelled for them.
