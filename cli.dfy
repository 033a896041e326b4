/**
 * What `main` does before any network call: read the optional file and piped
 * standard input, choose the model identifier from the version flag, assemble
 * the prompt and reject an empty one.
 */
module Cli {
  import opened Wrappers
  import opened Errors
  import opened Text

  const Separator := " - use the following file contents:\n"

  /** The version flag's default: the newest supported model. */
  const DefaultVersion := "4"

  const Sonnet4 := "eu.anthropic.claude-sonnet-4-20250514-v1:0"
  const Sonnet37 := "eu.anthropic.claude-3-7-sonnet-20250219-v1:0"
  const Sonnet35 := "eu.anthropic.claude-3-5-sonnet-20240620-v1:0"
  const Sonnet3 := "anthropic.claude-3-sonnet-20240229-v1:0"

  /**
   * An input source: not used (no --file flag, or standard input is a
   * terminal), read with these contents, or failed to read with this reason.
   */
  datatype Source = NotGiven | Contents(text: string) | ReadFailed(reason: string)

  /** The prompt and model identifier that one run sends. */
  datatype Request = Request(modelId: string, prompt: string)

  function SourceText(src: Source): string
  {
    if src.Contents? then src.text else ""
  }

  /** The model identifier for a version flag value; every unknown value falls back to Claude 3 Sonnet. */
  function ModelIdFor(version: string): (id: string)
    ensures id in {Sonnet4, Sonnet37, Sonnet35, Sonnet3}
    ensures id == Sonnet3 <==> version !in {"4", "3.7", "3.5"}
    ensures version == "4" ==> id == Sonnet4
    ensures version == "3.7" ==> id == Sonnet37
    ensures version == "3.5" ==> id == Sonnet35
  {
    if version == "4" then Sonnet4
    else if version == "3.7" then Sonnet37
    else if version == "3.5" then Sonnet35
    else Sonnet3
  }

  /** The three named versions select three different models. */
  lemma ModelIdDistinguishesVersions(v: string, w: string)
    requires v in {"4", "3.7", "3.5"} && w in {"4", "3.7", "3.5"}
    requires ModelIdFor(v) == ModelIdFor(w)
    ensures v == w
  {
  }

  /** Without the flag the newest model is used; "3" has no entry of its own and takes the fallback. */
  lemma DefaultAndLegacyVersions()
    ensures ModelIdFor(DefaultVersion) == Sonnet4
    ensures ModelIdFor("3") == Sonnet3
  {
  }

  /** The file contents followed by piped input, joined by one newline when both are present. */
  function FileBuffer(file: string, stdin: string): (b: string)
    ensures b == "" <==> file == "" && stdin == ""
    ensures file <= b && |stdin| <= |b| && b[|b| - |stdin|..] == stdin
    ensures file != "" && stdin != "" ==> |b| == |file| + 1 + |stdin| && b[|file|] == '\n'
    ensures stdin == "" ==> b == file
    ensures file == "" ==> b == stdin
  {
    if stdin == "" then file
    else if file != "" then file + "\n" + stdin
    else stdin
  }

  /** The arguments joined by spaces, then the separator and the buffer if there is one. */
  function PromptFor(args: seq<string>, buffer: string): (p: string)
    ensures Join(args, " ") <= p
    ensures buffer != "" ==> p[|Join(args, " ")|..] == Separator + buffer
    ensures buffer == "" ==> p == Join(args, " ")
  {
    var p := Join(args, " ");
    if buffer != "" then p + Separator + buffer else p
  }

  /** The prompt built from the arguments and the two inputs. */
  function AssembledPrompt(args: seq<string>, file: Source, stdin: Source): string
  {
    PromptFor(args, FileBuffer(SourceText(file), SourceText(stdin)))
  }

  /**
   * The prompt is empty only when there are no arguments (or one empty one)
   * and neither input has contents; in particular any input gives a prompt.
   */
  lemma PromptEmptyIff(args: seq<string>, file: Source, stdin: Source)
    ensures AssembledPrompt(args, file, stdin) == "" <==>
      (args == [] || args == [""]) && SourceText(file) == "" && SourceText(stdin) == ""
  {
    JoinEmptyIff(args, " ");
  }

  /** The steps of `main` up to the network call, in the order it takes them. */
  method PrepareRequest(args: seq<string>, version: string, file: Source, stdin: Source)
    returns (r: Result<Request, Error>)
    ensures file.ReadFailed? ==> r == Err(FileReadError(file.reason))
    ensures !file.ReadFailed? && stdin.ReadFailed? ==> r == Err(StdinReadError(stdin.reason))
    ensures !file.ReadFailed? && !stdin.ReadFailed? ==>
      (r == Err(Usage) <==> AssembledPrompt(args, file, stdin) == "")
    ensures r.Ok? <==> !file.ReadFailed? && !stdin.ReadFailed? && AssembledPrompt(args, file, stdin) != ""
    ensures r.Ok? ==> r.value == Request(ModelIdFor(version), AssembledPrompt(args, file, stdin))
  {
    var fileBuffer := "";
    match file {
      case ReadFailed(reason) => return Err(FileReadError(reason));
      case Contents(text) => fileBuffer := text;
      case NotGiven =>
    }
    match stdin {
      case ReadFailed(reason) => return Err(StdinReadError(reason));
      case Contents(stdinBytes) =>
        if |stdinBytes| > 0 {
          if fileBuffer != "" {
            fileBuffer := fileBuffer + "\n" + stdinBytes;
          } else {
            fileBuffer := stdinBytes;
          }
        }
      case NotGiven =>
    }
    var modelId := ModelIdFor(version);
    var prompt := Join(args, " ");
    if fileBuffer != "" {
      prompt := prompt + Separator + fileBuffer;
    }
    if prompt == "" {
      return Err(Usage);
    }
    return Ok(Request(modelId, prompt));
  }
}
