/**
 * The non-streaming response decoder of callClaude: the body must decode to
 * an object whose "content" is a non-empty list; the string "text" fields of
 * the object elements of that list are concatenated in order, and every other
 * element is skipped.
 */
module ResponseDecoder {
  import opened Wrappers
  import opened Errors
  import opened JsonModel
  import opened Text

  /** The text a single element of "content" carries, if it is an object with a string "text". */
  function BlockText(block: Json): (r: Option<string>)
    ensures r.Some? <==> block.Obj? && "text" in block.fields && block.fields["text"].Str?
    ensures r.Some? ==> block.fields["text"] == Str(r.value)
  {
    if block.Obj? then StringField(block.fields, "text") else None
  }

  /** What one element adds to the result: its text, or nothing. */
  function Contribution(block: Json): string
  {
    match BlockText(block)
    case Some(t) => t
    case None => ""
  }

  /** The decoded text of a "content" list: the contributions of its elements, in list order. */
  function ContentText(blocks: seq<Json>): (r: string)
    ensures blocks == [] ==> r == ""
    ensures blocks != [] ==> Contribution(blocks[0]) <= r
  {
    if blocks == [] then "" else Contribution(blocks[0]) + ContentText(blocks[1..])
  }

  /** The outcome of decoding one response body. */
  function ResponseText(body: Parse): (r: Result<string, Error>)
    ensures r == Err(UnmarshalResponseError) <==> ToObject(body).None?
    ensures r == Err(UnexpectedFormat) <==>
      ToObject(body).Some? &&
      (var content := ArrayField(ToObject(body).value, "content");
       content.None? || content.value == [])
    ensures r.Ok? <==>
      ToObject(body).Some? &&
      (var content := ArrayField(ToObject(body).value, "content");
       content.Some? && content.value != [])
    ensures r.Ok? ==> r.value == ContentText(ArrayField(ToObject(body).value, "content").value)
  {
    match ToObject(body)
    case None => Err(UnmarshalResponseError)
    case Some(obj) =>
      match ArrayField(obj, "content")
      case None => Err(UnexpectedFormat)
      case Some(items) =>
        if items == [] then Err(UnexpectedFormat) else Ok(ContentText(items))
  }

  /** The decoding loop of callClaude, with a string builder as accumulator. */
  method DecodeResponse(body: Parse) returns (r: Result<string, Error>)
    ensures r == ResponseText(body)
  {
    var responseBody := ToObject(body);
    if responseBody.None? {
      return Err(UnmarshalResponseError);
    }
    var messages := ArrayField(responseBody.value, "content");
    if messages.None? || |messages.value| == 0 {
      return Err(UnexpectedFormat);
    }
    var items := messages.value;
    var result := "";
    var i := 0;
    while i < |items|
      invariant 0 <= i <= |items|
      invariant result == ContentText(items[..i])
    {
      var msg := items[i];
      assert items[..i + 1] == items[..i] + [msg];
      ContentTextAppend(items[..i], [msg]);
      if msg.Obj? {
        var text := StringField(msg.fields, "text");
        if text.Some? {
          result := result + text.value;
        }
      }
      i := i + 1;
    }
    assert items[..i] == items;
    return Ok(result);
  }

  lemma {:induction false} ContentTextAppend(a: seq<Json>, b: seq<Json>)
    ensures ContentText(a + b) == ContentText(a) + ContentText(b)
  {
    if a == [] {
      assert a + b == b;
    } else {
      assert (a + b)[1..] == a[1..] + b;
      ContentTextAppend(a[1..], b);
    }
  }

  /** An element that is not an object, or has no string "text", changes nothing wherever it stands. */
  lemma SkippedBlockIsNoOp(a: seq<Json>, x: Json, b: seq<Json>)
    requires BlockText(x).None?
    ensures ContentText(a + [x] + b) == ContentText(a + b)
  {
    ContentTextAppend(a + [x], b);
    ContentTextAppend(a, [x]);
    ContentTextAppend(a, b);
  }

  /** A list whose elements all carry text decodes to those texts joined with no separator. */
  lemma {:induction false} TextBlocksConcatenate(blocks: seq<Json>, texts: seq<string>)
    requires |blocks| == |texts|
    requires forall i :: 0 <= i < |blocks| ==> BlockText(blocks[i]) == Some(texts[i])
    ensures ContentText(blocks) == Concat(texts)
  {
    if blocks != [] {
      TextBlocksConcatenate(blocks[1..], texts[1..]);
    }
  }

  /** A list in which no element carries text decodes to the empty string. */
  lemma {:induction false} NoTextsYieldEmpty(blocks: seq<Json>)
    requires forall i :: 0 <= i < |blocks| ==> BlockText(blocks[i]).None?
    ensures ContentText(blocks) == ""
  {
    if blocks != [] {
      NoTextsYieldEmpty(blocks[1..]);
    }
  }

  /** A non-empty "content" list in which no element carries text is a success with "". */
  lemma TextlessContentSucceeds(content: seq<Json>)
    requires content != []
    requires forall i :: 0 <= i < |content| ==> BlockText(content[i]).None?
    ensures ResponseText(Parsed(Obj(map["content" := Arr(content)]))) == Ok("")
  {
    NoTextsYieldEmpty(content);
  }

  /** {"content":[{"text":"fn "},{"text":"main(){}"}]} decodes to "fn main(){}". */
  lemma TwoTextBlocksExample()
    ensures ResponseText(Parsed(Obj(map["content" := Arr([
      Obj(map["text" := Str("fn ")]), Obj(map["text" := Str("main(){}")])])]))) == Ok("fn main(){}")
  {
    var blocks := [Obj(map["text" := Str("fn ")]), Obj(map["text" := Str("main(){}")])];
    TextBlocksConcatenate(blocks, ["fn ", "main(){}"]);
    assert Concat(["fn ", "main(){}"]) == "fn " + Concat(["main(){}"]);
    assert Concat(["main(){}"]) == "main(){}" + Concat([]);
    assert "fn " + "main(){}" == "fn main(){}";
    var body := Parsed(Obj(map["content" := Arr(blocks)]));
    assert ArrayField(ToObject(body).value, "content") == Some(blocks);
    assert ResponseText(body) == Ok(ContentText(blocks));
    assert ContentText(blocks) == "fn main(){}";
  }

  /** {"content":[]} is malformed. */
  lemma EmptyContentExample()
    ensures ResponseText(Parsed(Obj(map["content" := Arr([])]))) == Err(UnexpectedFormat)
  {
  }
}
