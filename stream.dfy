/**
 * The stream event decoder of streamClaude: events arrive in order; each chunk
 * is decoded as a JSON object and the string "text" of its "delta" object is
 * written out at once; a chunk that does not decode ends the whole stream with
 * an error; every other event is ignored; a stream that runs to its end is
 * followed by one newline.
 */
module StreamDecoder {
  import opened Wrappers
  import opened Errors
  import opened JsonModel
  import opened Text

  /** One event of the response stream: a chunk, a union member the SDK does not know, or anything else. */
  datatype Event = Chunk(payload: Parse) | UnknownMember(tag: string) | OtherEvent

  /** What the decoder does with one event. */
  datatype Step = Abort | Emit(text: string) | Skip

  function EventStep(e: Event): (s: Step)
    ensures s.Abort? <==> e.Chunk? && ToObject(e.payload).None?
    ensures s.Emit? <==>
      e.Chunk? && ToObject(e.payload).Some? &&
      (var chunk := ToObject(e.payload).value;
       "delta" in chunk && chunk["delta"].Obj? &&
       "text" in chunk["delta"].fields && chunk["delta"].fields["text"].Str?)
    ensures s.Emit? ==> ToObject(e.payload).value["delta"].fields["text"] == Str(s.text)
  {
    match e
    case Chunk(payload) =>
      (match ToObject(payload)
       case None => Abort
       case Some(chunk) =>
         match ObjectField(chunk, "delta")
         case None => Skip
         case Some(delta) =>
           match StringField(delta, "text")
           case Some(t) => Emit(t)
           case None => Skip)
    case UnknownMember(_) => Skip
    case OtherEvent => Skip
  }

  /** Output already written stays in front of whatever follows. */
  function Prepend(s: string, o: Outcome): Outcome
  {
    Outcome(s + o.output, o.failure)
  }

  /** The whole output of the decoder on a stream, and whether it failed. */
  function RunStream(events: seq<Event>): (r: Outcome)
    ensures r.failure.None? ==> r.output != [] && r.output[|r.output| - 1] == '\n'
    ensures r.failure.Some? ==> r.failure == Some(UnmarshalChunkError)
  {
    if events == [] then Outcome("\n", None)
    else
      match EventStep(events[0])
      case Abort => Outcome("", Some(UnmarshalChunkError))
      case Emit(t) => Prepend(t, RunStream(events[1..]))
      case Skip => RunStream(events[1..])
  }

  /** The texts the events carry, in arrival order. */
  function Fragments(events: seq<Event>): seq<string>
  {
    if events == [] then []
    else
      match EventStep(events[0])
      case Emit(t) => [t] + Fragments(events[1..])
      case _ => Fragments(events[1..])
  }

  /** No chunk among the events fails to decode. */
  predicate NoAbort(events: seq<Event>)
  {
    forall i :: 0 <= i < |events| ==> !EventStep(events[i]).Abort?
  }

  /** The event loop of streamClaude; `output` is everything written to standard output. */
  method DecodeStream(events: seq<Event>) returns (output: string, failure: Option<Error>)
    ensures Outcome(output, failure) == RunStream(events)
  {
    output := "";
    var i := 0;
    while i < |events|
      invariant 0 <= i <= |events|
      invariant RunStream(events) == Prepend(output, RunStream(events[i..]))
    {
      assert events[i..][1..] == events[i + 1..];
      match events[i] {
        case Chunk(payload) =>
          var chunkData := ToObject(payload);
          if chunkData.None? {
            return output, Some(UnmarshalChunkError);
          }
          var delta := ObjectField(chunkData.value, "delta");
          if delta.Some? {
            var content := StringField(delta.value, "text");
            if content.Some? {
              output := output + content.value;
            }
          }
        case UnknownMember(tag) =>
        case OtherEvent =>
      }
      i := i + 1;
    }
    output := output + "\n";
    return output, None;
  }

  lemma {:induction false} FragmentsAppend(a: seq<Event>, b: seq<Event>)
    ensures Fragments(a + b) == Fragments(a) + Fragments(b)
  {
    if a == [] {
      assert a + b == b;
    } else {
      assert (a + b)[1..] == a[1..] + b;
      FragmentsAppend(a[1..], b);
    }
  }

  /** Decoding a stream whose first part decodes cleanly writes that part's texts, then continues. */
  lemma {:induction false} RunStreamAppend(a: seq<Event>, b: seq<Event>)
    requires NoAbort(a)
    ensures RunStream(a + b) == Prepend(Concat(Fragments(a)), RunStream(b))
  {
    if a == [] {
      assert a + b == b;
    } else {
      var ab := a + b;
      assert ab[0] == a[0] && ab[1..] == a[1..] + b;
      assert NoAbort(a[1..]) by {
        forall i | 0 <= i < |a[1..]| ensures !EventStep(a[1..][i]).Abort? {
          assert a[1..][i] == a[i + 1];
        }
      }
      RunStreamAppend(a[1..], b);
      var rest := Concat(Fragments(a[1..]));
      assert !EventStep(a[0]).Abort?;
      match EventStep(a[0]) {
        case Abort =>
          assert false;
        case Emit(t) =>
          assert Fragments(a) == [t] + Fragments(a[1..]);
          assert Concat(Fragments(a)) == t + rest;
          assert RunStream(ab) == Prepend(t, RunStream(a[1..] + b));
        case Skip =>
          assert Fragments(a) == Fragments(a[1..]);
          assert RunStream(ab) == RunStream(a[1..] + b);
      }
    }
  }

  /** A stream in which every chunk decodes writes exactly its texts, in order, and one newline. */
  lemma StreamCompletes(events: seq<Event>)
    requires NoAbort(events)
    ensures RunStream(events) == Outcome(Concat(Fragments(events)) + "\n", None)
  {
    RunStreamAppend(events, []);
    assert events + [] == events;
  }

  /**
   * The first chunk that fails to decode ends the stream with an error and no
   * newline; the texts of the events before it remain written.
   */
  lemma StreamAbortKeepsPrefix(events: seq<Event>, k: nat)
    requires k < |events| && EventStep(events[k]).Abort?
    requires NoAbort(events[..k])
    ensures RunStream(events) == Outcome(Concat(Fragments(events[..k])), Some(UnmarshalChunkError))
  {
    assert events == events[..k] + events[k..];
    RunStreamAppend(events[..k], events[k..]);
  }

  /** The stream fails exactly when some chunk fails to decode, and only with that error. */
  lemma {:induction false} StreamFailsIff(events: seq<Event>)
    ensures RunStream(events).failure.None? <==> NoAbort(events)
    ensures RunStream(events).failure.Some? ==> RunStream(events).failure == Some(UnmarshalChunkError)
  {
    if events != [] {
      StreamFailsIff(events[1..]);
      assert forall i :: 1 <= i < |events| ==> events[i] == events[1..][i - 1];
    }
  }

  /** An unknown member, another event, or a chunk without delta text changes nothing wherever it stands. */
  lemma {:induction false} SilentEventIsNoOp(a: seq<Event>, e: Event, b: seq<Event>)
    requires EventStep(e).Skip?
    ensures RunStream(a + [e] + b) == RunStream(a + b)
  {
    if a == [] {
      assert a + [e] + b == [e] + b;
      assert ([e] + b)[1..] == b;
      assert a + b == b;
    } else {
      assert (a + [e] + b)[0] == a[0] && (a + b)[0] == a[0];
      assert (a + [e] + b)[1..] == a[1..] + [e] + b;
      assert (a + b)[1..] == a[1..] + b;
      SilentEventIsNoOp(a[1..], e, b);
    }
  }

  /** Text written by a stream never depends on what comes after it: outputs only grow. */
  lemma {:induction false} OutputOfPrefixIsKept(a: seq<Event>, b: seq<Event>)
    requires NoAbort(a)
    ensures Concat(Fragments(a)) <= RunStream(a + b).output
  {
    RunStreamAppend(a, b);
  }

  /** [Chunk({"delta":{"text":"a"}}), Chunk({}), Chunk({"delta":{"text":"b"}})] writes "ab\n". */
  lemma ThreeChunkExample()
    ensures RunStream([
      Chunk(Parsed(Obj(map["delta" := Obj(map["text" := Str("a")])]))),
      Chunk(Parsed(Obj(map[]))),
      Chunk(Parsed(Obj(map["delta" := Obj(map["text" := Str("b")])])))]) == Outcome("ab\n", None)
  {
    var a := Chunk(Parsed(Obj(map["delta" := Obj(map["text" := Str("a")])])));
    var empty := Chunk(Parsed(Obj(map[])));
    var b := Chunk(Parsed(Obj(map["delta" := Obj(map["text" := Str("b")])])));
    var events := [a, empty, b];
    assert EventStep(a) == Emit("a") && EventStep(empty) == Skip && EventStep(b) == Emit("b");
    assert events[1..] == [empty, b] && events[1..][1..] == [b] && [b][1..] == [];
    assert RunStream([b]) == Outcome("b\n", None);
    assert RunStream(events) == Outcome("a" + "b\n", None);
    assert "a" + "b\n" == "ab\n";
  }
}
