/** The Gemini stream reader. A block that is not JSON is an error here. */
module GeminiStream {
  import opened Options
  import opened JsonValues
  import opened Text
  import opened SseStream
  import opened SseBytes
  import opened ToolCalls
  import opened StreamEvents
  import Utf8

  const INVALID_BYTES := "invalid gemini stream bytes"
  const INVALID_EVENT := "invalid gemini stream event"

  /** `parse_tool_call_part` */
  function ParseToolCallPart(json: Codec, part: Json): Option<ToolCall> {
    match Get(part, "functionCall")
    case None => None
    case Some(call) =>
      var name := GetStr(call, "name");
      if name == None || name == Some("") then None
      else
        var id := AsStr(OrElse(Get(call, "id"), Get(call, "callId")));
        var args: Option<Json> := Get(call, "args");
        Some(ToolCall(id, name.value, json.render(if args.Some? then args.value else Obj(map[]))))
  }

  /** The parts of the first candidate. */
  function PartsOf(value: Json): seq<Json> {
    var candidates := GetItems(value, "candidates");
    if candidates == [] then []
    else
      match Get(candidates[0], "content")
      case None => []
      case Some(content) => GetItems(content, "parts")
  }

  datatype Gemini = Gemini(list: CallList, events: seq<StreamEvent>)

  predicate Sound(acc: Gemini) {
    IsIndexed(acc.list) && OnlyDeltas(acc.events)
  }

  type SoundGemini = acc: Gemini | Sound(acc) witness Gemini(NO_CALLS, [])

  const START: SoundGemini := Gemini(NO_CALLS, [])

  type Pending = (SoundGemini, seq<string>)

  const BEGIN: Pending := (START, [])

  function CallOf(json: Codec, part: Json): seq<ToolCall> {
    match ParseToolCallPart(json, part)
    case Some(call) => [call]
    case None => []
  }

  function DeltaOf(part: Json): seq<StreamEvent> {
    var text := GetStr(part, "text");
    if text.Some? && text.value != "" then [TextDelta(text.value)] else []
  }

  function ProcessPart(json: Codec, acc: SoundGemini, part: Json): SoundGemini {
    Gemini(RecordAll(acc.list, CallOf(json, part)), acc.events + DeltaOf(part))
  }

  function ProcessParts(json: Codec, acc: SoundGemini, parts: seq<Json>): SoundGemini
    decreases |parts|
  {
    if parts == [] then acc else ProcessParts(json, ProcessPart(json, acc, parts[0]), parts[1..])
  }

  /** `flush_event` on a non-empty list of data lines. */
  function HandleBlock(json: Codec, acc: SoundGemini, dataLines: seq<string>): Fed<SoundGemini> {
    var payload := Join(dataLines, "\n");
    if Trim(payload) == "[DONE]" then Going(acc)
    else
      match json.parse(payload)
      case None => Stopped(acc, INVALID_EVENT)
      case Some(value) => Going(ProcessParts(json, acc, PartsOf(value)))
  }

  function OnBlock(json: Codec): (SoundGemini, seq<string>) -> Fed<SoundGemini> {
    (acc: SoundGemini, dataLines: seq<string>) => HandleBlock(json, acc, dataLines)
  }

  function FinalEvents(acc: Gemini): seq<StreamEvent> {
    acc.events + Completions(acc.list.calls) + [Done]
  }

  /** The accumulator on chunks of bytes, up to the final events. */
  function Read(json: Codec, chunks: seq<seq<Utf8.Byte>>): Fed<SoundGemini> {
    ReadBytes<SoundGemini>(START, chunks, OnBlock(json), INVALID_BYTES)
  }

  /** Two ways of cutting the same text at character boundaries give the same state and events, or
      the same events and the same error: what folding over the blocks of the text gives. */
  lemma {:induction false} ChunkingDoesNotMatter(json: Codec, texts: seq<string>, others: seq<string>)
    requires Flatten(texts) == Flatten(others)
    ensures ReadStream<SoundGemini>(START, texts, OnBlock(json))
        == ReadStream<SoundGemini>(START, others, OnBlock(json))
    ensures ReadStream<SoundGemini>(START, texts, OnBlock(json))
         == FoldBlocks<SoundGemini>(START, Blocks(SplitLines(Flatten(texts)), []), OnBlock(json))
  {
    ReadingAStreamIsFoldingItsBlocks<SoundGemini>(START, texts, OnBlock(json));
    ReadingAStreamIsFoldingItsBlocks<SoundGemini>(START, others, OnBlock(json));
  }

  // ---------------------------------------------------------------------------------------------
  // What a successful read delivers.

  function PartCalls(json: Codec, parts: seq<Json>): seq<ToolCall> {
    if parts == [] then [] else CallOf(json, parts[0]) + PartCalls(json, parts[1..])
  }

  function PartDeltas(parts: seq<Json>): seq<StreamEvent> {
    if parts == [] then [] else DeltaOf(parts[0]) + PartDeltas(parts[1..])
  }

  /** The parts of all the blocks that carry a value. */
  function AllParts(json: Codec, blocks: seq<seq<string>>): seq<Json> {
    if blocks == [] then []
    else
      var payload := Join(blocks[0], "\n");
      var value := json.parse(payload);
      (if Trim(payload) == "[DONE]" || value.None? then [] else PartsOf(value.value)) + AllParts(json, blocks[1..])
  }

  lemma {:induction false} PartsRecordTheirCalls(json: Codec, acc: SoundGemini, parts: seq<Json>)
    ensures ProcessParts(json, acc, parts).list == RecordAll(acc.list, PartCalls(json, parts))
    decreases |parts|
  {
    if parts != [] {
      PartsRecordTheirCalls(json, ProcessPart(json, acc, parts[0]), parts[1..]);
      RecordAllConcat(acc.list, CallOf(json, parts[0]), PartCalls(json, parts[1..]));
    }
  }

  lemma {:induction false} AppendIsAssociative(a: seq<StreamEvent>, b: seq<StreamEvent>, c: seq<StreamEvent>)
    ensures (a + b) + c == a + (b + c)
  {
  }

  lemma {:induction false} PartsEmitTheirTexts(json: Codec, acc: SoundGemini, parts: seq<Json>)
    ensures ProcessParts(json, acc, parts).events == acc.events + PartDeltas(parts)
    decreases |parts|
  {
    if parts == [] {
      assert PartDeltas(parts) == [];
    } else {
      var next := ProcessPart(json, acc, parts[0]);
      PartsEmitTheirTexts(json, next, parts[1..]);
      AppendIsAssociative(acc.events, DeltaOf(parts[0]), PartDeltas(parts[1..]));
      assert next.events == acc.events + DeltaOf(parts[0]);
    }
  }

  lemma {:induction false} ProcessPartsConcat(json: Codec, acc: SoundGemini, first: seq<Json>, second: seq<Json>)
    ensures ProcessParts(json, acc, first + second) == ProcessParts(json, ProcessParts(json, acc, first), second)
    decreases |first|
  {
    if first == [] {
      assert first + second == second;
    } else {
      assert (first + second)[1..] == first[1..] + second;
      ProcessPartsConcat(json, ProcessPart(json, acc, first[0]), first[1..], second);
    }
  }

  /** The block ends the stream politely or carries a value; any other is an error. */
  predicate IsAcceptable(json: Codec, block: seq<string>) {
    var payload := Join(block, "\n");
    Trim(payload) == "[DONE]" || json.parse(payload).Some?
  }

  predicate AreAcceptable(json: Codec, blocks: seq<seq<string>>) {
    forall i :: 0 <= i < |blocks| ==> IsAcceptable(json, blocks[i])
  }

  lemma {:induction false} BlocksAccumulate(json: Codec, acc: SoundGemini, blocks: seq<seq<string>>)
    ensures var fed := FoldBlocks<SoundGemini>(acc, blocks, OnBlock(json));
            && (fed.Going? <==> AreAcceptable(json, blocks))
            && (fed.Going? ==> fed.state == ProcessParts(json, acc, AllParts(json, blocks)))
    decreases |blocks|
  {
    if blocks != [] {
      var fed := HandleBlock(json, acc, blocks[0]);
      assert fed.Going? <==> IsAcceptable(json, blocks[0]);
      if fed.Going? {
        BlocksAccumulate(json, fed.state, blocks[1..]);
        assert AreAcceptable(json, blocks) <==> AreAcceptable(json, blocks[1..]) by {
          assert forall i :: 0 < i < |blocks| ==> blocks[i] == blocks[1..][i - 1];
          assert forall i :: 0 <= i < |blocks[1..]| ==> blocks[1..][i] == blocks[i + 1];
        }
        var payload := Join(blocks[0], "\n");
        var value := json.parse(payload);
        var parts := if Trim(payload) == "[DONE]" || value.None? then [] else PartsOf(value.value);
        ProcessPartsConcat(json, acc, parts, AllParts(json, blocks[1..]));
      }
    }
  }

  lemma {:induction false} BodyIsReadIff(json: Codec, chunks: seq<seq<Utf8.Byte>>, body: string)
    requires Concat(chunks) == Utf8.Encode(body)
    ensures Read(json, chunks).Going?
       <==> AllDecode(chunks) && AreAcceptable(json, Blocks(SplitLines(body), []))
  {
    var blocks := Blocks(SplitLines(body), []);
    BlocksAccumulate(json, START, blocks);
    var end := ProcessParts(json, START, AllParts(json, blocks));
    ReadingBytesIsFoldingBlocksIff<SoundGemini>(START, chunks, body, OnBlock(json), INVALID_BYTES, end);
    if Read(json, chunks).Going? {
      var seen := Read(json, chunks).state;
      ReadingBytesIsFoldingBlocksIff<SoundGemini>(START, chunks, body, OnBlock(json), INVALID_BYTES, seen);
    }
  }

  /** However the bytes of a body arrive: they are read to the end if and only if every chunk is valid
      UTF-8 by itself and every block of the body is "[DONE]" or JSON. Then the events are the non-empty
      texts of all parts in order, then each announced call once, at its first place and with its last
      value (calls without an id all kept), then Done. */
  lemma {:induction false} EventsOfABody(json: Codec, chunks: seq<seq<Utf8.Byte>>, body: string)
    requires Concat(chunks) == Utf8.Encode(body)
    ensures var blocks := Blocks(SplitLines(body), []);
            var read := Read(json, chunks);
            && (read.Going? <==> AllDecode(chunks) && AreAcceptable(json, blocks))
            && (read.Going? ==>
                  var parts := AllParts(json, blocks);
                  FinalEvents(read.state)
                  == PartDeltas(parts) + Completions(Distinct(PartCalls(json, parts))) + [Done])
  {
    BodyIsReadIff(json, chunks, body);
    if Read(json, chunks).Going? {
      EventsOfAReadBody(json, chunks, body);
    }
  }

  lemma {:induction false} EventsOfAReadBody(json: Codec, chunks: seq<seq<Utf8.Byte>>, body: string)
    requires Concat(chunks) == Utf8.Encode(body) && Read(json, chunks).Going?
    ensures var parts := AllParts(json, Blocks(SplitLines(body), []));
            FinalEvents(Read(json, chunks).state)
            == PartDeltas(parts) + Completions(Distinct(PartCalls(json, parts))) + [Done]
  {
    var acc := Read(json, chunks).state;
    var blocks := Blocks(SplitLines(body), []);
    var parts := AllParts(json, blocks);
    ReadingBytesIsFoldingBlocksIff<SoundGemini>(START, chunks, body, OnBlock(json), INVALID_BYTES, acc);
    BlocksAccumulate(json, START, blocks);
    PartsRecordTheirCalls(json, START, parts);
    PartsEmitTheirTexts(json, START, parts);
    RecordingKeepsDistinctCalls(PartCalls(json, parts));
    assert START.events + PartDeltas(parts) == PartDeltas(parts);
  }
}
