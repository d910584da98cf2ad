/** A Gemini body as the provider writes it, and the events that are made of it: exactly the texts and the
    calls that were written, arguments included. */
module GeminiBody {
  import opened Options
  import opened JsonValues
  import opened Text
  import opened TextLaws
  import opened SsePrinting
  import opened SseBytes
  import opened ToolCalls
  import opened StreamEvents
  import opened GeminiStream
  import Utf8

  /** A call with its id in one of two places; without arguments it has an empty object. */
  datatype Call = Call(id: Option<string>, isUnderCallId: bool, name: string, args: Option<Json>)

  /** A part may have a text, a call, and more that is not read. */
  datatype Part = Part(text: Option<string>, call: Option<Call>, others: map<string, Json>)

  /** Only the first candidate is read. */
  datatype Reply = Reply(
    parts: seq<Part>,
    content: map<string, Json>,
    candidate: map<string, Json>,
    more: seq<Json>,
    others: map<string, Json>)

  function Field(key: string, value: Option<Json>): map<string, Json> {
    if value.Some? then map[key := value.value] else map[]
  }

  function StrIfAny(text: Option<string>): Option<Json> {
    if text.Some? then Some(Str(text.value)) else None
  }

  function CallJson(call: Call): Json {
    Obj(map["name" := Str(call.name)]
        + Field(if call.isUnderCallId then "callId" else "id", StrIfAny(call.id)) + Field("args", call.args))
  }

  function PartJson(part: Part): Json {
    Obj(part.others + Field("text", StrIfAny(part.text))
        + Field("functionCall", if part.call.Some? then Some(CallJson(part.call.value)) else None))
  }

  function PartsJson(parts: seq<Part>): seq<Json> {
    if parts == [] then [] else [PartJson(parts[0])] + PartsJson(parts[1..])
  }

  function ReplyJson(reply: Reply): Json {
    var content := Obj(reply.content + map["parts" := Arr(PartsJson(reply.parts))]);
    var candidate := Obj(reply.candidate + map["content" := content]);
    Obj(reply.others + map["candidates" := Arr([candidate] + reply.more)])
  }

  predicate IsRightPart(part: Part) {
    && (part.text.None? ==> "text" !in part.others) && (part.call.None? ==> "functionCall" !in part.others)
    && (part.call.Some? ==> part.call.value.name != "")
  }

  predicate AreRightParts(parts: seq<Part>) {
    forall i :: 0 <= i < |parts| ==> IsRightPart(parts[i])
  }

  function CallIn(json: Codec, part: Part): seq<ToolCall> {
    match part.call
    case None => []
    case Some(call) =>
      [ToolCall(call.id, call.name, json.render(if call.args.Some? then call.args.value else Obj(map[])))]
  }

  function TextIn(part: Part): seq<StreamEvent> {
    if part.text.Some? && part.text.value != "" then [TextDelta(part.text.value)] else []
  }

  function CallsIn(json: Codec, parts: seq<Part>): seq<ToolCall> {
    if parts == [] then [] else CallIn(json, parts[0]) + CallsIn(json, parts[1..])
  }

  function TextsIn(parts: seq<Part>): seq<StreamEvent> {
    if parts == [] then [] else TextIn(parts[0]) + TextsIn(parts[1..])
  }

  lemma {:induction false} NamesDiffer()
    ensures "name" != "args" && "name" != "id" && "name" != "callId" && "text" != "functionCall" && "id" != "args"
  {
    assert "name"[0] != "args"[0];
  }

  lemma {:induction false} CallFields(call: Call, key: string)
    ensures var id, args := Field(if call.isUnderCallId then "callId" else "id", StrIfAny(call.id)),
                            Field("args", call.args);
            Get(CallJson(call), key)
            == if key in args then Some(args[key]) else if key in id then Some(id[key])
               else if key == "name" then Some(Str(call.name)) else None
  {
    var name: map<string, Json> := map["name" := Str(call.name)];
    var id := Field(if call.isUnderCallId then "callId" else "id", StrIfAny(call.id));
    FieldOfSum(name + id, Field("args", call.args), key);
    FieldOfSum(name, id, key);
  }

  lemma {:induction false} CallIsRead(call: Call)
    ensures var written := CallJson(call);
            && GetStr(written, "name") == Some(call.name)
            && AsStr(OrElse(Get(written, "id"), Get(written, "callId"))) == call.id
            && Get(written, "args") == call.args
  {
    NamesDiffer();
    CallFields(call, "name");
    CallFields(call, "id");
    CallFields(call, "callId");
    CallFields(call, "args");
  }

  lemma {:induction false} PartIsRead(json: Codec, part: Part)
    requires IsRightPart(part)
    ensures CallOf(json, PartJson(part)) == CallIn(json, part) && DeltaOf(PartJson(part)) == TextIn(part)
  {
    var text := Field("text", StrIfAny(part.text));
    var call := Field("functionCall", if part.call.Some? then Some(CallJson(part.call.value)) else None);
    NamesDiffer();
    FieldOfSum(part.others + text, call, "functionCall");
    FieldOfSum(part.others, text, "functionCall");
    FieldOfSum(part.others + text, call, "text");
    FieldOfSum(part.others, text, "text");
    if part.call.Some? {
      CallIsRead(part.call.value);
    }
  }

  lemma {:induction false} PartsAreRead(json: Codec, parts: seq<Part>)
    requires AreRightParts(parts)
    ensures PartCalls(json, PartsJson(parts)) == CallsIn(json, parts)
    ensures PartDeltas(PartsJson(parts)) == TextsIn(parts)
  {
    if parts != [] {
      PartIsRead(json, parts[0]);
      assert PartsJson(parts)[1..] == PartsJson(parts[1..]);
      assert AreRightParts(parts[1..]);
      PartsAreRead(json, parts[1..]);
    }
  }

  /** The parts of a reply are those of its first candidate. */
  lemma {:induction false} ReplyIsRead(reply: Reply)
    ensures PartsOf(ReplyJson(reply)) == PartsJson(reply.parts)
  {
    var content := Obj(reply.content + map["parts" := Arr(PartsJson(reply.parts))]);
    var candidate := Obj(reply.candidate + map["content" := content]);
    FieldOfSum(reply.others, map["candidates" := Arr([candidate] + reply.more)], "candidates");
    FieldOfSum(reply.candidate, map["content" := content], "content");
    FieldOfSum(reply.content, map["parts" := Arr(PartsJson(reply.parts))], "parts");
    PartsOfFirst(ReplyJson(reply), [candidate] + reply.more, content);
  }

  lemma {:induction false} PartsOfFirst(value: Json, candidates: seq<Json>, content: Json)
    requires Get(value, "candidates") == Some(Arr(candidates)) && candidates != []
    requires Get(candidates[0], "content") == Some(content)
    ensures PartsOf(value) == GetItems(content, "parts")
  {
  }

  // ---------------------------------------------------------------------------------------------
  // The body.

  /** The data lines of a block with the reply they are the JSON text of, or those of the end marker with
      the white space around it. */
  datatype Block =
    | ReplyBlock(lines: seq<string>, reply: Reply)
    | EndBlock(lines: seq<string>, before: string, after: string)

  predicate IsRightBlock(json: Codec, block: Block) {
    match block
    case ReplyBlock(lines, reply) =>
      && Trim(Join(lines, "\n")) != "[DONE]" && json.parse(Join(lines, "\n")) == Some(ReplyJson(reply))
      && AreRightParts(reply.parts)
    case EndBlock(lines, before, after) =>
      IsBlank(before) && IsBlank(after) && Join(lines, "\n") == before + "[DONE]" + after
  }

  predicate AreRightBlocks(json: Codec, blocks: seq<Block>) {
    forall i :: 0 <= i < |blocks| ==> IsRightBlock(json, blocks[i])
  }

  function LinesOf(blocks: seq<Block>): seq<seq<string>> {
    if blocks == [] then [] else [blocks[0].lines] + LinesOf(blocks[1..])
  }

  function PartsIn(blocks: seq<Block>): seq<Part> {
    if blocks == [] then []
    else (if blocks[0].ReplyBlock? then blocks[0].reply.parts else []) + PartsIn(blocks[1..])
  }

  lemma {:induction false} PartsJsonConcat(first: seq<Part>, second: seq<Part>)
    ensures PartsJson(first + second) == PartsJson(first) + PartsJson(second)
  {
    if first == [] {
      assert first + second == second;
    } else {
      assert (first + second)[1..] == first[1..] + second;
      PartsJsonConcat(first[1..], second);
    }
  }

  lemma {:induction false} EndIsTheEnd(json: Codec, block: Block)
    requires block.EndBlock? && IsRightBlock(json, block)
    ensures Trim(Join(block.lines, "\n")) == "[DONE]"
  {
    assert "[DONE]"[0] == '[' && "[DONE]"[5] == ']';
    TrimOf(block.before, "[DONE]", block.after);
  }

  lemma {:induction false} BlocksAreRead(json: Codec, blocks: seq<Block>)
    requires AreRightBlocks(json, blocks)
    ensures AreAcceptable(json, LinesOf(blocks))
    ensures AllParts(json, LinesOf(blocks)) == PartsJson(PartsIn(blocks))
    ensures AreRightParts(PartsIn(blocks))
  {
    if blocks != [] {
      var lines, block := LinesOf(blocks), blocks[0];
      assert IsRightBlock(json, block);
      assert lines[0] == block.lines && lines[1..] == LinesOf(blocks[1..]);
      BlocksAreRead(json, blocks[1..]);
      FirstBlockIsRead(json, block);
      assert forall i :: 0 < i < |lines| ==> lines[i] == lines[1..][i - 1];
      PartsJsonConcat(if block.ReplyBlock? then block.reply.parts else [], PartsIn(blocks[1..]));
    }
  }

  lemma {:induction false} FirstBlockIsRead(json: Codec, block: Block)
    requires IsRightBlock(json, block)
    ensures IsAcceptable(json, block.lines)
    ensures var payload := Join(block.lines, "\n");
            var value := json.parse(payload);
            (if Trim(payload) == "[DONE]" || value.None? then [] else PartsOf(value.value))
            == if block.ReplyBlock? then PartsJson(block.reply.parts) else []
  {
    match block
    case ReplyBlock(_, reply) => ReplyIsRead(reply);
    case EndBlock(_, _, _) => EndIsTheEnd(json, block);
  }

  /** However the bytes of such a body arrive in valid chunks: the events are the texts that were written, in
      order, then the calls, each with its id, its name and its arguments, then the end. */
  lemma {:induction false} WrittenBodyIsRead(json: Codec, chunks: seq<seq<Utf8.Byte>>, body: string,
      fields: seq<seq<SsePrinting.Field>>, lines: seq<Line>, blocks: seq<Block>)
    requires IsWritten(body, fields, lines) && DataOfBlocks(fields) == LinesOf(blocks) && AreRightBlocks(json, blocks)
    requires Concat(chunks) == Utf8.Encode(body) && AllDecode(chunks)
    ensures var parts := PartsIn(blocks);
            && Read(json, chunks).Going?
            && FinalEvents(Read(json, chunks).state)
               == TextsIn(parts) + Completions(Distinct(CallsIn(json, parts))) + [Done]
  {
    WrittenBlocksAreRead(body, fields, lines);
    BlocksAreRead(json, blocks);
    PartsAreRead(json, PartsIn(blocks));
    EventsOfABody(json, chunks, body);
  }
}
