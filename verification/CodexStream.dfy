/** The OpenAI Codex stream reader. */
module CodexStream {
  import opened Options
  import opened JsonValues
  import opened Text
  import opened SseStream
  import opened ToolCalls
  import opened StreamEvents

  /** `first_nonempty_str` */
  function FirstNonempty(value: Option<string>): Option<string> {
    if value.None? then None
    else
      var trimmed := Trim(value.value);
      if trimmed == "" then None else Some(trimmed)
  }

  function AndGet(value: Option<Json>, key: string): Option<Json> {
    if value.Some? then Get(value.value, key) else None
  }

  function ExtractStreamError(event: Json): Option<string> {
    var kind := GetStr(event, "type");
    if kind == Some("error") then
      FirstNonempty(OrElse(GetStr(event, "message"),
                    OrElse(GetStr(event, "code"),
                           AsStr(AndGet(Get(event, "error"), "message")))))
    else if kind == Some("response.failed") then
      FirstNonempty(AsStr(AndGet(AndGet(Get(event, "response"), "error"), "message")))
    else None
  }

  function NormalizeArguments(json: Codec, raw: string): string {
    match json.parse(raw)
    case Some(Obj(fields)) => json.render(Obj(fields))
    case _ => "{}"
  }

  function ParseToolCall(json: Codec, item: Json): Option<ToolCall> {
    var kind := GetStr(item, "type");
    if kind != Some("function_call") && kind != Some("tool_call") then None
    else
      var name := AsStr(OrElse(Get(item, "name"), AndGet(Get(item, "function"), "name")));
      if name == None || name == Some("") then None
      else
        var id := AsStr(OrElse(Get(item, "call_id"), Get(item, "id")));
        var args: Option<Json> :=
            OrElse(Get(item, "arguments"), OrElse(AndGet(Get(item, "function"), "arguments"), Get(item, "args")));
        var argsJson := match args
          case Some(Str(raw)) => NormalizeArguments(json, raw)
          case Some(Obj(fields)) => json.render(Obj(fields))
          case _ => "{}";
        Some(ToolCall(id, name.value, argsJson))
  }

  /** `collect_tool_calls` */
  function CollectToolCalls(json: Codec, node: Json): seq<ToolCall>
    decreases node, 1, 0
  {
    (match ParseToolCall(json, node) case Some(call) => [call] case None => [])
    + CollectFromItems(json, node, GetItems(node, "output"))
    + CollectFromItems(json, node, GetItems(node, "content"))
    + CollectFromItems(json, node, GetItems(node, "tool_calls"))
  }

  function CollectFromItems(json: Codec, node: Json, items: seq<Json>): seq<ToolCall>
    requires forall i :: 0 <= i < |items| ==> items[i] < node
    decreases node, 0, |items|
  {
    if items == [] then []
    else CollectToolCalls(json, items[0]) + CollectFromItems(json, node, items[1..])
  }

  function PartTexts(parts: seq<Json>): seq<string> {
    if parts == [] then []
    else
      var kind := GetStr(parts[0], "type");
      var text := FirstNonempty(GetStr(parts[0], "text"));
      (if (kind == Some("output_text") || kind == Some("input_text") || kind == Some("text")) && text.Some?
       then [text.value] else [])
      + PartTexts(parts[1..])
  }

  function ItemTexts(items: seq<Json>): seq<string> {
    if items == [] then []
    else
      var text := FirstNonempty(GetStr(items[0], "text"));
      (if text.Some? then [text.value] else []) + PartTexts(GetItems(items[0], "content")) + ItemTexts(items[1..])
  }

  /** `parse_output_text` */
  function ParseOutputText(response: Json): Option<string> {
    var direct := FirstNonempty(GetStr(response, "output_text"));
    if direct.Some? then direct
    else
      var chunks := ItemTexts(GetItems(response, "output"));
      if chunks == [] then None else Some(Join(chunks, "\n"))
  }

  // ---------------------------------------------------------------------------------------------
  // The accumulator, without its line buffer and data lines.

  datatype Codex = Codex(list: CallList, sawTextDelta: bool, emittedFallbackText: bool, events: seq<StreamEvent>)


  function EmitDelta(acc: Codex, event: Json): Codex {
    var delta := GetStr(event, "delta");
    if GetStr(event, "type") == Some("response.output_text.delta") && delta.Some? && delta.value != "" then
      acc.(sawTextDelta := true, events := acc.events + [TextDelta(delta.value)])
    else acc
  }

  function EmitFallback(acc: Codex, text: Option<string>): Codex {
    if !acc.sawTextDelta && !acc.emittedFallbackText && text.Some? then
      acc.(emittedFallbackText := true, events := acc.events + [TextDelta(text.value)])
    else acc
  }

  /** The tool calls an event announces, in order. */
  function CallsOf(json: Codec, event: Json): seq<ToolCall> {
    var kind := GetStr(event, "type");
    if kind == Some("response.output_item.done") || kind == Some("response.output_item.added") then
      match Get(event, "item")
      case Some(item) => (match ParseToolCall(json, item) case Some(call) => [call] case None => [])
      case None => []
    else if kind == Some("response.completed") || kind == Some("response.done") then
      match Get(event, "response")
      case Some(response) => CollectToolCalls(json, response)
      case None => []
    else []
  }

  /** The index is right, and only text has been emitted so far: the calls come at the end. */
  predicate Sound(acc: Codex) {
    IsIndexed(acc.list) && OnlyDeltas(acc.events)
  }

  /** `process_event` */
  function ProcessEvent(json: Codec, acc: Codex, event: Json): (fed: Fed<Codex>)
    requires Sound(acc)
    ensures Sound(fed.state)
  {
    match ExtractStreamError(event)
    case Some(message) => Stopped(acc, "openai_codex stream error: " + message)
    case None =>
      var kind := GetStr(event, "type");
      var a := EmitDelta(acc, event);
      var b := if kind == Some("response.output_text.done") then EmitFallback(a, FirstNonempty(GetStr(event, "text")))
          else a;
      var c := if (kind == Some("response.completed") || kind == Some("response.done")) && Get(event, "response").Some?
               then EmitFallback(b, ParseOutputText(Get(event, "response").value)) else b;
      Going(c.(list := RecordAll(c.list, CallsOf(json, event))))
  }

  function ProcessEvents(json: Codec, acc: Codex, values: seq<Json>): (fed: Fed<Codex>)
    requires Sound(acc)
    ensures Sound(fed.state)
    decreases |values|
  {
    if values == [] then Going(acc)
    else
      var fed := ProcessEvent(json, acc, values[0]);
      if fed.Stopped? then fed else ProcessEvents(json, fed.state, values[1..])
  }

  function ParseLines(json: Codec, lines: seq<string>): seq<Json> {
    if lines == [] then []
    else
      var line := Trim(lines[0]);
      var value := json.parse(line);
      (if line == "" || line == "[DONE]" || value.None? then [] else [value.value]) + ParseLines(json, lines[1..])
  }

  /** The JSON values a block of data lines carries. */
  function ValuesOf(json: Codec, dataLines: seq<string>): seq<Json> {
    var payload := Join(dataLines, "\n");
    var trimmed := Trim(payload);
    if trimmed == "" || trimmed == "[DONE]" then []
    else
      match json.parse(trimmed)
      case Some(value) => [value]
      case None => ParseLines(json, Lines(payload))
  }

  type SoundCodex = acc: Codex | Sound(acc) witness Codex(NO_CALLS, false, false, [])

  const START: SoundCodex := Codex(NO_CALLS, false, false, [])

  /** `flush_event` on a non-empty list of data lines. */
  function OnBlock(json: Codec): (SoundCodex, seq<string>) -> Fed<SoundCodex> {
    (acc: SoundCodex, dataLines: seq<string>) => HandleBlock(json, acc, dataLines)
  }

  function HandleBlock(json: Codec, acc: SoundCodex, dataLines: seq<string>): Fed<SoundCodex> {
    match ProcessEvents(json, acc, ValuesOf(json, dataLines))
    case Going(next) => Going(next)
    case Stopped(last, error) => Stopped(last, error)
  }

  /** What `finish` adds once everything has been read. */
  function FinalEvents(acc: Codex): seq<StreamEvent> {
    acc.events + Completions(acc.list.calls) + [Done]
  }
}
