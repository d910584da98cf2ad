/** A whole body as the provider writes it, and the response that is made of it: exactly the texts and the
    calls that were written, arguments included, or the first error. */
module CodexBody {
  import opened Options
  import opened JsonValues
  import opened Text
  import opened TextLaws
  import opened SsePrinting
  import opened SseBytes
  import opened ToolCalls
  import opened StreamEvents
  import opened CodexStream
  import opened CodexTurn
  import opened CodexItems
  import opened CodexTexts
  import CodexResponse
  import Utf8

  /** What an event can say. The text of a response event is that of the response it carries. */
  datatype Written =
    | Delta(delta: string)
    | WholeText(text: Padded)
    | ItemEvent(isDone: bool, call: Call, style: Style)
    | ResponseEvent(isDone: bool, tree: Tree)
    | ErrorEvent(place: ErrorPlace, text: Padded, others: map<string, Json>)
    | OtherEvent(value: Json)

  function TypedEvent(kind: string, key: string, value: Json): Json {
    Obj(map["type" := Str(kind)] + map[key := value])
  }

  function ValueOf(json: Codec, written: Written): Json {
    match written
    case Delta(text) => TypedEvent("response.output_text.delta", "delta", Str(text))
    case WholeText(text) => TypedEvent("response.output_text.done", "text", Str(Plain(text)))
    case ItemEvent(isDone, call, style) =>
      TypedEvent(if isDone then "response.output_item.done" else "response.output_item.added", "item",
                 ItemOf(json, call, style))
    case ResponseEvent(isDone, tree) =>
      TypedEvent(if isDone then "response.done" else "response.completed", "response", TreeJson(json, tree))
    case ErrorEvent(place, text, others) => ErrorJson(place, text, others)
    case OtherEvent(value) => value
  }

  const KINDS := {
    "response.output_text.delta", "response.output_text.done", "response.output_item.done",
    "response.output_item.added", "response.completed", "response.done", "error", "response.failed"}

  predicate IsRight(json: Codec, written: Written) {
    match written
    case Delta(_) => true
    case WholeText(text) => IsPadded(text)
    case ItemEvent(_, call, style) => Fits(style, call) && call.name != "" && IsReadBack(json, call.arguments)
    case ResponseEvent(_, tree) => tree.Group? && IsRightTree(json, tree)
    case ErrorEvent(place, text, others) => IsFirstMessage(place, others) && IsPadded(text) && text.core != ""
    case OtherEvent(value) => GetStr(value, "type").Some? ==> GetStr(value, "type").value !in KINDS
  }

  function DeltaIn(written: Written): Option<string> {
    if written.Delta? && written.delta != "" then Some(written.delta) else None
  }

  function WholeTextIn(json: Codec, written: Written): Option<string> {
    match written
    case WholeText(text) => FirstShown(Some(text))
    case ResponseEvent(_, tree) => ParseOutputText(TreeJson(json, tree))
    case _ => None
  }

  function ErrorIn(written: Written): Option<string> {
    if written.ErrorEvent? then Some(written.text.core) else None
  }

  function CallsIn(json: Codec, written: Written): seq<ToolCall> {
    match written
    case ItemEvent(_, call, _) => [ToolCallOf(json, call)]
    case ResponseEvent(_, tree) => CodexItems.CallsIn(json, tree)
    case _ => []
  }

  /** The reader finds in the value what was written, and nothing else. */
  predicate Says(json: Codec, value: Json, written: Written) {
    && ExtractStreamError(value) == ErrorIn(written)
    && (ErrorIn(written).None? ==>
          && CodexResponse.DeltaOf(value) == DeltaIn(written)
          && CodexResponse.WholeTextOf(value) == WholeTextIn(json, written)
          && CallsOf(json, value) == CallsIn(json, written))
  }

  lemma {:induction false} TypedEventHas(kind: string, key: string, value: Json)
    requires key != "type"
    ensures GetStr(TypedEvent(kind, key, value), "type") == Some(kind)
    ensures Get(TypedEvent(kind, key, value), key) == Some(value)
  {
  }

  lemma {:induction false} KeysAreNoTypes()
    ensures "delta" != "type" && "text" != "type" && "item" != "type" && "response" != "type"
  {
    assert "text"[1] != "type"[1] && "item"[0] != "type"[0];
  }

  lemma {:induction false} KindsDiffer()
    ensures "response.output_text.delta" != "response.output_item.added"
    ensures "response.output_text.done" != "response.output_item.done"
    ensures "response.completed" != "response.done"
  {
    assert "response.output_text.delta"[16] != "response.output_item.added"[16];
    assert "response.output_text.done"[16] != "response.output_item.done"[16];
  }

  lemma {:induction false} DeltaSays(json: Codec, text: string)
    ensures Says(json, ValueOf(json, Delta(text)), Delta(text))
  {
    KeysAreNoTypes();
    KindsDiffer();
    TypedEventHas("response.output_text.delta", "delta", Str(text));
  }

  lemma {:induction false} WholeTextSays(json: Codec, text: Padded)
    requires IsPadded(text)
    ensures Says(json, ValueOf(json, WholeText(text)), WholeText(text))
  {
    KeysAreNoTypes();
    KindsDiffer();
    TypedEventHas("response.output_text.done", "text", Str(Plain(text)));
    PaddedIsShown(Some(text));
  }

  lemma {:induction false} ItemSays(json: Codec, isDone: bool, call: Call, style: Style)
    requires IsRight(json, ItemEvent(isDone, call, style))
    ensures Says(json, ValueOf(json, ItemEvent(isDone, call, style)), ItemEvent(isDone, call, style))
  {
    KeysAreNoTypes();
    KindsDiffer();
    var kind := if isDone then "response.output_item.done" else "response.output_item.added";
    var item := ItemOf(json, call, style);
    TypedEventHas(kind, "item", item);
    WrittenCallIsRead(json, call, style);
    ItemEventSays(json, TypedEvent(kind, "item", item), kind, item, ToolCallOf(json, call));
  }

  lemma {:induction false} ItemEventSays(json: Codec, value: Json, kind: string, item: Json, call: ToolCall)
    requires GetStr(value, "type") == Some(kind) && Get(value, "item") == Some(item)
    requires kind == "response.output_item.done" || kind == "response.output_item.added"
    requires ParseToolCall(json, item) == Some(call)
    ensures ExtractStreamError(value).None? && CallsOf(json, value) == [call]
    ensures CodexResponse.DeltaOf(value).None? && CodexResponse.WholeTextOf(value).None?
  {
    KindsDiffer();
  }

  lemma {:induction false} ResponseSays(json: Codec, isDone: bool, tree: Tree)
    requires IsRight(json, ResponseEvent(isDone, tree))
    ensures Says(json, ValueOf(json, ResponseEvent(isDone, tree)), ResponseEvent(isDone, tree))
  {
    KeysAreNoTypes();
    KindsDiffer();
    TypedEventHas(if isDone then "response.done" else "response.completed", "response", TreeJson(json, tree));
    WrittenCallsAreCollected(json, tree);
  }

  lemma {:induction false} OtherSays(json: Codec, value: Json)
    requires IsRight(json, OtherEvent(value))
    ensures Says(json, value, OtherEvent(value))
  {
  }

  lemma {:induction false} WrittenSays(json: Codec, written: Written)
    requires IsRight(json, written)
    ensures Says(json, ValueOf(json, written), written)
  {
    match written
    case Delta(text) => DeltaSays(json, text);
    case WholeText(text) => WholeTextSays(json, text);
    case ItemEvent(isDone, call, style) => ItemSays(json, isDone, call, style);
    case ResponseEvent(isDone, tree) => ResponseSays(json, isDone, tree);
    case ErrorEvent(place, text, others) => WrittenErrorIsRead(place, text, others);
    case OtherEvent(value) => OtherSays(json, value);
  }

  // ---------------------------------------------------------------------------------------------
  // The response to a list of events.

  function ValuesIn(json: Codec, events: seq<Written>): seq<Json> {
    if events == [] then [] else [ValueOf(json, events[0])] + ValuesIn(json, events[1..])
  }

  predicate AreRight(json: Codec, events: seq<Written>) {
    forall i :: 0 <= i < |events| ==> IsRight(json, events[i])
  }

  function FirstErrorIn(events: seq<Written>): Option<string> {
    if events == [] then None else if events[0].ErrorEvent? then ErrorIn(events[0]) else FirstErrorIn(events[1..])
  }

  function DeltasIn(events: seq<Written>): string {
    if events == [] then "" else (if events[0].Delta? then events[0].delta else "") + DeltasIn(events[1..])
  }

  function AllCallsIn(json: Codec, events: seq<Written>): seq<ToolCall> {
    if events == [] then [] else CallsIn(json, events[0]) + AllCallsIn(json, events[1..])
  }

  /** The first whole text, if no delta comes before it. */
  function OpeningIn(json: Codec, events: seq<Written>): string {
    if events == [] || DeltaIn(events[0]).Some? then ""
    else if WholeTextIn(json, events[0]).Some? then WholeTextIn(json, events[0]).value
    else OpeningIn(json, events[1..])
  }

  function TurnOfWritten(json: Codec, events: seq<Written>): Turn {
    match FirstErrorIn(events)
    case Some(message) => Failure("openai_codex stream error: " + message)
    case None =>
      Response(IfAny(OpeningIn(json, events) + DeltasIn(events)), Distinct(AllCallsIn(json, events)))
  }

  /** A response without text has none. */
  function IfAny(text: string): Option<string> {
    if |text| > 0 then Some(text) else None
  }

  lemma {:induction false} EventsSay(json: Codec, events: seq<Written>)
    requires AreRight(json, events)
    ensures var values := ValuesIn(json, events);
            && CodexResponse.FirstError(values) == FirstErrorIn(events)
            && (FirstErrorIn(events).None? ==>
                  && CodexResponse.Deltas(values) == DeltasIn(events)
                  && CodexResponse.Opening(values) == OpeningIn(json, events)
                  && EventCalls(json, values) == AllCallsIn(json, events))
  {
    if events != [] {
      var values := ValuesIn(json, events);
      WrittenSays(json, events[0]);
      assert values[0] == ValueOf(json, events[0]) && values[1..] == ValuesIn(json, events[1..]);
      assert AreRight(json, events[1..]);
      EventsSay(json, events[1..]);
    }
  }

  lemma {:induction false} CallsOfTheValues(json: Codec, blocks: seq<seq<string>>)
    ensures BlockCalls(json, blocks) == EventCalls(json, CodexResponse.AllValues(json, blocks))
  {
    if blocks != [] {
      CallsOfTheValues(json, blocks[1..]);
      EventCallsConcat(json, ValuesOf(json, blocks[0]), CodexResponse.AllValues(json, blocks[1..]));
    }
  }

  lemma {:induction false} EventCallsConcat(json: Codec, first: seq<Json>, second: seq<Json>)
    ensures EventCalls(json, first + second) == EventCalls(json, first) + EventCalls(json, second)
  {
    if first == [] {
      assert first + second == second;
    } else {
      assert (first + second)[1..] == first[1..] + second;
      EventCallsConcat(json, first[1..], second);
    }
  }

  // ---------------------------------------------------------------------------------------------
  // The data of a block.

  /** A data line: an event on one line, the end marker, or something that is no JSON. */
  datatype Entry = Event(written: Written) | DoneMarker | Noise(text: string)

  predicate IsOneLine(text: string) {
    text != "" && IsTrimmed(text) && '\n' !in text && '\r' !in text
  }

  /** The library prints the event as one line and reads it back. */
  predicate IsPrinted(json: Codec, value: Json) {
    && IsOneLine(json.render(value)) && json.render(value) != "[DONE]"
    && json.parse(json.render(value)) == Some(value)
  }

  predicate IsRightEntry(json: Codec, entry: Entry) {
    match entry
    case Event(written) => IsRight(json, written) && IsPrinted(json, ValueOf(json, written))
    case DoneMarker => true
    case Noise(text) => IsOneLine(text) && text != "[DONE]" && json.parse(text).None?
  }

  function EntryText(json: Codec, entry: Entry): string {
    match entry
    case Event(written) => json.render(ValueOf(json, written))
    case DoneMarker => "[DONE]"
    case Noise(text) => text
  }

  function EntryTexts(json: Codec, entries: seq<Entry>): seq<string> {
    if entries == [] then [] else [EntryText(json, entries[0])] + EntryTexts(json, entries[1..])
  }

  function EventsIn(entries: seq<Entry>): seq<Written> {
    if entries == [] then []
    else (if entries[0].Event? then [entries[0].written] else []) + EventsIn(entries[1..])
  }

  /** Several lines are not by chance one JSON text together. */
  predicate IsRightBlock(json: Codec, entries: seq<Entry>) {
    && entries != []
    && (forall i :: 0 <= i < |entries| ==> IsRightEntry(json, entries[i]))
    && (|entries| > 1 ==> json.parse(Join(EntryTexts(json, entries), "\n")).None?)
  }

  lemma {:induction false} OneLineIsTrimmed(text: string)
    requires IsTrimmed(text)
    ensures Trim(text) == text
  {
    TrimOf("", text, "");
    assert "" + text + "" == text;
  }

  lemma {:induction false} EntryIsOneLine(json: Codec, entry: Entry)
    requires IsRightEntry(json, entry)
    ensures IsOneLine(EntryText(json, entry)) && Trim(EntryText(json, entry)) == EntryText(json, entry)
  {
    assert "[DONE]"[0] == '[' && "[DONE]"[5] == ']';
    OneLineIsTrimmed(EntryText(json, entry));
  }

  lemma {:induction false} EntryValue(json: Codec, entry: Entry)
    requires IsRightEntry(json, entry)
    ensures ValuesOf(json, [EntryText(json, entry)])
         == if entry.Event? then [ValueOf(json, entry.written)] else []
  {
    EntryIsOneLine(json, entry);
    var text := EntryText(json, entry);
    assert Join([text], "\n") == text;
    match entry
    case Event(_) =>
    case DoneMarker =>
    case Noise(_) =>
      LinesOfOneLine(text);
      assert [text][1..] == [] && ParseLines(json, []) == [];
      assert ParseLines(json, [text]) == [] + [];
  }

  lemma {:induction false} LinesOfOneLine(text: string)
    requires IsOneLine(text)
    ensures Lines(text) == [text]
  {
    assert forall i :: 0 <= i < |text| ==> text[i] in text;
    assert FindChar(text, '\n').None?;
  }

  lemma {:induction false} LinesOfMore(text: string, rest: string)
    requires IsOneLine(text) && rest != "" && IsTrimmed(rest)
    ensures var payload := text + "\n" + rest;
            IsTrimmed(payload) && '\n' in payload && Lines(payload) == [text] + Lines(rest)
  {
    var payload := text + "\n" + rest;
    assert payload[|text|] == '\n';
    FirstLineFeed(text, rest);
    assert payload[..|text|] == text && payload[|text| + 1..] == rest;
    assert payload[0] == text[0] && payload[|payload| - 1] == rest[|rest| - 1];
    assert text[|text| - 1] in text;
  }

  lemma {:induction false} JoinedEntries(json: Codec, entries: seq<Entry>)
    requires entries != [] && forall i :: 0 <= i < |entries| ==> IsRightEntry(json, entries[i])
    ensures var payload := Join(EntryTexts(json, entries), "\n");
            && payload != "" && IsTrimmed(payload)
            && (|entries| > 1 ==> '\n' in payload)
            && Lines(payload) == EntryTexts(json, entries)
  {
    var text := EntryText(json, entries[0]);
    EntryIsOneLine(json, entries[0]);
    if |entries| == 1 {
      assert EntryTexts(json, entries) == [text];
      LinesOfOneLine(text);
    } else {
      var rest := Join(EntryTexts(json, entries[1..]), "\n");
      JoinedEntries(json, entries[1..]);
      assert EntryTexts(json, entries)[1..] == EntryTexts(json, entries[1..]);
      assert Join(EntryTexts(json, entries), "\n") == text + "\n" + rest;
      LinesOfMore(text, rest);
    }
  }

  lemma {:induction false} LinesAreParsed(json: Codec, entries: seq<Entry>)
    requires forall i :: 0 <= i < |entries| ==> IsRightEntry(json, entries[i])
    ensures ParseLines(json, EntryTexts(json, entries)) == ValuesIn(json, EventsIn(entries))
  {
    if entries != [] {
      EntryIsOneLine(json, entries[0]);
      LinesAreParsed(json, entries[1..]);
      if entries[0].Event? {
        var events := EventsIn(entries);
        assert events[0] == entries[0].written && events[1..] == EventsIn(entries[1..]);
      } else {
        assert EventsIn(entries) == EventsIn(entries[1..]);
      }
    }
  }

  lemma {:induction false} BlockIsRead(json: Codec, entries: seq<Entry>)
    requires IsRightBlock(json, entries)
    ensures ValuesOf(json, EntryTexts(json, entries)) == ValuesIn(json, EventsIn(entries))
  {
    if |entries| == 1 {
      EntryValue(json, entries[0]);
      assert EntryTexts(json, entries) == [EntryText(json, entries[0])];
      assert EventsIn(entries) == if entries[0].Event? then [entries[0].written] else [];
    } else {
      JoinedEntries(json, entries);
      OneLineIsTrimmed(Join(EntryTexts(json, entries), "\n"));
      LinesAreParsed(json, entries);
    }
  }

  // ---------------------------------------------------------------------------------------------
  // The body.

  function AllTexts(json: Codec, blocks: seq<seq<Entry>>): seq<seq<string>> {
    if blocks == [] then [] else [EntryTexts(json, blocks[0])] + AllTexts(json, blocks[1..])
  }

  function AllEvents(blocks: seq<seq<Entry>>): seq<Written> {
    if blocks == [] then [] else EventsIn(blocks[0]) + AllEvents(blocks[1..])
  }

  predicate AreRightBlocks(json: Codec, blocks: seq<seq<Entry>>) {
    forall i :: 0 <= i < |blocks| ==> IsRightBlock(json, blocks[i])
  }

  lemma {:induction false} ValuesInConcat(json: Codec, first: seq<Written>, second: seq<Written>)
    ensures ValuesIn(json, first + second) == ValuesIn(json, first) + ValuesIn(json, second)
  {
    if first == [] {
      assert first + second == second;
    } else {
      assert (first + second)[1..] == first[1..] + second;
      ValuesInConcat(json, first[1..], second);
    }
  }

  lemma {:induction false} BlocksAreRead(json: Codec, blocks: seq<seq<Entry>>)
    requires AreRightBlocks(json, blocks)
    ensures CodexResponse.AllValues(json, AllTexts(json, blocks)) == ValuesIn(json, AllEvents(blocks))
  {
    if blocks != [] {
      BlockIsRead(json, blocks[0]);
      assert AreRightBlocks(json, blocks[1..]);
      BlocksAreRead(json, blocks[1..]);
      ValuesInConcat(json, EventsIn(blocks[0]), AllEvents(blocks[1..]));
      assert AllTexts(json, blocks)[1..] == AllTexts(json, blocks[1..]);
    }
  }

  lemma {:induction false} EventsAreRight(json: Codec, blocks: seq<seq<Entry>>)
    requires AreRightBlocks(json, blocks)
    ensures AreRight(json, AllEvents(blocks))
  {
    if blocks != [] {
      assert IsRightBlock(json, blocks[0]);
      EventsOfBlockAreRight(json, blocks[0]);
      EventsAreRight(json, blocks[1..]);
    }
  }

  lemma {:induction false} EventsOfBlockAreRight(json: Codec, entries: seq<Entry>)
    requires forall i :: 0 <= i < |entries| ==> IsRightEntry(json, entries[i])
    ensures AreRight(json, EventsIn(entries))
  {
    if entries != [] {
      assert IsRightEntry(json, entries[0]);
      EventsOfBlockAreRight(json, entries[1..]);
    }
  }

  /** The body carries these entries in its blocks, with any line ends, other fields in between, and any
      white space before the data. */
  predicate Carries(json: Codec, body: string, fields: seq<seq<Field>>, lines: seq<Line>, blocks: seq<seq<Entry>>) {
    && IsWritten(body, fields, lines) && DataOfBlocks(fields) == AllTexts(json, blocks)
    && AreRightBlocks(json, blocks)
  }

  /** Whatever is written is what the turn gets: the texts, and each call with its id, its name and its
      arguments, or the first error. */
  lemma {:induction false} WrittenBodyIsRead(json: Codec, body: string, fields: seq<seq<Field>>, lines: seq<Line>,
      blocks: seq<seq<Entry>>)
    requires Carries(json, body, fields, lines, blocks)
    ensures ParseSse(json, body) == TurnOfWritten(json, AllEvents(blocks))
  {
    WrittenBlocksAreRead(body, fields, lines);
    CodexResponse.ResponseOfABody(json, body);
    BlocksAreRead(json, blocks);
    EventsAreRight(json, blocks);
    EventsSay(json, AllEvents(blocks));
    CallsOfTheValues(json, AllTexts(json, blocks));
  }

  // ---------------------------------------------------------------------------------------------
  // The calls of a turn.

  predicate HaveDistinctIds(calls: seq<ToolCall>) {
    forall i, j :: 0 <= i < j < |calls| ==> !SameCall(calls[i], calls[j])
  }

  lemma {:induction false} NoOtherVersion(call: ToolCall, later: seq<ToolCall>)
    requires forall j :: 0 <= j < |later| ==> !SameCall(call, later[j])
    ensures LastVersion(call, later) == call && Others(call, later) == later
  {
    if later != [] {
      assert forall j :: 0 <= j < |later[1..]| ==> later[1..][j] == later[j + 1];
      NoOtherVersion(call, later[1..]);
    }
  }

  lemma {:induction false} DistinctCallsStay(calls: seq<ToolCall>)
    requires HaveDistinctIds(calls)
    ensures Distinct(calls) == calls
  {
    if calls != [] {
      assert forall j :: 0 <= j < |calls[1..]| ==> calls[1..][j] == calls[j + 1];
      NoOtherVersion(calls[0], calls[1..]);
      DistinctCallsStay(calls[1..]);
    }
  }

  /** However the bytes of such a body arrive in valid chunks: when the calls it announces have ids of their
      own and there is no error, exactly these calls are made, in order, with the arguments that were
      written. */
  lemma {:induction false} AnnouncedCallsAreMade(json: Codec, chunks: seq<seq<Utf8.Byte>>, body: string,
      fields: seq<seq<Field>>, lines: seq<Line>, blocks: seq<seq<Entry>>)
    requires Carries(json, body, fields, lines, blocks)
    requires Concat(chunks) == Utf8.Encode(body) && AllDecode(chunks)
    requires var events := AllEvents(blocks);
             FirstErrorIn(events).None? && HaveDistinctIds(AllCallsIn(json, events))
    ensures var events := AllEvents(blocks);
            StreamedTurn(json, chunks)
            == Response(IfAny(OpeningIn(json, events) + DeltasIn(events)), AllCallsIn(json, events))
  {
    var events := AllEvents(blocks);
    WrittenBodyIsRead(json, body, fields, lines, blocks);
    DistinctCallsStay(AllCallsIn(json, events));
    StreamedTurnIsWholeTurn(json, chunks, body, TurnOfWritten(json, events));
  }
}
