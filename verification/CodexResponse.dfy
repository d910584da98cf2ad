/** What a whole Codex body means: the response or the error, from the values its blocks carry. */
module CodexResponse {
  import opened Options
  import opened JsonValues
  import opened SseStream
  import opened StreamEvents
  import opened ToolCalls
  import opened CodexStream
  import opened CodexTurn

  function AllValues(json: Codec, blocks: seq<seq<string>>): seq<Json> {
    if blocks == [] then [] else ValuesOf(json, blocks[0]) + AllValues(json, blocks[1..])
  }

  /** The text of a delta event. */
  function DeltaOf(event: Json): Option<string> {
    var delta := GetStr(event, "delta");
    if GetStr(event, "type") == Some("response.output_text.delta") && delta.Some? && delta.value != "" then delta
        else None
  }

  /** The whole text that an event reports at the end of an output or of the response. */
  function WholeTextOf(event: Json): Option<string> {
    var kind := GetStr(event, "type");
    if kind == Some("response.output_text.done") then FirstNonempty(GetStr(event, "text"))
    else if (kind == Some("response.completed") || kind == Some("response.done")) && Get(event, "response").Some?
    then ParseOutputText(Get(event, "response").value)
    else None
  }

  function OrEmpty(text: Option<string>): string {
    if text.Some? then text.value else ""
  }

  function Deltas(values: seq<Json>): string {
    if values == [] then "" else OrEmpty(DeltaOf(values[0])) + Deltas(values[1..])
  }

  /** The first whole text, unless a delta comes before it. */
  function Opening(values: seq<Json>): string {
    if values == [] || DeltaOf(values[0]).Some? then ""
    else if WholeTextOf(values[0]).Some? then WholeTextOf(values[0]).value
    else Opening(values[1..])
  }

  function FirstError(values: seq<Json>): Option<string> {
    if values == [] then None
    else if ExtractStreamError(values[0]).Some? then ExtractStreamError(values[0])
    else FirstError(values[1..])
  }

  lemma {:induction false} DeltaTextOfMore(events: seq<StreamEvent>, text: string)
    requires OnlyDeltas(events)
    ensures OnlyDeltas(events + [TextDelta(text)])
    ensures DeltaText(events + [TextDelta(text)]) == DeltaText(events) + text
  {
    if events == [] {
      assert events + [TextDelta(text)] == [TextDelta(text)] && [TextDelta(text)][1..] == [];
    } else {
      DeltaTextOfMore(events[1..], text);
      assert (events + [TextDelta(text)])[1..] == events[1..] + [TextDelta(text)];
    }
  }

  /** Whether a whole text would still be shown. */
  predicate IsSilent(acc: Codex) {
    !acc.sawTextDelta && !acc.emittedFallbackText
  }

  function TextOfEvent(isSilent: bool, event: Json): string {
    if DeltaOf(event).Some? then DeltaOf(event).value
    else if isSilent then OrEmpty(WholeTextOf(event))
    else ""
  }

  lemma {:induction false} EmitDeltaEmits(acc: Codex, event: Json)
    requires Sound(acc)
    ensures var a := EmitDelta(acc, event);
            && OnlyDeltas(a.events) && DeltaText(a.events) == DeltaText(acc.events) + OrEmpty(DeltaOf(event))
            && IsSilent(a) == (IsSilent(acc) && DeltaOf(event).None?) && a.list == acc.list
  {
    if DeltaOf(event).Some? {
      DeltaTextOfMore(acc.events, DeltaOf(event).value);
    }
  }

  lemma {:induction false} EmitFallbackEmits(acc: Codex, text: Option<string>)
    requires OnlyDeltas(acc.events)
    ensures var a := EmitFallback(acc, text);
            && OnlyDeltas(a.events)
                && DeltaText(a.events) == DeltaText(acc.events) + (if IsSilent(acc) then OrEmpty(text) else "")
            && IsSilent(a) == (IsSilent(acc) && text.None?) && a.list == acc.list
  {
    if IsSilent(acc) && text.Some? {
      DeltaTextOfMore(acc.events, text.value);
    }
  }

  lemma {:induction false} EventEmits(json: Codec, acc: Codex, event: Json)
    requires Sound(acc) && ExtractStreamError(event).None?
    ensures var fed := ProcessEvent(json, acc, event);
            && fed.Going?
            && DeltaText(fed.state.events) == DeltaText(acc.events) + TextOfEvent(IsSilent(acc), event)
            && IsSilent(fed.state) == (IsSilent(acc) && DeltaOf(event).None? && WholeTextOf(event).None?)
  {
    var kind := GetStr(event, "type");
    EmitDeltaEmits(acc, event);
    var a := EmitDelta(acc, event);
    if kind == Some("response.output_text.done") {
      EmitFallbackEmits(a, FirstNonempty(GetStr(event, "text")));
    } else if (kind == Some("response.completed") || kind == Some("response.done")) && Get(event, "response").Some? {
      EmitFallbackEmits(a, ParseOutputText(Get(event, "response").value));
    }
  }

  /** The text of a list of events. */
  function TextOf(isSilent: bool, values: seq<Json>): string {
    (if isSilent then Opening(values) else "") + Deltas(values)
  }

  predicate StaysSilent(isSilent: bool, event: Json) {
    isSilent && DeltaOf(event).None? && WholeTextOf(event).None?
  }

  lemma {:induction false} TextOfFirst(isSilent: bool, values: seq<Json>)
    requires values != []
    ensures TextOf(isSilent, values)
        == TextOfEvent(isSilent, values[0]) + TextOf(StaysSilent(isSilent, values[0]), values[1..])
  {
  }

  lemma {:induction false} EventsEmit(json: Codec, acc: Codex, values: seq<Json>)
    requires Sound(acc) && FirstError(values).None?
    ensures var fed := ProcessEvents(json, acc, values);
            fed.Going? && DeltaText(fed.state.events) == DeltaText(acc.events) + TextOf(IsSilent(acc), values)
    decreases |values|
  {
    if values != [] {
      EventEmits(json, acc, values[0]);
      EventsEmit(json, ProcessEvent(json, acc, values[0]).state, values[1..]);
      TextOfFirst(IsSilent(acc), values);
      Associative(DeltaText(acc.events), TextOfEvent(IsSilent(acc), values[0]),
          TextOf(StaysSilent(IsSilent(acc), values[0]), values[1..]));
    }
  }

  lemma {:induction false} Associative(a: string, b: string, c: string)
    ensures a + b + c == a + (b + c)
  {
  }

  lemma {:induction false} EventsFail(json: Codec, acc: Codex, values: seq<Json>)
    requires Sound(acc) && FirstError(values).Some?
    ensures var fed := ProcessEvents(json, acc, values);
            fed.Stopped? && fed.error == "openai_codex stream error: " + FirstError(values).value
    decreases |values|
  {
    if ExtractStreamError(values[0]).None? {
      EventsFail(json, ProcessEvent(json, acc, values[0]).state, values[1..]);
    }
  }

  lemma {:induction false} ProcessEventsConcat(json: Codec, acc: Codex, first: seq<Json>, second: seq<Json>)
    requires Sound(acc)
    ensures var fed := ProcessEvents(json, acc, first);
            ProcessEvents(json, acc, first + second) == if fed.Stopped? then fed
                else ProcessEvents(json, fed.state, second)
    decreases |first|
  {
    if first == [] {
      assert first + second == second;
    } else {
      assert (first + second)[1..] == first[1..] + second;
      var fed := ProcessEvent(json, acc, first[0]);
      if fed.Going? {
        ProcessEventsConcat(json, fed.state, first[1..], second);
      }
    }
  }

  predicate SameOutcome(a: Fed<SoundCodex>, b: Fed<Codex>) {
    && (a.Stopped? <==> b.Stopped?)
    && a.state == b.state
    && (a.Stopped? ==> a.error == b.error)
  }

  lemma {:induction false} BlocksAreTheirValues(json: Codec, acc: SoundCodex, blocks: seq<seq<string>>)
    ensures SameOutcome(FoldBlocks<SoundCodex>(acc, blocks, OnBlock(json)),
        ProcessEvents(json, acc, AllValues(json, blocks)))
    decreases |blocks|
  {
    if blocks != [] {
      ProcessEventsConcat(json, acc, ValuesOf(json, blocks[0]), AllValues(json, blocks[1..]));
      var fed := HandleBlock(json, acc, blocks[0]);
      if fed.Going? {
        BlocksAreTheirValues(json, fed.state, blocks[1..]);
      }
    }
  }

  lemma {:induction false} TurnOfTheText(json: Codec, read: Fed<SoundCodex>, values: seq<Json>)
    requires FirstError(values).None? && SameOutcome(read, ProcessEvents(json, START, values))
    ensures TurnOf(read).Response? && TurnOf(read).outputText == TextOrNone(TextOf(true, values))
  {
    EventsEmit(json, START, values);
    assert "" + TextOf(true, values) == TextOf(true, values);
  }

  lemma {:induction false} TurnOfTheError(json: Codec, blocks: seq<seq<string>>, values: seq<Json>)
    requires values == AllValues(json, blocks) && FirstError(values).Some?
    ensures TurnOf(FoldBlocks<SoundCodex>(START, blocks, OnBlock(json)))
         == Failure("openai_codex stream error: " + FirstError(values).value)
  {
    BlocksAreTheirValues(json, START, blocks);
    EventsFail(json, START, values);
  }

  /** The response to a body: the first error of its values, or else all their deltas, after the first
      whole text if that comes before any delta, with the announced calls. */
  lemma {:induction false} ResponseOfABody(json: Codec, body: string)
    ensures var blocks := Blocks(SplitLines(body), []);
            var values := AllValues(json, blocks);
            ParseSse(json, body)
            == match FirstError(values)
               case Some(message) => Failure("openai_codex stream error: " + message)
               case None => Response(TextOrNone(Opening(values) + Deltas(values)), Distinct(BlockCalls(json, blocks)))
  {
    var blocks := Blocks(SplitLines(body), []);
    ParseSseIsTurnOfTheBlocks(json, body);
    var values := AllValues(json, blocks);
    if FirstError(values).Some? {
      TurnOfTheError(json, blocks, values);
    } else {
      BlocksAreTheirValues(json, START, blocks);
      TurnOfTheText(json, FoldBlocks<SoundCodex>(START, blocks, OnBlock(json)), values);
      ResponseCallsAreDistinct(json, body);
    }
  }
}
