/** The events a provider stream delivers, and what the turn makes of them. */
module StreamEvents {
  import opened Options
  import opened ToolCalls

  datatype StreamEvent = TextDelta(text: string) | ToolCallComplete(call: ToolCall) | Done | Error(message: string)

  function Completions(calls: seq<ToolCall>): seq<StreamEvent> {
    if calls == [] then [] else [ToolCallComplete(calls[0])] + Completions(calls[1..])
  }

  predicate OnlyDeltas(events: seq<StreamEvent>) {
    forall i :: 0 <= i < |events| ==> events[i].TextDelta?
  }

  function DeltaText(events: seq<StreamEvent>): string
    requires OnlyDeltas(events)
  {
    if events == [] then "" else events[0].text + DeltaText(events[1..])
  }

  // ---------------------------------------------------------------------------------------------
  // The turn.

  datatype Turn = Response(outputText: Option<string>, toolCalls: seq<ToolCall>) | Failure(error: string)

  function TextOrNone(text: string): Option<string> {
    if text == "" then None else Some(text)
  }

  /** The loop of `generate_provider_response`, which stops at Done. */
  function FoldEvents(events: seq<StreamEvent>, text: string, calls: seq<ToolCall>): Turn
    decreases |events|
  {
    if events == [] then Response(TextOrNone(text), calls)
    else
      match events[0]
      case TextDelta(delta) => FoldEvents(events[1..], text + delta, calls)
      case ToolCallComplete(call) => FoldEvents(events[1..], text, calls + [call])
      case Done => Response(TextOrNone(text), calls)
      case Error(message) => Failure(message)
  }

  /** The loop of `parse_sse_provider_response`, which passes over Done. */
  function CollectEvents(events: seq<StreamEvent>, text: string, calls: seq<ToolCall>): Turn
    decreases |events|
  {
    if events == [] then Response(TextOrNone(text), calls)
    else
      match events[0]
      case TextDelta(delta) => CollectEvents(events[1..], text + delta, calls)
      case ToolCallComplete(call) => CollectEvents(events[1..], text, calls + [call])
      case Done => CollectEvents(events[1..], text, calls)
      case Error(message) => Failure(message)
  }

  lemma {:induction false} FoldOfCompletions(calls: seq<ToolCall>, text: string, before: seq<ToolCall>)
    ensures FoldEvents(Completions(calls) + [Done], text, before) == Response(TextOrNone(text), before + calls)
    ensures CollectEvents(Completions(calls) + [Done], text, before) == Response(TextOrNone(text), before + calls)
    decreases |calls|
  {
    if calls == [] {
      assert before + calls == before;
      assert ([] + [Done])[1..] == [];
    } else {
      assert (Completions(calls) + [Done])[1..] == Completions(calls[1..]) + [Done];
      assert before + [calls[0]] + calls[1..] == before + calls;
      FoldOfCompletions(calls[1..], text, before + [calls[0]]);
    }
  }

  lemma {:induction false} FoldOfDeltas(deltas: seq<StreamEvent>, rest: seq<StreamEvent>, text: string,
      calls: seq<ToolCall>)
    requires OnlyDeltas(deltas)
    ensures FoldEvents(deltas + rest, text, calls) == FoldEvents(rest, text + DeltaText(deltas), calls)
    ensures CollectEvents(deltas + rest, text, calls) == CollectEvents(rest, text + DeltaText(deltas), calls)
    decreases |deltas|
  {
    if deltas == [] {
      assert deltas + rest == rest && text + "" == text;
    } else {
      assert (deltas + rest)[1..] == deltas[1..] + rest;
      assert text + deltas[0].text + DeltaText(deltas[1..]) == text + DeltaText(deltas);
      FoldOfDeltas(deltas[1..], rest, text + deltas[0].text, calls);
    }
  }

  /** Text first, then the calls, then Done: both loops give the text and the calls. */
  lemma FoldOfFinishedStream(deltas: seq<StreamEvent>, calls: seq<ToolCall>)
    requires OnlyDeltas(deltas)
    ensures FoldEvents(deltas + Completions(calls) + [Done], "", []) == Response(TextOrNone(DeltaText(deltas)), calls)
    ensures CollectEvents(deltas + Completions(calls) + [Done], "", [])
        == Response(TextOrNone(DeltaText(deltas)), calls)
  {
    assert deltas + Completions(calls) + [Done] == deltas + (Completions(calls) + [Done]);
    assert "" + DeltaText(deltas) == DeltaText(deltas);
    FoldOfDeltas(deltas, Completions(calls) + [Done], "", []);
    FoldOfCompletions(calls, DeltaText(deltas), []);
    assert [] + calls == calls;
  }

  lemma FoldOfFailedStream(deltas: seq<StreamEvent>, error: string)
    requires OnlyDeltas(deltas)
    ensures FoldEvents(deltas + [Error(error)], "", []) == Failure(error)
    ensures CollectEvents(deltas + [Error(error)], "", []) == Failure(error)
  {
    FoldOfDeltas(deltas, [Error(error)], "", []);
  }

  /** `generate_provider_response` on a stream; `shown` lists the texts passed to `on_text_delta`.
      Each of them extends the one before, and the last one is the text of the response: within one
      provider turn the text on display only grows. */
  method GenerateProviderResponse(events: seq<StreamEvent>) returns (turn: Turn, shown: seq<string>)
    ensures turn == FoldEvents(events, "", [])
    ensures forall i, j :: 0 <= i < j < |shown| ==> shown[i] <= shown[j]
    ensures turn.Response? ==> turn.outputText == TextOrNone(if shown == [] then "" else shown[|shown| - 1])
  {
    var outputText, toolCalls := "", [];
    shown := [];
    for k := 0 to |events|
      invariant FoldEvents(events[k..], outputText, toolCalls) == FoldEvents(events, "", [])
      invariant forall i, j :: 0 <= i < j < |shown| ==> shown[i] <= shown[j]
      invariant outputText == if shown == [] then "" else shown[|shown| - 1]
    {
      assert events[k..][1..] == events[k + 1..];
      match events[k] {
        case TextDelta(delta) =>
          outputText := outputText + delta;
          shown := shown + [outputText];
        case ToolCallComplete(call) =>
          toolCalls := toolCalls + [call];
        case Done =>
          return Response(TextOrNone(outputText), toolCalls), shown;
        case Error(message) =>
          return Failure(message), shown;
      }
    }
    turn := Response(TextOrNone(outputText), toolCalls);
  }
}
