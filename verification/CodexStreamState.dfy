/** The Codex accumulator as the code has it: buffers, index and call list updated in place. The
    events vector that the callers pass along is a field. */
module CodexStreamState {
  import opened Options
  import opened JsonValues
  import opened SseStream
  import opened ToolCalls
  import opened StreamEvents
  import SseBytes
  import Text
  import Utf8
  import Spec = CodexStream
  import Turn = CodexTurn

  class CodexStreamAccumulator {
    const json: Codec
    var lineBuffer: string
    var eventDataLines: seq<string>
    var toolCallIndicesById: map<string, nat>
    var toolCalls: seq<ToolCall>
    var sawTextDelta: bool
    var emittedFallbackText: bool
    var events: seq<StreamEvent>

    function Model(): Spec.Codex
      reads this
    {
      Spec.Codex(CallList(toolCalls, toolCallIndicesById), sawTextDelta, emittedFallbackText, events)
    }

    predicate Valid()
      reads this
    {
      Spec.Sound(Model())
    }

    function Pending(): Turn.Pending
      requires Valid()
      reads this
    {
      var acc: Spec.SoundCodex := Model();
      (acc, eventDataLines)
    }

    constructor (json: Codec)
      ensures this.json == json && Valid() && Pending() == Turn.BEGIN && lineBuffer == ""
    {
      this.json := json;
      lineBuffer, eventDataLines := "", [];
      toolCallIndicesById, toolCalls := map[], [];
      sawTextDelta, emittedFallbackText, events := false, false, [];
    }

    method RecordToolCall(call: ToolCall)
      requires Valid()
      modifies this`toolCalls, this`toolCallIndicesById
      ensures Valid()
      ensures CallList(toolCalls, toolCallIndicesById) == Record(old(CallList(toolCalls, toolCallIndicesById)), call)
    {
      if call.id.Some? {
        if call.id.value in toolCallIndicesById {
          toolCalls := toolCalls[toolCallIndicesById[call.id.value] := call];
        } else {
          toolCallIndicesById := toolCallIndicesById[call.id.value := |toolCalls|];
          toolCalls := toolCalls + [call];
        }
      } else {
        toolCalls := toolCalls + [call];
      }
    }

    method RecordToolCalls(calls: seq<ToolCall>)
      requires Valid()
      modifies this`toolCalls, this`toolCallIndicesById
      ensures Valid()
      ensures CallList(toolCalls, toolCallIndicesById)
          == RecordAll(old(CallList(toolCalls, toolCallIndicesById)), calls)
    {
      for k := 0 to |calls|
        invariant Valid()
        invariant RecordAll(CallList(toolCalls, toolCallIndicesById), calls[k..])
               == RecordAll(old(CallList(toolCalls, toolCallIndicesById)), calls)
      {
        assert calls[k..][1..] == calls[k + 1..];
        RecordToolCall(calls[k]);
      }
      assert calls[|calls|..] == [];
    }

    method EmitFallback(text: Option<string>)
      requires Valid()
      modifies this`events, this`emittedFallbackText
      ensures Valid() && Model() == Spec.EmitFallback(old(Model()), text)
    {
      if !sawTextDelta && !emittedFallbackText && text.Some? {
        emittedFallbackText := true;
        events := events + [TextDelta(text.value)];
      }
    }

    method ProcessEvent(event: Json) returns (error: Option<string>)
      requires Valid()
      modifies this`toolCalls, this`toolCallIndicesById, this`sawTextDelta, this`emittedFallbackText, this`events
      ensures Valid()
      ensures var fed := Spec.ProcessEvent(json, old(Model()), event);
              Model() == fed.state && error == ErrorOf(fed)
    {
      var message := Spec.ExtractStreamError(event);
      if message.Some? {
        return Some("openai_codex stream error: " + message.value);
      }
      var kind := GetStr(event, "type");
      if kind == Some("response.output_text.delta") {
        var delta := GetStr(event, "delta");
        if delta.Some? && delta.value != "" {
          sawTextDelta := true;
          events := events + [TextDelta(delta.value)];
        }
      }
      if kind == Some("response.output_text.done") {
        EmitFallback(Spec.FirstNonempty(GetStr(event, "text")));
      }
      if kind == Some("response.output_item.done") || kind == Some("response.output_item.added") {
        var item := Get(event, "item");
        if item.Some? {
          var call := Spec.ParseToolCall(json, item.value);
          if call.Some? {
            RecordToolCalls([call.value]);
          }
        }
      }
      if kind == Some("response.completed") || kind == Some("response.done") {
        var response := Get(event, "response");
        if response.Some? {
          EmitFallback(Spec.ParseOutputText(response.value));
          RecordToolCalls(Spec.CollectToolCalls(json, response.value));
        }
      }
      return None;
    }

    method FlushEvent() returns (error: Option<string>)
      requires Valid()
      modifies this
      ensures Valid() && lineBuffer == old(lineBuffer)
      ensures var fed := FlushBlock<Spec.SoundCodex>(old(Pending()), Spec.OnBlock(json));
              Pending() == fed.state && error == ErrorOf(fed)
    {
      if eventDataLines == [] {
        return None;
      }
      var values := Spec.ValuesOf(json, eventDataLines);
      eventDataLines := [];
      for k := 0 to |values|
        invariant Valid() && lineBuffer == old(lineBuffer) && eventDataLines == []
        invariant Spec.ProcessEvents(json, Model(), values[k..]) == Spec.ProcessEvents(json, old(Model()), values)
      {
        assert values[k..][1..] == values[k + 1..];
        error := ProcessEvent(values[k]);
        if error.Some? {
          return;
        }
      }
      assert values[|values|..] == [];
      return None;
    }

    method ProcessLine(line: string) returns (error: Option<string>)
      requires Valid()
      modifies this
      ensures Valid() && lineBuffer == old(lineBuffer)
      ensures var fed := SseStream.ProcessLine<Spec.SoundCodex>(old(Pending()), line, Spec.OnBlock(json));
              Pending() == fed.state && error == ErrorOf(fed)
    {
      if line == "" {
        error := FlushEvent();
        return;
      }
      if "data:" <= line {
        eventDataLines := eventDataLines + [Text.TrimStart(line[5..])];
      }
      return None;
    }

    method PushBytes(bytes: seq<Utf8.Byte>) returns (error: Option<string>)
      requires Valid()
      modifies this
      ensures Valid()
      ensures var (fed, rest) := SseBytes.PushBytes<Turn.Pending>(
                old(Pending()), old(lineBuffer), bytes, OnLine<Spec.SoundCodex>(Spec.OnBlock(json)),
                    Turn.INVALID_BYTES);
              Pending() == fed.state && lineBuffer == rest && error == ErrorOf(fed)
    {
      var chunk := Utf8.FromUtf8(bytes);
      if chunk.None? {
        return Some(Turn.INVALID_BYTES);
      }
      lineBuffer := lineBuffer + chunk.value;
      ghost var onLine := OnLine<Spec.SoundCodex>(Spec.OnBlock(json));
      ghost var all := TakeLines<Turn.Pending>(Pending(), lineBuffer, onLine);
      var newline := Text.FindChar(lineBuffer, '\n');
      while newline.Some?
        invariant Valid() && newline == Text.FindChar(lineBuffer, '\n')
        invariant TakeLines<Turn.Pending>(Pending(), lineBuffer, onLine) == all
        decreases |lineBuffer|
      {
        var line := Text.StripCr(lineBuffer[..newline.value]);
        lineBuffer := lineBuffer[newline.value + 1..];
        error := ProcessLine(line);
        if error.Some? {
          return;
        }
        newline := Text.FindChar(lineBuffer, '\n');
      }
      return None;
    }

    method EmitCalls()
      modifies this`events
      ensures events == old(Spec.FinalEvents(Model()))
    {
      for k := 0 to |toolCalls|
        invariant events + Completions(toolCalls[k..]) == old(events) + Completions(toolCalls)
      {
        assert toolCalls[k..][1..] == toolCalls[k + 1..];
        events := events + [ToolCallComplete(toolCalls[k])];
      }
      assert toolCalls[|toolCalls|..] == [];
      events := events + [Done];
    }

    method ReadTrailing() returns (error: Option<string>)
      requires Valid()
      modifies this
      ensures Valid()
      ensures var fed := Turn.Finish(json, old(Pending()), old(lineBuffer));
              Model() == fed.state && error == ErrorOf(fed)
    {
      if lineBuffer != "" {
        var trailing := Text.StripCr(lineBuffer);
        lineBuffer := "";
        error := ProcessLine(trailing);
        if error.Some? {
          return;
        }
      }
      error := FlushEvent();
    }

    /** `finish`: the trailing line, the last block, then the calls and Done. */
    method Finish() returns (error: Option<string>)
      requires Valid()
      modifies this
      ensures var fed := Turn.Finish(json, old(Pending()), old(lineBuffer));
              error == ErrorOf(fed) && events == if fed.Going? then Spec.FinalEvents(fed.state) else fed.state.events
    {
      error := ReadTrailing();
      if error.None? {
        EmitCalls();
      }
    }
  }
}
