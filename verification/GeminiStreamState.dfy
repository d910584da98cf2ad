/** The Gemini accumulator as the code has it: buffers, index and call list updated in place. The
    events vector that the callers pass along is a field. */
module GeminiStreamState {
  import opened Options
  import opened JsonValues
  import opened SseStream
  import opened ToolCalls
  import opened StreamEvents
  import SseBytes
  import Text
  import Utf8
  import Spec = GeminiStream

  class GeminiStreamAccumulator {
    const json: Codec
    var lineBuffer: string
    var eventDataLines: seq<string>
    var toolCallIndicesById: map<string, nat>
    var toolCalls: seq<ToolCall>
    var events: seq<StreamEvent>

    function Model(): Spec.Gemini
      reads this
    {
      Spec.Gemini(CallList(toolCalls, toolCallIndicesById), events)
    }

    predicate Valid()
      reads this
    {
      Spec.Sound(Model())
    }

    function Pending(): Spec.Pending
      requires Valid()
      reads this
    {
      var acc: Spec.SoundGemini := Model();
      (acc, eventDataLines)
    }

    constructor (json: Codec)
      ensures this.json == json && Valid() && Pending() == Spec.BEGIN && lineBuffer == ""
    {
      this.json := json;
      lineBuffer, eventDataLines := "", [];
      toolCallIndicesById, toolCalls, events := map[], [], [];
    }

    /** The body of the loop over the parts. */
    method ProcessPart(part: Json)
      requires Valid()
      modifies this`toolCallIndicesById, this`toolCalls, this`events
      ensures Valid() && Model() == Spec.ProcessPart(json, old(Model()), part)
    {
      var text := GetStr(part, "text");
      if text.Some? && text.value != "" {
        events := events + [TextDelta(text.value)];
      }
      var parsed := Spec.ParseToolCallPart(json, part);
      if parsed.Some? {
        var call := parsed.value;
        if call.id.Some? {
          if call.id.value in toolCallIndicesById {
            toolCalls := toolCalls[toolCallIndicesById[call.id.value] := call];
          } else {
            toolCallIndicesById := toolCallIndicesById[call.id.value := |toolCalls|];
            toolCalls := toolCalls + [call];
          }
        } else {
          toolCalls := toolCalls + [call];
        }
        assert [call][1..] == [];
        assert Spec.CallOf(json, part) == [call];
        assert CallList(toolCalls, toolCallIndicesById) == RecordAll(Record(old(Model()).list, call), []);
      }
      assert CallList(toolCalls, toolCallIndicesById) == RecordAll(old(Model()).list, Spec.CallOf(json, part));
      assert events == old(events) + Spec.DeltaOf(part);
    }

    method FlushEvent() returns (error: Option<string>)
      requires Valid()
      modifies this
      ensures Valid() && lineBuffer == old(lineBuffer)
      ensures var fed := FlushBlock<Spec.SoundGemini>(old(Pending()), Spec.OnBlock(json));
              Pending() == fed.state && error == ErrorOf(fed)
    {
      if eventDataLines == [] {
        return None;
      }
      var payload := Text.Join(eventDataLines, "\n");
      eventDataLines := [];
      if Text.Trim(payload) == "[DONE]" {
        return None;
      }
      var value := json.parse(payload);
      if value.None? {
        return Some(Spec.INVALID_EVENT);
      }
      var parts := Spec.PartsOf(value.value);
      for k := 0 to |parts|
        invariant Valid() && lineBuffer == old(lineBuffer) && eventDataLines == []
        invariant Spec.ProcessParts(json, Model(), parts[k..]) == Spec.ProcessParts(json, old(Model()), parts)
      {
        assert parts[k..][1..] == parts[k + 1..];
        ProcessPart(parts[k]);
      }
      assert parts[|parts|..] == [];
      return None;
    }

    method ProcessLine(line: string) returns (error: Option<string>)
      requires Valid()
      modifies this
      ensures Valid() && lineBuffer == old(lineBuffer)
      ensures var fed := SseStream.ProcessLine<Spec.SoundGemini>(old(Pending()), line, Spec.OnBlock(json));
              Pending() == fed.state && error == ErrorOf(fed)
    {
      if line == "" {
        error := FlushEvent();
        return;
      }
      if "data:" <= line {
        eventDataLines := eventDataLines + [Text.TrimStart(line[5..])];
      }
      return None;
    }

    method PushBytes(bytes: seq<Utf8.Byte>) returns (error: Option<string>)
      requires Valid()
      modifies this
      ensures Valid()
      ensures var (fed, rest) := SseBytes.PushBytes<Spec.Pending>(
                old(Pending()), old(lineBuffer), bytes, OnLine<Spec.SoundGemini>(Spec.OnBlock(json)),
                    Spec.INVALID_BYTES);
              Pending() == fed.state && lineBuffer == rest && error == ErrorOf(fed)
    {
      var chunk := Utf8.FromUtf8(bytes);
      if chunk.None? {
        return Some(Spec.INVALID_BYTES);
      }
      lineBuffer := lineBuffer + chunk.value;
      ghost var onLine := OnLine<Spec.SoundGemini>(Spec.OnBlock(json));
      ghost var all := TakeLines<Spec.Pending>(Pending(), lineBuffer, onLine);
      var newline := Text.FindChar(lineBuffer, '\n');
      while newline.Some?
        invariant Valid() && newline == Text.FindChar(lineBuffer, '\n')
        invariant TakeLines<Spec.Pending>(Pending(), lineBuffer, onLine) == all
        decreases |lineBuffer|
      {
        var line := Text.StripCr(lineBuffer[..newline.value]);
        lineBuffer := lineBuffer[newline.value + 1..];
        error := ProcessLine(line);
        if error.Some? {
          return;
        }
        newline := Text.FindChar(lineBuffer, '\n');
      }
      return None;
    }

    method ReadTrailing() returns (error: Option<string>)
      requires Valid()
      modifies this
      ensures Valid()
      ensures var onBlock := Spec.OnBlock(json);
              var fed := FinishPending<Spec.SoundGemini>(
                TakeTrailing<Spec.Pending>(old(Pending()), old(lineBuffer), OnLine<Spec.SoundGemini>(onBlock)),
                    onBlock);
              Model() == fed.state && error == ErrorOf(fed)
    {
      if lineBuffer != "" {
        var trailing := Text.StripCr(lineBuffer);
        lineBuffer := "";
        error := ProcessLine(trailing);
        if error.Some? {
          return;
        }
      }
      error := FlushEvent();
    }

    method EmitCalls()
      modifies this`events
      ensures events == old(Spec.FinalEvents(Model()))
    {
      for k := 0 to |toolCalls|
        invariant events + Completions(toolCalls[k..]) == old(events) + Completions(toolCalls)
      {
        assert toolCalls[k..][1..] == toolCalls[k + 1..];
        events := events + [ToolCallComplete(toolCalls[k])];
      }
      assert toolCalls[|toolCalls|..] == [];
      events := events + [Done];
    }

    /** `finish`: the trailing line, the last block, then the calls and Done. */
    method Finish() returns (error: Option<string>)
      requires Valid()
      modifies this
      ensures var onBlock := Spec.OnBlock(json);
              var fed := FinishPending<Spec.SoundGemini>(
                TakeTrailing<Spec.Pending>(old(Pending()), old(lineBuffer), OnLine<Spec.SoundGemini>(onBlock)),
                    onBlock);
              error == ErrorOf(fed) && events == if fed.Going? then Spec.FinalEvents(fed.state) else fed.state.events
    {
      error := ReadTrailing();
      if error.None? {
        EmitCalls();
      }
    }
  }
}
