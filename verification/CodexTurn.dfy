/** The Codex stream from bytes to the turn's response: chunking does not matter, and the streamed
    and the whole-body paths agree. */
module CodexTurn {
  import opened JsonValues
  import opened SseBytes
  import opened SseStream
  import opened ToolCalls
  import opened StreamEvents
  import opened CodexStream
  import Options
  import Utf8

  /** What the reader knows besides its line buffer. */
  type Pending = (SoundCodex, seq<string>)

  const BEGIN: Pending := (START, [])

  const INVALID_BYTES := "invalid codex stream bytes"

  /** `finish`, up to the final events. */
  function Finish(json: Codec, pending: Pending, buffer: string): Fed<SoundCodex> {
    FinishPending(TakeTrailing(pending, buffer, OnLine(OnBlock(json))), OnBlock(json))
  }

  /** The events the task spawned by `generate_stream` sends: those of each chunk once the chunk has
      been taken without an error, so that the events of a failing chunk are dropped. */
  function SpawnedEvents(json: Codec, pending: Pending, buffer: string, chunks: seq<seq<Utf8.Byte>>): seq<StreamEvent>
    decreases |chunks|
  {
    if chunks == [] then
      match Finish(json, pending, buffer)
      case Going(acc) => FinalEvents(acc)
      case Stopped(_, error) => pending.0.events + [Error(error)]
    else
      var (fed, rest) := PushBytes<Pending>(pending, buffer, chunks[0], OnLine(OnBlock(json)), INVALID_BYTES);
      match fed
      case Going(next) => SpawnedEvents(json, next, rest, chunks[1..])
      case Stopped(_, error) => pending.0.events + [Error(error)]
  }

  /** The streamed path: the spawned task's events, folded by `generate_provider_response`. */
  function StreamedTurn(json: Codec, chunks: seq<seq<Utf8.Byte>>): Turn {
    FoldEvents(SpawnedEvents(json, BEGIN, "", chunks), "", [])
  }

  /** The whole-body path: `parse_sse_provider_response`. */
  function ParseSse(json: Codec, body: string): Turn {
    var (fed, rest) := PushBytes<Pending>(BEGIN, "", Utf8.Encode(body), OnLine(OnBlock(json)), INVALID_BYTES);
    match fed
    case Stopped(_, error) => Failure(error)
    case Going(pending) =>
      match Finish(json, pending, rest)
      case Stopped(_, error) => Failure(error)
      case Going(acc) => CollectEvents(FinalEvents(acc), "", [])
  }

  /** What both are to compute: the events of the blocks of the text, and the recorded calls. */
  function TurnOf(read: Fed<SoundCodex>): Turn {
    match read
    case Going(acc) => Response(TextOrNone(DeltaText(acc.events)), acc.list.calls)
    case Stopped(_, error) => Failure(error)
  }

  // ---------------------------------------------------------------------------------------------

  /** Everything after some state and buffer, for chunks that are all valid. */
  function Rest(json: Codec, pending: Pending, buffer: string, texts: seq<string>): Fed<SoundCodex> {
    var (fed, rest) := PushTexts<Pending>(pending, buffer, texts, OnLine(OnBlock(json)));
    match fed
    case Stopped(last, error) => Stopped(last.0, error)
    case Going(next) => Finish(json, next, rest)
  }

  lemma {:induction false} SpawnedEventsOfValidChunks(json: Codec, pending: Pending, buffer: string,
      chunks: seq<seq<Utf8.Byte>>)
    requires AllDecode(chunks)
    ensures FoldEvents(SpawnedEvents(json, pending, buffer, chunks), "", [])
         == TurnOf(Rest(json, pending, buffer, Decoded(chunks)))
    decreases |chunks|
  {
    if chunks == [] {
      match Finish(json, pending, buffer)
      case Going(acc) => FoldOfFinishedStream(acc.events, acc.list.calls);
      case Stopped(_, error) => FoldOfFailedStream(pending.0.events, error);
    } else {
      assert Decoded(chunks)[1..] == Decoded(chunks[1..]);
      var (fed, rest) := PushBytes<Pending>(pending, buffer, chunks[0], OnLine(OnBlock(json)), INVALID_BYTES);
      match fed
      case Going(next) => SpawnedEventsOfValidChunks(json, next, rest, chunks[1..]);
      case Stopped(_, error) => FoldOfFailedStream(pending.0.events, error);
    }
  }

  /** The first `k` chunks are taken without an error, and then the next one, or the end of the body, is
      an error. */
  predicate FailsAt(json: Codec, pending: Pending, buffer: string, chunks: seq<seq<Utf8.Byte>>, k: nat, error: string)
    requires k <= |chunks|
  {
    var (fed, rest) := PushAll<Pending>(pending, buffer, chunks[..k], OnLine(OnBlock(json)), INVALID_BYTES);
    && fed.Going?
    && var next := if k == |chunks| then ErrorOf(Finish(json, fed.state, rest))
           else ErrorOf(PushBytes<Pending>(fed.state, rest, chunks[k], OnLine(OnBlock(json)), INVALID_BYTES).0);
       next == Options.Some(error)
  }

  /** The events of the chunks before. */
  function EventsBefore(json: Codec, pending: Pending, buffer: string, chunks: seq<seq<Utf8.Byte>>, k: nat):
      seq<StreamEvent>
    requires k <= |chunks|
  {
    PushAll<Pending>(pending, buffer, chunks[..k], OnLine(OnBlock(json)), INVALID_BYTES).0.state.0.events
  }

  /** When a stream fails, all events of the chunks before the failing one have been sent, and then the
      error; nothing is lost but what the failing chunk had to say. */
  lemma {:induction false} EventsBeforeAnErrorAreSent(json: Codec, pending: Pending, buffer: string,
      chunks: seq<seq<Utf8.Byte>>, k: nat, error: string)
    requires k <= |chunks| && FailsAt(json, pending, buffer, chunks, k, error)
    ensures SpawnedEvents(json, pending, buffer, chunks)
         == EventsBefore(json, pending, buffer, chunks, k) + [Error(error)]
    decreases |chunks|
  {
    if k == 0 {
      assert chunks[..0] == [];
    } else {
      assert chunks[..k][1..] == chunks[1..][..k - 1] && chunks[..k][0] == chunks[0];
      var (fed, rest) := PushBytes<Pending>(pending, buffer, chunks[0], OnLine(OnBlock(json)), INVALID_BYTES);
      assert fed.Going?;
      assert k < |chunks| ==> chunks[1..][k - 1] == chunks[k];
      EventsBeforeAnErrorAreSent(json, fed.state, rest, chunks[1..], k - 1, error);
    }
  }

  lemma {:induction false} InvalidChunkFails(json: Codec, pending: Pending, buffer: string, chunks: seq<seq<Utf8.Byte>>)
    requires !AllDecode(chunks)
    ensures FoldEvents(SpawnedEvents(json, pending, buffer, chunks), "", []).Failure?
    decreases |chunks|
  {
    var (fed, rest) := PushBytes<Pending>(pending, buffer, chunks[0], OnLine(OnBlock(json)), INVALID_BYTES);
    match fed
    case Going(next) =>
      assert !AllDecode(chunks[1..]) by {
        var i :| 0 <= i < |chunks| && Utf8.FromUtf8(chunks[i]).None?;
        assert chunks[1..][i - 1] == chunks[i];
      }
      InvalidChunkFails(json, next, rest, chunks[1..]);
    case Stopped(_, error) => FoldOfFailedStream(pending.0.events, error);
  }

  /** Reading any chunks is reading the blocks of the whole text. */
  lemma {:induction false} RestIsReadStream(json: Codec, texts: seq<string>)
    ensures Rest(json, BEGIN, "", texts)
        == FoldBlocks<SoundCodex>(START, Blocks(SplitLines(Flatten(texts)), []), OnBlock(json))
  {
    ReadingAStreamIsFoldingItsBlocks<SoundCodex>(START, texts, OnBlock(json));
    var (fed, rest) := PushTexts<Pending>(BEGIN, "", texts, OnLine(OnBlock(json)));
  }

  lemma {:induction false} ParseSseIsTurnOfTheBlocks(json: Codec, body: string)
    ensures ParseSse(json, body) == TurnOf(FoldBlocks<SoundCodex>(START, Blocks(SplitLines(body), []), OnBlock(json)))
  {
    Utf8.FromUtf8Inverse(Utf8.Encode(body), body);
    RestIsReadStream(json, [body]);
    assert [body][1..] == [] && body + "" == body && "" + body == body;
    assert Flatten([body]) == body;
    var (fed, rest) := PushBytes<Pending>(BEGIN, "", Utf8.Encode(body), OnLine(OnBlock(json)), INVALID_BYTES);
    var (many, left) := PushTexts<Pending>(BEGIN, "", [body], OnLine(OnBlock(json)));
    if fed.Going? {
      assert PushTexts<Pending>(fed.state, rest, [], OnLine(OnBlock(json))) == (fed, rest);
      match Finish(json, fed.state, rest)
      case Going(acc) => FoldOfFinishedStream(acc.events, acc.list.calls);
      case Stopped(_, _) =>
    }
  }

  /** However the bytes of a body arrive: streaming them gives a response if and only if every chunk
      is valid UTF-8 by itself and parsing the whole body gives one, and then the same one. */
  lemma {:induction false} StreamedTurnIsWholeTurn(json: Codec, chunks: seq<seq<Utf8.Byte>>, body: string, turn: Turn)
    requires Concat(chunks) == Utf8.Encode(body) && turn.Response?
    ensures StreamedTurn(json, chunks) == turn <==> AllDecode(chunks) && ParseSse(json, body) == turn
  {
    if AllDecode(chunks) {
      DecodedChunksMakeTheBody(chunks);
      Utf8.EncodeInjective(Flatten(Decoded(chunks)), body);
      SpawnedEventsOfValidChunks(json, BEGIN, "", chunks);
      RestIsReadStream(json, Decoded(chunks));
      ParseSseIsTurnOfTheBlocks(json, body);
    } else {
      InvalidChunkFails(json, BEGIN, "", chunks);
    }
  }

  /** Two ways of cutting the same text at character boundaries: the reader ends in the same state,
      with the same events, or stops with the same events and the same error. */
  lemma {:induction false} ChunkingDoesNotMatter(json: Codec, texts: seq<string>, others: seq<string>)
    requires Flatten(texts) == Flatten(others)
    ensures ReadStream<SoundCodex>(START, texts, OnBlock(json)) == ReadStream<SoundCodex>(START, others, OnBlock(json))
    ensures ReadStream<SoundCodex>(START, texts, OnBlock(json))
         == FoldBlocks<SoundCodex>(START, Blocks(SplitLines(Flatten(texts)), []), OnBlock(json))
  {
    ReadingAStreamIsFoldingItsBlocks<SoundCodex>(START, texts, OnBlock(json));
    ReadingAStreamIsFoldingItsBlocks<SoundCodex>(START, others, OnBlock(json));
  }

  // ---------------------------------------------------------------------------------------------
  // The calls of the response.

  function EventCalls(json: Codec, values: seq<Json>): seq<ToolCall> {
    if values == [] then [] else CallsOf(json, values[0]) + EventCalls(json, values[1..])
  }

  function BlockCalls(json: Codec, blocks: seq<seq<string>>): seq<ToolCall> {
    if blocks == [] then [] else EventCalls(json, ValuesOf(json, blocks[0])) + BlockCalls(json, blocks[1..])
  }

  lemma {:induction false} EventRecordsItsCalls(json: Codec, acc: SoundCodex, event: Json)
    ensures var fed := ProcessEvent(json, acc, event);
            fed.Going? ==> fed.state.list == RecordAll(acc.list, CallsOf(json, event))
  {
    if ExtractStreamError(event).None? {
      var kind := GetStr(event, "type");
      var a := EmitDelta(acc, event);
      var b := if kind == Options.Some("response.output_text.done")
               then EmitFallback(a, FirstNonempty(GetStr(event, "text"))) else a;
      assert b.list == acc.list;
    }
  }

  lemma {:induction false} EventsRecordTheirCalls(json: Codec, acc: SoundCodex, values: seq<Json>)
    ensures var fed := ProcessEvents(json, acc, values);
            fed.Going? ==> fed.state.list == RecordAll(acc.list, EventCalls(json, values))
    decreases |values|
  {
    if values != [] {
      var fed := ProcessEvent(json, acc, values[0]);
      EventRecordsItsCalls(json, acc, values[0]);
      if fed.Going? {
        EventsRecordTheirCalls(json, fed.state, values[1..]);
        RecordAllConcat(acc.list, CallsOf(json, values[0]), EventCalls(json, values[1..]));
      }
    }
  }

  lemma {:induction false} BlocksRecordTheirCalls(json: Codec, acc: SoundCodex, blocks: seq<seq<string>>)
    ensures var fed := FoldBlocks<SoundCodex>(acc, blocks, OnBlock(json));
            fed.Going? ==> fed.state.list == RecordAll(acc.list, BlockCalls(json, blocks))
    decreases |blocks|
  {
    if blocks != [] {
      EventsRecordTheirCalls(json, acc, ValuesOf(json, blocks[0]));
      var fed := HandleBlock(json, acc, blocks[0]);
      if fed.Going? {
        BlocksRecordTheirCalls(json, fed.state, blocks[1..]);
        RecordAllConcat(acc.list, EventCalls(json, ValuesOf(json, blocks[0])), BlockCalls(json, blocks[1..]));
      }
    }
  }

  /** The calls of a response are those announced anywhere in the body: each id once, where it was
      first announced and as it was last announced, and every call without an id. */
  lemma {:induction false} ResponseCallsAreDistinct(json: Codec, body: string)
    requires ParseSse(json, body).Response?
    ensures ParseSse(json, body).toolCalls == Distinct(BlockCalls(json, Blocks(SplitLines(body), [])))
  {
    var blocks := Blocks(SplitLines(body), []);
    ParseSseIsTurnOfTheBlocks(json, body);
    BlocksRecordTheirCalls(json, START, blocks);
    RecordingKeepsDistinctCalls(BlockCalls(json, blocks));
  }
}
