/** Incremental reading of a server-sent event stream, as both providers do it: bytes come in
    chunks, lines are taken off a buffer, `data:` lines are collected, and an empty line or the end
    of the stream hands the collected block on. The reference is the reading of the whole text at
    once. Where this differs from section 9.2.6 of the WHATWG HTML Standard, it follows the code:
    all leading whitespace of a data line is dropped, a lone carriage return ends no line, other
    fields are ignored, and an unfinished last block is handed on instead of discarded. */
module SseStream {
  import opened Options
  import opened Text

  /** The state after some input, or the error at which reading stopped. The state holds the events
      emitted so far in both cases. */
  datatype Fed<+A> = Going(state: A) | Stopped(state: A, error: string)

  function ErrorOf<A>(fed: Fed<A>): Option<string> {
    if fed.Stopped? then Some(fed.error) else None
  }

  // ---------------------------------------------------------------------------------------------
  // The code's way: a buffer from which whole lines are taken.

  /** The loop of `push_bytes`. Returns also what stays in the buffer. */
  function TakeLines<A>(state: A, buffer: string, onLine: (A, string) -> Fed<A>): (Fed<A>, string)
    decreases |buffer|
  {
    match FindChar(buffer, '\n')
    case None => (Going(state), buffer)
    case Some(i) =>
      var fed := onLine(state, StripCr(buffer[..i]));
      if fed.Stopped? then (fed, buffer[i + 1..])
      else TakeLines(fed.state, buffer[i + 1..], onLine)
  }

  /** `push_bytes` on text, one chunk after the other, up to the first error. */
  function PushTexts<A>(state: A, buffer: string, chunks: seq<string>, onLine: (A, string) -> Fed<A>): (Fed<A>, string)
    decreases |chunks|
  {
    if chunks == [] then (Going(state), buffer)
    else
      var (fed, rest) := TakeLines(state, buffer + chunks[0], onLine);
      if fed.Stopped? then (fed, rest) else PushTexts(fed.state, rest, chunks[1..], onLine)
  }

  /** The first half of `finish`: a last line that no line feed ended. */
  function TakeTrailing<A>(state: A, buffer: string, onLine: (A, string) -> Fed<A>): Fed<A> {
    if buffer == "" then Going(state) else onLine(state, StripCr(buffer))
  }

  function ReadChunks<A>(state: A, chunks: seq<string>, onLine: (A, string) -> Fed<A>): Fed<A> {
    var (fed, rest) := PushTexts(state, "", chunks, onLine);
    if fed.Stopped? then fed else TakeTrailing(fed.state, rest, onLine)
  }

  // ---------------------------------------------------------------------------------------------
  // The reference: all lines of the whole text, then all blocks of the lines.

  /** Every line, its end removed; a text that ends in a line feed has no empty last line. */
  function SplitLines(text: string): seq<string>
    decreases |text|
  {
    if text == "" then []
    else
      match FindChar(text, '\n')
      case None => [StripCr(text)]
      case Some(i) => [StripCr(text[..i])] + SplitLines(text[i + 1..])
  }

  function FoldLines<A>(state: A, lines: seq<string>, onLine: (A, string) -> Fed<A>): Fed<A>
    decreases |lines|
  {
    if lines == [] then Going(state)
    else
      var fed := onLine(state, lines[0]);
      if fed.Stopped? then fed else FoldLines(fed.state, lines[1..], onLine)
  }

  function Flatten(chunks: seq<string>): string {
    if chunks == [] then "" else chunks[0] + Flatten(chunks[1..])
  }

  lemma {:induction false} FindCharInPrefix(x: string, y: string)
    requires FindChar(x, '\n').Some?
    ensures FindChar(x + y, '\n') == FindChar(x, '\n')
  {
    if x[0] != '\n' {
      assert (x + y)[1..] == x[1..] + y;
      FindCharInPrefix(x[1..], y);
    }
  }

  /** Lines already complete are taken the same way whatever follows them. */
  lemma {:induction false} TakeLinesSplits<A>(state: A, x: string, y: string, onLine: (A, string) -> Fed<A>)
    ensures var (fed, rest) := TakeLines(state, x, onLine);
            TakeLines(state, x + y, onLine)
            == if fed.Stopped? then (fed, rest + y) else TakeLines(fed.state, rest + y, onLine)
    decreases |x|
  {
    match FindChar(x, '\n')
    case None =>
    case Some(i) =>
      FindCharInPrefix(x, y);
      assert (x + y)[..i] == x[..i];
      assert (x + y)[i + 1..] == x[i + 1..] + y;
      var fed := onLine(state, StripCr(x[..i]));
      if fed.Going? {
        TakeLinesSplits(fed.state, x[i + 1..], y, onLine);
      }
  }

  /** Taking lines off the buffer and then the trailing one is folding over all lines. */
  lemma {:induction false} TakingLinesIsFolding<A>(state: A, text: string, onLine: (A, string) -> Fed<A>)
    ensures var (fed, rest) := TakeLines(state, text, onLine);
            FoldLines(state, SplitLines(text), onLine)
            == if fed.Stopped? then fed else TakeTrailing(fed.state, rest, onLine)
    decreases |text|
  {
    match FindChar(text, '\n')
    case None =>
      if text != "" {
        assert [StripCr(text)][1..] == [];
      }
    case Some(i) =>
      var fed := onLine(state, StripCr(text[..i]));
      assert SplitLines(text)[1..] == SplitLines(text[i + 1..]);
      if fed.Going? {
        TakingLinesIsFolding(fed.state, text[i + 1..], onLine);
      }
  }

  lemma {:induction false} PushingTextsIsTakingAll<A>(
      state: A, buffer: string, chunks: seq<string>, onLine: (A, string) -> Fed<A>)
    requires TakeLines(state, buffer, onLine) == (Going(state), buffer)
    ensures var (one, rest) := TakeLines(state, buffer + Flatten(chunks), onLine);
            var (many, left) := PushTexts(state, buffer, chunks, onLine);
            many == one && (one.Going? ==> left == rest)
    decreases |chunks|
  {
    if chunks == [] {
      assert buffer + "" == buffer;
    } else {
      var x, y := buffer + chunks[0], Flatten(chunks[1..]);
      assert buffer + Flatten(chunks) == x + y;
      TakeLinesSplits(state, x, y, onLine);
      var (fed, rest) := TakeLines(state, x, onLine);
      if fed.Going? {
        LeftoverHasNoLine(state, x, onLine);
        PushingTextsIsTakingAll(fed.state, rest, chunks[1..], onLine);
      }
    }
  }

  lemma {:induction false} LeftoverHasNoLine<A>(state: A, text: string, onLine: (A, string) -> Fed<A>)
    ensures var (fed, rest) := TakeLines(state, text, onLine);
            fed.Going? ==> TakeLines(fed.state, rest, onLine) == (fed, rest)
    decreases |text|
  {
    match FindChar(text, '\n')
    case None =>
    case Some(i) =>
      var fed := onLine(state, StripCr(text[..i]));
      if fed.Going? {
        LeftoverHasNoLine(fed.state, text[i + 1..], onLine);
      }
  }

  /** However the text is cut into chunks, reading it gives what folding over the lines of the whole
      text gives: the same events, the same success, the same error. */
  lemma ReadingChunksIsReadingTheWhole<A>(state: A, chunks: seq<string>, onLine: (A, string) -> Fed<A>)
    ensures ReadChunks(state, chunks, onLine) == FoldLines(state, SplitLines(Flatten(chunks)), onLine)
  {
    var text := Flatten(chunks);
    assert "" + text == text;
    PushingTextsIsTakingAll(state, "", chunks, onLine);
    TakingLinesIsFolding(state, text, onLine);
  }

  // ---------------------------------------------------------------------------------------------
  // Blocks of data lines.

  /** `process_line`: `onBlock` is the provider's handling of a non-empty list of data lines. The
      state is paired with the data lines collected so far. */
  function ProcessLine<A>(pending: (A, seq<string>), line: string, onBlock: (A, seq<string>) -> Fed<A>): Fed<(A,
      seq<string>)> {
    if line == "" then FlushBlock(pending, onBlock)
    else if "data:" <= line then Going((pending.0, pending.1 + [TrimStart(line[5..])]))
    else Going(pending)
  }

  function OnLine<A>(onBlock: (A, seq<string>) -> Fed<A>): ((A, seq<string>), string) -> Fed<(A, seq<string>)> {
    (pending: (A, seq<string>), line: string) => ProcessLine(pending, line, onBlock)
  }

  /** `flush_event` up to the handling of the payload. */
  function FlushBlock<A>(pending: (A, seq<string>), onBlock: (A, seq<string>) -> Fed<A>): Fed<(A, seq<string>)> {
    if pending.1 == [] then Going(pending)
    else
      match onBlock(pending.0, pending.1)
      case Going(state) => Going((state, []))
      case Stopped(state, error) => Stopped((state, []), error)
  }

  /** All of `push_bytes` and `finish` but the emission of the final events. */
  function ReadStream<A>(state: A, chunks: seq<string>, onBlock: (A, seq<string>) -> Fed<A>): Fed<A> {
    match ReadChunks((state, []), chunks, OnLine(onBlock))
    case Stopped(pending, error) => Stopped(pending.0, error)
    case Going(pending) =>
      match FlushBlock(pending, onBlock)
      case Going(flushed) => Going(flushed.0)
      case Stopped(flushed, error) => Stopped(flushed.0, error)
  }

  /** The blocks of a whole text: the runs of data lines between empty lines, the last one included. */
  function Blocks(lines: seq<string>, pending: seq<string>): seq<seq<string>>
    decreases |lines|
  {
    if lines == [] then
      if pending == [] then [] else [pending]
    else if lines[0] == "" then
      (if pending == [] then [] else [pending]) + Blocks(lines[1..], [])
    else if "data:" <= lines[0] then
      Blocks(lines[1..], pending + [TrimStart(lines[0][5..])])
    else
      Blocks(lines[1..], pending)
  }

  function FoldBlocks<A>(state: A, blocks: seq<seq<string>>, onBlock: (A, seq<string>) -> Fed<A>): Fed<A>
    decreases |blocks|
  {
    if blocks == [] then Going(state)
    else
      match onBlock(state, blocks[0])
      case Going(next) => FoldBlocks(next, blocks[1..], onBlock)
      case Stopped(last, error) => Stopped(last, error)
  }

  function FinishPending<A>(fed: Fed<(A, seq<string>)>, onBlock: (A, seq<string>) -> Fed<A>): Fed<A> {
    match fed
    case Stopped(pending, error) => Stopped(pending.0, error)
    case Going(pending) =>
      match FlushBlock(pending, onBlock)
      case Going(flushed) => Going(flushed.0)
      case Stopped(flushed, error) => Stopped(flushed.0, error)
  }

  lemma {:induction false} FoldingLinesIsFoldingBlocks<A>(
      state: A, pending: seq<string>, lines: seq<string>, onBlock: (A, seq<string>) -> Fed<A>)
    ensures FinishPending(FoldLines((state, pending), lines, OnLine(onBlock)), onBlock)
         == FoldBlocks(state, Blocks(lines, pending), onBlock)
    decreases |lines|
  {
    if lines == [] {
      if pending != [] {
        assert [pending][1..] == [];
      }
    } else if lines[0] == "" {
      var rest := Blocks(lines[1..], []);
      if pending == [] {
        assert Blocks(lines, pending) == rest;
        assert FlushBlock((state, pending), onBlock) == Going((state, pending));
        assert ProcessLine((state, pending), lines[0], onBlock) == Going((state, pending));
        FoldingLinesIsFoldingBlocks(state, [], lines[1..], onBlock);
      } else {
        assert ([pending] + rest)[1..] == rest;
        var fed := onBlock(state, pending);
        assert ProcessLine((state, pending), lines[0], onBlock) == FlushBlock((state, pending), onBlock);
        if fed.Going? {
          FoldingLinesIsFoldingBlocks(fed.state, [], lines[1..], onBlock);
        }
      }
    } else if "data:" <= lines[0] {
      FoldingLinesIsFoldingBlocks(state, pending + [TrimStart(lines[0][5..])], lines[1..], onBlock);
    } else {
      FoldingLinesIsFoldingBlocks(state, pending, lines[1..], onBlock);
    }
  }

  /** The incremental reader hands on exactly the blocks of the whole text, in order, up to the
      first error, however the text is cut. */
  lemma ReadingAStreamIsFoldingItsBlocks<A>(state: A, chunks: seq<string>, onBlock: (A, seq<string>) -> Fed<A>)
    ensures ReadStream(state, chunks, onBlock)
         == FoldBlocks(state, Blocks(SplitLines(Flatten(chunks)), []), onBlock)
  {
    ReadingChunksIsReadingTheWhole((state, []), chunks, OnLine(onBlock));
    FoldingLinesIsFoldingBlocks(state, [], SplitLines(Flatten(chunks)), onBlock);
  }
}
