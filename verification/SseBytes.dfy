/** The stream as bytes: every chunk is decoded by itself before its lines are taken. */
module SseBytes {
  import opened SseStream
  import Utf8

  predicate AllDecode(chunks: seq<seq<Utf8.Byte>>) {
    forall i :: 0 <= i < |chunks| ==> Utf8.FromUtf8(chunks[i]).Some?
  }

  function Decoded(chunks: seq<seq<Utf8.Byte>>): seq<string>
    requires AllDecode(chunks)
  {
    seq(|chunks|, i requires 0 <= i < |chunks| => Utf8.FromUtf8(chunks[i]).value)
  }

  function Concat(chunks: seq<seq<Utf8.Byte>>): seq<Utf8.Byte> {
    if chunks == [] then [] else chunks[0] + Concat(chunks[1..])
  }

  lemma {:induction false} DecodedChunksMakeTheBody(chunks: seq<seq<Utf8.Byte>>)
    requires AllDecode(chunks)
    ensures Utf8.Encode(Flatten(Decoded(chunks))) == Concat(chunks)
    decreases |chunks|
  {
    if chunks != [] {
      assert Decoded(chunks)[1..] == Decoded(chunks[1..]);
      DecodedChunksMakeTheBody(chunks[1..]);
      Utf8.FromUtf8Inverse(chunks[0], Decoded(chunks)[0]);
      Utf8.EncodeConcat(Decoded(chunks)[0], Flatten(Decoded(chunks[1..])));
    }
  }

  /** `push_bytes`: a chunk that is not UTF-8 by itself is an error. */
  function PushBytes<A>(state: A, buffer: string, bytes: seq<Utf8.Byte>, onLine: (A, string) -> Fed<A>,
      invalid: string): (Fed<A>, string) {
    match Utf8.FromUtf8(bytes)
    case None => (Stopped(state, invalid), buffer)
    case Some(text) => TakeLines(state, buffer + text, onLine)
  }

  function PushAll<A>(state: A, buffer: string, chunks: seq<seq<Utf8.Byte>>, onLine: (A, string) -> Fed<A>,
      invalid: string): (Fed<A>, string)
    decreases |chunks|
  {
    if chunks == [] then (Going(state), buffer)
    else
      var (fed, rest) := PushBytes(state, buffer, chunks[0], onLine, invalid);
      if fed.Stopped? then (fed, rest) else PushAll(fed.state, rest, chunks[1..], onLine, invalid)
  }

  lemma {:induction false} PushingValidChunks<A>(
      state: A, buffer: string, chunks: seq<seq<Utf8.Byte>>, onLine: (A, string) -> Fed<A>, invalid: string)
    requires AllDecode(chunks)
    ensures PushAll(state, buffer, chunks, onLine, invalid) == PushTexts(state, buffer, Decoded(chunks), onLine)
    decreases |chunks|
  {
    if chunks != [] {
      assert Decoded(chunks)[1..] == Decoded(chunks[1..]);
      var (fed, rest) := PushBytes(state, buffer, chunks[0], onLine, invalid);
      if fed.Going? {
        PushingValidChunks(fed.state, rest, chunks[1..], onLine, invalid);
      }
    }
  }

  lemma {:induction false} PushingAnInvalidChunkStops<A>(
      state: A, buffer: string, chunks: seq<seq<Utf8.Byte>>, onLine: (A, string) -> Fed<A>, invalid: string)
    requires !AllDecode(chunks)
    ensures PushAll(state, buffer, chunks, onLine, invalid).0.Stopped?
    decreases |chunks|
  {
    var (fed, rest) := PushBytes(state, buffer, chunks[0], onLine, invalid);
    if fed.Going? {
      assert !AllDecode(chunks[1..]) by {
        var i :| 0 <= i < |chunks| && Utf8.FromUtf8(chunks[i]).None?;
        assert chunks[1..][i - 1] == chunks[i];
      }
      PushingAnInvalidChunkStops(fed.state, rest, chunks[1..], onLine, invalid);
    }
  }

  /** All of `push_bytes` and `finish` but the emission of the final events, on bytes. */
  function ReadBytes<A>(state: A, chunks: seq<seq<Utf8.Byte>>, onBlock: (A, seq<string>) -> Fed<A>,
      invalid: string): Fed<A> {
    var (fed, rest) := PushAll((state, []), "", chunks, OnLine(onBlock), invalid);
    match fed
    case Stopped(pending, error) => Stopped(pending.0, error)
    case Going(pending) => FinishPending(TakeTrailing(pending, rest, OnLine(onBlock)), onBlock)
  }

  /** However the bytes of a body arrive: the reader gets to the end if and only if every chunk is
      valid UTF-8 by itself and the blocks of the body hold no error, and then in the same state. */
  lemma ReadingBytesIsFoldingBlocksIff<A>(
      state: A, chunks: seq<seq<Utf8.Byte>>, body: string, onBlock: (A, seq<string>) -> Fed<A>, invalid: string, end: A)
    requires Concat(chunks) == Utf8.Encode(body)
    ensures ReadBytes(state, chunks, onBlock, invalid) == Going(end)
       <==> AllDecode(chunks) && FoldBlocks(state, Blocks(SplitLines(body), []), onBlock) == Going(end)
  {
    if AllDecode(chunks) {
      DecodedChunksMakeTheBody(chunks);
      Utf8.EncodeInjective(Flatten(Decoded(chunks)), body);
      PushingValidChunks((state, []), "", chunks, OnLine(onBlock), invalid);
      ReadingAStreamIsFoldingItsBlocks(state, Decoded(chunks), onBlock);
    } else {
      PushingAnInvalidChunkStops((state, []), "", chunks, OnLine(onBlock), invalid);
    }
  }
}
