/** Cutting the growing text of a reply into segments of at most the channel's limit.
    The code slices `str` values at byte offsets; the results here say what that means in
    characters. */
module StreamingSegments {
  import opened Options
  import Utf8

  /** `str::char_indices`: every character with the byte offset at which it starts. */
  function CharIndices(content: string, offset: nat): seq<(nat, char)> {
    if content == "" then []
    else [(offset, content[0])] + CharIndices(content[1..], offset + |Utf8.EncodeChar(content[0])|)
  }

  function ByteIndexForCharOffset(content: string, charOffset: nat): nat {
    if charOffset == 0 then
      0
    else
      var indices := CharIndices(content, 0);
      if charOffset < |indices| then indices[charOffset].0 else |Utf8.Encode(content)|
  }

  /** Rust panics when a `str` is sliced anywhere else. */
  predicate IsCharBoundary(s: string, index: nat) {
    && index <= |Utf8.Encode(s)|
    && Utf8.FromUtf8(Utf8.Encode(s)[..index]).Some?
    && Utf8.FromUtf8(Utf8.Encode(s)[index..]).Some?
  }

  /** `&s[index..]` */
  function StrFrom(s: string, index: nat): string
    requires IsCharBoundary(s, index)
  {
    Utf8.FromUtf8(Utf8.Encode(s)[index..]).value
  }

  /** `&s[..index]` */
  function StrTo(s: string, index: nat): string
    requires IsCharBoundary(s, index)
  {
    Utf8.FromUtf8(Utf8.Encode(s)[..index]).value
  }

  function Min(a: nat, b: nat): nat {
    if a < b then a else b
  }

  lemma {:induction false} CharIndexIsPrefixLength(content: string, offset: nat, k: nat)
    requires k < |content|
    ensures |CharIndices(content, offset)| == |content|
    ensures CharIndices(content, offset)[k].0 == offset + |Utf8.Encode(content[..k])|
  {
    var rest := content[1..];
    var next := offset + |Utf8.EncodeChar(content[0])|;
    if k > 0 {
      CharIndexIsPrefixLength(rest, next, k - 1);
      assert content[..k] == [content[0]] + rest[..k - 1];
      assert content[..k][1..] == rest[..k - 1];
    } else if rest != "" {
      CharIndexIsPrefixLength(rest, next, 0);
    }
  }

  /** Byte slicing at a computed offset never panics and is the same as taking and dropping
      characters, however wide the characters are. */
  lemma ByteSlicingIsCharSlicing(content: string, charOffset: nat)
    ensures var index := ByteIndexForCharOffset(content, charOffset);
            var n := Min(charOffset, |content|);
            && IsCharBoundary(content, index)
            && StrTo(content, index) == content[..n]
            && StrFrom(content, index) == content[n..]
  {
    var index := ByteIndexForCharOffset(content, charOffset);
    var n := Min(charOffset, |content|);
    if charOffset < |content| {
      CharIndexIsPrefixLength(content, 0, charOffset);
    } else if content != "" {
      CharIndexIsPrefixLength(content, 0, 0);
      assert content[..n] == content;
    }
    assert index == |Utf8.Encode(content[..n])|;
    Utf8.EncodeConcat(content[..n], content[n..]);
    assert content[..n] + content[n..] == content;
    Utf8.FromUtf8Inverse(Utf8.Encode(content)[..index], content[..n]);
    Utf8.FromUtf8Inverse(Utf8.Encode(content)[index..], content[n..]);
  }

  /** `&content[byte_index_for_char_offset(content, n)..]` */
  function DropChars(content: string, n: nat): (tail: string)
    ensures tail == content[Min(n, |content|)..]
  {
    ByteSlicingIsCharSlicing(content, n);
    StrFrom(content, ByteIndexForCharOffset(content, n))
  }

  /** `&content[..byte_index_for_char_offset(content, n)]` */
  function TakeChars(content: string, n: nat): (head: string)
    ensures head == content[..Min(n, |content|)]
  {
    ByteSlicingIsCharSlicing(content, n);
    StrTo(content, ByteIndexForCharOffset(content, n))
  }

  datatype Segment = Segment(content: string, visibleChars: nat, hasOverflow: bool)

  /** What the next message is to show, in characters: the window of at most `limit` characters
      that starts at the committed prefix. */
  function SegmentWindow(latest: string, committed: nat, limit: Option<nat>): Option<Segment> {
    if |latest| <= committed then
      None
    else
      var left := |latest| - committed;
      var n := if limit.Some? then Min(limit.value, left) else left;
      Some(Segment(latest[committed..committed + n], n, n < left))
  }

  lemma WindowIsTakeOfDrop(s: string, start: nat, n: nat)
    requires start + n <= |s|
    ensures s[start..][..n] == s[start..start + n]
  {
  }

  function ActiveStreamingSegment(latest: string, committed: nat, limit: Option<nat>): (segment: Option<Segment>)
    ensures segment == SegmentWindow(latest, committed, limit)
  {
    var tail := DropChars(latest, committed);
    if tail == "" then
      None
    else
      var tailChars := |tail|;
      var visibleChars := if limit.Some? then Min(limit.value, tailChars) else tailChars;
      WindowIsTakeOfDrop(latest, committed, visibleChars);
      Some(Segment(TakeChars(tail, visibleChars), visibleChars, tailChars > visibleChars))
  }
}
