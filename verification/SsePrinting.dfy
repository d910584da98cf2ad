/** A stream as a server writes it, and what the reader takes from it: lines may end in a line feed or in
    carriage return and line feed, a data line may have white space before its text, and other fields and
    empty blocks may stand in between. */
module SsePrinting {
  import opened Options
  import opened Text
  import opened TextLaws
  import opened SseStream

  // ---------------------------------------------------------------------------------------------
  // Lines.

  datatype Line = Line(text: string, hasCarriageReturn: bool)

  predicate IsLineText(text: string) {
    '\n' !in text && (text != "" ==> text[|text| - 1] != '\r')
  }

  function PrintLine(line: Line): string {
    line.text + if line.hasCarriageReturn then "\r\n" else "\n"
  }

  function PrintLines(lines: seq<Line>): string {
    if lines == [] then "" else PrintLine(lines[0]) + PrintLines(lines[1..])
  }

  function TextsOf(lines: seq<Line>): seq<string> {
    seq(|lines|, i requires 0 <= i < |lines| => lines[i].text)
  }

  predicate AreLineTexts(lines: seq<Line>) {
    forall i :: 0 <= i < |lines| ==> IsLineText(lines[i].text)
  }

  lemma {:induction false} FirstLineFeed(before: string, after: string)
    requires '\n' !in before
    ensures FindChar(before + "\n" + after, '\n') == Some(|before|)
  {
    if before == "" {
      assert before + "\n" + after == "\n" + after;
    } else {
      assert (before + "\n" + after)[1..] == before[1..] + "\n" + after;
      FirstLineFeed(before[1..], after);
    }
  }

  lemma {:induction false} FirstLineIsRead(line: Line, more: string)
    requires IsLineText(line.text)
    ensures SplitLines(PrintLine(line) + more) == [line.text] + SplitLines(more)
  {
    var written := line.text + if line.hasCarriageReturn then "\r" else "";
    var text := PrintLine(line) + more;
    assert text == written + "\n" + more;
    FirstLineFeed(written, more);
    assert text[..|written|] == written && text[|written| + 1..] == more;
    CarriageReturnIsStripped(line);
  }

  lemma {:induction false} CarriageReturnIsStripped(line: Line)
    requires IsLineText(line.text)
    ensures StripCr(line.text + if line.hasCarriageReturn then "\r" else "") == line.text
  {
    if line.hasCarriageReturn {
      assert (line.text + "\r")[..|line.text|] == line.text;
    } else {
      assert line.text + "" == line.text;
    }
  }

  /** The lines are read back whatever ends them. */
  lemma {:induction false} LinesAreReadBack(lines: seq<Line>)
    requires AreLineTexts(lines)
    ensures SplitLines(PrintLines(lines)) == TextsOf(lines)
  {
    if lines != [] {
      FirstLineIsRead(lines[0], PrintLines(lines[1..]));
      LinesAreReadBack(lines[1..]);
      assert TextsOf(lines) == [lines[0].text] + TextsOf(lines[1..]);
    }
  }

  // ---------------------------------------------------------------------------------------------
  // Blocks.

  /** A data field with the white space before its text, or a field that the readers ignore. */
  datatype Field = Data(gap: string, text: string) | Other(text: string)

  function FieldText(field: Field): string {
    match field
    case Data(gap, text) => "data:" + gap + text
    case Other(text) => text
  }

  predicate IsField(field: Field) {
    && IsLineText(FieldText(field))
    && match field
       case Data(gap, text) =>
         IsBlank(gap) && (text != "" ==> !IsWhitespace(text[0]))
       case Other(text) => text != "" && !("data:" <= text)
  }

  predicate AreFields(fields: seq<Field>) {
    forall i :: 0 <= i < |fields| ==> IsField(fields[i])
  }

  predicate AreBlocks(blocks: seq<seq<Field>>) {
    forall i :: 0 <= i < |blocks| ==> AreFields(blocks[i])
  }

  function FieldTexts(fields: seq<Field>): seq<string> {
    if fields == [] then [] else [FieldText(fields[0])] + FieldTexts(fields[1..])
  }

  /** What a block carries. */
  function DataOf(fields: seq<Field>): seq<string> {
    if fields == [] then []
    else (if fields[0].Data? then [fields[0].text] else []) + DataOf(fields[1..])
  }

  /** Every block is closed by an empty line. */
  function LinesOfBlocks(blocks: seq<seq<Field>>): seq<string> {
    if blocks == [] then [] else FieldTexts(blocks[0]) + [""] + LinesOfBlocks(blocks[1..])
  }

  /** Blocks without data do not count. */
  function DataOfBlocks(blocks: seq<seq<Field>>): seq<seq<string>> {
    if blocks == [] then []
    else (if DataOf(blocks[0]) == [] then [] else [DataOf(blocks[0])]) + DataOfBlocks(blocks[1..])
  }

  lemma {:induction false} FieldIsTaken(field: Field, lines: seq<string>, pending: seq<string>)
    requires IsField(field)
    ensures Blocks([FieldText(field)] + lines, pending)
         == Blocks(lines, pending + if field.Data? then [field.text] else [])
  {
    var all := [FieldText(field)] + lines;
    assert all[1..] == lines && all[0] == FieldText(field);
    match field
    case Data(gap, text) =>
      assert FieldText(field) == "data:" + (gap + text);
      assert FieldText(field)[5..] == gap + text;
      GapIsDropped(gap, text);
    case Other(_) =>
      assert pending + [] == pending;
  }

  lemma {:induction false} Associate(a: seq<string>, b: seq<string>, c: seq<string>)
    ensures (a + b) + c == a + (b + c)
  {
  }

  lemma {:induction false} FieldsAreTaken(fields: seq<Field>, lines: seq<string>, pending: seq<string>)
    requires AreFields(fields)
    ensures Blocks(FieldTexts(fields) + lines, pending) == Blocks(lines, pending + DataOf(fields))
  {
    if fields == [] {
      assert FieldTexts(fields) + lines == lines && pending + DataOf(fields) == pending;
    } else {
      var data := if fields[0].Data? then [fields[0].text] else [];
      Associate([FieldText(fields[0])], FieldTexts(fields[1..]), lines);
      FieldIsTaken(fields[0], FieldTexts(fields[1..]) + lines, pending);
      assert AreFields(fields[1..]);
      FieldsAreTaken(fields[1..], lines, pending + data);
      Associate(pending, data, DataOf(fields[1..]));
    }
  }

  lemma {:induction false} BlocksAreReadBack(blocks: seq<seq<Field>>)
    requires AreBlocks(blocks)
    ensures Blocks(LinesOfBlocks(blocks), []) == DataOfBlocks(blocks)
  {
    if blocks != [] {
      var more := LinesOfBlocks(blocks[1..]);
      assert LinesOfBlocks(blocks) == FieldTexts(blocks[0]) + ([""] + more);
      FieldsAreTaken(blocks[0], [""] + more, []);
      assert [] + DataOf(blocks[0]) == DataOf(blocks[0]);
      assert ([""] + more)[0] == "" && ([""] + more)[1..] == more;
      assert AreBlocks(blocks[1..]);
      BlocksAreReadBack(blocks[1..]);
    }
  }

  // ---------------------------------------------------------------------------------------------
  // Both together.

  /** The body has these blocks, with any line ends. */
  predicate IsWritten(body: string, blocks: seq<seq<Field>>, lines: seq<Line>) {
    AreBlocks(blocks) && TextsOf(lines) == LinesOfBlocks(blocks) && body == PrintLines(lines)
  }

  lemma {:induction false} FieldTextsAreLines(fields: seq<Field>)
    requires AreFields(fields)
    ensures forall i :: 0 <= i < |FieldTexts(fields)| ==> IsLineText(FieldTexts(fields)[i])
  {
    if fields != [] {
      assert IsField(fields[0]);
      FieldTextsAreLines(fields[1..]);
    }
  }

  lemma {:induction false} BlockLinesAreLines(blocks: seq<seq<Field>>)
    requires AreBlocks(blocks)
    ensures forall i :: 0 <= i < |LinesOfBlocks(blocks)| ==> IsLineText(LinesOfBlocks(blocks)[i])
  {
    if blocks != [] {
      FieldTextsAreLines(blocks[0]);
      BlockLinesAreLines(blocks[1..]);
    }
  }

  /** The reader hands on exactly the data of the blocks that were written. */
  lemma {:induction false} WrittenBlocksAreRead(body: string, blocks: seq<seq<Field>>, lines: seq<Line>)
    requires IsWritten(body, blocks, lines)
    ensures Blocks(SplitLines(body), []) == DataOfBlocks(blocks)
  {
    BlockLinesAreLines(blocks);
    assert forall i :: 0 <= i < |lines| ==> lines[i].text == TextsOf(lines)[i];
    LinesAreReadBack(lines);
    BlocksAreReadBack(blocks);
  }
}
