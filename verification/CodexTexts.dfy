/** Texts and errors as the provider writes them into its events, and what the reader makes of them. */
module CodexTexts {
  import opened Options
  import opened JsonValues
  import opened Text
  import opened TextLaws
  import opened CodexStream

  /** A text with the white space around it, which is not shown. */
  datatype Padded = Padded(before: string, core: string, after: string)

  predicate IsPadded(text: Padded) {
    IsBlank(text.before) && IsBlank(text.after) && IsTrimmed(text.core)
  }

  function Plain(text: Padded): string {
    text.before + text.core + text.after
  }

  function Shown(text: Option<Padded>): seq<string> {
    if text.Some? && text.value.core != "" then [text.value.core] else []
  }

  function FirstShown(text: Option<Padded>): Option<string> {
    if Shown(text) == [] then None else Some(Shown(text)[0])
  }

  predicate IsPaddedIfAny(text: Option<Padded>) {
    text.Some? ==> IsPadded(text.value)
  }

  function PlainIfAny(text: Option<Padded>): Option<string> {
    if text.Some? then Some(Plain(text.value)) else None
  }

  lemma {:induction false} PaddedIsShown(text: Option<Padded>)
    requires IsPaddedIfAny(text)
    ensures FirstNonempty(PlainIfAny(text)) == FirstShown(text)
  {
    if text.Some? {
      TrimOf(text.value.before, text.value.core, text.value.after);
    }
  }

  function StrField(key: string, text: Option<Padded>): map<string, Json> {
    if text.Some? then map[key := Str(Plain(text.value))] else map[]
  }

  lemma {:induction false} StrFieldIsRead(others: map<string, Json>, key: string, text: Option<Padded>)
    requires text.None? ==> key !in others
    ensures GetStr(Obj(others + StrField(key, text)), key) == PlainIfAny(text)
  {
  }

  // ---------------------------------------------------------------------------------------------
  // The text of a response.

  /** A part of an item: its text counts if it is of one of three kinds. */
  datatype Part = Part(kind: string, text: Option<Padded>)

  datatype Item = Item(text: Option<Padded>, parts: seq<Part>)

  function PartJson(part: Part): Json {
    Obj(map["type" := Str(part.kind)] + StrField("text", part.text))
  }

  function PartsJson(parts: seq<Part>): seq<Json> {
    seq(|parts|, i requires 0 <= i < |parts| => PartJson(parts[i]))
  }

  function ItemJson(item: Item): Json {
    Obj(map["content" := Arr(PartsJson(item.parts))] + StrField("text", item.text))
  }

  function ItemsJson(items: seq<Item>): seq<Json> {
    seq(|items|, i requires 0 <= i < |items| => ItemJson(items[i]))
  }

  function ShownParts(parts: seq<Part>): seq<string> {
    if parts == [] then []
    else (if parts[0].kind in {"output_text", "input_text", "text"} then Shown(parts[0].text) else [])
         + ShownParts(parts[1..])
  }

  function ShownItems(items: seq<Item>): seq<string> {
    if items == [] then [] else Shown(items[0].text) + ShownParts(items[0].parts) + ShownItems(items[1..])
  }

  predicate ArePaddedParts(parts: seq<Part>) {
    forall i :: 0 <= i < |parts| ==> IsPaddedIfAny(parts[i].text)
  }

  predicate ArePaddedItems(items: seq<Item>) {
    forall i :: 0 <= i < |items| ==> IsPaddedIfAny(items[i].text) && ArePaddedParts(items[i].parts)
  }

  lemma {:induction false} PartIsRead(part: Part)
    ensures GetStr(PartJson(part), "type") == Some(part.kind) && GetStr(PartJson(part), "text") == PlainIfAny(part.text)
  {
    var kind: map<string, Json> := map["type" := Str(part.kind)];
    assert "type"[1] != "text"[1];
    StrFieldIsRead(kind, "text", part.text);
  }

  lemma {:induction false} PartIsShown(part: Part, parts: seq<Json>)
    requires IsPaddedIfAny(part.text) && parts != [] && parts[0] == PartJson(part)
    ensures PartTexts(parts)
         == (if part.kind in {"output_text", "input_text", "text"} then Shown(part.text) else [])
            + PartTexts(parts[1..])
  {
    PartIsRead(part);
    PaddedIsShown(part.text);
  }

  lemma {:induction false} PartsAreRead(parts: seq<Part>)
    requires ArePaddedParts(parts)
    ensures PartTexts(PartsJson(parts)) == ShownParts(parts)
  {
    if parts != [] {
      PartIsShown(parts[0], PartsJson(parts));
      assert PartsJson(parts)[1..] == PartsJson(parts[1..]);
      PartsAreRead(parts[1..]);
    }
  }

  lemma {:induction false} ItemIsRead(item: Item)
    ensures GetStr(ItemJson(item), "text") == PlainIfAny(item.text)
    ensures GetItems(ItemJson(item), "content") == PartsJson(item.parts)
  {
    var content: map<string, Json> := map["content" := Arr(PartsJson(item.parts))];
    StrFieldIsRead(content, "text", item.text);
  }

  lemma {:induction false} ItemIsShown(item: Item, items: seq<Json>)
    requires IsPaddedIfAny(item.text) && ArePaddedParts(item.parts) && items != [] && items[0] == ItemJson(item)
    ensures ItemTexts(items) == Shown(item.text) + ShownParts(item.parts) + ItemTexts(items[1..])
  {
    ItemIsRead(item);
    PaddedIsShown(item.text);
    PartsAreRead(item.parts);
  }

  lemma {:induction false} ItemsAreRead(items: seq<Item>)
    requires ArePaddedItems(items)
    ensures ItemTexts(ItemsJson(items)) == ShownItems(items)
  {
    if items != [] {
      ItemIsShown(items[0], ItemsJson(items));
      assert ItemsJson(items)[1..] == ItemsJson(items[1..]);
      ItemsAreRead(items[1..]);
    }
  }

  function ResponseJson(others: map<string, Json>, direct: Option<Padded>, items: seq<Item>): Json {
    Obj(others + map["output" := Arr(ItemsJson(items))] + StrField("output_text", direct))
  }

  /** Each text on a line of its own. */
  function OnLines(texts: seq<string>): string {
    if |texts| <= 1 then if texts == [] then "" else texts[0] else texts[0] + "\n" + OnLines(texts[1..])
  }

  lemma {:induction false} LinesAreJoined(texts: seq<string>)
    ensures Join(texts, "\n") == OnLines(texts)
  {
    if |texts| > 1 {
      LinesAreJoined(texts[1..]);
    }
  }

  lemma {:induction false} ResponseFields(others: map<string, Json>, direct: Option<Padded>, items: seq<Item>)
    requires direct.None? ==> "output_text" !in others
    ensures var response := ResponseJson(others, direct, items);
            && GetStr(response, "output_text") == PlainIfAny(direct)
            && GetItems(response, "output") == ItemsJson(items)
  {
    var output: map<string, Json> := map["output" := Arr(ItemsJson(items))];
    StrFieldIsRead(others + output, "output_text", direct);
  }

  lemma {:induction false} TextOfFields(response: Json, direct: Option<string>, texts: seq<string>)
    requires FirstNonempty(GetStr(response, "output_text")) == direct
    requires ItemTexts(GetItems(response, "output")) == texts
    ensures ParseOutputText(response)
         == if direct.Some? then direct else if texts == [] then None else Some(OnLines(texts))
  {
    LinesAreJoined(texts);
  }

  /** The text of a response is the one it gives directly, or else all the texts of its items, each on a
      line of its own, without the white space around them; and none if these are all blank. */
  lemma {:induction false} WrittenTextIsRead(others: map<string, Json>, direct: Option<Padded>, items: seq<Item>)
    requires IsPaddedIfAny(direct) && ArePaddedItems(items)
    requires direct.None? ==> "output_text" !in others
    ensures ParseOutputText(ResponseJson(others, direct, items))
         == if Shown(direct) != [] then Some(direct.value.core)
            else if ShownItems(items) == [] then None
            else Some(OnLines(ShownItems(items)))
  {
    ResponseFields(others, direct, items);
    PaddedIsShown(direct);
    ItemsAreRead(items);
    TextOfFields(ResponseJson(others, direct, items), FirstShown(direct), ShownItems(items));
  }

  // ---------------------------------------------------------------------------------------------
  // Errors.

  datatype ErrorPlace = InMessage | InCode | InError | InResponse

  function MessageObject(text: Padded): Json {
    Obj(map["message" := Str(Plain(text))])
  }

  /** An error event with its message in one of the four accepted places. */
  function ErrorJson(place: ErrorPlace, text: Padded, others: map<string, Json>): Json {
    var kind := if place.InResponse? then "response.failed" else "error";
    var event: map<string, Json> := others + map["type" := Str(kind)];
    match place
    case InMessage => Obj(event + map["message" := Str(Plain(text))])
    case InCode => Obj(event + map["code" := Str(Plain(text))])
    case InError => Obj(event + map["error" := MessageObject(text)])
    case InResponse => Obj(event + map["response" := Obj(map["error" := MessageObject(text)])])
  }

  /** The message comes before the code, and that before the error object. */
  predicate IsFirstMessage(place: ErrorPlace, others: map<string, Json>) {
    && (place.InCode? || place.InError? ==> GetStr(Obj(others), "message").None?)
    && (place.InError? ==> GetStr(Obj(others), "code").None?)
  }

  lemma {:induction false} FieldOfEvent(fields: map<string, Json>, key: string, value: Json, other: string)
    ensures Get(Obj(fields + map[key := value]), other) == if other == key then Some(value) else Get(Obj(fields), other)
  {
  }

  lemma {:induction false} MessageIsThere(text: Padded)
    ensures AsStr(Get(MessageObject(text), "message")) == Some(Plain(text))
  {
  }

  lemma {:induction false} ErrorEventIsRead(place: ErrorPlace, text: Padded, others: map<string, Json>)
    requires IsFirstMessage(place, others) && !place.InResponse?
    ensures ExtractStreamError(ErrorJson(place, text, others)) == FirstNonempty(Some(Plain(text)))
  {
    var kind := Str("error");
    var event: map<string, Json> := others + map["type" := kind];
    var (key, value) := match place
      case InMessage => ("message", Str(Plain(text)))
      case InCode => ("code", Str(Plain(text)))
      case _ => ("error", MessageObject(text));
    assert "code"[0] != "type"[0];
    forall other
      ensures Get(ErrorJson(place, text, others), other)
           == if other == key then Some(value) else if other == "type" then Some(kind) else Get(Obj(others), other)
    {
      FieldOfEvent(event, key, value, other);
      FieldOfEvent(others, "type", kind, other);
    }
    MessageIsThere(text);
  }

  lemma {:induction false} FailedResponseIsRead(text: Padded, others: map<string, Json>)
    ensures ExtractStreamError(ErrorJson(InResponse, text, others)) == FirstNonempty(Some(Plain(text)))
  {
    var event: map<string, Json> := others + map["type" := Str("response.failed")];
    var response := Obj(map["error" := MessageObject(text)]);
    FieldOfEvent(event, "response", response, "type");
    FieldOfEvent(event, "response", response, "response");
    FieldOfEvent(others, "type", Str("response.failed"), "type");
    assert Get(response, "error") == Some(MessageObject(text));
    MessageIsThere(text);
  }

  /** The message of an error is read from wherever it is written; a blank one is no error. */
  lemma {:induction false} WrittenErrorIsRead(place: ErrorPlace, text: Padded, others: map<string, Json>)
    requires IsFirstMessage(place, others) && IsPadded(text)
    ensures ExtractStreamError(ErrorJson(place, text, others)) == if text.core == "" then None else Some(text.core)
  {
    PaddedIsShown(Some(text));
    if place.InResponse? {
      FailedResponseIsRead(text, others);
    } else {
      ErrorEventIsRead(place, text, others);
    }
  }

  /** Events of other kinds are no errors. */
  lemma {:induction false} OtherEventsAreNoErrors(event: Json)
    requires Get(event, "type") != Some(Str("error")) && Get(event, "type") != Some(Str("response.failed"))
    ensures ExtractStreamError(event) == None
  {
  }
}
