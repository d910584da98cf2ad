/** Tool calls as the provider writes them into its output, in all the forms that are accepted, and what
    the reader makes of them. */
module CodexItems {
  import opened Options
  import opened JsonValues
  import opened ToolCalls
  import opened CodexStream

  /** A call, its arguments as an object. */
  datatype Call = Call(id: Option<string>, name: string, arguments: map<string, Json>)

  datatype ArgumentsPlace = Arguments | FunctionArguments | Args

  /** One of the ways to write a call. The item and its `function` may hold more than is read. */
  datatype Style = Style(
    kind: string,
    isIdUnderId: bool,
    isNameUnderFunction: bool,
    place: ArgumentsPlace,
    areArgumentsText: bool,
    others: map<string, Json>,
    inner: map<string, Json>)

  function ArgumentsValue(json: Codec, call: Call, style: Style): Json {
    if style.areArgumentsText then Str(json.render(Obj(call.arguments))) else Obj(call.arguments)
  }

  function IdFields(call: Call, style: Style): map<string, Json> {
    match call.id
    case None => map[]
    case Some(id) => if style.isIdUnderId then map["id" := Str(id)] else map["call_id" := Str(id)]
  }

  function NameFields(call: Call, isHere: bool): map<string, Json> {
    if isHere then map["name" := Str(call.name)] else map[]
  }

  function FunctionFields(json: Codec, call: Call, style: Style): map<string, Json> {
    if !style.isNameUnderFunction && style.place != FunctionArguments then map[]
    else
      var arguments: map<string, Json> :=
          if style.place == FunctionArguments then map["arguments" := ArgumentsValue(json, call, style)] else map[];
      map["function" := Obj(style.inner + NameFields(call, style.isNameUnderFunction) + arguments)]
  }

  function ArgumentsFields(json: Codec, call: Call, style: Style): map<string, Json> {
    match style.place
    case Arguments => map["arguments" := ArgumentsValue(json, call, style)]
    case FunctionArguments => map[]
    case Args => map["args" := ArgumentsValue(json, call, style)]
  }

  function ItemOf(json: Codec, call: Call, style: Style): Json {
    Obj(style.others + map["type" := Str(style.kind)] + IdFields(call, style)
        + NameFields(call, !style.isNameUnderFunction)
        + FunctionFields(json, call, style) + ArgumentsFields(json, call, style))
  }

  /** Nothing that is left in the item comes before what is written: "call_id" before "id", the item's own
      name and arguments before those of its `function`, and these arguments before "args". */
  predicate Fits(style: Style, call: Call) {
    && style.kind in {"function_call", "tool_call"}
    && (call.id.None? ==> "call_id" !in style.others && "id" !in style.others)
    && (style.isIdUnderId ==> "call_id" !in style.others)
    && (style.isNameUnderFunction ==> "name" !in style.others)
    && (style.place != Arguments ==> "arguments" !in style.others)
    && (style.place == Args ==>
          "arguments" !in style.inner
          && ("function" in style.others ==> Get(style.others["function"], "arguments").None?))
  }

  /** The library reads back this printed object. */
  predicate IsReadBack(json: Codec, fields: map<string, Json>) {
    json.parse(json.render(Obj(fields))) == Some(Obj(fields))
  }

  function ToolCallOf(json: Codec, call: Call): ToolCall {
    ToolCall(call.id, call.name, json.render(Obj(call.arguments)))
  }

  lemma {:induction false} NamesDiffer()
    ensures "type" != "name" && "type" != "args" && "name" != "args"
  {
    assert "type"[0] != "name"[0] && "type"[0] != "args"[0] && "name"[0] != "args"[0];
  }

  /** What an item has under a key: the last of its parts that has it. */
  lemma {:induction false} FieldOfItem(json: Codec, call: Call, style: Style, key: string)
    ensures var arguments, function_ := ArgumentsFields(json, call, style), FunctionFields(json, call, style);
            var name, id := NameFields(call, !style.isNameUnderFunction), IdFields(call, style);
            Get(ItemOf(json, call, style), key)
            == if key in arguments then Some(arguments[key])
               else if key in function_ then Some(function_[key])
               else if key in name then Some(name[key])
               else if key in id then Some(id[key])
               else if key == "type" then Some(Str(style.kind))
               else Get(Obj(style.others), key)
  {
    var a := style.others + map["type" := Str(style.kind)];
    var b := a + IdFields(call, style);
    var c := b + NameFields(call, !style.isNameUnderFunction);
    var d := c + FunctionFields(json, call, style);
    FieldOfSum(d, ArgumentsFields(json, call, style), key);
    FieldOfSum(c, FunctionFields(json, call, style), key);
    FieldOfSum(b, NameFields(call, !style.isNameUnderFunction), key);
    FieldOfSum(a, IdFields(call, style), key);
    FieldOfSum(style.others, map["type" := Str(style.kind)], key);
  }

  lemma {:induction false} TypeOfItem(json: Codec, call: Call, style: Style)
    ensures GetStr(ItemOf(json, call, style), "type") == Some(style.kind)
  {
    NamesDiffer();
    FieldOfItem(json, call, style, "type");
  }

  lemma {:induction false} IdOfItem(json: Codec, call: Call, style: Style)
    requires Fits(style, call)
    ensures var item := ItemOf(json, call, style);
            AsStr(OrElse(Get(item, "call_id"), Get(item, "id"))) == call.id
  {
    FieldOfItem(json, call, style, "call_id");
    FieldOfItem(json, call, style, "id");
  }

  lemma {:induction false} FunctionOfItem(json: Codec, call: Call, style: Style)
    ensures var function_ := FunctionFields(json, call, style);
            Get(ItemOf(json, call, style), "function")
            == if "function" in function_ then Some(function_["function"]) else Get(Obj(style.others), "function")
  {
    FieldOfItem(json, call, style, "function");
  }

  lemma {:induction false} NameOfFunction(json: Codec, call: Call, style: Style)
    requires style.isNameUnderFunction
    ensures "function" in FunctionFields(json, call, style)
    ensures Get(FunctionFields(json, call, style)["function"], "name") == Some(Str(call.name))
  {
  }

  lemma {:induction false} NameOfItem(json: Codec, call: Call, style: Style)
    requires Fits(style, call)
    ensures var item := ItemOf(json, call, style);
            AsStr(OrElse(Get(item, "name"), AndGet(Get(item, "function"), "name"))) == Some(call.name)
  {
    NamesDiffer();
    FieldOfItem(json, call, style, "name");
    if style.isNameUnderFunction {
      FunctionOfItem(json, call, style);
      NameOfFunction(json, call, style);
    }
  }

  lemma {:induction false} ArgumentsOfFunction(json: Codec, call: Call, style: Style)
    requires Fits(style, call) && style.place != Arguments
    ensures var function_ := FunctionFields(json, call, style);
            if style.place == FunctionArguments then
              "function" in function_ && Get(function_["function"], "arguments") ==
                Some(ArgumentsValue(json, call, style))
            else
              "function" in function_ ==> Get(function_["function"], "arguments") == None
  {
  }

  lemma {:induction false} OwnArgumentsOfItem(json: Codec, call: Call, style: Style)
    requires Fits(style, call)
    ensures Get(ItemOf(json, call, style), "arguments")
         == if style.place == Arguments then Some(ArgumentsValue(json, call, style)) else None
  {
    FieldOfItem(json, call, style, "arguments");
  }

  lemma {:induction false} OtherArgumentsOfItem(json: Codec, call: Call, style: Style)
    requires Fits(style, call) && style.place != Arguments
    ensures var item := ItemOf(json, call, style);
            && AndGet(Get(item, "function"), "arguments")
               == (if style.place == FunctionArguments then Some(ArgumentsValue(json, call, style)) else None)
            && (style.place == Args ==> Get(item, "args") == Some(ArgumentsValue(json, call, style)))
  {
    FunctionOfItem(json, call, style);
    ArgumentsOfFunction(json, call, style);
    FieldOfItem(json, call, style, "args");
  }

  lemma {:induction false} ArgumentsOfItem(json: Codec, call: Call, style: Style)
    requires Fits(style, call)
    ensures var item := ItemOf(json, call, style);
            OrElse(Get(item, "arguments"), OrElse(AndGet(Get(item, "function"), "arguments"), Get(item, "args")))
            == Some(ArgumentsValue(json, call, style))
  {
    OwnArgumentsOfItem(json, call, style);
    if style.place != Arguments {
      OtherArgumentsOfItem(json, call, style);
    }
  }

  /** What the three lookups of an item give. */
  predicate HasParts(item: Json, kind: string, id: Option<string>, name: string, arguments: Option<Json>) {
    && GetStr(item, "type") == Some(kind)
    && AsStr(OrElse(Get(item, "call_id"), Get(item, "id"))) == id
    && AsStr(OrElse(Get(item, "name"), AndGet(Get(item, "function"), "name"))) == Some(name)
    && arguments ==
        OrElse(Get(item, "arguments"), OrElse(AndGet(Get(item, "function"), "arguments"), Get(item, "args")))
  }

  predicate IsCallWith(json: Codec, parsed: Option<ToolCall>, id: Option<string>, name: string,
      arguments: Option<Json>) {
    && parsed.Some? && parsed.value.id == id && parsed.value.name == name
    && (arguments.Some? && arguments.value.Obj? ==> parsed.value.argsJson == json.render(arguments.value))
    && (arguments.Some? && arguments.value.Str? && json.parse(arguments.value.s).Some?
        && json.parse(arguments.value.s).value.Obj?
        ==> parsed.value.argsJson == json.render(json.parse(arguments.value.s).value))
    && (arguments.None? || IsNoObject(json, arguments.value) ==> parsed.value.argsJson == "{}")
  }

  /** Neither an object nor the text of one. */
  predicate IsNoObject(json: Codec, value: Json) {
    !value.Obj? && (value.Str? ==> json.parse(value.s).None? || !json.parse(value.s).value.Obj?)
  }

  lemma {:induction false} CallOfParts(json: Codec, item: Json, kind: string, id: Option<string>, name: string,
      arguments: Option<Json>)
    requires HasParts(item, kind, id, name, arguments) && name != "" && kind in {"function_call", "tool_call"}
    ensures IsCallWith(json, ParseToolCall(json, item), id, name, arguments)
  {
  }

  lemma {:induction false} PartsOfItem(json: Codec, call: Call, style: Style)
    requires Fits(style, call)
    ensures HasParts(ItemOf(json, call, style), style.kind, call.id, call.name,
                     Some(ArgumentsValue(json, call, style)))
  {
    TypeOfItem(json, call, style);
    IdOfItem(json, call, style);
    NameOfItem(json, call, style);
    ArgumentsOfItem(json, call, style);
  }

  /** In whatever form a call is written, its id, its name and its arguments are read back. */
  lemma {:induction false} WrittenCallIsRead(json: Codec, call: Call, style: Style)
    requires Fits(style, call) && call.name != "" && IsReadBack(json, call.arguments)
    ensures ParseToolCall(json, ItemOf(json, call, style)) == Some(ToolCallOf(json, call))
  {
    PartsOfItem(json, call, style);
    CallOfParts(json, ItemOf(json, call, style), style.kind, call.id, call.name,
                Some(ArgumentsValue(json, call, style)));
  }

  // ---------------------------------------------------------------------------------------------
  // What is no call, and calls whose arguments are none.

  predicate IsCallKind(item: Json) {
    item.Obj? && "type" in item.fields && item.fields["type"] in {Str("function_call"), Str("tool_call")}
  }

  /** The item's own name counts if there is a field for it, and else that of its `function`. */
  predicate SaysName(item: Json, name: string) {
    && item.Obj?
    && if "name" in item.fields then item.fields["name"] == Str(name)
       else && "function" in item.fields && item.fields["function"].Obj?
            && "name" in item.fields["function"].fields && item.fields["function"].fields["name"] == Str(name)
  }

  ghost predicate IsNamed(item: Json) {
    exists name :: name != "" && SaysName(item, name)
  }

  /** An item is a call exactly when it is of one of the two kinds and has a name, and the call has that
      name. */
  lemma {:induction false} ItemIsCallIff(json: Codec, item: Json)
    ensures ParseToolCall(json, item).Some? <==> IsCallKind(item) && IsNamed(item)
    ensures ParseToolCall(json, item).Some? ==> SaysName(item, ParseToolCall(json, item).value.name)
  {
    var name := AsStr(OrElse(Get(item, "name"), AndGet(Get(item, "function"), "name")));
    if name.Some? {
      assert SaysName(item, name.value);
    }
  }

  /** Arguments that are missing, or neither an object nor the text of one, are none: the call goes out with
      an empty object. */
  lemma {:induction false} OtherArgumentsAreNone(json: Codec, call: Call, style: Style, value: Option<Json>)
    requires Fits(style, call) && call.name != "" && style.place == Args
    requires value.Some? ==> IsNoObject(json, value.value)
    ensures ParseToolCall(json, WithArgs(ItemOf(json, call, style), value)) == Some(ToolCall(call.id, call.name, "{}"))
  {
    var item := ItemOf(json, call, style);
    PartsOfItem(json, call, style);
    OwnArgumentsOfItem(json, call, style);
    OtherArgumentsOfItem(json, call, style);
    SameButArgs(item, value);
    CallOfParts(json, WithArgs(item, value), style.kind, call.id, call.name, value);
  }

  /** The item with this under "args", or with nothing there. */
  function WithArgs(item: Json, value: Option<Json>): Json
    requires item.Obj?
  {
    Obj(if value.Some? then item.fields["args" := value.value] else item.fields - {"args"})
  }

  lemma {:induction false} SameButArgs(item: Json, value: Option<Json>)
    requires item.Obj?
    ensures Get(WithArgs(item, value), "args") == value
    ensures forall key :: key != "args" ==> Get(WithArgs(item, value), key) == Get(item, key)
    ensures "type" != "args" && "name" != "args"
  {
    NamesDiffer();
  }

  // ---------------------------------------------------------------------------------------------
  // Calls anywhere in a response.

  /** A response: calls, and groups with three lists of further entries. */
  datatype Tree =
    | Leaf(call: Call, style: Style)
    | Group(others: map<string, Json>, output: seq<Tree>, content: seq<Tree>, calls: seq<Tree>)

  const LISTS: set<string> := {"output", "content", "tool_calls"}

  function TreeJson(json: Codec, tree: Tree): Json {
    match tree
    case Leaf(call, style) => ItemOf(json, call, style)
    case Group(others, output, content, calls) =>
      Obj(others + map["output" := Arr(TreesJson(json, output))] + map["content" := Arr(TreesJson(json, content))]
          + map["tool_calls" := Arr(TreesJson(json, calls))])
  }

  function TreesJson(json: Codec, trees: seq<Tree>): seq<Json> {
    if trees == [] then [] else [TreeJson(json, trees[0])] + TreesJson(json, trees[1..])
  }

  /** The calls of a tree, the nested ones included: those under "output", then "content", then
      "tool_calls". */
  function CallsIn(json: Codec, tree: Tree): seq<ToolCall> {
    match tree
    case Leaf(call, _) => [ToolCallOf(json, call)]
    case Group(_, output, content, calls) =>
      CallsInAll(json, output) + CallsInAll(json, content) + CallsInAll(json, calls)
  }

  function CallsInAll(json: Codec, trees: seq<Tree>): seq<ToolCall> {
    if trees == [] then [] else CallsIn(json, trees[0]) + CallsInAll(json, trees[1..])
  }

  predicate IsRightTree(json: Codec, tree: Tree) {
    match tree
    case Leaf(call, style) =>
      && Fits(style, call) && call.name != "" && IsReadBack(json, call.arguments)
      && style.others.Keys !! LISTS
    case Group(others, output, content, calls) =>
      && ("type" in others ==> others["type"] !in {Str("function_call"), Str("tool_call")})
      && AreRightTrees(json, output) && AreRightTrees(json, content) && AreRightTrees(json, calls)
  }

  predicate AreRightTrees(json: Codec, trees: seq<Tree>) {
    trees != [] ==> IsRightTree(json, trees[0]) && AreRightTrees(json, trees[1..])
  }

  lemma {:induction false} LeafHasNoLists(json: Codec, call: Call, style: Style)
    requires style.others.Keys !! LISTS
    ensures forall key <- LISTS :: GetItems(ItemOf(json, call, style), key) == []
  {
    forall key <- LISTS
      ensures Get(ItemOf(json, call, style), key).None?
    {
      FieldOfItem(json, call, style, key);
      ListKeysAreOther(key);
    }
  }

  lemma {:induction false} ListKeysAreOther(key: string)
    requires key in LISTS
    ensures key !in {"type", "id", "call_id", "name", "function", "arguments", "args"}
  {
    assert "content"[2] != "call_id"[2];
  }

  lemma {:induction false} ListsOfGroup(json: Codec, tree: Tree)
    requires tree.Group?
    ensures GetItems(TreeJson(json, tree), "output") == TreesJson(json, tree.output)
    ensures GetItems(TreeJson(json, tree), "content") == TreesJson(json, tree.content)
    ensures GetItems(TreeJson(json, tree), "tool_calls") == TreesJson(json, tree.calls)
  {
    var output: map<string, Json> := map["output" := Arr(TreesJson(json, tree.output))];
    var content: map<string, Json> := map["content" := Arr(TreesJson(json, tree.content))];
    var calls: map<string, Json> := map["tool_calls" := Arr(TreesJson(json, tree.calls))];
    forall key
      ensures Get(TreeJson(json, tree), key)
           == if key in calls then Some(calls[key]) else if key in content then Some(content[key])
              else if key in output then Some(output[key]) else Get(Obj(tree.others), key)
    {
      FieldOfSum(tree.others + output + content, calls, key);
      FieldOfSum(tree.others + output, content, key);
      FieldOfSum(tree.others, output, key);
    }
  }

  lemma {:induction false} GroupIsNoCall(json: Codec, tree: Tree)
    requires tree.Group? && IsRightTree(json, tree)
    ensures ParseToolCall(json, TreeJson(json, tree)).None?
  {
    var group := TreeJson(json, tree);
    assert "type" in group.fields ==> "type" in tree.others && group.fields["type"] == tree.others["type"];
    ItemIsCallIff(json, group);
  }

  /** However deep they are: exactly the calls of a response are collected, in order, with their
      arguments. */
  lemma {:induction false} WrittenCallsAreCollected(json: Codec, tree: Tree)
    requires IsRightTree(json, tree)
    ensures CollectToolCalls(json, TreeJson(json, tree)) == CallsIn(json, tree)
    decreases tree
  {
    match tree
    case Leaf(call, style) =>
      LeafIsCollected(json, call, style);
    case Group(_, output, content, calls) =>
      var node := TreeJson(json, tree);
      ListsOfGroup(json, tree);
      WrittenListIsCollected(json, node, output);
      WrittenListIsCollected(json, node, content);
      WrittenListIsCollected(json, node, calls);
      GroupIsNoCall(json, tree);
      GroupIsCollected(json, node, CallsInAll(json, output), CallsInAll(json, content), CallsInAll(json, calls));
  }

  lemma {:induction false} GroupIsCollected(json: Codec, node: Json, a: seq<ToolCall>, b: seq<ToolCall>,
      c: seq<ToolCall>)
    requires ParseToolCall(json, node).None?
    requires CollectFromItems(json, node, GetItems(node, "output")) == a
    requires CollectFromItems(json, node, GetItems(node, "content")) == b
    requires CollectFromItems(json, node, GetItems(node, "tool_calls")) == c
    ensures CollectToolCalls(json, node) == a + b + c
  {
    assert [] + a == a;
  }

  lemma {:induction false} LeafIsCollected(json: Codec, call: Call, style: Style)
    requires IsRightTree(json, Leaf(call, style))
    ensures CollectToolCalls(json, ItemOf(json, call, style)) == [ToolCallOf(json, call)]
  {
    WrittenCallIsRead(json, call, style);
    LeafHasNoLists(json, call, style);
    var node := ItemOf(json, call, style);
    assert GetItems(node, "output") == GetItems(node, "content") == GetItems(node, "tool_calls") == [];
  }

  lemma {:induction false} WrittenListIsCollected(json: Codec, node: Json, trees: seq<Tree>)
    requires AreRightTrees(json, trees)
    requires forall i :: 0 <= i < |TreesJson(json, trees)| ==> TreesJson(json, trees)[i] < node
    ensures CollectFromItems(json, node, TreesJson(json, trees)) == CallsInAll(json, trees)
    decreases trees
  {
    if trees != [] {
      var items := TreesJson(json, trees);
      assert items[1..] == TreesJson(json, trees[1..]);
      assert forall i :: 0 <= i < |items[1..]| ==> items[1..][i] == items[i + 1];
      WrittenCallsAreCollected(json, trees[0]);
      WrittenListIsCollected(json, node, trees[1..]);
    }
  }
}
