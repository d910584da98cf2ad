/** Tidying the JSON schema of a tool before it is sent to a provider. */
module SchemaNormalizer {
  import opened Options
  import opened JsonValues

  /** What a field of a schema object means to the normalizer. */
  datatype Keyword = Properties | Required | Items | AdditionalProperties | Alternatives | Other

  function KeywordOf(key: string): Keyword {
    if key == "properties" then Properties
    else if key == "required" then Required
    else if key == "items" then Items
    else if key == "additionalProperties" then AdditionalProperties
    else if key in {"anyOf", "oneOf", "allOf"} then Alternatives
    else Other
  }

  function DefaultToolSchema(): Json {
    Obj(map["type" := Str("object"), "properties" := Obj(map[])])
  }

  /** `items.retain(|item| item.is_string())` */
  function Strings(items: seq<Json>): seq<Json> {
    if items == [] then []
    else (if items[0].Str? then [items[0]] else []) + Strings(items[1..])
  }

  function NormalizeNode(schema: Json): Json
    decreases schema, 0
  {
    if !schema.Obj? then DefaultToolSchema()
    else Obj(map key | key in schema.fields :: NormalizeField(KeywordOf(key), schema.fields[key]))
  }

  function NormalizeField(keyword: Keyword, value: Json): Json
    decreases value, 1
  {
    match keyword
    case Properties => Obj(if value.Obj? then map name | name in value.fields :: NormalizeNode(value.fields[name])
        else map[])
    case Required => Arr(if value.Arr? then Strings(value.items) else [])
    case Items => NormalizeNode(value)
    case AdditionalProperties => if value.Obj? then NormalizeNode(value) else value
    case Alternatives =>
      Arr(if value.Arr?
          then seq(|value.items|, i requires 0 <= i < |value.items| =>
            if value.items[i].Obj? then NormalizeNode(value.items[i]) else value.items[i])
          else [])
    case Other => value
  }

  function NormalizeTool(schema: Json): Json {
    if !schema.Obj? then DefaultToolSchema() else NormalizeNode(AsObjectSchema(schema))
  }

  function AsObjectSchema(schema: Json): Json
    requires schema.Obj?
  {
    var fields := if GetStr(schema, "type") != Some("object") then schema.fields["type" := Str("object")]
        else schema.fields;
    Obj(if "properties" !in fields || !fields["properties"].Obj? then fields["properties" := Obj(map[])] else fields)
  }

  // ---------------------------------------------------------------------------------------------
  // The places of a schema that hold a schema again.

  datatype Step = Property(name: string) | Item | Additional | Branch(key: string, index: nat)

  function Child(schema: Json, step: Step): (child: Option<Json>)
    ensures child.Some? ==> child.value < schema
  {
    match step
    case Property(name) =>
      var properties := Get(schema, "properties");
      if properties.Some? then Get(properties.value, name) else None
    case Item => Get(schema, "items")
    case Additional => WhenObject(Get(schema, "additionalProperties"))
    case Branch(key, index) =>
      if KeywordOf(key) != Alternatives then None
      else var entries := GetItems(schema, key);
           if index < |entries| then WhenObject(Some(entries[index])) else None
  }

  function WhenObject(value: Option<Json>): Option<Json> {
    if value.Some? && value.value.Obj? then value else None
  }

  function At(schema: Json, path: seq<Step>): (node: Option<Json>) {
    if path == [] then Some(schema)
    else
      match Child(schema, path[0])
      case None => None
      case Some(child) => At(child, path[1..])
  }

  /** What a provider may rely on at one node. */
  predicate IsTidy(node: Json) {
    node.Obj? && forall key :: key in node.fields ==> IsTidyField(KeywordOf(key), node.fields[key])
  }

  predicate IsTidyField(keyword: Keyword, value: Json) {
    match keyword
    case Properties => value.Obj?
    case Required => value.Arr? && AllStrings(value.items)
    case Alternatives => value.Arr?
    case _ => true
  }

  ghost predicate IsTidyEverywhere(schema: Json) {
    forall path :: IsTidyAt(schema, path)
  }

  predicate IsTidyAt(schema: Json, path: seq<Step>) {
    var node := At(schema, path);
    node.Some? ==> IsTidy(node.value)
  }

  function Normalized(node: Option<Json>): Option<Json> {
    if node.Some? then Some(NormalizeNode(node.value)) else None
  }

  // ---------------------------------------------------------------------------------------------
  // Nothing is added, dropped or moved; each node is rewritten in its place.

  predicate AllStrings(items: seq<Json>) {
    forall i :: 0 <= i < |items| ==> items[i].Str?
  }

  /** What `retain` keeps: the strings, each as often as before, and everything when all are. */
  lemma {:induction false} StringsAreKept(items: seq<Json>, x: Json)
    ensures AllStrings(Strings(items))
    ensures multiset(Strings(items))[x] == if x.Str? then multiset(items)[x] else 0
    ensures Strings(items) == items <==> AllStrings(items)
  {
    StringsAreStrings(items);
    StringsAreAsOften(items, x);
    StringsOfStrings(items);
  }

  lemma {:induction false} StringsAreStrings(items: seq<Json>)
    ensures AllStrings(Strings(items))
  {
    if items != [] {
      StringsAreStrings(items[1..]);
    }
  }

  lemma {:induction false} StringsAreAsOften(items: seq<Json>, x: Json)
    ensures multiset(Strings(items))[x] == if x.Str? then multiset(items)[x] else 0
  {
    if items != [] {
      StringsAreAsOften(items[1..], x);
      assert items == [items[0]] + items[1..];
    }
  }

  lemma {:induction false} StringsOfStrings(items: seq<Json>)
    ensures AllStrings(items) ==> Strings(items) == items
  {
    if items != [] && AllStrings(items) {
      assert items[0].Str?;
      assert forall i :: 0 <= i < |items[1..]| ==> items[1..][i] == items[i + 1];
      StringsOfStrings(items[1..]);
    }
  }

  /** The strings keep their order. */
  lemma {:induction false} StringsOfConcat(a: seq<Json>, b: seq<Json>)
    ensures Strings(a + b) == Strings(a) + Strings(b)
  {
    if a == [] {
      assert a + b == b;
    } else {
      StringsOfConcat(a[1..], b);
      assert (a + b)[1..] == a[1..] + b;
    }
  }

  lemma {:induction false} ChildOfNormalized(schema: Json, step: Step)
    ensures Child(NormalizeNode(schema), step) == Normalized(Child(schema, step))
  {
    if schema.Obj? {
      match step
      case Property(name) => FieldOfNormalized(schema, "properties");
      case Item => FieldOfNormalized(schema, "items");
      case Additional => FieldOfNormalized(schema, "additionalProperties");
      case Branch(key, index) => BranchOfNormalized(schema, key, index);
    }
  }

  lemma {:induction false} BranchOfNormalized(schema: Json, key: string, index: nat)
    requires schema.Obj?
    ensures Child(NormalizeNode(schema), Branch(key, index)) == Normalized(Child(schema, Branch(key, index)))
  {
    if KeywordOf(key) == Alternatives {
      EntriesOfNormalized(schema, key);
    }
  }

  lemma {:induction false} EntriesOfNormalized(schema: Json, key: string)
    requires schema.Obj? && KeywordOf(key) == Alternatives
    ensures var before, after := GetItems(schema, key), GetItems(NormalizeNode(schema), key);
            && |after| == |before|
            && forall i :: 0 <= i < |before| ==>
                after[i] == if before[i].Obj? then NormalizeNode(before[i]) else before[i]
  {
    FieldOfNormalized(schema, key);
  }

  lemma {:induction false} FieldOfNormalized(schema: Json, key: string)
    requires schema.Obj?
    ensures NormalizeNode(schema).Obj? && NormalizeNode(schema).fields.Keys == schema.fields.Keys
    ensures Get(NormalizeNode(schema), key)
         == match Get(schema, key) case Some(value) => Some(NormalizeField(KeywordOf(key), value)) case None => None
  {
  }

  /** The schemas inside the normalized schema are the schemas inside the given one, at the same
      places, each of them normalized. */
  lemma {:induction false} NormalizedAtEveryPlace(schema: Json, path: seq<Step>)
    ensures At(NormalizeNode(schema), path) == Normalized(At(schema, path))
  {
    if path != [] {
      ChildOfNormalized(schema, path[0]);
      var child := Child(schema, path[0]);
      if child.Some? {
        NormalizedAtEveryPlace(child.value, path[1..]);
      }
    }
  }

  lemma {:induction false} NormalizedFieldIsTidy(keyword: Keyword, value: Json)
    ensures IsTidyField(keyword, NormalizeField(keyword, value))
  {
    if keyword == Required && value.Arr? {
      StringsAreStrings(value.items);
    }
  }

  lemma {:induction false} NormalizedIsTidy(schema: Json)
    ensures IsTidy(NormalizeNode(schema))
  {
    var node := NormalizeNode(schema);
    if schema.Obj? {
      forall key | key in node.fields
        ensures IsTidyField(KeywordOf(key), node.fields[key])
      {
        NormalizedFieldIsTidy(KeywordOf(key), schema.fields[key]);
      }
    }
  }

  lemma {:induction false} NormalizedIsTidyEverywhere(schema: Json)
    ensures IsTidyEverywhere(NormalizeNode(schema))
  {
    forall path
      ensures IsTidyAt(NormalizeNode(schema), path)
    {
      NormalizedAtEveryPlace(schema, path);
      if At(schema, path).Some? {
        NormalizedIsTidy(At(schema, path).value);
      }
    }
  }

  /** Fields that are no keywords stay as they are at every place. */
  lemma {:induction false} OtherFieldsStay(schema: Json, path: seq<Step>, key: string)
    requires At(schema, path).Some? && At(schema, path).value.Obj? && KeywordOf(key) == Other
    ensures At(NormalizeNode(schema), path).Some?
    ensures Get(At(NormalizeNode(schema), path).value, key) == Get(At(schema, path).value, key)
  {
    NormalizedAtEveryPlace(schema, path);
    FieldOfNormalized(At(schema, path).value, key);
  }

  /** The alternatives at a node keep their number and places, and those that are no objects their value. */
  lemma {:induction false} AlternativesStay(schema: Json, path: seq<Step>, key: string, i: nat)
    requires At(schema, path).Some? && KeywordOf(key) == Alternatives
    requires i < |GetItems(At(schema, path).value, key)|
    ensures At(NormalizeNode(schema), path).Some?
    ensures var before, after := GetItems(At(schema, path).value, key),
        GetItems(At(NormalizeNode(schema), path).value, key);
            |after| == |before| && after[i] == if before[i].Obj? then NormalizeNode(before[i]) else before[i]
  {
    NormalizedAtEveryPlace(schema, path);
    FieldOfNormalized(At(schema, path).value, key);
  }

  // ---------------------------------------------------------------------------------------------
  // A schema is left alone exactly when it is tidy everywhere.

  lemma {:induction false} ChildIsTidyEverywhere(schema: Json, step: Step)
    requires IsTidyEverywhere(schema) && Child(schema, step).Some?
    ensures IsTidyEverywhere(Child(schema, step).value)
  {
    var child := Child(schema, step).value;
    forall path
      ensures IsTidyAt(child, path)
    {
      assert ([step] + path)[1..] == path;
      assert IsTidyAt(schema, [step] + path);
    }
  }

  lemma {:induction false} TidyIsUnchanged(schema: Json)
    requires IsTidyEverywhere(schema)
    ensures NormalizeNode(schema) == schema
    decreases schema
  {
    assert IsTidyAt(schema, []);
    forall key | key in schema.fields
      ensures NormalizeField(KeywordOf(key), schema.fields[key]) == schema.fields[key]
    {
      TidyFieldIsUnchanged(schema, key);
    }
  }

  lemma {:induction false} TidyChildIsUnchanged(schema: Json, step: Step)
    requires IsTidyEverywhere(schema) && Child(schema, step).Some?
    ensures NormalizeNode(Child(schema, step).value) == Child(schema, step).value
    decreases schema, 0
  {
    ChildIsTidyEverywhere(schema, step);
    TidyIsUnchanged(Child(schema, step).value);
  }

  lemma {:induction false} TidyFieldIsUnchanged(schema: Json, key: string)
    requires IsTidyEverywhere(schema) && IsTidy(schema) && key in schema.fields
    ensures NormalizeField(KeywordOf(key), schema.fields[key]) == schema.fields[key]
    decreases schema, 1
  {
    var value := schema.fields[key];
    assert IsTidyField(KeywordOf(key), value);
    match KeywordOf(key)
    case Properties =>
      forall name | name in value.fields
        ensures NormalizeNode(value.fields[name]) == value.fields[name]
      {
        TidyChildIsUnchanged(schema, Property(name));
      }
    case Required => StringsOfStrings(value.items);
    case Items => TidyChildIsUnchanged(schema, Item);
    case AdditionalProperties =>
      if value.Obj? {
        TidyChildIsUnchanged(schema, Additional);
      }
    case Alternatives =>
      forall i | 0 <= i < |value.items| && value.items[i].Obj?
        ensures NormalizeNode(value.items[i]) == value.items[i]
      {
        TidyChildIsUnchanged(schema, Branch(key, i));
      }
    case Other =>
  }

  lemma {:induction false} UnchangedIff(schema: Json)
    ensures NormalizeNode(schema) == schema <==> IsTidyEverywhere(schema)
  {
    if NormalizeNode(schema) == schema {
      NormalizedIsTidyEverywhere(schema);
    }
    if IsTidyEverywhere(schema) {
      TidyIsUnchanged(schema);
    }
  }

  lemma {:induction false} NormalizeIsIdempotent(schema: Json)
    ensures NormalizeNode(NormalizeNode(schema)) == NormalizeNode(schema)
  {
    NormalizedIsTidyEverywhere(schema);
    UnchangedIff(NormalizeNode(schema));
  }

  // ---------------------------------------------------------------------------------------------
  // Tool schemas.

  ghost predicate IsToolSchema(schema: Json) {
    && IsTidyEverywhere(schema) && schema.Obj?
    && Get(schema, "type") == Some(Str("object"))
    && "properties" in schema.fields && schema.fields["properties"].Obj?
  }

  lemma {:induction false} DefaultIsToolSchema()
    ensures IsToolSchema(DefaultToolSchema())
  {
    NormalizedIsTidyEverywhere(Null);
  }

  /** Every tool schema that is sent is an object schema and tidy everywhere, and exactly the schemas
      that are so already are sent as they are. */
  lemma {:induction false} ToolSchemaIsNormalized(schema: Json)
    ensures IsToolSchema(NormalizeTool(schema))
    ensures NormalizeTool(schema) == schema <==> IsToolSchema(schema)
    ensures NormalizeTool(NormalizeTool(schema)) == NormalizeTool(schema)
  {
    ToolSchemaIsSent(schema);
    if IsToolSchema(schema) {
      ToolSchemaIsLeftAlone(schema);
    }
    ToolSchemaIsLeftAlone(NormalizeTool(schema));
  }

  lemma {:induction false} ToolSchemaIsSent(schema: Json)
    ensures IsToolSchema(NormalizeTool(schema))
  {
    DefaultIsToolSchema();
    if schema.Obj? {
      var asObject := AsObjectSchema(schema);
      NormalizedIsTidyEverywhere(asObject);
      FieldOfNormalized(asObject, "type");
      FieldOfNormalized(asObject, "properties");
    }
  }

  lemma {:induction false} ToolSchemaIsLeftAlone(schema: Json)
    requires IsToolSchema(schema)
    ensures NormalizeTool(schema) == schema
  {
    assert AsObjectSchema(schema) == schema;
    TidyIsUnchanged(schema);
  }

  /** Below the top of a tool schema every schema is the given one normalized, and at the top every
      field but `type` and `properties` is. */
  lemma {:induction false} ToolSchemaKeepsItsParts(schema: Json, path: seq<Step>, key: string)
    requires path != [] && key != "type" && key != "properties"
    ensures At(NormalizeTool(schema), path) == Normalized(At(schema, path))
    ensures schema.Obj? ==> Get(NormalizeTool(schema), key) == Get(NormalizeNode(schema), key)
  {
    if schema.Obj? {
      var asObject := AsObjectSchema(schema);
      NormalizedAtEveryPlace(asObject, path);
      SameChild(schema, path[0]);
      OtherTopFieldsStay(schema, key);
    } else {
      assert Child(schema, path[0]).None? && Child(DefaultToolSchema(), path[0]).None?;
    }
  }

  lemma {:induction false} OtherTopFieldsStay(schema: Json, key: string)
    requires schema.Obj? && key != "type" && key != "properties"
    ensures Get(NormalizeTool(schema), key) == Get(NormalizeNode(schema), key)
  {
    FieldOfNormalized(AsObjectSchema(schema), key);
    FieldOfNormalized(schema, key);
  }

  lemma {:induction false} SameChild(schema: Json, step: Step)
    requires schema.Obj?
    ensures Child(AsObjectSchema(schema), step) == Child(schema, step)
  {
  }
}
