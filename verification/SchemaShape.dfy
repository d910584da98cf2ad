/** What a normalized schema looks like, told by the names of its fields. */
module SchemaShape {
  import opened Options
  import opened JsonValues
  import opened SchemaNormalizer

  /** An object in which "properties" holds clean schemas by name, "required" strings only, "items" a clean
      schema, "additionalProperties" a clean schema if it is an object, and "anyOf", "oneOf" and "allOf" lists
      whose objects are clean schemas. Nothing is asked of any other field. */
  predicate IsClean(schema: Json) {
    && schema.Obj?
    && ("properties" in schema.fields ==> IsCleanTable(schema.fields["properties"]))
    && ("required" in schema.fields ==> IsStringList(schema.fields["required"]))
    && ("items" in schema.fields ==> IsClean(schema.fields["items"]))
    && ("additionalProperties" in schema.fields && schema.fields["additionalProperties"].Obj? ==>
          IsClean(schema.fields["additionalProperties"]))
    && ("anyOf" in schema.fields ==> IsCleanList(schema.fields["anyOf"]))
    && ("oneOf" in schema.fields ==> IsCleanList(schema.fields["oneOf"]))
    && ("allOf" in schema.fields ==> IsCleanList(schema.fields["allOf"]))
  }

  predicate IsCleanTable(table: Json) {
    table.Obj? && forall name <- table.fields :: IsClean(table.fields[name])
  }

  predicate IsStringList(list: Json) {
    list.Arr? && forall i :: 0 <= i < |list.items| ==> list.items[i].Str?
  }

  predicate IsCleanList(list: Json) {
    list.Arr? && forall i :: 0 <= i < |list.items| && list.items[i].Obj? ==> IsClean(list.items[i])
  }

  /** What the field of this name has to be. */
  predicate IsCleanField(key: string, value: Json) {
    && (key == "properties" ==> IsCleanTable(value)) && (key == "required" ==> IsStringList(value))
    && (key == "items" ==> IsClean(value)) && (key == "additionalProperties" && value.Obj? ==> IsClean(value))
    && (key == "anyOf" || key == "oneOf" || key == "allOf" ==> IsCleanList(value))
  }

  lemma {:induction false} CleanIffFieldsAre(schema: Json)
    requires schema.Obj?
    ensures IsClean(schema) <==> forall key <- schema.fields :: IsCleanField(key, schema.fields[key])
  {
    if forall key <- schema.fields :: IsCleanField(key, schema.fields[key]) {
      var keys := {"properties", "required", "items", "additionalProperties", "anyOf", "oneOf", "allOf"};
      assert forall key <- keys :: key in schema.fields ==> IsCleanField(key, schema.fields[key]);
    }
  }

  lemma {:induction false} EmptyObjectSchemaIsClean()
    ensures IsClean(Obj(map["type" := Str("object"), "properties" := Obj(map[])]))
    ensures DefaultToolSchema() == Obj(map["type" := Str("object"), "properties" := Obj(map[])])
  {
  }

  /** Whatever a schema is, its normalized form is clean. */
  lemma {:induction false} NormalizedIsClean(schema: Json)
    ensures IsClean(NormalizeNode(schema))
    decreases schema, 1
  {
    if schema.Obj? {
      var node := NormalizeNode(schema);
      forall key <- node.fields
        ensures IsCleanField(key, node.fields[key])
      {
        NormalizedFieldIsClean(key, schema.fields[key]);
      }
      CleanIffFieldsAre(node);
    } else {
      EmptyObjectSchemaIsClean();
    }
  }

  lemma {:induction false} NormalizedFieldIsClean(key: string, value: Json)
    ensures IsCleanField(key, NormalizeField(KeywordOf(key), value))
    decreases value, 2
  {
    match KeywordOf(key)
    case Properties =>
      if value.Obj? {
        forall name <- value.fields
          ensures IsClean(NormalizeNode(value.fields[name]))
        {
          NormalizedIsClean(value.fields[name]);
        }
      }
    case Required =>
      if value.Arr? {
        StringsAreStrings(value.items);
      }
    case Items => NormalizedIsClean(value);
    case AdditionalProperties =>
      if value.Obj? {
        NormalizedIsClean(value);
      }
    case Alternatives =>
      if value.Arr? {
        forall i | 0 <= i < |value.items| && value.items[i].Obj?
          ensures IsClean(NormalizeNode(value.items[i]))
        {
          NormalizedIsClean(value.items[i]);
        }
      }
    case Other =>
  }

  lemma {:induction false} CleanIsUnchanged(schema: Json)
    requires IsClean(schema)
    ensures NormalizeNode(schema) == schema
    decreases schema, 1
  {
    CleanIffFieldsAre(schema);
    forall key <- schema.fields
      ensures NormalizeField(KeywordOf(key), schema.fields[key]) == schema.fields[key]
    {
      CleanFieldIsUnchanged(key, schema.fields[key]);
    }
    assert NormalizeNode(schema).fields == schema.fields;
  }

  lemma {:induction false} CleanFieldIsUnchanged(key: string, value: Json)
    requires IsCleanField(key, value)
    ensures NormalizeField(KeywordOf(key), value) == value
    decreases value, 2
  {
    match KeywordOf(key)
    case Properties =>
      forall name <- value.fields
        ensures NormalizeNode(value.fields[name]) == value.fields[name]
      {
        CleanIsUnchanged(value.fields[name]);
      }
    case Required => StringsOfStrings(value.items);
    case Items => CleanIsUnchanged(value);
    case AdditionalProperties =>
      if value.Obj? {
        CleanIsUnchanged(value);
      }
    case Alternatives =>
      forall i | 0 <= i < |value.items| && value.items[i].Obj?
        ensures NormalizeNode(value.items[i]) == value.items[i]
      {
        CleanIsUnchanged(value.items[i]);
      }
    case Other =>
  }

  /** Exactly the clean schemas are left as they are; a value that is no object becomes the schema of an
      object without properties. */
  lemma {:induction false} UnchangedIffClean(schema: Json)
    ensures NormalizeNode(schema) == schema <==> IsClean(schema)
    ensures !schema.Obj? ==>
              NormalizeNode(schema) == Obj(map["type" := Str("object"), "properties" := Obj(map[])])
  {
    NormalizedIsClean(schema);
    if IsClean(schema) {
      CleanIsUnchanged(schema);
    }
  }

  /** The schema that is sent for a tool is clean and that of an object; exactly such schemas are sent as they
      are. */
  lemma {:induction false} SentSchemaIsClean(schema: Json)
    ensures var sent := NormalizeTool(schema);
            && IsClean(sent) && Get(sent, "type") == Some(Str("object")) && "properties" in sent.fields
            && (sent == schema <==>
                  IsClean(schema) && Get(schema, "type") == Some(Str("object")) && "properties" in schema.fields)
  {
    ToolSchemaIsNormalized(schema);
    UnchangedIff(NormalizeTool(schema));
    UnchangedIffClean(NormalizeTool(schema));
    if schema.Obj? {
      UnchangedIff(schema);
      UnchangedIffClean(schema);
    }
  }
}
