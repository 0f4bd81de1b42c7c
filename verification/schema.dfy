/**
 * The response schema of `fanout_generator.py` (`categories_schema`) and
 * what it asks of a document.
 */
module ResponseSchema {
  import opened Wrappers
  import opened Json
  import opened Taxonomy

  /** The subset of JSON Schema that `categories_schema` uses. */
  datatype Schema =
    | StringSchema
    | ArraySchema(items: Schema)
    | ObjectSchema(properties: seq<(string, Schema)>, required: seq<string>, additionalProperties: bool)

  /** What the schema asks of a document: the right kind of value; for an
      object, every required member present, every member that has a
      property schema conforming to it, and no other member when additional
      properties are forbidden. Members are looked up as in the dict that
      `json.loads` builds. */
  predicate Conforms(j: Json, s: Schema)
    decreases s
  {
    match s
    case StringSchema => j.JString?
    case ArraySchema(items) =>
      j.JArray? && forall i :: 0 <= i < |j.items| ==> Conforms(j.items[i], items)
    case ObjectSchema(properties, required, additionalProperties) =>
      && j.JObject?
      && (forall n :: n in required ==> Get(j.fields, n).Some?)
      && (forall k :: 0 <= k < |properties| && Get(j.fields, properties[k].0).Some? ==>
            Conforms(Get(j.fields, properties[k].0).value, properties[k].1))
      && (!additionalProperties ==> forall i :: 0 <= i < |j.fields| ==> j.fields[i].0 in Keys(properties))
  }

  /** A closed object schema: it lists a property for exactly the members it
      requires, in the same order, and allows no others. */
  predicate Closed(s: Schema) {
    s.ObjectSchema? && Keys(s.properties) == s.required && !s.additionalProperties
  }

  /** `arr()`: an array of strings. */
  const StringArraySchema: Schema := ArraySchema(StringSchema)

  /** The top-level members of a response. */
  const TopLevelFields: seq<string> := ["seed", "locale", "categories"]

  /** The schema of the `categories` object: a string-array property for
      each of the eight keys, all eight required, nothing else allowed. */
  function CategoryMapSchema(): (s: Schema)
    ensures Closed(s) && s.required == CanonicalKeys
    ensures forall k :: 0 <= k < |s.properties| ==> s.properties[k].1 == StringArraySchema
  {
    var properties := seq(|Categories|, i requires 0 <= i < |Categories| => (Key(Categories[i]), StringArraySchema));
    assert Keys(properties) == CanonicalKeys;
    ObjectSchema(properties, CanonicalKeys, false)
  }

  /** `categories_schema`: a closed object with string members `seed` and
      `locale` and the `categories` object. */
  function CategoriesSchema(): (s: Schema)
    ensures Closed(s) && s.required == TopLevelFields
    ensures Get(s.properties, "seed") == Some(StringSchema)
    ensures Get(s.properties, "locale") == Some(StringSchema)
    ensures Get(s.properties, "categories") == Some(CategoryMapSchema())
  {
    var properties := [("seed", StringSchema), ("locale", StringSchema), ("categories", CategoryMapSchema())];
    assert Keys(properties) == TopLevelFields;
    ObjectSchema(properties, TopLevelFields, false)
  }

  /** A document shaped as a closed map from `names` to string arrays,
      stated without a schema: an object whose member names are all among
      `names` and which maps each of `names` to an array of strings. */
  predicate StringArrayMapShape(j: Json, names: seq<string>) {
    && j.JObject?
    && (forall i :: 0 <= i < |j.fields| ==> j.fields[i].0 in names)
    && (forall key :: key in names ==>
          Get(j.fields, key).Some? && Get(j.fields, key).value.JArray?
          && Strings(Get(j.fields, key).value.items).Some?)
  }

  /** The shape the `categories` object should have. */
  predicate CategoryMapShape(j: Json) {
    StringArrayMapShape(j, CanonicalKeys)
  }

  /** An array of strings conforms to `arr()`, and nothing else does. */
  lemma StringArrayConforms(j: Json)
    ensures Conforms(j, StringArraySchema) <==> j.JArray? && Strings(j.items).Some?
  {
  }

  /** A closed schema whose every property is `arr()` accepts exactly the
      documents of the matching shape. */
  lemma StringArrayMapMeaning(j: Json, s: Schema)
    requires Closed(s)
    requires forall k :: 0 <= k < |s.properties| ==> s.properties[k].1 == StringArraySchema
    ensures Conforms(j, s) <==> StringArrayMapShape(j, s.required)
  {
    if Conforms(j, s) {
      forall key | key in s.required
        ensures Get(j.fields, key).Some? && Get(j.fields, key).value.JArray?
                && Strings(Get(j.fields, key).value.items).Some?
      {
        var k :| 0 <= k < |s.required| && s.required[k] == key;
        assert s.properties[k].0 == key;
        StringArrayConforms(Get(j.fields, key).value);
      }
    }
    if StringArrayMapShape(j, s.required) {
      forall k | 0 <= k < |s.properties| && Get(j.fields, s.properties[k].0).Some?
        ensures Conforms(Get(j.fields, s.properties[k].0).value, s.properties[k].1)
      {
        assert s.properties[k].0 == s.required[k];
        StringArrayConforms(Get(j.fields, s.properties[k].0).value);
      }
    }
  }

  /** The `categories` schema accepts exactly the documents of that shape. */
  lemma CategoryMapSchemaMeaning(j: Json)
    ensures Conforms(j, CategoryMapSchema()) <==> CategoryMapShape(j)
  {
    StringArrayMapMeaning(j, CategoryMapSchema());
  }

  /** A document that conforms to `categories_schema` has a `categories`
      member, and that member conforms to the `categories` schema. */
  lemma ConformingResponseCategories(j: Json)
    requires Conforms(j, CategoriesSchema())
    ensures j.JObject? && Get(j.fields, "categories").Some?
    ensures CategoryMapShape(Get(j.fields, "categories").value)
  {
    var s := CategoriesSchema();
    assert "categories" in s.required;
    GetMeaning(s.properties, "categories");
    var k :| 0 <= k < |s.properties| && s.properties[k] == ("categories", CategoryMapSchema());
    CategoryMapSchemaMeaning(Get(j.fields, "categories").value);
  }
}
