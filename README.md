# Nancy.Serialization.JsonApi: the JSON:API serializer, modelled in Dafny

Nancy.Serialization.JsonApi is a serializer plug-in for the Nancy web framework. It writes a
model object as a JSON:API 1.0 document:

```
{"data": {"type": ..., "id": ..., "attributes": {...}, "relationships": {...}}}
```

This project models the core of that serializer and proves its properties.

- **Content-type test.** `CanSerialize` accepts exactly the content types whose part before the
  first `;` is `application/vnd.api+json`, in any case (`Helpers.IsJsonType`).
- **Id convention.** A type's id property is its first declared property named `Id` or
  `<SimpleName>Id`, where SimpleName is the last `.`-segment of the type's full name.
- **Property split.** `Serialize<TModel>` reads the id property from the model's runtime type.
  It then splits the properties of the static type `TModel`:
  - non-id properties of "attribute" type become `attributes`, holding their raw values under
    kebab-cased names;
  - the properties whose kebab name is not an attribute key, apart from the id property, become
    `relationships`.
- **Relationship values.** Each relationship is rendered as `{"data": {type, id}}`, or as
  `{"data": [{type, id}, ...]}` for a property whose type implements `IEnumerable<T>`.

Reflection is replaced by explicit data (`Reflection.TypeDesc`, `Prop`, `PropertyInfo`, `Value`).
The .NET exceptions the model covers (see Left out for those it does not) become the
`Reflection.Fault` datatype. Every operation
returns a `Result`, and the first fault ends the call, as the exception would. The output is a
JSON tree (`Document.Json`), the value handed to the Newtonsoft codec. `Document.ReadDocument`
reads the tree back into a `ResourceObject`, and the two are proved inverse in both directions.

Files:

- `wrappers.dfy`: `Option` and `Result`.
- `reflection.dfy`: type and value descriptors, `GetValue`, `ToString`, faults.
- `helpers.dfy`: `Helpers.cs`.
- `linq.dfy`: the LINQ operators the pipelines use, evaluated eagerly.
- `document.dfy`: the document tree, its writer and its reader.
- `serializer.dfy`: `JsonApiSerializer.cs`.
- `fixture.dfy`: the repository's serializer test scenario, proved end to end.

Behaviours of the code that the model keeps as written:

- A null attribute is kept under its key: line 81 stores the raw value, and the test
  (JsonApiSerializerFixture.cs:70) expects `"null-value":null`.
- The type name is `ToKebabCase(Pluralize(Name))`: the name is pluralised first and
  kebab-cased after (lines 98, 109, 124).
- A single relationship is identified through the declared property type, not the value's
  runtime type (lines 104-105).

## Model

| member | source | states |
|---|---|---|
| Helpers.IsJsonType | src/Nancy.Serialization.JsonApi/Helpers.cs:18-28 | the content-type test; characterised in both directions by `IsJsonTypeIff`, with `NullOrEmptyIsNotJson` and `ParametersIgnored` for its edge cases |
| Helpers.FirstSegment | src/Nancy.Serialization.JsonApi/Helpers.cs:25 | `Split(';')[0]` is the longest prefix without the separator, followed by the separator or the end of the string |
| Helpers.FirstSegmentUnique | src/Nancy.Serialization.JsonApi/Helpers.cs:25 | any prefix that holds no separator and ends at one (or at the end) is the first segment |
| Helpers.IsJsonTypeIff | src/Nancy.Serialization.JsonApi/Helpers.cs:18-28 | IsJsonType holds iff the content type starts with the 24 characters of `application/vnd.api+json`, ASCII case-folded, followed by nothing or by `;` |
| Helpers.NullOrEmptyIsNotJson | src/Nancy.Serialization.JsonApi/Helpers.cs:20-23 | a null or empty content type is refused |
| Helpers.ParametersIgnored | src/Nancy.Serialization.JsonApi/Helpers.cs:25-27 | appending `";" + parameters` to a `;`-free content type never changes the answer |
| Helpers.AcceptsMediaType | src/Nancy.Serialization.JsonApi/Helpers.cs:27 | the media type itself is accepted |
| Helpers.AcceptsUpperCase | src/Nancy.Serialization.JsonApi/Helpers.cs:14-27 | the comparison ignores case: the upper-case media type is accepted |
| Helpers.AcceptsCharsetParameter | src/Nancy.Serialization.JsonApi/Helpers.cs:25-27 | a `; charset=utf-8` parameter is ignored |
| Helpers.RefusedContentTypes | src/Nancy.Serialization.JsonApi/Helpers.cs:25-27 | `application/json` is refused, and so is the media type followed by a space: nothing is trimmed |
| Helpers.ToKebabCase | src/Nancy.Serialization.JsonApi/Helpers.cs:30-33 | humanize to lower case, then spaces become `-`; `KebabCaseHasNoSpace` proves the result holds no space and equals the humanized text elsewhere |
| Helpers.ReplaceChar | src/Nancy.Serialization.JsonApi/Helpers.cs:32 | `Replace(' ', '-')` keeps the length and changes exactly the spaces |
| Helpers.KebabCaseHasNoSpace | src/Nancy.Serialization.JsonApi/Helpers.cs:30-33 | a kebab-cased name holds no space and agrees with the humanized text everywhere except at its spaces |
| Helpers.LastSegmentIsLastPart | src/Nancy.Serialization.JsonApi/Helpers.cs:49 | `Split('.').Last()` is a suffix without `.` that is either all of the name or preceded by `.` |
| Helpers.LastSegmentUnique | src/Nancy.Serialization.JsonApi/Helpers.cs:49 | that suffix is the only one with this property |
| Helpers.FirstIdIndex | src/Nancy.Serialization.JsonApi/Helpers.cs:51 | `FirstOrDefault`: the index found has an id name and no earlier property does; none is found iff no property has an id name |
| Helpers.GetIdPropertyByConvention | src/Nancy.Serialization.JsonApi/Helpers.cs:47-52 | the result is absent iff no property is named `Id` or `<SimpleName>Id`; otherwise it is the first such property in declared order, obtained through the type itself |
| Helpers.GetIdPropertyOfValue | src/Nancy.Serialization.JsonApi/Helpers.cs:35-45 | the object and generic overloads fail exactly on null and otherwise apply the convention to the runtime type |
| Helpers.FirstDeclaredIdWins | src/Nancy.Serialization.JsonApi/Helpers.cs:49-51 | neither name is preferred: a `ThingId` declared before `Id` is chosen on `Shop.Model.Thing` |
| Reflection.GetValue | src/Nancy.Serialization.JsonApi/JsonApiSerializer.cs:81 | `GetValue(target, null)` reads the property's value exactly when the property has a getter and no index parameters and the target is an object holding it; otherwise ArgumentException for a property without a getter (checked first), TargetException for a null or foreign target, TargetParameterCount for an indexer |
| Linq.Where | src/Nancy.Serialization.JsonApi/JsonApiSerializer.cs:74-80 | Where keeps exactly the elements that satisfy the filter, each taken from the input |
| Linq.WhereIsOrderedSelection | src/Nancy.Serialization.JsonApi/JsonApiSerializer.cs:74-80 | Where's result is the accepted elements at strictly increasing positions of the input, every accepted position included: order and multiplicity are kept |
| Linq.SelectionIsWhere | src/Nancy.Serialization.JsonApi/JsonApiSerializer.cs:74-86 | any list of the accepted elements at strictly increasing positions, covering every accepted position, is Where's result: the ordered selection is unique |
| Linq.WhereAgrees | src/Nancy.Serialization.JsonApi/JsonApiSerializer.cs:83-86 | two filters that agree on every element select the same sequence |
| Linq.ToDictionary | src/Nancy.Serialization.JsonApi/JsonApiSerializer.cs:81 | ToDictionary succeeds iff all keys are distinct and every value can be computed; then entry i is (key, value) of element i; with every value computable, failure is a duplicate key |
| Linq.SelectAll | src/Nancy.Serialization.JsonApi/JsonApiSerializer.cs:95-100 | the projection succeeds iff every element's projection does, and keeps the enumeration order |
| Document.LinkageRoundTrip | src/Nancy.Serialization.JsonApi/JsonApiSerializer.cs:114-119 | a relationship value written as `{"data": ...}` reads back to the same linkage |
| Document.LinkageReadBack | src/Nancy.Serialization.JsonApi/JsonApiSerializer.cs:114-119 | every tree the linkage reader accepts is the one written for what it read |
| Document.DocumentRoundTrip | src/Nancy.Serialization.JsonApi/JsonApiSerializer.cs:124-129 | nothing is lost in the document tree: reading it gives back the resource object |
| Document.DocumentReadBack | src/Nancy.Serialization.JsonApi/JsonApiSerializer.cs:124-129 | every tree the document reader accepts is the one written for what it read |
| Document.DocumentLayout | src/Nancy.Serialization.JsonApi/JsonApiSerializer.cs:124-129 | the document has one `data` member holding type, id, attributes and relationships in that order |
| JsonApiSerializer.CanSerialize | src/Nancy.Serialization.JsonApi/JsonApiSerializer.cs:40-43 | CanSerialize accepts exactly the content types IsJsonType accepts, in the characterization of IsJsonTypeIff |
| JsonApiSerializer.Extensions | src/Nancy.Serialization.JsonApi/JsonApiSerializer.cs:49-52 | the extensions are the one element `jsonapi` |
| JsonApiSerializer.IsAttributeType | src/Nancy.Serialization.JsonApi/JsonApiSerializer.cs:76-79 | the three-way attribute test on a declared property type; `AttributeRuleIsOneTest` reduces it to "a value type or not resource-like" |
| JsonApiSerializer.AttributeRuleIsOneTest | src/Nancy.Serialization.JsonApi/JsonApiSerializer.cs:76-79 | the three-way attribute rule is one test: a type is of attribute type iff it is a value type, or, if it implements IEnumerable<T>, T has no id property, and otherwise the type itself has none |
| JsonApiSerializer.Attributes | src/Nancy.Serialization.JsonApi/JsonApiSerializer.cs:73-81 | the attributes dictionary exists iff every attribute property can be read and the kebab names are distinct; entry i is the kebab name and raw value of attribute property i |
| JsonApiSerializer.Identify | src/Nancy.Serialization.JsonApi/JsonApiSerializer.cs:96-111 | an identifier exists iff the declared type has an id property that the item holds with a non-null value; its type is the declared type's plural kebab name, its id the id value's text; a null item fails |
| JsonApiSerializer.LinkageIsDetermined | src/Nancy.Serialization.JsonApi/JsonApiSerializer.cs:90-111 | a relationship value has at most one linkage |
| JsonApiSerializer.RenderRelationship | src/Nancy.Serialization.JsonApi/JsonApiSerializer.cs:87-119 | a relationship renders iff the property can be read and every identifier it needs exists; the linkage is one identifier per element in enumeration order, typed by the element type, or one identifier typed by the declared type |
| JsonApiSerializer.Relationships | src/Nancy.Serialization.JsonApi/JsonApiSerializer.cs:83-120 | the relationships dictionary exists iff the kebab names are distinct and every remaining property renders; entry i is the kebab name and linkage of remaining property i |
| JsonApiSerializer.SetEntry | src/Nancy.Serialization.JsonApi/JsonApiSerializer.cs:124-127 | the dictionary indexer replaces the entry of an existing key in place, appends a new key at the end, and keeps keys unique |
| JsonApiSerializer.AssembleDocument | src/Nancy.Serialization.JsonApi/JsonApiSerializer.cs:124-129 | filling `jsonapidict` key by key yields the document tree, which reads back to the resource object |
| JsonApiSerializer.Serialize | src/Nancy.Serialization.JsonApi/JsonApiSerializer.cs:61-131 | Serialize succeeds iff the resource object can be built, and the tree it produces reads back to exactly that resource object |
| JsonApiSerializer.BuildResource | src/Nancy.Serialization.JsonApi/JsonApiSerializer.cs:65-127 | the resource object or the first fault; characterised by `ResourceTypeAndId` (type and id), `BuildResourceParts` (the two dictionaries) and `SerializerFixture.BuildResourceFrom` (the converse: those parts give that resource object) |
| JsonApiSerializer.ResourceTypeAndId | src/Nancy.Serialization.JsonApi/JsonApiSerializer.cs:124-125 | the type is the plural kebab name of the static model type; the id is the text of the non-null id value of the runtime type's id property |
| JsonApiSerializer.MissingIdFails | src/Nancy.Serialization.JsonApi/JsonApiSerializer.cs:71-125 | a null model, or one whose runtime type has no id property, cannot be serialized |
| JsonApiSerializer.BuildResourceParts | src/Nancy.Serialization.JsonApi/JsonApiSerializer.cs:73-127 | a successful call's attributes and relationships are the two dictionaries built from the runtime id property |
| JsonApiSerializer.SubtypeIdNotExcluded | src/Nancy.Serialization.JsonApi/JsonApiSerializer.cs:71-75 | when the runtime type is not the static type, no static property is the id property, so the id filter excludes nothing |
| JsonApiSerializer.AttributePropertiesAreNonIdAttributes | src/Nancy.Serialization.JsonApi/JsonApiSerializer.cs:74-80 | a property is selected as an attribute iff it is a non-id property of attribute type |
| JsonApiSerializer.AttributesAreRawValues | src/Nancy.Serialization.JsonApi/JsonApiSerializer.cs:73-81 | in a successful call the attributes are the non-id properties of attribute type, in declared order, under distinct kebab names, each with its raw value |
| JsonApiSerializer.NullAttributeKept | src/Nancy.Serialization.JsonApi/JsonApiSerializer.cs:81 | a null attribute value stays in the dictionary under its kebab name |
| JsonApiSerializer.UnreadableAttributeFails | src/Nancy.Serialization.JsonApi/JsonApiSerializer.cs:73-81 | a non-id property of attribute type that is an indexer or has no getter makes the call fail, since `GetValue(model, null)` throws on it |
| JsonApiSerializer.DuplicateAttributeNamesFail | src/Nancy.Serialization.JsonApi/JsonApiSerializer.cs:81 | two attribute properties with the same kebab name make the call fail |
| JsonApiSerializer.RelationshipPropertiesAreNonIdNonAttributes | src/Nancy.Serialization.JsonApi/JsonApiSerializer.cs:83-86 | every relationship property is a non-id property whose key is not an attribute key and whose type is not of attribute type |
| JsonApiSerializer.RelationshipsAreLinkages | src/Nancy.Serialization.JsonApi/JsonApiSerializer.cs:83-120 | in a successful call each relationship is the kebab name and linkage of a non-id property not of attribute type, in declared order |
| JsonApiSerializer.AttributeAndRelationshipKeysDisjoint | src/Nancy.Serialization.JsonApi/JsonApiSerializer.cs:83-86 | no key is both an attribute and a relationship key |
| JsonApiSerializer.AttributeKeysClassify | src/Nancy.Serialization.JsonApi/JsonApiSerializer.cs:73-85 | with distinct kebab names, a non-id property's key is an attribute key iff its type is of attribute type |
| JsonApiSerializer.RelationshipPropertiesExact | src/Nancy.Serialization.JsonApi/JsonApiSerializer.cs:83-86 | with distinct kebab names, the relationship properties are exactly the non-id properties not of attribute type |
| JsonApiSerializer.PropertiesArePartitioned | src/Nancy.Serialization.JsonApi/JsonApiSerializer.cs:73-86 | with distinct kebab names, every non-id property's key is in exactly one of the two dictionaries, chosen by its type |
| JsonApiSerializer.IdKeyNotInDictionaries | src/Nancy.Serialization.JsonApi/JsonApiSerializer.cs:75-86 | with distinct kebab names, the key of the id property is in neither dictionary |
| JsonApiSerializer.IdPropertyNotListed | src/Nancy.Serialization.JsonApi/JsonApiSerializer.cs:71-86 | when the runtime type is the static type, the id property exists and (with distinct kebab names) its key is neither an attribute nor a relationship key |
| JsonApiSerializer.RelationshipValuesRenderable | src/Nancy.Serialization.JsonApi/JsonApiSerializer.cs:87-111 | a successful call could read and render every non-id property not of attribute type |
| JsonApiSerializer.NullRelationshipFails | src/Nancy.Serialization.JsonApi/JsonApiSerializer.cs:94-110 | a null relationship value makes the whole call fail |
| JsonApiSerializer.NullRelationshipFault | src/Nancy.Serialization.JsonApi/JsonApiSerializer.cs:94-110 | the fault raised: ArgumentNull from `Cast` for a collection; for a single resource, TargetException from `GetValue` on the null item, or ArgumentException when the id property has no getter |
| JsonApiSerializer.EmptyCollectionIsEmptyList | src/Nancy.Serialization.JsonApi/JsonApiSerializer.cs:90-100 | an empty collection renders as an empty identifier list |
| SerializerFixture.IdDeclaredFirst | src/Nancy.Serialization.JsonApi/Helpers.cs:51 | a property named `Id` declared first is the id property, whatever the type's name |
| SerializerFixture.ScenarioIdProperties | src/Nancy.Serialization.JsonApi.Tests/JsonApiSerializerFixture.cs:10-37 | Thing, Bert and Fiets have the id property `Id`; Int32, Char, Guid, String, Uri and Ernie have none |
| SerializerFixture.ScenarioClassification | src/Nancy.Serialization.JsonApi.Tests/JsonApiSerializerFixture.cs:16-37 | int, string, Guid, Uri and Ernie are of attribute type; Bert and Fiets[] are not |
| SerializerFixture.ScenarioAttributeProperties | src/Nancy.Serialization.JsonApi.Tests/JsonApiSerializerFixture.cs:16-25 | the attribute properties of Thing are SomeString, SomeGuid, NullValue and Ernie, in that order |
| SerializerFixture.ScenarioAttributes | src/Nancy.Serialization.JsonApi.Tests/JsonApiSerializerFixture.cs:70 | the attributes are `some-string`, `some-guid`, `null-value` (null) and `ernie`, with their raw values |
| SerializerFixture.ScenarioRelationshipProperties | src/Nancy.Serialization.JsonApi.Tests/JsonApiSerializerFixture.cs:16-25 | the relationship properties are Bert and Fietsen |
| SerializerFixture.ScenarioRelationships | src/Nancy.Serialization.JsonApi.Tests/JsonApiSerializerFixture.cs:70 | `bert` links to (berts, 45) and `fietsen` to (fiets, 6), (fiets, 7), (fiets, 8) |
| SerializerFixture.ScenarioResource | src/Nancy.Serialization.JsonApi.Tests/JsonApiSerializerFixture.cs:47-70 | the test model builds the expected resource object: type `things`, id `5` |
| SerializerFixture.ScenarioDocument | src/Nancy.Serialization.JsonApi.Tests/JsonApiSerializerFixture.cs:70-82 | Serialize of the test model yields the document tree of the expected output |

## Left out

- Stream output: the `JsonTextWriter`, `StreamWriter` and `UnclosableStreamWrapper`, and the
  final codec call (lines 63, 129). The model stops at the tree handed to the codec.
- Codec configuration: the camelCase contract resolver, `NullValueHandling` and the global
  `JsonConvert.DefaultSettings`. These belong to Newtonsoft.Json. Attribute values stay model
  values (`JValue`) for the codec to render, so the nested `ernie` object is not rendered here.
- Humanizer: `Pluralize` and `Humanize(LetterCasing.LowerCase)` are the uninterpreted
  functions of `Helpers.Inflector`. The fixture stands them in by a table of the scenario's words.
- `ToString()`: culture-dependent formatting of ids is the `toStr` parameter.
- Reflection: `GetProperties`, `GetInterfaces` and `PropertyInfo.GetValue` become the
  explicit descriptors of `Reflection`. Descriptors are finite and acyclic, so a type that
  refers to itself, directly or through other types (Thing to Bert to Thing), cannot be
  described.
- Reflection: properties of scalars and collections cannot be read (`GetValue` on them gives
  TargetException), and a null `FullName` is not modelled. Of a property's accessors only
  the presence of a getter and the number of index parameters are kept.
- Reflection: a getter that throws (`GetValue` wraps the exception in
  TargetInvocationException) is not modelled: every getter of the model returns the value the
  object holds. Static properties, whose `GetValue` ignores the target, are not modelled
  either: every property is read from the model object.
- Deferred LINQ evaluation: the `select` over a collection (lines 95-100) runs in the source
  only while the codec writes the document at line 129, after part of it has already gone to
  the stream. The model evaluates it when the relationships dictionary is built. So a fault of
  a collection element is reported in the model before every later fault of lines 83-125 (a
  later null single relationship, a later duplicate relationship key, the model's own id),
  while the source raises those first and the element's fault only during the write, after a
  partial document.
- `Helpers.IsJsonTypeIff`: `StringComparison.InvariantCultureIgnoreCase` is a linguistic
  comparison; the model compares with ASCII case folding. Non-ASCII letters that fold to ASCII
  ones are not modelled, nor are ignorable code points, which the invariant culture skips: a
  content type such as `application/vnd.api+json` followed by a soft hyphen (U+00AD) is
  accepted by the source and refused by the model.
- The `contentType` parameter of `Serialize` is not read by the source and is not a parameter
  of the model.
- Deserialization: the body deserializer in the test project is not part of this model.
- The two constructors only choose the codec, which is out of scope.
