/**
 * The serializer test scenario (JsonApiSerializerFixture.when_serializing): a
 * Thing with a value-typed id, string, Guid and null Uri attributes, a nested
 * Ernie without id, a Bert relationship and an array of three Fiets.
 * Humanizer is stood in for by a table of the words the scenario uses.
 */
module SerializerFixture {
  import opened Wrappers
  import opened Reflection
  import opened Helpers
  import opened Document
  import opened JsonApiSerializer

  const Int32 := TypeDesc("Int32", "System.Int32", true, [], None)
  const Char := TypeDesc("Char", "System.Char", true, [], None)
  const Guid := TypeDesc("Guid", "System.Guid", true, [], None)
  /** String implements IEnumerable<char>; Chars is its indexer. */
  const String := TypeDesc("String", "System.String", false, [Prop("Chars", Char, 1), Prop("Length", Int32)], Some(Char))
  /** Uri's property list is abbreviated: none of its other properties is called Id or UriId. */
  const Uri := TypeDesc("Uri", "System.Uri", false, [Prop("AbsolutePath", String), Prop("Host", String)], None)

  const Fiets := TypeDesc("Fiets", "Nancy.Serialization.JsonApi.Tests.Fiets", false,
    [Prop("Id", Int32), Prop("Naam", String)], None)
  /**
   * Fiets[] implements IEnumerable<Fiets>. Its property list is abbreviated: LongLength,
   * SyncRoot, IsReadOnly, IsFixedSize and IsSynchronized are left out, and none of them
   * is called Id or an id name of Fiets[].
   */
  const FietsArray := TypeDesc("Fiets[]", "Nancy.Serialization.JsonApi.Tests.Fiets[]", false,
    [Prop("Length", Int32), Prop("Rank", Int32)], Some(Fiets))
  const Bert := TypeDesc("Bert", "Nancy.Serialization.JsonApi.Tests.Bert", false,
    [Prop("Id", Int32), Prop("Banaan", String)], None)
  const Ernie := TypeDesc("Ernie", "Nancy.Serialization.JsonApi.Tests.Ernie", false,
    [Prop("Banaan", String), Prop("Apple", String)], None)
  const Thing := TypeDesc("Thing", "Nancy.Serialization.JsonApi.Tests.Thing", false,
    [Prop("Id", Int32), Prop("SomeString", String), Prop("SomeGuid", Guid), Prop("NullValue", Uri),
     Prop("Bert", Bert), Prop("Ernie", Ernie), Prop("Fietsen", FietsArray)], None)

  function Text(t: TypeDesc, s: string): Value {
    Scalar(t, s)
  }

  function FietsValue(id: string, naam: string): Value {
    Object(Fiets, map["Id" := Text(Int32, id), "Naam" := Text(String, naam)])
  }

  const GuidValue := Text(Guid, "77f8195e-ac2e-4c5f-9d0a-f7663ca24435")
  const ErnieValue := Object(Ernie, map["Banaan" := Text(String, "peer"), "Apple" := Text(String, "fiets")])

  const BertValue := Object(Bert, map["Id" := Text(Int32, "45"), "Banaan" := Text(String, "fiets")])
  const FietsenValue := Collection(FietsArray, [FietsValue("6", "batavia"), FietsValue("7", "gazelle"), FietsValue("8", "canondale")])

  const Data := Object(Thing, map[
    "Id" := Text(Int32, "5"),
    "SomeString" := Text(String, "some string value"),
    "SomeGuid" := GuidValue,
    "NullValue" := Null,
    "Bert" := BertValue,
    "Ernie" := ErnieValue,
    "Fietsen" := FietsenValue])

  /** Humanizer's Pluralize and Humanize(LowerCase) on the words of the scenario. */
  const Words := Inflector(
    (s: string) => if s == "Thing" then "Things" else if s == "Bert" then "Berts" else s,
    (s: string) =>
      if s == "SomeString" then "some string"
      else if s == "SomeGuid" then "some guid"
      else if s == "NullValue" then "null value"
      else if s == "Ernie" then "ernie"
      else if s == "Bert" then "bert"
      else if s == "Fietsen" then "fietsen"
      else if s == "Things" then "things"
      else if s == "Berts" then "berts"
      else if s == "Fiets" then "fiets"
      else s)

  /** Invariant-culture ToString() of the scenario's scalars: their own text. */
  function ShowScalar(v: Value): string {
    if v.Scalar? then v.text else ""
  }

  const Expected := ResourceObject("things", "5",
    [("some-string", Text(String, "some string value")),
     ("some-guid", GuidValue),
     ("null-value", Null),
     ("ernie", ErnieValue)],
    [("bert", ToOne(ResourceIdentifier("berts", "45"))),
     ("fietsen", ToMany([ResourceIdentifier("fiets", "6"), ResourceIdentifier("fiets", "7"), ResourceIdentifier("fiets", "8")]))])

  /** A name that is not "Id" and does not end in "Id" is no id name, whatever the type. */
  lemma NotAnIdName(name: string, simpleName: string)
    requires name != "Id" && (|name| < 2 || name[|name| - 2..] != "Id")
    ensures !IsIdName(name, simpleName)
  {
    var suffixed := simpleName + "Id";
    assert suffixed[|suffixed| - 2..] == "Id";
  }

  /** A property named "Id" declared first is the id property. */
  lemma IdDeclaredFirst(t: TypeDesc)
    requires |t.props| > 0 && t.props[0].name == "Id"
    ensures GetIdPropertyByConvention(t) == Some(PropertyInfo(t, t.props[0]))
  {
    assert IsIdName(t.props[0].name, SimpleName(t));
  }

  lemma StringHasNoId()
    ensures GetIdPropertyByConvention(String).None?
  {
    NotAnIdName("Chars", SimpleName(String));
    NotAnIdName("Length", SimpleName(String));
    assert HasNoIdProperty(String);
  }

  lemma UriHasNoId()
    ensures GetIdPropertyByConvention(Uri).None?
  {
    NotAnIdName("AbsolutePath", SimpleName(Uri));
    NotAnIdName("Host", SimpleName(Uri));
    assert HasNoIdProperty(Uri);
  }

  lemma ErnieHasNoId()
    ensures GetIdPropertyByConvention(Ernie).None?
  {
    NotAnIdName("Banaan", SimpleName(Ernie));
    NotAnIdName("Apple", SimpleName(Ernie));
    assert HasNoIdProperty(Ernie);
  }

  lemma ScenarioIdProperties()
    ensures GetIdPropertyByConvention(Thing) == Some(PropertyInfo(Thing, Prop("Id", Int32)))
    ensures GetIdPropertyByConvention(Bert) == Some(PropertyInfo(Bert, Prop("Id", Int32)))
    ensures GetIdPropertyByConvention(Fiets) == Some(PropertyInfo(Fiets, Prop("Id", Int32)))
    ensures GetIdPropertyByConvention(Int32).None? && GetIdPropertyByConvention(Char).None?
    ensures GetIdPropertyByConvention(Guid).None?
    ensures GetIdPropertyByConvention(String).None?
    ensures GetIdPropertyByConvention(Uri).None?
    ensures GetIdPropertyByConvention(Ernie).None?
  {
    IdDeclaredFirst(Thing);
    IdDeclaredFirst(Bert);
    IdDeclaredFirst(Fiets);
    StringHasNoId();
    UriHasNoId();
    ErnieHasNoId();
  }

  lemma ScenarioClassification()
    ensures IsAttributeType(Int32) && IsAttributeType(String) && IsAttributeType(Guid)
    ensures IsAttributeType(Uri) && IsAttributeType(Ernie)
    ensures !IsAttributeType(Bert) && !IsAttributeType(FietsArray)
  {
    ScenarioIdProperties();
  }

  const ThingId := Some(PropertyInfo(Thing, Prop("Id", Int32)))

  /** ToKebabCase of a word whose humanized form is known. */
  lemma KebabIs(s: string, humanized: string, kebab: string)
    requires Words.humanizeLower(s) == humanized
    requires |kebab| == |humanized|
    requires forall i :: 0 <= i < |humanized| ==> kebab[i] == if humanized[i] == ' ' then '-' else humanized[i]
    ensures ToKebabCase(Words, s) == kebab
  {
  }

  lemma KebabSomeString() ensures ToKebabCase(Words, "SomeString") == "some-string" { KebabIs("SomeString", "some string", "some-string"); }
  lemma KebabSomeGuid() ensures ToKebabCase(Words, "SomeGuid") == "some-guid" { KebabIs("SomeGuid", "some guid", "some-guid"); }
  lemma KebabNullValue() ensures ToKebabCase(Words, "NullValue") == "null-value" { KebabIs("NullValue", "null value", "null-value"); }
  lemma KebabErnie() ensures ToKebabCase(Words, "Ernie") == "ernie" { KebabIs("Ernie", "ernie", "ernie"); }
  lemma KebabBert() ensures ToKebabCase(Words, "Bert") == "bert" { KebabIs("Bert", "bert", "bert"); }
  lemma KebabFietsen() ensures ToKebabCase(Words, "Fietsen") == "fietsen" { KebabIs("Fietsen", "fietsen", "fietsen"); }
  lemma KebabThings() ensures ToKebabCase(Words, "Things") == "things" { KebabIs("Things", "things", "things"); }
  lemma KebabBerts() ensures ToKebabCase(Words, "Berts") == "berts" { KebabIs("Berts", "berts", "berts"); }
  lemma KebabFiets() ensures ToKebabCase(Words, "Fiets") == "fiets" { KebabIs("Fiets", "fiets", "fiets"); }

  lemma ThingTypeName() ensures TypeName(Words, Thing) == "things" { KebabThings(); }
  lemma BertTypeName() ensures TypeName(Words, Bert) == "berts" { KebabBerts(); }
  lemma FietsTypeName() ensures TypeName(Words, Fiets) == "fiets" { KebabFiets(); }

  const AttributeFlags := [false, true, true, true, false, true, false]

  /** The attribute filter, applied to one property (stated generically to keep literals folded). */
  lemma AttributeFilterKeeps(m: TypeDesc, idProp: Option<PropertyInfo>, p: Prop)
    requires !IsIdProperty(m, idProp, p) && IsAttributeType(p.propertyType)
    ensures AttributeFilter(m, idProp)(p)
  {
  }

  lemma AttributeFilterDrops(m: TypeDesc, idProp: Option<PropertyInfo>, p: Prop)
    requires IsIdProperty(m, idProp, p) || !IsAttributeType(p.propertyType)
    ensures !AttributeFilter(m, idProp)(p)
  {
  }

  /** Id is the id property; Bert and Fietsen are resources. */
  lemma AttributeFilterDropsScenario()
    ensures !AttributeFilter(Thing, ThingId)(Thing.props[0])
    ensures !AttributeFilter(Thing, ThingId)(Thing.props[4])
    ensures !AttributeFilter(Thing, ThingId)(Thing.props[6])
  {
    IdDeclaredFirst(Thing);
    IdDeclaredFirst(Bert);
    IdDeclaredFirst(Fiets);
    AttributeFilterDrops(Thing, ThingId, Thing.props[0]);
    AttributeFilterDrops(Thing, ThingId, Thing.props[4]);
    AttributeFilterDrops(Thing, ThingId, Thing.props[6]);
  }

  /** String, Guid, Uri and Ernie are of attribute type. */
  lemma AttributeFilterKeepsScenario()
    ensures AttributeFilter(Thing, ThingId)(Thing.props[1]) && AttributeFilter(Thing, ThingId)(Thing.props[2])
    ensures AttributeFilter(Thing, ThingId)(Thing.props[3]) && AttributeFilter(Thing, ThingId)(Thing.props[5])
  {
    StringHasNoId();
    UriHasNoId();
    ErnieHasNoId();
    AttributeFilterKeeps(Thing, ThingId, Thing.props[1]);
    AttributeFilterKeeps(Thing, ThingId, Thing.props[2]);
    AttributeFilterKeeps(Thing, ThingId, Thing.props[3]);
    AttributeFilterKeeps(Thing, ThingId, Thing.props[5]);
  }

  lemma ScenarioAttributeFlags()
    ensures forall i :: 0 <= i < |Thing.props| ==> AttributeFilter(Thing, ThingId)(Thing.props[i]) == AttributeFlags[i]
  {
    AttributeFilterDropsScenario();
    AttributeFilterKeepsScenario();
    forall i | 0 <= i < |Thing.props| ensures AttributeFilter(Thing, ThingId)(Thing.props[i]) == AttributeFlags[i] {
      if i == 0 {
      } else if i == 1 {
      } else if i == 2 {
      } else if i == 3 {
      } else if i == 4 {
      } else if i == 5 {
      } else {
      }
    }
  }

  lemma ScenarioPick()
    ensures Linq.Pick(Thing.props, AttributeFlags, 7) == [Thing.props[1], Thing.props[2], Thing.props[3], Thing.props[5]]
  {
    var ps := Thing.props;
    assert Linq.Pick(ps, AttributeFlags, 1) == [];
    assert Linq.Pick(ps, AttributeFlags, 2) == [ps[1]];
    assert Linq.Pick(ps, AttributeFlags, 3) == [ps[1], ps[2]];
    assert Linq.Pick(ps, AttributeFlags, 4) == [ps[1], ps[2], ps[3]];
    assert Linq.Pick(ps, AttributeFlags, 5) == [ps[1], ps[2], ps[3]];
    assert Linq.Pick(ps, AttributeFlags, 6) == [ps[1], ps[2], ps[3], ps[5]];
  }

  lemma ScenarioWhere()
    ensures Linq.Where(Thing.props[..7], AttributeFilter(Thing, ThingId)) == Linq.Pick(Thing.props, AttributeFlags, 7)
  {
    ScenarioAttributeFlags();
    Linq.WhereByFlags(Thing.props, AttributeFilter(Thing, ThingId), AttributeFlags, 7);
  }

  /** SomeString, SomeGuid, NullValue and Ernie are the attributes; Id, Bert and Fietsen are not. */
  lemma ScenarioAttributeProperties()
    ensures AttributeProperties(Thing, ThingId) == [Thing.props[1], Thing.props[2], Thing.props[3], Thing.props[5]]
  {
    ScenarioPick();
    ScenarioWhere();
    assert Thing.props[..7] == Thing.props;
  }

  /** The attributes dictionary, once its properties and their names and values are known. */
  lemma AttributesFrom(inflector: Inflector, m: TypeDesc, idProp: Option<PropertyInfo>, model: Value,
                       ps: seq<Prop>, expected: seq<(string, Value)>)
    requires AttributeProperties(m, idProp) == ps
    requires DistinctKebabNames(inflector, ps)
    requires |expected| == |ps|
    requires forall i :: 0 <= i < |ps| ==>
      Readable(model, ps[i]) && expected[i] == (ToKebabCase(inflector, ps[i].name), model.fields[ps[i].name])
    ensures Attributes(inflector, m, idProp, model) == Ok(expected)
  {
    var r := Attributes(inflector, m, idProp, model);
    assert r.Ok?;
    assert r.value == expected;
  }

  /** SomeString, SomeGuid, NullValue and Ernie, in declared order. */
  const AttributeProps := [Prop("SomeString", String), Prop("SomeGuid", Guid), Prop("NullValue", Uri), Prop("Ernie", Ernie)]

  lemma ScenarioAttributePropsListed()
    ensures [Thing.props[1], Thing.props[2], Thing.props[3], Thing.props[5]] == AttributeProps
  {
  }

  lemma ScenarioAttributeNamesDistinct()
    ensures DistinctKebabNames(Words, AttributeProps)
  {
    KebabSomeString();
    KebabSomeGuid();
    KebabNullValue();
    KebabErnie();
  }

  lemma ScenarioAttributeEntries()
    ensures forall i :: 0 <= i < |AttributeProps| ==>
      Readable(Data, AttributeProps[i])
      && Expected.attributes[i] == (ToKebabCase(Words, AttributeProps[i].name), Data.fields[AttributeProps[i].name])
  {
    forall i | 0 <= i < |AttributeProps|
      ensures Readable(Data, AttributeProps[i])
      ensures Expected.attributes[i] == (ToKebabCase(Words, AttributeProps[i].name), Data.fields[AttributeProps[i].name])
    {
      if i == 0 {
        KebabSomeString();
      } else if i == 1 {
        KebabSomeGuid();
      } else if i == 2 {
        KebabNullValue();
      } else {
        KebabErnie();
      }
    }
  }

  /** The attributes of the scenario: kebab-cased names, raw values, the null Uri kept. */
  lemma ScenarioAttributes()
    ensures Attributes(Words, Thing, ThingId, Data) == Ok(Expected.attributes)
  {
    ScenarioAttributeProperties();
    ScenarioAttributePropsListed();
    ScenarioAttributeNamesDistinct();
    ScenarioAttributeEntries();
    AttributesFrom(Words, Thing, ThingId, Data, AttributeProps, Expected.attributes);
  }

  const RelationshipFlags := [false, false, false, false, true, false, true]

  lemma RelationshipFilterKeeps(inflector: Inflector, m: TypeDesc, idProp: Option<PropertyInfo>, keys: seq<string>, p: Prop)
    requires ToKebabCase(inflector, p.name) !in keys && !IsIdProperty(m, idProp, p)
    ensures RelationshipFilter(inflector, m, idProp, keys)(p)
  {
  }

  lemma RelationshipFilterDrops(inflector: Inflector, m: TypeDesc, idProp: Option<PropertyInfo>, keys: seq<string>, p: Prop)
    requires ToKebabCase(inflector, p.name) in keys || IsIdProperty(m, idProp, p)
    ensures !RelationshipFilter(inflector, m, idProp, keys)(p)
  {
  }

  const AttributeKeys := ["some-string", "some-guid", "null-value", "ernie"]

  lemma ScenarioAttributeKeys()
    ensures Linq.Keys(Expected.attributes) == AttributeKeys
  {
  }

  /** The four attribute keys are taken. */
  lemma RelationshipFilterDropsAttributes()
    ensures !RelationshipFilter(Words, Thing, ThingId, AttributeKeys)(Thing.props[1])
    ensures !RelationshipFilter(Words, Thing, ThingId, AttributeKeys)(Thing.props[2])
    ensures !RelationshipFilter(Words, Thing, ThingId, AttributeKeys)(Thing.props[3])
    ensures !RelationshipFilter(Words, Thing, ThingId, AttributeKeys)(Thing.props[5])
  {
    KebabSomeString();
    KebabSomeGuid();
    KebabNullValue();
    KebabErnie();
    assert ToKebabCase(Words, Thing.props[1].name) == AttributeKeys[0];
    assert ToKebabCase(Words, Thing.props[2].name) == AttributeKeys[1];
    assert ToKebabCase(Words, Thing.props[3].name) == AttributeKeys[2];
    assert ToKebabCase(Words, Thing.props[5].name) == AttributeKeys[3];
    RelationshipFilterDrops(Words, Thing, ThingId, AttributeKeys, Thing.props[1]);
    RelationshipFilterDrops(Words, Thing, ThingId, AttributeKeys, Thing.props[2]);
    RelationshipFilterDrops(Words, Thing, ThingId, AttributeKeys, Thing.props[3]);
    RelationshipFilterDrops(Words, Thing, ThingId, AttributeKeys, Thing.props[5]);
  }

  /** Id is the id property. */
  lemma RelationshipFilterDropsId()
    ensures !RelationshipFilter(Words, Thing, ThingId, AttributeKeys)(Thing.props[0])
  {
    RelationshipFilterDrops(Words, Thing, ThingId, AttributeKeys, Thing.props[0]);
  }

  /** "bert" and "fietsen" are no attribute keys. */
  lemma RelationshipFilterKeepsScenario()
    ensures RelationshipFilter(Words, Thing, ThingId, AttributeKeys)(Thing.props[4])
    ensures RelationshipFilter(Words, Thing, ThingId, AttributeKeys)(Thing.props[6])
  {
    KebabBert();
    KebabFietsen();
    RelationshipFilterKeeps(Words, Thing, ThingId, AttributeKeys, Thing.props[4]);
    RelationshipFilterKeeps(Words, Thing, ThingId, AttributeKeys, Thing.props[6]);
  }

  lemma ScenarioRelationshipFlags()
    ensures forall i :: 0 <= i < |Thing.props| ==>
      RelationshipFilter(Words, Thing, ThingId, AttributeKeys)(Thing.props[i]) == RelationshipFlags[i]
  {
    RelationshipFilterDropsId();
    RelationshipFilterDropsAttributes();
    RelationshipFilterKeepsScenario();
    forall i | 0 <= i < |Thing.props|
      ensures RelationshipFilter(Words, Thing, ThingId, AttributeKeys)(Thing.props[i]) == RelationshipFlags[i]
    {
      if i == 0 {
      } else if i == 1 {
      } else if i == 2 {
      } else if i == 3 {
      } else if i == 4 {
      } else if i == 5 {
      } else {
      }
    }
  }

  lemma ScenarioRelationshipPick()
    ensures Linq.Pick(Thing.props, RelationshipFlags, 7) == [Thing.props[4], Thing.props[6]]
  {
    var ps := Thing.props;
    assert Linq.Pick(ps, RelationshipFlags, 1) == [];
    assert Linq.Pick(ps, RelationshipFlags, 2) == [];
    assert Linq.Pick(ps, RelationshipFlags, 3) == [];
    assert Linq.Pick(ps, RelationshipFlags, 4) == [];
    assert Linq.Pick(ps, RelationshipFlags, 5) == [ps[4]];
    assert Linq.Pick(ps, RelationshipFlags, 6) == [ps[4]];
  }

  lemma ScenarioRelationshipWhere()
    ensures Linq.Where(Thing.props[..7], RelationshipFilter(Words, Thing, ThingId, AttributeKeys))
      == Linq.Pick(Thing.props, RelationshipFlags, 7)
  {
    ScenarioRelationshipFlags();
    Linq.WhereByFlags(Thing.props, RelationshipFilter(Words, Thing, ThingId, AttributeKeys), RelationshipFlags, 7);
  }

  /** Bert and Fietsen, in declared order. */
  const RelationshipProps := [Prop("Bert", Bert), Prop("Fietsen", FietsArray)]

  /** Bert and Fietsen are what remains once the attribute keys and the id are excluded. */
  lemma ScenarioRelationshipProperties()
    ensures RelationshipProperties(Words, Thing, ThingId, AttributeKeys) == RelationshipProps
  {
    ScenarioRelationshipPick();
    ScenarioRelationshipWhere();
    assert Thing.props[..7] == Thing.props;
  }

  /** Entry `e` is what the relationship property `p` of `model` renders to. */
  predicate RelationshipEntry(inflector: Inflector, toStr: Value -> string, model: Value, p: Prop, e: (string, Linkage)) {
    && Readable(model, p)
    && Renderable(p.propertyType, model.fields[p.name])
    && e.0 == ToKebabCase(inflector, p.name)
    && IsLinkageOf(inflector, toStr, p.propertyType, model.fields[p.name], e.1)
  }

  /** The relationships dictionary, once its properties and their linkages are known. */
  lemma RelationshipsFrom(inflector: Inflector, toStr: Value -> string, m: TypeDesc, idProp: Option<PropertyInfo>,
                          model: Value, keys: seq<string>, ps: seq<Prop>, expected: seq<(string, Linkage)>)
    requires RelationshipProperties(inflector, m, idProp, keys) == ps
    requires DistinctKebabNames(inflector, ps)
    requires |expected| == |ps|
    requires forall i :: 0 <= i < |ps| ==> RelationshipEntry(inflector, toStr, model, ps[i], expected[i])
    ensures Relationships(inflector, toStr, m, idProp, model, keys) == Ok(expected)
  {
    var r := Relationships(inflector, toStr, m, idProp, model, keys);
    assert r.Ok?;
    forall i | 0 <= i < |ps| ensures r.value[i] == expected[i] {
      LinkageIsDetermined(inflector, toStr, ps[i].propertyType, model.fields[ps[i].name], r.value[i].1, expected[i].1);
    }
    assert r.value == expected;
  }

  /** The linkage of a single resource, once its id property and id value are known. */
  lemma ToOneLinkageFrom(inflector: Inflector, toStr: Value -> string, declared: TypeDesc, v: Value, idName: string,
                         target: ResourceIdentifier)
    requires declared.enumerableOf.None?
    requires GetIdPropertyByConvention(declared).Some? && GetIdPropertyByConvention(declared).value.prop.name == idName
    requires GetIdPropertyByConvention(declared).value.prop.indexParameters == 0
    requires GetIdPropertyByConvention(declared).value.prop.hasGetter
    requires HasField(v, idName) && v.fields[idName] != Null
    requires target == ResourceIdentifier(TypeName(inflector, declared), toStr(v.fields[idName]))
    ensures Renderable(declared, v) && IsLinkageOf(inflector, toStr, declared, v, ToOne(target))
  {
  }

  /** The linkage of a collection of resources, once the element id property and the ids are known. */
  lemma ToManyLinkageFrom(inflector: Inflector, toStr: Value -> string, declared: TypeDesc, v: Value, idName: string,
                          targets: seq<ResourceIdentifier>)
    requires declared.enumerableOf.Some?
    requires var elem := declared.enumerableOf.value;
      GetIdPropertyByConvention(elem).Some? && GetIdPropertyByConvention(elem).value.prop.name == idName
      && GetIdPropertyByConvention(elem).value.prop.indexParameters == 0
      && GetIdPropertyByConvention(elem).value.prop.hasGetter
    requires v.Collection? && |targets| == |v.items|
    requires forall j :: 0 <= j < |v.items| ==>
      && HasField(v.items[j], idName) && v.items[j].fields[idName] != Null
      && targets[j] == ResourceIdentifier(TypeName(inflector, declared.enumerableOf.value), toStr(v.items[j].fields[idName]))
    ensures Renderable(declared, v) && IsLinkageOf(inflector, toStr, declared, v, ToMany(targets))
  {
  }

  lemma ScenarioBertLinkage()
    ensures Renderable(Bert, BertValue)
    ensures IsLinkageOf(Words, ShowScalar, Bert, BertValue, ToOne(ResourceIdentifier("berts", "45")))
  {
    IdDeclaredFirst(Bert);
    BertTypeName();
    assert HasField(BertValue, "Id") && BertValue.fields["Id"] == Text(Int32, "45");
    ToOneLinkageFrom(Words, ShowScalar, Bert, BertValue, "Id", ResourceIdentifier("berts", "45"));
  }

  /** Each Fiets is identified by its own id, typed "fiets". */
  lemma FietsIdentifier(id: string, naam: string)
    ensures HasField(FietsValue(id, naam), "Id") && FietsValue(id, naam).fields["Id"] != Null
    ensures ResourceIdentifier("fiets", id) == ResourceIdentifier(TypeName(Words, Fiets), ShowScalar(FietsValue(id, naam).fields["Id"]))
  {
    FietsTypeName();
  }

  const FietsIds := [ResourceIdentifier("fiets", "6"), ResourceIdentifier("fiets", "7"), ResourceIdentifier("fiets", "8")]

  lemma ScenarioFietsenLinkage()
    ensures Renderable(FietsArray, FietsenValue)
    ensures IsLinkageOf(Words, ShowScalar, FietsArray, FietsenValue, ToMany(FietsIds))
  {
    IdDeclaredFirst(Fiets);
    var items := FietsenValue.items;
    forall j | 0 <= j < |items|
      ensures HasField(items[j], "Id") && items[j].fields["Id"] != Null
      ensures FietsIds[j] == ResourceIdentifier(TypeName(Words, Fiets), ShowScalar(items[j].fields["Id"]))
    {
      if j == 0 {
        FietsIdentifier("6", "batavia");
      } else if j == 1 {
        FietsIdentifier("7", "gazelle");
      } else {
        FietsIdentifier("8", "canondale");
      }
    }
    ToManyLinkageFrom(Words, ShowScalar, FietsArray, FietsenValue, "Id", FietsIds);
  }

  lemma ScenarioBertEntry()
    ensures RelationshipEntry(Words, ShowScalar, Data, RelationshipProps[0], Expected.relationships[0])
  {
    KebabBert();
    assert HasField(Data, "Bert") && Data.fields["Bert"] == BertValue;
    ScenarioBertLinkage();
  }

  lemma ScenarioFietsenEntry()
    ensures RelationshipEntry(Words, ShowScalar, Data, RelationshipProps[1], Expected.relationships[1])
  {
    KebabFietsen();
    assert HasField(Data, "Fietsen") && Data.fields["Fietsen"] == FietsenValue;
    ScenarioFietsenLinkage();
  }

  /** A two-entry relationships dictionary, from its two entries. */
  lemma RelationshipsOfTwo(inflector: Inflector, toStr: Value -> string, m: TypeDesc, idProp: Option<PropertyInfo>,
                           model: Value, keys: seq<string>, p0: Prop, p1: Prop, e0: (string, Linkage), e1: (string, Linkage))
    requires RelationshipProperties(inflector, m, idProp, keys) == [p0, p1]
    requires ToKebabCase(inflector, p0.name) != ToKebabCase(inflector, p1.name)
    requires RelationshipEntry(inflector, toStr, model, p0, e0) && RelationshipEntry(inflector, toStr, model, p1, e1)
    ensures Relationships(inflector, toStr, m, idProp, model, keys) == Ok([e0, e1])
  {
    RelationshipsFrom(inflector, toStr, m, idProp, model, keys, [p0, p1], [e0, e1]);
  }

  /** Bert renders as one identifier, Fietsen as three, typed by the declared types. */
  lemma ScenarioRelationships()
    ensures Relationships(Words, ShowScalar, Thing, ThingId, Data, AttributeKeys) == Ok(Expected.relationships)
  {
    ScenarioRelationshipProperties();
    KebabBert();
    KebabFietsen();
    ScenarioBertEntry();
    ScenarioFietsenEntry();
    RelationshipsOfTwo(Words, ShowScalar, Thing, ThingId, Data, AttributeKeys, RelationshipProps[0], RelationshipProps[1],
      Expected.relationships[0], Expected.relationships[1]);
  }

  /** A successful call, once its id property, id value and the two dictionaries are known. */
  lemma BuildResourceFrom(inflector: Inflector, toStr: Value -> string, m: TypeDesc, model: Value, idName: string,
                          attributes: seq<(string, Value)>, relationships: seq<(string, Linkage)>)
    requires model.Object? && GetIdPropertyByConvention(model.runtime).Some?
    requires GetIdPropertyByConvention(model.runtime).value.prop.name == idName
    requires GetIdPropertyByConvention(model.runtime).value.prop.indexParameters == 0
    requires GetIdPropertyByConvention(model.runtime).value.prop.hasGetter
    requires HasField(model, idName) && model.fields[idName] != Null
    requires Attributes(inflector, m, ModelIdProperty(model), model) == Ok(attributes)
    requires Relationships(inflector, toStr, m, ModelIdProperty(model), model, Linq.Keys(attributes)) == Ok(relationships)
    ensures BuildResource(inflector, toStr, m, model)
      == Ok(ResourceObject(TypeName(inflector, m), toStr(model.fields[idName]), attributes, relationships))
  {
  }

  /**
   * The scenario end to end: type "things", id "5", the four attributes and the
   * two relationships of the expected document.
   */
  lemma ScenarioModelId()
    ensures ModelIdProperty(Data) == ThingId
    ensures HasField(Data, "Id") && Data.fields["Id"] == Text(Int32, "5")
  {
    IdDeclaredFirst(Thing);
  }

  lemma ScenarioDictionaries()
    ensures Attributes(Words, Thing, ModelIdProperty(Data), Data) == Ok(Expected.attributes)
    ensures Relationships(Words, ShowScalar, Thing, ModelIdProperty(Data), Data, Linq.Keys(Expected.attributes))
      == Ok(Expected.relationships)
  {
    ScenarioModelId();
    ScenarioAttributes();
    ScenarioAttributeKeys();
    ScenarioRelationships();
  }

  lemma ScenarioResource()
    ensures BuildResource(Words, ShowScalar, Thing, Data) == Ok(Expected)
  {
    ScenarioModelId();
    ScenarioDictionaries();
    ThingTypeName();
    BuildResourceFrom(Words, ShowScalar, Thing, Data, "Id", Expected.attributes, Expected.relationships);
  }

  /** The document handed to the codec is {data: {type, id, attributes, relationships}} of the expected resource. */
  lemma ScenarioDocument()
    ensures Serialize(Words, ShowScalar, Thing, Data) == Ok(DocumentJson(Expected))
  {
    ScenarioResource();
  }
}
