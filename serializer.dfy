/**
 * JsonApiSerializer.cs: the serializer plug-in. Serialize builds the JSON:API
 * document for a model in one pass: it finds the id property of the model's
 * runtime type, splits the other properties of the static model type into
 * attributes and relationships, renders each relationship as resource
 * identifiers, and assembles {data: {type, id, attributes, relationships}}.
 * Writing the document to the output stream is the JSON codec's job and is
 * not modelled; the result here is the tree handed to it.
 */
module JsonApiSerializer {
  import opened Wrappers
  import opened Reflection
  import opened Helpers
  import opened Linq
  import opened Document

  // ------------------------------------------------------ plug-in surface

  /** CanSerialize: exactly the content types IsJsonType accepts. */
  function CanSerialize(contentType: Option<string>): (r: bool)
    ensures r <==> (
      && contentType.Some?
      && |contentType.value| >= |JsonApiMediaType|
      && ToLowerAscii(contentType.value[..|JsonApiMediaType|]) == JsonApiMediaType
      && (|contentType.value| == |JsonApiMediaType| || contentType.value[|JsonApiMediaType|] == ';'))
  {
    if contentType.Some? then
      IsJsonTypeIff(contentType.value);
      IsJsonType(contentType)
    else
      IsJsonType(contentType)
  }

  /** Extensions: the single file extension "jsonapi". */
  function Extensions(): (r: seq<string>)
    ensures |r| == 1 && r[0] == "jsonapi"
  {
    ["jsonapi"]
  }

  // ------------------------------------------------------ classification

  /**
   * Lines 76-79: a property of declared type `t` is an attribute when `t` is a
   * value type, or has no id property and implements no IEnumerable<T>, or
   * implements IEnumerable<T> and the first such T has no id property.
   */
  predicate IsAttributeType(t: TypeDesc) {
    || t.isValueType
    || (GetIdPropertyByConvention(t).None? && t.enumerableOf.None?)
    || (t.enumerableOf.Some? && GetIdPropertyByConvention(t.enumerableOf.value).None?)
  }

  /**
   * A type "looks like a resource" when the id convention finds a property on it
   * or, if it is enumerable, on its element type.
   */
  predicate LooksLikeResource(t: TypeDesc) {
    match t.enumerableOf
    case Some(elem) => GetIdPropertyByConvention(elem).Some?
    case None => GetIdPropertyByConvention(t).Some?
  }

  /**
   * The three overlapping cases of the rule collapse to one test: a property is a
   * relationship exactly when its type is a reference type that looks like a resource.
   */
  lemma AttributeRuleIsOneTest(t: TypeDesc)
    ensures IsAttributeType(t) <==> t.isValueType || !LooksLikeResource(t)
  {
  }

  /** `p != idProp`: the same PropertyInfo, obtained through the static model type. */
  predicate IsIdProperty(modelType: TypeDesc, idProp: Option<PropertyInfo>, p: Prop) {
    idProp == Some(PropertyInfo(modelType, p))
  }

  /** The two Where filters of lines 75-79. */
  function AttributeFilter(modelType: TypeDesc, idProp: Option<PropertyInfo>): Prop -> bool {
    (p: Prop) => !IsIdProperty(modelType, idProp, p) && IsAttributeType(p.propertyType)
  }

  /** The properties that become attributes, in declared order (lines 74-80). */
  function AttributeProperties(modelType: TypeDesc, idProp: Option<PropertyInfo>): seq<Prop> {
    Where(modelType.props, AttributeFilter(modelType, idProp))
  }

  /** No two of the properties share a kebab-cased name. */
  predicate DistinctKebabNames(inflector: Inflector, ps: seq<Prop>) {
    forall i, j :: 0 <= i < j < |ps| ==> ToKebabCase(inflector, ps[i].name) != ToKebabCase(inflector, ps[j].name)
  }

  /**
   * Lines 73-81: the attributes dictionary maps each attribute property's kebab
   * name to its raw value, null included; it fails when a value cannot be read
   * or two attribute names collide.
   */
  function Attributes(inflector: Inflector, modelType: TypeDesc, idProp: Option<PropertyInfo>, model: Value)
    : (r: Result<seq<(string, Value)>, Fault>)
    ensures var ps := AttributeProperties(modelType, idProp);
      r.Ok? <==> (forall i :: 0 <= i < |ps| ==> Readable(model, ps[i])) && DistinctKebabNames(inflector, ps)
    ensures var ps := AttributeProperties(modelType, idProp);
      r.Ok? ==> |r.value| == |ps| && forall i :: 0 <= i < |ps| ==>
        r.value[i] == (ToKebabCase(inflector, ps[i].name), model.fields[ps[i].name])
  {
    var ps := AttributeProperties(modelType, idProp);
    var d := ToDictionary(ps, (p: Prop) => ToKebabCase(inflector, p.name), (p: Prop) => GetValue(PropertyInfo(modelType, p), model));
    assert DistinctKeys(ps, (p: Prop) => ToKebabCase(inflector, p.name)) <==> DistinctKebabNames(inflector, ps);
    d
  }

  // ------------------------------------------------------ relationships

  /** `type.Name.Pluralize().ToKebabCase()`. */
  function TypeName(inflector: Inflector, t: TypeDesc): string {
    ToKebabCase(inflector, inflector.pluralize(t.name))
  }

  /**
   * `item` can be identified as an instance of `declared`: the convention finds an
   * id property on the declared type, `item` has it, and its value is not null.
   */
  predicate Identifiable(declared: TypeDesc, item: Value) {
    && GetIdPropertyByConvention(declared).Some?
    && Readable(item, GetIdPropertyByConvention(declared).value.prop)
    && item.fields[GetIdPropertyByConvention(declared).value.prop.name] != Null
  }

  /** The id value of an identifiable item. */
  function IdValue(declared: TypeDesc, item: Value): Value
    requires Identifiable(declared, item)
  {
    item.fields[GetIdPropertyByConvention(declared).value.prop.name]
  }

  /**
   * Lines 96-99 and 107-111: the resource identifier of `item`, with the type name
   * and the id property taken from the declared type, never from `item`'s runtime type.
   */
  function Identify(inflector: Inflector, toStr: Value -> string, declared: TypeDesc, item: Value)
    : (r: Result<ResourceIdentifier, Fault>)
    ensures r.Ok? <==> Identifiable(declared, item)
    ensures r.Ok? ==> r.value.typeName == TypeName(inflector, declared)
    ensures r.Ok? ==> r.value.id == toStr(IdValue(declared, item))
    ensures item.Null? ==> r == Err(
      if GetIdPropertyByConvention(declared).None? then NullReference
      else if !GetIdPropertyByConvention(declared).value.prop.hasGetter then ArgumentException
      else TargetException)
  {
    var typeName := TypeName(inflector, declared);
    var idProperty := GetIdPropertyByConvention(declared);
    if idProperty.None? then Err(NullReference)
    else
      var id :- GetValue(idProperty.value, item);
      var text :- ToText(toStr, id);
      Ok(ResourceIdentifier(typeName, text))
  }

  /** `(IEnumerable) value` followed by `Cast<object>()`. */
  function Enumerate(v: Value): Result<seq<Value>, Fault> {
    match v
    case Null => Err(ArgumentNull)
    case Collection(_, items) => Ok(items)
    case _ => Err(InvalidCast)
  }

  /**
   * The linkage a relationship property renders to, given its value `v`: for a
   * type implementing IEnumerable<T>, one identifier per element, in enumeration
   * order, typed by T; otherwise one identifier typed by the declared type.
   */
  predicate IsLinkageOf(inflector: Inflector, toStr: Value -> string, declared: TypeDesc, v: Value, l: Linkage) {
    match declared.enumerableOf
    case Some(elem) =>
      && v.Collection? && l.ToMany? && |l.targets| == |v.items|
      && forall j :: 0 <= j < |v.items| ==>
           Identifiable(elem, v.items[j])
           && l.targets[j] == ResourceIdentifier(TypeName(inflector, elem), toStr(IdValue(elem, v.items[j])))
    case None =>
      && l.ToOne? && Identifiable(declared, v)
      && l.target == ResourceIdentifier(TypeName(inflector, declared), toStr(IdValue(declared, v)))
  }

  /** A value has at most one linkage: rendering is deterministic. */
  lemma LinkageIsDetermined(inflector: Inflector, toStr: Value -> string, declared: TypeDesc, v: Value, l1: Linkage, l2: Linkage)
    requires IsLinkageOf(inflector, toStr, declared, v, l1) && IsLinkageOf(inflector, toStr, declared, v, l2)
    ensures l1 == l2
  {
    if declared.enumerableOf.Some? {
      assert l1.targets == l2.targets;
    }
  }

  /** Whether every identifier the linkage needs can be read from `v`. */
  predicate Renderable(declared: TypeDesc, v: Value) {
    match declared.enumerableOf
    case Some(elem) => v.Collection? && forall j :: 0 <= j < |v.items| ==> Identifiable(elem, v.items[j])
    case None => Identifiable(declared, v)
  }

  /** Lines 87-119: the value of one relationship, before it is wrapped in {"data": ...}. */
  function RenderRelationship(inflector: Inflector, toStr: Value -> string, modelType: TypeDesc, p: Prop, model: Value)
    : (r: Result<Linkage, Fault>)
    ensures r.Ok? <==> Readable(model, p) && Renderable(p.propertyType, model.fields[p.name])
    ensures r.Ok? ==> IsLinkageOf(inflector, toStr, p.propertyType, model.fields[p.name], r.value)
  {
    var declared := p.propertyType;
    if declared.enumerableOf.Some? then
      var elem := declared.enumerableOf.value;
      var v :- GetValue(PropertyInfo(modelType, p), model);
      var items :- Enumerate(v);
      var ids :- SelectAll(items, (item: Value) => Identify(inflector, toStr, elem, item));
      Ok(ToMany(ids))
    else
      var item :- GetValue(PropertyInfo(modelType, p), model);
      var id :- Identify(inflector, toStr, declared, item);
      Ok(ToOne(id))
  }

  /** The two Where filters of lines 85-86. */
  function RelationshipFilter(inflector: Inflector, modelType: TypeDesc, idProp: Option<PropertyInfo>, attributeKeys: seq<string>)
    : Prop -> bool
  {
    (p: Prop) => ToKebabCase(inflector, p.name) !in attributeKeys && !IsIdProperty(modelType, idProp, p)
  }

  /** Lines 84-86: the properties left once the attribute keys and the id property are excluded. */
  function RelationshipProperties(inflector: Inflector, modelType: TypeDesc, idProp: Option<PropertyInfo>, attributeKeys: seq<string>)
    : seq<Prop>
  {
    Where(modelType.props, RelationshipFilter(inflector, modelType, idProp, attributeKeys))
  }

  /** Lines 83-120: the relationships dictionary, one entry per remaining property, in declared order. */
  function Relationships(inflector: Inflector, toStr: Value -> string, modelType: TypeDesc, idProp: Option<PropertyInfo>,
                         model: Value, attributeKeys: seq<string>)
    : (r: Result<seq<(string, Linkage)>, Fault>)
    ensures var ps := RelationshipProperties(inflector, modelType, idProp, attributeKeys);
      r.Ok? <==> (
        && DistinctKebabNames(inflector, ps)
        && forall i :: 0 <= i < |ps| ==> Readable(model, ps[i]) && Renderable(ps[i].propertyType, model.fields[ps[i].name]))
    ensures var ps := RelationshipProperties(inflector, modelType, idProp, attributeKeys);
      r.Ok? ==> |r.value| == |ps| && forall i :: 0 <= i < |ps| ==>
        && r.value[i].0 == ToKebabCase(inflector, ps[i].name)
        && IsLinkageOf(inflector, toStr, ps[i].propertyType, model.fields[ps[i].name], r.value[i].1)
  {
    var ps := RelationshipProperties(inflector, modelType, idProp, attributeKeys);
    var d := ToDictionary(ps, (p: Prop) => ToKebabCase(inflector, p.name), (p: Prop) => RenderRelationship(inflector, toStr, modelType, p, model));
    assert DistinctKeys(ps, (p: Prop) => ToKebabCase(inflector, p.name)) <==> DistinctKebabNames(inflector, ps);
    d
  }

  // ------------------------------------------------------ assembly

  /** Lines 65-127: the resource object of the document, or the fault that ends the call. */
  function BuildResource(inflector: Inflector, toStr: Value -> string, modelType: TypeDesc, model: Value)
    : Result<ResourceObject, Fault>
  {
    var idProp :- GetIdPropertyOfValue(model);
    var attributes :- Attributes(inflector, modelType, idProp, model);
    var relationships :- Relationships(inflector, toStr, modelType, idProp, model, Keys(attributes));
    var typeName := TypeName(inflector, modelType);
    if idProp.None? then Err(NullReference)
    else
      var idValue :- GetValue(idProp.value, model);
      var id :- ToText(toStr, idValue);
      Ok(ResourceObject(typeName, id, attributes, relationships))
  }

  /** `dict[key] = value` on a Dictionary<string, object>: replaces the entry for `key`, or appends one. */
  function SetEntry(d: seq<(string, Json)>, key: string, value: Json): (r: seq<(string, Json)>)
    requires UniqueKeys(d)
    ensures UniqueKeys(r)
    ensures key in Keys(d) ==> |r| == |d| && forall i :: 0 <= i < |d| ==> r[i] == if d[i].0 == key then (key, value) else d[i]
    ensures key !in Keys(d) ==> r == d + [(key, value)]
  {
    if key in Keys(d) then
      var r := seq(|d|, i requires 0 <= i < |d| => if d[i].0 == key then (key, value) else d[i]);
      assert forall i :: 0 <= i < |d| ==> r[i].0 == d[i].0;
      r
    else
      assert forall i :: 0 <= i < |d| ==> d[i].0 != key by {
        forall i | 0 <= i < |d| ensures d[i].0 != key {
          assert Keys(d)[i] == d[i].0;
        }
      }
      d + [(key, value)]
  }

  /**
   * Lines 65 and 124-129: `jsonapidict` filled one key at a time, then wrapped as
   * `new { data = jsonapidict }`.
   */
  method AssembleDocument(res: ResourceObject) returns (doc: Json)
    ensures doc == DocumentJson(res)
    ensures ReadDocument(doc) == Some(res)
  {
    var jsonapidict: seq<(string, Json)> := [];
    jsonapidict := SetEntry(jsonapidict, "type", JString(res.typeName));
    assert Keys(jsonapidict) == ["type"];
    jsonapidict := SetEntry(jsonapidict, "id", JString(res.id));
    assert Keys(jsonapidict) == ["type", "id"];
    jsonapidict := SetEntry(jsonapidict, "attributes", AttributesJson(res.attributes));
    assert Keys(jsonapidict) == ["type", "id", "attributes"];
    jsonapidict := SetEntry(jsonapidict, "relationships", RelationshipsJson(res.relationships));
    assert jsonapidict == DocumentJson(res).members[0].1.members;
    doc := JObject([("data", JObject(jsonapidict))]);
    DocumentRoundTrip(res);
  }

  /**
   * Serialize<TModel>(contentType, model, stream), up to the codec: the document
   * tree for `model`, whose static type is `modelType`. The content type is not read.
   */
  function Serialize(inflector: Inflector, toStr: Value -> string, modelType: TypeDesc, model: Value)
    : (r: Result<Json, Fault>)
    ensures r.Ok? <==> BuildResource(inflector, toStr, modelType, model).Ok?
    ensures r.Ok? ==> ReadDocument(r.value) == Some(BuildResource(inflector, toStr, modelType, model).value)
  {
    var res :- BuildResource(inflector, toStr, modelType, model);
    DocumentRoundTrip(res);
    Ok(DocumentJson(res))
  }

  // ------------------------------------------------------ properties

  /** The id property the serializer uses: the convention applied to the model's runtime type. */
  function ModelIdProperty(model: Value): Option<PropertyInfo>
    requires !model.Null?
  {
    GetIdPropertyByConvention(model.runtime)
  }

  /**
   * Lines 67, 71, 124-125: the document's type is the pluralised, kebab-cased name
   * of the static model type, and its id is the rendered value of the id property
   * of the runtime type, which must exist and not be null.
   */
  lemma ResourceTypeAndId(inflector: Inflector, toStr: Value -> string, modelType: TypeDesc, model: Value)
    requires BuildResource(inflector, toStr, modelType, model).Ok?
    ensures model.Object? && ModelIdProperty(model).Some?
    ensures var res := BuildResource(inflector, toStr, modelType, model).value;
      var name := ModelIdProperty(model).value.prop.name;
      && res.typeName == TypeName(inflector, modelType)
      && name in model.fields && model.fields[name] != Null
      && ModelIdProperty(model).value.prop.indexParameters == 0
      && ModelIdProperty(model).value.prop.hasGetter
      && res.id == toStr(model.fields[name])
  {
  }

  /**
   * Line 75 compares PropertyInfo objects: one obtained through the runtime type of
   * a model whose runtime type is not its static type matches none of the static
   * type's properties, so nothing is excluded as the id.
   */
  lemma SubtypeIdNotExcluded(modelType: TypeDesc, model: Value, p: Prop)
    requires !model.Null? && model.runtime != modelType
    ensures !IsIdProperty(modelType, ModelIdProperty(model), p)
  {
  }

  /** A null model, or one whose runtime type has no id property, cannot be serialized. */
  lemma MissingIdFails(inflector: Inflector, toStr: Value -> string, modelType: TypeDesc, model: Value)
    requires model.Null? || HasNoIdProperty(model.runtime)
    ensures BuildResource(inflector, toStr, modelType, model).Err?
  {
  }

  /** How a successful call is made up: the attributes and relationships dictionaries it built. */
  lemma BuildResourceParts(inflector: Inflector, toStr: Value -> string, modelType: TypeDesc, model: Value)
    requires BuildResource(inflector, toStr, modelType, model).Ok?
    ensures !model.Null?
    ensures var res := BuildResource(inflector, toStr, modelType, model).value;
      && Attributes(inflector, modelType, ModelIdProperty(model), model) == Ok(res.attributes)
      && Relationships(inflector, toStr, modelType, ModelIdProperty(model), model, Keys(res.attributes)) == Ok(res.relationships)
  {
    assert !model.Null?;
    var idProp := ModelIdProperty(model);
    assert GetIdPropertyOfValue(model) == Ok(idProp);
    var attributes := Attributes(inflector, modelType, idProp, model);
    assert attributes.Ok?;
    var relationships := Relationships(inflector, toStr, modelType, idProp, model, Keys(attributes.value));
    assert relationships.Ok?;
    var res := BuildResource(inflector, toStr, modelType, model).value;
    assert res.attributes == attributes.value && res.relationships == relationships.value;
  }

  lemma AttributePropertiesAreNonIdAttributes(modelType: TypeDesc, idProp: Option<PropertyInfo>)
    ensures var ps := AttributeProperties(modelType, idProp);
      forall i :: 0 <= i < |ps| ==>
        ps[i] in modelType.props && !IsIdProperty(modelType, idProp, ps[i]) && IsAttributeType(ps[i].propertyType)
    ensures forall k ::
      (0 <= k < |modelType.props| && !IsIdProperty(modelType, idProp, modelType.props[k])
       && IsAttributeType(modelType.props[k].propertyType)) ==> modelType.props[k] in AttributeProperties(modelType, idProp)
  {
  }

  /**
   * Lines 73-81: the attributes are the non-id properties of attribute type, in
   * declared order, each under its kebab name with its raw value, null included.
   */
  lemma AttributesAreRawValues(inflector: Inflector, toStr: Value -> string, modelType: TypeDesc, model: Value)
    requires BuildResource(inflector, toStr, modelType, model).Ok?
    ensures !model.Null?
    ensures var res := BuildResource(inflector, toStr, modelType, model).value;
      var ps := AttributeProperties(modelType, ModelIdProperty(model));
      && |res.attributes| == |ps|
      && DistinctKebabNames(inflector, ps)
      && forall i :: 0 <= i < |ps| ==>
        && ps[i] in modelType.props
        && !IsIdProperty(modelType, ModelIdProperty(model), ps[i])
        && IsAttributeType(ps[i].propertyType)
        && res.attributes[i] == (ToKebabCase(inflector, ps[i].name), model.fields[ps[i].name])
  {
    BuildResourceParts(inflector, toStr, modelType, model);
    AttributePropertiesAreNonIdAttributes(modelType, ModelIdProperty(model));
  }

  /** A null attribute value is kept under its key rather than dropped. */
  lemma NullAttributeKept(inflector: Inflector, toStr: Value -> string, modelType: TypeDesc, model: Value, p: Prop)
    requires BuildResource(inflector, toStr, modelType, model).Ok?
    requires model.Object? && p in AttributeProperties(modelType, ModelIdProperty(model))
    requires p.name in model.fields && model.fields[p.name] == Null
    ensures (ToKebabCase(inflector, p.name), Null) in BuildResource(inflector, toStr, modelType, model).value.attributes
  {
    AttributesAreRawValues(inflector, toStr, modelType, model);
    var ps := AttributeProperties(modelType, ModelIdProperty(model));
    var i :| 0 <= i < |ps| && ps[i] == p;
    assert BuildResource(inflector, toStr, modelType, model).value.attributes[i] == (ToKebabCase(inflector, p.name), Null);
  }

  /**
   * Line 81: GetValue(model, null) throws on an indexer and on a property without a
   * getter, so a model type with such a non-id property of attribute type can never
   * be serialized.
   */
  lemma UnreadableAttributeFails(inflector: Inflector, toStr: Value -> string, modelType: TypeDesc, model: Value, k: nat)
    requires k < |modelType.props|
    requires modelType.props[k].indexParameters > 0 || !modelType.props[k].hasGetter
    requires model.Null? || !IsIdProperty(modelType, ModelIdProperty(model), modelType.props[k])
    requires IsAttributeType(modelType.props[k].propertyType)
    ensures BuildResource(inflector, toStr, modelType, model).Err?
  {
    if !model.Null? {
      var idProp := ModelIdProperty(model);
      AttributePropertiesAreNonIdAttributes(modelType, idProp);
      var ps := AttributeProperties(modelType, idProp);
      var i :| 0 <= i < |ps| && ps[i] == modelType.props[k];
      assert !Readable(model, ps[i]);
    }
  }

  /** Two attribute properties with the same kebab name make ToDictionary throw. */
  lemma DuplicateAttributeNamesFail(inflector: Inflector, toStr: Value -> string, modelType: TypeDesc, model: Value, i: nat, j: nat)
    requires model.Object?
    requires var ps := AttributeProperties(modelType, ModelIdProperty(model));
      i < j < |ps| && ToKebabCase(inflector, ps[i].name) == ToKebabCase(inflector, ps[j].name)
    ensures BuildResource(inflector, toStr, modelType, model).Err?
  {
  }

  /**
   * A property that is not excluded by the attribute keys is a non-id property;
   * and, for the keys of the attribute properties, not of attribute type.
   */
  lemma RelationshipPropertiesAreNonIdNonAttributes(inflector: Inflector, modelType: TypeDesc, idProp: Option<PropertyInfo>,
                                                    attributes: seq<(string, Value)>)
    requires var aps := AttributeProperties(modelType, idProp);
      |attributes| == |aps| && forall m :: 0 <= m < |aps| ==> attributes[m].0 == ToKebabCase(inflector, aps[m].name)
    ensures var ps := RelationshipProperties(inflector, modelType, idProp, Keys(attributes));
      forall i :: 0 <= i < |ps| ==>
        && ps[i] in modelType.props
        && ToKebabCase(inflector, ps[i].name) !in Keys(attributes)
        && !IsIdProperty(modelType, idProp, ps[i])
        && !IsAttributeType(ps[i].propertyType)
  {
    var ps := RelationshipProperties(inflector, modelType, idProp, Keys(attributes));
    var aps := AttributeProperties(modelType, idProp);
    AttributePropertiesAreNonIdAttributes(modelType, idProp);
    forall i | 0 <= i < |ps|
      ensures ps[i] in modelType.props && ToKebabCase(inflector, ps[i].name) !in Keys(attributes)
      ensures !IsIdProperty(modelType, idProp, ps[i]) && !IsAttributeType(ps[i].propertyType)
    {
      var p := ps[i];
      assert p in modelType.props;
      assert ToKebabCase(inflector, p.name) !in Keys(attributes) && !IsIdProperty(modelType, idProp, p);
      assert forall m :: 0 <= m < |aps| ==> aps[m] != p by {
        forall m | 0 <= m < |aps| ensures aps[m] != p {
          assert Keys(attributes)[m] == ToKebabCase(inflector, aps[m].name);
        }
      }
    }
  }

  /**
   * Lines 83-120: the relationships are the remaining properties, in declared order,
   * none of them the id property or of attribute type, each rendered as the
   * linkage of its value.
   */
  lemma RelationshipsAreLinkages(inflector: Inflector, toStr: Value -> string, modelType: TypeDesc, model: Value)
    requires BuildResource(inflector, toStr, modelType, model).Ok?
    ensures !model.Null?
    ensures var res := BuildResource(inflector, toStr, modelType, model).value;
      var ps := RelationshipProperties(inflector, modelType, ModelIdProperty(model), Keys(res.attributes));
      && |res.relationships| == |ps|
      && forall i :: 0 <= i < |ps| ==>
        && ps[i] in modelType.props
        && !IsIdProperty(modelType, ModelIdProperty(model), ps[i])
        && !IsAttributeType(ps[i].propertyType)
        && res.relationships[i].0 == ToKebabCase(inflector, ps[i].name)
        && Readable(model, ps[i])
        && IsLinkageOf(inflector, toStr, ps[i].propertyType, model.fields[ps[i].name], res.relationships[i].1)
  {
    BuildResourceParts(inflector, toStr, modelType, model);
    var res := BuildResource(inflector, toStr, modelType, model).value;
    RelationshipPropertiesAreNonIdNonAttributes(inflector, modelType, ModelIdProperty(model), res.attributes);
  }

  /** An attribute key is never also a relationship key. */
  lemma AttributeAndRelationshipKeysDisjoint(inflector: Inflector, toStr: Value -> string, modelType: TypeDesc, model: Value)
    requires BuildResource(inflector, toStr, modelType, model).Ok?
    ensures var res := BuildResource(inflector, toStr, modelType, model).value;
      forall k :: k in Keys(res.attributes) ==> k !in Keys(res.relationships)
  {
    var res := BuildResource(inflector, toStr, modelType, model).value;
    var ps := RelationshipProperties(inflector, modelType, ModelIdProperty(model), Keys(res.attributes));
    RelationshipsAreLinkages(inflector, toStr, modelType, model);
    forall i | 0 <= i < |res.relationships| ensures res.relationships[i].0 !in Keys(res.attributes) {
      assert ToKebabCase(inflector, ps[i].name) !in Keys(res.attributes);
    }
  }

  /** The non-id properties of non-attribute type, in declared order. */
  function ResourceValuedProperties(modelType: TypeDesc, idProp: Option<PropertyInfo>): seq<Prop> {
    Where(modelType.props, (p: Prop) => !IsIdProperty(modelType, idProp, p) && !IsAttributeType(p.propertyType))
  }

  /** With distinct kebab names, a non-id property's key is an attribute key exactly when it is of attribute type. */
  lemma AttributeKeysClassify(inflector: Inflector, modelType: TypeDesc, idProp: Option<PropertyInfo>,
                              attributes: seq<(string, Value)>)
    requires DistinctKebabNames(inflector, modelType.props)
    requires var aps := AttributeProperties(modelType, idProp);
      |attributes| == |aps| && forall m :: 0 <= m < |aps| ==> attributes[m].0 == ToKebabCase(inflector, aps[m].name)
    ensures forall k :: 0 <= k < |modelType.props| && !IsIdProperty(modelType, idProp, modelType.props[k]) ==>
      (ToKebabCase(inflector, modelType.props[k].name) in Keys(attributes) <==> IsAttributeType(modelType.props[k].propertyType))
  {
    var aps := AttributeProperties(modelType, idProp);
    var props := modelType.props;
    AttributePropertiesAreNonIdAttributes(modelType, idProp);
    forall k | 0 <= k < |props| && !IsIdProperty(modelType, idProp, props[k])
      ensures ToKebabCase(inflector, props[k].name) in Keys(attributes) <==> IsAttributeType(props[k].propertyType)
    {
      var key := ToKebabCase(inflector, props[k].name);
      if IsAttributeType(props[k].propertyType) {
        assert props[k] in aps;
        var m :| 0 <= m < |aps| && aps[m] == props[k];
        assert Keys(attributes)[m] == key;
      } else {
        forall m | 0 <= m < |aps| ensures Keys(attributes)[m] != key {
          var k' :| 0 <= k' < |props| && props[k'] == aps[m];
          assert k' != k;
        }
      }
    }
  }

  /** With distinct kebab names, the attribute-key filter keeps exactly the non-id properties not of attribute type. */
  lemma RelationshipPropertiesExact(inflector: Inflector, modelType: TypeDesc, idProp: Option<PropertyInfo>,
                                    attributes: seq<(string, Value)>)
    requires DistinctKebabNames(inflector, modelType.props)
    requires var aps := AttributeProperties(modelType, idProp);
      |attributes| == |aps| && forall m :: 0 <= m < |aps| ==> attributes[m].0 == ToKebabCase(inflector, aps[m].name)
    ensures RelationshipProperties(inflector, modelType, idProp, Keys(attributes)) == ResourceValuedProperties(modelType, idProp)
  {
    AttributeKeysClassify(inflector, modelType, idProp, attributes);
    var attributeKeys := Keys(attributes);
    WhereAgrees(modelType.props, RelationshipFilter(inflector, modelType, idProp, attributeKeys),
      (p: Prop) => !IsIdProperty(modelType, idProp, p) && !IsAttributeType(p.propertyType));
  }

  /**
   * Lines 83-86 with distinct kebab names: the attribute-key filter removes exactly
   * the attribute properties, so every non-id property is either an attribute or a
   * relationship, and the relationships are exactly those not of attribute type.
   */
  lemma PropertiesArePartitioned(inflector: Inflector, toStr: Value -> string, modelType: TypeDesc, model: Value)
    requires BuildResource(inflector, toStr, modelType, model).Ok?
    requires DistinctKebabNames(inflector, modelType.props)
    ensures !model.Null?
    ensures var res := BuildResource(inflector, toStr, modelType, model).value;
      RelationshipProperties(inflector, modelType, ModelIdProperty(model), Keys(res.attributes))
        == ResourceValuedProperties(modelType, ModelIdProperty(model))
    ensures var res := BuildResource(inflector, toStr, modelType, model).value;
      forall k :: 0 <= k < |modelType.props| && !IsIdProperty(modelType, ModelIdProperty(model), modelType.props[k]) ==>
        var key := ToKebabCase(inflector, modelType.props[k].name);
        if IsAttributeType(modelType.props[k].propertyType) then key in Keys(res.attributes) && key !in Keys(res.relationships)
        else key in Keys(res.relationships) && key !in Keys(res.attributes)
  {
    AttributesAreRawValues(inflector, toStr, modelType, model);
    RelationshipsAreLinkages(inflector, toStr, modelType, model);
    AttributeAndRelationshipKeysDisjoint(inflector, toStr, modelType, model);
    var res := BuildResource(inflector, toStr, modelType, model).value;
    var idProp := ModelIdProperty(model);
    var props := modelType.props;
    AttributeKeysClassify(inflector, modelType, idProp, res.attributes);
    RelationshipPropertiesExact(inflector, modelType, idProp, res.attributes);
    var rps := RelationshipProperties(inflector, modelType, idProp, Keys(res.attributes));
    forall k | 0 <= k < |props| && !IsIdProperty(modelType, idProp, props[k]) && !IsAttributeType(props[k].propertyType)
      ensures ToKebabCase(inflector, props[k].name) in Keys(res.relationships)
    {
      assert props[k] in rps;
      var m :| 0 <= m < |rps| && rps[m] == props[k];
      assert Keys(res.relationships)[m] == ToKebabCase(inflector, props[k].name);
    }
  }

  /** With distinct kebab names, a property a filter rejects shares its key with none of those it keeps. */
  lemma RejectedKeyNotSelected(inflector: Inflector, props: seq<Prop>, keep: Prop -> bool, k: nat)
    requires DistinctKebabNames(inflector, props) && k < |props| && !keep(props[k])
    ensures var ws := Where(props, keep);
      forall m :: 0 <= m < |ws| ==> ToKebabCase(inflector, ws[m].name) != ToKebabCase(inflector, props[k].name)
  {
    var ws := Where(props, keep);
    forall m | 0 <= m < |ws| ensures ToKebabCase(inflector, ws[m].name) != ToKebabCase(inflector, props[k].name) {
      var k' :| 0 <= k' < |props| && props[k'] == ws[m];
      assert k' != k;
    }
  }

  /** With distinct kebab names, the id property's key is in neither dictionary. */
  lemma IdKeyNotInDictionaries(inflector: Inflector, toStr: Value -> string, modelType: TypeDesc, idProp: Option<PropertyInfo>,
                               model: Value, attributes: seq<(string, Value)>, relationships: seq<(string, Linkage)>, k: nat)
    requires DistinctKebabNames(inflector, modelType.props)
    requires k < |modelType.props| && IsIdProperty(modelType, idProp, modelType.props[k])
    requires Attributes(inflector, modelType, idProp, model) == Ok(attributes)
    requires Relationships(inflector, toStr, modelType, idProp, model, Keys(attributes)) == Ok(relationships)
    ensures var key := ToKebabCase(inflector, modelType.props[k].name);
      key !in Keys(attributes) && key !in Keys(relationships)
  {
    var key := ToKebabCase(inflector, modelType.props[k].name);
    var aps := AttributeProperties(modelType, idProp);
    RejectedKeyNotSelected(inflector, modelType.props, AttributeFilter(modelType, idProp), k);
    forall m | 0 <= m < |attributes| ensures Keys(attributes)[m] != key {
      assert Keys(attributes)[m] == ToKebabCase(inflector, aps[m].name);
    }
    var rps := RelationshipProperties(inflector, modelType, idProp, Keys(attributes));
    RejectedKeyNotSelected(inflector, modelType.props, RelationshipFilter(inflector, modelType, idProp, Keys(attributes)), k);
    forall m | 0 <= m < |relationships| ensures Keys(relationships)[m] != key {
      assert Keys(relationships)[m] == ToKebabCase(inflector, rps[m].name);
    }
  }

  /**
   * Lines 75 and 86: when the model's runtime type is its static type, the id
   * property is recognised, and (with distinct kebab names) its key is neither an
   * attribute nor a relationship key.
   */
  lemma IdPropertyNotListed(inflector: Inflector, toStr: Value -> string, modelType: TypeDesc, model: Value)
    requires BuildResource(inflector, toStr, modelType, model).Ok?
    requires !model.Null? && model.runtime == modelType
    requires DistinctKebabNames(inflector, modelType.props)
    ensures ModelIdProperty(model).Some?
    ensures var res := BuildResource(inflector, toStr, modelType, model).value;
      var key := ToKebabCase(inflector, ModelIdProperty(model).value.prop.name);
      key !in Keys(res.attributes) && key !in Keys(res.relationships)
  {
    ResourceTypeAndId(inflector, toStr, modelType, model);
    BuildResourceParts(inflector, toStr, modelType, model);
    var res := BuildResource(inflector, toStr, modelType, model).value;
    var idProp := ModelIdProperty(model);
    var props := modelType.props;
    var k :| 0 <= k < |props| && IsFirstIdAt(modelType, k) && idProp.value.prop == props[k];
    assert IsIdProperty(modelType, idProp, props[k]);
    IdKeyNotInDictionaries(inflector, toStr, modelType, idProp, model, res.attributes, res.relationships, k);
  }

  /**
   * With distinct kebab names, a successful call could read and render every
   * non-id property that is not of attribute type: one whose value is null, not a
   * collection where one is declared, or lacks a readable id makes the call fail.
   */
  lemma RelationshipValuesRenderable(inflector: Inflector, toStr: Value -> string, modelType: TypeDesc, model: Value)
    requires DistinctKebabNames(inflector, modelType.props)
    ensures BuildResource(inflector, toStr, modelType, model).Ok? ==>
      forall k ::
        (0 <= k < |modelType.props| && !IsIdProperty(modelType, ModelIdProperty(model), modelType.props[k])
         && !IsAttributeType(modelType.props[k].propertyType)) ==>
        Readable(model, modelType.props[k])
        && Renderable(modelType.props[k].propertyType, model.fields[modelType.props[k].name])
  {
    if BuildResource(inflector, toStr, modelType, model).Ok? {
      BuildResourceParts(inflector, toStr, modelType, model);
      PropertiesArePartitioned(inflector, toStr, modelType, model);
      var rps := ResourceValuedProperties(modelType, ModelIdProperty(model));
      forall k | 0 <= k < |modelType.props| && !IsIdProperty(modelType, ModelIdProperty(model), modelType.props[k])
        && !IsAttributeType(modelType.props[k].propertyType)
        ensures Readable(model, modelType.props[k])
        ensures Renderable(modelType.props[k].propertyType, model.fields[modelType.props[k].name])
      {
        assert modelType.props[k] in rps;
      }
    }
  }

  /** Lines 94-95 and 106-110: a null relationship value fails the whole call. */
  lemma NullRelationshipFails(inflector: Inflector, toStr: Value -> string, modelType: TypeDesc, model: Value, k: nat)
    requires DistinctKebabNames(inflector, modelType.props)
    requires model.Object? && k < |modelType.props|
    requires !IsIdProperty(modelType, ModelIdProperty(model), modelType.props[k])
    requires !IsAttributeType(modelType.props[k].propertyType)
    requires modelType.props[k].name in model.fields && model.fields[modelType.props[k].name] == Null
    ensures BuildResource(inflector, toStr, modelType, model).Err?
  {
    RelationshipValuesRenderable(inflector, toStr, modelType, model);
  }

  /**
   * The fault a null relationship value raises: Cast<object>() on a null collection;
   * for a single relationship, GetValue on a null target, unless the id property has
   * no getter, which GetValue refuses first.
   */
  lemma NullRelationshipFault(inflector: Inflector, toStr: Value -> string, modelType: TypeDesc, p: Prop, model: Value)
    requires Readable(model, p) && model.fields[p.name] == Null
    requires !IsAttributeType(p.propertyType)
    ensures RenderRelationship(inflector, toStr, modelType, p, model)
      == Err(
        if p.propertyType.enumerableOf.Some? then ArgumentNull
        else if GetIdPropertyByConvention(p.propertyType).Some? && !GetIdPropertyByConvention(p.propertyType).value.prop.hasGetter
        then ArgumentException
        else TargetException)
  {
  }

  /** Line 95: an empty collection gives an empty list of identifiers, not a missing key. */
  lemma EmptyCollectionIsEmptyList(inflector: Inflector, toStr: Value -> string, modelType: TypeDesc, p: Prop, model: Value)
    requires p.propertyType.enumerableOf.Some?
    requires Readable(model, p) && model.fields[p.name].Collection? && model.fields[p.name].items == []
    ensures RenderRelationship(inflector, toStr, modelType, p, model) == Ok(ToMany([]))
  {
  }
}
