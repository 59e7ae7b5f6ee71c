/**
 * The JSON:API document the serializer hands to the JSON codec, as a tree:
 * objects are ordered member lists (the insertion order of the .NET
 * dictionaries), and attribute values stay model values for the codec to
 * render. ResourceObject is the same document read back into its parts.
 */
module Document {
  import opened Wrappers
  import opened Reflection

  datatype Json =
    | JString(s: string)
    | JArray(elements: seq<Json>)
    | JObject(members: seq<(string, Json)>)
    | JValue(v: Value)

  /** A resource identifier object: `{"type": ..., "id": ...}`. */
  datatype ResourceIdentifier = ResourceIdentifier(typeName: string, id: string)

  /** The resource linkage under a relationship's "data": one identifier or a list of them. */
  datatype Linkage = ToOne(target: ResourceIdentifier) | ToMany(targets: seq<ResourceIdentifier>)

  /** The primary data of the document: a resource object. */
  datatype ResourceObject = ResourceObject(
    typeName: string,
    id: string,
    attributes: seq<(string, Value)>,
    relationships: seq<(string, Linkage)>)

  // ------------------------------------------------------------ writing

  function IdentifierJson(r: ResourceIdentifier): Json {
    JObject([("type", JString(r.typeName)), ("id", JString(r.id))])
  }

  /** Every relationship value is wrapped as `{"data": ...}`. */
  function LinkageJson(l: Linkage): Json {
    var data := match l
      case ToOne(r) => IdentifierJson(r)
      case ToMany(rs) => JArray(seq(|rs|, i requires 0 <= i < |rs| => IdentifierJson(rs[i])));
    JObject([("data", data)])
  }

  function AttributesJson(attributes: seq<(string, Value)>): Json {
    JObject(seq(|attributes|, i requires 0 <= i < |attributes| => (attributes[i].0, JValue(attributes[i].1))))
  }

  function RelationshipsJson(relationships: seq<(string, Linkage)>): Json {
    JObject(seq(|relationships|, i requires 0 <= i < |relationships| =>
      (relationships[i].0, LinkageJson(relationships[i].1))))
  }

  /** `new { data = jsonapidict }` with the keys type, id, attributes, relationships in that order. */
  function DocumentJson(res: ResourceObject): Json {
    JObject([("data", JObject([
      ("type", JString(res.typeName)),
      ("id", JString(res.id)),
      ("attributes", AttributesJson(res.attributes)),
      ("relationships", RelationshipsJson(res.relationships))]))])
  }

  // ------------------------------------------------------------ reading

  function ReadIdentifier(j: Json): Option<ResourceIdentifier> {
    if j.JObject? && |j.members| == 2
      && j.members[0].0 == "type" && j.members[0].1.JString?
      && j.members[1].0 == "id" && j.members[1].1.JString?
    then Some(ResourceIdentifier(j.members[0].1.s, j.members[1].1.s))
    else None
  }

  function ReadLinkage(j: Json): Option<Linkage> {
    if !(j.JObject? && |j.members| == 1 && j.members[0].0 == "data") then None
    else
      var data := j.members[0].1;
      if data.JArray? then
        var es := data.elements;
        if forall i :: 0 <= i < |es| ==> ReadIdentifier(es[i]).Some? then
          Some(ToMany(seq(|es|, i requires 0 <= i < |es| && ReadIdentifier(es[i]).Some? => ReadIdentifier(es[i]).value)))
        else None
      else
        match ReadIdentifier(data)
        case None => None
        case Some(r) => Some(ToOne(r))
  }

  function ReadAttributes(j: Json): Option<seq<(string, Value)>> {
    if j.JObject? && forall i :: 0 <= i < |j.members| ==> j.members[i].1.JValue? then
      Some(seq(|j.members|, i requires 0 <= i < |j.members| && j.members[i].1.JValue? =>
        (j.members[i].0, j.members[i].1.v)))
    else None
  }

  function ReadRelationships(j: Json): Option<seq<(string, Linkage)>> {
    if j.JObject? && forall i :: 0 <= i < |j.members| ==> ReadLinkage(j.members[i].1).Some? then
      Some(seq(|j.members|, i requires 0 <= i < |j.members| && ReadLinkage(j.members[i].1).Some? =>
        (j.members[i].0, ReadLinkage(j.members[i].1).value)))
    else None
  }

  /** Reads a document of exactly the shape DocumentJson writes. */
  function ReadDocument(j: Json): Option<ResourceObject> {
    if !(j.JObject? && |j.members| == 1 && j.members[0].0 == "data") then None
    else
      var data := j.members[0].1;
      if !(data.JObject? && |data.members| == 4) then None
      else
        var ms := data.members;
        if !(ms[0].0 == "type" && ms[0].1.JString? && ms[1].0 == "id" && ms[1].1.JString?
             && ms[2].0 == "attributes" && ms[3].0 == "relationships") then None
        else
          match (ReadAttributes(ms[2].1), ReadRelationships(ms[3].1))
          case (Some(a), Some(r)) => Some(ResourceObject(ms[0].1.s, ms[1].1.s, a, r))
          case _ => None
  }

  // ------------------------------------------------------------ round trip

  lemma {:induction false} LinkageRoundTrip(l: Linkage)
    ensures ReadLinkage(LinkageJson(l)) == Some(l)
  {
    match l
    case ToOne(r) =>
    case ToMany(rs) =>
      var es := LinkageJson(l).members[0].1.elements;
      assert forall i :: 0 <= i < |es| ==> ReadIdentifier(es[i]) == Some(rs[i]);
      assert ReadLinkage(LinkageJson(l)).value.targets == rs;
  }

  /** Nothing is lost in the tree: reading the document gives back the resource object. */
  lemma {:induction false} DocumentRoundTrip(res: ResourceObject)
    ensures ReadDocument(DocumentJson(res)) == Some(res)
  {
    var rels := RelationshipsJson(res.relationships).members;
    forall i | 0 <= i < |rels| ensures ReadLinkage(rels[i].1) == Some(res.relationships[i].1) {
      LinkageRoundTrip(res.relationships[i].1);
    }
    assert ReadRelationships(RelationshipsJson(res.relationships)).value == res.relationships;
    assert ReadAttributes(AttributesJson(res.attributes)).value == res.attributes;
  }

  lemma {:induction false} LinkageReadBack(j: Json, l: Linkage)
    requires ReadLinkage(j) == Some(l)
    ensures LinkageJson(l) == j
  {
    var data := j.members[0].1;
    if data.JArray? {
      var es := data.elements;
      forall i | 0 <= i < |es| ensures IdentifierJson(l.targets[i]) == es[i] {
        var e := es[i];
        assert e.members == [e.members[0], e.members[1]];
      }
      assert LinkageJson(l).members[0].1.elements == es;
      assert j.members == [("data", data)];
    } else {
      assert data.members == [data.members[0], data.members[1]];
      assert j.members == [("data", data)];
    }
  }

  /** And every tree the reader accepts is the one written for what it read. */
  lemma {:induction false} DocumentReadBack(j: Json, res: ResourceObject)
    requires ReadDocument(j) == Some(res)
    ensures DocumentJson(res) == j
  {
    var data := j.members[0].1;
    var ms := data.members;
    var rels := ms[3].1.members;
    forall i | 0 <= i < |rels| ensures LinkageJson(res.relationships[i].1) == rels[i].1 {
      LinkageReadBack(rels[i].1, res.relationships[i].1);
    }
    assert RelationshipsJson(res.relationships) == ms[3].1;
    assert AttributesJson(res.attributes) == ms[2].1;
    assert ms == [ms[0], ms[1], ms[2], ms[3]];
    assert j.members == [("data", data)];
  }

  /** The top-level layout: one "data" member holding type, id, attributes, relationships in that order. */
  lemma DocumentLayout(res: ResourceObject)
    ensures var j := DocumentJson(res);
      && |j.members| == 1 && j.members[0].0 == "data"
      && var ms := j.members[0].1.members;
      && |ms| == 4
      && ms[0] == ("type", JString(res.typeName)) && ms[1] == ("id", JString(res.id))
      && ms[2].0 == "attributes" && ms[3].0 == "relationships"
  {
  }
}
