/**
 * Helpers.cs: the content-type test, kebab-casing and the naming convention
 * that finds a type's id property.
 */
module Helpers {
  import opened Wrappers
  import opened Reflection

  /** The one media type the serializer accepts, compared without regard to case. */
  const JsonApiMediaType: string := "application/vnd.api+json"

  /**
   * Humanizer's string transforms, which the model does not interpret:
   * `pluralize` is String.Pluralize(), `humanizeLower` is
   * String.Humanize(LetterCasing.LowerCase).
   */
  datatype Inflector = Inflector(pluralize: string -> string, humanizeLower: string -> string)

  // ---------------------------------------------------------------- strings

  /** `s.Split(sep)[0]`: the text before the first `sep`, or all of `s`. */
  function FirstSegment(s: string, sep: char): (r: string)
    ensures |r| <= |s| && r == s[..|r|]
    ensures sep !in r
    ensures |r| < |s| ==> s[|r|] == sep
  {
    if s == [] || s[0] == sep then []
    else [s[0]] + FirstSegment(s[1..], sep)
  }

  /** `s.Split(sep).Last()`: the text after the last `sep`, or all of `s`. */
  function LastSegment(s: string, sep: char): string {
    if s == [] || s[|s| - 1] == sep then []
    else LastSegment(s[..|s| - 1], sep) + [s[|s| - 1]]
  }

  /** LastSegment is the suffix of `s` that holds no `sep` and is preceded by one, or all of `s`. */
  lemma {:induction false} LastSegmentIsLastPart(s: string, sep: char)
    ensures var r := LastSegment(s, sep);
      && |r| <= |s| && r == s[|s| - |r|..]
      && sep !in r
      && (|r| < |s| ==> s[|s| - |r| - 1] == sep)
  {
    if s != [] && s[|s| - 1] != sep {
      var init := s[..|s| - 1];
      var c := s[|s| - 1];
      LastSegmentIsLastPart(init, sep);
      var r0 := LastSegment(init, sep);
      assert LastSegment(s, sep) == r0 + [c];
      assert s[|s| - |r0| - 1..] == init[|init| - |r0|..] + [c];
      if |r0| < |init| {
        assert s[|s| - |r0| - 2] == init[|init| - |r0| - 1];
      }
    }
  }

  /** `s.Replace(from, to)` for single characters. */
  function ReplaceChar(s: string, from: char, to: char): (r: string)
    ensures |r| == |s|
    ensures forall i :: 0 <= i < |s| ==> r[i] == if s[i] == from then to else s[i]
  {
    if s == [] then []
    else [if s[0] == from then to else s[0]] + ReplaceChar(s[1..], from, to)
  }

  function LowerAscii(c: char): char {
    if 'A' <= c <= 'Z' then (c as int + 32) as char else c
  }

  function ToLowerAscii(s: string): string {
    seq(|s|, i requires 0 <= i < |s| => LowerAscii(s[i]))
  }

  /** String.Equals(a, b, InvariantCultureIgnoreCase), restricted to ASCII case folding. */
  predicate EqualsIgnoreCase(a: string, b: string) {
    ToLowerAscii(a) == ToLowerAscii(b)
  }

  // ------------------------------------------------------------ IsJsonType

  /**
   * Helpers.IsJsonType: a null or empty content type is refused; otherwise the
   * part before the first ';' must equal the JSON:API media type ignoring case.
   * No whitespace is trimmed. `None` stands for a null string.
   */
  function IsJsonType(contentType: Option<string>): bool {
    if contentType.None? || contentType.value == [] then false
    else EqualsIgnoreCase(FirstSegment(contentType.value, ';'), JsonApiMediaType)
  }

  /** The prefix before the first separator is the only prefix free of it that ends at one. */
  lemma {:induction false} FirstSegmentUnique(s: string, sep: char, k: nat)
    requires k <= |s| && sep !in s[..k] && (k == |s| || s[k] == sep)
    ensures FirstSegment(s, sep) == s[..k]
  {
    var r := FirstSegment(s, sep);
    assert forall i :: 0 <= i < k ==> s[..k][i] == s[i];
    assert forall i :: 0 <= i < |r| ==> r[i] == s[i];
  }

  lemma LowerAsciiKeepsSemicolon(s: string)
    ensures |ToLowerAscii(s)| == |s|
    ensures forall i :: 0 <= i < |s| ==> (ToLowerAscii(s)[i] == ';' <==> s[i] == ';')
  {
  }

  /**
   * An independent reading of IsJsonType: the content type starts with the
   * 24 characters of the media type, in any ASCII case, followed by nothing
   * or by a ';'.
   */
  lemma {:induction false} IsJsonTypeIff(s: string)
    ensures IsJsonType(Some(s)) <==>
      |s| >= |JsonApiMediaType|
      && ToLowerAscii(s[..|JsonApiMediaType|]) == JsonApiMediaType
      && (|s| == |JsonApiMediaType| || s[|JsonApiMediaType|] == ';')
  {
    var n := |JsonApiMediaType|;
    assert ToLowerAscii(JsonApiMediaType) == JsonApiMediaType;
    assert ';' !in JsonApiMediaType;
    var r := FirstSegment(s, ';');
    if IsJsonType(Some(s)) {
      LowerAsciiKeepsSemicolon(r);
      assert |r| == n;
      assert s[..n] == r;
    }
    if |s| >= n && ToLowerAscii(s[..n]) == JsonApiMediaType && (|s| == n || s[n] == ';') {
      LowerAsciiKeepsSemicolon(s[..n]);
      assert ';' !in s[..n] by {
        forall i | 0 <= i < n ensures s[..n][i] != ';' {
          assert ToLowerAscii(s[..n])[i] == JsonApiMediaType[i];
        }
      }
      FirstSegmentUnique(s, ';', n);
    }
  }

  /** Null and empty content types are refused. */
  lemma NullOrEmptyIsNotJson()
    ensures !IsJsonType(None) && !IsJsonType(Some(""))
  {
  }

  /** Parameters after the first ';' never change the answer. */
  lemma {:induction false} ParametersIgnored(s: string, parameters: string)
    requires ';' !in s
    ensures IsJsonType(Some(s + ";" + parameters)) == IsJsonType(Some(s))
  {
    var t := s + ";" + parameters;
    assert t[..|s|] == s;
    FirstSegmentUnique(t, ';', |s|);
    if s != [] {
      FirstSegmentUnique(s, ';', |s|);
      assert s[..|s|] == s;
    }
  }

  /** The media type itself, in lower case, is accepted. */
  lemma AcceptsMediaType()
    ensures IsJsonType(Some("application/vnd.api+json"))
  {
    assert ToLowerAscii(JsonApiMediaType) == JsonApiMediaType;
    FirstSegmentUnique(JsonApiMediaType, ';', |JsonApiMediaType|);
    assert JsonApiMediaType[..|JsonApiMediaType|] == JsonApiMediaType;
  }

  /** Case does not matter. */
  lemma AcceptsUpperCase()
    ensures IsJsonType(Some("APPLICATION/VND.API+JSON"))
  {
    var upper := "APPLICATION/VND.API+JSON";
    UpperCaseMediaTypeFolds();
    assert upper[..|JsonApiMediaType|] == upper;
    IsJsonTypeIff(upper);
  }

  lemma UpperCaseMediaTypeFolds()
    ensures ToLowerAscii("APPLICATION/VND.API+JSON") == JsonApiMediaType
  {
  }

  /** A charset parameter does not matter. */
  lemma AcceptsCharsetParameter()
    ensures IsJsonType(Some("application/vnd.api+json; charset=utf-8"))
  {
    var s := "application/vnd.api+json; charset=utf-8";
    assert s[..|JsonApiMediaType|] == JsonApiMediaType;
    assert ToLowerAscii(JsonApiMediaType) == JsonApiMediaType;
    IsJsonTypeIff(s);
  }

  /** Plain JSON and a media type followed by a space are refused: nothing is trimmed. */
  lemma RefusedContentTypes()
    ensures !IsJsonType(Some("application/json"))
    ensures !IsJsonType(Some("application/vnd.api+json "))
  {
    IsJsonTypeIff("application/json");
    IsJsonTypeIff("application/vnd.api+json ");
  }

  // ---------------------------------------------------------- ToKebabCase

  /** Helpers.ToKebabCase: humanize to lower case, then every space becomes '-'. */
  function ToKebabCase(inflector: Inflector, s: string): string {
    ReplaceChar(inflector.humanizeLower(s), ' ', '-')
  }

  /** A kebab-cased name holds no space, and differs from the humanized text only where it had spaces. */
  lemma KebabCaseHasNoSpace(inflector: Inflector, s: string)
    ensures ' ' !in ToKebabCase(inflector, s)
    ensures |ToKebabCase(inflector, s)| == |inflector.humanizeLower(s)|
    ensures forall i :: 0 <= i < |ToKebabCase(inflector, s)| && inflector.humanizeLower(s)[i] != ' ' ==>
      ToKebabCase(inflector, s)[i] == inflector.humanizeLower(s)[i]
  {
    var r := ToKebabCase(inflector, s);
    assert forall i :: 0 <= i < |r| ==> r[i] != ' ';
  }

  // ------------------------------------------------ GetIdPropertyByConvention

  /** `type.FullName.Split('.').Last()`. */
  function SimpleName(t: TypeDesc): string {
    LastSegment(t.fullName, '.')
  }

  /** A suffix free of `sep` that is all of `s` or preceded by `sep` is what LastSegment returns. */
  lemma {:induction false} LastSegmentUnique(s: string, sep: char, k: nat)
    requires k <= |s| && sep !in s[|s| - k..] && (k == |s| || s[|s| - k - 1] == sep)
    ensures LastSegment(s, sep) == s[|s| - k..]
  {
    LastSegmentIsLastPart(s, sep);
    var r := LastSegment(s, sep);
    assert forall i :: |s| - k <= i < |s| ==> s[|s| - k..][i - (|s| - k)] == s[i];
    assert forall i :: |s| - |r| <= i < |s| ==> r[i - (|s| - |r|)] == s[i];
  }

  /** The two names the convention accepts for the id of a type with simple name `simpleName`. */
  predicate IsIdName(name: string, simpleName: string) {
    name == "Id" || name == simpleName + "Id"
  }

  /** No property of `t` has either id name. */
  predicate HasNoIdProperty(t: TypeDesc) {
    forall i :: 0 <= i < |t.props| ==> !IsIdName(t.props[i].name, SimpleName(t))
  }

  /** Property `i` of `t` has an id name and no property declared before it has one. */
  predicate IsFirstIdAt(t: TypeDesc, i: nat) {
    && i < |t.props|
    && IsIdName(t.props[i].name, SimpleName(t))
    && forall j :: 0 <= j < i ==> !IsIdName(t.props[j].name, SimpleName(t))
  }

  /** Position of the first property with an id name, if any. */
  function FirstIdIndex(props: seq<Prop>, simpleName: string): (r: Option<nat>)
    ensures r.Some? ==> r.value < |props| && IsIdName(props[r.value].name, simpleName)
    ensures r.Some? ==> forall j :: 0 <= j < r.value ==> !IsIdName(props[j].name, simpleName)
    ensures r.None? <==> forall j :: 0 <= j < |props| ==> !IsIdName(props[j].name, simpleName)
  {
    if props == [] then None
    else if IsIdName(props[0].name, simpleName) then Some(0)
    else match FirstIdIndex(props[1..], simpleName)
      case None => None
      case Some(i) => Some(i + 1)
  }

  /**
   * GetIdPropertyByConvention(Type): the first declared property named `Id` or
   * `<SimpleName>Id`, neither name preferred over the other.
   */
  function GetIdPropertyByConvention(t: TypeDesc): (r: Option<PropertyInfo>)
    ensures r.None? <==> HasNoIdProperty(t)
    ensures r.Some? ==> r.value.reflectedType == t
    ensures r.Some? ==> exists i :: 0 <= i < |t.props| && IsFirstIdAt(t, i) && r.value.prop == t.props[i]
  {
    var idx := FirstIdIndex(t.props, SimpleName(t));
    if idx.None? then None
    else
      assert IsFirstIdAt(t, idx.value);
      assert !HasNoIdProperty(t);
      Some(PropertyInfo(t, t.props[idx.value]))
  }

  /**
   * GetIdPropertyByConvention(object) and its generic twin: the convention applied
   * to the value's runtime type; a null receiver fails in GetType().
   */
  function GetIdPropertyOfValue(model: Value): (r: Result<Option<PropertyInfo>, Fault>)
    ensures r.Err? <==> model.Null?
    ensures r.Ok? ==> r.value == GetIdPropertyByConvention(model.runtime)
  {
    if model.Null? then Err(NullReference) else Ok(GetIdPropertyByConvention(model.runtime))
  }

  /** A `<SimpleName>Id` declared before `Id` wins. */
  lemma FirstDeclaredIdWins()
    ensures
      var int32 := TypeDesc("Int32", "System.Int32", true, [], None);
      var thing := TypeDesc("Thing", "Shop.Model.Thing", false,
                            [Prop("Name", int32), Prop("ThingId", int32), Prop("Id", int32)], None);
      GetIdPropertyByConvention(thing) == Some(PropertyInfo(thing, Prop("ThingId", int32)))
  {
    var int32 := TypeDesc("Int32", "System.Int32", true, [], None);
    var thing := TypeDesc("Thing", "Shop.Model.Thing", false,
                          [Prop("Name", int32), Prop("ThingId", int32), Prop("Id", int32)], None);
    LastSegmentUnique(thing.fullName, '.', 5);
    assert SimpleName(thing) == "Thing";
  }
}
