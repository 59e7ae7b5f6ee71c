/**
 * The parts of .NET reflection the serializer relies on, as explicit data:
 * a type descriptor in place of System.Type, a property descriptor in place
 * of PropertyInfo, object values with their runtime type, and the
 * exceptions that reading a property or calling ToString() can raise.
 */
module Reflection {
  import opened Wrappers

  /**
   * A type as reflection shows it.
   *  - name:          Type.Name (no namespace)
   *  - fullName:      Type.FullName
   *  - isValueType:   Type.IsValueType (structs, enums, primitives)
   *  - props:         Type.GetProperties(), in declared order
   *  - enumerableOf:  the T of the first IEnumerable<T> among Type.GetInterfaces();
   *                   None when the type implements no such interface. A type that
   *                   IS the interface IEnumerable<T> does not list itself among its
   *                   interfaces, so it has None here too.
   */
  datatype TypeDesc = TypeDesc(
    name: string,
    fullName: string,
    isValueType: bool,
    props: seq<Prop>,
    enumerableOf: Option<TypeDesc>)

  /**
   * A declared property: its name, its declared (static) type, the number of its
   * index parameters (PropertyInfo.GetIndexParameters()) and whether it has a public
   * getter. An indexer, such as String.Chars, has at least one index parameter; a
   * write-only property (`set` without `get`) has no getter.
   */
  datatype Prop = Prop(name: string, propertyType: TypeDesc, indexParameters: nat := 0, hasGetter: bool := true)

  /**
   * A PropertyInfo obtained from `reflectedType.GetProperties()`. Two of them are
   * the same object only when they were obtained through the same type, which is
   * why the reflected type is part of the identity.
   */
  datatype PropertyInfo = PropertyInfo(reflectedType: TypeDesc, prop: Prop)

  /**
   * A runtime value. Every non-null value knows its runtime type; an object maps
   * property names to values, a collection lists what enumerating it yields.
   */
  datatype Value =
    | Null
    | Scalar(runtime: TypeDesc, text: string)
    | Object(runtime: TypeDesc, fields: map<string, Value>)
    | Collection(runtime: TypeDesc, items: seq<Value>)

  /** The exceptions the serializer can raise. */
  datatype Fault =
    | NullReference          // member access on null (GetType(), ToString(), a null PropertyInfo)
    | TargetException        // PropertyInfo.GetValue on null or on an object without that property
    | ArgumentNull           // Enumerable.Cast over a null collection
    | TargetParameterCount   // PropertyInfo.GetValue(target, null) on an indexer
    | ArgumentException      // PropertyInfo.GetValue on a property without a getter
    | InvalidCast            // (IEnumerable) cast of a value that is not a collection
    | DuplicateKey(key: string)  // Dictionary.Add / ToDictionary with a key already present

  /** `v` is an object that holds a value for the property called `name`. */
  predicate HasField(v: Value, name: string) {
    v.Object? && name in v.fields
  }

  /** `p` is an ordinary readable property that `v` holds, so GetValue(v, null) can read it. */
  predicate Readable(v: Value, p: Prop) {
    p.hasGetter && p.indexParameters == 0 && HasField(v, p.name)
  }

  /**
   * PropertyInfo.GetValue(target, null): a property without a getter is refused
   * before anything else (ArgumentException); then the target is checked (a null
   * target, or one without the property, is a TargetException); then the argument
   * count (an indexer needs its index arguments, and none are given).
   */
  function GetValue(p: PropertyInfo, target: Value): (r: Result<Value, Fault>)
    ensures r.Ok? <==> Readable(target, p.prop)
    ensures r.Ok? ==> r.value == target.fields[p.prop.name]
    ensures r.Err? ==>
              r.error == if !p.prop.hasGetter then ArgumentException
                         else if HasField(target, p.prop.name) then TargetParameterCount
                         else TargetException
  {
    if !p.prop.hasGetter then Err(ArgumentException)
    else if target.Object? && p.prop.name in target.fields then
      if p.prop.indexParameters == 0 then Ok(target.fields[p.prop.name]) else Err(TargetParameterCount)
    else Err(TargetException)
  }

  /** `v.ToString()`, with the culture-dependent formatting left to `toStr`. */
  function ToText(toStr: Value -> string, v: Value): Result<string, Fault> {
    if v.Null? then Err(NullReference) else Ok(toStr(v))
  }
}
