/**
 * Discriminator resolution, as both deserialization navigators do it (their
 * `resolveMetadata` bodies are the same): when the metadata of a
 * polymorphic base class is requested, the concrete class is chosen by the
 * value of the discriminator field in the input data.
 */
module Discriminator {
  import opened Types
  import opened Collaborators

  /**
   * The discriminator value in the input: an array key, or an attribute of
   * an object, that is set and not null (PHP's `isset`), cast to a string.
   */
  function DiscriminatorValue(env: Env, data: Value, field: string): (r: Option<string>)
    ensures data.Arr? ==>
      (r.Some? <==> ArrayGet(data.entries, Str(field)).Some? && ArrayGet(data.entries, Str(field)).value != Null)
    ensures data.Arr? && r.Some? ==> r.value == env.castString(ArrayGet(data.entries, Str(field)).value)
    ensures data.Obj? ==> (r.Some? <==> field in data.attrs && data.attrs[field] != Null)
    ensures data.Obj? && r.Some? ==> r.value == env.castString(data.attrs[field])
    ensures !data.Arr? && !data.Obj? ==> r.None?
  {
    match data
    case Arr(entries) =>
      (match ArrayGet(entries, Str(field))
       case Some(v) => if v != Null then Some(env.castString(v)) else None
       case None => None)
    case Obj(_, _, attrs) =>
      if field in attrs && attrs[field] != Null then Some(env.castString(attrs[field])) else None
    case _ => None
  }

  /** Resolution applies only to a non-empty map requested under the base class name. */
  predicate NeedsResolution(t: Type, m: ClassMetadata) {
    |m.discriminatorMap| > 0 && t.name == m.discriminatorBaseClass
  }

  /**
   * `resolveMetadata`: a missing field and a value the map does not know
   * are errors (the latter listing the known values); otherwise the
   * metadata of the class the value maps to.
   */
  function ResolveMetadata(env: Env, data: Value, m: ClassMetadata): (r: Result<ClassMetadata>)
    ensures DiscriminatorValue(env, data, m.discriminatorFieldName).None? <==>
      r == Err(DiscriminatorFieldNotFound(m.discriminatorFieldName, m.name))
    ensures var v := DiscriminatorValue(env, data, m.discriminatorFieldName);
      v.Some? && v.value !in m.discriminatorMap <==>
      r == Err(UnknownDiscriminatorValue(v.GetOr(""), m.name, m.discriminatorMap.Keys))
    ensures r.Ok? <==> var v := DiscriminatorValue(env, data, m.discriminatorFieldName);
      v.Some? && v.value in m.discriminatorMap
    ensures r.Ok? ==> r.value == env.metadata(m.discriminatorMap[DiscriminatorValue(env, data, m.discriminatorFieldName).value])
  {
    match DiscriminatorValue(env, data, m.discriminatorFieldName)
    case None => Err(DiscriminatorFieldNotFound(m.discriminatorFieldName, m.name))
    case Some(v) =>
      if v !in m.discriminatorMap then Err(UnknownDiscriminatorValue(v, m.name, m.discriminatorMap.Keys))
      else Ok(env.metadata(m.discriminatorMap[v]))
  }

  /**
   * The deserializers' metadata step: the factory's metadata for the type
   * name, replaced by the resolved class's when resolution applies; with
   * the metadata loads made, in order.
   */
  function LoadMetadata(env: Env, data: Value, t: Type): (r: (Result<ClassMetadata>, seq<Call>))
    ensures r.1 != [] && r.1[0] == MetadataLoad(t.name)
    ensures !NeedsResolution(t, env.metadata(t.name)) ==> r == (Ok(env.metadata(t.name)), [MetadataLoad(t.name)])
    ensures NeedsResolution(t, env.metadata(t.name)) ==> r.0 == ResolveMetadata(env, data, env.metadata(t.name))
    ensures forall c :: c in r.1 ==> c.MetadataLoad?
  {
    var m := env.metadata(t.name);
    if NeedsResolution(t, m) then
      var resolved := ResolveMetadata(env, data, m);
      if resolved.Ok? then
        var v := DiscriminatorValue(env, data, m.discriminatorFieldName).value;
        (resolved, [MetadataLoad(t.name), MetadataLoad(m.discriminatorMap[v])])
      else (resolved, [MetadataLoad(t.name)])
    else (Ok(m), [MetadataLoad(t.name)])
  }

  /**
   * The two cases of the `switch` agree: an array key and an object
   * attribute holding the same value resolve to the same class, or fail
   * with the same error.
   */
  lemma ArrayAndObjectFieldsAgree(env: Env, m: ClassMetadata, entries: seq<(Value, Value)>, obj: nat, cls: string, attrs: map<string, Value>)
    requires m.discriminatorFieldName in attrs
    requires ArrayGet(entries, Str(m.discriminatorFieldName)) == Some(attrs[m.discriminatorFieldName])
    ensures ResolveMetadata(env, Arr(entries), m) == ResolveMetadata(env, Obj(obj, cls, attrs), m)
  {
    assert DiscriminatorValue(env, Arr(entries), m.discriminatorFieldName)
      == DiscriminatorValue(env, Obj(obj, cls, attrs), m.discriminatorFieldName);
  }

  /** A field that is present but null counts as missing (`isset`), for arrays and objects alike. */
  lemma NullFieldIsMissing(env: Env, m: ClassMetadata, data: Value)
    requires data.Arr? ==> ArrayGet(data.entries, Str(m.discriminatorFieldName)) == Some(Null)
    requires data.Obj? ==> m.discriminatorFieldName in data.attrs && data.attrs[m.discriminatorFieldName] == Null
    ensures ResolveMetadata(env, data, m) == Err(DiscriminatorFieldNotFound(m.discriminatorFieldName, m.name))
  {
  }
}
