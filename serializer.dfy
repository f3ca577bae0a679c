/**
 * The serializer facade: visitor lookup by format, the choice between the
 * visitor's and the navigator's result after deserialization, the
 * `ArrayObject` flattening of `toArray` and its array check, and the
 * default context.
 */
module Serializer {
  import opened Types
  import opened TraversalContext

  /**
   * `callVisitor`: the callback's outcome on the visitor configured for the
   * format, or an unsupported-format error naming the format and direction.
   */
  function CallVisitor<V>(visitors: map<string, V>, format: string, direction: string, callback: V -> Result<Value>): (r: Result<Value>)
    ensures format !in visitors ==> r == Err(UnsupportedFormat(format, direction))
    ensures format in visitors ==> r == callback(visitors[format])
  {
    if format !in visitors then Err(UnsupportedFormat(format, direction))
    else callback(visitors[format])
  }

  /** A callback that never reports an unsupported format fails with one exactly when no visitor is configured. */
  lemma UnsupportedExactlyWithoutVisitor<V>(visitors: map<string, V>, format: string, direction: string, callback: V -> Result<Value>)
    requires forall v :: !(callback(v).Err? && callback(v).error.UnsupportedFormat?)
    ensures var r := CallVisitor(visitors, format, direction, callback);
      (r.Err? && r.error.UnsupportedFormat?) <==> format !in visitors
  {
  }

  /**
   * `handleDeserializeResult`: the navigator's result when the visitor
   * produced none (the root was built by a callback), else the visitor's.
   */
  function HandleDeserializeResult(visitorResult: Value, navigatorResult: Value): (r: Value)
    ensures visitorResult == Null && navigatorResult != Null ==> r == navigatorResult
    ensures !(visitorResult == Null && navigatorResult != Null) ==> r == visitorResult
  {
    if visitorResult == Null && navigatorResult != Null then navigatorResult else visitorResult
  }

  /** The result is null only when both are, and a non-null visitor result always wins. */
  lemma DeserializeResultIsNullOnlyWhenBothAre(visitorResult: Value, navigatorResult: Value)
    ensures HandleDeserializeResult(visitorResult, navigatorResult) == Null <==> visitorResult == Null && navigatorResult == Null
    ensures visitorResult != Null ==> HandleDeserializeResult(visitorResult, navigatorResult) == visitorResult
  {
  }

  /**
   * `deserialize` after the visitor lookup: `run` stands for preparing the
   * data and visiting it, and yields the visitor's result and the
   * navigator's, or the error the traversal raised.
   */
  function Deserialize<V>(visitors: map<string, V>, format: string, run: V -> Result<(Value, Value)>): (r: Result<Value>)
    ensures format !in visitors ==> r == Err(UnsupportedFormat(format, Deserialization))
    ensures format in visitors && run(visitors[format]).Err? ==> r == Err(run(visitors[format]).error)
    ensures format in visitors && run(visitors[format]).Ok? ==>
      r == Ok(HandleDeserializeResult(run(visitors[format]).value.0, run(visitors[format]).value.1))
  {
    CallVisitor(visitors, format, Deserialization,
      v => match run(v)
           case Err(e) => Err(e)
           case Ok(results) => Ok(HandleDeserializeResult(results.0, results.1)))
  }

  /** The values `convertArrayObjects` walks: arrays, with `ArrayObject`s turned into arrays. */
  function Flatten(v: Value): (r: Value)
    decreases v
    ensures v.Arr? || v.ArrayObj? <==> r.Arr?
    ensures !v.Arr? && !v.ArrayObj? ==> r == v
  {
    match v
    case ArrayObj(items) => Arr(seq(|items|, i requires 0 <= i < |items| => (items[i].0, Flatten(items[i].1))))
    case Arr(entries) => Arr(seq(|entries|, i requires 0 <= i < |entries| => (entries[i].0, Flatten(entries[i].1))))
    case _ => v
  }

  /** The entries of an array or `ArrayObject`. */
  function EntriesOf(v: Value): seq<(Value, Value)>
    requires v.Arr? || v.ArrayObj?
  {
    if v.Arr? then v.entries else v.items
  }

  /** Flattening keeps every key, in order, and flattens each value in place. */
  lemma FlattenKeepsKeys(v: Value, i: nat)
    requires v.Arr? || v.ArrayObj?
    requires i < |EntriesOf(v)|
    ensures |Flatten(v).entries| == |EntriesOf(v)|
    ensures Flatten(v).entries[i] == (EntriesOf(v)[i].0, Flatten(EntriesOf(v)[i].1))
  {
  }

  /** An array tree without `ArrayObject`s (objects are not descended into). */
  predicate PlainArrays(v: Value)
    decreases v
  {
    match v
    case ArrayObj(_) => false
    case Arr(entries) => forall i :: 0 <= i < |entries| ==> PlainArrays(entries[i].1)
    case _ => true
  }

  /** No `ArrayObject` is left anywhere in the array tree. */
  lemma {:induction false} FlattenLeavesPlainArrays(v: Value)
    decreases v
    ensures PlainArrays(Flatten(v))
  {
    match v
    case ArrayObj(items) =>
      forall i | 0 <= i < |items| ensures PlainArrays(Flatten(v).entries[i].1) {
        FlattenLeavesPlainArrays(items[i].1);
      }
    case Arr(entries) =>
      forall i | 0 <= i < |entries| ensures PlainArrays(Flatten(v).entries[i].1) {
        FlattenLeavesPlainArrays(entries[i].1);
      }
    case _ =>
  }

  /** Plain arrays are left as they are. */
  lemma {:induction false} FlattenFixesPlainArrays(v: Value)
    decreases v
    requires PlainArrays(v)
    ensures Flatten(v) == v
  {
    match v
    case Arr(entries) =>
      forall i | 0 <= i < |entries| ensures Flatten(v).entries[i] == entries[i] {
        FlattenFixesPlainArrays(entries[i].1);
      }
    case _ =>
  }

  /** Converting twice is converting once. */
  lemma FlattenIsIdempotent(v: Value)
    ensures Flatten(Flatten(v)) == Flatten(v)
  {
    FlattenLeavesPlainArrays(v);
    FlattenFixesPlainArrays(Flatten(v));
  }

  /** `convertArrayObjects`: unwrap an `ArrayObject`, then overwrite each entry of an array with its conversion. */
  method ConvertArrayObjects(data: Value) returns (r: Value)
    decreases data
    ensures r == Flatten(data)
  {
    var d := data;
    if data.ArrayObj? {
      d := Arr(data.items);
    }
    if !d.Arr? {
      return d;
    }
    var entries := d.entries;
    assert entries == EntriesOf(data);
    var i := 0;
    while i < |entries|
      invariant 0 <= i <= |entries| == |d.entries|
      invariant forall j :: 0 <= j < i ==> entries[j] == (d.entries[j].0, Flatten(d.entries[j].1))
      invariant forall j :: i <= j < |entries| ==> entries[j] == d.entries[j]
    {
      assert d.entries[i] in EntriesOf(data);
      var converted := ConvertArrayObjects(entries[i].1);
      entries := entries[i := (entries[i].0, converted)];
      i := i + 1;
    }
    r := Arr(entries);
    assert r.entries == Flatten(data).entries;
  }

  /** `toArray`'s check on the converted root: it must be an array. */
  function ToArrayResult(root: Value): (r: Result<Value>)
    ensures r.Ok? <==> root.Arr? || root.ArrayObj?
    ensures r.Ok? ==> r.value == Flatten(root)
    ensures r.Err? ==> r.error == NotConvertedToArray(root)
  {
    var converted := Flatten(root);
    if converted.Arr? then Ok(converted) else Err(NotConvertedToArray(converted))
  }

  /**
   * `toArray` after the visitor lookup for `json`: `run` stands for the
   * JSON visitor's traversal and yields its root or the traversal's error.
   */
  function ToArray<V>(visitors: map<string, V>, run: V -> Result<Value>): (r: Result<Value>)
    ensures "json" !in visitors ==> r == Err(UnsupportedFormat("json", Serialization))
    ensures "json" in visitors && run(visitors["json"]).Err? ==> r == run(visitors["json"])
    ensures "json" in visitors && run(visitors["json"]).Ok? ==> r == ToArrayResult(run(visitors["json"]).value)
  {
    CallVisitor(visitors, "json", Serialization,
      v => match run(v)
           case Err(e) => Err(e)
           case Ok(root) => ToArrayResult(root))
  }

  /** A successful `toArray` is an array with no `ArrayObject` left in it. */
  lemma ToArrayYieldsPlainArrays<V>(visitors: map<string, V>, run: V -> Result<Value>)
    ensures var r := ToArray(visitors, run); r.Ok? ==> r.value.Arr? && PlainArrays(r.value)
  {
    if "json" in visitors && run(visitors["json"]).Ok? {
      FlattenLeavesPlainArrays(run(visitors["json"]).value);
    }
  }

  /**
   * The default context of `serialize`, `deserialize`, `toArray` and
   * `fromArray`: the caller's context, or a fresh one for the direction.
   */
  method EnsureContext(given: Context?, direction: string, format: string) returns (ctx: Context)
    requires given != null ==> given.direction == direction && given.format == format
    ensures given != null ==> ctx == given
    ensures given == null ==> fresh(ctx) && ctx.direction == direction && ctx.format == format
    ensures given == null ==> ctx.visiting == {} && ctx.classStack == [] && ctx.propertyStack == [] && ctx.depth == 0
  {
    if given != null {
      return given;
    }
    ctx := new Context(direction, format);
  }
}
