/**
 * Shared data model of the serializer core: type descriptors, the PHP values
 * that flow through a traversal, class and property metadata, error kinds,
 * and the record of calls the navigators make into their collaborators.
 */
module Types {

  /** The two directions a context (and a handler registration) can have. */
  const Serialization: string := "serialization"
  const Deserialization: string := "deserialization"

  datatype Option<+T> = None | Some(value: T) {
    function GetOr(default: T): T {
      match this
      case Some(v) => v
      case None => default
    }
  }

  /** A type descriptor: a name and its ordered type parameters. */
  datatype Type = Type(name: string, params: seq<Type>)

  /**
   * A PHP value.  Arrays are ordered lists of key/value pairs; objects carry
   * an identity, their runtime class and their public attributes.  Doubles
   * are opaque (floating point is not modelled); `Collection` stands for the
   * external collection classes (PhpCollection, Propel), which are opaque
   * wrappers around their data.
   */
  datatype Value =
    | Null
    | Bool(b: bool)
    | Int(i: int)
    | Double(bits: int)
    | Str(s: string)
    | Arr(entries: seq<(Value, Value)>)
    | Obj(id: nat, cls: string, attrs: map<string, Value>)
    | ArrayObj(items: seq<(Value, Value)>)
    | Collection(kind: string, data: Value)
    | Resource(handle: nat)

  predicate IsObject(v: Value) {
    v.Obj? || v.ArrayObj? || v.Collection?
  }

  /** The class of an object value (PHP's get_class). */
  function ClassOf(v: Value): string
    requires IsObject(v)
  {
    match v
    case Obj(_, cls, _) => cls
    case ArrayObj(_) => "ArrayObject"
    case Collection(kind, _) => kind
  }

  /** PHP's gettype, with the class name in place of "object". */
  function TypeNameOf(v: Value): (r: string)
    ensures IsObject(v) ==> r == ClassOf(v)
    ensures v.Null? ==> r == "NULL"
    ensures v.Bool? ==> r == "boolean"
    ensures v.Int? ==> r == "integer"
    ensures v.Double? ==> r == "double"
    ensures v.Str? ==> r == "string"
    ensures v.Arr? ==> r == "array"
    ensures v.Resource? ==> r == "resource"
  {
    match v
    case Null => "NULL"
    case Bool(_) => "boolean"
    case Int(_) => "integer"
    case Double(_) => "double"
    case Str(_) => "string"
    case Arr(_) => "array"
    case Resource(_) => "resource"
    case _ => ClassOf(v)
  }

  /** The value stored under `key` in a PHP array, if any (first match). */
  function ArrayGet(entries: seq<(Value, Value)>, key: Value): (r: Option<Value>)
    ensures r.Some? <==> exists i :: 0 <= i < |entries| && entries[i].0 == key
    ensures r.Some? ==> exists i :: 0 <= i < |entries| && entries[i] == (key, r.value)
  {
    if |entries| == 0 then None
    else if entries[0].0 == key then Some(entries[0].1)
    else
      var r := ArrayGet(entries[1..], key);
      assert forall i :: 1 <= i < |entries| ==> entries[i] == entries[1..][i - 1];
      r
  }

  /** PHP's `$a[$key] = $value`: overwrite in place if the key exists, else append. */
  function ArrayPut(entries: seq<(Value, Value)>, key: Value, value: Value): seq<(Value, Value)> {
    if |entries| == 0 then [(key, value)]
    else if entries[0].0 == key then [(key, value)] + entries[1..]
    else [entries[0]] + ArrayPut(entries[1..], key, value)
  }

  /** After a put, the key reads the new value and every other key reads as before. */
  lemma {:induction false} ArrayPutGet(entries: seq<(Value, Value)>, key: Value, value: Value, k: Value)
    ensures ArrayGet(ArrayPut(entries, key, value), k) == if k == key then Some(value) else ArrayGet(entries, k)
  {
    if |entries| > 0 && entries[0].0 != key {
      ArrayPutGet(entries[1..], key, value, k);
      var r := ArrayPut(entries, key, value);
      assert r[1..] == ArrayPut(entries[1..], key, value);
    }
  }

  /** A put overwrites an existing key in place and appends a new one. */
  lemma {:induction false} ArrayPutSize(entries: seq<(Value, Value)>, key: Value, value: Value)
    ensures |ArrayPut(entries, key, value)| == if ArrayGet(entries, key).Some? then |entries| else |entries| + 1
  {
    if |entries| > 0 && entries[0].0 != key {
      ArrayPutSize(entries[1..], key, value);
    }
  }

  datatype PropertyMetadata = PropertyMetadata(
    name: string,
    owner: string,
    propertyType: Option<Type>,
    readOnly: bool)

  /**
   * Class metadata as the metadata factory produces it.  `lifecycle` maps a
   * property name such as "postSerializeMethods" to the method names it
   * lists; a missing key is a property the metadata object does not have.
   */
  datatype ClassMetadata = ClassMetadata(
    name: string,
    properties: seq<PropertyMetadata>,
    discriminatorFieldName: string,
    discriminatorBaseClass: string,
    discriminatorMap: map<string, string>,
    lifecycle: map<string, seq<string>>)

  /** The kinds of exception the core raises (message texts are not modelled). */
  datatype Error =
    | UnknownDirection(direction: string)
    | ResourceNotSupported(path: Option<string>)
    | NotSerializationContext
    | TypeNotGiven
    | DiscriminatorFieldNotFound(field: string, baseClass: string)
    | UnknownDiscriminatorValue(typeValue: string, baseClass: string, available: set<string>)
    | ExpectedArray(data: Value)
    | TooManyArrayParams(count: nat)
    | PropertyTypeMissing(owner: string, property: string)
    | EmptyObjectStack
    | UnsupportedFormat(format: string, direction: string)
    | NotConvertedToArray(result: Value)

  datatype Result<+T> = Ok(value: T) | Err(error: Error)

  /** A handler callable: `array($handler, $method)`. */
  datatype HandlerRef = HandlerRef(owner: string, methodName: string)

  /**
   * One call from a navigator into a collaborator, in the order made.
   * Visitor primitives carry the visitor method name.
   */
  datatype Call =
    | VisitorCall(visitorMethod: string, data: Value, t: Type)
    | Dispatch(event: string, className: string, format: string, data: Value, t: Type)
    | HandlerCall(handler: HandlerRef, data: Value, t: Type)
    | MetadataLoad(className: string)
    | LifecycleCall(callback: string, subject: Value)
    | ConstructCall(className: string, data: Value, t: Type)
    | StartObject(className: string, obj: Value, t: Type)
    | PropertyVisit(property: string, data: Value)
    | EndObject(className: string, data: Value, t: Type)

  /** The outcome of visiting one node: its result and the calls it made. */
  datatype Node = Node(result: Result<Value>, calls: seq<Call>)
}
