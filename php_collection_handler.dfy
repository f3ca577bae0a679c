/**
 * The handler for the PhpCollection `Sequence` and `Map` classes: a table
 * of twelve explicit entries, and four handlers that rewrite the type to
 * `array` and forward to the visitor's `visitArray`.
 */
module PhpCollectionHandler {
  import opened Types
  import opened HandlerRegistry
  import opened CollectionEntries

  const SequenceClass: string := "PhpCollection\\Sequence"
  const MapClass: string := "PhpCollection\\Map"

  /** The collection classes in loop order, each with the short name its methods are named after. */
  const CollectionClasses: seq<(string, string)> := [(SequenceClass, "Sequence"), (MapClass, "Map")]

  /** The methods serving one class: "serialize" and "deserialize" followed by its short name. */
  function Served(cls: (string, string)): CollectionType {
    CollectionType(cls.0, "serialize" + cls.1, "deserialize" + cls.1)
  }

  function ServedTypes(): seq<CollectionType> {
    [Served(CollectionClasses[0]), Served(CollectionClasses[1])]
  }

  /** The table `getSubscribingMethods` returns. */
  function SubscribingMethods(): seq<MethodData> {
    TypeEntries(ServedTypes(), Formats)
  }

  /** `getSubscribingMethods`: per class, per format, the serialization entry then the deserialization entry. */
  method GetSubscribingMethods() returns (methods: seq<MethodData>)
    ensures methods == SubscribingMethods()
  {
    methods := [];
    var i := 0;
    while i < |CollectionClasses|
      invariant 0 <= i <= |CollectionClasses|
      invariant methods == TypeEntries(ServedTypes()[..i], Formats)
    {
      TypeEntriesSnoc(ServedTypes(), i, Formats);
      methods := AppendFormatEntries(methods, ServedTypes()[i], Formats);
      i := i + 1;
    }
    assert ServedTypes()[..i] == ServedTypes();
  }


  /**
   * The table has twelve entries, each naming direction, type, format and
   * method; serialization entries name "serialize" + short name, the others
   * "deserialize" + short name.
   */
  lemma SubscribingMethodsShape()
    ensures |SubscribingMethods()| == 12
    ensures forall md :: md in SubscribingMethods() ==>
      md.direction.Some? && md.typeName.Some? && md.format.Some? && md.methodName.Some?
    ensures forall md :: md in SubscribingMethods() && md.direction == Some(Serialization) ==>
      (md.typeName == Some(SequenceClass) && md.methodName == Some("serializeSequence"))
      || (md.typeName == Some(MapClass) && md.methodName == Some("serializeMap"))
    ensures forall md :: md in SubscribingMethods() && md.direction != Some(Serialization) ==>
      md.direction == Some(Deserialization)
      && ((md.typeName == Some(SequenceClass) && md.methodName == Some("deserializeSequence"))
          || (md.typeName == Some(MapClass) && md.methodName == Some("deserializeMap")))
  {
    TypeEntriesCount(ServedTypes(), Formats);
    TypeEntriesExplicit(ServedTypes(), Formats);
    assert "serialize" + "Sequence" == "serializeSequence" && "serialize" + "Map" == "serializeMap";
    assert "deserialize" + "Sequence" == "deserializeSequence" && "deserialize" + "Map" == "deserializeMap";
  }

  /** Once registered, each (direction, class, format) key finds the method named after the class. */
  lemma EveryKeyServed(tbl: Table, owner: string, i: nat, j: nat)
    requires i < |CollectionClasses| && j < |Formats|
    ensures var served := StoreAll(tbl, Registrations(owner, SubscribingMethods()).0);
      Lookup(served, Serialization, CollectionClasses[i].0, Formats[j])
        == Some(HandlerRef(owner, "serialize" + CollectionClasses[i].1))
      && Lookup(served, Deserialization, CollectionClasses[i].0, Formats[j])
        == Some(HandlerRef(owner, "deserialize" + CollectionClasses[i].1))
  {
    assert ExplicitFormats(Formats);
    TypeEntriesServe(tbl, owner, ServedTypes(), Formats, i, j);
  }

  /** `serializeMap`: visits the map's contents as an array of the same params. */
  function SerializeMap(visit: Call -> Value, m: Value, t: Type): (n: Node)
    requires m.Collection? && m.kind == MapClass
    ensures n.calls == [VisitorCall("visitArray", m.data, ArrayType(t))]
    ensures n.result == Ok(visit(n.calls[0]))
  {
    var call := VisitorCall("visitArray", m.data, ArrayType(t));
    Node(Ok(visit(call)), [call])
  }

  /** `deserializeMap`: wraps what `visitArray` returns in a new Map. */
  function DeserializeMap(visit: Call -> Value, data: Value, t: Type): (n: Node)
    ensures n.calls == [VisitorCall("visitArray", data, ArrayType(t))]
    ensures n.result == Ok(Collection(MapClass, visit(n.calls[0])))
  {
    var call := VisitorCall("visitArray", data, ArrayType(t));
    Node(Ok(Collection(MapClass, visit(call))), [call])
  }

  /** `serializeSequence`: visits the sequence's elements as an array of the same params. */
  function SerializeSequence(visit: Call -> Value, s: Value, t: Type): (n: Node)
    requires s.Collection? && s.kind == SequenceClass
    ensures n.calls == [VisitorCall("visitArray", s.data, ArrayType(t))]
    ensures n.result == Ok(visit(n.calls[0]))
  {
    var call := VisitorCall("visitArray", s.data, ArrayType(t));
    Node(Ok(visit(call)), [call])
  }

  /** `deserializeSequence`: wraps what `visitArray` returns in a new Sequence. */
  function DeserializeSequence(visit: Call -> Value, data: Value, t: Type): (n: Node)
    ensures n.calls == [VisitorCall("visitArray", data, ArrayType(t))]
    ensures n.result == Ok(Collection(SequenceClass, visit(n.calls[0])))
  {
    var call := VisitorCall("visitArray", data, ArrayType(t));
    Node(Ok(Collection(SequenceClass, visit(call))), [call])
  }

  /**
   * Round trip: the collection a deserializer builds, when serialized again
   * under any type with the same params, hands `visitArray` exactly the
   * array the deserializing `visitArray` returned, under the same type.
   */
  lemma DeserializedCollectionsSerializeBack(decode: Call -> Value, encode: Call -> Value, data: Value, t: Type, u: Type)
    requires t.params == u.params
    ensures var m := DeserializeMap(decode, data, t);
      m.result.value.Collection?
      && SerializeMap(encode, m.result.value, u).calls
        == [VisitorCall("visitArray", decode(m.calls[0]), m.calls[0].t)]
    ensures var s := DeserializeSequence(decode, data, t);
      s.result.value.Collection?
      && SerializeSequence(encode, s.result.value, u).calls
        == [VisitorCall("visitArray", decode(s.calls[0]), s.calls[0].t)]
  {
  }
}
