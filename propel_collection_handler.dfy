/**
 * The handler for the four Propel collection classes: a table of 24
 * explicit entries, a serializer that forwards the collection's data to
 * `visitArray`, and a deserializer that fills a fresh collection.
 */
module PropelCollectionHandler {
  import opened Types
  import opened HandlerRegistry
  import opened CollectionEntries
  import BasicHandler

  /** The collection classes in loop order. */
  const CollectionClasses: seq<string> :=
    ["PropelCollection", "PropelObjectCollection", "PropelArrayCollection", "PropelOnDemandCollection"]

  /** Every class is served by the same two methods. */
  function Served(cls: string): CollectionType {
    CollectionType(cls, "serializeCollection", "deserializeCollection")
  }

  function ServedTypes(): seq<CollectionType> {
    seq(|CollectionClasses|, k requires 0 <= k < |CollectionClasses| => Served(CollectionClasses[k]))
  }

  /** The table `getSubscribingMethods` returns. */
  function SubscribingMethods(): seq<MethodData> {
    TypeEntries(ServedTypes(), Formats)
  }

  /** `getSubscribingMethods`: per class, per format, the serialization entry then the deserialization entry. */
  method GetSubscribingMethods() returns (methods: seq<MethodData>)
    ensures methods == SubscribingMethods()
  {
    methods := [];
    var i := 0;
    while i < |CollectionClasses|
      invariant 0 <= i <= |CollectionClasses|
      invariant methods == TypeEntries(ServedTypes()[..i], Formats)
    {
      TypeEntriesSnoc(ServedTypes(), i, Formats);
      methods := AppendFormatEntries(methods, ServedTypes()[i], Formats);
      i := i + 1;
    }
    assert ServedTypes()[..i] == ServedTypes();
  }


  /**
   * The table has 24 entries, each naming direction, type, format and
   * method; serialization entries name `serializeCollection`, the others
   * `deserializeCollection`.
   */
  lemma SubscribingMethodsShape()
    ensures |SubscribingMethods()| == 24
    ensures forall md :: md in SubscribingMethods() ==>
      md.direction.Some? && md.typeName.Some? && md.format.Some? && md.methodName.Some?
    ensures forall md :: md in SubscribingMethods() ==>
      md.methodName == if md.direction == Some(Serialization) then Some("serializeCollection") else Some("deserializeCollection")
  {
    var ts := ServedTypes();
    assert |ts| == 4 && |Formats| == 3;
    assert forall i :: 0 <= i < |ts| ==> ts[i].serializeMethod == "serializeCollection" && ts[i].deserializeMethod == "deserializeCollection";
    TypeEntriesCount(ts, Formats);
    TypeEntriesExplicit(ts, Formats);
  }

  lemma ClassesDistinct()
    ensures forall i, j :: 0 <= i < j < |ServedTypes()| ==> ServedTypes()[i].name != ServedTypes()[j].name
  {
    var ts := ServedTypes();
    assert ts[0].name == "PropelCollection" && ts[1].name == "PropelObjectCollection";
    assert ts[2].name == "PropelArrayCollection" && ts[3].name == "PropelOnDemandCollection";
  }

  /** Once registered, each (direction, class, format) key finds the matching collection method. */
  lemma EveryKeyServed(tbl: Table, owner: string, i: nat, j: nat)
    requires i < |CollectionClasses| && j < |Formats|
    ensures var served := StoreAll(tbl, Registrations(owner, SubscribingMethods()).0);
      Lookup(served, Serialization, CollectionClasses[i], Formats[j]) == Some(HandlerRef(owner, "serializeCollection"))
      && Lookup(served, Deserialization, CollectionClasses[i], Formats[j]) == Some(HandlerRef(owner, "deserializeCollection"))
  {
    assert ExplicitFormats(Formats);
    ClassesDistinct();
    TypeEntriesServe(tbl, owner, ServedTypes(), Formats, i, j);
  }

  /**
   * A registry holding only the basic handler has nothing for a Propel
   * collection; once the Propel handler is registered too, serializing one
   * to JSON finds `serializeCollection`.
   */
  lemma NeededForPropelCollections(basic: string, propel: string)
    ensures Lookup(StoreAll(map[], Registrations(basic, BasicHandler.SubscribingMethods()).0),
                   Serialization, "PropelObjectCollection", "json") == None
    ensures Lookup(StoreAll(StoreAll(map[], Registrations(basic, BasicHandler.SubscribingMethods()).0),
                            Registrations(propel, SubscribingMethods()).0),
                   Serialization, "PropelObjectCollection", "json") == Some(HandlerRef(propel, "serializeCollection"))
  {
    var ms := BasicHandler.SubscribingMethods();
    BasicEntriesArentPropel();
    UndirectedEntriesUntouched(map[], basic, ms, Serialization, "PropelObjectCollection", "json");
    UndirectedEntriesUntouched(map[], basic, ms, Serialization, "PropelObjectCollection", "*");
    UndirectedEntriesUntouched(map[], basic, ms, "*", "PropelObjectCollection", "json");
    UndirectedEntriesUntouched(map[], basic, ms, "*", "PropelObjectCollection", "*");
    EveryKeyServed(StoreAll(map[], Registrations(basic, ms).0), propel, 1, 0);
  }

  /** The basic handler's entries are undirected and none names a Propel class. */
  lemma BasicEntriesArentPropel()
    ensures var ms := BasicHandler.SubscribingMethods();
      UndirectedEntries(ms) && forall k :: 0 <= k < |ms| ==> ms[k].typeName != Some("PropelObjectCollection")
  {
    var ms := BasicHandler.SubscribingMethods();
    assert ms[0].typeName == Some("integer") && ms[1].typeName == Some("NULL");
    assert ms[2].typeName == Some("string") && ms[3].typeName == Some("boolean");
    assert ms[4].typeName == Some("double") && ms[5].typeName == Some("array");
    assert ms[6].typeName == Some("float") && ms[7].typeName == Some("resource");
  }

  /** A Propel collection: its runtime class and the data `setData` replaces. */
  class PropelCollection {
    const cls: string
    var data: Value

    /** A new collection holds an empty array. */
    constructor (cls: string)
      ensures this.cls == cls && data == Arr([])
    {
      this.cls := cls;
      data := Arr([]);
    }

    function GetData(): Value
      reads this
    {
      data
    }

    method SetData(d: Value)
      modifies this
      ensures data == d
    {
      data := d;
    }
  }

  /** `serializeCollection`: visits the collection's data as an array of the same params. */
  function SerializeCollection(visit: Call -> Value, c: PropelCollection, t: Type): (n: Node)
    reads c
    ensures n.calls == [VisitorCall("visitArray", c.data, ArrayType(t))]
    ensures n.result == Ok(visit(n.calls[0]))
  {
    var call := VisitorCall("visitArray", c.GetData(), ArrayType(t));
    Node(Ok(visit(call)), [call])
  }

  /**
   * `deserializeCollection`: a fresh plain `PropelCollection`, whatever class
   * was registered, whose data is exactly what `visitArray` returned.
   */
  method DeserializeCollection(visit: Call -> Value, data: Value, t: Type) returns (c: PropelCollection, calls: seq<Call>)
    ensures fresh(c) && c.cls == "PropelCollection"
    ensures calls == [VisitorCall("visitArray", data, ArrayType(t))]
    ensures c.data == visit(calls[0])
    ensures SerializeCollection(visit, c, t).calls == [VisitorCall("visitArray", visit(calls[0]), ArrayType(t))]
  {
    var call := VisitorCall("visitArray", data, Type("array", t.params));
    c := new PropelCollection("PropelCollection");
    c.SetData(visit(call));
    calls := [call];
  }

  /**
   * Serializing any Propel collection to JSON, with the basic and the Propel
   * handler registered, goes to `serializeCollection`, which hands the
   * collection's own data, whatever it holds, to `visitArray` as an `array`
   * with the declared parameters.
   */
  lemma CollectionDataReachesVisitArray(basic: string, propel: string, visit: Call -> Value, c: PropelCollection, t: Type)
    requires c.cls in CollectionClasses
    ensures Lookup(StoreAll(StoreAll(map[], Registrations(basic, BasicHandler.SubscribingMethods()).0),
                            Registrations(propel, SubscribingMethods()).0),
                   Serialization, c.cls, "json") == Some(HandlerRef(propel, "serializeCollection"))
    ensures var n := SerializeCollection(visit, c, t);
      |n.calls| == 1 && n.calls[0].VisitorCall? && n.calls[0].visitorMethod == "visitArray"
      && n.calls[0].data == c.data && n.calls[0].t == Type("array", t.params)
      && n.result == Ok(visit(n.calls[0]))
  {
    var i :| 0 <= i < |CollectionClasses| && CollectionClasses[i] == c.cls;
    assert Formats[0] == "json";
    EveryKeyServed(StoreAll(map[], Registrations(basic, BasicHandler.SubscribingMethods()).0), propel, i, 0);
  }
}
