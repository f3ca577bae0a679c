# A verified model of the serializer's graph-navigation core

This project models the core of a PHP object serializer, a fork of the JMS
serializer. It covers two things:

- **The graph navigators.** They walk an object graph (or decoded input) node by node:
  - the serializer navigator (`SerializerGraphNavigator`);
  - two deserializer navigators: the `Graph\` one (`GraphDeserializerNavigator`) and the root one built on `AbstractGraphNavigator` (`DeserializerGraphNavigator`);
  - the root `GraphNavigator` base, which the serializer navigator extends; the `Graph\` deserializer's base `Graph\GraphNavigator` is not part of this model and is taken to be this class.
- **The collaborators at their edges:**
  - the handler registry (`HandlerRegistry`);
  - the basic, PHP-collection and Propel-collection handlers;
  - the generic deserialization visitor and its abstract base;
  - the `Serializer` facade.

Each module named after a source class follows that class. Four modules follow no single class: `Types` and `TraversalContext` hold shared data and the traversal context, and `Discriminator` and `CollectionEntries` hold logic that two classes share.

- **Types** holds the shared data:
  - the PHP value universe: null, scalars, ordered arrays, objects, `ArrayObject`s, collections and resources;
  - type definitions, property and class metadata;
  - the error kinds the source raises;
  - the outside calls a navigator makes.
- **Collaborators** holds `Env`, the record of everything the core only calls into:
  - the metadata factory;
  - the event dispatcher and the data and type a listener leaves in its event;
  - the exclusion strategy;
  - class existence and subclassing;
  - string casts and the context's path;
  - the handler table;
  - an oracle `answer` for what a visitor, handler or object constructor returns.
- **TraversalContext** is the per-call context the navigators update:
  - the visiting set;
  - the class and property metadata stacks;
  - the depth counter.

Each navigator's `accept` is a method on that context, proved equal to a pure specification function (`SerializeNode`, `DeserializeNode`). The specification function gives:

- the node's result (a value or an error);
- the ordered trace of outside calls.

The method also states exactly how the context changes. The lemmas beside each specification function state the properties the navigator promises:

- null and scalars take the fast path;
- resources are refused;
- revisits yield null;
- subclass metadata is used;
- listeners may replace the type (and, when deserializing, the data);
- handlers take precedence;
- excluded classes yield null;
- only kept properties are visited;
- the order of lifecycle methods, events and the visitor's start and end.

The generic visitor is a class with the fields the source updates:

- the root result;
- the object stack and the current object;
- the navigator.

Its methods are proved against list, map and property specifications. The root result is first-write-wins; a lemma states this over any sequence of writes. Its object stack is LIFO.

The handler registry is a class over a nested direction → type → format table. Its lookup returns the first hit of the four-step wildcard fallback, each step stated in the lookup's contract. Registration of each handler's subscribing methods is proved to serve every type the handler lists.

## Model

| member | source | states |
|---|---|---|
| Types.TypeNameOf | src/JMS/Serializer/SerializerGraphNavigator.php:65-68 | gettype's name for each scalar, array, resource and null, and the class name for an object |
| Types.ArrayGet | src/JMS/Serializer/Visitor/GenericDeserializationVisitor.php:163-171 | a key is found iff some entry has it, and the value returned belongs to an entry with that key |
| Types.ArrayPutGet | src/JMS/Serializer/Visitor/GenericDeserializationVisitor.php:139-141 | after `$a[$k] = $v` the key reads `$v` and every other key reads as before |
| Types.ArrayPutSize | src/JMS/Serializer/Visitor/GenericDeserializationVisitor.php:139-141 | an existing key is overwritten in place, a new key is appended |
| TraversalContext.Context.constructor | src/JMS/Serializer/Serializer.php:88-90 | a fresh context has the given direction and format, nothing visiting, empty stacks, depth 0 |
| TraversalContext.Context.StartVisiting | src/JMS/Serializer/DeserializerGraphNavigator.php:106-108 | adds the value to the visiting set and reports whether it was absent |
| TraversalContext.Context.StopVisiting | src/JMS/Serializer/SerializerGraphNavigator.php:177-180 | removes the value from the visiting set |
| TraversalContext.Context.PushClassMetadata | src/JMS/Serializer/SerializerGraphNavigator.php:154 | the metadata is pushed on the class stack |
| TraversalContext.Context.PopClassMetadata | src/JMS/Serializer/GraphNavigator.php:97 | the top of the class stack is popped |
| TraversalContext.Context.PushPropertyMetadata | src/JMS/Serializer/SerializerGraphNavigator.php:166 | the property is pushed on the property stack |
| TraversalContext.Context.PopPropertyMetadata | src/JMS/Serializer/SerializerGraphNavigator.php:168 | the top of the property stack is popped |
| TraversalContext.Context.IncreaseDepth | src/JMS/Serializer/Graph/DeserializerGraphNavigator.php:69 | depth goes up by one |
| TraversalContext.Context.DecreaseDepth | src/JMS/Serializer/Graph/DeserializerGraphNavigator.php:130-133 | depth goes down by one |
| GraphNavigator.LifecycleCalls | src/JMS/Serializer/GraphNavigator.php:52-58 | no calls when the metadata lacks the property; else one invocation per listed method, in order, on the subject |
| GraphNavigator.CallLifecycleMethods | src/JMS/Serializer/GraphNavigator.php:46-59 | the loop invokes exactly `LifecycleCalls` for the `pre`/`post` + direction + `Methods` property |
| GraphNavigator.HasListener | src/JMS/Serializer/GraphNavigator.php:80-85 | false without a dispatcher; otherwise the dispatcher's answer for `serializer.<phase>_<serialize/deserialize>` |
| GraphNavigator.AfterVisitingObject | src/JMS/Serializer/GraphNavigator.php:94-104 | leaves scope, with visiting or depth chosen by the subclass; pops the class stack; then post lifecycle calls, then a post event dispatched under the metadata name if a listener exists for the TYPE name |
| GraphNavigator.ScalarVisitMethod | src/JMS/Serializer/SerializerGraphNavigator.php:77-95 | exactly the seven scalar/array type names have a visitor method; `float` and `double` both map to `visitDouble` |
| GraphNavigator.PropertyVisits | src/JMS/Serializer/SerializerGraphNavigator.php:161-169 | at most one visit per property, each on the node's data |
| GraphNavigator.VisitProperties | src/JMS/Serializer/Graph/DeserializerGraphNavigator.php:110-122 | the loop visits exactly `PropertyVisits`; the property stack is restored and nothing else changes |
| GraphNavigator.PropertyVisitsAreTheUnskipped | src/JMS/Serializer/Graph/DeserializerGraphNavigator.php:110-122 | the visits are the unskipped properties in order, and a property is unskipped iff it is listed and not skipped |
| GraphNavigator.PropertyVisitsExactlyTheKept | src/JMS/Serializer/SerializerGraphNavigator.php:161-169 | every kept property is visited, and every visit is of a kept property on the node's data |
| SerializerGraphNavigator.InferredType | src/JMS/Serializer/SerializerGraphNavigator.php:64-75 | without a declared type the type is inferred from the data (class for objects); null data is always typed `NULL`; else the declared type |
| SerializerGraphNavigator.PolymorphicType | src/JMS/Serializer/SerializerGraphNavigator.php:117-121 | the type becomes the object's own class exactly when the declared class exists and the object is a subclass of it |
| SerializerGraphNavigator.PreSerialize | src/JMS/Serializer/SerializerGraphNavigator.php:126-132 | with a pre listener: one `serializer.pre_serialize` dispatch and the event's type; else the type unchanged and no call |
| SerializerGraphNavigator.Accept | src/JMS/Serializer/SerializerGraphNavigator.php:57-175 | the node is `SerializeNode` of the inputs and the visiting set before the call; visiting set, stacks and depth are restored |
| SerializerGraphNavigator.VisitObjectNode | src/JMS/Serializer/SerializerGraphNavigator.php:108-173 | the object branch yields `SerializeObject`; the data leaves the visiting set; stacks and depth are restored |
| SerializerGraphNavigator.NullIsVisitedAsNull | src/JMS/Serializer/SerializerGraphNavigator.php:71-79 | null data makes one `visitNull` call with type `NULL`, whatever type was declared |
| SerializerGraphNavigator.ScalarsGoToTheVisitor | src/JMS/Serializer/SerializerGraphNavigator.php:77-95 | scalar and array types make exactly one visitor call, whose answer is the result |
| SerializerGraphNavigator.ResourcesAreRefused | src/JMS/Serializer/SerializerGraphNavigator.php:97-104 | a node typed `resource`, inferred from resource data or declared for any non-null data, is an error carrying the context's path, with no call |
| SerializerGraphNavigator.OnlySerializationContexts | src/JMS/Serializer/SerializerGraphNavigator.php:59 | any other direction is refused before anything else |
| SerializerGraphNavigator.RevisitYieldsNull | src/JMS/Serializer/SerializerGraphNavigator.php:108-111 | an object already being visited yields null with no call |
| SerializerGraphNavigator.SubclassUsesItsOwnMetadata | src/JMS/Serializer/SerializerGraphNavigator.php:117-146 | for a subclass instance, metadata is loaded for the object's own class |
| SerializerGraphNavigator.ListenerChoosesTheType | src/JMS/Serializer/SerializerGraphNavigator.php:126-146 | the event comes first, and the handler lookup and metadata load use the type the listener leaves |
| SerializerGraphNavigator.HandlerTakesPrecedence | src/JMS/Serializer/SerializerGraphNavigator.php:136-141 | a handler's answer is the result; no metadata is loaded and no object is walked |
| SerializerGraphNavigator.ExcludedClassYieldsNull | src/JMS/Serializer/SerializerGraphNavigator.php:143-152 | an excluded class yields null after its metadata load, with no start, property visit or end |
| SerializerGraphNavigator.ObjectWalkVisitsTheKeptProperties | src/JMS/Serializer/SerializerGraphNavigator.php:154-173 | the walk ends with `endVisitingObject`, visits exactly the kept properties (read-only ones included) on the data |
| AbstractGraphNavigator.Ucfirst | src/JMS/Serializer/AbstractGraphNavigator.php:53 | same length; the first character upper-cased, the rest unchanged |
| AbstractGraphNavigator.GetMethods | src/JMS/Serializer/AbstractGraphNavigator.php:51-59 | the methods listed under `<phase>Ucfirst(direction)Methods`, or none when absent |
| AbstractGraphNavigator.GetMethodsAgreesWithLifecycleProperty | src/JMS/Serializer/AbstractGraphNavigator.php:51-59 | with the verb `deserialize` it names the same property, and so the same calls, as the base navigator's deserialization lifecycle |
| AbstractGraphNavigator.FindType | src/JMS/Serializer/AbstractGraphNavigator.php:63-80 | a missing type is an error; a given type is returned unchanged |
| AbstractGraphNavigator.HasListeners | src/JMS/Serializer/AbstractGraphNavigator.php:82-88 | false without a dispatcher; else the answer for `serializer.<phase>_<verb>` |
| AbstractGraphNavigator.EventNamesAgree | src/JMS/Serializer/AbstractGraphNavigator.php:82-93 | with the verb `deserialize` the event names and listener queries equal the base navigator's for deserialization |
| AbstractGraphNavigator.GetMetadataForClass | src/JMS/Serializer/AbstractGraphNavigator.php:95-98 | the factory's metadata for the type's name |
| AbstractGraphNavigator.MetadataByNameOnly | src/JMS/Serializer/AbstractGraphNavigator.php:95-98 | the metadata depends on the type name only |
| AbstractGraphNavigator.InvokeMethods | src/JMS/Serializer/AbstractGraphNavigator.php:105-107 | one lifecycle call per listed method, on the object, in list order |
| AbstractGraphNavigator.AfterVisitingObject | src/JMS/Serializer/AbstractGraphNavigator.php:100-112 | stops visiting the object, pops the class stack, post methods in order, then a post event if a listener exists for the METADATA name |
| AbstractGraphNavigator.TeardownsAgreeOnTheOwnClass | src/JMS/Serializer/AbstractGraphNavigator.php:100-112 | when the type names the metadata's class, this teardown equals the base navigator's |
| Discriminator.DiscriminatorValue | src/JMS/Serializer/Graph/DeserializerGraphNavigator.php:137-145 | an array key or object attribute that is set and non-null, cast to string; nothing for other data |
| Discriminator.ResolveMetadata | src/JMS/Serializer/Graph/DeserializerGraphNavigator.php:135-164 | a missing field and an unmapped value are the two errors, each exactly when it occurs; else the metadata of the mapped class |
| Discriminator.LoadMetadata | src/JMS/Serializer/Graph/DeserializerGraphNavigator.php:93-97 | the requested class is loaded first; resolution happens exactly for a non-empty map under its base class |
| Discriminator.ArrayAndObjectFieldsAgree | src/JMS/Serializer/Graph/DeserializerGraphNavigator.php:137-146 | an array key and an object attribute holding the same value resolve to the same class or the same error |
| Discriminator.NullFieldIsMissing | src/JMS/Serializer/Graph/DeserializerGraphNavigator.php:137-151 | a field present but null, in an array or an object, counts as missing (`isset`) |
| GraphDeserializerNavigator.PreDeserialize | src/JMS/Serializer/Graph/DeserializerGraphNavigator.php:73-79 | with a pre listener: one dispatch, and both type and data are the event's; else unchanged |
| GraphDeserializerNavigator.Accept | src/JMS/Serializer/Graph/DeserializerGraphNavigator.php:58-128 | the node is `DeserializeNode`; depth returns to its old value except after an error on a given type, when it stays one higher; visiting and stacks unchanged |
| GraphDeserializerNavigator.VisitObjectNode | src/JMS/Serializer/Graph/DeserializerGraphNavigator.php:90-127 | the object branch yields `ObjectNode`; depth drops by one unless it failed |
| GraphDeserializerNavigator.WalkObject | src/JMS/Serializer/Graph/DeserializerGraphNavigator.php:105-127 | construct, start, visit, end, then teardown on the result equals `ObjectWalk`; depth drops by one |
| GraphDeserializerNavigator.TypeIsRequired | src/JMS/Serializer/Graph/DeserializerGraphNavigator.php:64-66 | a missing type is refused with no call made |
| GraphDeserializerNavigator.ListenerReplacesDataAndType | src/JMS/Serializer/Graph/DeserializerGraphNavigator.php:73-88 | the handler lookup and the handler's arguments use the event's data and type |
| GraphDeserializerNavigator.HandlerTakesPrecedence | src/JMS/Serializer/Graph/DeserializerGraphNavigator.php:83-88 | a handler's answer is the result; no metadata is loaded and no object is constructed |
| GraphDeserializerNavigator.ExcludedClassYieldsNull | src/JMS/Serializer/Graph/DeserializerGraphNavigator.php:92-103 | a skipped class yields null after its metadata is loaded and resolved; the only calls are the pre event and the metadata loads |
| GraphDeserializerNavigator.BasicHandlerServesScalars | src/JMS/Serializer/Handler/BasicHandler.php:29-55 | with the basic handler registered, each generic scalar type is one `visitGeneric` handler call in either direction and any format |
| GraphDeserializerNavigator.ResolutionOnlyForTheBaseClass | src/JMS/Serializer/Graph/DeserializerGraphNavigator.php:93-103 | without resolution the node succeeds; a resolution error is raised after the one metadata load and before construction |
| GraphDeserializerNavigator.ObjectWalkShape | src/JMS/Serializer/Graph/DeserializerGraphNavigator.php:105-127 | the constructed object is started; exactly the non-read-only, non-excluded properties are visited; the teardown follows `endVisitingObject` and runs on its result |
| DeserializerGraphNavigator.Accept | src/JMS/Serializer/DeserializerGraphNavigator.php:62-138 | the node is `DeserializeNode` of the inputs and the visiting set before the call; visiting set, stacks and depth are restored |
| DeserializerGraphNavigator.VisitObjectNode | src/JMS/Serializer/DeserializerGraphNavigator.php:104-136 | the object branch yields `ObjectNode`; visiting set, stacks and depth are restored |
| DeserializerGraphNavigator.WalkObject | src/JMS/Serializer/DeserializerGraphNavigator.php:116-136 | construct, pre methods, start, visits, teardown, end equals `ObjectWalk`; the data leaves the visiting set |
| DeserializerGraphNavigator.TypeIsRequired | src/JMS/Serializer/DeserializerGraphNavigator.php:67 | a missing type is refused by `findType` with no call |
| DeserializerGraphNavigator.FastPathComesFirst | src/JMS/Serializer/DeserializerGraphNavigator.php:69-88 | scalar and array types make one visitor call, before any listener or handler |
| DeserializerGraphNavigator.FloatAndDoubleAgree | src/JMS/Serializer/DeserializerGraphNavigator.php:82-84 | `float` and `double` both reach `visitDouble` |
| DeserializerGraphNavigator.HandlerTakesPrecedence | src/JMS/Serializer/DeserializerGraphNavigator.php:99-102 | a handler's answer is returned directly; no metadata, no construction |
| DeserializerGraphNavigator.RevisitYieldsNull | src/JMS/Serializer/DeserializerGraphNavigator.php:104-108 | input already being visited yields null after its metadata load, with nothing constructed |
| DeserializerGraphNavigator.ExcludedClassYieldsNull | src/JMS/Serializer/DeserializerGraphNavigator.php:104-114 | a skipped class yields null after the cycle guard; the only calls are the pre event and the metadata loads |
| DeserializerGraphNavigator.ObjectWalkOrder | src/JMS/Serializer/DeserializerGraphNavigator.php:116-136 | pre methods run on the raw data after construction and before start; the teardown runs before `endVisitingObject`, whose answer is the result |
| DeserializerGraphNavigator.SkippedPropertiesAreNotVisited | src/JMS/Serializer/DeserializerGraphNavigator.php:125-133 | exactly the non-read-only, non-excluded properties are visited, on the data |
| HandlerRegistry.LastBackslash | src/JMS/Serializer/Handler/HandlerRegistry.php:31 | the position of the last backslash, or none when there is none |
| HandlerRegistry.ShortName | src/JMS/Serializer/Handler/HandlerRegistry.php:31-33 | a backslash-free suffix of the type, preceded by a backslash when shorter |
| HandlerRegistry.DefaultMethod | src/JMS/Serializer/Handler/HandlerRegistry.php:29-45 | an error exactly for an unknown direction; else `deserialize<T>From<F>` / `serialize<T>To<F>` with `T` the short name |
| HandlerRegistry.DefaultMethodsOfDirectionsDiffer | src/JMS/Serializer/Handler/HandlerRegistry.php:35-41 | the two directions never produce the same default method name |
| HandlerRegistry.DefaultMethodIgnoresNamespace | src/JMS/Serializer/Handler/HandlerRegistry.php:31-33 | the namespace of the type does not affect the default method |
| HandlerRegistry.Wildcard | src/JMS/Serializer/Handler/HandlerRegistry.php:69 | null, `""` and `"0"` become `*`, any other string is kept; the key is `*` exactly for those three and `*` itself |
| HandlerRegistry.Store | src/JMS/Serializer/Handler/HandlerRegistry.php:69 | the stored key holds the handler; every other key is unchanged |
| HandlerRegistry.Lookup | src/JMS/Serializer/Handler/HandlerRegistry.php:72-88 | none iff all four of exact, format-`*`, direction-`*`, both-`*` are empty; otherwise the first non-empty of them in that order |
| HandlerRegistry.FormatSpecificWildcardWins | src/JMS/Serializer/Handler/HandlerRegistry.php:80-85 | with nothing for the direction, a direction-`*` entry for the format beats the direction-`*` entry for every format, whichever was stored first (when the format is not itself `*`) |
| HandlerRegistry.DirectionSpecificWins | src/JMS/Serializer/Handler/HandlerRegistry.php:74-79 | a registration for the direction beats every direction-wildcard one |
| HandlerRegistry.LastRegistrationWins | src/JMS/Serializer/Handler/HandlerRegistry.php:67-75 | a registration is what an exact lookup then returns |
| HandlerRegistry.WildcardServesTheRest | src/JMS/Serializer/Handler/HandlerRegistry.php:83-85 | a both-wildcard registration serves any key with no more specific entry |
| HandlerRegistry.RegistrationFor | src/JMS/Serializer/Handler/HandlerRegistry.php:61-62 | the entry's method if named, else the default method or its error; for the given direction, type and format |
| HandlerRegistry.EntryRegistersPerDirection | src/JMS/Serializer/Handler/HandlerRegistry.php:55-63 | an entry without direction registers for deserialization then serialization; one with a direction, for it alone |
| HandlerRegistry.RegistrationsAppend | src/JMS/Serializer/Handler/HandlerRegistry.php:54-64 | registering two lists of entries is registering each in turn |
| HandlerRegistry.StoreAllKeepsLast | src/JMS/Serializer/Handler/HandlerRegistry.php:69 | the last registration for a key is the one stored |
| HandlerRegistry.DirectedEntriesRegisterOnce | src/JMS/Serializer/Handler/HandlerRegistry.php:56-58 | entries naming a direction and method register once each, in order |
| HandlerRegistry.UndirectedEntriesRegisterTwice | src/JMS/Serializer/Handler/HandlerRegistry.php:55-63 | entries naming no direction register twice each, deserialization first |
| HandlerRegistry.UndirectedEntriesFound | src/JMS/Serializer/Handler/HandlerRegistry.php:54-69 | distinct undirected entries are stored under both directions with format `*` |
| HandlerRegistry.UndirectedEntriesUntouched | src/JMS/Serializer/Handler/HandlerRegistry.php:54-69 | they touch no key with an explicit format or a foreign direction |
| HandlerRegistry.UndirectedEntriesServeEveryFormat | src/JMS/Serializer/Handler/HandlerRegistry.php:72-85 | after registration, a lookup in either direction and any format finds the entry's method |
| HandlerRegistry.StoreAllAppend | src/JMS/Serializer/Handler/HandlerRegistry.php:54-64 | storing two lists is storing each in turn |
| HandlerRegistry.ErrorPropagates | src/JMS/Serializer/Handler/HandlerRegistry.php:61 | an error stops registration: later entries are not registered |
| HandlerRegistry.Registry.constructor | src/JMS/Serializer/Handler/HandlerRegistry.php:47-50 | the table is the one given |
| HandlerRegistry.Registry.GetHandler | src/JMS/Serializer/Handler/HandlerRegistry.php:72-88 | the registry's current table answered by the four-step cascade of `Lookup` |
| HandlerRegistry.Registry.RegisterHandler | src/JMS/Serializer/Handler/HandlerRegistry.php:67-70 | stores under (direction or `*`, type, format or `*`) and changes nothing else |
| HandlerRegistry.Registry.RegisterSubscribingHandler | src/JMS/Serializer/Handler/HandlerRegistry.php:52-65 | the table after the loop is the old one with every registration stored in order; the error is the first one met |
| HandlerRegistry.Registry.RegisterEntry | src/JMS/Serializer/Handler/HandlerRegistry.php:60-63 | the inner loop stores the entry's registrations for its directions |
| BasicHandler.GetSubscribingMethods | src/JMS/Serializer/Handler/BasicHandler.php:29-50 | the eight entries: six generic types to `visitGeneric`, then `float` and `resource`; none names a direction or format |
| BasicHandler.SubscribedTypesDistinct | src/JMS/Serializer/Handler/BasicHandler.php:32-47 | no type is subscribed twice |
| BasicHandler.RegisteredForBothDirectionsAndEveryFormat | src/JMS/Serializer/Handler/BasicHandler.php:29-50 | once registered, each entry serves both directions in every format |
| BasicHandler.VisitGeneric | src/JMS/Serializer/Handler/BasicHandler.php:52-55 | calls the visitor method `visit` + type name on the data and type |
| BasicHandler.VisitFloat | src/JMS/Serializer/Handler/BasicHandler.php:57-60 | calls `visitDouble` |
| BasicHandler.ForwardsMatchFastPath | src/JMS/Serializer/Handler/BasicHandler.php:52-60 | each forwarded method name equals the navigator fast path's, up to the ASCII case PHP ignores in method names |
| BasicHandler.VisitResource | src/JMS/Serializer/Handler/BasicHandler.php:62-69 | always an error; it carries the path exactly when serializing with a path |
| CollectionEntries.AppendFormatEntries | src/JMS/Serializer/Handler/PhpCollectionHandler.php:40-54 | the inner loop appends exactly one type's per-format serialization and deserialization entries |
| CollectionEntries.FormatEntriesOrder | src/JMS/Serializer/Handler/PhpCollectionHandler.php:40-54 | per format, a serialization entry then a deserialization entry |
| CollectionEntries.TypeEntriesOrder | src/JMS/Serializer/Handler/PhpCollectionHandler.php:39-55 | types in order, each with its per-format entries |
| CollectionEntries.TypeEntriesCount | src/JMS/Serializer/Handler/PhpCollectionHandler.php:39-55 | two entries per type and format |
| CollectionEntries.FormatEntriesTable | src/JMS/Serializer/Handler/HandlerRegistry.php:52-65 | registering one type's entries stores both directions for each format and touches no other type |
| CollectionEntries.TypeEntriesTable | src/JMS/Serializer/Handler/HandlerRegistry.php:52-65 | registering all types' entries stores both directions for every type and format |
| CollectionEntries.TypeEntriesServe | src/JMS/Serializer/Handler/HandlerRegistry.php:72-76 | after registration each (type, format) is served in each direction by its method |
| CollectionEntries.TypeEntriesExplicit | src/JMS/Serializer/Handler/PhpCollectionHandler.php:41-53 | every entry names its direction, type, format and method |
| CollectionEntries.ArrayType | src/JMS/Serializer/Handler/PhpCollectionHandler.php:62 | the rewritten type is `array` with the original parameters |
| CollectionEntries.ArrayTypeRewrite | src/JMS/Serializer/Handler/PhpCollectionHandler.php:62 | rewriting is idempotent and keeps exactly the parameters |
| PhpCollectionHandler.GetSubscribingMethods | src/JMS/Serializer/Handler/PhpCollectionHandler.php:30-58 | the loop builds the sequence/map × json/xml/yml × direction table |
| PhpCollectionHandler.SubscribingMethodsShape | src/JMS/Serializer/Handler/PhpCollectionHandler.php:30-58 | twelve entries, each explicit; serialization ones call `serialize<Short>`, the others `deserialize<Short>` |
| PhpCollectionHandler.EveryKeyServed | src/JMS/Serializer/Handler/PhpCollectionHandler.php:30-58 | once registered, every collection class and format is served in both directions |
| PhpCollectionHandler.SerializeMap | src/JMS/Serializer/Handler/PhpCollectionHandler.php:60-65 | one `visitArray` call on the map's entries with the array type; its answer is the result |
| PhpCollectionHandler.DeserializeMap | src/JMS/Serializer/Handler/PhpCollectionHandler.php:67-72 | one `visitArray` call; the result wraps its answer in a map |
| PhpCollectionHandler.SerializeSequence | src/JMS/Serializer/Handler/PhpCollectionHandler.php:74-80 | one `visitArray` call on the elements; its answer is the result |
| PhpCollectionHandler.DeserializeSequence | src/JMS/Serializer/Handler/PhpCollectionHandler.php:82-88 | one `visitArray` call; the result wraps its answer in a sequence |
| PhpCollectionHandler.DeserializedCollectionsSerializeBack | src/JMS/Serializer/Handler/PhpCollectionHandler.php:60-88 | serializing a deserialized collection visits exactly the array the deserializer produced, with the same array type |
| PropelCollectionHandler.GetSubscribingMethods | src/JMS/Serializer/Handler/PropelCollectionHandler.php:29-60 | the loop builds the four-class × three-format × direction table |
| PropelCollectionHandler.SubscribingMethodsShape | src/JMS/Serializer/Handler/PropelCollectionHandler.php:29-60 | 24 explicit entries calling `serializeCollection` / `deserializeCollection` |
| PropelCollectionHandler.ClassesDistinct | src/JMS/Serializer/Handler/PropelCollectionHandler.php:34-39 | the four classes are distinct |
| PropelCollectionHandler.EveryKeyServed | src/JMS/Serializer/Handler/PropelCollectionHandler.php:29-60 | once registered, each class and format is served in both directions |
| PropelCollectionHandler.NeededForPropelCollections | tests/JMS/Serializer/Tests/Handler/PropelCollectionHandlerTest.php:15-23 | the basic handler alone serves no Propel class; with the Propel handler added, it is served |
| PropelCollectionHandler.PropelCollection.constructor | src/JMS/Serializer/Handler/PropelCollectionHandler.php:75 | a new collection of the class, holding an empty array |
| PropelCollectionHandler.PropelCollection.SetData | src/JMS/Serializer/Handler/PropelCollectionHandler.php:76 | the data is replaced |
| PropelCollectionHandler.SerializeCollection | src/JMS/Serializer/Handler/PropelCollectionHandler.php:62-68 | one `visitArray` call on the collection's data; its answer is the result |
| PropelCollectionHandler.DeserializeCollection | src/JMS/Serializer/Handler/PropelCollectionHandler.php:70-79 | a fresh `PropelCollection` holding the visitor's answer; serializing it back visits that answer |
| PropelCollectionHandler.CollectionDataReachesVisitArray | src/JMS/Serializer/Handler/PropelCollectionHandler.php:62-68 | with both handlers registered, any Propel collection serialized to JSON goes to `serializeCollection`, which visits exactly the collection's data as `array` with the declared parameters |
| AbstractVisitor.GetElementType | src/JMS/Serializer/Visitor/AbstractVisitor.php:46-57 | none iff there is no parameter; the second parameter if there are two or more; else the first |
| AbstractVisitor.ElementTypeIsTheEntryType | src/JMS/Serializer/Visitor/AbstractVisitor.php:46-57 | for `array<T>` and `array<K, T>` the element type is `T` |
| AbstractVisitor.Prepare | src/JMS/Serializer/Visitor/AbstractVisitor.php:38-41 | data is used as given |
| GenericDeserializationVisitor.FirstWrite | src/JMS/Serializer/Visitor/GenericDeserializationVisitor.php:61-63 | a set result is kept; an unset one takes the new value |
| GenericDeserializationVisitor.FirstNonNull | src/JMS/Serializer/Visitor/GenericDeserializationVisitor.php:61-63 | the first non-null write of a series, which is one of the writes |
| GenericDeserializationVisitor.FirstNonNullWins | src/JMS/Serializer/Visitor/GenericDeserializationVisitor.php:61-63 | over any series of writes, a set result never changes and an unset one ends as the first non-null write |
| GenericDeserializationVisitor.ListEntries | src/JMS/Serializer/Visitor/GenericDeserializationVisitor.php:117-129 | the list has one entry per input entry |
| GenericDeserializationVisitor.ListEntriesAt | src/JMS/Serializer/Visitor/GenericDeserializationVisitor.php:125-127 | entry k has key k and the accepted value of input entry k, whatever the input keys were |
| GenericDeserializationVisitor.MapStep | src/JMS/Serializer/Visitor/GenericDeserializationVisitor.php:139-141 | one more input entry is one more put and two more navigator calls |
| GenericDeserializationVisitor.MapEntriesKeys | src/JMS/Serializer/Visitor/GenericDeserializationVisitor.php:131-143 | the map's keys are exactly the accepted input keys |
| GenericDeserializationVisitor.MapEntriesLastWins | src/JMS/Serializer/Visitor/GenericDeserializationVisitor.php:139-141 | a key's value is the accepted value of the last input entry whose accepted key it is |
| GenericDeserializationVisitor.ListAccepts | src/JMS/Serializer/Visitor/GenericDeserializationVisitor.php:125-127 | a list accepts each input value once, in order, with the element type |
| GenericDeserializationVisitor.MapAccepts | src/JMS/Serializer/Visitor/GenericDeserializationVisitor.php:139-141 | a map makes two navigator calls per entry |
| GenericDeserializationVisitor.MapAcceptsAt | src/JMS/Serializer/Visitor/GenericDeserializationVisitor.php:140 | entry k's key is accepted at call 2k with the key type, its value at 2k+1 with the entry type |
| GenericDeserializationVisitor.ArrayOutcome | src/JMS/Serializer/Visitor/GenericDeserializationVisitor.php:101-148 | non-arrays and more than two parameters are errors, each exactly when it occurs; no parameter returns the data; one a list; two a map |
| GenericDeserializationVisitor.ArrayAccepts | src/JMS/Serializer/Visitor/GenericDeserializationVisitor.php:101-148 | no navigator call unless the array has one or two parameters |
| GenericDeserializationVisitor.PropertyStep | src/JMS/Serializer/Visitor/GenericDeserializationVisitor.php:159-174 | untouched iff the data lacks the translated key; the missing-type error iff the key is present and the property has no type; a null input is assigned as null without a navigator call, anything else is assigned its accepted value |
| GenericDeserializationVisitor.ObjectScope.Enter | src/JMS/Serializer/Visitor/GenericDeserializationVisitor.php:189-193 | the new object is current and the stack grows by one |
| GenericDeserializationVisitor.ObjectScope.Leave | src/JMS/Serializer/Visitor/GenericDeserializationVisitor.php:176-182 | an error iff the stack is empty; else the current object, with the stack one shorter |
| GenericDeserializationVisitor.LeaveUndoesEnter | src/JMS/Serializer/Visitor/GenericDeserializationVisitor.php:176-203 | ending returns the object of the matching start and restores the scope before it |
| GenericDeserializationVisitor.NestedObjectsEndInReverse | src/JMS/Serializer/Visitor/GenericDeserializationVisitor.php:176-203 | nested objects end in reverse order, restoring the outer scope |
| GenericDeserializationVisitor.Visitor.constructor | src/JMS/Serializer/Visitor/AbstractVisitor.php:28-31 | the naming strategy is the one given; no navigator, no result, empty stack |
| GenericDeserializationVisitor.Visitor.GetNamingStrategy | src/JMS/Serializer/Visitor/AbstractVisitor.php:33-36 | the strategy given to the constructor |
| GenericDeserializationVisitor.Visitor.GetResult | src/JMS/Serializer/Visitor/GenericDeserializationVisitor.php:184-187 | the root result field, which the visits set first-write-wins |
| GenericDeserializationVisitor.Visitor.SetNavigator | src/JMS/Serializer/Visitor/GenericDeserializationVisitor.php:40-45 | a fresh traversal: the navigator is set, the result unset, the stack empty |
| GenericDeserializationVisitor.Visitor.VisitNull | src/JMS/Serializer/Visitor/GenericDeserializationVisitor.php:52-55 | null, and the result is left alone |
| GenericDeserializationVisitor.Visitor.VisitString | src/JMS/Serializer/Visitor/GenericDeserializationVisitor.php:57-66 | the cast string, which becomes the result only if none is set |
| GenericDeserializationVisitor.Visitor.VisitBoolean | src/JMS/Serializer/Visitor/GenericDeserializationVisitor.php:68-77 | the cast boolean, first write wins |
| GenericDeserializationVisitor.Visitor.VisitInteger | src/JMS/Serializer/Visitor/GenericDeserializationVisitor.php:79-88 | the cast integer, first write wins |
| GenericDeserializationVisitor.Visitor.VisitDouble | src/JMS/Serializer/Visitor/GenericDeserializationVisitor.php:90-99 | the cast double, first write wins |
| GenericDeserializationVisitor.Visitor.VisitArray | src/JMS/Serializer/Visitor/GenericDeserializationVisitor.php:101-148 | returns `ArrayOutcome` and makes exactly `ArrayAccepts`; an unset result becomes the returned array, an error leaves it unchanged |
| GenericDeserializationVisitor.Visitor.BuildList | src/JMS/Serializer/Visitor/GenericDeserializationVisitor.php:117-129 | the loop builds `ListEntries`; while the result is aliased to the list it follows it, and ends as the list |
| GenericDeserializationVisitor.Visitor.BuildMap | src/JMS/Serializer/Visitor/GenericDeserializationVisitor.php:131-143 | the loop builds `MapEntries`, key before value, with the same aliasing |
| GenericDeserializationVisitor.Visitor.SetCurrentObject | src/JMS/Serializer/Visitor/GenericDeserializationVisitor.php:189-193 | the scope after it is `Enter` of the scope before |
| GenericDeserializationVisitor.Visitor.RevertCurrentObject | src/JMS/Serializer/Visitor/GenericDeserializationVisitor.php:200-203 | popping an empty stack fails and changes nothing; else the popped object becomes current |
| GenericDeserializationVisitor.Visitor.GetCurrentObject | src/JMS/Serializer/Visitor/GenericDeserializationVisitor.php:195-198 | the current object of the visitor's object scope |
| GenericDeserializationVisitor.Visitor.StartVisitingObject | src/JMS/Serializer/Visitor/GenericDeserializationVisitor.php:150-157 | the object becomes current, and the result if none is set |
| GenericDeserializationVisitor.Visitor.EndVisitingObject | src/JMS/Serializer/Visitor/GenericDeserializationVisitor.php:176-182 | returns the current object and restores the previous one, as `Leave` says |
| GenericDeserializationVisitor.Visitor.VisitProperty | src/JMS/Serializer/Visitor/GenericDeserializationVisitor.php:159-174 | exactly the effect `PropertyStep` gives: nothing, the error, or one assignment to the current object |
| Serializer.CallVisitor | src/JMS/Serializer/Serializer.php:76-84 | an unsupported-format error naming format and direction when no visitor is configured; else the callback's outcome on that visitor |
| Serializer.UnsupportedExactlyWithoutVisitor | src/JMS/Serializer/Serializer.php:76-84 | for a callback that never reports an unsupported format, that error occurs iff no visitor is configured |
| Serializer.HandleDeserializeResult | src/JMS/Serializer/Serializer.php:181-189 | the navigator's result exactly when the visitor's is null and the navigator's is not; else the visitor's |
| Serializer.DeserializeResultIsNullOnlyWhenBothAre | src/JMS/Serializer/Serializer.php:181-189 | null iff both are null; a non-null visitor result always wins |
| Serializer.Deserialize | src/JMS/Serializer/Serializer.php:99-111 | an unknown format and a traversal error propagate; else the result that `handleDeserializeResult` chooses |
| Serializer.Flatten | src/JMS/Serializer/Serializer.php:191-203 | arrays and `ArrayObject`s become arrays; every other value is returned unchanged |
| Serializer.FlattenKeepsKeys | src/JMS/Serializer/Serializer.php:196-200 | every key is kept in its position, with its value converted |
| Serializer.FlattenLeavesPlainArrays | src/JMS/Serializer/Serializer.php:191-203 | no `ArrayObject` is left anywhere in the array tree |
| Serializer.FlattenFixesPlainArrays | src/JMS/Serializer/Serializer.php:191-203 | a tree without `ArrayObject`s is left as it is |
| Serializer.FlattenIsIdempotent | src/JMS/Serializer/Serializer.php:191-203 | converting twice is converting once |
| Serializer.ConvertArrayObjects | src/JMS/Serializer/Serializer.php:191-203 | the recursive loop that overwrites each entry produces `Flatten` of its input |
| Serializer.ToArrayResult | src/JMS/Serializer/Serializer.php:131-141 | the converted root when the root is an array or `ArrayObject`; else the not-converted error carrying the result |
| Serializer.ToArray | src/JMS/Serializer/Serializer.php:123-143 | `toArray` with the `json` visitor: lookup error, traversal error, or the checked conversion |
| Serializer.ToArrayYieldsPlainArrays | src/JMS/Serializer/Serializer.php:123-143 | a successful `toArray` is an array with no `ArrayObject` in it |
| Serializer.EnsureContext | src/JMS/Serializer/Serializer.php:101-103 | the given context is used; without one, a fresh context for the direction |

## Left out

- I/O and encodings. These are left out:
  - `decode` in the visitor's `prepare` (GenericDeserializationVisitor.php:47-50);
  - `json_encode` and `sprintf` error texts: errors are datatype values carrying their data;
  - the `var_dump` calls in DeserializerGraphNavigator.php:87 and :105.
- Floating point. `(double)` casts are opaque functions to an integer bit pattern.
- PHP casts. `(string)`, `(boolean)` and `(integer)` are collaborator functions.
- PHP array-key coercion. Numeric-string keys becoming integers is not modelled. Keys are compared as values.
- The collaborators that are not part of this model. Each is only called, through `Env` or a parameter:
  - the `Context` class, so `startVisiting`'s return value is modelled as "the value was absent before";
  - the metadata factory, the event dispatcher and its event objects;
  - the exclusion strategy, the object constructor and the naming strategy;
  - reflection (`property_exists`, `ReflectionMethod::invoke`, `setValue`);
  - `TypeParser`, `TypeDefinition`, `VisitorInterface` and `GraphNavigatorFactory`.
- Exceptions thrown inside collaborators are not modelled. A visitor, handler or constructor is a total oracle `env.answer`.
- Nested recursion. When a visitor or handler calls back into the navigator, that call is not modelled. Each such call appears once in the call trace, and the oracle supplies its answer. The generic visitor's navigator is likewise an oracle `(value, type) -> value`, whose own effects on the visitor are not modelled.
- Serializer.visit: the wiring of navigator, visitor and context (Serializer.php:166-179) is not modelled as a single method. It is modelled only through its parts:
  - `EnsureContext`;
  - `Visitor.SetNavigator`;
  - the navigators' `Accept`.

  `serialize`, `deserialize`, `toArray` and `fromArray` are modelled only after the visitor lookup, with the traversal as a parameter. `getMetadataFactory` is a plain accessor and is left out.
- `toArray`'s error message also names the input's type. The model keeps only the converted result.
- Serializer.EnsureContext: the context's format is fixed at construction. A caller's context must therefore already carry the direction and format that `initialize` would give it.
- GenericDeserializationVisitor.Visitor.VisitProperty models the following cases:

  | data | behaviour |
  |---|---|
  | an array | the translated key is looked up |
  | an object | treated as lacking the key; PHP's `array_key_exists` on objects is not modelled |
  | any other non-null value | treated as lacking the key |

- GenericDeserializationVisitor.Visitor.VisitArray yields the same error for more than two parameters whatever the `TypeDefinition` class does with `$type['params']` in the message (line 146).
- The object stack before `setNavigator`: it is empty in the model, where PHP has no stack at all. Methods that use the navigator or the stack require `setNavigator` first.
- AbstractVisitor.GetElementType: type parameters are `Type` values, so the `instanceof TypeDefinition` test on the second parameter is always true. `hasParam(i)` is read as "there are more than `i` parameters".
- The serializer navigator's `instanceof SerializationContext` check is modelled as a check on the context's direction.
- In the root deserializer navigator, metadata is loaded (and a discriminator resolved) before the visiting check, as the code does.
- PropelCollectionHandler.CollectionDataReachesVisitArray: the test's count and key checks on the JSON output (PropelCollectionHandlerTest.php:29-37) depend on the JSON visitor and on serializing each element object, which are not part of this model; the lemma stops at the `visitArray` call.
- `Graph\GraphNavigator`, the base of the `Graph\` deserializer (Graph/DeserializerGraphNavigator.php:39), is not part of this model. The `Graph\` deserializer's inherited helpers (lifecycle calls, listener checks, `afterVisitingObject`) are taken to be the root `GraphNavigator`'s. The direction constants it supplies there and in BasicHandler.php:65, PropelCollectionHandler.php:44-51 and GenericDeserializationVisitor.php:23 are taken to be the root class's `'serialization'` and `'deserialization'` (GraphNavigator.php:39-40). The registration lemmas depend on that choice.
- The default `prepareObject` (AbstractGraphNavigator.php:115-118) is overridden by the only subclass in scope (DeserializerGraphNavigator.php:140-143), which calls the object constructor; the model has the override only, as `ConstructCall`, so the default is left out. The visitor's default `prepare` is `AbstractVisitor.Prepare`.
- In the `Graph\` deserializer navigator the depth stays raised after an error: as written, the code does not undo `increaseDepth` on an exception path.

## Notes on the code

- Registry method names: `BasicHandler::visitGeneric` calls `visit` plus the type name, e.g. `visitinteger` and `visitNULL`. PHP method names are case-insensitive, so these reach `visitInteger` and `visitNull`. `BasicHandler.ForwardsMatchFastPath` states the equality up to ASCII case.
- The two deserializer navigators tear down in different orders:
  - the `Graph\` one calls `endVisitingObject` first and runs post methods on its result;
  - the root one runs the teardown on the raw data before `endVisitingObject`.

  Both orders are modelled as written.
- The base navigator's post-listener query uses the type name. `AbstractGraphNavigator` uses the metadata name. `TeardownsAgreeOnTheOwnClass` shows they coincide when these are the same.
