/**
 * The serialization navigator: one `accept` call on one node of the object
 * graph.  Scalars and arrays go straight to the visitor; anything else is
 * guarded against cycles by the context's visiting set, may be re-typed to
 * its runtime subclass and by a pre-serialize listener, and is then either
 * handed to a registered custom handler or walked property by property
 * with the class metadata.
 */
module SerializerGraphNavigator {
  import opened Types
  import opened TraversalContext
  import opened Collaborators
  import opened HandlerRegistry
  import opened GraphNavigator

  /**
   * The type a node is visited with before the switch: the runtime type
   * (class name for objects) when none is declared, `NULL` for null data
   * whatever was declared, else the declared type.
   */
  function InferredType(data: Value, declared: Option<Type>): (t: Type)
    ensures data.Null? ==> t == Type("NULL", [])
    ensures declared.None? ==> t == Type(TypeNameOf(data), [])
    ensures declared.None? && IsObject(data) ==> t.name == ClassOf(data)
    ensures declared.Some? && !data.Null? ==> t == declared.value
  {
    if declared.None? then Type(TypeNameOf(data), [])
    else if data.Null? then Type("NULL", [])
    else declared.value
  }

  /**
   * The polymorphic re-typing: an object whose class is a proper subclass
   * of an existing class or interface `t` is visited as its own class,
   * without parameters.
   */
  function PolymorphicType(env: Env, data: Value, t: Type): (r: Type)
    ensures r != t ==> IsObject(data) && r == Type(ClassOf(data), [])
    ensures IsObject(data) && env.classExists(t.name) && env.isSubclass(ClassOf(data), t.name) ==>
      r == Type(ClassOf(data), [])
    ensures !(IsObject(data) && env.classExists(t.name) && env.isSubclass(ClassOf(data), t.name)) ==> r == t
  {
    if env.classExists(t.name) && IsObject(data) && env.isSubclass(ClassOf(data), t.name)
    then Type(ClassOf(data), [])
    else t
  }

  /**
   * The pre-serialize event: dispatched under the current type name when a
   * listener exists, after which the node takes the type the event holds.
   */
  function PreSerialize(env: Env, format: string, data: Value, t: Type): (r: (Type, seq<Call>))
    ensures !HasListener(env, "pre", t.name, Serialization, format) ==> r == (t, [])
    ensures HasListener(env, "pre", t.name, Serialization, format) ==>
      |r.1| == 1 && r.1[0] == Dispatch("serializer.pre_serialize", t.name, format, data, t)
      && r.0 == env.eventType(r.1[0])
  {
    if HasListener(env, "pre", t.name, Serialization, format) then
      assert EventName("pre", Serialization) == "serializer.pre_serialize";
      var ev := Dispatch(EventName("pre", Serialization), t.name, format, data, t);
      (env.eventType(ev), [ev])
    else (t, [])
  }

  /** The calls of an object node that no handler takes and no exclusion skips. */
  function ObjectWalk(env: Env, format: string, m: ClassMetadata, data: Value, t: Type): seq<Call> {
    LifecycleCalls(m, LifecycleProperty("pre", Serialization), data)
    + [StartObject(m.name, data, t)]
    + PropertyVisits(env, m.properties, data, false)
    + PostCalls(env, Serialization, format, m, data, t)
    + [EndObject(m.name, data, t)]
  }

  /** The part of the default branch after the cycle guard. */
  function SerializeObject(env: Env, format: string, data: Value, t0: Type): Node {
    var pre := PreSerialize(env, format, data, PolymorphicType(env, data, t0));
    var t := pre.0;
    match Lookup(env.handlers, Serialization, t.name, format)
    case Some(h) =>
      var c := HandlerCall(h, data, t);
      Node(Ok(env.answer(c)), pre.1 + [c])
    case None =>
      var m := env.metadata(t.name);
      if env.hasExclusion && env.skipClass(m) then Node(Ok(Null), pre.1 + [MetadataLoad(t.name)])
      else Node(Ok(env.answer(EndObject(m.name, data, t))), pre.1 + [MetadataLoad(t.name)] + ObjectWalk(env, format, m, data, t))
  }

  /**
   * What `accept` returns and which collaborator calls it makes, given the
   * context's direction, format and visiting set on entry.
   */
  function SerializeNode(env: Env, direction: string, format: string, visiting: set<Value>, data: Value, declared: Option<Type>): Node {
    if direction != Serialization then Node(Err(NotSerializationContext), [])
    else
      var t := InferredType(data, declared);
      match ScalarVisitMethod(t.name)
      case Some(visit) =>
        var c := VisitorCall(visit, data, t);
        Node(Ok(env.answer(c)), [c])
      case None =>
        if t.name == "resource" then Node(Err(ResourceNotSupported(env.path)), [])
        else if data != Null && data in visiting then Node(Ok(Null), [])
        else SerializeObject(env, format, data, t)
  }

  /**
   * `accept` in serialization.  Every path leaves the visiting set, both
   * metadata stacks and the depth as they were on entry.
   */
  method Accept(ctx: Context, env: Env, data: Value, declared: Option<Type>) returns (n: Node)
    modifies ctx
    ensures n == SerializeNode(env, ctx.direction, ctx.format, old(ctx.visiting), data, declared)
    ensures ctx.visiting == old(ctx.visiting)
    ensures ctx.classStack == old(ctx.classStack) && ctx.propertyStack == old(ctx.propertyStack)
    ensures ctx.depth == old(ctx.depth)
  {
    if ctx.direction != Serialization {
      return Node(Err(NotSerializationContext), []);
    }
    var t: Type;
    if declared.None? {
      t := Type(TypeNameOf(data), []);
    } else if data == Null {
      t := Type("NULL", []);
    } else {
      t := declared.value;
    }
    var fast := ScalarVisitMethod(t.name);
    if fast.Some? {
      var c := VisitorCall(fast.value, data, t);
      return Node(Ok(env.answer(c)), [c]);
    }
    if t.name == "resource" {
      return Node(Err(ResourceNotSupported(env.path)), []);
    }
    if data != Null {
      if ctx.IsVisiting(data) {
        return Node(Ok(Null), []);
      }
      var added := ctx.StartVisiting(data);
    }
    n := VisitObjectNode(ctx, env, data, t);
  }

  /**
   * The default branch once `data` is in the visiting set: re-typing, the
   * pre event, then a handler or the metadata walk.  It leaves `data` out
   * of the visiting set again and the stacks and depth as they were.
   */
  method VisitObjectNode(ctx: Context, env: Env, data: Value, t0: Type) returns (n: Node)
    requires ctx.direction == Serialization
    modifies ctx
    ensures n == SerializeObject(env, ctx.format, data, t0)
    ensures ctx.visiting == old(ctx.visiting) - {data}
    ensures ctx.classStack == old(ctx.classStack) && ctx.propertyStack == old(ctx.propertyStack)
    ensures ctx.depth == old(ctx.depth)
  {
    var t, calls := Retype(env, ctx.format, data, t0);
    var handler := Lookup(env.handlers, ctx.direction, t.name, ctx.format);
    if handler.Some? {
      var c := HandlerCall(handler.value, data, t);
      var rs := env.answer(c);
      ctx.StopVisiting(data);
      return Node(Ok(rs), calls + [c]);
    }
    var m := env.metadata(t.name);
    calls := calls + [MetadataLoad(t.name)];
    if env.hasExclusion && env.skipClass(m) {
      ctx.StopVisiting(data);
      return Node(Ok(Null), calls);
    }
    var walk := WalkObject(ctx, env, m, data, t);
    n := Node(Ok(env.answer(EndObject(m.name, data, t))), calls + walk);
  }

  /** The re-typing of a subclass instance, then the pre event, which may change the type again. */
  method Retype(env: Env, format: string, data: Value, t0: Type) returns (t: Type, calls: seq<Call>)
    ensures (t, calls) == PreSerialize(env, format, data, PolymorphicType(env, data, t0))
  {
    t := t0;
    if env.classExists(t.name) && IsObject(data) && env.isSubclass(ClassOf(data), t.name) {
      t := Type(ClassOf(data), []);
    }
    calls := [];
    if env.hasDispatcher && env.hasListeners(EventName("pre", Serialization), t.name, format) {
      var ev := Dispatch(EventName("pre", Serialization), t.name, format, data, t);
      calls := [ev];
      t := env.eventType(ev);
    }
  }

  /**
   * The metadata walk: push the metadata, pre lifecycle methods, start,
   * the properties, the teardown (which pops the metadata and leaves the
   * visiting set), then the end.
   */
  method WalkObject(ctx: Context, env: Env, m: ClassMetadata, data: Value, t: Type) returns (calls: seq<Call>)
    requires ctx.direction == Serialization
    modifies ctx
    ensures calls == ObjectWalk(env, ctx.format, m, data, t)
    ensures ctx.visiting == old(ctx.visiting) - {data}
    ensures ctx.classStack == old(ctx.classStack) && ctx.propertyStack == old(ctx.propertyStack)
    ensures ctx.depth == old(ctx.depth)
  {
    ctx.PushClassMetadata(m);
    var pre := CallLifecycleMethods("pre", m, ctx.direction, data);
    var visits := VisitProperties(ctx, env, m.properties, data, false);
    var post := AfterVisitingObject(ctx, env, m, data, t, VisitingSet);
    assert ctx.classStack == old(ctx.classStack);
    calls := pre + [StartObject(m.name, data, t)] + visits + post + [EndObject(m.name, data, t)];
  }

  /** Null data is always visited as `NULL`, whatever type was declared. */
  lemma NullIsVisitedAsNull(env: Env, format: string, visiting: set<Value>, declared: Option<Type>)
    ensures var c := VisitorCall("visitNull", Null, Type("NULL", []));
      SerializeNode(env, Serialization, format, visiting, Null, declared) == Node(Ok(env.answer(c)), [c])
  {
  }

  /**
   * Scalars and arrays make exactly one visitor call and return its result:
   * no handler, no metadata, no events.
   */
  lemma ScalarsGoToTheVisitor(env: Env, format: string, visiting: set<Value>, data: Value, declared: Option<Type>)
    requires ScalarVisitMethod(InferredType(data, declared).name).Some?
    ensures var t := InferredType(data, declared);
      var n := SerializeNode(env, Serialization, format, visiting, data, declared);
      n.calls == [VisitorCall(ScalarVisitMethod(t.name).value, data, t)]
      && n.result == Ok(env.answer(n.calls[0]))
  {
  }

  /**
   * A node typed `resource`, whether inferred from resource data or
   * declared for any non-null data, is refused with the context's path and
   * no call.
   */
  lemma ResourcesAreRefused(env: Env, format: string, visiting: set<Value>, data: Value, declared: Option<Type>)
    requires InferredType(data, declared).name == "resource"
    ensures SerializeNode(env, Serialization, format, visiting, data, declared)
      == Node(Err(ResourceNotSupported(env.path)), [])
  {
  }

  /** Only a serialization context is accepted. */
  lemma OnlySerializationContexts(env: Env, direction: string, format: string, visiting: set<Value>, data: Value, declared: Option<Type>)
    ensures SerializeNode(env, direction, format, visiting, data, declared).result == Err(NotSerializationContext)
      <==> direction != Serialization
  {
  }

  /**
   * Cycle detection: an object reached again while it is still being visited
   * yields null and makes no call at all.
   */
  lemma RevisitYieldsNull(env: Env, format: string, visiting: set<Value>, data: Value, declared: Option<Type>)
    requires IsObject(data)
    requires ScalarVisitMethod(InferredType(data, declared).name).None?
    requires InferredType(data, declared).name != "resource"
    ensures SerializeNode(env, Serialization, format, visiting + {data}, data, declared) == Node(Ok(Null), [])
  {
  }

  /**
   * An object given with a parent class or interface as its type is
   * serialized with the metadata of its own class (when no listener or
   * handler intervenes).
   */
  lemma SubclassUsesItsOwnMetadata(env: Env, format: string, visiting: set<Value>, data: Value, base: Type)
    requires IsObject(data) && data !in visiting
    requires ScalarVisitMethod(base.name).None? && base.name != "resource"
    requires env.classExists(base.name) && env.isSubclass(ClassOf(data), base.name)
    requires !HasListener(env, "pre", ClassOf(data), Serialization, format)
    requires Lookup(env.handlers, Serialization, ClassOf(data), format).None?
    ensures SerializeNode(env, Serialization, format, visiting, data, Some(base)).calls[0] == MetadataLoad(ClassOf(data))
  {
  }

  /**
   * A pre-serialize listener sees the node first, and the handler lookup and
   * the metadata use the type it leaves in the event.
   */
  lemma ListenerChoosesTheType(env: Env, format: string, data: Value, t0: Type)
    requires HasListener(env, "pre", PolymorphicType(env, data, t0).name, Serialization, format)
    ensures var n := SerializeObject(env, format, data, t0);
      var t := PolymorphicType(env, data, t0);
      var ev := Dispatch("serializer.pre_serialize", t.name, format, data, t);
      |n.calls| >= 2 && n.calls[0] == ev
      && (Lookup(env.handlers, Serialization, env.eventType(ev).name, format).None? ==>
            n.calls[1] == MetadataLoad(env.eventType(ev).name))
      && (Lookup(env.handlers, Serialization, env.eventType(ev).name, format).Some? ==>
            n.calls[1] == HandlerCall(Lookup(env.handlers, Serialization, env.eventType(ev).name, format).value, data, env.eventType(ev)))
  {
  }

  /**
   * A registered handler takes the node before any metadata is loaded: its
   * answer is the result, and it is the last call made.
   */
  lemma HandlerTakesPrecedence(env: Env, format: string, data: Value, t0: Type)
    requires Lookup(env.handlers, Serialization, PreSerialize(env, format, data, PolymorphicType(env, data, t0)).0.name, format).Some?
    ensures var n := SerializeObject(env, format, data, t0);
      n.calls != [] && n.calls[|n.calls| - 1].HandlerCall?
      && n.result == Ok(env.answer(n.calls[|n.calls| - 1]))
      && forall c :: c in n.calls ==> !c.MetadataLoad? && !c.StartObject? && !c.PropertyVisit?
  {
    var pre := PreSerialize(env, format, data, PolymorphicType(env, data, t0));
    assert forall c :: c in pre.1 ==> c.Dispatch?;
  }

  /** An excluded class is loaded but not walked: the node is null. */
  lemma ExcludedClassYieldsNull(env: Env, format: string, data: Value, t0: Type)
    requires var t := PreSerialize(env, format, data, PolymorphicType(env, data, t0)).0;
      Lookup(env.handlers, Serialization, t.name, format).None?
      && env.hasExclusion && env.skipClass(env.metadata(t.name))
    ensures var n := SerializeObject(env, format, data, t0);
      n.result == Ok(Null) && n.calls != [] && n.calls[|n.calls| - 1].MetadataLoad?
      && forall c :: c in n.calls ==> !c.StartObject? && !c.PropertyVisit? && !c.EndObject?
  {
    var pre := PreSerialize(env, format, data, PolymorphicType(env, data, t0));
    assert forall c :: c in pre.1 ==> c.Dispatch?;
  }

  /**
   * The object walk: the visitor's end-of-object answer is the result, it is
   * the last call, and exactly the properties the exclusion strategy keeps
   * are visited (read-only ones included), on the node's own data.
   */
  lemma ObjectWalkVisitsTheKeptProperties(env: Env, format: string, m: ClassMetadata, data: Value, t: Type)
    ensures var w := ObjectWalk(env, format, m, data, t);
      w[|w| - 1] == EndObject(m.name, data, t)
      && (forall p :: p in m.properties && !(env.hasExclusion && env.skipProperty(p)) ==> PropertyVisit(p.name, data) in w)
      && (forall name, d :: PropertyVisit(name, d) in w ==>
            d == data && exists p :: p in m.properties && p.name == name && !Skipped(env, p, false))
  {
    var pre := LifecycleCalls(m, LifecycleProperty("pre", Serialization), data);
    var visits := PropertyVisits(env, m.properties, data, false);
    var post := PostCalls(env, Serialization, format, m, data, t);
    var head := pre + [StartObject(m.name, data, t)];
    var tail := post + [EndObject(m.name, data, t)];
    assert ObjectWalk(env, format, m, data, t) == head + visits + tail;
    assert forall c :: c in post ==> c.LifecycleCall? || c.Dispatch?;
    VisitsInside(head, visits, tail);
    PropertyVisitsExactlyTheKept(env, m.properties, data, false);
  }
}
