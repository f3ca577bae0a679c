/**
 * The deserialization navigator of the `Graph` namespace: every node needs
 * a declared type and goes through the handler registry first (scalars
 * included; the basic handler serves them), then through the class
 * metadata, with discriminator resolution for polymorphic base classes.
 * Its scope is the context's depth counter rather than the visiting set.
 */
module GraphDeserializerNavigator {
  import opened Types
  import opened TraversalContext
  import opened Collaborators
  import opened HandlerRegistry
  import opened GraphNavigator
  import opened Discriminator
  import BasicHandler

  /**
   * The pre-deserialize event: when a listener exists for the type name it
   * is dispatched, and the node continues with the type AND the data the
   * event holds afterwards.
   */
  function PreDeserialize(env: Env, direction: string, format: string, data: Value, t: Type): (r: (Type, Value, seq<Call>))
    ensures !HasListener(env, "pre", t.name, direction, format) ==> r == (t, data, [])
    ensures HasListener(env, "pre", t.name, direction, format) ==>
      var ev := Dispatch(EventName("pre", direction), t.name, format, data, t);
      r == (env.eventType(ev), env.eventData(ev), [ev])
  {
    if HasListener(env, "pre", t.name, direction, format) then
      var ev := Dispatch(EventName("pre", direction), t.name, format, data, t);
      (env.eventType(ev), env.eventData(ev), [ev])
    else (t, data, [])
  }

  /**
   * The object walk: construct the object, start it, visit the properties
   * that are neither read-only nor excluded on the INPUT data, end it, and
   * run the teardown on the value `endVisitingObject` returned, which is the
   * node's result.
   */
  function ObjectWalk(env: Env, direction: string, format: string, m: ClassMetadata, data: Value, t: Type): (r: (Value, seq<Call>))
  {
    var construct := ConstructCall(m.name, data, t);
    var end := EndObject(m.name, data, t);
    var rs := env.answer(end);
    (rs, [construct, StartObject(m.name, env.answer(construct), t)]
         + PropertyVisits(env, m.properties, data, true)
         + [end]
         + PostCalls(env, direction, format, m, rs, t))
  }

  /** A node with its final type and data that no handler takes. */
  function ObjectNode(env: Env, direction: string, format: string, data: Value, t: Type): Node {
    var (mr, loads) := LoadMetadata(env, data, t);
    match mr
    case Err(e) => Node(Err(e), loads)
    case Ok(m) =>
      if env.hasExclusion && env.skipClass(m) then Node(Ok(Null), loads)
      else
        var (rs, walk) := ObjectWalk(env, direction, format, m, data, t);
        Node(Ok(rs), loads + walk)
  }

  /** What `accept` returns and which collaborator calls it makes. */
  function DeserializeNode(env: Env, direction: string, format: string, data: Value, declared: Option<Type>): Node {
    match declared
    case None => Node(Err(TypeNotGiven), [])
    case Some(t0) =>
      var (t, d, pre) := PreDeserialize(env, direction, format, data, t0);
      match Lookup(env.handlers, direction, t.name, format)
      case Some(h) =>
        var c := HandlerCall(h, d, t);
        Node(Ok(env.answer(c)), pre + [c])
      case None =>
        var n := ObjectNode(env, direction, format, d, t);
        Node(n.result, pre + n.calls)
  }

  /**
   * `accept`.  The depth is raised once on entry and lowered once on every
   * exit that returns a value; a missing type fails before anything
   * changes, and a failed discriminator resolution leaves the depth raised.
   * The visiting set and both stacks end as they began.
   */
  method Accept(ctx: Context, env: Env, data: Value, declared: Option<Type>) returns (n: Node)
    modifies ctx
    ensures n == DeserializeNode(env, ctx.direction, ctx.format, data, declared)
    ensures ctx.depth == old(ctx.depth) + (if declared.Some? && n.result.Err? then 1 else 0)
    ensures ctx.visiting == old(ctx.visiting)
    ensures ctx.classStack == old(ctx.classStack) && ctx.propertyStack == old(ctx.propertyStack)
  {
    if declared.None? {
      return Node(Err(TypeNotGiven), []);
    }
    ctx.IncreaseDepth();
    var t := declared.value;
    var d := data;
    var calls: seq<Call> := [];
    if env.hasDispatcher && env.hasListeners(EventName("pre", ctx.direction), t.name, ctx.format) {
      var ev := Dispatch(EventName("pre", ctx.direction), t.name, ctx.format, d, t);
      calls := [ev];
      t := env.eventType(ev);
      d := env.eventData(ev);
    }
    assert (t, d, calls) == PreDeserialize(env, ctx.direction, ctx.format, data, declared.value);
    var handler := Lookup(env.handlers, ctx.direction, t.name, ctx.format);
    if handler.Some? {
      var c := HandlerCall(handler.value, d, t);
      var rs := env.answer(c);
      ctx.DecreaseDepth();
      return Node(Ok(rs), calls + [c]);
    }
    var node := VisitObjectNode(ctx, env, d, t);
    n := Node(node.result, calls + node.calls);
  }

  /**
   * The metadata part of `accept`: load and resolve the metadata, then skip
   * or walk the object.  Lowers the depth unless resolution failed.
   */
  method VisitObjectNode(ctx: Context, env: Env, data: Value, t: Type) returns (n: Node)
    modifies ctx
    ensures n == ObjectNode(env, ctx.direction, ctx.format, data, t)
    ensures ctx.depth == old(ctx.depth) - (if n.result.Err? then 0 else 1)
    ensures ctx.visiting == old(ctx.visiting)
    ensures ctx.classStack == old(ctx.classStack) && ctx.propertyStack == old(ctx.propertyStack)
  {
    var m := env.metadata(t.name);
    var calls := [MetadataLoad(t.name)];
    if |m.discriminatorMap| > 0 && t.name == m.discriminatorBaseClass {
      var resolved := ResolveMetadata(env, data, m);
      if resolved.Err? {
        return Node(Err(resolved.error), calls);
      }
      calls := calls + [MetadataLoad(m.discriminatorMap[DiscriminatorValue(env, data, m.discriminatorFieldName).value])];
      ghost var m0 := m;
      m := resolved.value;
      assert m0 == env.metadata(t.name) && NeedsResolution(t, m0);
      assert resolved == Ok(m);
      assert calls == [MetadataLoad(t.name), MetadataLoad(m0.discriminatorMap[DiscriminatorValue(env, data, m0.discriminatorFieldName).value])];
      assert (Ok(m), calls) == LoadMetadata(env, data, t);
    } else {
      assert (Ok(m), calls) == LoadMetadata(env, data, t);
    }
    if env.hasExclusion && env.skipClass(m) {
      ctx.DecreaseDepth();
      return Node(Ok(Null), calls);
    }
    var rs, walk := WalkObject(ctx, env, m, data, t);
    n := Node(Ok(rs), calls + walk);
  }

  /** The object walk of `accept`, ending with the depth-lowering teardown. */
  method WalkObject(ctx: Context, env: Env, m: ClassMetadata, data: Value, t: Type) returns (rs: Value, calls: seq<Call>)
    modifies ctx
    ensures (rs, calls) == ObjectWalk(env, ctx.direction, ctx.format, m, data, t)
    ensures ctx.depth == old(ctx.depth) - 1
    ensures ctx.visiting == old(ctx.visiting)
    ensures ctx.classStack == old(ctx.classStack) && ctx.propertyStack == old(ctx.propertyStack)
  {
    ctx.PushClassMetadata(m);
    var construct := ConstructCall(m.name, data, t);
    var obj := env.answer(construct);
    var visits := VisitProperties(ctx, env, m.properties, data, true);
    var end := EndObject(m.name, data, t);
    rs := env.answer(end);
    var post := AfterVisitingObject(ctx, env, m, rs, t, DepthCounter);
    calls := [construct, StartObject(m.name, obj, t)] + visits + [end] + post;
  }

  /** A missing type is refused with no call made. */
  lemma TypeIsRequired(env: Env, direction: string, format: string, data: Value)
    ensures DeserializeNode(env, direction, format, data, None) == Node(Err(TypeNotGiven), [])
  {
  }

  /**
   * A pre listener may replace both the data and the type: the handler that
   * is looked up, and what it is given, are the ones the event holds.
   */
  lemma ListenerReplacesDataAndType(env: Env, direction: string, format: string, data: Value, t0: Type)
    requires HasListener(env, "pre", t0.name, direction, format)
    ensures var ev := Dispatch(EventName("pre", direction), t0.name, format, data, t0);
      var h := Lookup(env.handlers, direction, env.eventType(ev).name, format);
      var n := DeserializeNode(env, direction, format, data, Some(t0));
      |n.calls| >= 2 && n.calls[0] == ev
      && (h.Some? ==> n.calls == [ev, HandlerCall(h.value, env.eventData(ev), env.eventType(ev))])
      && (h.None? ==> n.calls[1] == MetadataLoad(env.eventType(ev).name))
  {
  }

  /** A handler's answer is the result, and no metadata is fetched. */
  lemma HandlerTakesPrecedence(env: Env, direction: string, format: string, data: Value, t0: Type)
    requires Lookup(env.handlers, direction, PreDeserialize(env, direction, format, data, t0).0.name, format).Some?
    ensures var n := DeserializeNode(env, direction, format, data, Some(t0));
      n.calls != [] && n.calls[|n.calls| - 1].HandlerCall?
      && n.result == Ok(env.answer(n.calls[|n.calls| - 1]))
      && forall c :: c in n.calls ==> !c.MetadataLoad? && !c.ConstructCall?
  {
    var pre := PreDeserialize(env, direction, format, data, t0);
    assert forall c :: c in pre.2 ==> c.Dispatch?;
  }

  /**
   * A class the exclusion strategy skips yields null once its metadata is
   * loaded (and resolved): after the pre event, the only calls are the
   * metadata loads, so nothing is constructed, started or visited.
   */
  lemma ExcludedClassYieldsNull(env: Env, direction: string, format: string, data: Value, t0: Type)
    requires var (t, d, _) := PreDeserialize(env, direction, format, data, t0);
      Lookup(env.handlers, direction, t.name, format).None?
      && LoadMetadata(env, d, t).0.Ok? && env.hasExclusion && env.skipClass(LoadMetadata(env, d, t).0.value)
    ensures var (t, d, pre) := PreDeserialize(env, direction, format, data, t0);
      DeserializeNode(env, direction, format, data, Some(t0)) == Node(Ok(Null), pre + LoadMetadata(env, d, t).1)
    ensures forall c :: c in DeserializeNode(env, direction, format, data, Some(t0)).calls ==> c.Dispatch? || c.MetadataLoad?
  {
    var pre := PreDeserialize(env, direction, format, data, t0);
    assert forall c :: c in pre.2 ==> c.Dispatch?;
  }

  /**
   * With the basic handler registered, a generic scalar type is served by
   * its `visitGeneric` in either direction and any format: a single handler
   * call on the data, whose answer is the result.
   */
  lemma BasicHandlerServesScalars(env: Env, owner: string, direction: string, format: string, data: Value, k: nat)
    requires k < |BasicHandler.GenericTypes|
    requires env.handlers == StoreAll(map[], Registrations(owner, BasicHandler.SubscribingMethods()).0)
    requires direction == Serialization || direction == Deserialization
    requires !HasListener(env, "pre", BasicHandler.GenericTypes[k], direction, format)
    ensures var t := Type(BasicHandler.GenericTypes[k], []);
      var c := HandlerCall(HandlerRef(owner, "visitGeneric"), data, t);
      DeserializeNode(env, direction, format, data, Some(t)) == Node(Ok(env.answer(c)), [c])
  {
    BasicHandler.RegisteredForBothDirectionsAndEveryFormat(owner, k, direction, format);
    assert BasicHandler.SubscribingMethods()[k]
      == MethodData(None, Some(BasicHandler.GenericTypes[k]), None, Some("visitGeneric"));
    HandlerNode(env, direction, format, data, Type(BasicHandler.GenericTypes[k], []), HandlerRef(owner, "visitGeneric"));
  }

  /** Without a pre listener, a handler found for the type is the node's one call. */
  lemma HandlerNode(env: Env, direction: string, format: string, data: Value, t: Type, h: HandlerRef)
    requires !HasListener(env, "pre", t.name, direction, format)
    requires Lookup(env.handlers, direction, t.name, format) == Some(h)
    ensures DeserializeNode(env, direction, format, data, Some(t)) == Node(Ok(env.answer(HandlerCall(h, data, t))), [HandlerCall(h, data, t)])
  {
  }

  /**
   * Discriminator resolution happens exactly for a non-empty map requested
   * under its base class; a missing field or an unmapped value is an error
   * raised before the object is constructed.
   */
  lemma ResolutionOnlyForTheBaseClass(env: Env, direction: string, format: string, data: Value, t: Type)
    ensures var m := env.metadata(t.name);
      var n := ObjectNode(env, direction, format, data, t);
      (!NeedsResolution(t, m) ==> n.result.Ok?)
      && (NeedsResolution(t, m) && ResolveMetadata(env, data, m).Err? ==>
            n == Node(Err(ResolveMetadata(env, data, m).error), [MetadataLoad(t.name)]))
  {
  }

  /**
   * The object walk: the constructed object is what the visitor starts, the
   * properties visited are exactly those neither read-only nor excluded,
   * and the teardown runs on the result after `endVisitingObject`.
   */
  lemma ObjectWalkShape(env: Env, direction: string, format: string, m: ClassMetadata, data: Value, t: Type)
    ensures var (rs, walk) := ObjectWalk(env, direction, format, m, data, t);
      var visits := PropertyVisits(env, m.properties, data, true);
      rs == env.answer(EndObject(m.name, data, t))
      && walk[..2] == [ConstructCall(m.name, data, t), StartObject(m.name, env.answer(ConstructCall(m.name, data, t)), t)]
      && walk[2 + |visits|..] == [EndObject(m.name, data, t)] + PostCalls(env, direction, format, m, rs, t)
      && (forall p :: p in m.properties && !p.readOnly && !(env.hasExclusion && env.skipProperty(p)) ==>
            PropertyVisit(p.name, data) in walk)
      && (forall name, d :: PropertyVisit(name, d) in walk ==>
            d == data && exists p :: p in m.properties && p.name == name && !p.readOnly && !(env.hasExclusion && env.skipProperty(p)))
  {
    WalkParts(env, direction, format, m, data, t);
    WalkVisits(env, direction, format, m, data, t);
  }

  /** The walk is the head, the visits and the tail. */
  lemma WalkParts(env: Env, direction: string, format: string, m: ClassMetadata, data: Value, t: Type)
    ensures var walk := ObjectWalk(env, direction, format, m, data, t).1;
      var visits := PropertyVisits(env, m.properties, data, true);
      var rs := env.answer(EndObject(m.name, data, t));
      walk[..2] == [ConstructCall(m.name, data, t), StartObject(m.name, env.answer(ConstructCall(m.name, data, t)), t)]
      && walk[2 + |visits|..] == [EndObject(m.name, data, t)] + PostCalls(env, direction, format, m, rs, t)
  {
    var walk := ObjectWalk(env, direction, format, m, data, t).1;
    var visits := PropertyVisits(env, m.properties, data, true);
    var rs := env.answer(EndObject(m.name, data, t));
    var head := [ConstructCall(m.name, data, t), StartObject(m.name, env.answer(ConstructCall(m.name, data, t)), t)];
    var tail := [EndObject(m.name, data, t)] + PostCalls(env, direction, format, m, rs, t);
    assert walk == head + visits + tail;
    Parts(head, visits, tail);
  }

  /** Exactly the kept properties are visited, on the input data. */
  lemma WalkVisits(env: Env, direction: string, format: string, m: ClassMetadata, data: Value, t: Type)
    ensures var walk := ObjectWalk(env, direction, format, m, data, t).1;
      (forall p :: p in m.properties && !p.readOnly && !(env.hasExclusion && env.skipProperty(p)) ==>
         PropertyVisit(p.name, data) in walk)
      && (forall name, d :: PropertyVisit(name, d) in walk ==>
            d == data && exists p :: p in m.properties && p.name == name && !p.readOnly && !(env.hasExclusion && env.skipProperty(p)))
  {
    var walk := ObjectWalk(env, direction, format, m, data, t).1;
    var visits := PropertyVisits(env, m.properties, data, true);
    var rs := env.answer(EndObject(m.name, data, t));
    var post := PostCalls(env, direction, format, m, rs, t);
    var head := [ConstructCall(m.name, data, t), StartObject(m.name, env.answer(ConstructCall(m.name, data, t)), t)];
    var tail := [EndObject(m.name, data, t)] + post;
    assert walk == head + visits + tail;
    assert forall c :: c in post ==> c.LifecycleCall? || c.Dispatch?;
    VisitsInside(head, visits, tail);
    PropertyVisitsExactlyTheKept(env, m.properties, data, true);
  }

}
