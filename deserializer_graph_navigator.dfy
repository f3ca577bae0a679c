/**
 * The older deserialization navigator (root namespace, on the abstract
 * base): a declared type is required, scalars and arrays go straight to the
 * visitor, anything else may be re-typed and replaced by a pre listener,
 * goes to a handler if one is registered, and is otherwise constructed and
 * filled property by property under the visiting-set cycle guard.
 */
module DeserializerGraphNavigator {
  import opened Types
  import opened TraversalContext
  import opened Collaborators
  import opened HandlerRegistry
  import opened GraphNavigator
  import opened Discriminator
  import AbstractGraphNavigator
  import GraphDeserializerNavigator

  /** The verb this navigator names its lifecycle properties and events with. */
  const Verb: string := "deserialize"

  /**
   * The object walk: construct the object, invoke the pre methods on the
   * RAW input data, start the constructed object, visit the properties that
   * are neither read-only nor excluded, tear down (on the input data), and
   * end; the end-of-object answer is the node's result.
   */
  function ObjectWalk(env: Env, format: string, m: ClassMetadata, data: Value, t: Type): (r: (Value, seq<Call>))
  {
    var construct := ConstructCall(m.name, data, t);
    var end := EndObject(m.name, data, t);
    (env.answer(end),
     [construct]
     + LifecycleCalls(m, AbstractGraphNavigator.MethodsProperty("pre", Verb), data)
     + [StartObject(m.name, env.answer(construct), t)]
     + PropertyVisits(env, m.properties, data, true)
     + AbstractGraphNavigator.AbstractPostCalls(env, Verb, format, m, data, t)
     + [end])
  }

  /** A node with its final type and data that no handler takes. */
  function ObjectNode(env: Env, format: string, visiting: set<Value>, data: Value, t: Type): Node {
    var (mr, loads) := LoadMetadata(env, data, t);
    match mr
    case Err(e) => Node(Err(e), loads)
    case Ok(m) =>
      if data in visiting then Node(Ok(Null), loads)
      else if env.hasExclusion && env.skipClass(m) then Node(Ok(Null), loads)
      else
        var (rs, walk) := ObjectWalk(env, format, m, data, t);
        Node(Ok(rs), loads + walk)
  }

  /** What `accept` returns and which calls it makes, given the visiting set on entry. */
  function DeserializeNode(env: Env, direction: string, format: string, visiting: set<Value>, data: Value, declared: Option<Type>): Node {
    match AbstractGraphNavigator.FindType(declared)
    case Err(e) => Node(Err(e), [])
    case Ok(t0) =>
      match ScalarVisitMethod(t0.name)
      case Some(visit) =>
        var c := VisitorCall(visit, data, t0);
        Node(Ok(env.answer(c)), [c])
      case None =>
        var (t, d, pre) := GraphDeserializerNavigator.PreDeserialize(env, Deserialization, format, data, t0);
        match Lookup(env.handlers, direction, t.name, format)
        case Some(h) =>
          var c := HandlerCall(h, d, t);
          Node(Ok(env.answer(c)), pre + [c])
        case None =>
          var n := ObjectNode(env, format, visiting, d, t);
          Node(n.result, pre + n.calls)
  }

  /**
   * `accept`.  Every path leaves the visiting set, both metadata stacks and
   * the depth as they were on entry.
   */
  method Accept(ctx: Context, env: Env, data: Value, declared: Option<Type>) returns (n: Node)
    modifies ctx
    ensures n == DeserializeNode(env, ctx.direction, ctx.format, old(ctx.visiting), data, declared)
    ensures ctx.visiting == old(ctx.visiting)
    ensures ctx.classStack == old(ctx.classStack) && ctx.propertyStack == old(ctx.propertyStack)
    ensures ctx.depth == old(ctx.depth)
  {
    var found := AbstractGraphNavigator.FindType(declared);
    if found.Err? {
      return Node(Err(found.error), []);
    }
    var t := found.value;
    var fast := ScalarVisitMethod(t.name);
    if fast.Some? {
      var c := VisitorCall(fast.value, data, t);
      return Node(Ok(env.answer(c)), [c]);
    }
    var d := data;
    var calls: seq<Call> := [];
    AbstractGraphNavigator.EventNamesAgree(env, "pre", t.name, ctx.format);
    if AbstractGraphNavigator.HasListeners(env, "pre", t.name, Verb, ctx.format) {
      var ev := Dispatch(AbstractGraphNavigator.ListenerEvent("pre", Verb), t.name, ctx.format, d, t);
      calls := [ev];
      t := env.eventType(ev);
      d := env.eventData(ev);
    }
    assert (t, d, calls) == GraphDeserializerNavigator.PreDeserialize(env, Deserialization, ctx.format, data, found.value);
    var handler := Lookup(env.handlers, ctx.direction, t.name, ctx.format);
    if handler.Some? {
      var c := HandlerCall(handler.value, d, t);
      return Node(Ok(env.answer(c)), calls + [c]);
    }
    var node := VisitObjectNode(ctx, env, d, t);
    n := Node(node.result, calls + node.calls);
  }

  /**
   * The metadata part of `accept`: the metadata (resolved for a polymorphic
   * base) is loaded BEFORE the cycle guard, then the guard, the exclusion
   * check and the object walk.
   */
  method VisitObjectNode(ctx: Context, env: Env, data: Value, t: Type) returns (n: Node)
    modifies ctx
    ensures n == ObjectNode(env, ctx.format, old(ctx.visiting), data, t)
    ensures ctx.visiting == old(ctx.visiting)
    ensures ctx.classStack == old(ctx.classStack) && ctx.propertyStack == old(ctx.propertyStack)
    ensures ctx.depth == old(ctx.depth)
  {
    var m := AbstractGraphNavigator.GetMetadataForClass(env, t, data);
    var calls := [MetadataLoad(t.name)];
    if |m.discriminatorMap| > 0 && t.name == m.discriminatorBaseClass {
      var resolved := ResolveMetadata(env, data, m);
      if resolved.Err? {
        return Node(Err(resolved.error), calls);
      }
      calls := calls + [MetadataLoad(m.discriminatorMap[DiscriminatorValue(env, data, m.discriminatorFieldName).value])];
      ghost var base := m;
      m := resolved.value;
      assert base == env.metadata(t.name) && NeedsResolution(t, base);
      assert resolved == Ok(m);
      assert calls == [MetadataLoad(t.name), MetadataLoad(base.discriminatorMap[DiscriminatorValue(env, data, base.discriminatorFieldName).value])];
      assert (Ok(m), calls) == LoadMetadata(env, data, t);
    } else {
      assert m == env.metadata(t.name) && !NeedsResolution(t, m);
      assert (Ok(m), calls) == LoadMetadata(env, data, t);
    }
    var added := ctx.StartVisiting(data);
    if !added {
      return Node(Ok(Null), calls);
    }
    if env.hasExclusion && env.skipClass(m) {
      ctx.StopVisiting(data);
      return Node(Ok(Null), calls);
    }
    var rs, walk := WalkObject(ctx, env, m, data, t);
    n := Node(Ok(rs), calls + walk);
  }

  /** The object walk of `accept`, ending with the abstract base's teardown. */
  method WalkObject(ctx: Context, env: Env, m: ClassMetadata, data: Value, t: Type) returns (rs: Value, calls: seq<Call>)
    modifies ctx
    ensures (rs, calls) == ObjectWalk(env, ctx.format, m, data, t)
    ensures ctx.visiting == old(ctx.visiting) - {data}
    ensures ctx.classStack == old(ctx.classStack) && ctx.propertyStack == old(ctx.propertyStack)
    ensures ctx.depth == old(ctx.depth)
  {
    ctx.PushClassMetadata(m);
    var construct := ConstructCall(m.name, data, t);
    var obj := env.answer(construct);
    var methods := AbstractGraphNavigator.GetMethods("pre", m, Verb);
    var pre: seq<Call> := [];
    var i := 0;
    while i < |methods|
      invariant 0 <= i <= |methods|
      invariant |pre| == i
      invariant forall k :: 0 <= k < i ==> pre[k] == LifecycleCall(methods[k], data)
    {
      pre := pre + [LifecycleCall(methods[i], data)];
      i := i + 1;
    }
    assert pre == LifecycleCalls(m, AbstractGraphNavigator.MethodsProperty("pre", Verb), data);
    var visits := VisitProperties(ctx, env, m.properties, data, true);
    var post := AbstractGraphNavigator.AfterVisitingObject(ctx, env, Verb, m, data, t);
    var end := EndObject(m.name, data, t);
    rs := env.answer(end);
    calls := [construct] + pre + [StartObject(m.name, obj, t)] + visits + post + [end];
  }

  /** A missing type is refused by `findType` with no call made. */
  lemma TypeIsRequired(env: Env, direction: string, format: string, visiting: set<Value>, data: Value)
    ensures DeserializeNode(env, direction, format, visiting, data, None) == Node(Err(TypeNotGiven), [])
  {
  }

  /**
   * The scalar fast path comes before listeners and handlers: a scalar or
   * array type makes exactly one visitor call, whatever is registered.
   */
  lemma FastPathComesFirst(env: Env, direction: string, format: string, visiting: set<Value>, data: Value, t: Type)
    requires ScalarVisitMethod(t.name).Some?
    ensures DeserializeNode(env, direction, format, visiting, data, Some(t)).calls
      == [VisitorCall(ScalarVisitMethod(t.name).value, data, t)]
  {
  }

  /** `float` and `double` both reach `visitDouble`. */
  lemma FloatAndDoubleAgree(env: Env, direction: string, format: string, visiting: set<Value>, data: Value, ps: seq<Type>)
    ensures DeserializeNode(env, direction, format, visiting, data, Some(Type("float", ps))).calls
      == [VisitorCall("visitDouble", data, Type("float", ps))]
    ensures DeserializeNode(env, direction, format, visiting, data, Some(Type("double", ps))).calls
      == [VisitorCall("visitDouble", data, Type("double", ps))]
  {
  }

  /** A handler's answer is returned directly: no metadata, no construction. */
  lemma HandlerTakesPrecedence(env: Env, direction: string, format: string, visiting: set<Value>, data: Value, t0: Type)
    requires ScalarVisitMethod(t0.name).None?
    requires Lookup(env.handlers, direction, GraphDeserializerNavigator.PreDeserialize(env, Deserialization, format, data, t0).0.name, format).Some?
    ensures var n := DeserializeNode(env, direction, format, visiting, data, Some(t0));
      n.calls != [] && n.calls[|n.calls| - 1].HandlerCall?
      && n.result == Ok(env.answer(n.calls[|n.calls| - 1]))
      && forall c :: c in n.calls ==> !c.MetadataLoad? && !c.ConstructCall?
  {
    var pre := GraphDeserializerNavigator.PreDeserialize(env, Deserialization, format, data, t0);
    assert forall c :: c in pre.2 ==> c.Dispatch?;
  }

  /**
   * Input already being visited yields null once its metadata is loaded:
   * nothing is constructed, started or visited.
   */
  lemma RevisitYieldsNull(env: Env, format: string, visiting: set<Value>, data: Value, t: Type)
    requires data in visiting
    requires LoadMetadata(env, data, t).0.Ok?
    ensures ObjectNode(env, format, visiting, data, t) == Node(Ok(Null), LoadMetadata(env, data, t).1)
  {
  }

  /**
   * A class the exclusion strategy skips yields null once its metadata is
   * loaded, after the cycle guard admitted it: after the pre event, the
   * only calls are the metadata loads, so nothing is constructed or visited.
   */
  lemma ExcludedClassYieldsNull(env: Env, direction: string, format: string, visiting: set<Value>, data: Value, t0: Type)
    requires ScalarVisitMethod(t0.name).None?
    requires var (t, d, _) := GraphDeserializerNavigator.PreDeserialize(env, Deserialization, format, data, t0);
      Lookup(env.handlers, direction, t.name, format).None? && d !in visiting
      && LoadMetadata(env, d, t).0.Ok? && env.hasExclusion && env.skipClass(LoadMetadata(env, d, t).0.value)
    ensures var (t, d, pre) := GraphDeserializerNavigator.PreDeserialize(env, Deserialization, format, data, t0);
      DeserializeNode(env, direction, format, visiting, data, Some(t0)) == Node(Ok(Null), pre + LoadMetadata(env, d, t).1)
    ensures forall c :: c in DeserializeNode(env, direction, format, visiting, data, Some(t0)).calls ==> c.Dispatch? || c.MetadataLoad?
  {
    var pre := GraphDeserializerNavigator.PreDeserialize(env, Deserialization, format, data, t0);
    assert forall c :: c in pre.2 ==> c.Dispatch?;
  }

  /**
   * The object walk: the pre methods run on the RAW input data, after the
   * object is constructed and before it is started; the teardown runs
   * before `endVisitingObject`, whose answer is the result.
   */
  lemma ObjectWalkOrder(env: Env, format: string, m: ClassMetadata, data: Value, t: Type)
    ensures var (rs, walk) := ObjectWalk(env, format, m, data, t);
      var pre := LifecycleCalls(m, AbstractGraphNavigator.MethodsProperty("pre", Verb), data);
      rs == env.answer(walk[|walk| - 1])
      && walk[0] == ConstructCall(m.name, data, t)
      && walk[1..1 + |pre|] == pre
      && walk[1 + |pre|] == StartObject(m.name, env.answer(walk[0]), t)
      && (forall i :: 1 <= i < 1 + |pre| ==> walk[i].LifecycleCall? && walk[i].subject == data)
      && var post := AbstractGraphNavigator.AbstractPostCalls(env, Verb, format, m, data, t);
         walk[|walk| - 1 - |post|..] == post + [EndObject(m.name, data, t)]
  {
    var (rs, walk) := ObjectWalk(env, format, m, data, t);
    var pre := LifecycleCalls(m, AbstractGraphNavigator.MethodsProperty("pre", Verb), data);
    var post := AbstractGraphNavigator.AbstractPostCalls(env, Verb, format, m, data, t);
    var visits := PropertyVisits(env, m.properties, data, true);
    var start := StartObject(m.name, env.answer(ConstructCall(m.name, data, t)), t);
    assert walk == [ConstructCall(m.name, data, t)] + pre + ([start] + visits) + (post + [EndObject(m.name, data, t)]);
  }

  /** Read-only and excluded properties are never visited. */
  lemma SkippedPropertiesAreNotVisited(env: Env, format: string, m: ClassMetadata, data: Value, t: Type)
    ensures var walk := ObjectWalk(env, format, m, data, t).1;
      (forall p :: p in m.properties && !p.readOnly && !(env.hasExclusion && env.skipProperty(p)) ==>
         PropertyVisit(p.name, data) in walk)
      && (forall name, d :: PropertyVisit(name, d) in walk ==>
            d == data && exists p :: p in m.properties && p.name == name && !p.readOnly && !(env.hasExclusion && env.skipProperty(p)))
  {
    var walk := ObjectWalk(env, format, m, data, t).1;
    var pre := LifecycleCalls(m, AbstractGraphNavigator.MethodsProperty("pre", Verb), data);
    var post := AbstractGraphNavigator.AbstractPostCalls(env, Verb, format, m, data, t);
    var visits := PropertyVisits(env, m.properties, data, true);
    var head := [ConstructCall(m.name, data, t)] + pre + [StartObject(m.name, env.answer(ConstructCall(m.name, data, t)), t)];
    var tail := post + [EndObject(m.name, data, t)];
    assert walk == head + visits + tail;
    assert forall c :: c in post ==> c.LifecycleCall? || c.Dispatch?;
    VisitsInside(head, visits, tail);
    PropertyVisitsExactlyTheKept(env, m.properties, data, true);
  }
}
