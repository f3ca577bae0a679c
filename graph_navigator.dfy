/**
 * The helpers shared by the navigators that extend the base GraphNavigator:
 * lifecycle-callback invocation, listener event names,
 * the post-visit teardown, the scalar fast path and the property loop.
 */
module GraphNavigator {
  import opened Types
  import opened TraversalContext
  import opened Collaborators

  /** The metadata property that lists the lifecycle methods for a phase. */
  function LifecycleProperty(when: string, direction: string): string
  {
    when + (if direction == Serialization then "Serialize" else "Deserialize") + "Methods"
  }

  /** The calls `callLifecycleMethods` makes: each listed method once, in order. */
  function LifecycleCalls(m: ClassMetadata, property: string, subject: Value): (r: seq<Call>)
    ensures property !in m.lifecycle ==> r == []
    ensures property in m.lifecycle ==> |r| == |m.lifecycle[property]|
    ensures property in m.lifecycle ==>
      forall i :: 0 <= i < |r| ==> r[i] == LifecycleCall(m.lifecycle[property][i], subject)
  {
    if property !in m.lifecycle then []
    else
      var methods := m.lifecycle[property];
      seq(|methods|, i requires 0 <= i < |methods| => LifecycleCall(methods[i], subject))
  }

  /** Invokes the `when` lifecycle methods of `m` on `subject`, in list order. */
  method CallLifecycleMethods(when: string, m: ClassMetadata, direction: string, subject: Value)
    returns (calls: seq<Call>)
    ensures calls == LifecycleCalls(m, LifecycleProperty(when, direction), subject)
  {
    var property := when + (if direction == Serialization then "Serialize" else "Deserialize") + "Methods";
    calls := [];
    if property !in m.lifecycle {
      return;
    }
    var methods := m.lifecycle[property];
    var i := 0;
    while i < |methods|
      invariant 0 <= i <= |methods|
      invariant |calls| == i
      invariant forall k :: 0 <= k < i ==> calls[k] == LifecycleCall(methods[k], subject)
    {
      calls := calls + [LifecycleCall(methods[i], subject)];
      i := i + 1;
    }
  }

  /** The event name `hasListener` and `dispatch` use for a phase. */
  function EventName(phase: string, direction: string): string
  {
    "serializer." + phase + "_" + (if direction == Deserialization then "deserialize" else "serialize")
  }

  /** `hasListener`: false without a dispatcher, else the dispatcher's answer. */
  function HasListener(env: Env, phase: string, typeName: string, direction: string, format: string): (r: bool)
    ensures !env.hasDispatcher ==> !r
    ensures env.hasDispatcher ==> r == env.hasListeners(EventName(phase, direction), typeName, format)
  {
    env.hasDispatcher && env.hasListeners(EventName(phase, direction), typeName, format)
  }

  /** How a navigator releases a node's scope (`leaveScope`). */
  datatype Scope = VisitingSet | DepthCounter

  /**
   * The calls `afterVisitingObject` makes once the scope is released: the
   * post lifecycle methods on `subject`, then the post event if a listener
   * exists for the TYPE name; the event is dispatched under the METADATA name.
   */
  function PostCalls(env: Env, direction: string, format: string, m: ClassMetadata, subject: Value, t: Type): seq<Call>
  {
    LifecycleCalls(m, LifecycleProperty("post", direction), subject)
    + (if HasListener(env, "post", t.name, direction, format)
       then [Dispatch(EventName("post", direction), m.name, format, subject, t)]
       else [])
  }

  /** The teardown after an object node: leaveScope, pop metadata, post callbacks, post event. */
  method AfterVisitingObject(ctx: Context, env: Env, m: ClassMetadata, subject: Value, t: Type, scope: Scope)
    returns (calls: seq<Call>)
    modifies ctx
    ensures calls == PostCalls(env, ctx.direction, ctx.format, m, subject, t)
    ensures scope == VisitingSet ==> ctx.visiting == old(ctx.visiting) - {subject} && ctx.depth == old(ctx.depth)
    ensures scope == DepthCounter ==> ctx.depth == old(ctx.depth) - 1 && ctx.visiting == old(ctx.visiting)
    ensures ctx.classStack == if old(ctx.classStack) == [] then [] else old(ctx.classStack)[..|old(ctx.classStack)| - 1]
    ensures ctx.propertyStack == old(ctx.propertyStack)
  {
    if scope == VisitingSet {
      ctx.StopVisiting(subject);
    } else {
      ctx.DecreaseDepth();
    }
    ctx.PopClassMetadata();
    calls := CallLifecycleMethods("post", m, ctx.direction, subject);
    if env.hasDispatcher && env.hasListeners(EventName("post", ctx.direction), t.name, ctx.format) {
      calls := calls + [Dispatch(EventName("post", ctx.direction), m.name, ctx.format, subject, t)];
    }
  }

  /**
   * The scalar fast path of the navigators' `switch` on the type name:
   * the visitor method a scalar or array type goes to.
   */
  function ScalarVisitMethod(name: string): (r: Option<string>)
    ensures r.Some? <==> name in {"NULL", "string", "integer", "boolean", "double", "float", "array"}
    ensures name == "double" || name == "float" ==> r == Some("visitDouble")
  {
    match name
    case "NULL" => Some("visitNull")
    case "string" => Some("visitString")
    case "integer" => Some("visitInteger")
    case "boolean" => Some("visitBoolean")
    case "double" => Some("visitDouble")
    case "float" => Some("visitDouble")
    case "array" => Some("visitArray")
    case _ => None
  }

  /** Whether the property loop skips `p`. */
  predicate Skipped(env: Env, p: PropertyMetadata, skipReadOnly: bool) {
    (skipReadOnly && p.readOnly) || (env.hasExclusion && env.skipProperty(p))
  }

  /** The `visitProperty` calls of the property loop, in declaration order. */
  function PropertyVisits(env: Env, props: seq<PropertyMetadata>, data: Value, skipReadOnly: bool): (r: seq<Call>)
    ensures |r| <= |props|
    ensures forall c :: c in r ==> c.PropertyVisit? && c.data == data
  {
    if props == [] then []
    else
      var rest := PropertyVisits(env, props[..|props| - 1], data, skipReadOnly);
      var p := props[|props| - 1];
      if Skipped(env, p, skipReadOnly) then rest else rest + [PropertyVisit(p.name, data)]
  }

  /**
   * The property loop: each property not skipped is pushed on the property
   * stack, visited, and popped again.
   */
  method VisitProperties(ctx: Context, env: Env, props: seq<PropertyMetadata>, data: Value, skipReadOnly: bool)
    returns (calls: seq<Call>)
    modifies ctx
    ensures calls == PropertyVisits(env, props, data, skipReadOnly)
    ensures ctx.propertyStack == old(ctx.propertyStack)
    ensures ctx.visiting == old(ctx.visiting) && ctx.classStack == old(ctx.classStack) && ctx.depth == old(ctx.depth)
  {
    calls := [];
    var i := 0;
    while i < |props|
      invariant 0 <= i <= |props|
      invariant calls == PropertyVisits(env, props[..i], data, skipReadOnly)
      invariant ctx.propertyStack == old(ctx.propertyStack)
      invariant ctx.visiting == old(ctx.visiting) && ctx.classStack == old(ctx.classStack) && ctx.depth == old(ctx.depth)
    {
      var p := props[i];
      assert props[..i + 1][..i] == props[..i];
      if !((skipReadOnly && p.readOnly) || (env.hasExclusion && env.skipProperty(p))) {
        ctx.PushPropertyMetadata(p);
        calls := calls + [PropertyVisit(p.name, data)];
        ctx.PopPropertyMetadata();
      }
      i := i + 1;
    }
    assert props[..|props|] == props;
  }

  /** A property is visited exactly when it is not skipped, and in declaration order. */
  lemma {:induction false} PropertyVisitsAreTheUnskipped(env: Env, props: seq<PropertyMetadata>, data: Value, skipReadOnly: bool)
    ensures PropertyVisits(env, props, data, skipReadOnly)
      == seq(|Unskipped(env, props, skipReadOnly)|, i requires 0 <= i < |Unskipped(env, props, skipReadOnly)| =>
               PropertyVisit(Unskipped(env, props, skipReadOnly)[i].name, data))
    ensures forall p :: p in Unskipped(env, props, skipReadOnly) <==> p in props && !Skipped(env, p, skipReadOnly)
  {
    if props != [] {
      PropertyVisitsAreTheUnskipped(env, props[..|props| - 1], data, skipReadOnly);
    }
  }

  /** The properties of `props` the loop does not skip, in their order. */
  function Unskipped(env: Env, props: seq<PropertyMetadata>, skipReadOnly: bool): seq<PropertyMetadata> {
    if props == [] then []
    else
      var rest := Unskipped(env, props[..|props| - 1], skipReadOnly);
      var p := props[|props| - 1];
      if Skipped(env, p, skipReadOnly) then rest else rest + [p]
  }

  /** The first and last parts of a walk made of three parts. */
  lemma Parts(head: seq<Call>, visits: seq<Call>, tail: seq<Call>)
    ensures (head + visits + tail)[..|head|] == head
    ensures (head + visits + tail)[|head| + |visits|..] == tail
  {
    assert (head + visits + tail)[..|head|] == head;
    assert (head + visits + tail)[|head| + |visits|..] == tail;
  }

  /** Property visits among calls that are not property visits are found in their own part only. */
  lemma VisitsInside(before: seq<Call>, visits: seq<Call>, after: seq<Call>)
    requires forall c :: c in before ==> !c.PropertyVisit?
    requires forall c :: c in after ==> !c.PropertyVisit?
    ensures forall name, d :: PropertyVisit(name, d) in before + visits + after <==> PropertyVisit(name, d) in visits
  {
  }

  /**
   * The property loop as a set of visits: every property that is not
   * skipped is visited on `data`, and every visit is of such a property.
   */
  lemma PropertyVisitsExactlyTheKept(env: Env, props: seq<PropertyMetadata>, data: Value, skipReadOnly: bool)
    ensures forall p :: p in props && !Skipped(env, p, skipReadOnly) ==>
      PropertyVisit(p.name, data) in PropertyVisits(env, props, data, skipReadOnly)
    ensures forall name, d :: PropertyVisit(name, d) in PropertyVisits(env, props, data, skipReadOnly) ==>
      d == data && exists p :: p in props && p.name == name && !Skipped(env, p, skipReadOnly)
  {
    var visits := PropertyVisits(env, props, data, skipReadOnly);
    PropertyVisitsAreTheUnskipped(env, props, data, skipReadOnly);
    var kept := Unskipped(env, props, skipReadOnly);
    forall p | p in props && !Skipped(env, p, skipReadOnly)
      ensures PropertyVisit(p.name, data) in visits
    {
      var i :| 0 <= i < |kept| && kept[i] == p;
      assert visits[i] == PropertyVisit(p.name, data);
    }
    forall name, d | PropertyVisit(name, d) in visits
      ensures d == data && exists p :: p in props && p.name == name && !Skipped(env, p, skipReadOnly)
    {
      var i :| 0 <= i < |visits| && visits[i] == PropertyVisit(name, d);
      assert kept[i] in props;
    }
  }
}
